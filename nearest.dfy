/**
 * The nearest-birthday search.
 *
 * Starting from a date, the page collects the players born on exactly that
 * date (day, month and birth year), then widens the search one day at a
 * time: one day later (unless the date is already known to be younger than
 * every player) and then one day earlier, until at least five players have
 * been found.
 */
module Nearest {
  import opened Calendar
  import opened Players
  import opened Sequences

  /** One line of the result: a player's name, WAR and birth date. */
  datatype Entry = Entry(name: string, war: real, date: Date)

  /** The rows of a bucket whose birth year is `year`, in row order. */
  function BornIn(b: seq<Record>, year: int): (rows: seq<Record>)
    ensures |rows| <= |b|
  {
    if b == [] then [] else (if b[0].born == year then [b[0]] else []) + BornIn(b[1..], year)
  }

  /** The filter keeps every copy of a row born in the year and drops every other row. */
  lemma {:induction false} BornInCounts(b: seq<Record>, year: int)
    ensures forall r :: multiset(BornIn(b, year))[r] == if r.born == year then multiset(b)[r] else 0
  {
    if b != [] {
      assert b == [b[0]] + b[1..];
      BornInCounts(b[1..], year);
    }
  }

  /** search_day: the players of the date's bucket born in the date's year. */
  function SearchDay(allData: Buckets, d: Date): (rows: seq<Record>)
    requires WellShaped(allData) && ValidDate(d)
    ensures |rows| <= |BucketOf(allData, d)|
  {
    BornIn(BucketOf(allData, d), d.year)
  }

  /** search_day finds exactly the players of the date's bucket born in the date's year. */
  lemma SearchDayFinds(allData: Buckets, d: Date)
    requires WellShaped(allData) && ValidDate(d)
    ensures forall r :: r in SearchDay(allData, d) <==> r in BucketOf(allData, d) && r.born == d.year
  {
    BornInCounts(BucketOf(allData, d), d.year);
    assert forall r :: r in SearchDay(allData, d) <==> multiset(SearchDay(allData, d))[r] > 0;
  }

  /** The result lines for rows found on date d, in row order. */
  function EntriesOf(rows: seq<Record>, d: Date): (es: seq<Entry>)
    ensures |es| == |rows|
  {
    if rows == [] then [] else EntriesOf(rows[..|rows| - 1], d) + [Entry(rows[|rows| - 1].name, rows[|rows| - 1].war, d)]
  }

  /** Line i is the name and WAR of row i, dated d. */
  lemma {:induction false} EntriesOfAt(rows: seq<Record>, d: Date)
    ensures forall i :: 0 <= i < |rows| ==> EntriesOf(rows, d)[i] == Entry(rows[i].name, rows[i].war, d)
  {
    if rows != [] {
      EntriesOfAt(rows[..|rows| - 1], d);
    }
  }

  /** Every player a probe of date d finds, as result lines. */
  function Matches(allData: Buckets, d: Date): seq<Entry>
    requires WellShaped(allData) && ValidDate(d)
  {
    EntriesOf(SearchDay(allData, d), d)
  }


  /** The date n days after `start`: add_day applied n times. */
  function Later(start: Date, n: nat): (d: Date)
    requires ValidDate(start)
    ensures ValidDate(d)
  {
    if n == 0 then start else AddDay(Later(start, n - 1))
  }

  /** The date n days before `start`: subtract_day applied n times. */
  function Earlier(start: Date, n: nat): (d: Date)
    requires ValidDate(start)
    ensures ValidDate(d)
  {
    if n == 0 then start else SubtractDay(Earlier(start, n - 1))
  }

  /** n steps of add_day move n days forward on the day line. */
  lemma {:induction false} LaterIsAhead(start: Date, n: nat)
    requires ValidDate(start)
    ensures DayNumber(Later(start, n)) == DayNumber(start) + n
  {
    if n > 0 {
      LaterIsAhead(start, n - 1);
      AddDayIsSuccessor(Later(start, n - 1));
    }
  }

  /** n steps of subtract_day move n days back on the day line. */
  lemma {:induction false} EarlierIsBehind(start: Date, n: nat)
    requires ValidDate(start)
    ensures DayNumber(Earlier(start, n)) + n == DayNumber(start)
  {
    if n > 0 {
      EarlierIsBehind(start, n - 1);
      SubtractDayIsPredecessor(Earlier(start, n - 1));
    }
  }

  /** What the page finds n days after `date`: the lines for the players search_day returns for that day. */
  function Ahead(allData: Buckets, date: Date): nat -> seq<Entry>
    requires WellShaped(allData) && ValidDate(date)
  {
    (n: nat) => Matches(allData, Later(date, n))
  }

  /** What the page finds n days before `date`. */
  function Behind(allData: Buckets, date: Date): nat -> seq<Entry>
    requires WellShaped(allData) && ValidDate(date)
  {
    (n: nat) => Matches(allData, Earlier(date, n))
  }

  /**
   * Round k of the widening, given what is found n days ahead and n days
   * behind: the lines k days later (unless younger), then those k days earlier.
   */
  function Round(ahead: nat -> seq<Entry>, behind: nat -> seq<Entry>, younger: bool, k: nat): seq<Entry> {
    (if younger then [] else ahead(k)) + behind(k)
  }

  /** The list after k rounds of widening: the lines found on the date itself, then rounds 1 to k in order. */
  function Expansion(ahead: nat -> seq<Entry>, behind: nat -> seq<Entry>, younger: bool, k: nat): seq<Entry> {
    if k == 0 then ahead(0)
    else Expansion(ahead, behind, younger, k - 1) + Round(ahead, behind, younger, k)
  }

  /** The inner loop of one probe: appends a line per row found on date d. */
  method AppendMatches(closest: seq<Entry>, rows: seq<Record>, d: Date) returns (r: seq<Entry>)
    ensures r == closest + EntriesOf(rows, d)
  {
    r := closest;
    for i := 0 to |rows|
      invariant r == closest + EntriesOf(rows[..i], d)
    {
      assert rows[..i + 1][..i] == rows[..i];
      r := r + [Entry(rows[i].name, rows[i].war, d)];
    }
    assert rows[..|rows|] == rows;
  }

  /** search_day on date d, then one line appended per row it returns. */
  method ProbeDay(allData: Buckets, d: Date, closest: seq<Entry>) returns (r: seq<Entry>)
    requires WellShaped(allData) && ValidDate(d)
    ensures r == closest + Matches(allData, d)
  {
    var rows := SearchDay(allData, d);
    r := AppendMatches(closest, rows, d);
  }

  /**
   * find_5_closest_players, from the date and the younger_than_all flag the
   * page has already worked out. The search stops as soon as at least five
   * lines are collected, or when `fuel` rounds have been made.
   */
  method FindClosestPlayers(allData: Buckets, date: Date, younger: bool, fuel: nat)
    returns (closest: seq<Entry>, rounds: nat)
    requires WellShaped(allData) && ValidDate(date)
    ensures rounds <= fuel
    ensures closest == PageExpansion(allData, date, younger, rounds)
    ensures |closest| >= 5 || rounds == fuel
    ensures forall k :: 0 <= k < rounds ==> |PageExpansion(allData, date, younger, k)| < 5
  {
    closest := ProbeDay(allData, date, []);
    PageStart(allData, date, younger);
    var nextDay, prevDay := date, date;
    rounds := 0;
    while |closest| < 5 && rounds < fuel
      invariant rounds <= fuel
      invariant closest == PageExpansion(allData, date, younger, rounds)
      invariant nextDay == if younger then date else Later(date, rounds)
      invariant prevDay == Earlier(date, rounds)
      invariant ShortUntil(allData, date, younger, rounds)
      decreases fuel - rounds
    {
      ShortExtend(allData, date, younger, rounds);
      nextDay, prevDay, closest := Widen(allData, younger, nextDay, prevDay, closest);
      PageStep(allData, date, younger, rounds + 1);
      rounds := rounds + 1;
    }
  }

  /**
   * The list the page holds after k rounds: the matches on the date itself,
   * then for each round the matches k days later (unless younger) and those
   * k days earlier.
   */
  function PageExpansion(allData: Buckets, date: Date, younger: bool, k: nat): seq<Entry>
    requires WellShaped(allData) && ValidDate(date)
  {
    Expansion(Ahead(allData, date), Behind(allData, date), younger, k)
  }

  /** Before any round, the page holds the matches on the date itself. */
  lemma PageStart(allData: Buckets, date: Date, younger: bool)
    requires WellShaped(allData) && ValidDate(date)
    ensures PageExpansion(allData, date, younger, 0) == Matches(allData, date)
  {
    assert Ahead(allData, date)(0) == Matches(allData, Later(date, 0));
  }

  /** Round k appends the matches k days later (unless younger), then those k days earlier. */
  lemma PageStep(allData: Buckets, date: Date, younger: bool, k: nat)
    requires WellShaped(allData) && ValidDate(date) && k >= 1
    ensures PageExpansion(allData, date, younger, k)
      == PageExpansion(allData, date, younger, k - 1)
        + (if younger then [] else Matches(allData, Later(date, k)))
        + Matches(allData, Earlier(date, k))
  {
    RoundStep(Ahead(allData, date), Behind(allData, date), younger, k,
      Matches(allData, Later(date, k)), Matches(allData, Earlier(date, k)));
  }

  /** Fewer than five lines were collected after each of the first n rounds. */
  predicate ShortUntil(allData: Buckets, date: Date, younger: bool, n: nat)
    requires WellShaped(allData) && ValidDate(date)
  {
    forall k :: 0 <= k < n ==> |PageExpansion(allData, date, younger, k)| < 5
  }

  lemma ShortExtend(allData: Buckets, date: Date, younger: bool, n: nat)
    requires WellShaped(allData) && ValidDate(date)
    requires ShortUntil(allData, date, younger, n) && |PageExpansion(allData, date, younger, n)| < 5
    ensures ShortUntil(allData, date, younger, n + 1)
  {
  }

  /**
   * One pass of the while loop of find_5_closest_players: unless younger,
   * step the later day forward and append its matches; then step the earlier
   * day back and append its matches.
   */
  method Widen(allData: Buckets, younger: bool, nextDay: Date, prevDay: Date, closest: seq<Entry>)
    returns (nextDay': Date, prevDay': Date, closest': seq<Entry>)
    requires WellShaped(allData) && ValidDate(nextDay) && ValidDate(prevDay)
    ensures nextDay' == if younger then nextDay else AddDay(nextDay)
    ensures prevDay' == SubtractDay(prevDay)
    ensures ValidDate(nextDay') && ValidDate(prevDay')
    ensures closest' == closest + (if younger then [] else Matches(allData, nextDay')) + Matches(allData, prevDay')
  {
    nextDay', closest' := nextDay, closest;
    if !younger {
      nextDay' := AddDay(nextDay);
      closest' := ProbeDay(allData, nextDay', closest');
    }
    prevDay' := SubtractDay(prevDay);
    closest' := ProbeDay(allData, prevDay', closest');
  }

  /** One more round appends what is found ahead (unless younger), then what is found behind. */
  lemma RoundStep(ahead: nat -> seq<Entry>, behind: nat -> seq<Entry>, younger: bool, k: nat, later: seq<Entry>, earlier: seq<Entry>)
    requires k >= 1 && ahead(k) == later && behind(k) == earlier
    ensures Expansion(ahead, behind, younger, k)
      == Expansion(ahead, behind, younger, k - 1) + (if younger then [] else later) + earlier
  {
    AppendAssoc(Expansion(ahead, behind, younger, k - 1), if younger then [] else later, earlier);
  }

  /** Days between two dates of the simplified calendar. */
  function Distance(d: Date, date: Date): nat
    requires 1 <= d.month <= 12 && 1 <= date.month <= 12
  {
    var n := DayNumber(d) - DayNumber(date);
    if n < 0 then -n else n
  }

  /** Every line's date is valid and at most m days from `date`. */
  predicate Within(es: seq<Entry>, date: Date, m: int)
    requires 1 <= date.month <= 12
  {
    forall i :: 0 <= i < |es| ==> ValidDate(es[i].date) && Distance(es[i].date, date) <= m
  }

  /** Every line's date is valid and exactly m days from `date`. */
  predicate AllAt(es: seq<Entry>, date: Date, m: int)
    requires 1 <= date.month <= 12
  {
    forall i :: 0 <= i < |es| ==> ValidDate(es[i].date) && Distance(es[i].date, date) == m
  }

  /** Lines never get closer to `date` further down the list. */
  predicate NearestFirst(es: seq<Entry>, date: Date)
    requires 1 <= date.month <= 12
  {
    forall i, j :: 0 <= i < j < |es| ==>
      ValidDate(es[i].date) && ValidDate(es[j].date) && Distance(es[i].date, date) <= Distance(es[j].date, date)
  }

  /** Every line's date is valid and lies n days after `date`. */
  predicate DaysAfter(es: seq<Entry>, date: Date, n: nat)
    requires 1 <= date.month <= 12
  {
    forall i :: 0 <= i < |es| ==> ValidDate(es[i].date) && DayNumber(es[i].date) == DayNumber(date) + n
  }

  /** Every line's date is valid and lies n days before `date`. */
  predicate DaysBefore(es: seq<Entry>, date: Date, n: nat)
    requires 1 <= date.month <= 12
  {
    forall i :: 0 <= i < |es| ==> ValidDate(es[i].date) && DayNumber(es[i].date) + n == DayNumber(date)
  }

  /** What is found n days ahead is dated n days after `date`, and what is found n days behind n days before it. */
  ghost predicate DatedWalks(ahead: nat -> seq<Entry>, behind: nat -> seq<Entry>, date: Date)
    requires 1 <= date.month <= 12
  {
    (forall n: nat :: DaysAfter(ahead(n), date, n)) && (forall n: nat :: DaysBefore(behind(n), date, n))
  }

  /** The page's lines are dated with the day they were found on. */
  lemma PageWalksDated(allData: Buckets, date: Date)
    requires WellShaped(allData) && ValidDate(date)
    ensures DatedWalks(Ahead(allData, date), Behind(allData, date), date)
  {
    forall n: nat ensures DaysAfter(Ahead(allData, date)(n), date, n) {
      MatchesDated(allData, Later(date, n));
      LaterIsAhead(date, n);
    }
    forall n: nat ensures DaysBefore(Behind(allData, date)(n), date, n) {
      MatchesDated(allData, Earlier(date, n));
      EarlierIsBehind(date, n);
    }
  }

  /** Every line of a probe carries the probed date. */
  lemma MatchesDated(allData: Buckets, d: Date)
    requires WellShaped(allData) && ValidDate(d)
    ensures forall i :: 0 <= i < |Matches(allData, d)| ==> Matches(allData, d)[i].date == d
  {
    EntriesOfAt(SearchDay(allData, d), d);
  }

  /** Round k finds only lines exactly k days away. */
  lemma RoundAt(ahead: nat -> seq<Entry>, behind: nat -> seq<Entry>, date: Date, younger: bool, k: nat)
    requires ValidDate(date) && DatedWalks(ahead, behind, date)
    ensures AllAt(Round(ahead, behind, younger, k), date, k)
  {
    assert DaysAfter(ahead(k), date, k) && DaysBefore(behind(k), date, k);
  }

  /** Appending lines all m days away to a nearest-first list within m days keeps it nearest-first. */
  lemma AppendFarther(xs: seq<Entry>, ys: seq<Entry>, date: Date, m: int)
    requires 1 <= date.month <= 12
    requires NearestFirst(xs, date) && Within(xs, date, m) && AllAt(ys, date, m)
    ensures NearestFirst(xs + ys, date) && Within(xs + ys, date, m)
  {
    var zs := xs + ys;
    forall i, j | 0 <= i < j < |zs|
      ensures ValidDate(zs[i].date) && ValidDate(zs[j].date) && Distance(zs[i].date, date) <= Distance(zs[j].date, date)
    {
      if j < |xs| {
        assert zs[i] == xs[i] && zs[j] == xs[j];
      } else if i < |xs| {
        assert zs[i] == xs[i] && zs[j] == ys[j - |xs|];
      } else {
        assert zs[i] == ys[i - |xs|] && zs[j] == ys[j - |xs|];
      }
    }
  }

  /**
   * After k rounds, every line is at most k days from the date, and the
   * distance never decreases along the list: exact-date matches first, then
   * one day away, then two, and so on.
   */
  lemma {:induction false} ExpansionNearestFirst(ahead: nat -> seq<Entry>, behind: nat -> seq<Entry>, date: Date, younger: bool, k: nat)
    requires ValidDate(date) && DatedWalks(ahead, behind, date)
    ensures NearestFirst(Expansion(ahead, behind, younger, k), date)
    ensures Within(Expansion(ahead, behind, younger, k), date, k)
  {
    if k == 0 {
      assert DaysAfter(ahead(0), date, 0);
    } else {
      ExpansionNearestFirst(ahead, behind, date, younger, k - 1);
      RoundAt(ahead, behind, date, younger, k);
      AppendFarther(Expansion(ahead, behind, younger, k - 1), Round(ahead, behind, younger, k), date, k);
    }
  }

  /** Every line's date is valid and no later than `date`. */
  predicate NoLater(es: seq<Entry>, date: Date)
    requires 1 <= date.month <= 12
  {
    forall i :: 0 <= i < |es| ==> ValidDate(es[i].date) && DayNumber(es[i].date) <= DayNumber(date)
  }

  /** When the date is younger than every player, the search only looks backwards. */
  lemma {:induction false} ExpansionBackward(ahead: nat -> seq<Entry>, behind: nat -> seq<Entry>, date: Date, k: nat)
    requires ValidDate(date) && DatedWalks(ahead, behind, date)
    ensures NoLater(Expansion(ahead, behind, true, k), date)
  {
    if k == 0 {
      assert DaysAfter(ahead(0), date, 0);
    } else {
      ExpansionBackward(ahead, behind, date, k - 1);
      assert DaysBefore(behind(k), date, k);
      NoLaterAppend(Expansion(ahead, behind, true, k - 1), behind(k), date, k);
    }
  }

  lemma NoLaterAppend(xs: seq<Entry>, ys: seq<Entry>, date: Date, n: nat)
    requires ValidDate(date) && NoLater(xs, date) && DaysBefore(ys, date, n)
    ensures NoLater(xs + ([] + ys), date)
  {
    assert [] + ys == ys;
  }

  /** Each round only appends: the list after j rounds begins the list after k >= j rounds. */
  lemma {:induction false} ExpansionGrows(ahead: nat -> seq<Entry>, behind: nat -> seq<Entry>, younger: bool, j: nat, k: nat)
    requires j <= k
    ensures IsPrefix(Expansion(ahead, behind, younger, j), Expansion(ahead, behind, younger, k))
  {
    if j == k {
      SelfPrefix(Expansion(ahead, behind, younger, k));
    } else {
      ExpansionGrows(ahead, behind, younger, j, k - 1);
      AppendPrefix(Expansion(ahead, behind, younger, k - 1), Round(ahead, behind, younger, k));
      PrefixTrans(Expansion(ahead, behind, younger, j), Expansion(ahead, behind, younger, k - 1),
        Expansion(ahead, behind, younger, k));
    }
  }

  /** The exact-date matches come first, whatever number of rounds follows. */
  lemma ExactMatchesFirst(ahead: nat -> seq<Entry>, behind: nat -> seq<Entry>, younger: bool, k: nat)
    ensures IsPrefix(ahead(0), Expansion(ahead, behind, younger, k))
  {
    ExpansionGrows(ahead, behind, younger, 0, k);
  }

  /**
   * Nobody is skipped: after k rounds, every line found up to k days ahead
   * (only the date itself when younger) and every line found 1 to k days
   * behind is listed.
   */
  lemma {:induction false} ExpansionComplete(ahead: nat -> seq<Entry>, behind: nat -> seq<Entry>, younger: bool, k: nat, n: nat, e: Entry)
    requires n <= k
    requires (e in ahead(n) && (younger ==> n == 0)) || (e in behind(n) && n >= 1)
    ensures e in Expansion(ahead, behind, younger, k)
  {
    if n < k {
      ExpansionComplete(ahead, behind, younger, k - 1, n, e);
    }
  }

  /** A row found by a probe appears as a line of that probe. */
  lemma {:induction false} EntryOfRow(rows: seq<Record>, d: Date, r: Record)
    requires r in rows
    ensures Entry(r.name, r.war, d) in EntriesOf(rows, d)
  {
    var i :| 0 <= i < |rows| && rows[i] == r;
    EntriesOfAt(rows, d);
    assert EntriesOf(rows, d)[i] == Entry(r.name, r.war, d);
  }

  /** A line is a real match: a player of its date's bucket, born in its date's year. */
  predicate IsMatch(allData: Buckets, e: Entry)
    requires WellShaped(allData)
  {
    ValidDate(e.date)
    && exists r :: r in BucketOf(allData, e.date) && r.born == e.date.year && r.name == e.name && r.war == e.war
  }

  predicate AllMatch(allData: Buckets, es: seq<Entry>)
    requires WellShaped(allData)
  {
    forall i :: 0 <= i < |es| ==> IsMatch(allData, es[i])
  }

  /** Every line listed is a real match when every line found is. */
  lemma {:induction false} ExpansionSound(allData: Buckets, ahead: nat -> seq<Entry>, behind: nat -> seq<Entry>, younger: bool, k: nat)
    requires WellShaped(allData)
    requires forall n: nat :: AllMatch(allData, ahead(n))
    requires forall n: nat :: AllMatch(allData, behind(n))
    ensures AllMatch(allData, Expansion(ahead, behind, younger, k))
  {
    if k > 0 {
      ExpansionSound(allData, ahead, behind, younger, k - 1);
      var later: seq<Entry> := if younger then [] else ahead(k);
      assert AllMatch(allData, later) && AllMatch(allData, behind(k));
      AllMatchAppend(allData, later, behind(k));
      AllMatchAppend(allData, Expansion(ahead, behind, younger, k - 1), Round(ahead, behind, younger, k));
    } else {
      assert AllMatch(allData, ahead(0));
    }
  }

  lemma AllMatchAppend(allData: Buckets, xs: seq<Entry>, ys: seq<Entry>)
    requires WellShaped(allData) && AllMatch(allData, xs) && AllMatch(allData, ys)
    ensures AllMatch(allData, xs + ys)
  {
    forall i | 0 <= i < |xs + ys| ensures IsMatch(allData, (xs + ys)[i]) {
      if i < |xs| {
        assert (xs + ys)[i] == xs[i];
      } else {
        assert (xs + ys)[i] == ys[i - |xs|];
      }
    }
  }

  /** Each line of a probe is a player of the probed bucket born in the probed year. */
  lemma MatchesSound(allData: Buckets, d: Date)
    requires WellShaped(allData) && ValidDate(d)
    ensures AllMatch(allData, Matches(allData, d))
  {
    var rows := SearchDay(allData, d);
    EntriesOfAt(rows, d);
    SearchDayFinds(allData, d);
    forall i | 0 <= i < |rows| ensures IsMatch(allData, Matches(allData, d)[i]) {
      assert rows[i] in rows;
    }
  }

  /** The page finds only real matches, ahead and behind. */
  lemma PageWalksSound(allData: Buckets, date: Date)
    requires WellShaped(allData) && ValidDate(date)
    ensures forall n: nat :: AllMatch(allData, Ahead(allData, date)(n))
    ensures forall n: nat :: AllMatch(allData, Behind(allData, date)(n))
  {
    forall n: nat ensures AllMatch(allData, Ahead(allData, date)(n)) {
      MatchesSound(allData, Later(date, n));
    }
    forall n: nat ensures AllMatch(allData, Behind(allData, date)(n)) {
      MatchesSound(allData, Earlier(date, n));
    }
  }

  /**
   * What the list holds after any number of rounds of the page's search:
   * exact-date matches first, distance never decreasing and at most k days,
   * only real matches, and only earlier dates when younger.
   */
  lemma ClosestPlayersProperties(allData: Buckets, date: Date, younger: bool, k: nat)
    requires WellShaped(allData) && ValidDate(date)
    ensures IsPrefix(Matches(allData, date), PageExpansion(allData, date, younger, k))
    ensures NearestFirst(PageExpansion(allData, date, younger, k), date)
    ensures Within(PageExpansion(allData, date, younger, k), date, k)
    ensures AllMatch(allData, PageExpansion(allData, date, younger, k))
    ensures younger ==> NoLater(PageExpansion(allData, date, younger, k), date)
  {
    var ahead, behind := Ahead(allData, date), Behind(allData, date);
    ExactMatchesFirst(ahead, behind, younger, k);
    assert ahead(0) == Matches(allData, date);
    PageWalksDated(allData, date);
    ExpansionNearestFirst(ahead, behind, date, younger, k);
    PageWalksSound(allData, date);
    ExpansionSound(allData, ahead, behind, younger, k);
    if younger {
      ExpansionBackward(ahead, behind, date, k);
    }
  }

  /**
   * Nobody is skipped by the page's search: after k rounds, every player born
   * on a date up to k days later (only the date itself when younger) or up to
   * k days earlier is listed.
   */
  lemma ClosestPlayersComplete(allData: Buckets, date: Date, younger: bool, k: nat, n: nat, d: Date, r: Record)
    requires WellShaped(allData) && ValidDate(date) && n <= k
    requires (d == Later(date, n) && (younger ==> n == 0)) || (d == Earlier(date, n) && n >= 1)
    requires r in BucketOf(allData, d) && r.born == d.year
    ensures Entry(r.name, r.war, d) in PageExpansion(allData, date, younger, k)
  {
    SearchDayFinds(allData, d);
    EntryOfRow(SearchDay(allData, d), d, r);
    FoundIsListed(allData, date, younger, k, n, Entry(r.name, r.war, d));
  }

  /** A line found up to k days ahead (only on the date when younger) or 1 to k days behind is listed after k rounds. */
  lemma FoundIsListed(allData: Buckets, date: Date, younger: bool, k: nat, n: nat, e: Entry)
    requires WellShaped(allData) && ValidDate(date) && n <= k
    requires (e in Matches(allData, Later(date, n)) && (younger ==> n == 0))
      || (e in Matches(allData, Earlier(date, n)) && n >= 1)
    ensures e in PageExpansion(allData, date, younger, k)
  {
    var ahead, behind := Ahead(allData, date), Behind(allData, date);
    assert ahead(n) == Matches(allData, Later(date, n));
    assert behind(n) == Matches(allData, Earlier(date, n));
    ExpansionComplete(ahead, behind, younger, k, n, e);
  }
}
