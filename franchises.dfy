/**
 * The franchise tally of the birthday page: the "Franchises" strings of the
 * day's players are joined with commas, the result is split on commas, and
 * every token is counted in a dictionary.
 *
 * Joining and splitting follow Python's ','.join and str.split(sep=","):
 * splitting never drops empty tokens, so "" splits to [""] and "a,,b" to
 * ["a", "", "b"].
 */
module Franchises {
  import opened Players
  import opened Sequences

  /** ','.join(parts). */
  function JoinComma(parts: seq<string>): string {
    if |parts| == 0 then ""
    else if |parts| == 1 then parts[0]
    else parts[0] + "," + JoinComma(parts[1..])
  }

  /** str.split(s, sep=","): the pieces between commas, empty ones included. */
  function Split(s: string): (parts: seq<string>)
    ensures |parts| >= 1
    ensures forall i :: 0 <= i < |parts| ==> ',' !in parts[i]
  {
    if s == [] then [""]
    else
      var rest := Split(s[1..]);
      if s[0] == ',' then [""] + rest
      else [[s[0]] + rest[0]] + rest[1..]
  }

  /** A string with no comma splits to itself. */
  lemma {:induction false} SplitNoComma(s: string)
    requires ',' !in s
    ensures Split(s) == [s]
  {
    if s != [] {
      assert ',' !in s[1..];
      SplitNoComma(s[1..]);
      assert [s[0]] + s[1..] == s;
    }
  }

  /** Split of a string seen as its first character and the rest. */
  lemma SplitCons(x: char, t: string)
    ensures Split([x] + t) == if x == ',' then [""] + Split(t) else [[x] + Split(t)[0]] + Split(t)[1..]
  {
    assert ([x] + t)[1..] == t;
  }

  /** Splitting at a comma splits each side independently. */
  lemma {:induction false} SplitConcat(a: string, b: string)
    ensures Split(a + "," + b) == Split(a) + Split(b)
  {
    if a == [] {
      assert a + "," + b == [','] + b;
      SplitCons(',', b);
    } else {
      var x, tail := a[0], a[1..] + "," + b;
      assert a == [x] + a[1..];
      AppendAssoc([x], a[1..], ",");
      AppendAssoc([x], a[1..] + ",", b);
      assert a + "," + b == [x] + tail;
      SplitCons(x, tail);
      SplitCons(x, a[1..]);
      SplitConcat(a[1..], b);
      var ra, rb := Split(a[1..]), Split(b);
      if x == ',' {
        AppendAssoc([""], ra, rb);
      } else {
        assert (ra + rb)[0] == ra[0];
        assert (ra + rb)[1..] == ra[1..] + rb;
        AppendAssoc([[x] + ra[0]], ra[1..], rb);
      }
    }
  }

  /** Prepending a character to the first part prepends it to the joined string. */
  lemma JoinCons(c: char, ps: seq<string>)
    requires |ps| >= 1
    ensures JoinComma([[c] + ps[0]] + ps[1..]) == [c] + JoinComma(ps)
  {
    var qs := [[c] + ps[0]] + ps[1..];
    assert qs[0] == [c] + ps[0];
    if |ps| > 1 {
      assert qs[1..] == ps[1..];
      var t := JoinComma(ps[1..]);
      AppendAssoc([c], ps[0], ",");
      AppendAssoc([c], ps[0] + ",", t);
    }
  }

  /** Joining the pieces of a split gives back the string. */
  lemma {:induction false} JoinOfSplit(s: string)
    ensures JoinComma(Split(s)) == s
  {
    if s != [] {
      var rest := Split(s[1..]);
      JoinOfSplit(s[1..]);
      if s[0] == ',' {
        assert ([""] + rest)[1..] == rest;
        assert s == "" + "," + s[1..];
      } else {
        JoinCons(s[0], rest);
        assert s == [s[0]] + s[1..];
      }
    }
  }

  /** Splitting a join of at least one comma-free piece gives back the pieces. */
  lemma {:induction false} SplitOfJoin(ps: seq<string>)
    requires |ps| >= 1
    requires forall i :: 0 <= i < |ps| ==> ',' !in ps[i]
    ensures Split(JoinComma(ps)) == ps
  {
    SplitNoComma(ps[0]);
    if |ps| > 1 {
      SplitOfJoin(ps[1..]);
      SplitConcat(ps[0], JoinComma(ps[1..]));
      assert [ps[0]] + ps[1..] == ps;
    }
  }

  /** Each player's franchise list split on its own, in order. */
  function SplitEach(fs: seq<string>): seq<string> {
    if fs == [] then [] else Split(fs[0]) + SplitEach(fs[1..])
  }

  /** For at least one list, splitting the join is splitting each list in turn. */
  lemma {:induction false} SplitOfJoinEach(fs: seq<string>)
    requires |fs| >= 1
    ensures Split(JoinComma(fs)) == SplitEach(fs)
  {
    if |fs| == 1 {
      assert SplitEach(fs) == Split(fs[0]) + [];
    } else {
      SplitOfJoinEach(fs[1..]);
      SplitConcat(fs[0], JoinComma(fs[1..]));
    }
  }

  /** The "Franchises" column of a day's table. */
  function FranchiseColumn(rows: seq<Record>): (fs: seq<string>)
    ensures |fs| == |rows|
    ensures forall i :: 0 <= i < |rows| ==> fs[i] == rows[i].franchises
  {
    seq(|rows|, i requires 0 <= i < |rows| => rows[i].franchises)
  }

  /** The tokens the tally counts. */
  function Tokens(rows: seq<Record>): seq<string> {
    Split(JoinComma(FranchiseColumn(rows)))
  }

  /**
   * The tokens of a day are its players' franchise lists split one after the
   * other; a day with no players still yields one empty token.
   */
  lemma TokensOfDay(rows: seq<Record>)
    ensures rows != [] ==> Tokens(rows) == SplitEach(FranchiseColumn(rows))
    ensures rows == [] ==> Tokens(rows) == [""]
  {
    if rows != [] {
      SplitOfJoinEach(FranchiseColumn(rows));
    }
  }

  /** player_count_dict.get(team, 0). */
  function CountOf(counts: map<string, nat>, team: string): nat {
    if team in counts then counts[team] else 0
  }

  /** Sum of the counts of a dictionary. */
  ghost function MapTotal(m: map<string, nat>): nat
    decreases |m|
  {
    if m == map[] then 0
    else
      assert m.Keys != {};
      var k :| k in m;
      m[k] + MapTotal(m - {k})
  }

  /** The total can be split at any key. */
  lemma {:induction false} MapTotalRemove(m: map<string, nat>, k: string)
    requires k in m
    ensures MapTotal(m) == m[k] + MapTotal(m - {k})
    decreases |m|
  {
    assert m.Keys != {};
    var j :| j in m && MapTotal(m) == m[j] + MapTotal(m - {j});
    if j != k {
      MapTotalRemove(m - {j}, k);
      MapTotalRemove(m - {k}, j);
      assert m - {j} - {k} == m - {k} - {j};
    }
  }

  /** Setting one key to v changes the total by v minus the key's old count. */
  lemma MapTotalUpdate(m: map<string, nat>, k: string, v: nat)
    ensures MapTotal(m[k := v]) + CountOf(m, k) == MapTotal(m) + v
  {
    MapTotalRemove(m[k := v], k);
    if k in m {
      MapTotalRemove(m, k);
      assert m[k := v] - {k} == m - {k};
    } else {
      assert m[k := v] - {k} == m;
    }
  }

  /**
   * The franchise tally: one dictionary entry per distinct token, holding how
   * often the token occurs, so that the counts add up to the number of tokens.
   */
  method TallyFranchises(rows: seq<Record>) returns (counts: map<string, nat>)
    ensures forall t :: CountOf(counts, t) == multiset(Tokens(rows))[t]
    ensures forall t :: t in counts <==> t in Tokens(rows)
    ensures MapTotal(counts) == |Tokens(rows)|
  {
    var joined := JoinComma(FranchiseColumn(rows));
    var tokens := Split(joined);
    counts := map[];
    for i := 0 to |tokens|
      invariant Tallied(counts, tokens[..i])
    {
      var team := tokens[i];
      TallyStep(counts, tokens[..i], team);
      counts := counts[team := CountOf(counts, team) + 1];
      assert tokens[..i + 1] == tokens[..i] + [team];
    }
    assert tokens[..|tokens|] == tokens;
  }

  /** The dictionary holds the tally of exactly these tokens. */
  ghost predicate Tallied(counts: map<string, nat>, tokens: seq<string>) {
    && (forall t :: CountOf(counts, t) == multiset(tokens)[t])
    && (forall t :: t in counts <==> t in tokens)
    && MapTotal(counts) == |tokens|
  }

  /** Counting one more token keeps the dictionary a tally. */
  lemma TallyStep(counts: map<string, nat>, tokens: seq<string>, team: string)
    requires Tallied(counts, tokens)
    ensures Tallied(counts[team := CountOf(counts, team) + 1], tokens + [team])
  {
    MapTotalUpdate(counts, team, CountOf(counts, team) + 1);
  }

  /** No token occurs twice. */
  predicate Distinct(xs: seq<string>) {
    forall i, j :: 0 <= i < j < |xs| ==> xs[i] != xs[j]
  }

  /** Number of franchise lists that name the team. */
  function ListsNaming(fs: seq<string>, team: string): (n: nat)
    ensures n <= |fs|
  {
    if fs == [] then 0 else (if team in Split(fs[0]) then 1 else 0) + ListsNaming(fs[1..], team)
  }

  lemma {:induction false} DistinctOccurrence(xs: seq<string>, t: string)
    requires Distinct(xs)
    ensures multiset(xs)[t] == if t in xs then 1 else 0
  {
    if xs != [] {
      assert xs == [xs[0]] + xs[1..];
      assert Distinct(xs[1..]);
      DistinctOccurrence(xs[1..], t);
      assert xs[0] in xs[1..] ==> false;
    }
  }

  /**
   * When no player lists a franchise twice, a team's count is the number of
   * the day's players who played for it.
   */
  lemma {:induction false} CountIsPlayers(fs: seq<string>, team: string)
    requires forall i :: 0 <= i < |fs| ==> Distinct(Split(fs[i]))
    ensures multiset(SplitEach(fs))[team] == ListsNaming(fs, team)
  {
    if fs != [] {
      DistinctOccurrence(Split(fs[0]), team);
      CountIsPlayers(fs[1..], team);
    }
  }
}
