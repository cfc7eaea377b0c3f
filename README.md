# Baseball birthdays — a Dafny model

This project models the computational core of the "Major League Birthdays"
page (`Streamlit/baseball_birthdays.py`). The page keeps one table of players
per day of a 366-day calendar: twelve months of 31, 29, 31, … day buckets.
Over these buckets it computes five things:

- **Calendar arithmetic** (`calendar.dfy`): `add_day` and `subtract_day` step a
  (day, month, year) triple under the simplified leap rule `year % 4 == 0`.
  `get_month_and_day` turns a 0-based day of the 366-day calendar into a
  0-based month index and a 1-based day. The steps are proved to be inverse
  to each other. They are also proved to move exactly one day on a day line
  (`DayNumber`), and the Feb 28/29/Mar 1 and Dec 31/Jan 1 boundaries are
  stated outright.
- **Innings pitched** (`innings.dfy`): `sum_ip` reads outs notation (.1 = one
  out, .2 = two outs) as true thirds, sums, and writes the total back in outs
  notation. It is modelled over exact reals.
- **Per-day aggregation** (`aggregation.dfy`, on the records of
  `players.dfy`): `calculate_total_or_avg_stats` walks the months and days and
  appends one total or average per day. Rate averages are weighted by at-bats,
  estimated plate appearances (AB + BB) or innings. A zero denominator, or
  the mean of an empty day, is an error value.
- **Ranking** (`ranking.dfy`): the series is sorted. The first five sorted
  values are mapped back to days of the original series, with a cursor that
  keeps equal values from landing on the same day. ERA and WHIP averages rank
  low values first.
- **Nearest birthdays** (`nearest.dfy`): `find_5_closest_players` and
  `search_day` collect the players born on the exact date (day, month and
  birth year). They then widen the search one day later (unless the date is
  already known to be younger than every player) and one day earlier, until
  at least five players are listed.
- **Franchise tally** (`franchises.dfy`): the day's franchise strings are
  joined with commas and split again, as Python's `','.join` and
  `str.split(sep=",")` do. Every token is counted in a dictionary.

`sequences.dfy` holds generic sequence facts that the other modules share.

The stored innings column does not hold outs notation.
`Data Extraction.py:25` converts .1/.2 to true thirds when the tables are
built, and `Streamlit/baseball_birthdays.py:241` converts them back for
display. The model follows this code, which leads to the finding below.

## Model

| member | source | states |
|---|---|---|
| Calendar.AddDay | Streamlit/baseball_birthdays.py:173-184 | the next date is valid whenever the input is, and the year changes exactly when stepping from Dec 31 to Jan 1 of the next year |
| Calendar.SubtractDay | Streamlit/baseball_birthdays.py:191-202 | the previous date is valid whenever the input is, and the year changes exactly when stepping from Jan 1 to Dec 31 of the previous year |
| Calendar.AddDayIsSuccessor | Streamlit/baseball_birthdays.py:173-184 | add_day moves a valid date exactly one day forward on the day line of the `% 4` calendar |
| Calendar.SubtractDayIsPredecessor | Streamlit/baseball_birthdays.py:191-202 | subtract_day moves a valid date exactly one day back on that day line |
| Calendar.SubtractUndoesAdd | Streamlit/baseball_birthdays.py:173-202 | subtract_day(add_day(d)) == d for every valid date |
| Calendar.AddUndoesSubtract | Streamlit/baseball_birthdays.py:173-202 | add_day(subtract_day(d)) == d for every valid date |
| Calendar.LeapBoundaries | Streamlit/baseball_birthdays.py:175-202 | Feb 28 steps to Mar 1 unless year % 4 == 0 (then Feb 29); Mar 1 steps back to Feb 28 unless year % 4 == 0 (then Feb 29); Dec 31 and Jan 1 cross the year |
| Calendar.DayIndexInjective | Streamlit/baseball_birthdays.py:103-111 | different calendar slots have different day-of-year indices |
| Calendar.GetMonthAndDay | Streamlit/baseball_birthdays.py:103-111 | for 0 <= n < 366, returns the unique slot (0-based month, 1-based day within the month's length) whose day-of-year index is n; falls through with no result exactly when n >= 366; a negative n yields month 0, day n + 1 |
| Innings.SumIp | Streamlit/baseball_birthdays.py:31-39 | the loop adds each value read as thirds; for outs-notation inputs the result is in outs notation and reads back as the exact sum of thirds |
| Innings.OutsRoundTrip | Streamlit/baseball_birthdays.py:34-39 | reading an outs-notation value as thirds and writing it back gives the value |
| Innings.DisplayOutsOfThirds | Streamlit/baseball_birthdays.py:36-39 | a whole number of thirds is written in outs notation and reads back unchanged |
| Innings.OutsToThirdsOfOuts | Streamlit/baseball_birthdays.py:34 | an outs-notation value reads as a whole number of thirds |
| Innings.SumThirdsIsThirds | Streamlit/baseball_birthdays.py:33-34 | the sum of outs-notation values read as thirds is a whole number of thirds |
| Innings.SumIpSingleton | Streamlit/baseball_birthdays.py:31-39 | sum_ip of one outs-notation value is that value |
| Innings.SumIpExample | Streamlit/baseball_birthdays.py:31-39 | sum_ip([6.2, 3.1]) == 10 |
| Aggregation.Ratio | Streamlit/baseball_birthdays.py:58-81 | a quotient is defined exactly when the denominator is non-zero, and then times the denominator gives the numerator |
| Aggregation.CountOver | Streamlit/baseball_birthdays.py:89-90 | the number of players with WAR strictly above the threshold: at most the bucket size, all of it exactly when every WAR is above, none exactly when none is |
| Aggregation.DayValue | Streamlit/baseball_birthdays.py:55-95 | one day's value: every total is defined, an average of the two player counts is a missing column, and any other average fails only on a zero denominator; the value of each average branch is stated by AverageIsWeighted and of each total by TotalsAreCounts |
| Aggregation.CalculateTotalOrAvgStats | Streamlit/baseball_birthdays.py:48-98 | succeeds exactly when every day's value is defined, and then returns 366 values in month-then-day order, the value of slot (m, d) at its day-of-year index |
| Aggregation.AverageIsWeighted | Streamlit/baseball_birthdays.py:57-84 | BA is total hits over total at-bats; OBP and OPS average weighted by AB + BB, SLG by AB, ERA, ERA+ and WHIP by IP, any other column by one per player; each is defined exactly when its denominator (the at-bats or the weights) does not sum to zero |
| Aggregation.AverageWithinRange | Streamlit/baseball_birthdays.py:60-84 | a day's average of a rate lies between the lowest and highest rate of its players when the counts behind the weights are non-negative |
| Aggregation.WeightedAverageWithin | Streamlit/baseball_birthdays.py:60-81 | any weighting by non-negative counts keeps a weighted average within the column's bounds |
| Aggregation.BattingAverageBounds | Streamlit/baseball_birthdays.py:57-58 | when at-bats do not sum to zero, a day's batting average is defined, and it lies within [0, 1] when every player has between 0 and at-bats hits |
| Aggregation.BattingAverageIsWeightedExample | Streamlit/baseball_birthdays.py:57-58 | 10 for 40 and 0 for 10 average .200 together, not the .125 mean of the players' own averages |
| Aggregation.TotalsAreCounts | Streamlit/baseball_birthdays.py:86-95 | Number of Players is the bucket size, Players Over _ WAR lies between zero and it, every other total except IP is the plain column sum, and the IP total is the corrected TotalInnings |
| Aggregation.CountOverMonotone | Streamlit/baseball_birthdays.py:89-90 | raising the WAR threshold never counts more players |
| Aggregation.AverageOfCountIsMissing | Streamlit/baseball_birthdays.py:83-84 | the two player counts are not columns and have no average |
| Aggregation.TotalOfThirds | Streamlit/baseball_birthdays.py:91-92 | a sum of whole thirds is a whole number of thirds |
| Aggregation.TotalInnings | Streamlit/baseball_birthdays.py:91-92 | the corrected innings total: the stored thirds summed directly and written back in outs notation once; its partner TotalInningsRoundTrip proves it reads back as the exact stored sum |
| Aggregation.TotalInningsRoundTrip | Streamlit/baseball_birthdays.py:91-92 | the corrected innings total is in outs notation and reads back as the exact sum of the stored innings |
| Aggregation.TotalInningsAsWritten | Streamlit/baseball_birthdays.py:91-92 | the innings total as written: sum_ip applied to the stored thirds; its partner TotalInningsAsWrittenMisreads exhibits the double conversion |
| Aggregation.TotalInningsAsWrittenMisreads | Streamlit/baseball_birthdays.py:91-92 | as written, one pitcher with 6 2/3 stored innings totals 8 + 1/15 instead of 6.2 |
| Ranking.Insert | Streamlit/baseball_birthdays.py:399-400 | inserting into an ordered list keeps it ordered and adds exactly the one value |
| Ranking.SortedBy | Streamlit/baseball_birthdays.py:399-400 | sorted(series) and sorted(series, reverse=True): an ordered permutation of the series |
| Ranking.IndexFrom | Streamlit/baseball_birthdays.py:408-413 | list.index(x, start): the first position at or after start holding x, or -1 exactly when no position at or after start holds it |
| Ranking.FirstIsExtreme | Streamlit/baseball_birthdays.py:399-400 | the first sorted value is the maximum (descending) or the minimum (ascending) of the series |
| Ranking.ResolveStep | Streamlit/baseball_birthdays.py:407-413 | one pass of the loop always finds its value, at the position that keeps every earlier pass's position valid |
| Ranking.ResolvedDistinct | Streamlit/baseball_birthdays.py:404-413 | positions found for different ranks differ, and within a run of equal values they strictly increase |
| Ranking.ResolvedMeans | Streamlit/baseball_birthdays.py:404-413 | the five positions hold the five sorted values, are pairwise distinct, and each is the first unused position holding its value |
| Ranking.ResolveRanked | Streamlit/baseball_birthdays.py:404-413 | the cursor loop returns five pairwise-distinct positions with series[idx_i] == sorted[i]; a repeated value is the next copy after the previous position, a new value its first occurrence |
| Ranking.ToDays | Streamlit/baseball_birthdays.py:415 | each resolved position becomes the calendar slot whose day-of-year index it is |
| Ranking.RankedDays | Streamlit/baseball_birthdays.py:435-447 | five distinct calendar days holding the first five sorted values, the first an extreme of the whole series |
| Ranking.LowerIsBetter | Streamlit/baseball_birthdays.py:488-493 | the ERA and WHIP averages rank low values as good; TopAndBottomDays states the resulting orders |
| Ranking.TopAndBottomDays | Streamlit/baseball_birthdays.py:485-525 | the best days rank highest first and the worst lowest first, with the orders swapped for the ERA and WHIP averages; the best day holds the series extreme in its direction and the worst day the other extreme; no day appears twice in either list |
| Nearest.SearchDayFinds | Streamlit/baseball_birthdays.py:164-166 | search_day finds exactly the players of the date's bucket born in the date's year |
| Nearest.SearchDay | Streamlit/baseball_birthdays.py:164-166 | the rows of the date's bucket born in the date's year, never more than the bucket holds; its partner SearchDayFinds states exactly which rows |
| Nearest.BornInCounts | Streamlit/baseball_birthdays.py:166 | the birth-year filter keeps every copy of a matching row and drops every other row |
| Nearest.EntriesOfAt | Streamlit/baseball_birthdays.py:134-135 | line i of a probe is the name and WAR of row i, dated with the probed date |
| Nearest.AppendMatches | Streamlit/baseball_birthdays.py:133-135 | the inner loop appends one line per row found, in row order |
| Nearest.ProbeDay | Streamlit/baseball_birthdays.py:132-135 | one probe appends exactly the lines for the date's matches |
| Nearest.Widen | Streamlit/baseball_birthdays.py:143-154 | one pass steps the later day forward (unless younger) and the earlier day back, appending the later day's matches before the earlier day's |
| Nearest.FindClosestPlayers | Streamlit/baseball_birthdays.py:117-156 | returns the page's list after the first round at which at least five lines are held (or when fuel runs out), and fewer than five were held after every earlier round |
| Nearest.LaterIsAhead | Streamlit/baseball_birthdays.py:144 | n steps of add_day land n days later on the day line |
| Nearest.EarlierIsBehind | Streamlit/baseball_birthdays.py:150 | n steps of subtract_day land n days earlier on the day line |
| Nearest.PageStart | Streamlit/baseball_birthdays.py:128-135 | before any round the list holds exactly the exact-date matches |
| Nearest.PageStep | Streamlit/baseball_birthdays.py:142-154 | round k appends the matches k days later (unless younger), then those k days earlier |
| Nearest.ExpansionNearestFirst | Streamlit/baseball_birthdays.py:142-154 | after k rounds every line is at most k days from the date on the `% 4` day line (`DayNumber`), and that distance never decreases along the list |
| Nearest.ExpansionBackward | Streamlit/baseball_birthdays.py:143-144 | when younger, no line is dated after the date |
| Nearest.ExpansionGrows | Streamlit/baseball_birthdays.py:142-154 | each round only appends: the list after j rounds begins the list after any later round |
| Nearest.ExactMatchesFirst | Streamlit/baseball_birthdays.py:132-135 | the exact-date matches come first |
| Nearest.ExpansionComplete | Streamlit/baseball_birthdays.py:142-154 | every line found up to k days ahead (only the date itself when younger) or 1 to k days behind is listed after k rounds |
| Nearest.ExpansionSound | Streamlit/baseball_birthdays.py:142-154 | when every probe finds only real matches, so does the whole list |
| Nearest.MatchesSound | Streamlit/baseball_birthdays.py:164-166 | each line of a probe is a player of the probed bucket born in the probed year, with that player's name and WAR |
| Nearest.MatchesDated | Streamlit/baseball_birthdays.py:135 | each line of a probe carries the probed date |
| Nearest.ClosestPlayersProperties | Streamlit/baseball_birthdays.py:117-156 | after any number of rounds: exact-date matches first, distance on the `% 4` day line non-decreasing and at most the round count, only real matches whose day, month and birth year are the line's date, and only dates no later than the given one when younger |
| Nearest.ClosestPlayersComplete | Streamlit/baseball_birthdays.py:117-166 | nobody is skipped: every player born up to k days later (only on the date when younger) or up to k days earlier is listed after k rounds |
| Nearest.FoundIsListed | Streamlit/baseball_birthdays.py:142-154 | every line a probe within k days finds is listed after k rounds |
| Franchises.Split | Streamlit/baseball_birthdays.py:328 | str.split(sep=","): at least one piece, none containing a comma |
| Franchises.JoinComma | Streamlit/baseball_birthdays.py:326 | ','.join; its partners JoinOfSplit and SplitOfJoin prove it inverse to the split |
| Franchises.SplitNoComma | Streamlit/baseball_birthdays.py:328 | a string without a comma splits to itself |
| Franchises.SplitConcat | Streamlit/baseball_birthdays.py:326-328 | splitting at a comma splits each side independently |
| Franchises.JoinOfSplit | Streamlit/baseball_birthdays.py:326-328 | joining the pieces of a split gives back the string |
| Franchises.SplitOfJoin | Streamlit/baseball_birthdays.py:326-328 | splitting the join of comma-free pieces gives back the pieces |
| Franchises.SplitOfJoinEach | Streamlit/baseball_birthdays.py:326-328 | splitting the joined franchise lists is splitting each list in turn |
| Franchises.FranchiseColumn | Streamlit/baseball_birthdays.py:326 | the column holds each player's franchise string, in row order |
| Franchises.TokensOfDay | Streamlit/baseball_birthdays.py:326-328 | the tokens are the players' lists split one after the other; a day without players yields one empty token |
| Franchises.TallyFranchises | Streamlit/baseball_birthdays.py:324-329 | the dictionary has a key exactly for each token, its count is the token's number of occurrences, and the counts add up to the number of tokens |
| Franchises.TallyStep | Streamlit/baseball_birthdays.py:329 | counting one more token keeps the dictionary a tally of the tokens seen |
| Franchises.MapTotalUpdate | Streamlit/baseball_birthdays.py:329 | setting one key changes the sum of the counts by the difference of the new and old count |
| Franchises.DistinctOccurrence | Streamlit/baseball_birthdays.py:329 | a token occurs once in a list without repeats, and zero times if absent |
| Franchises.ListsNaming | Streamlit/baseball_birthdays.py:326-328 | the number of franchise lists naming a team is at most the number of lists |
| Franchises.CountIsPlayers | Streamlit/baseball_birthdays.py:324-329 | when no player lists a franchise twice, a team's count is the number of the day's players who played for it |

## Left out

- Page layout, widgets, text output, the charts, the numeric display formatting, and the logo grid with its `.get(code, 0)` lookups (lines 208-529 outside the loops modelled above) are presentation. `Franchises.CountOf` gives the `.get(team, 0)` reading of the tally.
- `load_data` reads CSV files; the buckets are an input value of the shape it builds (twelve months of 31, 29, 31, … buckets).
- `date.today()` and the shift by 365·18 + 4 days (lines 124-126) are a clock read plus Gregorian arithmetic. The already-shifted date and the `younger_than_all` flag are inputs of the search.
- Nearest.FindClosestPlayers: the source loops until five players are found, which may never happen. The model stops after `fuel` rounds and says which of the two happened.
- `datetime.date(...)` failing on dates such as Feb 29, 1900, which the `% 4` rule produces, is a library failure and is not modelled; result lines carry a plain date triple. Distances in the nearest search are therefore counted on the `% 4` day line that `add_day`/`subtract_day` walk, which around such years differs from the real-calendar days the page prints (line 299): from Mar 1, 1900 the search passes through Feb 29, 1900, so Mar 3 (two real days away) is listed before Feb 28 (one real day away).
- The float guard band `0.05 < sum % 1 < 0.995` in `sum_ip` exists to absorb floating-point drift. Over exact reals it only separates whole totals from totals with outs, and it is modelled as written.
- pandas yields NaN or inf for a zero denominator and `statistics.mean` raises on an empty day. The model returns an error value, and `CalculateTotalOrAvgStats` stops at the first day whose value is undefined instead of carrying a NaN through the series.
- Python's `list.index` raises ValueError when the value is absent; `Ranking.IndexFrom` returns -1 there, and the ranking proofs show this never happens in the ranking loops.
- The top-3 contributor captions (lines 418-430, 449-461) depend on pandas sorting and slicing and fail on days with fewer than three players.
- Aggregation.CalculateTotalOrAvgStats: its IP total is the corrected `TotalInnings`, not `sum_ip` of the stored column as line 92 computes it; the as-written total is `TotalInningsAsWritten` (see Findings).
- Float rounding in general: every statistic is an exact real.

## Findings

| source | as written | input that shows it | evidently intended | confidence | as-written member | corrected member |
|---|---|---|---|---|---|---|
| Streamlit/baseball_birthdays.py:91-92 | the IP total applies `sum_ip` to the stored innings column, which the table builder (`Data Extraction.py:25`) has already converted from outs notation to true thirds, so each value is read as outs notation a second time | a day whose only pitcher threw 6 2/3 innings (stored as 20/3) totals 8.0666…, not 6.2 | sum the stored thirds directly and write the total back in outs notation once | high; not executed | Aggregation.TotalInningsAsWritten, Aggregation.TotalInningsAsWrittenMisreads | Aggregation.TotalInnings, Aggregation.TotalInningsRoundTrip |
