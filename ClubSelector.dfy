/**
 * The club selector of the WGT shot calculator: given an adjusted distance
 * in yards, it walks the club distance table from the shortest club to the
 * longest and recommends the first club that reaches the distance, together
 * with the percentage of a full swing needed.
 *
 * Floating point is modelled by exact reals.
 */
module ClubSelector {
  import ShotAdjuster

  /** One item of the distance table: a club and its full-swing carry in yards. */
  datatype Entry = Entry(club: string, baseline: real)

  /** A recommended club and the percentage of a full swing to hit it with. */
  datatype Suggestion = Suggestion(club: string, percentage: real)

  /** The distance table as a lookup from club name to full-swing carry. */
  const ClubDistances: map<string, real> := map[
    "Driver" := 280.0,
    "3-Wood" := 240.0,
    "Hybrid" := 225.0,
    "3-Iron" := 228.0,
    "4-Iron" := 212.0,
    "5-Iron" := 197.0,
    "6-Iron" := 181.0,
    "7-Iron" := 165.0,
    "8-Iron" := 149.0,
    "9-Iron" := 133.0,
    "Pitching Wedge" := 110.0,
    "Sand Wedge" := 105.0,
    "Lob Wedge" := 80.0
  ]

  /** The same table as its items, in the order the table is written. */
  const ClubDistanceItems: seq<Entry> := [
    Entry("Driver", 280.0),
    Entry("3-Wood", 240.0),
    Entry("Hybrid", 225.0),
    Entry("3-Iron", 228.0),
    Entry("4-Iron", 212.0),
    Entry("5-Iron", 197.0),
    Entry("6-Iron", 181.0),
    Entry("7-Iron", 165.0),
    Entry("8-Iron", 149.0),
    Entry("9-Iron", 133.0),
    Entry("Pitching Wedge", 110.0),
    Entry("Sand Wedge", 105.0),
    Entry("Lob Wedge", 80.0)
  ]

  /**
   * The table sorted by baseline, shortest club first: the order the
   * selector scans in. `SortedTable` proves it is exactly what the stable
   * sort of `ClubDistanceItems` by baseline produces.
   */
  const ClubsByDistance: seq<Entry> := [
    Entry("Lob Wedge", 80.0),
    Entry("Sand Wedge", 105.0),
    Entry("Pitching Wedge", 110.0),
    Entry("9-Iron", 133.0),
    Entry("8-Iron", 149.0),
    Entry("7-Iron", 165.0),
    Entry("6-Iron", 181.0),
    Entry("5-Iron", 197.0),
    Entry("4-Iron", 212.0),
    Entry("Hybrid", 225.0),
    Entry("3-Iron", 228.0),
    Entry("3-Wood", 240.0),
    Entry("Driver", 280.0)
  ]

  /** The longest full-swing carry in the table (the Driver's). */
  const LongestBaseline: real := 280.0

  /** Baselines never decrease along `s`. */
  ghost predicate Ascending(s: seq<Entry>) {
    forall i, j :: 0 <= i < j < |s| ==> s[i].baseline <= s[j].baseline
  }

  /** Every baseline in `s` is positive. */
  ghost predicate PositiveBaselines(s: seq<Entry>) {
    forall k :: 0 <= k < |s| ==> s[k].baseline > 0.0
  }

  /** Putting an item no longer than the first in front keeps a sequence ascending. */
  lemma ConsAscending(x: Entry, s: seq<Entry>)
    requires Ascending(s) && (s == [] || x.baseline <= s[0].baseline)
    ensures Ascending([x] + s)
  {
    var r := [x] + s;
    forall i, j | 0 <= i < j < |r| ensures r[i].baseline <= r[j].baseline {
      assert r[j] == s[j - 1];
      if i > 0 { assert r[i] == s[i - 1]; }
    }
  }

  /**
   * Inserts `e` into `s` before the first item whose baseline is not
   * smaller, so that `e` stays ahead of the items it was ahead of.
   */
  function InsertByBaseline(e: Entry, s: seq<Entry>): (r: seq<Entry>)
    ensures |r| == |s| + 1
  {
    if s == [] || e.baseline <= s[0].baseline then [e] + s
    else [s[0]] + InsertByBaseline(e, s[1..])
  }

  /**
   * A stable sort of the items by baseline, as insertion sort: each item is
   * inserted into the sorted rest ahead of every later item with the same
   * baseline.
   */
  function SortByBaseline(s: seq<Entry>): (r: seq<Entry>)
    ensures |r| == |s|
  {
    if s == [] then []
    else
      InsertByBaseline(s[0], SortByBaseline(s[1..]))
  }

  /** Inserting into an ascending sequence keeps it ascending and adds exactly `e`. */
  lemma {:induction false} InsertKeepsOrder(e: Entry, s: seq<Entry>)
    requires Ascending(s)
    ensures var r := InsertByBaseline(e, s);
            && (r[0] == e || (s != [] && r[0] == s[0]))
            && Ascending(r)
            && multiset(r) == multiset(s) + multiset{e}
  {
    if s == [] || e.baseline <= s[0].baseline {
      ConsAscending(e, s);
    } else {
      assert s == [s[0]] + s[1..];
      InsertKeepsOrder(e, s[1..]);
      ConsAscending(s[0], InsertByBaseline(e, s[1..]));
    }
  }

  /** The sort's result is ascending and holds exactly the items given. */
  lemma {:induction false} SortSorts(s: seq<Entry>)
    ensures Ascending(SortByBaseline(s))
    ensures multiset(SortByBaseline(s)) == multiset(s)
  {
    if s != [] {
      SortSorts(s[1..]);
      InsertKeepsOrder(s[0], SortByBaseline(s[1..]));
      assert s == [s[0]] + s[1..];
    }
  }

  /** Two items with the same baseline keep the order they were given in. */
  lemma EqualBaselinesKeepOrder(x: Entry, y: Entry)
    requires x.baseline == y.baseline
    ensures SortByBaseline([x, y]) == [x, y]
  {
  }

  /**
   * The scan over the sorted items from position `i` on: the first club
   * whose baseline reaches `d` is returned with `d / baseline * 100`,
   * except that a percentage over 100 moves one club up; when no club
   * reaches `d` the longest club is returned.
   */
  function ScanFrom(sorted: seq<Entry>, i: nat, d: real): (r: Suggestion)
    requires 0 < |sorted| && i <= |sorted|
    requires forall k :: 0 <= k < |sorted| ==> sorted[k].baseline != 0.0
    ensures exists k :: 0 <= k < |sorted| && r.club == sorted[k].club
                                          && r.percentage == d / sorted[k].baseline * 100.0
    decreases |sorted| - i
  {
    if i == |sorted| then
      var last := |sorted| - 1;
      Suggestion(sorted[last].club, d / sorted[last].baseline * 100.0)
    else if d <= sorted[i].baseline then
      var percentage := d / sorted[i].baseline * 100.0;
      if percentage > 100.0 && i < |sorted| - 1 then
        Suggestion(sorted[i + 1].club, d / sorted[i + 1].baseline * 100.0)
      else
        Suggestion(sorted[i].club, percentage)
    else
      ScanFrom(sorted, i + 1, d)
  }

  /**
   * The recommendation for an adjusted distance `d`: the scan of the table
   * sorted by baseline, `ClubsByDistance` (see `SortedTable`). It is always
   * a club of the distance table, with `d` as a percentage of that club's
   * baseline.
   */
  function SuggestClubAndPercentage(d: real): (r: Suggestion)
    ensures r.club in ClubDistances
    ensures r.percentage == d / ClubDistances[r.club] * 100.0
  {
    SortedTablePositive();
    SortedTableEntries();
    ScanReturnsEntry(ClubsByDistance, ClubDistances, d);
    ScanFrom(ClubsByDistance, 0, d)
  }

  // ---------------------------------------------------------------------
  // The table and its sorted order

  /** Every item of `s` is an entry of the lookup `m`. */
  ghost predicate EntriesOf(s: seq<Entry>, m: map<string, real>) {
    forall k :: 0 <= k < |s| ==> s[k].club in m && m[s[k].club] == s[k].baseline
  }

  /** Every item of the list is an entry of the lookup, and there are thirteen of them. */
  lemma ItemsAreEntries()
    ensures |ClubDistanceItems| == 13
    ensures EntriesOf(ClubDistanceItems, ClubDistances)
  {
  }

  /** Every entry of the lookup is an item of the list. */
  lemma EntriesAreItems()
    ensures forall c :: c in ClubDistances ==> Entry(c, ClubDistances[c]) in ClubDistanceItems
  {
  }

  /** Baselines run from the Lob Wedge's 80 yards to the Driver's 280, and only they sit at the ends. */
  lemma TableExtremes()
    ensures forall c :: c in ClubDistances ==> 80.0 <= ClubDistances[c] <= LongestBaseline
    ensures forall c :: c in ClubDistances && ClubDistances[c] == 80.0 ==> c == "Lob Wedge"
    ensures forall c :: c in ClubDistances && ClubDistances[c] == LongestBaseline ==> c == "Driver"
  {
  }

  /** Baselines strictly increase along `s`. */
  ghost predicate StrictlyAscending(s: seq<Entry>) {
    forall i, j :: 0 <= i < j < |s| ==> s[i].baseline < s[j].baseline
  }

  /** Baselines strictly decrease along `s`. */
  ghost predicate StrictlyDescending(s: seq<Entry>) {
    forall i, j :: 0 <= i < j < |s| ==> s[i].baseline > s[j].baseline
  }

  /** A sequence whose neighbours strictly increase is strictly ascending throughout. */
  lemma {:induction false} StepsAscend(s: seq<Entry>)
    requires forall i :: 0 <= i < |s| - 1 ==> s[i].baseline < s[i + 1].baseline
    ensures StrictlyAscending(s)
  {
    if |s| > 1 {
      StepsAscend(s[1..]);
      forall i, j | 0 <= i < j < |s| ensures s[i].baseline < s[j].baseline {
        if i > 0 {
          assert s[i] == s[1..][i - 1] && s[j] == s[1..][j - 1];
        } else if j > 1 {
          assert s[1] == s[1..][0] && s[j] == s[1..][j - 1];
        }
      }
    }
  }

  /** The sorted table's thirteen baselines are positive. */
  lemma SortedTablePositive()
    ensures |ClubsByDistance| == 13
    ensures PositiveBaselines(ClubsByDistance)
  {
  }

  /** The sorted table's baselines strictly increase. */
  lemma SortedTableAscends()
    ensures |ClubsByDistance| == 13
    ensures StrictlyAscending(ClubsByDistance) && Ascending(ClubsByDistance)
  {
    StepsAscend(ClubsByDistance);
  }

  /** The sorted table holds entries of the table, from the Lob Wedge up to the Driver. */
  lemma SortedTableEntries()
    ensures |ClubsByDistance| == 13
    ensures EntriesOf(ClubsByDistance, ClubDistances)
    ensures ClubsByDistance[0] == Entry("Lob Wedge", 80.0)
    ensures ClubsByDistance[12] == Entry("Driver", LongestBaseline)
  {
  }

  /** Every club of the table has its place in the sorted table. */
  lemma SortedClubIndex(c: string) returns (j: nat)
    requires c in ClubDistances
    ensures j < |ClubsByDistance| && ClubsByDistance[j] == Entry(c, ClubDistances[c])
  {
    j := if c == "Lob Wedge" then 0
      else if c == "Sand Wedge" then 1
      else if c == "Pitching Wedge" then 2
      else if c == "9-Iron" then 3
      else if c == "8-Iron" then 4
      else if c == "7-Iron" then 5
      else if c == "6-Iron" then 6
      else if c == "5-Iron" then 7
      else if c == "4-Iron" then 8
      else if c == "Hybrid" then 9
      else if c == "3-Iron" then 10
      else if c == "3-Wood" then 11
      else 12;
  }

  /**
   * Inserting `e` after every item of `p`, all shorter than `e`, and ahead
   * of `q`, whose first item is not shorter, puts `e` exactly between them.
   */
  lemma {:induction false} InsertSplits(e: Entry, p: seq<Entry>, q: seq<Entry>)
    requires forall k :: 0 <= k < |p| ==> p[k].baseline < e.baseline
    requires q == [] || e.baseline <= q[0].baseline
    ensures InsertByBaseline(e, p + q) == p + [e] + q
  {
    if p != [] {
      assert (p + q)[1..] == p[1..] + q;
      InsertSplits(e, p[1..], q);
    }
  }

  /** One step of the sort: the first item lands between `p` and `q`. */
  lemma SortStep(s: seq<Entry>, p: seq<Entry>, q: seq<Entry>)
    requires s != [] && SortByBaseline(s[1..]) == p + q
    requires forall k :: 0 <= k < |p| ==> p[k].baseline < s[0].baseline
    requires q == [] || s[0].baseline <= q[0].baseline
    ensures SortByBaseline(s) == p + [s[0]] + q
  {
    InsertSplits(s[0], p, q);
  }

  /** The items of `s` in reverse order. */
  function Reversed(s: seq<Entry>): (r: seq<Entry>)
    ensures |r| == |s|
    ensures forall i :: 0 <= i < |s| ==> r[i] == s[|s| - 1 - i]
  {
    if s == [] then [] else Reversed(s[1..]) + [s[0]]
  }

  /** Items given longest first are sorted into the reverse order. */
  lemma {:induction false} DescendingSortsToReversed(s: seq<Entry>)
    requires StrictlyDescending(s)
    ensures SortByBaseline(s) == Reversed(s)
  {
    if s != [] {
      var rest := s[1..];
      assert StrictlyDescending(rest) by {
        forall i, j | 0 <= i < j < |rest| ensures rest[i].baseline > rest[j].baseline {
          assert rest[i] == s[i + 1] && rest[j] == s[j + 1];
        }
      }
      DescendingSortsToReversed(rest);
      var p := Reversed(rest);
      forall k | 0 <= k < |p| ensures p[k].baseline < s[0].baseline {
        assert p[k] == s[|s| - 1 - k];
      }
      InsertSplits(s[0], p, []);
      assert p + [] == p;
    }
  }

  // The table lists the clubs longest first, except that the Hybrid (225)
  // comes before the 3-Iron (228). With `c` the clubs in ascending order,
  // the table is c[12], c[11], c[9], c[10], c[8], c[7], ..., c[0]; the
  // lemmas below sort such a sequence one item at a time, from the end.

  /** The last nine items, c[8] down to c[0], strictly descend. */
  lemma ShortClubsDescend(t: seq<Entry>, c: seq<Entry>)
    requires |c| == 13 && StrictlyAscending(c)
    requires |t| == 9 && forall k :: 0 <= k < 9 ==> t[k] == c[8 - k]
    ensures StrictlyDescending(t)
  {
    forall i, j | 0 <= i < j < |t| ensures t[i].baseline > t[j].baseline {
      assert t[i] == c[8 - i] && t[j] == c[8 - j];
    }
  }

  /** Sorting the last nine items reverses them into c[0], ..., c[8]. */
  lemma SortOfShortClubs(t: seq<Entry>, c: seq<Entry>)
    requires |c| == 13 && StrictlyAscending(c)
    requires |t| == 9 && forall k :: 0 <= k < 9 ==> t[k] == c[8 - k]
    ensures SortByBaseline(t) == c[..9]
  {
    ShortClubsDescend(t, c);
    DescendingSortsToReversed(t);
    assert Reversed(t) == c[..9];
  }

  /** The 3-Iron, c[10], listed before the nine shorter clubs, is sorted after all of them. */
  lemma SortFromThreeIron(t: seq<Entry>, c: seq<Entry>)
    requires |c| == 13 && StrictlyAscending(c)
    requires |t| == 10 && t[0] == c[10]
    requires forall k :: 1 <= k < 10 ==> t[k] == c[9 - k]
    ensures SortByBaseline(t) == c[..9] + [c[10]]
  {
    SortOfShortClubs(t[1..], c);
    assert c[..9] + [] == c[..9];
    SortStep(t, c[..9], []);
  }

  /** The Hybrid, c[9], listed before the 3-Iron, is sorted between the 4-Iron and the 3-Iron. */
  lemma SortFromHybrid(t: seq<Entry>, c: seq<Entry>)
    requires |c| == 13 && StrictlyAscending(c)
    requires |t| == 11 && t[0] == c[9] && t[1] == c[10]
    requires forall k :: 2 <= k < 11 ==> t[k] == c[10 - k]
    ensures SortByBaseline(t) == c[..11]
  {
    SortFromThreeIron(t[1..], c);
    SortStep(t, c[..9], [c[10]]);
    assert c[..9] + [t[0]] + [c[10]] == c[..11];
  }

  /** The 3-Wood, c[11], listed before the Hybrid, is sorted after every club but the Driver. */
  lemma SortFromThreeWood(t: seq<Entry>, c: seq<Entry>)
    requires |c| == 13 && StrictlyAscending(c)
    requires |t| == 12 && t[0] == c[11] && t[1] == c[9] && t[2] == c[10]
    requires forall k :: 3 <= k < 12 ==> t[k] == c[11 - k]
    ensures SortByBaseline(t) == c[..12]
  {
    SortFromHybrid(t[1..], c);
    assert c[..11] + [] == c[..11];
    SortStep(t, c[..11], []);
    assert c[..11] + [t[0]] + [] == c[..12];
  }

  /** The Driver, c[12], listed first, is sorted last. */
  lemma SortOfTable(t: seq<Entry>, c: seq<Entry>)
    requires |c| == 13 && StrictlyAscending(c)
    requires |t| == 13 && t[0] == c[12] && t[1] == c[11] && t[2] == c[9] && t[3] == c[10]
    requires forall k :: 4 <= k < 13 ==> t[k] == c[12 - k]
    ensures SortByBaseline(t) == c
  {
    SortFromThreeWood(t[1..], c);
    assert c[..12] + [] == c[..12];
    SortStep(t, c[..12], []);
    assert c[..12] + [t[0]] + [] == c;
  }

  /**
   * Sorting the table's items by baseline gives `ClubsByDistance`: the
   * Hybrid (225) stays ahead of the 3-Iron (228), as the table writes them,
   * while every other pair is reversed.
   */
  lemma SortedTable()
    ensures SortByBaseline(ClubDistanceItems) == ClubsByDistance
  {
    SortedTableAscends();
    SortOfTable(ClubDistanceItems, ClubsByDistance);
  }

  /**
   * `ClubsByDistance` is the ascending order of the table: it holds exactly
   * the table's items, each as often, and its baselines strictly increase.
   */
  lemma ClubsByDistanceOrdersTable()
    ensures multiset(ClubsByDistance) == multiset(ClubDistanceItems)
    ensures StrictlyAscending(ClubsByDistance)
  {
    SortedTable();
    SortSorts(ClubDistanceItems);
    SortedTableAscends();
  }

  // ---------------------------------------------------------------------
  // The scan over any sorted table with positive baselines

  /**
   * When some club from position `i` on reaches `d`, the scan returns the
   * first such club with `d / baseline * 100`, which is at most 100: the
   * one-step lookahead for a percentage over 100 never fires.
   */
  lemma {:induction false} ScanChoosesFirstReaching(s: seq<Entry>, i: nat, d: real) returns (k: nat)
    requires PositiveBaselines(s)
    requires i < |s| && exists j :: i <= j < |s| && d <= s[j].baseline
    ensures i <= k < |s| && d <= s[k].baseline
    ensures forall j :: i <= j < k ==> s[j].baseline < d
    ensures ScanFrom(s, i, d) == Suggestion(s[k].club, d / s[k].baseline * 100.0)
    ensures d / s[k].baseline * 100.0 <= 100.0
    decreases |s| - i
  {
    if d <= s[i].baseline {
      k := i;
      var b := s[i].baseline;
      assert d / b <= 1.0 by {
        assert d / b * b == d;
      }
    } else {
      var j :| i <= j < |s| && d <= s[j].baseline;
      assert i < j;
      k := ScanChoosesFirstReaching(s, i + 1, d);
    }
  }

  /**
   * On an ascending table whose last club reaches `d`, the scan returns a
   * club that reaches `d` with the smallest baseline of all clubs that do.
   */
  lemma ScanPicksShortestReaching(s: seq<Entry>, d: real)
    requires PositiveBaselines(s) && Ascending(s)
    requires 0 < |s| && d <= s[|s| - 1].baseline
    ensures exists k :: && 0 <= k < |s| && d <= s[k].baseline
                        && ScanFrom(s, 0, d) == Suggestion(s[k].club, d / s[k].baseline * 100.0)
                        && (forall j :: 0 <= j < |s| && d <= s[j].baseline ==> s[k].baseline <= s[j].baseline)
  {
    var k := ScanChoosesFirstReaching(s, 0, d);
    forall j | 0 <= j < |s| && d <= s[j].baseline ensures s[k].baseline <= s[j].baseline {
      assert k <= j;
    }
  }

  /** Scanning entries of a lookup returns one of its clubs with `d` as a percentage of its baseline. */
  lemma ScanReturnsEntry(s: seq<Entry>, m: map<string, real>, d: real)
    requires 0 < |s| && PositiveBaselines(s) && EntriesOf(s, m)
    ensures ScanFrom(s, 0, d).club in m
    ensures m[ScanFrom(s, 0, d).club] != 0.0
    ensures ScanFrom(s, 0, d).percentage == d / m[ScanFrom(s, 0, d).club] * 100.0
  {
    var r := ScanFrom(s, 0, d);
    var k :| 0 <= k < |s| && r.club == s[k].club && r.percentage == d / s[k].baseline * 100.0;
    assert m[r.club] == s[k].baseline;
  }

  /** When no club from position `i` on reaches `d`, the scan falls back to the last club. */
  lemma {:induction false} ScanFallsBackToLast(s: seq<Entry>, i: nat, d: real)
    requires 0 < |s| && i <= |s| && PositiveBaselines(s)
    requires forall j :: i <= j < |s| ==> s[j].baseline < d
    ensures ScanFrom(s, i, d) == Suggestion(s[|s| - 1].club, d / s[|s| - 1].baseline * 100.0)
    decreases |s| - i
  {
    if i < |s| {
      ScanFallsBackToLast(s, i + 1, d);
    }
  }

  // ---------------------------------------------------------------------
  // What the recommendation is, stated over the distance table

  /**
   * Up to the Driver's 280 yards the recommended club is the one with the
   * shortest baseline that still reaches `d`, and the percentage is at most 100.
   */
  lemma ShortestClubThatReaches(d: real)
    requires d <= LongestBaseline
    ensures var r := SuggestClubAndPercentage(d);
            && d <= ClubDistances[r.club]
            && (forall c :: c in ClubDistances && d <= ClubDistances[c] ==>
                              ClubDistances[r.club] <= ClubDistances[c])
            && r.percentage <= 100.0
  {
    SortedTablePositive();
    SortedTableAscends();
    SortedTableEntries();
    var s := ClubsByDistance;
    var first := ScanChoosesFirstReaching(s, 0, d);  // bounds the percentage by 100
    ScanPicksShortestReaching(s, d);
    var k :| && 0 <= k < |s| && d <= s[k].baseline
             && ScanFrom(s, 0, d) == Suggestion(s[k].club, d / s[k].baseline * 100.0)
             && (forall j :: 0 <= j < |s| && d <= s[j].baseline ==> s[k].baseline <= s[j].baseline);
    forall c | c in ClubDistances && d <= ClubDistances[c]
      ensures ClubDistances[s[k].club] <= ClubDistances[c]
    {
      var j := SortedClubIndex(c);
    }
  }

  /** A distance of zero or less gets the Lob Wedge at zero percent or less. */
  lemma NonPositiveDistanceUsesLobWedge(d: real)
    requires d <= 0.0
    ensures SuggestClubAndPercentage(d).club == "Lob Wedge"
    ensures SuggestClubAndPercentage(d).percentage <= 0.0
  {
    SortedTablePositive();
    SortedTableEntries();
  }

  /** Beyond the Driver's 280 yards the Driver is recommended at over 100 percent. */
  lemma BeyondLongestUsesDriver(d: real)
    requires d > LongestBaseline
    ensures SuggestClubAndPercentage(d) == Suggestion("Driver", d / LongestBaseline * 100.0)
    ensures SuggestClubAndPercentage(d).percentage > 100.0
  {
    SortedTablePositive();
    SortedTableEntries();
    ScanFallsBackToLast(ClubsByDistance, 0, d);
  }

  /** A longer adjusted distance never gets a club with a shorter baseline. */
  lemma LongerDistanceNeverShorterClub(d1: real, d2: real)
    requires d1 <= d2
    ensures ClubDistances[SuggestClubAndPercentage(d1).club]
            <= ClubDistances[SuggestClubAndPercentage(d2).club]
  {
    if d2 <= LongestBaseline {
      ShortestClubThatReaches(d1);
      ShortestClubThatReaches(d2);
    } else {
      BeyondLongestUsesDriver(d2);
      TableExtremes();
    }
  }

  /** Every recommended club is one the shot adjuster knows. */
  lemma SuggestedClubHasFactors(d: real)
    ensures SuggestClubAndPercentage(d).club in ShotAdjuster.ClubFactors
  {
    assert ClubDistances.Keys <= ShotAdjuster.ClubFactors.Keys;
  }

  // ---------------------------------------------------------------------
  // Worked values

  /** Exactly the Lob Wedge's carry is a full Lob Wedge. */
  lemma LobWedgeFullSwingExample()
    ensures SuggestClubAndPercentage(80.0) == Suggestion("Lob Wedge", 100.0)
  {
  }

  /** Zero yards is the Lob Wedge at zero percent. */
  lemma ZeroDistanceExample()
    ensures SuggestClubAndPercentage(0.0) == Suggestion("Lob Wedge", 0.0)
  {
  }

  /** 226 yards is past the Hybrid (225), so it is a 3-Iron (228). */
  lemma HybridBeforeThreeIronExample()
    ensures SuggestClubAndPercentage(226.0) == Suggestion("3-Iron", 226.0 / 228.0 * 100.0)
  {
  }

  /** 300 yards is the Driver at 300/280 of a full swing. */
  lemma BeyondDriverExample()
    ensures SuggestClubAndPercentage(300.0) == Suggestion("Driver", 300.0 / 280.0 * 100.0)
  {
    BeyondLongestUsesDriver(300.0);
  }
}
