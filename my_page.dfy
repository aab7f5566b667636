/** The history page's arithmetic: a newest-first copy of the log split into
    pages of seven, bounded previous/next moves, the set of completed dates
    the calendar highlights with its `YYYY-MM-DD` day strings, and the
    category ranking of the stats panel. */
module MyPage {
  import opened Types
  import opened DateStrings
  import opened LogOrder

  /** `[...activityLog].sort(...)`: a newest-first permutation of the log; the
      log itself is a value and stays as it was. */
  function SortedActivityLog(log: seq<ActivityLog>): (r: seq<ActivityLog>)
    ensures multiset(r) == multiset(log) && |r| == |log|
    ensures SortedDesc(r)
    ensures SortedDesc(log) ==> r == log
  {
    SortDescPermutation(log);
    SortDescSorted(log);
    assert SortedDesc(log) ==> SortDesc(log) == log by {
      if SortedDesc(log) {
        SortDescOfSorted(log);
      }
    }
    SortDesc(log)
  }

  const ITEMS_PER_PAGE: nat := 7

  /** `Math.ceil(n / 7)`: the fewest pages of seven that hold `n` items. */
  function TotalPages(n: nat): (r: nat)
    ensures r * ITEMS_PER_PAGE >= n
    ensures r > 0 ==> (r - 1) * ITEMS_PER_PAGE < n
    ensures r == 0 <==> n == 0
  {
    (n + ITEMS_PER_PAGE - 1) / ITEMS_PER_PAGE
  }

  /** JavaScript's `Array.prototype.slice(start, end)`: negative bounds count
      from the end, bounds are clamped to the array, and an empty range gives `[]`. */
  function JsSlice<T>(s: seq<T>, start: int, end: int): (r: seq<T>)
    ensures 0 <= start <= end <= |s| ==> r == s[start..end]
    ensures |r| <= |s|
  {
    var from := if start < 0 then (if |s| + start < 0 then 0 else |s| + start)
                else if start > |s| then |s| else start;
    var to := if end < 0 then (if |s| + end < 0 then 0 else |s| + end)
              else if end > |s| then |s| else end;
    if from < to then s[from..to] else []
  }

  function Min(a: int, b: int): int {
    if a < b then a else b
  }

  /** The items page `page` shows. */
  function PageItems(sorted: seq<ActivityLog>, page: int): seq<ActivityLog> {
    JsSlice(sorted, (page - 1) * ITEMS_PER_PAGE, page * ITEMS_PER_PAGE)
  }

  /** Page `page` (counted from 1) holds the items at indices
      `[(page - 1) * 7, page * 7)`, cut off at the end: at most seven, and at
      least one on every page up to `TotalPages`. */
  lemma PageItemsWindow(sorted: seq<ActivityLog>, page: int)
    requires page >= 1
    ensures var lo := Min((page - 1) * ITEMS_PER_PAGE, |sorted|);
            PageItems(sorted, page) == sorted[lo..Min(page * ITEMS_PER_PAGE, |sorted|)]
    ensures |PageItems(sorted, page)| <= ITEMS_PER_PAGE
    ensures page <= TotalPages(|sorted|) ==> |PageItems(sorted, page)| > 0
  {
  }

  /** Pages `from` through `last`, concatenated. */
  function PagesFrom(sorted: seq<ActivityLog>, from: nat, last: nat): seq<ActivityLog>
    decreases last + 1 - from
  {
    if from > last then [] else PageItems(sorted, from) + PagesFrom(sorted, from + 1, last)
  }

  lemma {:induction false} PagesFromRest(sorted: seq<ActivityLog>, from: nat)
    requires 1 <= from <= TotalPages(|sorted|) + 1
    ensures PagesFrom(sorted, from, TotalPages(|sorted|)) == sorted[Min((from - 1) * ITEMS_PER_PAGE, |sorted|)..]
    decreases TotalPages(|sorted|) + 1 - from
  {
    var last := TotalPages(|sorted|);
    if from <= last {
      PagesFromRest(sorted, from + 1);
      PageItemsWindow(sorted, from);
      var lo := Min((from - 1) * ITEMS_PER_PAGE, |sorted|);
      var hi := Min(from * ITEMS_PER_PAGE, |sorted|);
      assert sorted[lo..] == sorted[lo..hi] + sorted[hi..];
    } else {
      assert (from - 1) * ITEMS_PER_PAGE >= |sorted|;
    }
  }

  /** Pages `1..TotalPages` together show the whole sorted log, in order, each item once. */
  lemma PagesPartition(sorted: seq<ActivityLog>)
    ensures PagesFrom(sorted, 1, TotalPages(|sorted|)) == sorted
  {
    PagesFromRest(sorted, 1);
  }

  /** `currentPage` and its two bounded moves. */
  class Pager {
    var currentPage: int

    ghost predicate Valid(totalPages: nat)
      reads this
    {
      1 <= currentPage <= (if totalPages < 1 then 1 else totalPages)
    }

    constructor()
      ensures currentPage == 1
      ensures forall t: nat :: Valid(t)
    {
      currentPage := 1;
    }

    /** `handlePreviousPage`: back one page, but never below page 1. */
    method PreviousPage()
      modifies this
      ensures currentPage == if old(currentPage) > 1 then old(currentPage) - 1 else old(currentPage)
      ensures forall t: nat :: old(Valid(t)) ==> Valid(t)
    {
      if currentPage > 1 {
        currentPage := currentPage - 1;
      }
    }

    /** `handleNextPage`: forward one page, but never past the last page. */
    method NextPage(totalPages: nat)
      modifies this
      ensures currentPage == if old(currentPage) < totalPages then old(currentPage) + 1 else old(currentPage)
      ensures old(Valid(totalPages)) ==> Valid(totalPages)
    {
      if currentPage < totalPages {
        currentPage := currentPage + 1;
      }
    }
  }

  /** `new Set(activityLog.map(log => log.date))`. */
  function CompletedDates(log: seq<ActivityLog>): (r: set<string>)
    ensures forall d :: d in r <==> Count(log, DateIs(d)) > 0
  {
    var r := set i | 0 <= i < |log| :: log[i].date;
    assert forall d :: d in r <==> Count(log, DateIs(d)) > 0 by {
      forall d ensures d in r <==> Count(log, DateIs(d)) > 0 {
        CountBounds(log, DateIs(d));
      }
    }
    r
  }

  /** The character of a decimal digit. */
  function DigitChar(n: nat): char
    requires n < 10
  {
    (48 + n) as char
  }

  /** `String(n)` for a non-negative integer: its decimal digits. */
  function NatToString(n: nat): string
  {
    if n < 10 then [DigitChar(n)] else NatToString(n / 10) + [DigitChar(n % 10)]
  }

  /** `s.padStart(2, '0')`. */
  function Pad2(s: string): string {
    if |s| == 0 then "00" else if |s| == 1 then "0" + s else s
  }

  /** The calendar's day string for `year`, zero-based `month` and `day`. */
  function DayString(year: nat, month: nat, day: nat): string {
    NatToString(year) + "-" + Pad2(NatToString(month + 1)) + "-" + Pad2(NatToString(day))
  }

  /** The two-digit form of `n < 100`. */
  function TwoDigits(n: nat): string
    requires n < 100
  {
    [DigitChar(n / 10), DigitChar(n % 10)]
  }

  /** The four-digit form of a year `1000 <= y <= 9999`, as two two-digit blocks. */
  function YearDigits(y: nat): string
    requires y <= 9999
  {
    TwoDigits(y / 100) + TwoDigits(y % 100)
  }

  /** Three blocks joined by dashes. */
  function DashJoin(a: string, b: string, c: string): string {
    a + "-" + b + "-" + c
  }

  /** The `YYYY-MM-DD` shape of the log's dates. */
  predicate IsIsoDate(s: string) {
    && |s| == 10 && s[4] == '-' && s[7] == '-'
    && forall i :: 0 <= i < 10 && i != 4 && i != 7 ==> '0' <= s[i] <= '9'
  }

  /** Calendar days of four-digit years. */
  predicate IsCalendarDay(year: nat, month: nat, day: nat) {
    1000 <= year <= 9999 && month < 12 && 1 <= day <= 31
  }

  lemma PaddedTwoDigits(n: nat)
    requires 1 <= n < 100
    ensures Pad2(NatToString(n)) == TwoDigits(n)
  {
    if n >= 10 {
      assert NatToString(n / 10) == [DigitChar(n / 10)];
    }
  }

  lemma FourDigits(y: nat)
    requires 1000 <= y <= 9999
    ensures NatToString(y) == YearDigits(y)
  {
    assert NatToString(y / 1000) == [DigitChar(y / 1000)];
    assert (y / 10) / 10 == y / 100 && (y / 100) / 10 == y / 1000;
    assert NatToString(y / 100) == [DigitChar(y / 1000), DigitChar((y / 100) % 10)];
    assert NatToString(y / 10) == NatToString(y / 100) + [DigitChar((y / 10) % 10)];
    assert (y % 100) / 10 == (y / 10) % 10 && (y % 100) % 10 == y % 10;
  }

  /** A calendar day's string, block by block. */
  lemma DayStringBlocks(year: nat, month: nat, day: nat)
    requires IsCalendarDay(year, month, day)
    ensures DayString(year, month, day) == DashJoin(YearDigits(year), TwoDigits(month + 1), TwoDigits(day))
  {
    FourDigits(year);
    PaddedTwoDigits(month + 1);
    PaddedTwoDigits(day);
  }

  /** The calendar writes every day in the log's `YYYY-MM-DD` shape. */
  lemma DayStringIsIsoDate(year: nat, month: nat, day: nat)
    requires IsCalendarDay(year, month, day)
    ensures IsIsoDate(DayString(year, month, day))
  {
    DayStringBlocks(year, month, day);
  }

  /** Comparing two strings block by block: equal-length first blocks decide
      unless they are equal. */
  lemma {:induction false} LexLessConcat(a1: string, a2: string, b1: string, b2: string)
    requires |a1| == |b1|
    ensures LexLess(a1 + a2, b1 + b2) <==> LexLess(a1, b1) || (a1 == b1 && LexLess(a2, b2))
    ensures a1 + a2 == b1 + b2 <==> a1 == b1 && a2 == b2
  {
    if |a1| > 0 {
      LexLessConcat(a1[1..], a2, b1[1..], b2);
      assert (a1 + a2)[1..] == a1[1..] + a2 && (b1 + b2)[1..] == b1[1..] + b2;
      assert a1 == [a1[0]] + a1[1..] && b1 == [b1[0]] + b1[1..];
    } else {
      assert a1 + a2 == a2 && b1 + b2 == b2;
    }
    if a1 + a2 == b1 + b2 {
      assert a1 == (a1 + a2)[..|a1|] && b1 == (b1 + b2)[..|b1|];
      assert a2 == (a1 + a2)[|a1|..] && b2 == (b1 + b2)[|b1|..];
    }
  }

  lemma TwoDigitsOrder(m: nat, n: nat)
    requires m < 100 && n < 100
    ensures LexLess(TwoDigits(m), TwoDigits(n)) <==> m < n
    ensures TwoDigits(m) == TwoDigits(n) <==> m == n
  {
    var a, b := TwoDigits(m), TwoDigits(n);
    assert a[1..][1..] == [] && b[1..][1..] == [];
    assert !LexLess(a[1..][1..], b[1..][1..]);
    assert LexLess(a[1..], b[1..]) <==> a[1] < b[1];
    assert LexLess(a, b) <==> a[0] < b[0] || (a[0] == b[0] && a[1] < b[1]);
    assert m == m / 10 * 10 + m % 10 && n == n / 10 * 10 + n % 10;
    if a == b {
      assert a[0] == b[0] && a[1] == b[1];
    }
  }

  lemma YearDigitsOrder(y1: nat, y2: nat)
    requires y1 <= 9999 && y2 <= 9999
    ensures LexLess(YearDigits(y1), YearDigits(y2)) <==> y1 < y2
    ensures YearDigits(y1) == YearDigits(y2) <==> y1 == y2
  {
    TwoDigitsOrder(y1 / 100, y2 / 100);
    TwoDigitsOrder(y1 % 100, y2 % 100);
    LexLessConcat(TwoDigits(y1 / 100), TwoDigits(y1 % 100), TwoDigits(y2 / 100), TwoDigits(y2 % 100));
    assert y1 == y1 / 100 * 100 + y1 % 100 && y2 == y2 / 100 * 100 + y2 % 100;
  }

  /** Dash-joined blocks of equal lengths compare block by block. */
  lemma DashJoinOrder(a1: string, b1: string, c1: string, a2: string, b2: string, c2: string)
    requires |a1| == |a2| && |b1| == |b2|
    ensures LexLess(DashJoin(a1, b1, c1), DashJoin(a2, b2, c2))
            <==> LexLess(a1, a2) || (a1 == a2 && (LexLess(b1, b2) || (b1 == b2 && LexLess(c1, c2))))
    ensures DashJoin(a1, b1, c1) == DashJoin(a2, b2, c2) <==> a1 == a2 && b1 == b2 && c1 == c2
  {
    LexLessIrreflexive("-");
    LexLessConcat("-", c1, "-", c2);
    LexLessConcat(b1, "-" + c1, b2, "-" + c2);
    LexLessConcat("-", b1 + "-" + c1, "-", b2 + "-" + c2);
    LexLessConcat(a1, "-" + b1 + "-" + c1, a2, "-" + b2 + "-" + c2);
    assert DashJoin(a1, b1, c1) == a1 + ("-" + (b1 + ("-" + c1)));
    assert DashJoin(a2, b2, c2) == a2 + ("-" + (b2 + ("-" + c2)));
    assert "-" + (b1 + ("-" + c1)) == "-" + b1 + "-" + c1;
    assert "-" + (b2 + ("-" + c2)) == "-" + b2 + "-" + c2;
    assert b1 + ("-" + c1) == b1 + "-" + c1 && b2 + ("-" + c2) == b2 + "-" + c2;
  }

  /** Day strings sort as the days do: lexicographic order on them is
      chronological order (so sorting the log by date string sorts it by day),
      and different days get different strings. */
  lemma DayStringOrder(y1: nat, m1: nat, d1: nat, y2: nat, m2: nat, d2: nat)
    requires IsCalendarDay(y1, m1, d1) && IsCalendarDay(y2, m2, d2)
    ensures LexLess(DayString(y1, m1, d1), DayString(y2, m2, d2))
            <==> y1 < y2 || (y1 == y2 && (m1 < m2 || (m1 == m2 && d1 < d2)))
    ensures DayString(y1, m1, d1) == DayString(y2, m2, d2) <==> y1 == y2 && m1 == m2 && d1 == d2
  {
    DayStringBlocks(y1, m1, d1);
    DayStringBlocks(y2, m2, d2);
    YearDigitsOrder(y1, y2);
    TwoDigitsOrder(m1 + 1, m2 + 1);
    TwoDigitsOrder(d1, d2);
    DashJoinOrder(YearDigits(y1), TwoDigits(m1 + 1), TwoDigits(d1), YearDigits(y2), TwoDigits(m2 + 1), TwoDigits(d2));
  }

  /** A calendar day is highlighted iff some log entry carries its date string. */
  predicate IsHighlighted(completed: set<string>, year: nat, month: nat, day: nat) {
    DayString(year, month, day) in completed
  }

  lemma HighlightedIffLogged(log: seq<ActivityLog>, year: nat, month: nat, day: nat)
    ensures IsHighlighted(CompletedDates(log), year, month, day)
            <==> exists i :: 0 <= i < |log| && log[i].date == DayString(year, month, day)
  {
    CountBounds(log, DateIs(DayString(year, month, day)));
  }

  /** The entries of `Object.entries(stats)` whose count is positive, in order. */
  function PositiveOnly(entries: seq<(CategoryKey, int)>): seq<(CategoryKey, int)> {
    if entries == [] then []
    else (if entries[0].1 > 0 then [entries[0]] else []) + PositiveOnly(entries[1..])
  }

  /** Inserts before the first entry with a strictly smaller count (stable). */
  function InsertByCount(sorted: seq<(CategoryKey, int)>, e: (CategoryKey, int)): seq<(CategoryKey, int)> {
    if sorted == [] then [e]
    else if sorted[0].1 < e.1 then [e] + sorted
    else [sorted[0]] + InsertByCount(sorted[1..], e)
  }

  /** Stable sort by count, largest first. */
  function SortByCount(s: seq<(CategoryKey, int)>): seq<(CategoryKey, int)> {
    if s == [] then [] else InsertByCount(SortByCount(s[..|s| - 1]), s[|s| - 1])
  }

  predicate CountsDescending(s: seq<(CategoryKey, int)>) {
    forall i, j :: 0 <= i < j < |s| ==> s[i].1 >= s[j].1
  }

  lemma {:induction false} InsertByCountFacts(sorted: seq<(CategoryKey, int)>, e: (CategoryKey, int))
    requires CountsDescending(sorted)
    ensures multiset(InsertByCount(sorted, e)) == multiset(sorted) + multiset{e}
    ensures CountsDescending(InsertByCount(sorted, e))
  {
    if sorted != [] && sorted[0].1 >= e.1 {
      InsertByCountFacts(sorted[1..], e);
      assert sorted == [sorted[0]] + sorted[1..];
      var r := InsertByCount(sorted, e);
      forall j | 0 < j < |r| ensures r[0].1 >= r[j].1 {
        assert r[j] in multiset(InsertByCount(sorted[1..], e));
        if r[j] != e {
          assert r[j] in multiset(sorted[1..]);
        }
      }
    }
  }

  lemma {:induction false} SortByCountFacts(s: seq<(CategoryKey, int)>)
    ensures multiset(SortByCount(s)) == multiset(s)
    ensures CountsDescending(SortByCount(s))
  {
    if s != [] {
      SortByCountFacts(s[..|s| - 1]);
      InsertByCountFacts(SortByCount(s[..|s| - 1]), s[|s| - 1]);
      assert s == s[..|s| - 1] + [s[|s| - 1]];
    }
  }

  lemma {:induction false} PositiveOnlyFacts(entries: seq<(CategoryKey, int)>)
    ensures forall e :: e in multiset(PositiveOnly(entries)) <==> e in entries && e.1 > 0
  {
    if entries != [] {
      PositiveOnlyFacts(entries[1..]);
      assert entries == [entries[0]] + entries[1..];
    }
  }

  lemma RankFacts(entries: seq<(CategoryKey, int)>)
    ensures var r := SortByCount(PositiveOnly(entries));
            && multiset(r) == multiset(PositiveOnly(entries))
            && (forall e :: e in r <==> e in entries && e.1 > 0)
            && CountsDescending(r)
            && (r == [] <==> forall i :: 0 <= i < |entries| ==> entries[i].1 <= 0)
  {
    PositiveOnlyFacts(entries);
    SortByCountFacts(PositiveOnly(entries));
    var r := SortByCount(PositiveOnly(entries));
    assert forall e :: e in r <==> e in multiset(r);
    if r != [] {
      assert r[0] in entries;
    } else {
      forall i | 0 <= i < |entries| ensures entries[i].1 <= 0 {
        assert entries[i] in entries;
      }
    }
  }

  /** The stats panel's rows: categories with a positive count, largest count
      first, each positive entry exactly as often as it is listed. */
  function RankStats(entries: seq<(CategoryKey, int)>): (r: seq<(CategoryKey, int)>)
    ensures multiset(r) == multiset(PositiveOnly(entries))
    ensures forall e :: e in r <==> e in entries && e.1 > 0
    ensures CountsDescending(r)
    ensures r == [] <==> forall i :: 0 <= i < |entries| ==> entries[i].1 <= 0
  {
    RankFacts(entries);
    SortByCount(PositiveOnly(entries))
  }

  /** `entries` lists the map `stats`: each key once, with its count. */
  ghost predicate ListsStats(entries: seq<(CategoryKey, int)>, stats: CategoryStats) {
    && (forall i :: 0 <= i < |entries| ==> entries[i].0 in stats && stats[entries[i].0] == entries[i].1)
    && (forall k :: k in stats ==> exists i :: 0 <= i < |entries| && entries[i].0 == k)
  }

  /** The panel shows category `k` with count `n` iff the ledger counts `n > 0`
      completions of `k`; it shows the empty message iff no count is positive. */
  lemma RankedStatsMatchLedger(entries: seq<(CategoryKey, int)>, stats: CategoryStats)
    requires ListsStats(entries, stats)
    ensures forall k, n :: (k, n) in RankStats(entries) <==> k in stats && stats[k] == n && n > 0
    ensures RankStats(entries) == [] <==> forall k :: k in stats ==> stats[k] == 0
  {
    var r := RankStats(entries);
    forall k, n ensures (k, n) in r <==> k in stats && stats[k] == n && n > 0 {
      if k in stats && stats[k] == n && n > 0 {
        var i :| 0 <= i < |entries| && entries[i].0 == k;
        assert entries[i] == (k, n);
      }
      if (k, n) in r {
        var i :| 0 <= i < |entries| && entries[i] == (k, n);
      }
    }
    if r == [] {
      forall k | k in stats ensures stats[k] == 0 {
        var i :| 0 <= i < |entries| && entries[i].0 == k;
      }
    } else {
      assert r[0] in r;
    }
  }
}
