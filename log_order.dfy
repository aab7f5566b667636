/** Ordering and counting over activity logs. The ledger re-sorts its history
    after every completion and the history page sorts a copy; both call the
    array sort with the comparator `(a, b) => b.date.localeCompare(a.date)`,
    i.e. newest date first, and JavaScript's sort is stable. `SortDesc` is that
    sort as a stable insertion sort on values. */
module LogOrder {
  import opened Types
  import opened DateStrings

  /** Newest first: each entry's date sorts at or after every later entry's date. */
  predicate SortedDesc(s: seq<ActivityLog>) {
    forall i, j :: 0 <= i < j < |s| ==> AtLeast(s[i].date, s[j].date)
  }

  /** Inserts `e` before the first entry whose date is strictly older, so it
      lands after every entry dated the same (stability). */
  function InsertDesc(sorted: seq<ActivityLog>, e: ActivityLog): seq<ActivityLog> {
    if sorted == [] then [e]
    else if LexLess(sorted[0].date, e.date) then [e] + sorted
    else [sorted[0]] + InsertDesc(sorted[1..], e)
  }

  /** Stable newest-first sort: inserts the entries one by one, left to right. */
  function SortDesc(s: seq<ActivityLog>): seq<ActivityLog> {
    if s == [] then [] else InsertDesc(SortDesc(s[..|s| - 1]), s[|s| - 1])
  }

  lemma {:induction false} InsertDescPermutation(sorted: seq<ActivityLog>, e: ActivityLog)
    ensures multiset(InsertDesc(sorted, e)) == multiset(sorted) + multiset{e}
    ensures |InsertDesc(sorted, e)| == |sorted| + 1
  {
    if sorted != [] && !LexLess(sorted[0].date, e.date) {
      InsertDescPermutation(sorted[1..], e);
      assert sorted == [sorted[0]] + sorted[1..];
    }
  }

  /** Inserting into a newest-first log keeps it newest first. */
  lemma {:induction false} InsertDescSorted(sorted: seq<ActivityLog>, e: ActivityLog)
    requires SortedDesc(sorted)
    ensures SortedDesc(InsertDesc(sorted, e))
  {
    if sorted == [] {
    } else if LexLess(sorted[0].date, e.date) {
      var r := InsertDesc(sorted, e);
      forall i, j | 0 <= i < j < |r| ensures AtLeast(r[i].date, r[j].date) {
        if i == 0 {
          LexLessAsymmetric(sorted[0].date, e.date);
          assert r[j] == sorted[j - 1];
          LexLessIrreflexive(sorted[0].date);
          AtLeastTransitive(e.date, sorted[0].date, r[j].date);
        }
      }
    } else {
      var tail := sorted[1..];
      InsertDescSorted(tail, e);
      InsertDescPermutation(tail, e);
      var r := InsertDesc(sorted, e);
      assert r == [sorted[0]] + InsertDesc(tail, e);
      forall i, j | 0 <= i < j < |r| ensures AtLeast(r[i].date, r[j].date) {
        if i == 0 {
          var x := r[j];
          assert x in multiset(InsertDesc(tail, e));
          if x == e {
          } else {
            assert x in multiset(tail);
            var k :| 0 <= k < |tail| && tail[k] == x;
            assert sorted[k + 1] == x;
          }
        }
      }
    }
  }

  /** The sort yields a permutation of its input. */
  lemma {:induction false} SortDescPermutation(s: seq<ActivityLog>)
    ensures multiset(SortDesc(s)) == multiset(s)
    ensures |SortDesc(s)| == |s|
  {
    if s != [] {
      var init := s[..|s| - 1];
      SortDescPermutation(init);
      InsertDescPermutation(SortDesc(init), s[|s| - 1]);
      assert s == init + [s[|s| - 1]];
    }
  }

  /** The sort yields a newest-first log. */
  lemma {:induction false} SortDescSorted(s: seq<ActivityLog>)
    ensures SortedDesc(SortDesc(s))
  {
    if s != [] {
      SortDescSorted(s[..|s| - 1]);
      InsertDescSorted(SortDesc(s[..|s| - 1]), s[|s| - 1]);
    }
  }

  /** An entry no newer than everything already there goes to the end. */
  lemma {:induction false} InsertDescAtEnd(sorted: seq<ActivityLog>, e: ActivityLog)
    requires forall i :: 0 <= i < |sorted| ==> AtLeast(sorted[i].date, e.date)
    ensures InsertDesc(sorted, e) == sorted + [e]
  {
    if sorted != [] {
      InsertDescAtEnd(sorted[1..], e);
      assert sorted == [sorted[0]] + sorted[1..];
    }
  }

  /** Sorting a log that is already newest first changes nothing. */
  lemma {:induction false} SortDescOfSorted(s: seq<ActivityLog>)
    requires SortedDesc(s)
    ensures SortDesc(s) == s
  {
    if s != [] {
      var init := s[..|s| - 1];
      SortDescOfSorted(init);
      InsertDescAtEnd(init, s[|s| - 1]);
      assert init + [s[|s| - 1]] == s;
    }
  }

  /** Where `InsertDesc` puts `e` in a sorted log: after every entry dated at or
      after it and before the first strictly older one. The in-place sort uses
      this to show that its inner loop stops at the right place. */
  lemma {:induction false} InsertDescAt(sorted: seq<ActivityLog>, e: ActivityLog, j: nat)
    requires SortedDesc(sorted)
    requires j <= |sorted|
    requires j > 0 ==> AtLeast(sorted[j - 1].date, e.date)
    requires forall q :: j <= q < |sorted| ==> LexLess(sorted[q].date, e.date)
    ensures InsertDesc(sorted, e) == sorted[..j] + [e] + sorted[j..]
  {
    if j == 0 {
      if sorted != [] {
        assert LexLess(sorted[0].date, e.date);
      }
    } else {
      LexLessIrreflexive(sorted[0].date);
      AtLeastTransitive(sorted[0].date, sorted[j - 1].date, e.date);
      InsertDescAt(sorted[1..], e, j - 1);
      assert sorted[..j] == [sorted[0]] + sorted[1..][..j - 1];
      assert sorted[j..] == sorted[1..][j - 1..];
    }
  }

  /** A selection of log entries: by date, or by category. */
  datatype Selector = DateIs(date: string) | CategoryIs(key: CategoryKey)

  predicate Selects(sel: Selector, e: ActivityLog) {
    match sel
    case DateIs(d) => e.date == d
    case CategoryIs(k) => e.categoryKey == k
  }

  /** The number of entries of `s` that `sel` selects. */
  function Count(s: seq<ActivityLog>, sel: Selector): nat {
    if s == [] then 0 else (if Selects(sel, s[0]) then 1 else 0) + Count(s[1..], sel)
  }

  lemma {:induction false} CountBounds(s: seq<ActivityLog>, sel: Selector)
    ensures Count(s, sel) <= |s|
    ensures Count(s, sel) > 0 <==> exists i :: 0 <= i < |s| && Selects(sel, s[i])
  {
    if s != [] {
      CountBounds(s[1..], sel);
      if Selects(sel, s[0]) {
        assert Selects(sel, s[0]);
      } else if exists i :: 0 <= i < |s| && Selects(sel, s[i]) {
        var i :| 0 <= i < |s| && Selects(sel, s[i]);
        assert Selects(sel, s[1..][i - 1]);
      }
    }
  }

  lemma {:induction false} CountAppend(s: seq<ActivityLog>, e: ActivityLog, sel: Selector)
    ensures Count(s + [e], sel) == Count(s, sel) + (if Selects(sel, e) then 1 else 0)
  {
    if s != [] {
      CountAppend(s[1..], e, sel);
      assert (s + [e])[1..] == s[1..] + [e];
    }
  }

  lemma {:induction false} CountUpdate(s: seq<ActivityLog>, i: nat, e: ActivityLog, sel: Selector)
    requires i < |s|
    ensures Count(s[i := e], sel) + (if Selects(sel, s[i]) then 1 else 0)
         == Count(s, sel) + (if Selects(sel, e) then 1 else 0)
  {
    if i > 0 {
      CountUpdate(s[1..], i - 1, e, sel);
      assert s[i := e][1..] == s[1..][i - 1 := e];
    }
  }

  lemma {:induction false} CountInsertDesc(sorted: seq<ActivityLog>, e: ActivityLog, sel: Selector)
    ensures Count(InsertDesc(sorted, e), sel) == Count(sorted, sel) + (if Selects(sel, e) then 1 else 0)
  {
    if sorted != [] && !LexLess(sorted[0].date, e.date) {
      CountInsertDesc(sorted[1..], e, sel);
    }
  }

  /** Sorting keeps every count. */
  lemma {:induction false} CountSortDesc(s: seq<ActivityLog>, sel: Selector)
    ensures Count(SortDesc(s), sel) == Count(s, sel)
  {
    if s != [] {
      var init := s[..|s| - 1];
      CountSortDesc(init, sel);
      CountInsertDesc(SortDesc(init), s[|s| - 1], sel);
      CountAppend(init, s[|s| - 1], sel);
      assert init + [s[|s| - 1]] == s;
    }
  }
}
