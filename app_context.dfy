/** The activity ledger held by the app context: user info, the completion
    history and per-category counts, loaded once from local storage, written
    back whenever they change, and updated by `completeChallenge`, which keeps
    at most one completion per calendar day.

    `Complete` states on values what one completion does; the `AppStore`
    class performs it step by step and is proved to agree with it; the lemmas
    state what the ledger promises about `Complete`. */
module AppContext {
  import opened Types
  import opened Constants
  import opened DateStrings
  import opened LogOrder

  /** `findIndex(log => log.date === today)`: the first index dated `today`, or -1. */
  function FindIndex(log: seq<ActivityLog>, today: string): (r: int)
    ensures -1 <= r < |log|
    ensures r >= 0 ==> log[r].date == today && forall i :: 0 <= i < r ==> log[i].date != today
    ensures r == -1 <==> forall i :: 0 <= i < |log| ==> log[i].date != today
  {
    if log == [] then -1
    else if log[0].date == today then 0
    else
      var r := FindIndex(log[1..], today);
      if r == -1 then -1 else r + 1
  }

  /** `getTodaysCompletion`: `find(log => log.date === today)`. */
  function GetTodaysCompletion(log: seq<ActivityLog>, today: string): (r: Option<ActivityLog>)
    ensures r.None? <==> forall i :: 0 <= i < |log| ==> log[i].date != today
    ensures r.Some? ==> exists i :: 0 <= i < |log| && log[i] == r.value && r.value.date == today
                                    && forall j :: 0 <= j < i ==> log[j].date != today
  {
    if log == [] then None
    else if log[0].date == today then Some(log[0])
    else
      var r := GetTodaysCompletion(log[1..], today);
      if r.Some? then
        var i :| 0 <= i < |log[1..]| && log[1..][i] == r.value && r.value.date == today
                 && forall j :: 0 <= j < i ==> log[1..][j].date != today;
        assert log[i + 1] == r.value;
        r
      else r
  }

  /** The entry `completeChallenge` records. */
  function NewEntry(today: string, key: CategoryKey, content: ChallengeContent): ActivityLog {
    ActivityLog(today, key, CategoryName(key), content)
  }

  /** Replaces today's entry where it is, or appends the new one. */
  function Placed(log: seq<ActivityLog>, today: string, e: ActivityLog): seq<ActivityLog> {
    var i := FindIndex(log, today);
    if i == -1 then log + [e] else log[i := e]
  }

  /** The category of today's existing entry, if any. */
  function TodaysCategory(log: seq<ActivityLog>, today: string): Option<CategoryKey> {
    var i := FindIndex(log, today);
    if i == -1 then None else Some(log[i].categoryKey)
  }

  /** The stats update: the old category loses one if its count is present and
      nonzero (`Math.max(0, n - 1)` with n >= 1), then the new one gains one,
      an absent count reading as 0. */
  function Rebalanced(stats: CategoryStats, prev: Option<CategoryKey>, key: CategoryKey): CategoryStats {
    var lowered := if prev.Some? && Stat(stats, prev.value) != 0
                   then stats[prev.value := stats[prev.value] - 1] else stats;
    lowered[key := Stat(lowered, key) + 1]
  }

  /** `completeChallenge(key, content)` on day `today`, on values. */
  function Complete(d: AppData, today: string, key: CategoryKey, content: ChallengeContent): AppData {
    AppData(d.userInfo,
            SortDesc(Placed(d.activityLog, today, NewEntry(today, key, content))),
            Rebalanced(d.categoryStats, TodaysCategory(d.activityLog, today), key))
  }

  /** The ledger invariant: one entry per date, every count equal to the number
      of entries of its category, and the history newest first. */
  ghost predicate Inv(d: AppData) {
    && (forall date :: Count(d.activityLog, DateIs(date)) <= 1)
    && (forall k :: Stat(d.categoryStats, k) == Count(d.activityLog, CategoryIs(k)))
    && SortedDesc(d.activityLog)
  }

  /** Two entries selected by a selector that selects at most one are the same entry. */
  lemma {:induction false} CountAtMostOne(s: seq<ActivityLog>, sel: Selector, i: nat, j: nat)
    requires Count(s, sel) <= 1
    requires i < |s| && j < |s| && Selects(sel, s[i]) && Selects(sel, s[j])
    ensures i == j
  {
    if i == 0 && j > 0 {
      CountBounds(s[1..], sel);
    } else if j == 0 && i > 0 {
      CountBounds(s[1..], sel);
    } else if i > 0 && j > 0 {
      CountAtMostOne(s[1..], sel, i - 1, j - 1);
    }
  }

  /** How many entries of each kind the placed log holds, before sorting. */
  lemma PlacedCount(log: seq<ActivityLog>, today: string, e: ActivityLog, sel: Selector)
    requires e.date == today
    ensures var i := FindIndex(log, today);
            Count(Placed(log, today, e), sel)
            == Count(log, sel) + (if Selects(sel, e) then 1 else 0)
               - (if i >= 0 && Selects(sel, log[i]) then 1 else 0)
  {
    var i := FindIndex(log, today);
    if i == -1 {
      CountAppend(log, e, sel);
    } else {
      CountUpdate(log, i, e, sel);
    }
  }

  /** After a completion exactly as many entries are dated `today` as before,
      but at least one, and the new entry is among them; so with at most one
      before there is exactly one after, it is the new entry, and
      `getTodaysCompletion` returns it. */
  lemma CompleteToday(d: AppData, today: string, key: CategoryKey, content: ChallengeContent)
    ensures var n := Count(d.activityLog, DateIs(today));
            Count(Complete(d, today, key, content).activityLog, DateIs(today)) == if n == 0 then 1 else n
    ensures NewEntry(today, key, content) in Complete(d, today, key, content).activityLog
    ensures Count(d.activityLog, DateIs(today)) <= 1 ==>
              && Count(Complete(d, today, key, content).activityLog, DateIs(today)) == 1
              && GetTodaysCompletion(Complete(d, today, key, content).activityLog, today)
                 == Some(NewEntry(today, key, content))
  {
    var e := NewEntry(today, key, content);
    var log := d.activityLog;
    var placed := Placed(log, today, e);
    var r := Complete(d, today, key, content).activityLog;
    CountSortDesc(placed, DateIs(today));
    PlacedCount(log, today, e, DateIs(today));
    CountBounds(log, DateIs(today));
    SortDescPermutation(placed);
    var i := FindIndex(log, today);
    assert e in multiset(placed) by {
      if i == -1 { assert placed[|log|] == e; } else { assert placed[i] == e; }
    }
    assert e in multiset(r);
    if Count(log, DateIs(today)) <= 1 {
      var t := GetTodaysCompletion(r, today);
      var a :| 0 <= a < |r| && r[a] == e;
      assert t.Some?;
      var b :| 0 <= b < |r| && r[b] == t.value && t.value.date == today
               && forall j :: 0 <= j < b ==> r[j].date != today;
      CountAtMostOne(r, DateIs(today), a, b);
    }
  }

  /** The history grows by one on the first completion of a day and keeps its
      length when today's entry is replaced. */
  lemma CompleteLength(d: AppData, today: string, key: CategoryKey, content: ChallengeContent)
    ensures |Complete(d, today, key, content).activityLog|
            == |d.activityLog| + (if Count(d.activityLog, DateIs(today)) == 0 then 1 else 0)
  {
    SortDescPermutation(Placed(d.activityLog, today, NewEntry(today, key, content)));
    CountBounds(d.activityLog, DateIs(today));
  }

  /** The new history is the old one with today's entry swapped for the new
      entry (or the new entry added); entries of other dates are kept, each as
      often as before. */
  lemma CompleteKeepsOtherDates(d: AppData, today: string, key: CategoryKey, content: ChallengeContent)
    ensures var i := FindIndex(d.activityLog, today);
            var e := NewEntry(today, key, content);
            var r := Complete(d, today, key, content).activityLog;
            && (i == -1 ==> multiset(r) == multiset(d.activityLog) + multiset{e})
            && (i >= 0 ==> multiset(r) == multiset(d.activityLog) - multiset{d.activityLog[i]} + multiset{e})
    ensures forall x: ActivityLog :: x.date != today ==>
              multiset(Complete(d, today, key, content).activityLog)[x] == multiset(d.activityLog)[x]
  {
    var log := d.activityLog;
    var e := NewEntry(today, key, content);
    var i := FindIndex(log, today);
    var r := Complete(d, today, key, content).activityLog;
    SortDescPermutation(Placed(log, today, e));
    if i >= 0 {
      UpdateMultiset(log, i, e);
    }
    forall x: ActivityLog | x.date != today ensures multiset(r)[x] == multiset(log)[x] {
      assert x != e;
    }
  }

  lemma UpdateMultiset(s: seq<ActivityLog>, i: nat, e: ActivityLog)
    requires i < |s|
    ensures multiset(s[i := e]) == multiset(s) - multiset{s[i]} + multiset{e}
  {
    assert s == s[..i] + [s[i]] + s[i + 1..];
    assert s[i := e] == s[..i] + [e] + s[i + 1..];
  }

  /** After a completion the history is newest first. */
  lemma CompleteSorted(d: AppData, today: string, key: CategoryKey, content: ChallengeContent)
    ensures SortedDesc(Complete(d, today, key, content).activityLog)
  {
    SortDescSorted(Placed(d.activityLog, today, NewEntry(today, key, content)));
  }

  /** The count of the completed category rises by one; the category of a
      replaced entry of today falls by one, but only if its count is nonzero;
      every other count is unchanged. Re-completing the same category on the
      same day therefore nets zero. */
  lemma CompleteStats(d: AppData, today: string, key: CategoryKey, content: ChallengeContent)
    ensures var s := d.categoryStats;
            var s' := Complete(d, today, key, content).categoryStats;
            var prev := TodaysCategory(d.activityLog, today);
            && (prev.None? ==> Stat(s', key) == Stat(s, key) + 1
                               && forall q :: q != key ==> Stat(s', q) == Stat(s, q))
            && (prev == Some(key) ==> Stat(s', key) == (if Stat(s, key) == 0 then 1 else Stat(s, key))
                                      && forall q :: q != key ==> Stat(s', q) == Stat(s, q))
            && (prev.Some? && prev.value != key ==>
                  && Stat(s', key) == Stat(s, key) + 1
                  && Stat(s', prev.value) == (if Stat(s, prev.value) == 0 then 0 else Stat(s, prev.value) - 1)
                  && forall q :: q != key && q != prev.value ==> Stat(s', q) == Stat(s, q))
  {
  }

  /** A completion keeps the ledger invariant. */
  lemma CompletePreservesInv(d: AppData, today: string, key: CategoryKey, content: ChallengeContent)
    requires Inv(d)
    ensures Inv(Complete(d, today, key, content))
  {
    var log := d.activityLog;
    var e := NewEntry(today, key, content);
    var placed := Placed(log, today, e);
    var r := Complete(d, today, key, content);
    var i := FindIndex(log, today);
    forall date ensures Count(r.activityLog, DateIs(date)) <= 1 {
      CountSortDesc(placed, DateIs(date));
      PlacedCount(log, today, e, DateIs(date));
      if date == today {
        CompleteToday(d, today, key, content);
      }
    }
    if i >= 0 {
      CountBounds(log, CategoryIs(log[i].categoryKey));
      assert Stat(d.categoryStats, log[i].categoryKey) != 0;
    }
    forall q ensures Stat(r.categoryStats, q) == Count(r.activityLog, CategoryIs(q)) {
      CountSortDesc(placed, CategoryIs(q));
      PlacedCount(log, today, e, CategoryIs(q));
    }
    CompleteSorted(d, today, key, content);
  }

  /** One `completeChallenge(key, content)` call made on day `today`. */
  datatype Completion = Completion(today: string, key: CategoryKey, content: ChallengeContent)

  /** The ledger after a sequence of completions, in order. */
  function Replay(d: AppData, steps: seq<Completion>): AppData
    decreases |steps|
  {
    if steps == [] then d
    else Replay(Complete(d, steps[0].today, steps[0].key, steps[0].content), steps[1..])
  }

  lemma {:induction false} ReplayPreservesInv(d: AppData, steps: seq<Completion>)
    requires Inv(d)
    ensures Inv(Replay(d, steps))
    ensures Replay(d, steps).userInfo == d.userInfo
    decreases |steps|
  {
    if steps != [] {
      CompletePreservesInv(d, steps[0].today, steps[0].key, steps[0].content);
      ReplayPreservesInv(Complete(d, steps[0].today, steps[0].key, steps[0].content), steps[1..]);
    }
  }

  /** From the empty initial state, after any sequence of completions: dates
      are unique, every count equals the number of entries of its category
      (so none is negative), and the history is newest first. */
  lemma ReplayFromEmpty(steps: seq<Completion>)
    ensures var d := Replay(EmptyAppData, steps);
            && (forall date :: Count(d.activityLog, DateIs(date)) <= 1)
            && (forall k :: Stat(d.categoryStats, k) == Count(d.activityLog, CategoryIs(k)))
            && SortedDesc(d.activityLog)
  {
    ReplayPreservesInv(EmptyAppData, steps);
  }

  /** Completing the same category twice on one day leaves one entry for the
      day, holding the second content, and the category's count as after the
      first completion. */
  lemma SameDayRecompletion(d: AppData, today: string, key: CategoryKey, c1: ChallengeContent,
                            c2: ChallengeContent)
    requires Inv(d)
    ensures var d1 := Complete(d, today, key, c1);
            var d2 := Complete(d1, today, key, c2);
            && Count(d2.activityLog, DateIs(today)) == 1
            && GetTodaysCompletion(d2.activityLog, today) == Some(NewEntry(today, key, c2))
            && forall q :: Stat(d2.categoryStats, q) == Stat(d1.categoryStats, q)
  {
    var d1 := Complete(d, today, key, c1);
    CompletePreservesInv(d, today, key, c1);
    CompleteToday(d, today, key, c1);
    CompleteToday(d1, today, key, c2);
    var i := FindIndex(d1.activityLog, today);
    assert d1.activityLog[i] == NewEntry(today, key, c1);
    CountBounds(d1.activityLog, CategoryIs(key));
    CompleteStats(d1, today, key, c2);
  }

  /** Completing `first` and then `second` on one day moves the day's count
      from `first` to `second`. */
  lemma SameDayMigration(d: AppData, today: string, first: CategoryKey, c1: ChallengeContent,
                         second: CategoryKey, c2: ChallengeContent)
    requires Inv(d) && first != second
    ensures var d1 := Complete(d, today, first, c1);
            var d2 := Complete(d1, today, second, c2);
            && Stat(d2.categoryStats, first) == Stat(d1.categoryStats, first) - 1
            && Stat(d2.categoryStats, second) == Stat(d1.categoryStats, second) + 1
            && GetTodaysCompletion(d2.activityLog, today) == Some(NewEntry(today, second, c2))
  {
    var d1 := Complete(d, today, first, c1);
    CompletePreservesInv(d, today, first, c1);
    CompleteToday(d, today, first, c1);
    CompleteToday(d1, today, second, c2);
    var i := FindIndex(d1.activityLog, today);
    assert d1.activityLog[i] == NewEntry(today, first, c1);
    CountBounds(d1.activityLog, CategoryIs(first));
    CompleteStats(d1, today, second, c2);
  }

  /** The shape of `activityLog` as parsed from storage: an array, or something else. */
  datatype StoredLog = LogArray(entries: seq<ActivityLog>) | NotAnArray

  datatype StoredData = StoredData(userInfo: UserInfo, activityLog: StoredLog, categoryStats: CategoryStats)

  /** What reading the storage key yields: nothing (null or ""), text that does
      not parse, or parsed data. */
  datatype StorageRead = Nothing | Unparseable | Parsed(data: StoredData)

  /** What the persist effect writes: the whole aggregate, serialised. */
  function Serialize(d: AppData): StoredData {
    StoredData(d.userInfo, LogArray(d.activityLog), d.categoryStats)
  }

  /** The load effect on values: nothing stored or unparseable text keeps the
      current data; parsed data replaces it, with a non-array `activityLog`
      reset to `[]` and the other fields kept. */
  function Loaded(read: StorageRead, current: AppData): AppData {
    match read
    case Parsed(s) =>
      AppData(s.userInfo, if s.activityLog.LogArray? then s.activityLog.entries else [], s.categoryStats)
    case _ => current
  }

  /** Loading what was persisted gives back the same data. */
  lemma LoadAfterPersist(d: AppData, current: AppData)
    ensures Loaded(Parsed(Serialize(d)), current) == d
  {
  }

  /** The corruption guard: a stored non-array log loads as `[]`, the rest as stored. */
  lemma LoadGuard(u: UserInfo, stats: CategoryStats, current: AppData)
    ensures Loaded(Parsed(StoredData(u, NotAnArray, stats)), current) == AppData(u, [], stats)
  {
  }

  /** One pass of the in-place sort: moves `a[i]` left past the strictly
      older entries of the sorted prefix `a[..i]`. */
  method InsertIntoPrefix(a: array<ActivityLog>, i: nat)
    requires i < a.Length && SortedDesc(a[..i])
    modifies a
    ensures a[..i + 1] == InsertDesc(old(a[..i]), old(a[i]))
    ensures forall q :: i < q < a.Length ==> a[q] == old(a[q])
  {
    ghost var prefix := a[..i];
    ghost var x := a[i];
    var j := i;
    while j > 0 && LexLess(a[j - 1].date, a[j].date)
      invariant 0 <= j <= i
      invariant a[j] == x
      invariant forall q :: 0 <= q < j ==> a[q] == prefix[q]
      invariant forall q :: j < q <= i ==> a[q] == prefix[q - 1] && LexLess(a[q].date, x.date)
      invariant forall q :: i < q < a.Length ==> a[q] == old(a[q])
    {
      a[j - 1], a[j] := a[j], a[j - 1];
      j := j - 1;
    }
    forall q | j <= q < |prefix| ensures LexLess(prefix[q].date, x.date) {
      assert a[q + 1] == prefix[q];
    }
    InsertDescAt(prefix, x, j);
    assert a[..i + 1] == prefix[..j] + [x] + prefix[j..];
  }

  /** Sorts an array in place, newest date first, as the stable JavaScript sort
      with comparator `(a, b) => b.date.localeCompare(a.date)` does. */
  method SortInPlace(a: array<ActivityLog>)
    modifies a
    ensures a[..] == SortDesc(old(a[..]))
  {
    ghost var orig := a[..];
    var i := 0;
    while i < a.Length
      invariant 0 <= i <= a.Length
      invariant a[..i] == SortDesc(orig[..i])
      invariant forall q :: i <= q < a.Length ==> a[q] == orig[q]
    {
      SortDescSorted(orig[..i]);
      InsertIntoPrefix(a, i);
      assert orig[..i + 1][..i] == orig[..i];
      i := i + 1;
    }
    assert a[..] == a[..a.Length] && orig == orig[..a.Length];
  }

  /** The `findIndex` scan for today's entry. */
  method FindTodayIndex(log: seq<ActivityLog>, today: string) returns (idx: int)
    ensures idx == FindIndex(log, today)
  {
    idx := 0;
    while idx < |log| && log[idx].date != today
      invariant 0 <= idx <= |log|
      invariant forall i :: 0 <= i < idx ==> log[i].date != today
    {
      idx := idx + 1;
    }
    if idx == |log| {
      idx := -1;
    }
  }

  /** The working copy of the log with the new entry assigned at `idx`, or pushed when `idx` is -1. */
  method PlaceInArray(log: seq<ActivityLog>, idx: int, entry: ActivityLog) returns (arr: array<ActivityLog>)
    requires idx == FindIndex(log, entry.date)
    ensures fresh(arr) && arr[..] == Placed(log, entry.date, entry)
  {
    if idx != -1 {
      arr := new ActivityLog[|log|](i requires 0 <= i < |log| => log[i]);
      arr[idx] := entry;
      assert arr[..] == log[idx := entry];
    } else {
      arr := new ActivityLog[|log| + 1](i requires 0 <= i < |log| + 1 => if i < |log| then log[i] else entry);
      assert arr[..] == log + [entry];
    }
  }

  /** The app context's state; `storage` is what local storage holds under
      the app's single fixed key, `todayChallengeApp`. */
  class AppStore {
    var isInitialized: bool
    var userInfo: UserInfo
    var activityLog: seq<ActivityLog>
    var categoryStats: CategoryStats
    var storage: StorageRead

    function Data(): AppData
      reads this
    {
      AppData(userInfo, activityLog, categoryStats)
    }

    /** Mounting the provider: empty data, not yet initialised. */
    constructor(stored: StorageRead)
      ensures !isInitialized && Data() == EmptyAppData && storage == stored
    {
      isInitialized := false;
      userInfo := EmptyUserInfo;
      activityLog := [];
      categoryStats := map[];
      storage := stored;
    }

    /** The load effect; `isInitialized` becomes true on every path. */
    method Load()
      modifies this
      ensures isInitialized && storage == old(storage)
      ensures Data() == Loaded(storage, old(Data()))
    {
      if storage.Parsed? {
        var s := storage.data;
        if !s.activityLog.LogArray? {
          s := s.(activityLog := LogArray([]));
        }
        userInfo, activityLog, categoryStats := s.userInfo, s.activityLog.entries, s.categoryStats;
      }
      isInitialized := true;
    }

    /** The persist effect: writes the whole aggregate once initialised; a
        failed write only leaves storage as it was. */
    method Persist(writeSucceeds: bool)
      modifies this
      ensures Data() == old(Data()) && isInitialized == old(isInitialized)
      ensures storage == if isInitialized && writeSucceeds then Parsed(Serialize(Data())) else old(storage)
    {
      if isInitialized && writeSucceeds {
        storage := Parsed(Serialize(Data()));
      }
    }

    /** `setBirthDate` changes `userInfo.birthDate` and nothing else. */
    method SetBirthDate(birthDate: string)
      modifies this
      ensures userInfo == old(userInfo).(birthDate := Some(birthDate))
      ensures activityLog == old(activityLog) && categoryStats == old(categoryStats)
      ensures isInitialized == old(isInitialized) && storage == old(storage)
    {
      userInfo := userInfo.(birthDate := Some(birthDate));
    }

    /** `completeChallenge(key, content)` on day `today`, step by step. */
    method CompleteChallenge(today: string, key: CategoryKey, content: ChallengeContent)
      modifies this
      ensures Data() == Complete(old(Data()), today, key, content)
      ensures isInitialized == old(isInitialized) && storage == old(storage)
    {
      var log := activityLog;
      var idx := FindTodayIndex(log, today);
      var newStats := categoryStats;
      if idx != -1 {
        var oldKey := log[idx].categoryKey;
        if oldKey in newStats && newStats[oldKey] != 0 {
          newStats := newStats[oldKey := newStats[oldKey] - 1];
        }
      }
      newStats := newStats[key := (if key in newStats then newStats[key] else 0) + 1];
      var entry := ActivityLog(today, key, CategoryName(key), content);
      var arr := PlaceInArray(log, idx, entry);
      SortInPlace(arr);
      activityLog := arr[..];
      categoryStats := newStats;
    }
  }
}
