/** The query behind `get_all_tasks` in backend/app/crud.py: filter the table
    by status, count the matches, order them newest first by `created_at`,
    then apply OFFSET `skip` and LIMIT `limit`. */
module Listing {
  import opened Wrappers
  import opened TaskStatus
  import opened Models

  /** Every row is stored under its own id. */
  ghost predicate WellKeyed(rows: map<int, Task>) {
    forall id :: id in rows ==> rows[id].id == id
  }

  /** A row passes the status filter; no filter passes every row. */
  predicate Matches(t: Task, filter: Option<Status>) {
    filter.None? || t.status == filter.value
  }

  predicate IdsIncreasing(s: seq<Task>) {
    forall i, j :: 0 <= i < j < |s| ==> s[i].id < s[j].id
  }

  /** Ordered by `created_at` descending. */
  predicate NewestFirst(s: seq<Task>) {
    forall i, j :: 0 <= i < j < |s| ==> s[i].createdAt >= s[j].createdAt
  }

  function Min(a: int, b: int): int { if a <= b then a else b }
  function Max(a: int, b: int): int { if a >= b then a else b }

  /** The ids of the rows a filter selects. */
  ghost function MatchingIds(rows: map<int, Task>, filter: Option<Status>): set<int> {
    set id | id in rows && Matches(rows[id], filter)
  }

  function IdSet(s: seq<Task>): set<int> {
    set t | t in s :: t.id
  }

  /** The rows whose keys lie in [lo, hi), in ascending key order (the table scan). */
  function Scan(rows: map<int, Task>, lo: int, hi: int): (s: seq<Task>)
    requires WellKeyed(rows)
    ensures forall t :: t in s ==> lo <= t.id < hi && t.id in rows && rows[t.id] == t
    ensures forall id :: lo <= id < hi && id in rows ==> rows[id] in s
    decreases hi - lo
  {
    if lo >= hi then []
    else (if lo in rows then [rows[lo]] else []) + Scan(rows, lo + 1, hi)
  }

  /** A row in front of rows with larger ids keeps the ids increasing. */
  lemma ConsIdsIncreasing(head: seq<Task>, rest: seq<Task>)
    requires |head| <= 1 && IdsIncreasing(rest)
    requires forall x, t :: x in head && t in rest ==> x.id < t.id
    ensures IdsIncreasing(head + rest)
  {
    var r := head + rest;
    forall i, j | 0 <= i < j < |r| ensures r[i].id < r[j].id {
      if i < |head| {
        assert r[i] in head && r[j] in rest;
      } else {
        assert r[i] == rest[i - |head|] && r[j] == rest[j - |head|];
      }
    }
  }

  /** The scan visits keys in ascending order. */
  lemma {:induction false} ScanIdsIncreasing(rows: map<int, Task>, lo: int, hi: int)
    requires WellKeyed(rows)
    ensures IdsIncreasing(Scan(rows, lo, hi))
    decreases hi - lo
  {
    if lo < hi {
      ScanIdsIncreasing(rows, lo + 1, hi);
      ConsIdsIncreasing(if lo in rows then [rows[lo]] else [], Scan(rows, lo + 1, hi));
    }
  }

  /** `query.filter(Task.status == status)` when a status is given. */
  function Filter(s: seq<Task>, filter: Option<Status>): (r: seq<Task>)
    ensures forall t :: t in r <==> t in s && Matches(t, filter)
    ensures |r| <= |s|
  {
    if s == [] then []
    else (if Matches(s[0], filter) then [s[0]] else []) + Filter(s[1..], filter)
  }

  /** Filtering keeps the rows in the order it found them. */
  lemma {:induction false} FilterIdsIncreasing(s: seq<Task>, filter: Option<Status>)
    requires IdsIncreasing(s)
    ensures IdsIncreasing(Filter(s, filter))
    decreases |s|
  {
    if s != [] {
      var rest := Filter(s[1..], filter);
      assert IdsIncreasing(s[1..]) by {
        forall i, j | 0 <= i < j < |s[1..]| ensures s[1..][i].id < s[1..][j].id {
          assert s[1..][i] == s[i + 1] && s[1..][j] == s[j + 1];
        }
      }
      FilterIdsIncreasing(s[1..], filter);
      forall t | t in rest ensures s[0].id < t.id {
        var j :| 0 <= j < |s[1..]| && s[1..][j] == t;
        assert s[1 + j] == t;
      }
      ConsIdsIncreasing(if Matches(s[0], filter) then [s[0]] else [], rest);
    }
  }

  /** Inserts t in front of the first row no newer than it, so rows with equal
      `created_at` keep their scan order. */
  function InsertNewestFirst(t: Task, s: seq<Task>): (r: seq<Task>)
    ensures multiset(r) == multiset(s) + multiset{t}
    ensures |r| == |s| + 1
  {
    if s == [] || s[0].createdAt <= t.createdAt then [t] + s
    else
      assert s == [s[0]] + s[1..];
      [s[0]] + InsertNewestFirst(t, s[1..])
  }

  /** `order_by(Task.created_at.desc())`, as a stable insertion sort. */
  function SortNewestFirst(s: seq<Task>): (r: seq<Task>)
    ensures multiset(r) == multiset(s)
    ensures |r| == |s|
  {
    if s == [] then []
    else
      assert s == [s[0]] + s[1..];
      InsertNewestFirst(s[0], SortNewestFirst(s[1..]))
  }

  /** A row no older than every row after it keeps the order newest first. */
  lemma ConsNewestFirst(x: Task, rest: seq<Task>)
    requires NewestFirst(rest)
    requires forall y :: y in rest ==> y.createdAt <= x.createdAt
    ensures NewestFirst([x] + rest)
  {
    var r := [x] + rest;
    forall i, j | 0 <= i < j < |r| ensures r[i].createdAt >= r[j].createdAt {
      if i == 0 {
        assert r[j] in rest;
      } else {
        assert r[i] == rest[i - 1] && r[j] == rest[j - 1];
      }
    }
  }

  /** The rows after the first of a newest-first list are newest first and no newer than it. */
  lemma TailNewestFirst(s: seq<Task>)
    requires s != [] && NewestFirst(s)
    ensures NewestFirst(s[1..])
    ensures forall y :: y in s[1..] ==> y.createdAt <= s[0].createdAt
  {
    forall i, j | 0 <= i < j < |s[1..]| ensures s[1..][i].createdAt >= s[1..][j].createdAt {
      assert s[1..][i] == s[i + 1] && s[1..][j] == s[j + 1];
    }
    forall y | y in s[1..] ensures y.createdAt <= s[0].createdAt {
      var k :| 0 <= k < |s[1..]| && s[1..][k] == y;
      assert s[k + 1] == y;
    }
  }

  /** Insertion keeps a newest-first list newest first. */
  lemma {:induction false} InsertKeepsNewestFirst(t: Task, s: seq<Task>)
    requires NewestFirst(s)
    ensures NewestFirst(InsertNewestFirst(t, s))
    decreases |s|
  {
    if s == [] || s[0].createdAt <= t.createdAt {
      if s != [] {
        TailNewestFirst(s);
      }
      assert forall y :: y in s ==> y.createdAt <= t.createdAt by {
        forall y | y in s ensures y.createdAt <= t.createdAt {
          if y != s[0] {
            assert y in s[1..] by {
              var k :| 0 <= k < |s| && s[k] == y;
              assert s[1..][k - 1] == y;
            }
          }
        }
      }
      ConsNewestFirst(t, s);
    } else {
      TailNewestFirst(s);
      var rest := InsertNewestFirst(t, s[1..]);
      InsertKeepsNewestFirst(t, s[1..]);
      forall y | y in rest ensures y.createdAt <= s[0].createdAt {
        assert y in multiset(rest);
        assert y == t || y in multiset(s[1..]);
      }
      ConsNewestFirst(s[0], rest);
    }
  }

  /** The sort puts the rows newest first. */
  lemma {:induction false} SortIsNewestFirst(s: seq<Task>)
    ensures NewestFirst(SortNewestFirst(s))
    decreases |s|
  {
    if s != [] {
      SortIsNewestFirst(s[1..]);
      InsertKeepsNewestFirst(s[0], SortNewestFirst(s[1..]));
    }
  }

  /** `.offset(skip).limit(limit)`. */
  function Page(s: seq<Task>, skip: nat, limit: nat): (r: seq<Task>)
    ensures |r| == Min(limit, Max(0, |s| - skip))
    ensures forall i :: 0 <= i < |r| ==> r[i] == s[skip + i]
    ensures forall t :: t in r ==> t in s
    ensures NewestFirst(s) ==> NewestFirst(r)
  {
    if skip >= |s| then [] else s[skip..Min(|s|, skip + limit)]
  }

  /** The page of tasks and the count of all matches. */
  datatype Listing = Listing(tasks: seq<Task>, total: nat)

  /** `get_all_tasks` over a table whose keys lie in [1, nextId). */
  function ListTasks(rows: map<int, Task>, nextId: int, filter: Option<Status>, skip: nat, limit: nat): Listing
    requires WellKeyed(rows)
  {
    var matching := Filter(Scan(rows, 1, nextId), filter);
    Listing(Page(SortNewestFirst(matching), skip, limit), |matching|)
  }

  lemma {:induction false} IncreasingIdsCount(s: seq<Task>)
    requires IdsIncreasing(s)
    ensures |IdSet(s)| == |s|
    decreases |s|
  {
    if s != [] {
      assert IdSet(s) == {s[0].id} + IdSet(s[1..]);
      assert s[0].id !in IdSet(s[1..]);
      IncreasingIdsCount(s[1..]);
    }
  }

  /** `total` is the number of rows the filter selects, counted before paging. */
  lemma ListTotalCountsMatches(rows: map<int, Task>, nextId: int, filter: Option<Status>, skip: nat, limit: nat)
    requires WellKeyed(rows)
    requires forall id :: id in rows ==> 1 <= id < nextId
    ensures ListTasks(rows, nextId, filter, skip, limit).total == |MatchingIds(rows, filter)|
  {
    var matching := Filter(Scan(rows, 1, nextId), filter);
    ScanIdsIncreasing(rows, 1, nextId);
    FilterIdsIncreasing(Scan(rows, 1, nextId), filter);
    assert IdSet(matching) == MatchingIds(rows, filter) by {
      forall id | id in MatchingIds(rows, filter) ensures id in IdSet(matching) {
        assert rows[id] in matching;
      }
    }
    IncreasingIdsCount(matching);
  }

  /** The stored rows a filter selects. */
  ghost function MatchingRows(rows: map<int, Task>, filter: Option<Status>): set<Task> {
    set id | id in MatchingIds(rows, filter) :: rows[id]
  }

  /** `tasks` is the window [skip, skip + limit) of some newest-first
      arrangement of all `total` matching rows, each listed once. */
  ghost predicate IsWindowOfMatches(r: Listing, rows: map<int, Task>, filter: Option<Status>, skip: nat, limit: nat) {
    exists m: seq<Task> :: |m| == r.total && NewestFirst(m) && (set t | t in m) == MatchingRows(rows, filter)
      && r.tasks == m[Min(skip, |m|)..Min(|m|, skip + limit)]
  }

  /** A permutation holds the same rows. */
  lemma PermutationSameRows(a: seq<Task>, b: seq<Task>)
    requires multiset(a) == multiset(b)
    ensures (set t | t in a) == (set t | t in b)
  {
    forall t | t in a ensures t in b {
      assert t in multiset(a);
    }
    forall t | t in b ensures t in a {
      assert t in multiset(b);
    }
  }

  /** The filtered scan holds exactly the matching rows. */
  lemma FilteredScanRows(rows: map<int, Task>, nextId: int, filter: Option<Status>)
    requires WellKeyed(rows)
    requires forall id :: id in rows ==> 1 <= id < nextId
    ensures (set t | t in Filter(Scan(rows, 1, nextId), filter)) == MatchingRows(rows, filter)
  {
    var matching := Filter(Scan(rows, 1, nextId), filter);
    forall id | id in MatchingIds(rows, filter) ensures rows[id] in matching {
      assert rows[id] in Scan(rows, 1, nextId);
    }
  }

  /** The page is the skip..skip + limit window of the matches sorted newest first. */
  lemma ListPageWindow(rows: map<int, Task>, nextId: int, filter: Option<Status>, skip: nat, limit: nat)
    requires WellKeyed(rows)
    requires forall id :: id in rows ==> 1 <= id < nextId
    ensures IsWindowOfMatches(ListTasks(rows, nextId, filter, skip, limit), rows, filter, skip, limit)
  {
    var matching := Filter(Scan(rows, 1, nextId), filter);
    var sorted := SortNewestFirst(matching);
    SortIsNewestFirst(matching);
    PermutationSameRows(sorted, matching);
    FilteredScanRows(rows, nextId, filter);
    var r := ListTasks(rows, nextId, filter, skip, limit);
    assert r.tasks == sorted[Min(skip, |sorted|)..Min(|sorted|, skip + limit)];
    assert |sorted| == r.total && NewestFirst(sorted) && (set t | t in sorted) == MatchingRows(rows, filter);
  }

  /** The page is newest first, no longer than `limit`, as long as the matches
      left after skipping allow, holds only stored rows that pass the filter,
      and is exactly the skip..skip + limit window of the matches sorted newest first. */
  lemma ListPageShape(rows: map<int, Task>, nextId: int, filter: Option<Status>, skip: nat, limit: nat)
    requires WellKeyed(rows)
    requires forall id :: id in rows ==> 1 <= id < nextId
    ensures var r := ListTasks(rows, nextId, filter, skip, limit);
      && |r.tasks| == Min(limit, Max(0, r.total - skip))
      && NewestFirst(r.tasks)
      && (forall t :: t in r.tasks ==> t.id in rows && rows[t.id] == t && Matches(t, filter))
      && IsWindowOfMatches(r, rows, filter, skip, limit)
  {
    var matching := Filter(Scan(rows, 1, nextId), filter);
    var sorted := SortNewestFirst(matching);
    var page := Page(sorted, skip, limit);
    SortIsNewestFirst(matching);
    forall t | t in page ensures t in matching {
      assert t in multiset(sorted);
    }
    ListPageWindow(rows, nextId, filter, skip, limit);
  }

  /** The example of five matching rows read with skip 2 and limit 2. */
  lemma FivePagedByTwo(rows: map<int, Task>, nextId: int)
    requires WellKeyed(rows)
    requires forall id :: id in rows ==> 1 <= id < nextId
    requires |rows| == 5
    ensures ListTasks(rows, nextId, None, 2, 2).total == 5
    ensures |ListTasks(rows, nextId, None, 2, 2).tasks| == 2
  {
    ListTotalCountsMatches(rows, nextId, None, 2, 2);
    assert MatchingIds(rows, None) == rows.Keys;
    ListPageShape(rows, nextId, None, 2, 2);
  }
}
