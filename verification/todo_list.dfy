/**
 * The list view's ordering: a copy of the todos sorted newest first by
 * `createdAt`, stably (todos with equal timestamps keep their input order).
 */
module TodoList {
  import opened TodoTypes

  predicate NewestFirst(s: seq<Todo>) {
    forall i, j :: 0 <= i < j < |s| ==> s[i].createdAt >= s[j].createdAt
  }

  /** Inserts `t` into a newest-first list, ahead of every todo not newer than it. */
  function InsertNewest(t: Todo, s: seq<Todo>): (r: seq<Todo>)
    requires NewestFirst(s)
    ensures NewestFirst(r)
    ensures multiset(r) == multiset(s) + multiset{t}
    ensures r[0] == t || (s != [] && r[0] == s[0])
  {
    if s == [] || s[0].createdAt <= t.createdAt then [t] + s
    else
      var rest := InsertNewest(t, s[1..]);
      assert s == [s[0]] + s[1..];
      assert s[0].createdAt >= rest[0].createdAt;
      [s[0]] + rest
  }

  /** The displayed order of the list: `[...todos].sort((a, b) => b.createdAt - a.createdAt)`. */
  function SortNewestFirst(s: seq<Todo>): (r: seq<Todo>)
    ensures NewestFirst(r)
    ensures multiset(r) == multiset(s) && |r| == |s|
  {
    if s == [] then []
    else
      assert s == [s[0]] + s[1..];
      InsertNewest(s[0], SortNewestFirst(s[1..]))
  }

  /** The todos created at instant `k`, in order. */
  function WithTimestamp(s: seq<Todo>, k: int): seq<Todo> {
    if s == [] then []
    else (if s[0].createdAt == k then [s[0]] else []) + WithTimestamp(s[1..], k)
  }

  /** WithTimestamp unfolded once on a list given as head and tail. */
  lemma WithTimestampCons(x: Todo, s: seq<Todo>, k: int)
    ensures WithTimestamp([x] + s, k) == (if x.createdAt == k then [x] else []) + WithTimestamp(s, k)
  {
    assert ([x] + s)[0] == x && ([x] + s)[1..] == s;
  }

  lemma {:induction false} InsertKeepsTies(t: Todo, s: seq<Todo>, k: int)
    requires NewestFirst(s)
    ensures WithTimestamp(InsertNewest(t, s), k)
            == (if t.createdAt == k then [t] else []) + WithTimestamp(s, k)
  {
    if s == [] || s[0].createdAt <= t.createdAt {
      WithTimestampCons(t, s, k);
    } else {
      var rest := InsertNewest(t, s[1..]);
      InsertKeepsTies(t, s[1..], k);
      WithTimestampCons(s[0], rest, k);
      WithTimestampCons(s[0], s[1..], k);
      assert [s[0]] + s[1..] == s;
      var tie := if t.createdAt == k then [t] else [];
      var head := if s[0].createdAt == k then [s[0]] else [];
      assert tie == [] || head == [];
      assert head + (tie + WithTimestamp(s[1..], k)) == tie + (head + WithTimestamp(s[1..], k));
    }
  }

  /** Stability: the todos sharing any one timestamp appear in the sorted list in their input order. */
  lemma {:induction false} SortIsStable(s: seq<Todo>, k: int)
    ensures WithTimestamp(SortNewestFirst(s), k) == WithTimestamp(s, k)
  {
    if s != [] {
      SortIsStable(s[1..], k);
      InsertKeepsTies(s[0], SortNewestFirst(s[1..]), k);
    }
  }

  /** A list already newest first is displayed unchanged. */
  lemma {:induction false} SortKeepsSorted(s: seq<Todo>)
    requires NewestFirst(s)
    ensures SortNewestFirst(s) == s
  {
    if s != [] {
      SortKeepsSorted(s[1..]);
    }
  }
}
