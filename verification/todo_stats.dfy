/** The statistics strip: how many todos there are, how many are completed and how many are pending. */
module TodoStats {
  import opened TodoTypes

  datatype Stats = Stats(total: int, completed: int, pending: int)

  /** `todos.filter(todo => todo.completed)`: the completed todos, in order. */
  function CompletedTodos(todos: seq<Todo>): (r: seq<Todo>)
    ensures |r| <= |todos|
    ensures forall t :: t in r <==> t in todos && t.completed
    ensures |r| == |todos| <==> forall i :: 0 <= i < |todos| ==> todos[i].completed
  {
    if todos == [] then []
    else
      var rest := CompletedTodos(todos[1..]);
      assert forall i :: 0 < i < |todos| ==> todos[i] == todos[1..][i - 1];
      (if todos[0].completed then [todos[0]] else []) + rest
  }

  /** Each completed todo is kept as often as it occurs, and no other todo is kept. */
  lemma {:induction false} CompletedMultiplicity(todos: seq<Todo>, x: Todo)
    ensures multiset(CompletedTodos(todos))[x] == if x.completed then multiset(todos)[x] else 0
  {
    if todos != [] {
      assert todos == [todos[0]] + todos[1..];
      CompletedMultiplicity(todos[1..], x);
    }
  }

  /** The indices of the todos whose `completed` flag equals `done`. */
  function IndicesWith(todos: seq<Todo>, done: bool): set<int>
  {
    set i | 0 <= i < |todos| && todos[i].completed == done
  }

  /** Filtering distributes over concatenation, so the kept todos stay in their input order. */
  lemma {:induction false} CompletedAppend(a: seq<Todo>, b: seq<Todo>)
    ensures CompletedTodos(a + b) == CompletedTodos(a) + CompletedTodos(b)
  {
    if a == [] {
      assert a + b == b;
    } else {
      assert (a + b)[1..] == a[1..] + b;
      CompletedAppend(a[1..], b);
    }
  }

  /** Appending one todo adds its own position to exactly one of the two index sets. */
  lemma IndicesSnoc(p: seq<Todo>, last: Todo, done: bool)
    ensures IndicesWith(p + [last], done)
            == if last.completed == done then IndicesWith(p, done) + {|p|} else IndicesWith(p, done)
  {
    var q := p + [last];
    assert forall i :: 0 <= i < |p| ==> q[i] == p[i];
  }

  /** The filter keeps exactly one todo per completed position, and the positions split in two. */
  lemma {:induction false} CompletedCount(todos: seq<Todo>)
    ensures |CompletedTodos(todos)| == |IndicesWith(todos, true)|
    ensures |IndicesWith(todos, true)| + |IndicesWith(todos, false)| == |todos|
  {
    if todos == [] {
      assert IndicesWith(todos, true) == {};
      assert IndicesWith(todos, false) == {};
    } else {
      var n := |todos| - 1;
      var p, last := todos[..n], todos[n];
      assert todos == p + [last];
      CompletedCount(p);
      CompletedAppend(p, [last]);
      assert CompletedTodos([last]) == if last.completed then [last] else [];
      IndicesSnoc(p, last, true);
      IndicesSnoc(p, last, false);
      assert n !in IndicesWith(p, true) && n !in IndicesWith(p, false);
    }
  }

  /** The three counts the strip shows. */
  function ComputeStats(todos: seq<Todo>): (s: Stats)
    ensures s.total == |todos|
    ensures s.completed == |set i | 0 <= i < |todos| && todos[i].completed|
    ensures s.pending == |set i | 0 <= i < |todos| && !todos[i].completed|
    ensures 0 <= s.completed <= s.total && s.pending == s.total - s.completed && s.pending >= 0
    ensures s.completed == 0 <==> forall i :: 0 <= i < |todos| ==> !todos[i].completed
    ensures s.pending == 0 <==> forall i :: 0 <= i < |todos| ==> todos[i].completed
  {
    var total := |todos|;
    var completed := |CompletedTodos(todos)|;
    CompletedCount(todos);
    assert IndicesWith(todos, true) == set i | 0 <= i < |todos| && todos[i].completed;
    assert IndicesWith(todos, false) == set i | 0 <= i < |todos| && !todos[i].completed;
    assert completed == 0 <==> forall i :: 0 <= i < |todos| ==> !todos[i].completed by {
      if completed != 0 {
        var t := CompletedTodos(todos)[0];
        assert t in CompletedTodos(todos);
      }
      if exists i :: 0 <= i < |todos| && todos[i].completed {
        var i :| 0 <= i < |todos| && todos[i].completed;
        assert todos[i] in CompletedTodos(todos);
      }
    }
    Stats(total, completed, total - completed)
  }
}
