/**
 * The todo state manager: it owns the list of todos and the last error, and
 * runs every mutation through one protocol: compute the candidate list, save
 * it, then either commit it and clear the error, or keep the old list and
 * record the error.
 */
module UseTodos {
  import opened TodoTypes
  import opened WebStorage
  import opened TodoStorage
  import opened Validation

  /** Whether some todo in the list has identifier `id`. */
  predicate HasId(todos: seq<Todo>, id: string) {
    exists i :: 0 <= i < |todos| && todos[i].id == id
  }

  predicate UniqueIds(todos: seq<Todo>) {
    forall i, j :: 0 <= i < j < |todos| ==> todos[i].id != todos[j].id
  }

  /** The todo addTodo creates: trimmed text, not completed. */
  function NewTodo(id: string, text: string, createdAt: int): (t: Todo)
    ensures t.id == id && t.createdAt == createdAt && !t.completed
    ensures t.text == Trim(text) && Trimmed(t.text)
  {
    Todo(id, Trim(text), false, createdAt)
  }

  /** The spread `{ ...todo, ...updates }`: present fields overwrite, id and createdAt never change. */
  function Merge(t: Todo, u: UpdateTodoInput): (r: Todo)
    ensures r.id == t.id && r.createdAt == t.createdAt
    ensures r.text == (if u.text.Some? then u.text.value else t.text)
    ensures r.completed == (if u.completed.Some? then u.completed.value else t.completed)
  {
    var text := match u.text case Some(s) => s case None => t.text;
    var completed := match u.completed case Some(b) => b case None => t.completed;
    Todo(t.id, text, completed, t.createdAt)
  }

  /** updateTodo's candidate list: every todo with identifier `id` merged with `u`. */
  function ApplyUpdate(todos: seq<Todo>, id: string, u: UpdateTodoInput): (r: seq<Todo>)
    ensures |r| == |todos|
    ensures forall i :: 0 <= i < |r| ==> r[i].id == todos[i].id && r[i].createdAt == todos[i].createdAt
    ensures forall i :: 0 <= i < |r| && todos[i].id != id ==> r[i] == todos[i]
    ensures forall i :: 0 <= i < |r| && todos[i].id == id ==> r[i] == Merge(todos[i], u)
  {
    if todos == [] then []
    else [if todos[0].id == id then Merge(todos[0], u) else todos[0]] + ApplyUpdate(todos[1..], id, u)
  }

  /** deleteTodo's candidate list: the todos whose identifier is not `id`, in their order. */
  function RemoveId(todos: seq<Todo>, id: string): (r: seq<Todo>)
    ensures |r| <= |todos|
    ensures forall t :: t in r <==> t in todos && t.id != id
    ensures !HasId(todos, id) ==> r == todos
  {
    if todos == [] then []
    else if todos[0].id == id then RemoveId(todos[1..], id)
    else [todos[0]] + RemoveId(todos[1..], id)
  }

  /** toggleTodo's candidate list: `completed` flipped on the todos with identifier `id`. */
  function FlipCompleted(todos: seq<Todo>, id: string): (r: seq<Todo>)
    ensures |r| == |todos|
    ensures forall i :: 0 <= i < |r| && todos[i].id != id ==> r[i] == todos[i]
    ensures forall i :: 0 <= i < |r| && todos[i].id == id ==>
              r[i] == todos[i].(completed := !todos[i].completed)
  {
    if todos == [] then []
    else [if todos[0].id == id then todos[0].(completed := !todos[0].completed) else todos[0]]
         + FlipCompleted(todos[1..], id)
  }

  /** Toggling the same identifier twice gives back the original list. */
  lemma FlipTwice(todos: seq<Todo>, id: string)
    ensures FlipCompleted(FlipCompleted(todos, id), id) == todos
  {
  }

  /** Removing distributes over concatenation, so the kept todos stay in their input order. */
  lemma {:induction false} RemoveIdAppend(a: seq<Todo>, b: seq<Todo>, id: string)
    ensures RemoveId(a + b, id) == RemoveId(a, id) + RemoveId(b, id)
  {
    if a == [] {
      assert a + b == b;
    } else {
      assert (a + b)[0] == a[0] && (a + b)[1..] == a[1..] + b;
      RemoveIdAppend(a[1..], b, id);
    }
  }

  /** Removing keeps identifiers unique and leaves no todo with identifier `id`. */
  lemma {:induction false} RemoveIdKeepsUnique(todos: seq<Todo>, id: string)
    requires UniqueIds(todos)
    ensures UniqueIds(RemoveId(todos, id)) && !HasId(RemoveId(todos, id), id)
  {
    var r := RemoveId(todos, id);
    if todos != [] {
      RemoveIdKeepsUnique(todos[1..], id);
      var rest := RemoveId(todos[1..], id);
      if todos[0].id != id {
        assert r == [todos[0]] + rest;
        forall j | 0 < j < |r| ensures r[0].id != r[j].id {
          assert r[j] in rest;
        }
      }
    }
    assert !HasId(r, id) by {
      forall i | 0 <= i < |r| ensures r[i].id != id {
        assert r[i] in r;
      }
    }
  }

  /** Which mutation is running, for its generic failure message. */
  datatype Operation = Add | Update | Delete | Toggle

  /** What a save or load call can throw: a StorageError, or anything else. */
  datatype Thrown = Raised(error: StorageError) | Unexpected

  function GenericMessage(op: Operation): string {
    match op
    case Add => "Failed to save todo"
    case Update => "Failed to update todo"
    case Delete => "Failed to delete todo"
    case Toggle => "Failed to update todo"
  }

  /**
   * The error a failed mutation records: a StorageError shows its own message;
   * anything else shows the operation's generic message, which is never one of
   * the adapter's fixed messages.
   */
  function MutationErrorMessage(op: Operation, thrown: Thrown): (msg: string)
    ensures thrown.Raised? ==> msg == thrown.error.message
    ensures thrown.Unexpected? ==> msg == GenericMessage(op)
    ensures thrown.Unexpected? ==> forall code :: msg != ErrorMessage(code)
  {
    match thrown
    case Raised(e) => e.message
    case Unexpected => GenericMessage(op)
  }

  /**
   * The error the mount-time load records if it throws: UNAVAILABLE shows the
   * fixed message, any other StorageError its own message, anything else a
   * generic text. For an error built by the adapter this is always its message.
   */
  function LoadErrorMessage(thrown: Thrown): (msg: string)
    ensures thrown.Raised? && thrown.error.code != Unavailable ==> msg == thrown.error.message
    ensures thrown.Raised? && thrown.error.code == Unavailable ==> msg == ErrorMessage(Unavailable)
    ensures thrown.Raised? && thrown.error.message == ErrorMessage(thrown.error.code) ==> msg == thrown.error.message
    ensures thrown.Unexpected? ==> msg == "Failed to load todos." && forall code :: msg != ErrorMessage(code)
  {
    match thrown
    case Raised(e) =>
      if e.code == Unavailable then "Storage is not available. Your todos will not be saved."
      else e.message
    case Unexpected => "Failed to load todos."
  }

  class TodoManager {
    var todos: seq<Todo>
    var error: Option<string>
    const storage: LocalStorage

    /** The value persisted under the storage key is exactly the in-memory list. */
    ghost predicate Synced()
      reads this, storage
    {
      Lookup(storage.items, StorageKey) == Some(JsonArray(todos))
    }

    /** Mount: the list is whatever loadTodos returns, and no error is recorded. */
    constructor Mount(storage: LocalStorage)
      ensures this.storage == storage
      ensures todos == LoadTodos(storage, StorageKey) && error == None
      ensures (StorageKey !in storage.getFaults && Lookup(storage.items, StorageKey).Some?
               && Lookup(storage.items, StorageKey).value.JsonArray?) ==> Synced()
    {
      this.storage := storage;
      todos := LoadTodos(storage, StorageKey);
      error := None;
    }

    /**
     * The mutation protocol. A save that goes through commits `candidate`,
     * clears the error and persists `candidate`; a save that throws keeps the
     * old list, records the error's message and leaves the persisted value alone.
     */
    method Persist(candidate: seq<Todo>, op: Operation)
      modifies this, storage
      ensures StorageKey !in storage.setFaults ==>
                && todos == candidate && error == None
                && storage.items == old(storage.items)[StorageKey := JsonArray(candidate)]
                && Synced()
      ensures StorageKey in storage.setFaults ==>
                && todos == old(todos)
                && error == Some(ErrorMessage(SaveFailureCode(storage, StorageKey)))
                && Lookup(storage.items, StorageKey) == Lookup(old(storage.items), StorageKey)
      ensures storage.items == StoreAfterSave(storage, old(storage.items), StorageKey, candidate)
      ensures old(Synced()) ==> Synced()
    {
      var result := SaveTodos(storage, candidate, StorageKey);
      match result
      case Saved =>
        todos := candidate;
        error := None;
      case SaveFailed(e) =>
        error := Some(MutationErrorMessage(op, Raised(e)));
    }

    /**
     * addTodo: invalid text changes nothing and saves nothing; otherwise the
     * new todo (trimmed text, not completed) goes to the front of the list.
     */
    method AddTodo(text: string, id: string, createdAt: int)
      modifies this, storage
      ensures !IsValidTodoText(text) ==>
                todos == old(todos) && error == old(error) && storage.items == old(storage.items)
      ensures IsValidTodoText(text) && StorageKey !in storage.setFaults ==>
                && todos == [NewTodo(id, text, createdAt)] + old(todos)
                && error == None && Synced()
      ensures IsValidTodoText(text) && StorageKey in storage.setFaults ==>
                && todos == old(todos)
                && error == Some(ErrorMessage(SaveFailureCode(storage, StorageKey)))
      ensures IsValidTodoText(text) ==>
                storage.items == StoreAfterSave(storage, old(storage.items), StorageKey,
                                                [NewTodo(id, text, createdAt)] + old(todos))
      ensures old(Synced()) ==> Synced()
      ensures old(UniqueIds(todos)) && !old(HasId(todos, id)) ==> UniqueIds(todos)
    {
      if !IsValidTodoText(text) {
        return;
      }
      var candidate := [NewTodo(id, text, createdAt)] + todos;
      Persist(candidate, Add);
    }

    /**
     * updateTodo: merges `u` into every todo with identifier `id` and saves,
     * even when no todo matches; the text is not validated.
     */
    method UpdateTodo(id: string, u: UpdateTodoInput)
      modifies this, storage
      ensures StorageKey !in storage.setFaults ==>
                todos == ApplyUpdate(old(todos), id, u) && error == None && Synced()
      ensures StorageKey in storage.setFaults ==>
                && todos == old(todos)
                && error == Some(ErrorMessage(SaveFailureCode(storage, StorageKey)))
      ensures storage.items
              == StoreAfterSave(storage, old(storage.items), StorageKey, ApplyUpdate(old(todos), id, u))
      ensures old(Synced()) ==> Synced()
      ensures old(UniqueIds(todos)) ==> UniqueIds(todos)
    {
      Persist(ApplyUpdate(todos, id, u), Update);
    }

    /** deleteTodo: drops every todo with identifier `id` and saves, even when none matches. */
    method DeleteTodo(id: string)
      modifies this, storage
      ensures StorageKey !in storage.setFaults ==>
                todos == RemoveId(old(todos), id) && error == None && Synced()
      ensures StorageKey in storage.setFaults ==>
                && todos == old(todos)
                && error == Some(ErrorMessage(SaveFailureCode(storage, StorageKey)))
      ensures storage.items
              == StoreAfterSave(storage, old(storage.items), StorageKey, RemoveId(old(todos), id))
      ensures old(Synced()) ==> Synced()
      ensures old(UniqueIds(todos)) ==> UniqueIds(todos)
    {
      if UniqueIds(todos) {
        RemoveIdKeepsUnique(todos, id);
      }
      Persist(RemoveId(todos, id), Delete);
    }

    /** toggleTodo: an unknown identifier changes and saves nothing; otherwise flips `completed`. */
    method ToggleTodo(id: string)
      modifies this, storage
      ensures !old(HasId(todos, id)) ==>
                todos == old(todos) && error == old(error) && storage.items == old(storage.items)
      ensures old(HasId(todos, id)) && StorageKey !in storage.setFaults ==>
                todos == FlipCompleted(old(todos), id) && error == None && Synced()
      ensures old(HasId(todos, id)) && StorageKey in storage.setFaults ==>
                && todos == old(todos)
                && error == Some(ErrorMessage(SaveFailureCode(storage, StorageKey)))
      ensures old(HasId(todos, id)) ==>
                storage.items
                == StoreAfterSave(storage, old(storage.items), StorageKey, FlipCompleted(old(todos), id))
      ensures old(Synced()) ==> Synced()
      ensures old(UniqueIds(todos)) ==> UniqueIds(todos)
    {
      if !HasId(todos, id) {
        return;
      }
      Persist(FlipCompleted(todos, id), Toggle);
    }

    /** clearError: forgets the error and changes nothing else. */
    method ClearError()
      modifies this
      ensures error == None && todos == old(todos)
    {
      error := None;
    }
  }

  /** With a working store, two toggles of a present todo restore the list and leave it persisted. */
  method ToggleTwice(m: TodoManager, id: string)
    requires HasId(m.todos, id) && StorageKey !in m.storage.setFaults
    modifies m, m.storage
    ensures m.todos == old(m.todos) && m.error == None && m.Synced()
  {
    m.ToggleTodo(id);
    assert HasId(m.todos, id) by {
      var i :| 0 <= i < |old(m.todos)| && old(m.todos)[i].id == id;
      assert m.todos[i].id == id;
    }
    m.ToggleTodo(id);
    FlipTwice(old(m.todos), id);
  }

  /**
   * The life of one todo on a working, empty store: add "Buy milk", toggle
   * it, delete it. The store ends up holding the empty list.
   */
  method BuyMilkScenario(id: string, createdAt: int)
    returns (afterAdd: seq<Todo>, afterToggle: seq<Todo>, afterDelete: seq<Todo>, persisted: Option<Stored>)
    ensures afterAdd == [Todo(id, "Buy milk", false, createdAt)]
    ensures afterToggle == [Todo(id, "Buy milk", true, createdAt)]
    ensures afterDelete == [] && persisted == Some(JsonArray([]))
  {
    var storage := new LocalStorage(map[], map[], {}, {});
    var m := new TodoManager.Mount(storage);
    assert [] + "Buy milk" + [] == "Buy milk";
    TrimPadded([], "Buy milk", []);
    m.AddTodo("Buy milk", id, createdAt);
    afterAdd := m.todos;
    assert HasId(afterAdd, id) by {
      assert afterAdd[0].id == id;
    }
    m.ToggleTodo(id);
    afterToggle := m.todos;
    m.DeleteTodo(id);
    afterDelete := m.todos;
    assert afterDelete == [] by {
      assert afterToggle == [afterToggle[0]] && afterToggle[0].id == id;
      assert afterToggle[1..] == [];
    }
    persisted := Lookup(storage.items, StorageKey);
  }
}
