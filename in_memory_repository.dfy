/**
 * `InMemoryToDosRepository`, the repository the instrumented tests run against. Its
 * edit and delete act on every matching to-do and do nothing when none matches, and its
 * identifiers are the list's size; the lemmas below show where this departs from the
 * repository contract and where it agrees with `ToDosRepositoryLocal`.
 */
module InMemoryRepository {
  import opened Wrappers
  import opened Decimal
  import opened ToDoModel
  import opened Repository
  import RepositoryLocal

  /** `replaceAll { if (it.uid == id) newValue else it }`. */
  function ReplaceAll(todos: seq<ToDo>, id: string, newValue: ToDo): (r: seq<ToDo>)
    ensures |r| == |todos|
    ensures forall k :: 0 <= k < |todos| ==> r[k] == (if todos[k].uid == id then newValue else todos[k])
  {
    if todos == [] then []
    else [if todos[0].uid == id then newValue else todos[0]] + ReplaceAll(todos[1..], id, newValue)
  }

  /** `removeIf { it.uid == id }`. */
  function RemoveAll(todos: seq<ToDo>, id: string): (r: seq<ToDo>)
    ensures !HasId(r, id)
    ensures forall t :: t in r <==> t in todos && t.uid != id
    ensures |r| <= |todos| && (|r| == |todos| <==> !HasId(todos, id))
  {
    if todos == [] then []
    else if todos[0].uid == id then RemoveAll(todos[1..], id)
    else [todos[0]] + RemoveAll(todos[1..], id)
  }

  class InMemoryToDosRepository {
    var todoList: seq<ToDo>

    constructor (todoList: seq<ToDo>)
      ensures this.todoList == todoList
    {
      this.todoList := todoList;
    }

    /** The constructor's default argument, `mutableListOf()`: an empty list. */
    constructor Empty()
      ensures todoList == []
    {
      todoList := [];
    }

    /** `addTodo`: appended, with no check for a duplicate identifier. */
    method AddTodo(toDo: ToDo)
      modifies this
      ensures todoList == old(todoList) + [toDo]
      ensures AddTodoMeets(old(todoList), toDo, todoList)
    {
      todoList := todoList + [toDo];
    }

    /** `editTodo`: every match is replaced; never throws. */
    method EditTodo(id: string, newValue: ToDo) returns (r: Outcome)
      modifies this
      ensures todoList == ReplaceAll(old(todoList), id, newValue) && r == Done
    {
      todoList := ReplaceAll(todoList, id, newValue);
      r := Done;
    }

    /** `deleteTodo`: every match is removed; never throws. */
    method DeleteTodo(id: string) returns (r: Outcome)
      modifies this
      ensures todoList == RemoveAll(old(todoList), id) && r == Done
    {
      todoList := RemoveAll(todoList, id);
      r := Done;
    }

    /** `getNewUid`: the list's size as a decimal string; nothing changes. */
    method GetNewUid() returns (uid: string)
      ensures uid == NatToString(|todoList|)
    {
      uid := NatToString(|todoList|);
    }

    /** `getAllTodos`: the list as it stands, in insertion order. */
    method GetAllTodos() returns (r: seq<ToDo>)
      ensures r == todoList
    {
      r := todoList;
    }

    /** `first { it.uid == id }`: the first match; throws when there is none. */
    method GetTodo(id: string) returns (r: Result<ToDo>)
      ensures GetTodoMeets(todoList, id, r)
      ensures r.Ok? ==> Find(todoList, id) == Some(r.value)
    {
      var found := Find(todoList, id);
      if found.Some? {
        r := Ok(found.value);
      } else {
        r := Err("Collection contains no element matching the predicate.");
      }
    }
  }

  /** Editing a missing identifier succeeds silently, where the contract says it fails. */
  lemma EditMissingBreaksContract(todos: seq<ToDo>, id: string, newValue: ToDo)
    requires !HasId(todos, id)
    ensures ReplaceAll(todos, id, newValue) == todos
    ensures !EditTodoMeets(todos, id, newValue, ReplaceAll(todos, id, newValue), Done)
  {
  }

  /** Deleting a missing identifier succeeds silently, where the contract says it fails. */
  lemma DeleteMissingBreaksContract(todos: seq<ToDo>, id: string)
    requires !HasId(todos, id)
    ensures RemoveAll(todos, id) == todos
    ensures !DeleteTodoMeets(todos, id, RemoveAll(todos, id), Done)
  {
    NoMatchRemovesNothing(todos, id);
  }

  /** With two to-dos under one identifier, an edit replaces both rather than one. */
  lemma EditDuplicateBreaksContract(a: ToDo, b: ToDo, newValue: ToDo)
    requires a.uid == b.uid && newValue != a && newValue != b
    ensures !EditTodoMeets([a, b], a.uid, newValue, ReplaceAll([a, b], a.uid, newValue), Done)
  {
    var after := ReplaceAll([a, b], a.uid, newValue);
    assert after == [newValue, newValue];
    assert [a, b][0 := newValue] != after by { assert [a, b][0 := newValue][1] == b; }
    assert [a, b][1 := newValue] != after by { assert [a, b][1 := newValue][0] == a; }
  }

  /** With two to-dos under one identifier, a delete removes both rather than one. */
  lemma DeleteDuplicateBreaksContract(a: ToDo, b: ToDo)
    requires a.uid == b.uid
    ensures RemoveAll([a, b], a.uid) == []
    ensures !DeleteTodoMeets([a, b], a.uid, RemoveAll([a, b], a.uid), Done)
  {
  }

  /** A list left alone by `removeIf` when nothing matches. */
  lemma {:induction false} NoMatchRemovesNothing(todos: seq<ToDo>, id: string)
    requires !HasId(todos, id)
    ensures RemoveAll(todos, id) == todos
  {
    if todos != [] {
      assert !HasId(todos[1..], id) by {
        forall j | 0 <= j < |todos| - 1 ensures todos[1..][j].uid != id {
          assert todos[1..][j] == todos[j + 1];
        }
      }
      NoMatchRemovesNothing(todos[1..], id);
    }
  }

  /** With unique identifiers, an edit that finds its target agrees with the local repository. */
  lemma EditAgreesWhenUnique(todos: seq<ToDo>, id: string, newValue: ToDo)
    requires RepositoryLocal.UniqueIds(todos)
    ensures ReplaceAll(todos, id, newValue) == RepositoryLocal.EditFirst(todos, id, newValue)
  {
  }

  /** When only position `i` holds `id`, `removeIf` removes exactly that position. */
  lemma {:induction false} RemoveOnlyMatch(todos: seq<ToDo>, id: string, i: int)
    requires 0 <= i < |todos| && todos[i].uid == id
    requires forall j :: 0 <= j < |todos| && j != i ==> todos[j].uid != id
    ensures RemoveAll(todos, id) == todos[..i] + todos[i + 1..]
  {
    var front, back := todos[..i], todos[i + 1..];
    assert todos == front + ([todos[i]] + back);
    assert !HasId(front, id) by {
      forall j | 0 <= j < |front| ensures front[j].uid != id {
        assert front[j] == todos[j];
      }
    }
    assert !HasId(back, id) by {
      forall j | 0 <= j < |back| ensures back[j].uid != id {
        assert back[j] == todos[i + 1 + j];
      }
    }
    RemoveAllAppend(front, [todos[i]] + back, id);
    RemoveAllAppend([todos[i]], back, id);
    NoMatchRemovesNothing(front, id);
    NoMatchRemovesNothing(back, id);
    assert RemoveAll([todos[i]], id) == [];
  }

  /** With unique identifiers, a delete agrees with the local repository. */
  lemma {:induction false} DeleteAgreesWhenUnique(todos: seq<ToDo>, id: string)
    requires RepositoryLocal.UniqueIds(todos)
    ensures RemoveAll(todos, id) == RepositoryLocal.DeleteFirst(todos, id)
  {
    if HasId(todos, id) {
      var i := IndexOfFirst(todos, id);
      forall j | 0 <= j < |todos| && j != i ensures todos[j].uid != id {
        if j < i {
          assert todos[j].uid != todos[i].uid;
        } else {
          assert todos[i].uid != todos[j].uid;
        }
      }
      RemoveOnlyMatch(todos, id, i);
    } else {
      NoMatchRemovesNothing(todos, id);
    }
  }

  /** `removeIf` works on the two halves of a list independently. */
  lemma {:induction false} RemoveAllAppend(front: seq<ToDo>, back: seq<ToDo>, id: string)
    ensures RemoveAll(front + back, id) == RemoveAll(front, id) + RemoveAll(back, id)
  {
    if front != [] {
      assert (front + back)[1..] == front[1..] + back;
      RemoveAllAppend(front[1..], back, id);
    } else {
      assert front + back == back;
    }
  }

  /**
   * An identifier handed out, used for a to-do and then deleted is handed out again:
   * `getNewUid` does not give new identifiers.
   */
  lemma {:induction false} UidRepeatsAfterDelete(todos: seq<ToDo>, toDo: ToDo)
    requires !HasId(todos, toDo.uid)
    ensures NatToString(|RemoveAll(todos + [toDo], toDo.uid)|) == NatToString(|todos|)
  {
    RemoveAllAppend(todos, [toDo], toDo.uid);
    NoMatchRemovesNothing(todos, toDo.uid);
  }

  /** The identifier handed out may already belong to a to-do in the list. */
  lemma UidMayBeTaken(toDo: ToDo)
    requires toDo.uid == "1"
    ensures HasId([toDo], NatToString(|[toDo]|))
  {
    assert [toDo][0].uid == "1";
  }
}
