/**
 * `ToDosRepositoryLocal`: a mutable list of to-dos and a counter for identifiers. Each
 * operation is checked against the repository contract.
 */
module RepositoryLocal {
  import opened Wrappers
  import opened Decimal
  import opened ToDoModel
  import opened Repository

  const NotFoundMsg: string := "ToDosRepositoryLocal: ToDo not found"

  /** The identifiers `getNewUid` hands out while its counter runs from 0 up to `n`. */
  ghost function IssuedBelow(n: nat): set<string>
  {
    set k | 0 <= k < n :: NatToString(k)
  }

  /** The list after `editTodo`: the first to-do with identifier `id` is replaced. */
  function EditFirst(todos: seq<ToDo>, id: string, newValue: ToDo): seq<ToDo>
  {
    var i := IndexOfFirst(todos, id);
    if i == -1 then todos else todos[i := newValue]
  }

  /** The list after `deleteTodo`: the first to-do with identifier `id` is removed. */
  function DeleteFirst(todos: seq<ToDo>, id: string): seq<ToDo>
  {
    var i := IndexOfFirst(todos, id);
    if i == -1 then todos else todos[..i] + todos[i + 1..]
  }

  /** No two to-dos in the list share an identifier. */
  predicate UniqueIds(todos: seq<ToDo>)
  {
    forall i, j :: 0 <= i < j < |todos| ==> todos[i].uid != todos[j].uid
  }

  class LocalRepository {
    var todos: seq<ToDo>
    var counter: nat

    constructor ()
      ensures todos == [] && counter == 0
    {
      todos := [];
      counter := 0;
    }

    /** `getNewUid`: the counter's decimal string, then the counter is incremented. */
    method GetNewUid() returns (uid: string)
      modifies this`counter
      ensures uid == NatToString(old(counter)) && counter == old(counter) + 1
      ensures NewUidMeets(IssuedBelow(old(counter)), uid)
      ensures IssuedBelow(counter) == IssuedBelow(old(counter)) + {uid}
    {
      uid := NatToString(counter);
      NextUidIsFresh(counter);
      counter := counter + 1;
      assert IssuedBelow(counter) == IssuedBelow(counter - 1) + {uid};
    }

    /** `getAllTodos`: the list as it stands. */
    method GetAllTodos() returns (r: seq<ToDo>)
      ensures r == todos
    {
      r := todos;
    }

    /** `getTodo`: the first to-do with that identifier; throws when there is none. */
    method GetTodo(id: string) returns (r: Result<ToDo>)
      ensures GetTodoMeets(todos, id, r)
      ensures r.Ok? ==> Find(todos, id) == Some(r.value)
    {
      var found := Find(todos, id);
      if found.Some? {
        r := Ok(found.value);
      } else {
        r := Err(NotFoundMsg);
      }
    }

    /** `addTodo`: appended, even when the identifier is already present. */
    method AddTodo(toDo: ToDo)
      modifies this`todos
      ensures todos == old(todos) + [toDo]
      ensures AddTodoMeets(old(todos), toDo, todos)
    {
      todos := todos + [toDo];
    }

    /** `editTodo`: the first match is overwritten; throws, changing nothing, when none. */
    method EditTodo(id: string, newValue: ToDo) returns (r: Outcome)
      modifies this`todos
      ensures todos == EditFirst(old(todos), id, newValue)
      ensures r.Failed? ==> todos == old(todos)
      ensures EditTodoMeets(old(todos), id, newValue, todos, r)
    {
      var index := IndexOfFirst(todos, id);
      if index != -1 {
        todos := todos[index := newValue];
        r := Done;
      } else {
        r := Failed(NotFoundMsg);
      }
    }

    /** `deleteTodo`: the first match is removed; throws, changing nothing, when none. */
    method DeleteTodo(id: string) returns (r: Outcome)
      modifies this`todos
      ensures todos == DeleteFirst(old(todos), id)
      ensures r.Failed? ==> todos == old(todos)
      ensures DeleteTodoMeets(old(todos), id, todos, r)
    {
      var index := IndexOfFirst(todos, id);
      if index != -1 {
        todos := todos[..index] + todos[index + 1..];
        r := Done;
      } else {
        r := Failed(NotFoundMsg);
      }
    }
  }

  /** The counter's next value has not been handed out yet: identifiers never repeat. */
  lemma NextUidIsFresh(n: nat)
    ensures NatToString(n) !in IssuedBelow(n)
  {
    if NatToString(n) in IssuedBelow(n) {
      var k :| 0 <= k < n && NatToString(k) == NatToString(n);
      NatToStringInjective(k, n);
    }
  }

  /** Successive calls give pairwise-distinct identifiers, the first of them "0". */
  lemma UidsPairwiseDistinct(j: nat, k: nat)
    ensures NatToString(j) == NatToString(k) <==> j == k
    ensures NatToString(0) == "0"
  {
    NatToStringInjective(j, k);
  }

  /** A to-do added under a new identifier is what `getTodo` then returns. */
  lemma AddThenGet(todos: seq<ToDo>, toDo: ToDo)
    requires !HasId(todos, toDo.uid)
    ensures Find(todos + [toDo], toDo.uid) == Some(toDo)
    ensures UniqueIds(todos) ==> UniqueIds(todos + [toDo])
  {
    var after := todos + [toDo];
    assert after[|todos|].uid == toDo.uid;
  }

  /** A to-do added under an identifier already present is shadowed by the earlier one. */
  lemma AddDuplicateIsShadowed(todos: seq<ToDo>, toDo: ToDo)
    requires HasId(todos, toDo.uid)
    ensures Find(todos + [toDo], toDo.uid) == Find(todos, toDo.uid)
    ensures !UniqueIds(todos + [toDo])
  {
    var i := IndexOfFirst(todos, toDo.uid);
    var after := todos + [toDo];
    assert after[i] == todos[i];
    assert after[|todos|] == toDo;
  }

  /** After an edit, `getTodo(id)` returns the new value when it keeps the identifier. */
  lemma {:induction false} EditThenGet(todos: seq<ToDo>, id: string, newValue: ToDo)
    requires HasId(todos, id) && newValue.uid == id
    ensures |EditFirst(todos, id, newValue)| == |todos|
    ensures Find(EditFirst(todos, id, newValue), id) == Some(newValue)
  {
    var i := IndexOfFirst(todos, id);
    var after := EditFirst(todos, id, newValue);
    assert after[i] == newValue;
    assert forall j :: 0 <= j < i ==> after[j] == todos[j];
  }

  /** An edit leaves `getTodo` unchanged for every identifier it does not involve. */
  lemma {:induction false} EditLeavesOthers(todos: seq<ToDo>, id: string, newValue: ToDo, other: string)
    requires other != id && other != newValue.uid
    ensures Find(EditFirst(todos, id, newValue), other) == Find(todos, other)
  {
    var after := EditFirst(todos, id, newValue);
    assert forall j :: 0 <= j < |todos| ==> (after[j].uid == other <==> todos[j].uid == other) && (todos[j].uid == other ==> after[j] == todos[j]);
    if HasId(todos, other) {
      var k := IndexOfFirst(todos, other);
      assert after[k].uid == other;
    }
  }

  /** `removeAt(i)`: the positions before `i` stay, the ones after it move down by one. */
  lemma RemoveAt(todos: seq<ToDo>, i: int)
    requires 0 <= i < |todos|
    ensures |todos[..i] + todos[i + 1..]| == |todos| - 1
    ensures forall j :: 0 <= j < |todos| - 1 ==>
              (todos[..i] + todos[i + 1..])[j] == (if j < i then todos[j] else todos[j + 1])
  {
  }

  /**
   * A delete shortens the list by one, and with unique identifiers `getTodo(id)` then
   * fails and identifiers stay unique.
   */
  lemma {:induction false} DeleteThenGet(todos: seq<ToDo>, id: string)
    requires HasId(todos, id) && UniqueIds(todos)
    ensures |DeleteFirst(todos, id)| == |todos| - 1
    ensures !HasId(DeleteFirst(todos, id), id)
    ensures UniqueIds(DeleteFirst(todos, id))
  {
    var i := IndexOfFirst(todos, id);
    assert DeleteFirst(todos, id) == todos[..i] + todos[i + 1..];
    RemoveAtKeepsUnique(todos, i);
  }

  /** Removing a position from a list with unique identifiers removes its identifier and keeps the rest unique. */
  lemma RemoveAtKeepsUnique(todos: seq<ToDo>, i: int)
    requires 0 <= i < |todos| && UniqueIds(todos)
    ensures |todos[..i] + todos[i + 1..]| == |todos| - 1
    ensures !HasId(todos[..i] + todos[i + 1..], todos[i].uid)
    ensures UniqueIds(todos[..i] + todos[i + 1..])
  {
    var after := todos[..i] + todos[i + 1..];
    RemoveAt(todos, i);
    forall j | 0 <= j < |after| ensures after[j].uid != todos[i].uid {
      var j0 := if j < i then j else j + 1;
      assert after[j] == todos[j0];
      if j0 < i {
        assert todos[j0].uid != todos[i].uid;
      } else {
        assert todos[i].uid != todos[j0].uid;
      }
    }
    forall a, b | 0 <= a < b < |after| ensures after[a].uid != after[b].uid {
      var a0 := if a < i then a else a + 1;
      var b0 := if b < i then b else b + 1;
      assert after[a] == todos[a0] && after[b] == todos[b0] && a0 < b0;
    }
  }

  /** A delete leaves `getTodo` unchanged for every other identifier. */
  lemma {:induction false} DeleteLeavesOthers(todos: seq<ToDo>, id: string, other: string)
    requires other != id
    ensures Find(DeleteFirst(todos, id), other) == Find(todos, other)
  {
    if HasId(todos, id) {
      var i := IndexOfFirst(todos, id);
      var after := DeleteFirst(todos, id);
      assert after == todos[..i] + todos[i + 1..];
      RemoveAt(todos, i);
      if HasId(todos, other) {
        var k := IndexOfFirst(todos, other);
        var k' := if k < i then k else k - 1;
        assert after[k'] == todos[k];
        FindFirstMatch(after, other, k');
      } else {
        assert forall j :: 0 <= j < |after| ==> after[j].uid != other;
      }
    }
  }
}
