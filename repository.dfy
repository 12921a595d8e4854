/**
 * The `ToDosRepository` interface. Its documented contract is stated as predicates over
 * the list `getAllTodos` returns before and after a call, the call's arguments and its
 * outcome; each implementation's operations are checked against them.
 */
module Repository {
  import opened Wrappers
  import opened ToDoModel

  /** Some to-do in the list has identifier `id`. */
  predicate HasId(todos: seq<ToDo>, id: string)
  {
    exists i :: 0 <= i < |todos| && todos[i].uid == id
  }

  /** `indexOfFirst { it.uid == id }`: the first position holding `id`, or -1. */
  function IndexOfFirst(todos: seq<ToDo>, id: string): (r: int)
    ensures -1 <= r < |todos|
    ensures r == -1 <==> !HasId(todos, id)
    ensures r >= 0 ==> todos[r].uid == id && forall j :: 0 <= j < r ==> todos[j].uid != id
  {
    if todos == [] then -1
    else if todos[0].uid == id then 0
    else
      var k := IndexOfFirst(todos[1..], id);
      if k == -1 then -1 else k + 1
  }

  /** `find { it.uid == id }`: the first to-do with identifier `id`, or `null`. */
  function Find(todos: seq<ToDo>, id: string): (r: Option<ToDo>)
    ensures r.Some? <==> HasId(todos, id)
    ensures r.Some? ==> r.value.uid == id && r.value in todos
  {
    var i := IndexOfFirst(todos, id);
    if i == -1 then None else Some(todos[i])
  }

  /** `find` returns the to-do at the first position with a matching identifier. */
  lemma FindFirstMatch(todos: seq<ToDo>, id: string, k: int)
    requires 0 <= k < |todos| && todos[k].uid == id
    requires forall j :: 0 <= j < k ==> todos[j].uid != id
    ensures Find(todos, id) == Some(todos[k])
  {
    var i := IndexOfFirst(todos, id);
    assert !(i < k) && !(k < i);
  }

  /** `getNewUid`: the identifier is new, distinct from every one handed out before. */
  predicate NewUidMeets(issued: set<string>, uid: string)
  {
    uid !in issued
  }

  /** `getTodo`: the to-do with that identifier, and failure exactly when there is none. */
  predicate GetTodoMeets(todos: seq<ToDo>, id: string, r: Result<ToDo>)
  {
    && (r.Err? <==> !HasId(todos, id))
    && (r.Ok? ==> r.value in todos && r.value.uid == id)
  }

  /** `addTodo`: the to-do becomes part of what `getAllTodos` returns, and nothing is lost. */
  predicate AddTodoMeets(before: seq<ToDo>, toDo: ToDo, after: seq<ToDo>)
  {
    toDo in after && multiset(before) <= multiset(after)
  }

  /**
   * `editTodo`: the to-do with that identifier is replaced by the new value, and the call
   * fails exactly when there is none.
   */
  predicate EditTodoMeets(before: seq<ToDo>, id: string, newValue: ToDo, after: seq<ToDo>, r: Outcome)
  {
    && (r.Failed? <==> !HasId(before, id))
    && (r.Done? ==> exists i :: 0 <= i < |before| && before[i].uid == id && after == before[i := newValue])
  }

  /**
   * `deleteTodo`: the to-do with that identifier is removed, and the call fails exactly
   * when there is none.
   */
  predicate DeleteTodoMeets(before: seq<ToDo>, id: string, after: seq<ToDo>, r: Outcome)
  {
    && (r.Failed? <==> !HasId(before, id))
    && (r.Done? ==> exists i :: 0 <= i < |before| && before[i].uid == id && after == before[..i] + before[i + 1..])
  }
}
