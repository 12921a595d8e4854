/**
 * `MapViewModel`: the map screen shows the to-dos that have a location and centres on the
 * first of them, or on EPFL when there is none. The repository's answer to `getAllTodos`
 * is an input.
 */
module MapViewModel {
  import opened Wrappers
  import opened ToDoModel

  /** A map coordinate. */
  datatype LatLng = LatLng(latitude: real, longitude: real)

  /** The map screen's state: camera target, to-dos shown, error message. */
  datatype MapUIState = MapUIState(target: LatLng, todos: seq<ToDo>, errorMsg: Option<string>)

  /** `MapUIState()`: target (0, 0), no to-dos, no message. */
  const InitialState: MapUIState := MapUIState(LatLng(0.0, 0.0), [], None)

  /** The fallback camera target when no to-do has a location. */
  const EpflLocation: Location :=
    Location(46.5191, 6.5668, "École Polytechnique Fédérale de Lausanne (EPFL), Switzerland")

  /** `toLatLng`: the coordinates of a location. */
  function ToLatLng(location: Location): (p: LatLng)
    ensures p.latitude == location.latitude && p.longitude == location.longitude
  {
    LatLng(location.latitude, location.longitude)
  }

  /** `filter { it.location != null }`: the to-dos with a location, in their order. */
  function Localizable(todos: seq<ToDo>): (r: seq<ToDo>)
    ensures |r| <= |todos|
    ensures forall t :: t in r ==> t.location.Some?
  {
    if todos == [] then []
    else if todos[0].location.Some? then [todos[0]] + Localizable(todos[1..])
    else Localizable(todos[1..])
  }

  /** The camera target: the first localizable to-do's location, or EPFL. */
  function MapTarget(todos: seq<ToDo>): LatLng
  {
    var shown := Localizable(todos);
    if shown == [] then ToLatLng(EpflLocation) else ToLatLng(shown[0].location.value)
  }

  /** A to-do is shown exactly when it is in the list and has a location. */
  lemma {:induction false} LocalizableMembers(todos: seq<ToDo>, t: ToDo)
    ensures t in Localizable(todos) <==> t in todos && t.location.Some?
  {
    if todos != [] {
      LocalizableMembers(todos[1..], t);
      assert todos == [todos[0]] + todos[1..];
    }
  }

  /** Filtering keeps the order: the filter of a concatenation is the concatenation of filters. */
  lemma {:induction false} LocalizableAppend(a: seq<ToDo>, b: seq<ToDo>)
    ensures Localizable(a + b) == Localizable(a) + Localizable(b)
  {
    if a == [] {
      assert a + b == b;
    } else {
      assert (a + b)[0] == a[0];
      assert (a + b)[1..] == a[1..] + b;
      LocalizableAppend(a[1..], b);
    }
  }

  /** Filtering a list whose to-dos all have a location changes nothing. */
  lemma {:induction false} LocalizableIdempotent(todos: seq<ToDo>)
    ensures Localizable(Localizable(todos)) == Localizable(todos)
  {
    if todos != [] {
      LocalizableIdempotent(todos[1..]);
      if todos[0].location.Some? {
        var rest := Localizable(todos[1..]);
        assert ([todos[0]] + rest)[1..] == rest;
      }
    }
  }

  /**
   * The camera target is EPFL when no to-do has a location; otherwise it is the location
   * of the first to-do that has one.
   */
  lemma {:induction false} MapTargetIsFirstLocated(todos: seq<ToDo>)
    ensures (forall i :: 0 <= i < |todos| ==> todos[i].location.None?) ==>
              MapTarget(todos) == ToLatLng(EpflLocation)
    ensures forall k :: (0 <= k < |todos| && todos[k].location.Some? &&
                        (forall i :: 0 <= i < k ==> todos[i].location.None?)) ==>
              MapTarget(todos) == ToLatLng(todos[k].location.value)
  {
    if todos != [] {
      MapTargetIsFirstLocated(todos[1..]);
      if todos[0].location.None? {
        forall k | 0 <= k < |todos| && todos[k].location.Some? &&
                   (forall i :: 0 <= i < k ==> todos[i].location.None?)
          ensures MapTarget(todos) == ToLatLng(todos[k].location.value)
        {
          assert k > 0;
          assert todos[1..][k - 1] == todos[k];
          assert forall i :: 0 <= i < k - 1 ==> todos[1..][i] == todos[i + 1];
        }
      }
    }
  }

  class MapViewModel {
    var uiState: MapUIState

    constructor ()
      ensures uiState == InitialState
    {
      uiState := InitialState;
    }

    /** `setErrorMsg`. */
    method SetErrorMsg(errorMsg: string)
      modifies this
      ensures uiState == old(uiState).(errorMsg := Some(errorMsg))
    {
      uiState := uiState.(errorMsg := Some(errorMsg));
    }

    /** `clearErrorMsg`. */
    method ClearErrorMsg()
      modifies this
      ensures uiState == old(uiState).(errorMsg := None)
    {
      uiState := uiState.(errorMsg := None);
    }

    /**
     * `fetchLocalizableTodos`: on success the whole state is replaced by the localizable
     * to-dos, their target and no message; on failure only the message is set.
     */
    method FetchLocalizableTodos(fetched: Result<seq<ToDo>>)
      modifies this
      ensures fetched.Ok? ==>
                uiState == MapUIState(MapTarget(fetched.value), Localizable(fetched.value), None)
      ensures fetched.Err? ==>
                uiState == old(uiState).(errorMsg := Some("Failed to load todos: " + fetched.msg))
    {
      match fetched
      case Ok(all) =>
        var todos := Localizable(all);
        var target := if todos == [] then EpflLocation else todos[0].location.value;
        uiState := MapUIState(ToLatLng(target), todos, None);
      case Err(message) =>
        SetErrorMsg("Failed to load todos: " + message);
    }

    /** `refreshUIState`: fetches again. */
    method RefreshUIState(fetched: Result<seq<ToDo>>)
      modifies this
      ensures fetched.Ok? ==>
                uiState == MapUIState(MapTarget(fetched.value), Localizable(fetched.value), None)
      ensures fetched.Err? ==>
                uiState == old(uiState).(errorMsg := Some("Failed to load todos: " + fetched.msg))
    {
      FetchLocalizableTodos(fetched);
    }
  }
}
