/**
 * `EditTodoViewModel`: the edit form's state, loaded from a to-do, replaced field by field
 * by its setters, and `editTodo`, which builds the replacement when the form is valid.
 * The repository's answer to `getTodo` and the signed-in user are inputs; the edit it
 * requests is returned as the to-do submitted.
 */
module EditTodoViewModel {
  import opened Wrappers
  import opened Text
  import opened Calendar
  import opened ToDoModel
  import opened FormValidation
  import DateParser
  import Decimal

  datatype EditTodoUIState = EditTodoUIState(
    title: string,
    description: string,
    assigneeName: string,
    dueDate: string,
    selectedLocation: Option<Location>,
    status: ToDoStatus,
    errorMsg: Option<string>,
    locationQuery: string,
    locationSuggestions: seq<Location>,
    invalidTitleMsg: Option<string>,
    invalidDescriptionMsg: Option<string>,
    invalidAssigneeNameMsg: Option<string>,
    invalidDueDateMsg: Option<string>)
  {
    /** `isValid`: no field flagged and none left empty, as in the add form. */
    predicate IsValid()
    {
      && invalidTitleMsg.None?
      && invalidDescriptionMsg.None?
      && invalidAssigneeNameMsg.None?
      && invalidDueDateMsg.None?
      && title != []
      && description != []
      && assigneeName != []
      && dueDate != []
    }
  }

  /** `EditTodoUIState()`: every field at its default. */
  const InitialState: EditTodoUIState :=
    EditTodoUIState("", "", "", "", None, Created, None, "", [], None, None, None, None)

  /**
   * What the setters and `loadTodo` keep true: a text message is set only on blank text,
   * and the due date's message says whether it parses. (A loaded to-do may have blank text
   * with no message: the repository does not check its to-dos.)
   */
  predicate Checked(s: EditTodoUIState)
  {
    && BlankFlagged(s.title, s.invalidTitleMsg)
    && BlankFlagged(s.description, s.invalidDescriptionMsg)
    && BlankFlagged(s.assigneeName, s.invalidAssigneeNameMsg)
    && DueDateChecked(s.dueDate, s.invalidDueDateMsg)
  }

  /**
   * The form `loadTodo` builds when the due date is rendered as `rendered`. The application
   * renders it with the device's default locale and time zone, and leaves the due date's
   * message unset whatever the text.
   */
  function LoadedStateAsWritten(t: ToDo, rendered: string): (s: EditTodoUIState)
    ensures s.dueDate == rendered && s.invalidDueDateMsg.None?
    ensures s.title == t.name && s.status == t.status && s.selectedLocation == t.location
    ensures (t.name != [] && t.description != [] && t.assigneeName != [] && rendered != []) <==> s.IsValid()
  {
    InitialState.(title := t.name, description := t.description, assigneeName := t.assigneeName,
                  dueDate := rendered, selectedLocation := t.location, status := t.status)
  }

  /**
   * The form as loaded can be valid while its due date does not parse, so saving it
   * unchanged reaches the `!!` in `editTodo` with `null`: 31/12/9999 late in the day, seen
   * from a zone east of it, renders as a five-digit year.
   */
  lemma LoadedFormCanCrashSave(t: ToDo)
    requires t.name != [] && t.description != [] && t.assigneeName != []
    ensures LoadedStateAsWritten(t, "01/01/10000").IsValid()
    ensures DateParser.Parse("01/01/10000").None?
  {
    assert |"01/01/10000"| == 11;
  }

  /**
   * The form `loadTodo` shows for a to-do when the date is rendered in ASCII "dd/MM/yyyy",
   * the text `DateParser.parse` reads back, as `Locale.ROOT` renders it.
   */
  function LoadedState(t: ToDo): (s: EditTodoUIState)
    ensures Checked(s)
    ensures DateParser.Parse(s.dueDate) == Some(t.dueDate)
  {
    DateParser.ParseFormat(t.dueDate);
    InitialState.(title := t.name, description := t.description, assigneeName := t.assigneeName,
                  dueDate := DateParser.Format(t.dueDate), selectedLocation := t.location,
                  status := t.status)
  }

  /**
   * The to-do `editTodo(id)` submits for a valid form: its fields, the parsed date, the
   * status chosen, identifier `id` and the signed-in user as owner.
   */
  function FormToDo(s: EditTodoUIState, id: string, currentUser: Option<string>): (t: ToDo)
    requires Checked(s) && s.IsValid()
    ensures t.uid == id && t.status == s.status && t.location == s.selectedLocation
    ensures DateParser.Parse(s.dueDate) == Some(t.dueDate)
  {
    ValidFormParses(s);
    ToDo(id, s.title, s.description, s.assigneeName, DateParser.Parse(s.dueDate).value,
         s.selectedLocation, s.status, OwnerId(currentUser))
  }

  /**
   * A valid form whose due date the setters or `LoadedState` checked parses, so the `!!`
   * in `editTodo` cannot fail on it. (`LoadedFormCanCrashSave` shows a form as the
   * application loads it that is not checked.)
   */
  lemma ValidFormParses(s: EditTodoUIState)
    requires Checked(s) && s.IsValid()
    ensures DateParser.Parse(s.dueDate).Some?
  {
  }

  /**
   * Loading a to-do and saving straight away submits the same to-do, owned by the
   * signed-in user, with the same calendar due date. (The application keeps only that
   * date: the saved due date is at midnight, so its time of day is not kept.)
   */
  lemma LoadThenSave(t: ToDo, currentUser: Option<string>)
    requires t.name != [] && t.description != [] && t.assigneeName != []
    ensures LoadedState(t).IsValid()
    ensures FormToDo(LoadedState(t), t.uid, currentUser) == t.(ownerId := OwnerId(currentUser))
  {
    DateParser.ParseFormat(t.dueDate);
  }

  class EditTodoViewModel {
    var uiState: EditTodoUIState

    ghost predicate Valid()
      reads this
    {
      Checked(uiState)
    }

    constructor ()
      ensures Valid() && uiState == InitialState
    {
      uiState := InitialState;
    }

    /** `clearErrorMsg`. */
    method ClearErrorMsg()
      requires Valid()
      modifies this
      ensures Valid() && uiState == old(uiState).(errorMsg := None)
    {
      uiState := uiState.(errorMsg := None);
    }

    /** `setErrorMsg`. */
    method SetErrorMsg(errorMsg: string)
      requires Valid()
      modifies this
      ensures Valid() && uiState == old(uiState).(errorMsg := Some(errorMsg))
    {
      uiState := uiState.(errorMsg := Some(errorMsg));
    }

    /** `loadTodo`: the whole form replaced by the to-do fetched, or an error message. */
    method LoadTodo(fetched: Result<ToDo>)
      requires Valid()
      modifies this
      ensures Valid()
      ensures fetched.Ok? ==> uiState == LoadedState(fetched.value)
      ensures fetched.Err? ==> uiState == old(uiState).(errorMsg := Some("Failed to load ToDo: " + fetched.msg))
    {
      match fetched
      case Ok(todo) =>
        uiState := LoadedState(todo);
      case Err(message) =>
        SetErrorMsg("Failed to load ToDo: " + message);
    }

    /**
     * `editTodo(id)`: on an invalid form, an error message and `false`, with no edit
     * requested; otherwise the form's to-do under identifier `id` is submitted, the error
     * message is cleared and the result is `true`.
     */
    method EditTodo(id: string, currentUser: Option<string>) returns (ok: bool, submitted: Option<ToDo>)
      requires Valid()
      modifies this
      ensures Valid()
      ensures ok == old(uiState).IsValid() && (submitted.Some? <==> ok)
      ensures !ok ==> uiState == old(uiState).(errorMsg := Some(InvalidFieldsMsg))
      ensures ok ==> uiState == old(uiState).(errorMsg := None)
      ensures ok ==> submitted.value == FormToDo(old(uiState), id, currentUser)
    {
      var state := uiState;
      if !state.IsValid() {
        SetErrorMsg(InvalidFieldsMsg);
        return false, None;
      }
      ValidFormParses(state);
      var date := DateParser.Parse(state.dueDate).value;
      var toDo := ToDo(id, state.title, state.description, state.assigneeName, date,
                       state.selectedLocation, state.status, OwnerId(currentUser));
      ClearErrorMsg();
      return true, Some(toDo);
    }

    /**
     * `editTodoToRepository`, when the repository call completes: a failure's message is
     * shown, under the same wording as a failed addition; a success changes nothing.
     */
    method EditTodoToRepositoryCompleted(outcome: Outcome)
      requires Valid()
      modifies this
      ensures Valid()
      ensures outcome.Done? ==> uiState == old(uiState)
      ensures outcome.Failed? ==> uiState == old(uiState).(errorMsg := Some("Failed to add ToDo: " + outcome.msg))
    {
      if outcome.Failed? {
        SetErrorMsg("Failed to add ToDo: " + outcome.msg);
      }
    }

    /**
     * `deleteToDo(todoID)`: the repository is asked to delete `todoID` (the identifier
     * returned), and given that call's outcome, a failure's message is shown while a
     * success changes nothing.
     */
    method DeleteToDo(todoID: string, outcome: Outcome) returns (deleted: string)
      requires Valid()
      modifies this
      ensures Valid()
      ensures deleted == todoID
      ensures outcome.Done? ==> uiState == old(uiState)
      ensures outcome.Failed? ==> uiState == old(uiState).(errorMsg := Some("Failed to delete ToDo: " + outcome.msg))
    {
      deleted := todoID;
      if outcome.Failed? {
        SetErrorMsg("Failed to delete ToDo: " + outcome.msg);
      }
    }

    /** `setTitle`: the text, flagged exactly when blank. */
    method SetTitle(title: string)
      requires Valid()
      modifies this
      ensures Valid()
      ensures uiState == old(uiState).(title := title, invalidTitleMsg := BlankError(title, TitleEmptyMsg))
    {
      uiState := uiState.(title := title, invalidTitleMsg := BlankError(title, TitleEmptyMsg));
    }

    /** `setDescription`: the text, flagged exactly when blank. */
    method SetDescription(description: string)
      requires Valid()
      modifies this
      ensures Valid()
      ensures uiState == old(uiState).(description := description,
                                       invalidDescriptionMsg := BlankError(description, DescriptionEmptyMsg))
    {
      uiState := uiState.(description := description,
                          invalidDescriptionMsg := BlankError(description, DescriptionEmptyMsg));
    }

    /** `setAssigneeName`: the text, flagged exactly when blank. */
    method SetAssigneeName(assigneeName: string)
      requires Valid()
      modifies this
      ensures Valid()
      ensures uiState == old(uiState).(assigneeName := assigneeName,
                                       invalidAssigneeNameMsg := BlankError(assigneeName, AssigneeEmptyMsg))
    {
      uiState := uiState.(assigneeName := assigneeName,
                          invalidAssigneeNameMsg := BlankError(assigneeName, AssigneeEmptyMsg));
    }

    /** `setDueDate`: the text, flagged exactly when it does not parse. */
    method SetDueDate(dueDate: string)
      requires Valid()
      modifies this
      ensures Valid()
      ensures uiState == old(uiState).(dueDate := dueDate, invalidDueDateMsg := DueDateError(dueDate))
    {
      uiState := uiState.(dueDate := dueDate, invalidDueDateMsg := DueDateError(dueDate));
    }

    /** `setLocation`: the location chosen, and its name in the query field. */
    method SetLocation(location: Location)
      requires Valid()
      modifies this
      ensures Valid()
      ensures uiState == old(uiState).(selectedLocation := Some(location), locationQuery := location.name)
    {
      uiState := uiState.(selectedLocation := Some(location), locationQuery := location.name);
    }

    /** `setStatus`: only the status changes. */
    method SetStatus(status: ToDoStatus)
      requires Valid()
      modifies this
      ensures Valid()
      ensures uiState == old(uiState).(status := status)
    {
      uiState := uiState.(status := status);
    }

    /**
     * `setLocationQuery`: the query is stored; an empty query empties the suggestions,
     * another one replaces them with the search's results (none if the search fails).
     */
    method SetLocationQuery(query: string, search: Result<seq<Location>>)
      requires Valid()
      modifies this
      ensures Valid()
      ensures uiState == old(uiState).(locationQuery := query,
                                       locationSuggestions := SuggestionsAfter(query, search))
    {
      uiState := uiState.(locationQuery := query);
      if query != "" {
        match search
        case Ok(results) =>
          uiState := uiState.(locationSuggestions := results);
        case Err(_) =>
          uiState := uiState.(locationSuggestions := []);
      } else {
        uiState := uiState.(locationSuggestions := []);
      }
    }
  }
}
