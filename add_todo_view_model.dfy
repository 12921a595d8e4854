/**
 * `AddTodoViewModel`: the add form's state, replaced field by field by its setters, and
 * `addTodo`, which builds the new to-do when the form is valid. The repository calls it
 * makes are returned as the to-do submitted; the identifier `getNewUid` hands out and
 * the signed-in user are inputs.
 */
module AddTodoViewModel {
  import opened Wrappers
  import opened Text
  import opened Calendar
  import opened ToDoModel
  import opened FormValidation
  import DateParser

  datatype AddTodoUIState = AddTodoUIState(
    title: string,
    description: string,
    assigneeName: string,
    dueDate: string,
    selectedLocation: Option<Location>,
    errorMsg: Option<string>,
    locationQuery: string,
    locationSuggestions: seq<Location>,
    invalidTitleMsg: Option<string>,
    invalidDescriptionMsg: Option<string>,
    invalidAssigneeNameMsg: Option<string>,
    invalidDueDateMsg: Option<string>)
  {
    /** `isValid`: no field flagged and none left empty. */
    predicate IsValid()
    {
      && invalidTitleMsg.None?
      && invalidDescriptionMsg.None?
      && invalidAssigneeNameMsg.None?
      && invalidDueDateMsg.None?
      && title != []
      && description != []
      && assigneeName != []
      && dueDate != []
    }
  }

  /** `AddTodoUIState()`: every field at its default. */
  const InitialState: AddTodoUIState :=
    AddTodoUIState("", "", "", "", None, None, "", [], None, None, None, None)

  /** What the setters keep true: every message says whether its field passes its check. */
  predicate Checked(s: AddTodoUIState)
  {
    && BlankFlagged(s.title, s.invalidTitleMsg) && UnflaggedNotBlank(s.title, s.invalidTitleMsg)
    && BlankFlagged(s.description, s.invalidDescriptionMsg)
    && UnflaggedNotBlank(s.description, s.invalidDescriptionMsg)
    && BlankFlagged(s.assigneeName, s.invalidAssigneeNameMsg)
    && UnflaggedNotBlank(s.assigneeName, s.invalidAssigneeNameMsg)
    && DueDateChecked(s.dueDate, s.invalidDueDateMsg)
  }

  /**
   * A valid form has a due date that parses and no blank text: the `!!` on the parse
   * result in `addTodo` cannot fail, and no to-do with a blank field is submitted.
   */
  lemma ValidFormIsComplete(s: AddTodoUIState)
    requires Checked(s) && s.IsValid()
    ensures DateParser.Parse(s.dueDate).Some?
    ensures !IsBlank(s.title) && !IsBlank(s.description) && !IsBlank(s.assigneeName)
  {
  }

  class AddTodoViewModel {
    var uiState: AddTodoUIState

    ghost predicate Valid()
      reads this
    {
      Checked(uiState)
    }

    constructor ()
      ensures Valid() && uiState == InitialState
    {
      uiState := InitialState;
    }

    /** `clearErrorMsg`. */
    method ClearErrorMsg()
      requires Valid()
      modifies this
      ensures Valid() && uiState == old(uiState).(errorMsg := None)
    {
      uiState := uiState.(errorMsg := None);
    }

    /** `setErrorMsg`. */
    method SetErrorMsg(errorMsg: string)
      requires Valid()
      modifies this
      ensures Valid() && uiState == old(uiState).(errorMsg := Some(errorMsg))
    {
      uiState := uiState.(errorMsg := Some(errorMsg));
    }

    /**
     * `addTodo`: on an invalid form, an error message and `false`, with nothing submitted;
     * otherwise the new to-do, status CREATED, under the identifier `getNewUid` gave, is
     * submitted to the repository, the error message is cleared and the result is `true`.
     * The application asks for the identifier only once the form is valid, so `newUid` is
     * used on that path alone and a caller supplies one only there.
     */
    method AddTodo(newUid: string, currentUser: Option<string>) returns (ok: bool, submitted: Option<ToDo>)
      requires Valid()
      modifies this
      ensures Valid()
      ensures ok == old(uiState).IsValid() && (submitted.Some? <==> ok)
      ensures !ok ==> uiState == old(uiState).(errorMsg := Some(InvalidFieldsMsg))
      ensures ok ==> uiState == old(uiState).(errorMsg := None)
      ensures ok ==>
        var s := old(uiState);
        && submitted.value.uid == newUid
        && submitted.value.name == s.title
        && submitted.value.description == s.description
        && submitted.value.assigneeName == s.assigneeName
        && DateParser.Parse(s.dueDate) == Some(submitted.value.dueDate)
        && submitted.value.location == s.selectedLocation
        && submitted.value.status == Created
        && submitted.value.ownerId == OwnerId(currentUser)
    {
      var state := uiState;
      if !state.IsValid() {
        SetErrorMsg(InvalidFieldsMsg);
        return false, None;
      }
      ValidFormIsComplete(state);
      var date := DateParser.Parse(state.dueDate).value;
      var toDo := ToDo(newUid, state.title, state.description, state.assigneeName, date,
                       state.selectedLocation, Created, OwnerId(currentUser));
      ClearErrorMsg();
      return true, Some(toDo);
    }

    /**
     * `addToDoToRepository`, when the repository call completes: a failure's message is
     * shown; a success changes nothing.
     */
    method AddToDoToRepositoryCompleted(outcome: Outcome)
      requires Valid()
      modifies this
      ensures Valid()
      ensures outcome.Done? ==> uiState == old(uiState)
      ensures outcome.Failed? ==> uiState == old(uiState).(errorMsg := Some("Failed to add ToDo: " + outcome.msg))
    {
      if outcome.Failed? {
        SetErrorMsg("Failed to add ToDo: " + outcome.msg);
      }
    }

    /** `setTitle`: the text, flagged exactly when blank. */
    method SetTitle(title: string)
      requires Valid()
      modifies this
      ensures Valid()
      ensures uiState == old(uiState).(title := title, invalidTitleMsg := BlankError(title, TitleEmptyMsg))
    {
      uiState := uiState.(title := title, invalidTitleMsg := BlankError(title, TitleEmptyMsg));
    }

    /** `setDescription`: the text, flagged exactly when blank. */
    method SetDescription(description: string)
      requires Valid()
      modifies this
      ensures Valid()
      ensures uiState == old(uiState).(description := description,
                                       invalidDescriptionMsg := BlankError(description, DescriptionEmptyMsg))
    {
      uiState := uiState.(description := description,
                          invalidDescriptionMsg := BlankError(description, DescriptionEmptyMsg));
    }

    /** `setAssigneeName`: the text, flagged exactly when blank. */
    method SetAssigneeName(assigneeName: string)
      requires Valid()
      modifies this
      ensures Valid()
      ensures uiState == old(uiState).(assigneeName := assigneeName,
                                       invalidAssigneeNameMsg := BlankError(assigneeName, AssigneeEmptyMsg))
    {
      uiState := uiState.(assigneeName := assigneeName,
                          invalidAssigneeNameMsg := BlankError(assigneeName, AssigneeEmptyMsg));
    }

    /** `setDueDate`: the text, flagged exactly when it does not parse. */
    method SetDueDate(dueDate: string)
      requires Valid()
      modifies this
      ensures Valid()
      ensures uiState == old(uiState).(dueDate := dueDate, invalidDueDateMsg := DueDateError(dueDate))
    {
      uiState := uiState.(dueDate := dueDate, invalidDueDateMsg := DueDateError(dueDate));
    }

    /** `setLocation`: the location chosen, and its name in the query field. */
    method SetLocation(location: Location)
      requires Valid()
      modifies this
      ensures Valid()
      ensures uiState == old(uiState).(selectedLocation := Some(location), locationQuery := location.name)
    {
      uiState := uiState.(selectedLocation := Some(location), locationQuery := location.name);
    }

    /**
     * `setLocationQuery`: the query is stored; an empty query empties the suggestions,
     * another one replaces them with the search's results (none if the search fails).
     */
    method SetLocationQuery(query: string, search: Result<seq<Location>>)
      requires Valid()
      modifies this
      ensures Valid()
      ensures uiState == old(uiState).(locationQuery := query,
                                       locationSuggestions := SuggestionsAfter(query, search))
    {
      uiState := uiState.(locationQuery := query);
      if query != "" {
        match search
        case Ok(results) =>
          uiState := uiState.(locationSuggestions := results);
        case Err(_) =>
          uiState := uiState.(locationSuggestions := []);
      } else {
        uiState := uiState.(locationSuggestions := []);
      }
    }
  }
}
