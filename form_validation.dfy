/**
 * The checks the add and edit forms run on each keystroke, with the messages they show.
 * Both view-models use the same rules, written out twice in the application.
 */
module FormValidation {
  import opened Wrappers
  import opened Text
  import DateParser
  import opened ToDoModel

  const TitleEmptyMsg: string := "Title cannot be empty"
  const DescriptionEmptyMsg: string := "Description cannot be empty"
  const AssigneeEmptyMsg: string := "Assignee cannot be empty"
  const DueDateInvalidMsg: string := "Date is not valid (format: dd/mm/yyyy)"
  const InvalidFieldsMsg: string := "At least one field is not valid"

  /** The user recorded as owner: the signed-in user's uid, or a fixed placeholder. */
  function OwnerId(currentUser: Option<string>): string
  {
    match currentUser
    case Some(uid) => uid
    case None => "None (B2)"
  }

  /** The message a text setter stores: set exactly when the text is blank. */
  function BlankError(text: string, msg: string): (r: Option<string>)
    ensures r.Some? <==> IsBlank(text)
    ensures r.Some? ==> r.value == msg
  {
    if IsBlank(text) then Some(msg) else None
  }

  /** The message `setDueDate` stores: set exactly when the date does not parse. */
  function DueDateError(text: string): (r: Option<string>)
    ensures r.Some? <==> DateParser.Parse(text).None?
    ensures r.Some? ==> r.value == DueDateInvalidMsg
  {
    if DateParser.Parse(text).None? then Some(DueDateInvalidMsg) else None
  }

  /** A text field's message is only ever set on blank text. */
  predicate BlankFlagged(text: string, msg: Option<string>)
  {
    msg.Some? ==> IsBlank(text)
  }

  /** A text field without a message is untouched (empty) or not blank. */
  predicate UnflaggedNotBlank(text: string, msg: Option<string>)
  {
    msg.None? ==> text == [] || !IsBlank(text)
  }

  /** The due date's message is set exactly when a non-empty date does not parse. */
  predicate DueDateChecked(text: string, msg: Option<string>)
  {
    && (msg.Some? ==> DateParser.Parse(text).None?)
    && (msg.None? ==> text == [] || DateParser.Parse(text).Some?)
  }

  /**
   * The suggestions after `setLocationQuery(query)` and its location search complete:
   * none for an empty query or a failed search, otherwise the search's results.
   */
  function SuggestionsAfter(query: string, search: Result<seq<Location>>): (r: seq<Location>)
    ensures query == "" ==> r == []
    ensures query != "" && search.Ok? ==> r == search.value
    ensures search.Err? ==> r == []
  {
    if query == "" then []
    else match search
      case Ok(found) => found
      case Err(_) => []
  }
}
