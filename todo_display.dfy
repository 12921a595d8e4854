/**
 * The display strings of the four statuses, worked out from `displayString`'s definition.
 * Kept apart from `ToDoModel` so that each literal string is reasoned about on its own.
 */
module ToDoDisplay {
  import opened Text
  import opened ToDoModel

  /** Created: the name has no underscore, lower-cases to "created" and displays as "Created". */
  lemma CreatedNameUnchangedByReplace()
    ensures ReplaceChar("CREATED", '_', ' ') == "CREATED"
  {
  }

  lemma CreatedLowercase()
    ensures Lowercase("CREATED") == "created"
  {
  }

  lemma CreatedCapitalized()
    ensures CapitalizeFirst("created") == "Created"
  {
  }

  lemma DisplayCreated()
    ensures DisplayString(Created) == "Created"
  {
    CreatedNameUnchangedByReplace();
    CreatedLowercase();
    CreatedCapitalized();
  }

  /** Started: the name has no underscore, lower-cases to "started" and displays as "Started". */
  lemma StartedNameUnchangedByReplace()
    ensures ReplaceChar("STARTED", '_', ' ') == "STARTED"
  {
  }

  lemma StartedLowercase()
    ensures Lowercase("STARTED") == "started"
  {
  }

  lemma StartedCapitalized()
    ensures CapitalizeFirst("started") == "Started"
  {
  }

  lemma DisplayStarted()
    ensures DisplayString(Started) == "Started"
  {
    StartedNameUnchangedByReplace();
    StartedLowercase();
    StartedCapitalized();
  }

  /** Ended: the name has no underscore, lower-cases to "ended" and displays as "Ended". */
  lemma EndedNameUnchangedByReplace()
    ensures ReplaceChar("ENDED", '_', ' ') == "ENDED"
  {
  }

  lemma EndedLowercase()
    ensures Lowercase("ENDED") == "ended"
  {
  }

  lemma EndedCapitalized()
    ensures CapitalizeFirst("ended") == "Ended"
  {
  }

  lemma DisplayEnded()
    ensures DisplayString(Ended) == "Ended"
  {
    EndedNameUnchangedByReplace();
    EndedLowercase();
    EndedCapitalized();
  }

  /** Archived: the name has no underscore, lower-cases to "archived" and displays as "Archived". */
  lemma ArchivedNameUnchangedByReplace()
    ensures ReplaceChar("ARCHIVED", '_', ' ') == "ARCHIVED"
  {
  }

  lemma ArchivedLowercase()
    ensures Lowercase("ARCHIVED") == "archived"
  {
  }

  lemma ArchivedCapitalized()
    ensures CapitalizeFirst("archived") == "Archived"
  {
  }

  lemma DisplayArchived()
    ensures DisplayString(Archived) == "Archived"
  {
    ArchivedNameUnchangedByReplace();
    ArchivedLowercase();
    ArchivedCapitalized();
  }

  /** The display strings, as shown on the status button. */
  lemma DisplayStrings()
    ensures DisplayString(Created) == "Created"
    ensures DisplayString(Started) == "Started"
    ensures DisplayString(Ended) == "Ended"
    ensures DisplayString(Archived) == "Archived"
  {
    DisplayCreated();
    DisplayStarted();
    DisplayEnded();
    DisplayArchived();
  }

  /** Distinct statuses are displayed differently. */
  lemma DisplayStringInjective(a: ToDoStatus, b: ToDoStatus)
    ensures DisplayString(a) == DisplayString(b) <==> a == b
  {
    DisplayStrings();
  }
}
