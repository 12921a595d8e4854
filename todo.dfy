/** The to-do record, its status enumeration and the status's display string. */
module ToDoModel {
  import opened Wrappers
  import opened Text
  import opened Calendar

  /**
   * A place: latitude and longitude in degrees and a display name. Coordinates are only
   * ever copied, so their floating-point nature plays no part.
   */
  datatype Location = Location(latitude: real, longitude: real, name: string)

  /** The four statuses, declared in this order. */
  datatype ToDoStatus = Created | Started | Ended | Archived

  /**
   * A to-do. Equality of two records is equality of all eight fields, as for a Kotlin
   * data class.
   */
  datatype ToDo = ToDo(
    uid: string,
    name: string,
    description: string,
    assigneeName: string,
    dueDate: Timestamp,
    location: Option<Location>,
    status: ToDoStatus,
    ownerId: string)

  /** `ToDoStatus.entries`: the statuses in declaration order. */
  const Entries: seq<ToDoStatus> := [Created, Started, Ended, Archived]

  /** `ordinal`: the position of a status in the declaration. */
  function Ordinal(s: ToDoStatus): (n: nat)
    ensures n < |Entries| && Entries[n] == s
  {
    match s
    case Created => 0
    case Started => 1
    case Ended => 2
    case Archived => 3
  }

  /** `name`: the identifier the status is declared with. */
  function Name(s: ToDoStatus): string
  {
    match s
    case Created => "CREATED"
    case Started => "STARTED"
    case Ended => "ENDED"
    case Archived => "ARCHIVED"
  }

  /** `ToDoStatus.valueOf`: the status with that exact name, or `None` where Kotlin throws. */
  function ValueOf(name: string): (r: Option<ToDoStatus>)
    ensures r.Some? ==> Name(r.value) == name
  {
    if name == "CREATED" then Some(Created)
    else if name == "STARTED" then Some(Started)
    else if name == "ENDED" then Some(Ended)
    else if name == "ARCHIVED" then Some(Archived)
    else None
  }

  /** `displayString()`: underscores to spaces, lower case, then the first letter capitalised. */
  function DisplayString(s: ToDoStatus): (r: string)
    ensures |r| == |Name(s)|
  {
    CapitalizeFirst(Lowercase(ReplaceChar(Name(s), '_', ' ')))
  }

  /** Every status is found again from its name, and no other name gives it. */
  lemma ValueOfName(s: ToDoStatus, name: string)
    ensures ValueOf(name) == Some(s) <==> name == Name(s)
  {
  }

  /** The declaration has four distinct statuses, and each has its ordinal. */
  lemma EntriesAreTheStatuses(s: ToDoStatus)
    ensures |Entries| == 4
    ensures s in Entries
    ensures forall i, j :: 0 <= i < j < |Entries| ==> Entries[i] != Entries[j]
  {
  }
}
