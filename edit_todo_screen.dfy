/**
 * The two pure rules of the edit screen: the status button's cycle and the labels of the
 * location suggestions.
 */
module EditToDoScreen {
  import opened ToDoModel

  /** `getNextStatus`: CREATED, STARTED, ENDED, ARCHIVED and round again. */
  function NextStatus(current: ToDoStatus): (next: ToDoStatus)
    ensures Ordinal(next) == (Ordinal(current) + 1) % 4
  {
    match current
    case Created => Started
    case Started => Ended
    case Ended => Archived
    case Archived => Created
  }

  /** The status after `n` presses of the status button. */
  function Press(current: ToDoStatus, n: nat): ToDoStatus
    decreases n
  {
    if n == 0 then current else Press(NextStatus(current), n - 1)
  }

  /** A press always changes the status. */
  lemma NoFixedPoint(s: ToDoStatus)
    ensures NextStatus(s) != s
  {
  }

  /** `n` presses advance the ordinal by `n`, modulo the four statuses. */
  lemma {:induction false} PressOrdinal(s: ToDoStatus, n: nat)
    ensures Ordinal(Press(s, n)) == (Ordinal(s) + n) % 4
    decreases n
  {
    if n > 0 {
      PressOrdinal(NextStatus(s), n - 1);
    }
  }

  /** Four presses bring the status back. */
  lemma FourPressesIdentity(s: ToDoStatus)
    ensures Press(s, 4) == s
  {
    PressOrdinal(s, 4);
  }

  /**
   * Pressing `(target.ordinal - current.ordinal + 4) mod 4` times, as the screen tests do,
   * reaches the target, and no fewer presses do.
   */
  lemma PressesToReach(current: ToDoStatus, target: ToDoStatus)
    ensures Press(current, (Ordinal(target) - Ordinal(current) + 4) % 4) == target
    ensures forall n :: 0 <= n < (Ordinal(target) - Ordinal(current) + 4) % 4 ==> Press(current, n) != target
  {
    PressOrdinal(current, (Ordinal(target) - Ordinal(current) + 4) % 4);
    forall n | 0 <= n < (Ordinal(target) - Ordinal(current) + 4) % 4
      ensures Press(current, n) != target
    {
      PressOrdinal(current, n);
    }
  }

  /** Longest name shown before it is cut. */
  const LabelLength: nat := 30

  /** Most suggestions listed. */
  const MaxSuggestions: nat := 3

  /** `name.take(30) + if (name.length > 30) "..." else ""`. */
  function SuggestionLabel(name: string): (text: string)
    ensures |text| <= LabelLength + 3
    ensures |name| <= LabelLength ==> text == name
    ensures |name| > LabelLength ==> |text| == LabelLength + 3 && text[LabelLength..] == "..."
    ensures name[..if |name| < LabelLength then |name| else LabelLength] <= text
  {
    var shown := if |name| < LabelLength then |name| else LabelLength;
    name[..shown] + if |name| > LabelLength then "..." else ""
  }

  /** `filterNotNull().take(3)`: the suggestions listed. */
  function ShownSuggestions<T>(suggestions: seq<T>): (shown: seq<T>)
    ensures |shown| <= MaxSuggestions && shown <= suggestions
    ensures |suggestions| <= MaxSuggestions ==> shown == suggestions
    ensures |suggestions| > MaxSuggestions ==> |shown| == MaxSuggestions
  {
    suggestions[..if |suggestions| < MaxSuggestions then |suggestions| else MaxSuggestions]
  }

  /** A "More..." entry follows the list exactly when some suggestion is left out. */
  predicate ShowsMore<T>(suggestions: seq<T>)
  {
    |suggestions| > MaxSuggestions
  }

  /**
   * The dropdown's rows: every suggestion when there are at most three, otherwise the
   * first three and "More..."; "More..." appears exactly when the list was cut.
   */
  lemma DropdownRows<T>(suggestions: seq<T>)
    ensures |ShownSuggestions(suggestions)| + (if ShowsMore(suggestions) then 1 else 0)
            == if ShowsMore(suggestions) then MaxSuggestions + 1 else |suggestions|
    ensures ShowsMore(suggestions) <==> ShownSuggestions(suggestions) != suggestions
  {
  }
}
