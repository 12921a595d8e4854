# Bootcamp to-do app: a verified model of its core

This project models the core of an Android to-do application written in Kotlin:

- the `ToDo` record, the `ToDoStatus` enumeration and its display string;
- the `ToDosRepository` interface and three implementations of it:
  - `ToDosRepositoryLocal`, a list plus an identifier counter;
  - `InMemoryToDosRepository`, the fake used by the instrumented tests;
  - the document decoder and keyed writes of `ToDosRepositoryFirestore`;
- `DateParser.parse`, a strict `dd/MM/yyyy` parser on a non-lenient calendar;
- the status cycle and the location-suggestion dropdown rules of the edit screen;
- the add and edit form view-models, whose setters keep each field and its error message consistent;
- the map view-model's rule for which to-dos are shown and where the camera points.

Each modelled Kotlin file has its own module (`ToDo.kt` has two), and five helper modules hold what the others share:

- `Wrappers` (`wrappers.dfy`): `Option`, `Result`, and `Outcome` (a call that completes or throws)
- `Text` (`text.dfy`): `isBlank`, `replace`, `lowercase` and `replaceFirstChar` on characters
- `Decimal` (`decimal.dfy`): decimal rendering and reading of numbers
- `Calendar` (`calendar.dfy`): the calendar that `SimpleDateFormat` checks against
- `FormValidation` (`form_validation.dfy`): the checks both form view-models share
- `ToDoModel` (`todo.dfy`) and `ToDoDisplay` (`todo_display.dfy`): `ToDo.kt`
- `DateParser` (`date_parser.dfy`): `DateParser.kt`
- `Repository` (`repository.dfy`): `ToDosRepository.kt`
- `RepositoryLocal` (`repository_local.dfy`): `ToDosRepositoryLocal.kt`
- `InMemoryRepository` (`in_memory_repository.dfy`): `InMemoryBootcampTest.kt`
- `RepositoryFirestore` (`repository_firestore.dfy`): `ToDosRepositoryFirestore.kt`
- `EditToDoScreen` (`edit_todo_screen.dfy`): `EditToDo.kt`
- `AddTodoViewModel` (`add_todo_view_model.dfy`): `AddTodoViewModel.kt`
- `EditTodoViewModel` (`edit_todo_view_model.dfy`): `EditTodoViewModel.kt`
- `MapViewModel` (`map_view_model.dfy`): `MapViewModel.kt`

Modelling choices:

- **The interface contract.** `ToDosRepository` states its contract only in doc comments. Here it is a set of predicates (`Repository.GetTodoMeets`, `AddTodoMeets`, `EditTodoMeets`, `DeleteTodoMeets`, `NewUidMeets`). Each relates the list before a call, the call's arguments, the list after it and the call's outcome.
  - `ToDosRepositoryLocal` proves each predicate in its methods' postconditions.
  - For the in-memory fake, lemmas exhibit inputs on which its edit and delete break the contract.
- **Exceptions.** A Kotlin exception is an `Err`/`Failed` value carrying the exception's message.
- **Mutable state.** The repositories and view-models are classes. Their mutable lists are `seq` fields and the Firestore collection is a `map` from document id to document. Each method's `modifies` clause names what it changes.
- **Asynchronous calls.** A view-model does not call the repository here. The answer to a repository call it depends on is passed in as a parameter: the fetched to-do, the fetched list, the new identifier, or the outcome of a write. The to-do it asks the repository to store is returned as `submitted`.
- **The signed-in user.** This is an `Option<string>` parameter.
- **Timestamps.** A `Timestamp` is a calendar date (day, month, year) in years 1 to 9999: the dates `DateParser` can produce. Firestore stores all of them except 1 and 2 January 0001 (see "## Left out").
  - The calendar is the one `java.util.GregorianCalendar` uses when it is not lenient: the Julian leap-year rule up to 1582, and the Gregorian rule after it.
  - 5 to 14 October 1582 do not exist, and neither does year 0.
- **Firestore reads.** `getAllTodos` returns the *set* of decoded to-dos, because the order of a query's results is not modelled.

Where the interface's doc comments (each operation "throws if the ToDo item is not found") and an implementation differ, the model follows the implementation:

- The Firestore `editTodo` creates a missing document instead of failing.
- The Firestore `deleteTodo` of a missing document succeeds.
- The in-memory fake's `editTodo` and `deleteTodo` never fail; its `getTodo` fails on a missing identifier.

## Model

| member | source | states |
|---|---|---|
| ToDoModel.Ordinal | app/src/main/java/com/github/se/bootcamp/model/todo/ToDo.kt:18-23 | each status sits at its declaration position in `entries`: CREATED 0, STARTED 1, ENDED 2, ARCHIVED 3 |
| ToDoModel.ValueOf | app/src/main/java/com/github/se/bootcamp/model/todo/ToDo.kt:18-23 | a status found from a name has exactly that name |
| ToDoModel.ValueOfName | app/src/main/java/com/github/se/bootcamp/model/todo/ToDo.kt:18-23 | `valueOf(name)` gives status s if and only if name is s's declared name |
| ToDoModel.EntriesAreTheStatuses | app/src/main/java/com/github/se/bootcamp/model/todo/ToDo.kt:18-23 | the enum has exactly four pairwise distinct values and every status is one of them |
| ToDoModel.DisplayString | app/src/main/java/com/github/se/bootcamp/model/todo/ToDo.kt:30-33 | the display string is as long as the status's name |
| ToDoDisplay.DisplayCreated | app/src/main/java/com/github/se/bootcamp/model/todo/ToDo.kt:30-33 | CREATED displays as "Created" |
| ToDoDisplay.DisplayStarted | app/src/main/java/com/github/se/bootcamp/model/todo/ToDo.kt:30-33 | STARTED displays as "Started" |
| ToDoDisplay.DisplayEnded | app/src/main/java/com/github/se/bootcamp/model/todo/ToDo.kt:30-33 | ENDED displays as "Ended" |
| ToDoDisplay.DisplayArchived | app/src/main/java/com/github/se/bootcamp/model/todo/ToDo.kt:30-33 | ARCHIVED displays as "Archived" |
| ToDoDisplay.DisplayStrings | app/src/main/java/com/github/se/bootcamp/model/todo/ToDo.kt:30-33 | the four display strings, as shown on the status button |
| ToDoDisplay.DisplayStringInjective | app/src/main/java/com/github/se/bootcamp/model/todo/ToDo.kt:30-33 | two statuses have the same display string only if they are the same status |
| Text.ReplaceChar | app/src/main/java/com/github/se/bootcamp/model/todo/ToDo.kt:31 | `replace("_", " ")`: same length, every underscore becomes a space and every other character is kept |
| Text.Lowercase | app/src/main/java/com/github/se/bootcamp/model/todo/ToDo.kt:31 | `lowercase(Locale.ROOT)`: same length, every character lower-cased, no upper-case letter left |
| Text.CapitalizeFirst | app/src/main/java/com/github/se/bootcamp/model/todo/ToDo.kt:31-33 | `replaceFirstChar`: same length, first character upper-cased, the rest unchanged |
| Decimal.NatToString | app/src/main/java/com/github/se/bootcamp/model/todo/ToDosRepositoryLocal.kt:10 | `Int.toString` of a non-negative number: non-empty, all digits, no leading zero except for 0 itself |
| Decimal.ValueOfNatToString | app/src/main/java/com/github/se/bootcamp/model/todo/ToDosRepositoryLocal.kt:10 | reading back the decimal string of n gives n |
| Decimal.NatToStringInjective | app/src/main/java/com/github/se/bootcamp/model/todo/ToDosRepositoryLocal.kt:10 | distinct numbers have distinct decimal strings, and equal strings come from equal numbers |
| Decimal.PadDigits | app/src/main/java/com/github/se/bootcamp/model/todo/DateParser.kt:10-14 | the "dd"/"MM"/"yyyy" fields: exactly the field width, all digits |
| Decimal.ValueOfPadDigits | app/src/main/java/com/github/se/bootcamp/model/todo/DateParser.kt:10-14 | a zero-padded field reads back as the number it was formatted from |
| Decimal.PadDigitsOfValue | app/src/main/java/com/github/se/bootcamp/model/todo/DateParser.kt:10-14 | re-padding the value of a digit string to its own width gives the string back |
| Decimal.Value | app/src/main/java/com/github/se/bootcamp/model/todo/DateParser.kt:16-22 | the value of a digit string is below 10 to the power of its length |
| Calendar.DaysInMonth | app/src/main/java/com/github/se/bootcamp/model/todo/DateParser.kt:10-14 | month lengths of the non-lenient calendar: 31 days exactly in months 1, 3, 5, 7, 8, 10 and 12, 30 in months 4, 6, 9 and 11, and in February 29 exactly in a leap year, otherwise 28 |
| DateParser.Fields | app/src/main/java/com/github/se/bootcamp/model/todo/DateParser.kt:9 | a string of the `dd/dd/dddd` shape yields day and month below 100 and a year below 10000 |
| DateParser.MatchesDatePattern | app/src/main/java/com/github/se/bootcamp/model/todo/DateParser.kt:9 | the regular expression: two digits, '/', two digits, '/', four digits and nothing else |
| DateParser.Parse | app/src/main/java/com/github/se/bootcamp/model/todo/DateParser.kt:16-22 | a string is accepted only if it has the `dd/dd/dddd` shape (so length 10), and then the date is the one its fields spell |
| DateParser.ParseAccepts | app/src/main/java/com/github/se/bootcamp/model/todo/DateParser.kt:10-21 | a well-shaped string is accepted exactly when its year is 1..9999, its month 1..12, its day within the month, and the date is not in the October 1582 gap |
| DateParser.Format | app/src/main/java/com/github/se/bootcamp/model/todo/DateParser.kt:10-14 | the "dd/MM/yyyy" rendering of a date has length 10 |
| DateParser.ParseFormat | app/src/main/java/com/github/se/bootcamp/ui/overview/EditTodoViewModel.kt:86-90 | rendering a date as "dd/MM/yyyy" and parsing it gives the date back |
| DateParser.FormatParse | app/src/main/java/com/github/se/bootcamp/model/todo/DateParser.kt:10-22 | rendering the date parsed from an accepted string gives that string back |
| DateParser.ParseInjective | app/src/main/java/com/github/se/bootcamp/model/todo/DateParser.kt:16-22 | two strings that parse to the same date are the same string |
| DateParser.LeapDay | app/src/main/java/com/github/se/bootcamp/model/todo/DateParser.kt:10-21 | "29/02/yyyy" is accepted exactly in leap years |
| DateParser.OutOfRangeFields | app/src/main/java/com/github/se/bootcamp/model/todo/DateParser.kt:10-21 | day "00" or month "13" is rejected |
| DateParser.RejectsFebruary31 | app/src/main/java/com/github/se/bootcamp/model/todo/DateParser.kt:10-21 | "31/02/2023" is rejected |
| DateParser.AcceptsFirstDaysOfEra | app/src/main/java/com/github/se/bootcamp/model/todo/DateParser.kt:10-21 | "01/01/0001" and "02/01/0001" parse, as Julian dates before Firebase's first `Timestamp` |
| DateParser.AcceptsEpoch | app/src/main/java/com/github/se/bootcamp/model/todo/DateParser.kt:16-22 | "01/01/1970" is 1 January 1970 |
| DateParser.RejectsText | app/src/main/java/com/github/se/bootcamp/model/todo/DateParser.kt:9-19 | "not a date" is rejected |
| Repository.IndexOfFirst | app/src/main/java/com/github/se/bootcamp/model/todo/ToDosRepositoryLocal.kt:27 | `indexOfFirst`: -1 exactly when no to-do has the identifier, otherwise the first index holding it |
| Repository.Find | app/src/main/java/com/github/se/bootcamp/model/todo/ToDosRepositoryLocal.kt:18 | `find`: present exactly when some to-do has the identifier, and then a to-do of the list with that identifier |
| Repository.FindFirstMatch | app/src/main/java/com/github/se/bootcamp/model/todo/ToDosRepositoryLocal.kt:18 | `find` returns the to-do at the first index holding the identifier |
| Repository.NewUidMeets | app/src/main/java/com/github/se/bootcamp/model/todo/ToDosRepository.kt:6-7 | `getNewUid`: the identifier is none of those handed out before |
| Repository.GetTodoMeets | app/src/main/java/com/github/se/bootcamp/model/todo/ToDosRepository.kt:16-23 | `getTodo`: the to-do with the identifier, failing exactly when there is none |
| Repository.AddTodoMeets | app/src/main/java/com/github/se/bootcamp/model/todo/ToDosRepository.kt:25-30 | `addTodo`: the to-do is then among what `getAllTodos` returns, and nothing there before is lost |
| Repository.EditTodoMeets | app/src/main/java/com/github/se/bootcamp/model/todo/ToDosRepository.kt:32-39 | `editTodo`: one to-do with the identifier is replaced by the new value and nothing else changes; fails exactly when there is none |
| Repository.DeleteTodoMeets | app/src/main/java/com/github/se/bootcamp/model/todo/ToDosRepository.kt:41-47 | `deleteTodo`: one to-do with the identifier is removed and the rest keep their order; fails exactly when there is none |
| RepositoryLocal.LocalRepository.constructor | app/src/main/java/com/github/se/bootcamp/model/todo/ToDosRepositoryLocal.kt:5-7 | the list starts empty and the counter at 0 |
| RepositoryLocal.LocalRepository.GetNewUid | app/src/main/java/com/github/se/bootcamp/model/todo/ToDosRepositoryLocal.kt:9-11 | the identifier is the counter's decimal string, the counter goes up by one, the list is untouched, and the identifier is none of those handed out before |
| RepositoryLocal.LocalRepository.GetAllTodos | app/src/main/java/com/github/se/bootcamp/model/todo/ToDosRepositoryLocal.kt:13-15 | the current list, unchanged |
| RepositoryLocal.LocalRepository.GetTodo | app/src/main/java/com/github/se/bootcamp/model/todo/ToDosRepositoryLocal.kt:17-20 | the interface's `getTodo` contract: the first to-do with the identifier, failure exactly when there is none |
| RepositoryLocal.LocalRepository.AddTodo | app/src/main/java/com/github/se/bootcamp/model/todo/ToDosRepositoryLocal.kt:22-24 | the to-do is appended whatever its identifier, the counter is untouched, and the interface's `addTodo` contract holds |
| RepositoryLocal.LocalRepository.EditTodo | app/src/main/java/com/github/se/bootcamp/model/todo/ToDosRepositoryLocal.kt:26-33 | the first to-do with the identifier is replaced, a missing identifier fails and changes nothing, and the interface's `editTodo` contract holds |
| RepositoryLocal.LocalRepository.DeleteTodo | app/src/main/java/com/github/se/bootcamp/model/todo/ToDosRepositoryLocal.kt:35-42 | the first to-do with the identifier is removed, a missing identifier fails and changes nothing, and the interface's `deleteTodo` contract holds |
| RepositoryLocal.NextUidIsFresh | app/src/main/java/com/github/se/bootcamp/model/todo/ToDosRepository.kt:6-7 | the next identifier differs from every one handed out before |
| RepositoryLocal.UidsPairwiseDistinct | app/src/test/java/com/github/se/bootcamp/model/todo/ToDosRepositoryLocalTest.kt:48-55 | successive identifiers are pairwise distinct, and the first is "0" |
| RepositoryLocal.AddThenGet | app/src/test/java/com/github/se/bootcamp/model/todo/ToDosRepositoryLocalTest.kt:61-72 | after adding a to-do with a fresh identifier, `getTodo` returns it, and identifiers stay unique |
| RepositoryLocal.AddDuplicateIsShadowed | app/src/main/java/com/github/se/bootcamp/model/todo/ToDosRepositoryLocal.kt:17-24 | after adding a to-do whose identifier is taken, `getTodo` still returns the earlier one, and identifiers are no longer unique |
| RepositoryLocal.EditThenGet | app/src/test/java/com/github/se/bootcamp/model/todo/ToDosRepositoryLocalTest.kt:79-92 | an edit keeps the length, and `getTodo(id)` then returns the new value when it carries that identifier |
| RepositoryLocal.EditLeavesOthers | app/src/main/java/com/github/se/bootcamp/model/todo/ToDosRepositoryLocal.kt:26-33 | an edit changes what `getTodo` returns for no other identifier |
| RepositoryLocal.RemoveAt | app/src/main/java/com/github/se/bootcamp/model/todo/ToDosRepositoryLocal.kt:38 | `removeAt` shortens the list by one; the positions before the removed one are kept and the later ones move down by one, keeping their order |
| RepositoryLocal.RemoveAtKeepsUnique | app/src/main/java/com/github/se/bootcamp/model/todo/ToDosRepositoryLocal.kt:35-38 | removing one position of a list with unique identifiers removes its identifier and leaves the identifiers unique |
| RepositoryLocal.DeleteThenGet | app/src/test/java/com/github/se/bootcamp/model/todo/ToDosRepositoryLocalTest.kt:123-135 | on a list with unique identifiers, a delete shortens the list by one, the identifier is gone and identifiers stay unique |
| RepositoryLocal.DeleteLeavesOthers | app/src/main/java/com/github/se/bootcamp/model/todo/ToDosRepositoryLocal.kt:35-42 | a delete changes what `getTodo` returns for no other identifier |
| InMemoryRepository.ReplaceAll | app/src/androidTest/java/com/github/se/bootcamp/utils/InMemoryBootcampTest.kt:21-23 | `replaceAll`: same length, every to-do with the identifier replaced, every other kept |
| InMemoryRepository.RemoveAll | app/src/androidTest/java/com/github/se/bootcamp/utils/InMemoryBootcampTest.kt:25-27 | `removeIf`: no to-do with the identifier remains, every other one does, and the list is shorter exactly when the identifier was present |
| InMemoryRepository.InMemoryToDosRepository.constructor | app/src/androidTest/java/com/github/se/bootcamp/utils/InMemoryBootcampTest.kt:15 | the list is the one given |
| InMemoryRepository.InMemoryToDosRepository.Empty | app/src/androidTest/java/com/github/se/bootcamp/utils/InMemoryBootcampTest.kt:15 | the default argument: an empty list |
| InMemoryRepository.InMemoryToDosRepository.AddTodo | app/src/androidTest/java/com/github/se/bootcamp/utils/InMemoryBootcampTest.kt:17-19 | the to-do is appended without a duplicate check, meeting the interface's `addTodo` contract |
| InMemoryRepository.InMemoryToDosRepository.EditTodo | app/src/androidTest/java/com/github/se/bootcamp/utils/InMemoryBootcampTest.kt:21-23 | every matching to-do is replaced and the call never fails |
| InMemoryRepository.InMemoryToDosRepository.DeleteTodo | app/src/androidTest/java/com/github/se/bootcamp/utils/InMemoryBootcampTest.kt:25-27 | every matching to-do is removed and the call never fails |
| InMemoryRepository.InMemoryToDosRepository.GetNewUid | app/src/androidTest/java/com/github/se/bootcamp/utils/InMemoryBootcampTest.kt:29-31 | the identifier is the list's size in decimal, and nothing changes |
| InMemoryRepository.InMemoryToDosRepository.GetAllTodos | app/src/androidTest/java/com/github/se/bootcamp/utils/InMemoryBootcampTest.kt:33-35 | the current list, in insertion order |
| InMemoryRepository.InMemoryToDosRepository.GetTodo | app/src/androidTest/java/com/github/se/bootcamp/utils/InMemoryBootcampTest.kt:37-39 | the first to-do with the identifier, failure exactly when there is none |
| InMemoryRepository.EditMissingBreaksContract | app/src/androidTest/java/com/github/se/bootcamp/utils/InMemoryBootcampTest.kt:21-23 | editing a missing identifier is a silent no-op, which breaks the interface's `editTodo` contract |
| InMemoryRepository.DeleteMissingBreaksContract | app/src/androidTest/java/com/github/se/bootcamp/utils/InMemoryBootcampTest.kt:25-27 | deleting a missing identifier is a silent no-op, which breaks the interface's `deleteTodo` contract |
| InMemoryRepository.EditDuplicateBreaksContract | app/src/androidTest/java/com/github/se/bootcamp/utils/InMemoryBootcampTest.kt:21-23 | with two to-dos under one identifier both are replaced, which no single replacement allowed by the contract produces |
| InMemoryRepository.DeleteDuplicateBreaksContract | app/src/androidTest/java/com/github/se/bootcamp/utils/InMemoryBootcampTest.kt:25-27 | with two to-dos under one identifier both are removed, which the contract's single removal does not allow |
| InMemoryRepository.NoMatchRemovesNothing | app/src/androidTest/java/com/github/se/bootcamp/utils/InMemoryBootcampTest.kt:25-27 | without a match `removeIf` keeps the list as it is |
| InMemoryRepository.EditAgreesWhenUnique | app/src/main/java/com/github/se/bootcamp/model/todo/ToDosRepositoryLocal.kt:26-30 | on a list with unique identifiers the fake's edit and the local repository's edit give the same list |
| InMemoryRepository.DeleteAgreesWhenUnique | app/src/main/java/com/github/se/bootcamp/model/todo/ToDosRepositoryLocal.kt:35-38 | on a list with unique identifiers the fake's delete and the local repository's delete give the same list |
| InMemoryRepository.RemoveAllAppend | app/src/androidTest/java/com/github/se/bootcamp/utils/InMemoryBootcampTest.kt:25-27 | `removeIf` works element by element: removing from a concatenation is removing from each part |
| InMemoryRepository.UidRepeatsAfterDelete | app/src/androidTest/java/com/github/se/bootcamp/utils/InMemoryBootcampTest.kt:29-31 | after adding a to-do and deleting it again, `getNewUid` repeats the identifier it gave before the addition |
| InMemoryRepository.UidMayBeTaken | app/src/androidTest/java/com/github/se/bootcamp/utils/InMemoryBootcampTest.kt:29-31 | `getNewUid` can return an identifier already in the list |
| RepositoryFirestore.GetString | app/src/main/java/com/github/se/bootcamp/model/todo/ToDosRepositoryFirestore.kt:82-85 | a string field is read exactly when present with a string value |
| RepositoryFirestore.GetTimestamp | app/src/main/java/com/github/se/bootcamp/model/todo/ToDosRepositoryFirestore.kt:85 | a timestamp field is read exactly when present with a timestamp value |
| RepositoryFirestore.LocationOf | app/src/main/java/com/github/se/bootcamp/model/todo/ToDosRepositoryFirestore.kt:86-93 | a location is decoded exactly when the `location` field holds a map |
| RepositoryFirestore.DocumentToToDo | app/src/main/java/com/github/se/bootcamp/model/todo/ToDosRepositoryFirestore.kt:79-111 | a decoded to-do takes the document's id as its identifier and the decoded location |
| RepositoryFirestore.Encode | app/src/main/java/com/github/se/bootcamp/model/todo/ToDosRepositoryFirestore.kt:37-43 | `set(toDo)` writes the eight fields of the record, the identifier and owner as strings and a missing location as null |
| RepositoryFirestore.DecodeSucceedsExactly | app/src/main/java/com/github/se/bootcamp/model/todo/ToDosRepositoryFirestore.kt:82-110 | decoding succeeds exactly when name, description, assignee, due date, owner and a valid status name are present with the right types |
| RepositoryFirestore.StoredUidIgnored | app/src/main/java/com/github/se/bootcamp/model/todo/ToDosRepositoryFirestore.kt:81 | the stored `uid` field plays no part in decoding |
| RepositoryFirestore.LocationDefaults | app/src/main/java/com/github/se/bootcamp/model/todo/ToDosRepositoryFirestore.kt:86-93 | an absent or non-map location decodes to none; a map always decodes to a location whose latitude and longitude are each the stored Double or else 0.0, and whose name is the stored String or else "" |
| RepositoryFirestore.EncodeDecode | app/src/main/java/com/github/se/bootcamp/model/todo/ToDosRepositoryFirestore.kt:79-111 | a to-do stored with `set` decodes back to itself, under the document's id |
| RepositoryFirestore.TodoAt | app/src/main/java/com/github/se/bootcamp/model/todo/ToDosRepositoryFirestore.kt:32-35 | reading a document succeeds exactly when it exists and decodes, with the document's id as identifier |
| RepositoryFirestore.OwnedTodos | app/src/main/java/com/github/se/bootcamp/model/todo/ToDosRepositoryFirestore.kt:26-29 | the query on `ownerId` followed by `mapNotNull`: the decodable documents whose stored owner is the user, decoded |
| RepositoryFirestore.GetAfterSet | app/src/main/java/com/github/se/bootcamp/model/todo/ToDosRepositoryFirestore.kt:41-43 | after `set` under an id, reading that id gives the stored to-do with the id as identifier |
| RepositoryFirestore.OwnedTodosBelongToUser | app/src/main/java/com/github/se/bootcamp/model/todo/ToDosRepositoryFirestore.kt:21-30 | `getAllTodos` returns exactly the decodable documents owned by the signed-in user |
| RepositoryFirestore.DuplicateAddLeavesOne | app/src/androidTest/java/com/github/se/bootcamp/model/todo/ToDosRepositoryFirestoreTest.kt:55-73 | adding two to-dos with the same identifier leaves one document, holding the second |
| RepositoryFirestore.FirestoreRepository.constructor | app/src/main/java/com/github/se/bootcamp/model/todo/ToDosRepositoryFirestore.kt:14 | the store holds the documents given |
| RepositoryFirestore.FirestoreRepository.GetAllTodos | app/src/main/java/com/github/se/bootcamp/model/todo/ToDosRepositoryFirestore.kt:21-30 | fails exactly when no user is signed in; otherwise the user's decodable to-dos |
| RepositoryFirestore.FirestoreRepository.GetTodo | app/src/main/java/com/github/se/bootcamp/model/todo/ToDosRepositoryFirestore.kt:32-35 | fails exactly when the document does not decode |
| RepositoryFirestore.FirestoreRepository.AddTodo | app/src/main/java/com/github/se/bootcamp/model/todo/ToDosRepositoryFirestore.kt:37-39 | the document keyed by the to-do's identifier is overwritten, and reads back as the to-do |
| RepositoryFirestore.FirestoreRepository.EditTodo | app/src/main/java/com/github/se/bootcamp/model/todo/ToDosRepositoryFirestore.kt:41-43 | the document keyed by the id is created or overwritten, and reads back as the new value under that id |
| RepositoryFirestore.FirestoreRepository.DeleteTodo | app/src/main/java/com/github/se/bootcamp/model/todo/ToDosRepositoryFirestore.kt:45-47 | the document is removed, whether or not it existed, and no longer reads |
| EditToDoScreen.NextStatus | app/src/main/java/com/github/se/bootcamp/ui/overview/EditToDo.kt:273-280 | the next status is the one after in declaration order, wrapping from ARCHIVED to CREATED |
| EditToDoScreen.NoFixedPoint | app/src/main/java/com/github/se/bootcamp/ui/overview/EditToDo.kt:273-280 | pressing the status button always changes the status |
| EditToDoScreen.PressOrdinal | app/src/main/java/com/github/se/bootcamp/ui/overview/EditToDo.kt:273-280 | n presses advance the ordinal by n modulo 4 |
| EditToDoScreen.FourPressesIdentity | app/src/main/java/com/github/se/bootcamp/ui/overview/EditToDo.kt:273-280 | four presses give the status back |
| EditToDoScreen.PressesToReach | app/src/androidTest/java/com/github/se/bootcamp/utils/BootcampTest.kt:321-327 | (target − current + 4) mod 4 presses reach the target, and no fewer do |
| EditToDoScreen.SuggestionLabel | app/src/main/java/com/github/se/bootcamp/ui/overview/EditToDo.kt:184-186 | the label is the name when at most 30 long, otherwise its first 30 characters and "..."; never longer than 33 and always starting with a prefix of the name |
| EditToDoScreen.ShownSuggestions | app/src/main/java/com/github/se/bootcamp/ui/overview/EditToDo.kt:180 | `take(3)`: a prefix of the list, all of it when there are at most three suggestions and exactly three otherwise |
| EditToDoScreen.DropdownRows | app/src/main/java/com/github/se/bootcamp/ui/overview/EditToDo.kt:180-212 | every suggestion when there are at most three, otherwise three suggestions and "More..."; "More..." appears exactly when some suggestion is not shown |
| FormValidation.BlankError | app/src/main/java/com/github/se/bootcamp/ui/overview/AddTodoViewModel.kt:109-129 | a text field's message is set exactly when the text is blank, and is the field's message |
| FormValidation.DueDateError | app/src/main/java/com/github/se/bootcamp/ui/overview/AddTodoViewModel.kt:131-138 | the due date's message is set exactly when the date does not parse |
| FormValidation.OwnerId | app/src/main/java/com/github/se/bootcamp/ui/overview/AddTodoViewModel.kt:81 | the owner recorded is the signed-in user's uid, or "None (B2)" when nobody is signed in |
| FormValidation.SuggestionsAfter | app/src/main/java/com/github/se/bootcamp/ui/overview/AddTodoViewModel.kt:144-160 | no suggestions for an empty query or a failed search, otherwise the search's results |
| AddTodoViewModel.ValidFormIsComplete | app/src/main/java/com/github/se/bootcamp/ui/overview/AddTodoViewModel.kt:74-80 | on a valid form the due date parses (so the `!!` cannot fail) and no required field is blank |
| AddTodoViewModel.AddTodoUIState.IsValid | app/src/main/java/com/github/se/bootcamp/ui/overview/AddTodoViewModel.kt:38-47 | `isValid`: no field flagged and title, description, assignee and due date all non-empty |
| AddTodoViewModel.AddTodoViewModel.constructor | app/src/main/java/com/github/se/bootcamp/ui/overview/AddTodoViewModel.kt:24-37 | every field at its default |
| AddTodoViewModel.AddTodoViewModel.ClearErrorMsg | app/src/main/java/com/github/se/bootcamp/ui/overview/AddTodoViewModel.kt:64-66 | only the error message changes, to none |
| AddTodoViewModel.AddTodoViewModel.SetErrorMsg | app/src/main/java/com/github/se/bootcamp/ui/overview/AddTodoViewModel.kt:69-71 | only the error message changes |
| AddTodoViewModel.AddTodoViewModel.AddTodo | app/src/main/java/com/github/se/bootcamp/ui/overview/AddTodoViewModel.kt:74-95 | an invalid form sets the error, returns false and submits nothing; a valid one submits a CREATED to-do built from the form under the new identifier, clears the error and returns true |
| AddTodoViewModel.AddTodoViewModel.AddToDoToRepositoryCompleted | app/src/main/java/com/github/se/bootcamp/ui/overview/AddTodoViewModel.kt:97-106 | a failed addition shows "Failed to add ToDo: " and the failure's message |
| AddTodoViewModel.AddTodoViewModel.SetTitle | app/src/main/java/com/github/se/bootcamp/ui/overview/AddTodoViewModel.kt:109-113 | the title is stored and flagged exactly when blank; nothing else changes |
| AddTodoViewModel.AddTodoViewModel.SetDescription | app/src/main/java/com/github/se/bootcamp/ui/overview/AddTodoViewModel.kt:115-121 | the description is stored and flagged exactly when blank; nothing else changes |
| AddTodoViewModel.AddTodoViewModel.SetAssigneeName | app/src/main/java/com/github/se/bootcamp/ui/overview/AddTodoViewModel.kt:123-129 | the assignee is stored and flagged exactly when blank; nothing else changes |
| AddTodoViewModel.AddTodoViewModel.SetDueDate | app/src/main/java/com/github/se/bootcamp/ui/overview/AddTodoViewModel.kt:131-138 | the date is stored and flagged exactly when it does not parse; nothing else changes |
| AddTodoViewModel.AddTodoViewModel.SetLocation | app/src/main/java/com/github/se/bootcamp/ui/overview/AddTodoViewModel.kt:140-142 | the location is selected and its name becomes the query |
| AddTodoViewModel.AddTodoViewModel.SetLocationQuery | app/src/main/java/com/github/se/bootcamp/ui/overview/AddTodoViewModel.kt:144-160 | the query is stored; an empty one empties the suggestions, another one shows the search's results |
| EditTodoViewModel.LoadedState | app/src/main/java/com/github/se/bootcamp/ui/overview/EditTodoViewModel.kt:82-92 | the loaded form with the date rendered in ASCII "dd/MM/yyyy": it keeps the consistency of fields and messages, and its due date parses back to the to-do's |
| EditTodoViewModel.FormToDo | app/src/main/java/com/github/se/bootcamp/ui/overview/EditTodoViewModel.kt:111-127 | the submitted to-do carries the id, the chosen status and location, and the parsed due date |
| EditTodoViewModel.ValidFormParses | app/src/main/java/com/github/se/bootcamp/ui/overview/EditTodoViewModel.kt:105-111 | on a valid form whose due-date message was set by the setters or by `LoadedState`, the due date parses, so the `!!` cannot fail |
| EditTodoViewModel.LoadedStateAsWritten | app/src/main/java/com/github/se/bootcamp/ui/overview/EditTodoViewModel.kt:82-92 | the loaded form holds whatever text the device's locale and time zone rendered, with no due-date message, and is valid exactly when no text field is empty |
| EditTodoViewModel.LoadedFormCanCrashSave | app/src/main/java/com/github/se/bootcamp/ui/overview/EditTodoViewModel.kt:86-111 | a loaded form rendered as year 10000 is valid but its due date does not parse |
| EditTodoViewModel.EditTodoUIState.IsValid | app/src/main/java/com/github/se/bootcamp/ui/overview/EditTodoViewModel.kt:41-50 | `isValid`: the same conjunction as the add form |
| EditTodoViewModel.LoadThenSave | app/src/main/java/com/github/se/bootcamp/ui/overview/EditTodoViewModel.kt:77-128 | loading a to-do and saving it unchanged submits the same to-do, owned by the signed-in user, with the same calendar due date |
| EditTodoViewModel.EditTodoViewModel.constructor | app/src/main/java/com/github/se/bootcamp/ui/overview/EditTodoViewModel.kt:26-40 | every field at its default |
| EditTodoViewModel.EditTodoViewModel.ClearErrorMsg | app/src/main/java/com/github/se/bootcamp/ui/overview/EditTodoViewModel.kt:63-65 | only the error message changes, to none |
| EditTodoViewModel.EditTodoViewModel.SetErrorMsg | app/src/main/java/com/github/se/bootcamp/ui/overview/EditTodoViewModel.kt:68-70 | only the error message changes |
| EditTodoViewModel.EditTodoViewModel.LoadTodo | app/src/main/java/com/github/se/bootcamp/ui/overview/EditTodoViewModel.kt:77-98 | a fetched to-do replaces the whole form; a failure only shows "Failed to load ToDo: " and its message |
| EditTodoViewModel.EditTodoViewModel.EditTodo | app/src/main/java/com/github/se/bootcamp/ui/overview/EditTodoViewModel.kt:105-129 | an invalid form sets the error, returns false and submits nothing; a valid one submits the form's to-do under the id, clears the error and returns true |
| EditTodoViewModel.EditTodoViewModel.EditTodoToRepositoryCompleted | app/src/main/java/com/github/se/bootcamp/ui/overview/EditTodoViewModel.kt:136-145 | a failed edit shows "Failed to add ToDo: " and the failure's message |
| EditTodoViewModel.EditTodoViewModel.DeleteToDo | app/src/main/java/com/github/se/bootcamp/ui/overview/EditTodoViewModel.kt:153-162 | the delete is issued for the identifier given; a failed delete shows "Failed to delete ToDo: " and the failure's message, a success changes nothing |
| EditTodoViewModel.EditTodoViewModel.SetTitle | app/src/main/java/com/github/se/bootcamp/ui/overview/EditTodoViewModel.kt:166-170 | the title is stored and flagged exactly when blank; nothing else changes |
| EditTodoViewModel.EditTodoViewModel.SetDescription | app/src/main/java/com/github/se/bootcamp/ui/overview/EditTodoViewModel.kt:172-178 | the description is stored and flagged exactly when blank; nothing else changes |
| EditTodoViewModel.EditTodoViewModel.SetAssigneeName | app/src/main/java/com/github/se/bootcamp/ui/overview/EditTodoViewModel.kt:180-186 | the assignee is stored and flagged exactly when blank; nothing else changes |
| EditTodoViewModel.EditTodoViewModel.SetDueDate | app/src/main/java/com/github/se/bootcamp/ui/overview/EditTodoViewModel.kt:188-195 | the date is stored and flagged exactly when it does not parse; nothing else changes |
| EditTodoViewModel.EditTodoViewModel.SetLocation | app/src/main/java/com/github/se/bootcamp/ui/overview/EditTodoViewModel.kt:197-199 | the location is selected and its name becomes the query |
| EditTodoViewModel.EditTodoViewModel.SetStatus | app/src/main/java/com/github/se/bootcamp/ui/overview/EditTodoViewModel.kt:201-203 | only the status changes |
| EditTodoViewModel.EditTodoViewModel.SetLocationQuery | app/src/main/java/com/github/se/bootcamp/ui/overview/EditTodoViewModel.kt:205-221 | the query is stored; an empty one empties the suggestions, another one shows the search's results |
| MapViewModel.ToLatLng | app/src/main/java/com/github/se/bootcamp/ui/map/MapViewModel.kt:30-32 | the coordinates of a location |
| MapViewModel.Localizable | app/src/main/java/com/github/se/bootcamp/ui/map/MapViewModel.kt:61 | the to-dos kept all have a location, and there are no more of them than before |
| MapViewModel.MapTarget | app/src/main/java/com/github/se/bootcamp/ui/map/MapViewModel.kt:62-63 | the camera target: the first shown to-do's location, or EPFL when none is shown |
| MapViewModel.LocalizableMembers | app/src/main/java/com/github/se/bootcamp/ui/map/MapViewModel.kt:61 | a to-do is shown exactly when it is in the repository's list and has a location |
| MapViewModel.LocalizableAppend | app/src/main/java/com/github/se/bootcamp/ui/map/MapViewModel.kt:61 | the filter keeps the order: filtering a concatenation concatenates the filtered parts |
| MapViewModel.LocalizableIdempotent | app/src/main/java/com/github/se/bootcamp/ui/map/MapViewModel.kt:61 | filtering the shown to-dos again changes nothing |
| MapViewModel.MapTargetIsFirstLocated | app/src/main/java/com/github/se/bootcamp/ui/map/MapViewModel.kt:27-62 | the target is the first to-do's location that has one, or EPFL when none has |
| MapViewModel.MapViewModel.constructor | app/src/main/java/com/github/se/bootcamp/ui/map/MapViewModel.kt:17-21 | target (0, 0), no to-dos, no message |
| MapViewModel.MapViewModel.SetErrorMsg | app/src/main/java/com/github/se/bootcamp/ui/map/MapViewModel.kt:46-48 | only the error message changes |
| MapViewModel.MapViewModel.ClearErrorMsg | app/src/main/java/com/github/se/bootcamp/ui/map/MapViewModel.kt:50-52 | only the error message changes, to none; to-dos and target are kept |
| MapViewModel.MapViewModel.FetchLocalizableTodos | app/src/main/java/com/github/se/bootcamp/ui/map/MapViewModel.kt:58-68 | on success the whole state is replaced by the located to-dos, their target and no message; on failure only the message changes |
| MapViewModel.MapViewModel.RefreshUIState | app/src/main/java/com/github/se/bootcamp/ui/map/MapViewModel.kt:54-56 | the same as fetching |

## Left out

- Coroutines: the order in which a view-model's launched calls complete is not modelled. The completions of `addTodo`, `editTodo`, `loadTodo` and the map fetch are separate methods, applied in whatever order the caller chooses. `SetLocationQuery` and `DeleteToDo` instead take their call's answer in the same step that issues it: in the application the query is stored first and the search results arrive later, so results for an older query can land after a newer query (even an empty one), which the model cannot express.
- Firestore's `getNewUid` draws a random document id. Randomness is outside the model.
- The Firestore SDK's transport failures, its `whereEqualTo` query engine and its data-class mapping are outside the model. `RepositoryFirestore.Encode` states the stored fields directly.
- The security rules and their TypeScript tests are outside the model.
- The location search is outside the model. Its HTTP requests and JSON parsing become the `search` parameter of `SetLocationQuery`.
- Authentication is outside the model. The signed-in user is a parameter.
- Time of day and time zones are not modelled. A `Timestamp` is a calendar date.
- DateParser.MatchesDatePattern: takes `\d` as an ASCII digit, as on the desktop JVM. On Android the regular expression runs on ICU, where `\d` matches every Unicode decimal digit, and `SimpleDateFormat` reads those digits too, so native-digit text such as "٠١/٠١/١٩٧٠" is accepted there and rejected here. `DateParser.FormatParse` and `DateParser.ParseInjective` are therefore stated for ASCII text only.
- `loadTodo` formats with the device's default locale. The model's `LoadedState` renders ASCII digits, as `Locale.ROOT` does; `LoadedStateAsWritten` takes the rendered text as it comes.
- AddTodoViewModel.AddTodoViewModel.AddTodo and EditTodoViewModel.EditTodoViewModel.EditTodo: return `true` and submit a to-do for a due date of 1 or 2 January 0001, which `DateParser.parse` accepts as Julian dates (`DateParser.AcceptsFirstDaysOfEra`). In the application `Timestamp(date)` throws `IllegalArgumentException` for them, because Firebase's range starts at 1 January 0001 of the proleptic Gregorian calendar, and nothing catches it; in zones east of UTC "03/01/0001" throws too. The model has no time zones and no uncaught exceptions.
- EditTodoViewModel.ValidFormParses: holds for forms whose due-date message was checked. A form loaded as the application renders it need not be (see Findings), and saving it unchanged then throws at the `!!`.
- Exception messages are strings here. A Kotlin exception whose `message` is null shows "null" after the failure prefix.
- Aliasing is not modelled. `getAllTodos` of the local repository and of the fake returns the live list, which later calls mutate; here the caller receives a value.
- Text.IsBlank: covers the whitespace characters of Latin-1. Kotlin's `isBlank` also accepts the other Unicode space separators.
- Text.Lowercase: lower-cases only ASCII letters. That is enough for the status names, which are all the text it is applied to.
- RepositoryLocal.LocalRepository.GetNewUid: does not model 32-bit overflow of `counter`. The counter is unbounded, so identifiers never repeat.
- Coordinates are reals that are only copied. Floating-point behaviour plays no part, and neither does the clamping of latitude to [-90, 90] and the wrapping of longitude that Google's `LatLng` constructor applies (`MapViewModel.ToLatLng` copies both values).
- The Compose screens, navigation, `OverviewViewModel` and the sign-in flow are outside the model.
- Of `EditToDo.kt`, only the status cycle and the suggestion dropdown rules are modelled.
- `EditTodoViewModel` reports a failed edit with the same "Failed to add ToDo: " text as a failed addition. The model keeps that wording.
- EditTodoViewModel.LoadThenSave: the same to-do only up to the time of day of its due date. The application shows the due date in the device's time zone and saves the parsed text as local midnight, so a due date at another time of day comes back at midnight, and one stored from another time zone can move to another day. A `Timestamp` here is a calendar date, so neither shows.
- EditToDoScreen.SuggestionLabel: lengths are counted in characters, while Kotlin's `take(30)` and `length` count UTF-16 units. A name with characters outside the Basic Multilingual Plane is cut later here than in the application, and the application's cut can split a surrogate pair, which a Dafny string cannot hold.
- Text.CapitalizeFirst: upper-cases an ASCII first letter only. Kotlin's `titlecase(Locale.getDefault())` depends on the locale and can lengthen the text ('ß' becomes "Ss"); the status names it is applied to are ASCII.
- Firestore document paths are not checked: `document(id)` throws on an empty identifier and reads an identifier containing '/' as a nested path, while `FirestoreRepository` accepts any string as a key.

## Findings

| source | as written | input that shows it | evidently intended | confidence | as-written member | corrected member |
|---|---|---|---|---|---|---|
| app/src/main/java/com/github/se/bootcamp/ui/overview/EditTodoViewModel.kt:86-111 | `loadTodo` renders the due date with the device's default locale and time zone and sets no due-date message; `editTodo` then parses it with `DateParser.parse` and applies `!!` | 31/12/9999 23:30 UTC seen at UTC+1 renders as "01/01/10000", which fails `\d{4}$`: the form is valid and `parse` returns null, so saving unchanged throws | the loaded text is one `DateParser.parse` reads back, so saving a loaded to-do unchanged keeps its date | medium, not executed | EditTodoViewModel.LoadedFormCanCrashSave | EditTodoViewModel.LoadThenSave |
