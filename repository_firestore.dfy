/**
 * `ToDosRepositoryFirestore`: to-dos kept as documents of the "todos" collection, keyed
 * by identifier. The store is a map from document identifier to document; a document is
 * a map from field name to an untyped value, decoded by `documentToToDo`.
 */
module RepositoryFirestore {
  import opened Wrappers
  import opened Calendar
  import opened ToDoModel

  /** A Firestore field value, with the types the decoder distinguishes. */
  datatype Value =
    | StringValue(s: string)
    | TimestampValue(t: Timestamp)
    | DoubleValue(d: real)
    | LongValue(n: int)
    | BooleanValue(b: bool)
    | NullValue
    | MapValue(fields: map<string, Value>)

  type Document = map<string, Value>

  const NotFoundMsg: string := "ToDosRepositoryFirestore: ToDo not found"
  const NotLoggedInMsg: string := "ToDosRepositoryFirestore: User not logged in."

  /**
   * `getString(field)`: the string stored under `field`. An absent or null field gives
   * `null`; a field of another type makes the SDK throw, which the decoder's `catch` turns
   * into `null` as well, so both are `None` here.
   */
  function GetString(doc: Document, field: string): (r: Option<string>)
    ensures r.Some? <==> field in doc && doc[field].StringValue?
  {
    if field in doc && doc[field].StringValue? then Some(doc[field].s) else None
  }

  /** `getTimestamp(field)`, on the same terms as `GetString`. */
  function GetTimestamp(doc: Document, field: string): (r: Option<Timestamp>)
    ensures r.Some? <==> field in doc && doc[field].TimestampValue?
  {
    if field in doc && doc[field].TimestampValue? then Some(doc[field].t) else None
  }

  /** `it[field] as? Double ?: 0.0`. */
  function DoubleOrZero(m: map<string, Value>, field: string): real
  {
    if field in m && m[field].DoubleValue? then m[field].d else 0.0
  }

  /** `it[field] as? String ?: ""`. */
  function StringOrEmpty(m: map<string, Value>, field: string): string
  {
    if field in m && m[field].StringValue? then m[field].s else ""
  }

  /** The `location` field decoded: absent unless it is a map, with defaults inside. */
  function LocationOf(doc: Document): (r: Option<Location>)
    ensures r.Some? <==> "location" in doc && doc["location"].MapValue?
  {
    if "location" in doc && doc["location"].MapValue? then
      var m := doc["location"].fields;
      Some(Location(DoubleOrZero(m, "latitude"), DoubleOrZero(m, "longitude"), StringOrEmpty(m, "name")))
    else None
  }

  /**
   * `documentToToDo`: the to-do a document holds, or `None` as soon as a required field
   * is missing or ill-typed or the status names no `ToDoStatus`. The identifier is the
   * document's, never a stored field.
   */
  function DocumentToToDo(id: string, doc: Document): (r: Option<ToDo>)
    ensures r.Some? ==> r.value.uid == id && r.value.location == LocationOf(doc)
  {
    var name := GetString(doc, "name");
    if name.None? then None else
    var description := GetString(doc, "description");
    if description.None? then None else
    var assigneeName := GetString(doc, "assigneeName");
    if assigneeName.None? then None else
    var dueDate := GetTimestamp(doc, "dueDate");
    if dueDate.None? then None else
    var location := LocationOf(doc);
    var statusString := GetString(doc, "status");
    if statusString.None? then None else
    var status := ValueOf(statusString.value);
    if status.None? then None else
    var ownerId := GetString(doc, "ownerId");
    if ownerId.None? then None else
    Some(ToDo(id, name.value, description.value, assigneeName.value, dueDate.value,
              location, status.value, ownerId.value))
  }

  /**
   * The document `set(toDo)` writes: one field per property of the data class, the status
   * by its name and a missing location as null. This is the SDK's object mapping.
   */
  function Encode(t: ToDo): (doc: Document)
    ensures doc.Keys == {"uid", "name", "description", "assigneeName", "dueDate", "location", "status", "ownerId"}
    ensures doc["uid"] == StringValue(t.uid) && doc["ownerId"] == StringValue(t.ownerId)
    ensures doc["location"].NullValue? <==> t.location.None?
  {
    map[
      "uid" := StringValue(t.uid),
      "name" := StringValue(t.name),
      "description" := StringValue(t.description),
      "assigneeName" := StringValue(t.assigneeName),
      "dueDate" := TimestampValue(t.dueDate),
      "location" := match t.location
        case None => NullValue
        case Some(l) => MapValue(map[
          "latitude" := DoubleValue(l.latitude),
          "longitude" := DoubleValue(l.longitude),
          "name" := StringValue(l.name)]),
      "status" := StringValue(Name(t.status)),
      "ownerId" := StringValue(t.ownerId)]
  }

  /** `document(id).get()`: a missing document reads as one with no fields. */
  function Snapshot(documents: map<string, Document>, id: string): Document
  {
    if id in documents then documents[id] else map[]
  }

  /** `getTodo`: the decoded document, failing when it does not decode. */
  function TodoAt(documents: map<string, Document>, id: string): (r: Result<ToDo>)
    ensures r.Ok? <==> DocumentToToDo(id, Snapshot(documents, id)).Some?
    ensures r.Ok? ==> id in documents && r.value.uid == id
  {
    match DocumentToToDo(id, Snapshot(documents, id))
    case Some(t) => Ok(t)
    case None => Err(NotFoundMsg)
  }

  /** `whereEqualTo("ownerId", user)` followed by `mapNotNull { documentToToDo(it) }`. */
  function OwnedTodos(documents: map<string, Document>, user: string): set<ToDo>
  {
    set id | id in documents
               && "ownerId" in documents[id] && documents[id]["ownerId"] == StringValue(user)
               && DocumentToToDo(id, documents[id]).Some?
      :: DocumentToToDo(id, documents[id]).value
  }

  class FirestoreRepository {
    /** The "todos" collection. */
    var documents: map<string, Document>

    constructor (documents: map<string, Document>)
      ensures this.documents == documents
    {
      this.documents := documents;
    }

    /** `getAllTodos`: fails with no signed-in user, else the user's decodable to-dos. */
    method GetAllTodos(currentUser: Option<string>) returns (r: Result<set<ToDo>>)
      ensures r.Err? <==> currentUser.None?
      ensures r.Ok? ==> r.value == OwnedTodos(documents, currentUser.value)
      ensures r.Ok? ==> forall t :: t in r.value ==> t.ownerId == currentUser.value
    {
      if currentUser.None? {
        return Err(NotLoggedInMsg);
      }
      var todos := OwnedTodos(documents, currentUser.value);
      OwnedTodosBelongToUser(documents, currentUser.value);
      r := Ok(todos);
    }

    /** `getTodo`: the document under `id`, decoded; throws when it does not decode. */
    method GetTodo(id: string) returns (r: Result<ToDo>)
      ensures r == TodoAt(documents, id)
      ensures r.Err? <==> DocumentToToDo(id, Snapshot(documents, id)).None?
    {
      var document := Snapshot(documents, id);
      var decoded := DocumentToToDo(id, document);
      if decoded.None? {
        return Err(NotFoundMsg);
      }
      r := Ok(decoded.value);
    }

    /** `addTodo`: the document keyed by the to-do's identifier is overwritten. */
    method AddTodo(toDo: ToDo)
      modifies this
      ensures documents == old(documents)[toDo.uid := Encode(toDo)]
      ensures TodoAt(documents, toDo.uid) == Ok(toDo)
    {
      documents := documents[toDo.uid := Encode(toDo)];
      GetAfterSet(old(documents), toDo.uid, toDo);
    }

    /** `editTodo`: the same overwrite under `id`, creating the document if it is missing. */
    method EditTodo(id: string, newValue: ToDo)
      modifies this
      ensures documents == old(documents)[id := Encode(newValue)]
      ensures TodoAt(documents, id) == Ok(newValue.(uid := id))
    {
      documents := documents[id := Encode(newValue)];
      GetAfterSet(old(documents), id, newValue);
    }

    /** `deleteTodo`: the document is removed; a missing one is no error. */
    method DeleteTodo(id: string)
      modifies this
      ensures documents == old(documents) - {id}
      ensures TodoAt(documents, id).Err?
    {
      documents := documents - {id};
    }
  }

  /** A to-do written and decoded again under the same identifier is unchanged. */
  lemma EncodeDecode(id: string, t: ToDo)
    ensures DocumentToToDo(id, Encode(t)) == Some(t.(uid := id))
  {
    var doc := Encode(t);
    assert GetString(doc, "status") == Some(Name(t.status));
    ValueOfName(t.status, Name(t.status));
    match t.location
    case None =>
      assert LocationOf(doc) == None;
    case Some(l) =>
      assert LocationOf(doc) == Some(l);
  }

  /** `getTodo` after a write under `id` returns what was written, with identifier `id`. */
  lemma GetAfterSet(documents: map<string, Document>, id: string, t: ToDo)
    ensures TodoAt(documents[id := Encode(t)], id) == Ok(t.(uid := id))
  {
    EncodeDecode(id, t);
  }

  /** Which documents decode: every required field present with its type, and a known status. */
  lemma DecodeSucceedsExactly(id: string, doc: Document)
    ensures DocumentToToDo(id, doc).Some? <==>
      && GetString(doc, "name").Some?
      && GetString(doc, "description").Some?
      && GetString(doc, "assigneeName").Some?
      && GetTimestamp(doc, "dueDate").Some?
      && GetString(doc, "status").Some? && ValueOf(GetString(doc, "status").value).Some?
      && GetString(doc, "ownerId").Some?
  {
  }

  /** A stored "uid" field plays no part in decoding. */
  lemma StoredUidIgnored(id: string, doc: Document, v: Value)
    ensures DocumentToToDo(id, doc["uid" := v]) == DocumentToToDo(id, doc)
  {
    var doc' := doc["uid" := v];
    assert forall f :: f != "uid" ==> (f in doc' <==> f in doc) && (f in doc ==> doc'[f] == doc[f]);
    assert GetString(doc', "name") == GetString(doc, "name");
    assert GetString(doc', "description") == GetString(doc, "description");
    assert GetString(doc', "assigneeName") == GetString(doc, "assigneeName");
    assert GetTimestamp(doc', "dueDate") == GetTimestamp(doc, "dueDate");
    assert LocationOf(doc') == LocationOf(doc);
    assert GetString(doc', "status") == GetString(doc, "status");
    assert GetString(doc', "ownerId") == GetString(doc, "ownerId");
  }

  /**
   * The defaults of the location decoder: no location unless the field is a map; in a map,
   * each coordinate is the stored Double or else 0.0, and the name the stored String or
   * else "", each field on its own.
   */
  lemma LocationDefaults(doc: Document)
    ensures "location" !in doc ==> LocationOf(doc) == None
    ensures "location" in doc && !doc["location"].MapValue? ==> LocationOf(doc) == None
    ensures "location" in doc && doc["location"].MapValue? ==>
      var m := doc["location"].fields;
      && LocationOf(doc).Some?
      && LocationOf(doc).value.latitude ==
           (if "latitude" in m && m["latitude"].DoubleValue? then m["latitude"].d else 0.0)
      && LocationOf(doc).value.longitude ==
           (if "longitude" in m && m["longitude"].DoubleValue? then m["longitude"].d else 0.0)
      && LocationOf(doc).value.name ==
           (if "name" in m && m["name"].StringValue? then m["name"].s else "")
    ensures "location" in doc && doc["location"] == MapValue(map[]) ==>
      LocationOf(doc) == Some(Location(0.0, 0.0, ""))
    ensures ("location" in doc && doc["location"].MapValue? && "latitude" in doc["location"].fields
             && doc["location"].fields["latitude"].LongValue?) ==> LocationOf(doc).value.latitude == 0.0
  {
  }

  /**
   * Every to-do `getAllTodos` returns belongs to the user and is what `getTodo` returns
   * for its identifier; every decodable document of the user's is returned.
   */
  lemma OwnedTodosBelongToUser(documents: map<string, Document>, user: string)
    ensures forall t :: t in OwnedTodos(documents, user) ==>
      t.ownerId == user && t.uid in documents && TodoAt(documents, t.uid) == Ok(t)
    ensures forall id ::
      (id in documents && DocumentToToDo(id, documents[id]).Some?
       && DocumentToToDo(id, documents[id]).value.ownerId == user) ==>
      DocumentToToDo(id, documents[id]).value in OwnedTodos(documents, user)
  {
    forall t | t in OwnedTodos(documents, user)
      ensures t.ownerId == user && t.uid in documents && TodoAt(documents, t.uid) == Ok(t)
    {
      var id :| id in documents && "ownerId" in documents[id] && documents[id]["ownerId"] == StringValue(user)
        && DocumentToToDo(id, documents[id]) == Some(t);
      assert GetString(documents[id], "ownerId") == Some(user);
    }
  }

  /** A collection holding one encoded to-do gives that to-do to its owner. */
  lemma OwnedOfOneDocument(id: string, t: ToDo)
    ensures OwnedTodos(map[id := Encode(t)], t.ownerId) == {t.(uid := id)}
  {
    var documents := map[id := Encode(t)];
    EncodeDecode(id, t);
    assert documents[id]["ownerId"] == StringValue(t.ownerId);
    assert t.(uid := id) in OwnedTodos(documents, t.ownerId);
  }

  /** Two adds under one identifier leave one document, holding the second to-do. */
  lemma DuplicateAddLeavesOne(documents: map<string, Document>, a: ToDo, b: ToDo)
    requires a.uid == b.uid && documents == map[]
    ensures var after := documents[a.uid := Encode(a)][b.uid := Encode(b)];
      && |after| == 1
      && TodoAt(after, a.uid) == Ok(b)
      && OwnedTodos(after, b.ownerId) == {b}
  {
    var after := documents[a.uid := Encode(a)][b.uid := Encode(b)];
    assert after == map[b.uid := Encode(b)];
    EncodeDecode(b.uid, b);
    OwnedOfOneDocument(b.uid, b);
  }
}
