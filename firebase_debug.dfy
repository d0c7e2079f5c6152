/**
 * src/lib/firebase-debug.ts: `testFirebaseConnection` reads the `usage_data`
 * collection and reports the outcome; a failure's message is classified by
 * an ordered substring rule.
 */
module FirebaseDebug {
  import opened Wrappers
  import opened Text
  import Firebase

  const NotInitializedMessage := "Firebase database is not initialized. Check your environment variables."
  const PermissionMessage := "Firestore security rules are blocking access. Check your rules."
  const UnavailableMessage := "Firebase service is unavailable. Check your internet connection."
  const ProjectMessage := "Invalid Firebase project configuration. Check your environment variables."
  const UnknownMessage := "Unknown error"

  /** What a `catch` receives: an `Error` with its message, or any other thrown value. */
  datatype Thrown = ErrorValue(message: string) | OtherValue

  /** The `errorMessage` the `catch` block settles on; the first matching rule wins. */
  function ConnectionErrorMessage(e: Thrown): (m: string)
    ensures e.OtherValue? ==> m == UnknownMessage
    ensures e.ErrorValue? ==> m in {PermissionMessage, UnavailableMessage, ProjectMessage, e.message}
  {
    match e
    case OtherValue => UnknownMessage
    case ErrorValue(m) =>
      if Contains(m, "permission") then PermissionMessage
      else if Contains(m, "unavailable") then UnavailableMessage
      else if Contains(m, "project") then ProjectMessage
      else m
  }

  /** The rules in order: "permission" first, then "unavailable", then "project", else the message itself. */
  lemma ConnectionErrorMessageRules(e: Thrown)
    ensures e.OtherValue? ==> ConnectionErrorMessage(e) == UnknownMessage
    ensures e.ErrorValue? && Contains(e.message, "permission") ==> ConnectionErrorMessage(e) == PermissionMessage
    ensures e.ErrorValue? && !Contains(e.message, "permission") ==>
              (Contains(e.message, "unavailable") ==> ConnectionErrorMessage(e) == UnavailableMessage) &&
              (!Contains(e.message, "unavailable") && Contains(e.message, "project") ==>
                 ConnectionErrorMessage(e) == ProjectMessage) &&
              (!Contains(e.message, "unavailable") && !Contains(e.message, "project") ==>
                 ConnectionErrorMessage(e) == e.message)
  {
  }

  /**
   * A message mentioning both "permission" and "unavailable" wins the earlier
   * rule: it is reported as a rules problem.
   */
  lemma PermissionBeatsUnavailable(message: string)
    requires Contains(message, "permission") && Contains(message, "unavailable")
    ensures ConnectionErrorMessage(ErrorValue(message)) == PermissionMessage
  {
  }

  /** One such message: "permission denied: service unavailable". */
  lemma PermissionBeatsUnavailableExample(message: string)
    requires message == "permission denied: service unavailable"
    ensures ConnectionErrorMessage(ErrorValue(message)) == PermissionMessage
  {
    assert OccursAt(message, "permission", 0);
  }

  /** A document of the collection: its id and its fields (values rendered as strings). */
  datatype Document = Document(id: string, fields: map<string, string>)

  /** What `getDocs(collection(db, "usage_data"))` does: return the documents or throw. */
  datatype QueryOutcome = Documents(docs: seq<Document>) | QueryThrew(thrown: Thrown)

  /** The returned object; `error` and `sampleData` are optional properties. */
  datatype ConnectionStatus = ConnectionStatus(
    isConnected: bool,
    error: Option<string>,
    sampleData: Option<seq<map<string, string>>>)

  /** `{ id: doc.id, ...doc.data() }`: the fields spread after `id`, so a field named "id" wins. */
  function SampleEntry(d: Document): (entry: map<string, string>)
    ensures entry.Keys == d.fields.Keys + {"id"}
    ensures entry["id"] == if "id" in d.fields then d.fields["id"] else d.id
    ensures forall k :: k in d.fields ==> entry[k] == d.fields[k]
  {
    map["id" := d.id] + d.fields
  }

  function TestFirebaseConnection(db: Option<Firebase.Firestore>, query: QueryOutcome): (s: ConnectionStatus)
    ensures db.None? ==> s == ConnectionStatus(false, Some(NotInitializedMessage), None)
    ensures s.isConnected <==> db.Some? && query.Documents?
    ensures s.isConnected ==> s.error.None? && s.sampleData.Some? && |s.sampleData.value| == |query.docs|
    ensures s.isConnected ==> forall i :: 0 <= i < |query.docs| ==> s.sampleData.value[i] == SampleEntry(query.docs[i])
    ensures !s.isConnected ==> s.error.Some? && s.sampleData.None?
    ensures db.Some? && query.QueryThrew? ==> s.error == Some(ConnectionErrorMessage(query.thrown))
  {
    if db.None? then
      ConnectionStatus(false, Some(NotInitializedMessage), None)
    else
      match query
      case Documents(docs) =>
        ConnectionStatus(true, None, Some(seq(|docs|, i requires 0 <= i < |docs| => SampleEntry(docs[i]))))
      case QueryThrew(e) =>
        ConnectionStatus(false, Some(ConnectionErrorMessage(e)), None)
  }

  /** Without a database no query is issued: the result does not depend on what the query would do. */
  lemma NoQueryWithoutDb(q1: QueryOutcome, q2: QueryOutcome)
    ensures TestFirebaseConnection(None, q1) == TestFirebaseConnection(None, q2)
  {
  }

  /** Each sample entry carries its document's id unless the document has a field named "id". */
  lemma SampleEntryIds(db: Firebase.Firestore, docs: seq<Document>, i: nat)
    requires i < |docs| && "id" !in docs[i].fields
    ensures TestFirebaseConnection(Some(db), Documents(docs)).sampleData.value[i]["id"] == docs[i].id
  {
  }
}
