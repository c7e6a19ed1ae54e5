/** The three data migrations that run in batches, and what each does to a row. */
module DataMigrations {
  import opened Clock
  import opened BatchedMigrations

  datatype Json =
    | Null
    | Bool(truth: bool)
    | Number(number: real)
    | Text(text: string)
    | List(items: seq<Json>)
    | Object(fields: map<string, Json>)

  predicate Scalar(j: Json) {
    !j.List? && !j.Object?
  }

  /** One step into a value: a key of an object, or a place of a list. */
  datatype Step = Key(name: string) | Place(index: nat)

  function Inside(j: Json, step: Step): Option<Json> {
    match step
    case Key(name) => if j.Object? && name in j.fields then Some(j.fields[name]) else None
    case Place(i) => if j.List? && i < |j.items| then Some(j.items[i]) else None
  }

  /** The scalar at the end of a path, if that is what is there. */
  function Leaf(j: Json, path: seq<Step>): Option<Json>
    decreases |path|
  {
    if path == [] then (if Scalar(j) then Some(j) else None)
    else
      match Inside(j, path[0])
      case None => None
      case Some(k) => Leaf(k, path[1..])
  }

  predicate At(path: seq<Step>, i: nat, name: string) {
    i < |path| && path[i] == Key(name)
  }

  predicate AtSome(path: seq<Step>, i: nat, names: set<string>) {
    i < |path| && path[i].Key? && path[i].name in names
  }

  // ---------------------------------------------------------------- payments: raw_payload

  const NOTIFICATION_FIELDS := {
    "id", "type", "action", "topic", "resource", "api_version", "live_mode", "date_created", "user_id", "status",
    "external_reference", "payment_id", "appointment_id"
  }
  const PAYMENT_DATA_FIELDS := {
    "id", "status", "external_reference", "metadata", "date_approved", "transaction_amount", "currency_id",
    "collector_id", "live_mode", "preference_id"
  }
  const METADATA_FIELDS := {"appointment_id", "store_id", "store_public_id", "payment_id"}
  const PREFERENCE_FIELDS := {"id", "init_point", "sandbox_init_point", "external_reference"}
  const PREFERENCE_MARKERS := {"init_point", "sandbox_init_point", "payer", "items"}

  function Scalars(origin: map<string, Json>, keys: set<string>): map<string, Json> {
    map k | k in origin && k in keys && Scalar(origin[k]) :: origin[k]
  }

  predicate HasObject(fields: map<string, Json>, key: string) {
    key in fields && fields[key].Object?
  }

  predicate LooksLikePreference(fields: map<string, Json>) {
    exists mark | mark in PREFERENCE_MARKERS :: mark in fields
  }

  /** The allowed scalars of a payment, and those of its metadata. */
  function TrimData(data: map<string, Json>, keys: set<string>, inner: set<string>): map<string, Json> {
    var least := Scalars(data, keys);
    if HasObject(data, "metadata") then least["metadata" := Object(Scalars(data["metadata"].fields, inner))] else least
  }

  /** `recortar`. */
  function Trim(payload: Json): Json {
    if !payload.Object? then payload
    else if HasObject(payload.fields, "data") then
      var data := TrimData(payload.fields["data"].fields, PAYMENT_DATA_FIELDS, METADATA_FIELDS);
      Object(Scalars(payload.fields, NOTIFICATION_FIELDS)["data" := Object(data)])
    else if LooksLikePreference(payload.fields) then Object(Scalars(payload.fields, PREFERENCE_FIELDS))
    else payload
  }

  /** The paths whose scalars a payload may keep. */
  predicate Allowed(payload: Json, path: seq<Step>) {
    if !payload.Object? then true
    else if HasObject(payload.fields, "data") then
      || (|path| == 1 && AtSome(path, 0, NOTIFICATION_FIELDS))
      || (|path| == 2 && At(path, 0, "data") && AtSome(path, 1, PAYMENT_DATA_FIELDS))
      || (|path| == 3 && At(path, 0, "data") && At(path, 1, "metadata") && AtSome(path, 2, METADATA_FIELDS))
    else if LooksLikePreference(payload.fields) then |path| == 1 && AtSome(path, 0, PREFERENCE_FIELDS)
    else true
  }

  lemma ScalarsLeaf(origin: map<string, Json>, keys: set<string>, path: seq<Step>)
    requires path != []
    ensures Leaf(Object(Scalars(origin, keys)), path) ==
            if |path| == 1 && AtSome(path, 0, keys) then Leaf(Object(origin), path) else None
  {
  }

  lemma LeafOfUpdate(fields: map<string, Json>, key: string, value: Json, path: seq<Step>)
    requires path != []
    ensures Leaf(Object(fields[key := value]), path) ==
            if path[0] == Key(key) then Leaf(value, path[1..]) else Leaf(Object(fields), path)
  {
  }

  lemma TrimDataLeaf(data: map<string, Json>, keys: set<string>, inner: set<string>, path: seq<Step>)
    requires path != [] && "metadata" in keys
    ensures Leaf(Object(TrimData(data, keys, inner)), path) ==
            if (|path| == 1 && AtSome(path, 0, keys))
                || (|path| == 2 && At(path, 0, "metadata") && AtSome(path, 1, inner))
            then Leaf(Object(data), path) else None
  {
    var least := Scalars(data, keys);
    ScalarsLeaf(data, keys, path);
    if HasObject(data, "metadata") {
      var metadata := data["metadata"].fields;
      LeafOfUpdate(least, "metadata", Object(Scalars(metadata, inner)), path);
      if path[0] == Key("metadata") && |path| > 1 {
        ScalarsLeaf(metadata, inner, path[1..]);
      }
    }
  }

  lemma TrimmedWithDataLeaf(payload: Json, outer: set<string>, keys: set<string>, inner: set<string>, path: seq<Step>)
    requires payload.Object? && HasObject(payload.fields, "data") && path != []
    requires "metadata" in keys && "data" !in outer
    ensures var data := TrimData(payload.fields["data"].fields, keys, inner);
            Leaf(Object(Scalars(payload.fields, outer)["data" := Object(data)]), path) ==
            if (|path| == 1 && AtSome(path, 0, outer))
               || (|path| == 2 && At(path, 0, "data") && AtSome(path, 1, keys))
               || (|path| == 3 && At(path, 0, "data") && At(path, 1, "metadata") && AtSome(path, 2, inner))
            then Leaf(payload, path) else None
  {
    var f := payload.fields;
    var data := TrimData(f["data"].fields, keys, inner);
    LeafOfUpdate(Scalars(f, outer), "data", Object(data), path);
    if path[0] != Key("data") {
      ScalarsLeaf(f, outer, path);
    } else if |path| > 1 {
      TrimDataLeaf(f["data"].fields, keys, inner, path[1..]);
    }
  }

  /** Of every scalar in a payload, at any depth and inside any list, the trimmed one keeps those at allowed paths,
      as they were, and no other; nothing is invented. */
  lemma TrimKeepsExactlyTheAllowed(payload: Json, path: seq<Step>)
    ensures Leaf(Trim(payload), path) == if Allowed(payload, path) then Leaf(payload, path) else None
  {
    if payload.Object? && path != [] {
      if HasObject(payload.fields, "data") {
        TrimmedWithDataLeaf(payload, NOTIFICATION_FIELDS, PAYMENT_DATA_FIELDS, METADATA_FIELDS, path);
      } else if LooksLikePreference(payload.fields) {
        ScalarsLeaf(payload.fields, PREFERENCE_FIELDS, path);
      }
    }
  }

  lemma ScalarsTwice(origin: map<string, Json>, keys: set<string>)
    ensures Scalars(Scalars(origin, keys), keys) == Scalars(origin, keys)
  {
  }

  lemma TrimDataTwice(data: map<string, Json>, keys: set<string>, inner: set<string>)
    ensures TrimData(TrimData(data, keys, inner), keys, inner) == TrimData(data, keys, inner)
  {
    if HasObject(data, "metadata") {
      ScalarsTwice(data["metadata"].fields, inner);
    }
  }

  /** Trimming a trimmed payload gives it back. */
  lemma TrimIsIdempotent(payload: Json)
    ensures Trim(Trim(payload)) == Trim(payload)
  {
    if payload.Object? {
      var f := payload.fields;
      if HasObject(f, "data") {
        TrimDataTwice(f["data"].fields, PAYMENT_DATA_FIELDS, METADATA_FIELDS);
        var t := Trim(payload).fields;
        assert Scalars(t, NOTIFICATION_FIELDS) == Scalars(f, NOTIFICATION_FIELDS);
      } else if LooksLikePreference(f) {
        ScalarsTwice(f, PREFERENCE_FIELDS);
      }
    }
  }

  function TrimPayload(): Change<Option<Json>> {
    Change((v: Option<Json>) => v.Some?, (v: Option<Json>) => if v.Some? then Some(Trim(v.value)) else v)
  }

  /** `minimizar`. */
  method Minimize(payments: Table<Option<Json>>, batch: nat) returns (changed: nat)
    requires Keyed(payments.rows) && batch >= 1
    modifies payments
    ensures payments.rows == AllMigrated(old(payments.rows), TrimPayload(), 0)
    ensures changed == Differences(old(payments.rows), TrimPayload(), 0)
    ensures Differences(payments.rows, TrimPayload(), 0) == 0
  {
    TrimPayloadIsIdempotent();
    SecondRunChangesNothing(payments.rows, TrimPayload(), 0);
    changed := payments.ChangeInBatches(TrimPayload(), 0, batch);
  }

  lemma TrimPayloadIsIdempotent()
    ensures Idempotent(TrimPayload())
  {
    forall v: Option<Json> | v.Some?
      ensures Trim(Trim(v.value)) == Trim(v.value)
    {
      TrimIsIdempotent(v.value);
    }
  }

  // ---------------------------------------------------------------- audit logs: notes

  const NOTES_KEY := "notes_staff"

  /** `_sin_texto`: the mark and the length instead of the text. */
  function WithoutText(payload: Option<Json>): Option<Json> {
    if payload.None? || !payload.value.Object? || NOTES_KEY !in payload.value.fields then payload
    else
      var text := payload.value.fields[NOTES_KEY];
      var length := if text.Text? then |text.text| else 0;
      Some(Object(map["notes_staff_changed" := Bool(true), "notes_staff_length" := Number(length as real)]))
  }

  /** The mark and the length stand in the note's place, and nothing else does; a payload
      without a note is not touched. */
  lemma OnlyTheLengthSurvives(payload: Option<Json>, path: seq<Step>)
    requires payload.Some? && path != []
    ensures var trimmed := WithoutText(payload).value;
            if payload.value.Object? && NOTES_KEY in payload.value.fields then
              var note := payload.value.fields[NOTES_KEY];
              Leaf(trimmed, path) ==
                if path == [Key("notes_staff_changed")] then Some(Bool(true))
                else if path == [Key("notes_staff_length")] then Some(Number((if note.Text? then |note.text|
                    else 0) as real))
                else None
            else trimmed == payload.value
  {
    if path != [path[0]] {
      assert |path| > 1;
    }
  }

  predicate HoldsANote(payload: Option<Json>) {
    payload.Some? && payload.value.Object? && NOTES_KEY in payload.value.fields
  }

  /** A payload comes out as it was exactly when it holds no note, and always the second time. */
  lemma NoteIsTrimmedOnce(payload: Option<Json>)
    ensures WithoutText(payload) == payload <==> !HoldsANote(payload)
    ensures WithoutText(WithoutText(payload)) == WithoutText(payload)
  {
    if payload.Some? && payload.value.Object? && NOTES_KEY in payload.value.fields {
      assert NOTES_KEY !in WithoutText(payload).value.fields;
    }
  }

  datatype AuditLog = AuditLog(resourceType: string, action: string, before: Option<Json>, after: Option<Json>)

  function TrimNotes(): Change<AuditLog> {
    Change((v: AuditLog) => v.resourceType == "Appointment" && v.action == "update",
           (v: AuditLog) => v.(before := WithoutText(v.before), after := WithoutText(v.after)))
  }

  /** `recortar_notas`. */
  method TrimAuditNotes(logs: Table<AuditLog>, batch: nat) returns (changed: nat)
    requires Keyed(logs.rows) && batch >= 1
    modifies logs
    ensures logs.rows == AllMigrated(old(logs.rows), TrimNotes(), 0)
    ensures changed == Differences(old(logs.rows), TrimNotes(), 0)
    ensures Differences(logs.rows, TrimNotes(), 0) == 0
  {
    TrimNotesIsIdempotent();
    SecondRunChangesNothing(logs.rows, TrimNotes(), 0);
    changed := logs.ChangeInBatches(TrimNotes(), 0, batch);
  }

  lemma TrimNotesIsIdempotent()
    ensures Idempotent(TrimNotes())
  {
    forall v: AuditLog
      ensures WithoutText(WithoutText(v.before)) == WithoutText(v.before)
      ensures WithoutText(WithoutText(v.after)) == WithoutText(v.after)
    {
      NoteIsTrimmedOnce(v.before);
      NoteIsTrimmedOnce(v.after);
    }
  }

  // ---------------------------------------------------------------- appointments: booked_via

  datatype Origin = Origin(termsAccepted: bool, bookedVia: string)

  function MarkPortal(): Change<Origin> {
    Change((v: Origin) => v.termsAccepted && v.bookedVia == "panel", (v: Origin) => v.(bookedVia := "portal"))
  }

  /** `marcar_portal`. */
  method MarkPortalBookings(appointments: Table<Origin>, batch: nat) returns (changed: nat)
    requires Keyed(appointments.rows) && batch >= 1
    modifies appointments
    ensures appointments.rows == AllMigrated(old(appointments.rows), MarkPortal(), 0)
    ensures changed == Differences(old(appointments.rows), MarkPortal(), 0)
    ensures Differences(appointments.rows, MarkPortal(), 0) == 0
  {
    assert Idempotent(MarkPortal());
    SecondRunChangesNothing(appointments.rows, MarkPortal(), 0);
    assert AlwaysChanges(MarkPortal());
    changed := appointments.MarkInBatches(MarkPortal(), 0, batch);
  }
}
