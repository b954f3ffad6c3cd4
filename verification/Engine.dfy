/**
 What one save computes: `apply` on documents, the snapshot it starts from, the commit
 command it prepares, and the commit script that Redis runs atomically.
 */
module Engine {
  import opened ByteStrings
  import opened Results
  import opened Entities
  import opened Framing
  import opened Codec
  import opened Records
  import I = Increments

  const MAX_CHANGES := 1024

  // ---- apply ---------------------------------------------------------------------

  function Get(fields: map<Bytes, Value>, column: Bytes): Value {
    if column in fields then fields[column] else NullValue
  }

  predicate ValidDocument(lib: Library, d: Document, schema: EntitySchema) {
    && (forall k | k in schema.keys :: k.column in d.fields && ValidValue(lib, d.fields[k.column], k, true))
    && (forall f | f in schema.fields :: ValidValue(lib, Get(d.fields, f.column), f, false))
  }

  /** Every column the schema reads could be read again once stored. */
  predicate Rereads(d: Document, schema: EntitySchema) {
    && (forall k | k in schema.keys :: Rereadable(Get(d.fields, k.column)))
    && (forall f | f in schema.fields :: Rereadable(Get(d.fields, f.column)))
  }

  lemma CanonValidValue(lib: Library, v: Value, field: FieldSchema, key: bool)
    requires ValidValue(lib, v, field, key)
    ensures ValidValue(lib, Canon(v), field, key) <==> Rereadable(v)
  {
    hide Encodable, Canon, Rereadable;
    CanonEncodable(lib, v);
    NullStaysNull(v);
  }

  lemma NullStaysNull(v: Value)
    ensures Canon(v).NullValue? <==> v.NullValue?
  {
  }

  /** The stored form of a valid document is valid exactly when every column can be read again. */
  lemma CanonValid(lib: Library, d: Document, schema: EntitySchema)
    requires ValidDocument(lib, d, schema)
    ensures ValidDocument(lib, CanonDocument(d), schema) <==> Rereads(d, schema)
  {
    hide ValidValue, Canon, Rereadable;
    forall k | k in schema.keys
      ensures k.column in d.fields
      ensures ValidValue(lib, Canon(d.fields[k.column]), k, true) <==> Rereadable(d.fields[k.column])
    {
      CanonValidValue(lib, d.fields[k.column], k, true);
    }
    forall f | f in schema.fields
      ensures ValidValue(lib, Get(CanonDocument(d).fields, f.column), f, false) <==> Rereadable(Get(d.fields, f.column))
    {
      CanonValidValue(lib, Get(d.fields, f.column), f, false);
      NullStaysNull(NullValue);
      CanonNull();
    }
  }

  lemma CanonNull()
    ensures Canon(NullValue) == NullValue
  {
  }

  /** A new document starts with its key columns. Admission has matched the names to the schema. */
  function WithKeys(schema: EntitySchema, key: seq<NamedValue>, fields: map<Bytes, Value>): map<Bytes, Value> {
    if key == [] then fields
    else
      var added := match FindField(schema.keys, key[0].name)
        case None => fields
        case Some(f) => if f.column in fields then fields else fields[f.column := key[0].data];
      WithKeys(schema, key[1..], added)
  }

  function PatchField(lib: Library, schema: EntitySchema, patch: FieldPatch,
      fields: map<Bytes, Value>): Result<map<Bytes, Value>>
  {
    match FindWritable(schema, patch.name)
    case None => Err(InvalidRequest)
    case Some(f) =>
      match patch.operation
      case Erase => Ok(fields - {f.column})
      case Set => Ok(fields[f.column := patch.data])
      case Increment =>
        var before :- if f.column in fields then Ok(fields[f.column]) else I.Zero(f.kind);
        var after :- I.Increment(lib, before, patch.data, f.kind);
        Ok(fields[f.column := after])
  }

  function PatchFields(lib: Library, schema: EntitySchema, patches: seq<FieldPatch>,
      fields: map<Bytes, Value>): Result<map<Bytes, Value>>
  {
    if patches == [] then Ok(fields)
    else
      var next :- PatchField(lib, schema, patches[0], fields);
      PatchFields(lib, schema, patches[1..], next)
  }

  function ApplyFields(lib: Library, d: Document, schema: EntitySchema, patch: EntityPatch): Result<Document> {
    if patch.operation.Delete? then Ok(EMPTY)
    else if d.version >= INT64_MAX then Err(InvalidRequest)
    else
      var fields :- PatchFields(lib, schema, patch.fields, d.fields);
      var next := Document(d.version + 1, fields);
      if ValidDocument(lib, next, schema) then Ok(next) else Err(InvalidRequest)
  }

  /** `EntityStoreEngine::apply`: one change on one document. */
  function Apply(lib: Library, d: Document, schema: EntitySchema, patch: EntityPatch): Result<Document> {
    if d.version == 0 then
      if (!patch.operation.Insert? && !patch.createIfMissing) || (patch.checkVersion && patch.expectedVersion != 0)
        then Err(NotFound)
      else ApplyFields(lib, Document(0, WithKeys(schema, patch.target.key, d.fields)), schema, patch)
    else if patch.operation.Insert? then Err(Conflict)
    else if !ValidDocument(lib, d, schema) then Err(InternalError)
    else if patch.checkVersion && patch.expectedVersion != d.version then Err(Conflict)
    else ApplyFields(lib, d, schema, patch)
  }

  /** A change that applies moves the version forward by one, or to none for a deletion. */
  lemma ApplyVersion(lib: Library, d: Document, schema: EntitySchema, patch: EntityPatch)
    requires Apply(lib, d, schema, patch).Ok?
    ensures var next := Apply(lib, d, schema, patch).value;
      && CommittedVersion(next.version, patch.operation)
      && (if patch.operation.Delete? then next == EMPTY else next.version == d.version + 1)
    ensures patch.checkVersion ==> patch.expectedVersion == d.version
    ensures patch.operation.Insert? ==> d.version == 0
    ensures d.version == 0 ==> patch.operation.Insert? || patch.createIfMissing
  {
    hide ValidDocument, WithKeys, PatchFields;
  }

  /** A change that applies leaves nothing, or a valid document with a version that can be stored. */
  lemma ApplyValid(lib: Library, d: Document, schema: EntitySchema, patch: EntityPatch)
    requires Apply(lib, d, schema, patch).Ok?
    ensures var next := Apply(lib, d, schema, patch).value;
      next == EMPTY || (1 <= next.version <= INT64_MAX && ValidDocument(lib, next, schema))
  {
    hide ValidDocument, WithKeys, PatchFields;
  }

  // ---- Admission ------------------------------------------------------------------

  /** `validate_patch`. */
  predicate ValidPatch(lib: Library, schema: EntitySchema, patch: EntityPatch) {
    && patch.expectedVersion <= INT64_MAX
    && forall f | f in patch.fields ::
         match FindWritable(schema, f.name)
         case None => false
         case Some(column) =>
           match f.operation
           case Set => ValidValue(lib, f.data, column, false)
           case Erase => column.nullable
           case Increment =>
             && IsNumber(column.kind)
             && I.Change(lib, f.data).Ok?
             && (column.kind.SignedInteger? || column.kind.UnsignedInteger? ==> I.Change(lib, f.data).value.scale == 0)
  }

  /** The hash field of every change, in request order. */
  function ObjectFields(lib: Library, store: StoreSchema, changes: seq<EntityPatch>): (r: Result<seq<Bytes>>)
    ensures r.Ok? ==> |r.value| == |changes|
    ensures r.Err? ==> r.code == InvalidRequest
  {
    if changes == [] then Ok([])
    else if changes[0].target.entity !in store.entities then Err(InvalidRequest)
    else
      var schema := store.entities[changes[0].target.entity];
      if !ValidPatch(lib, schema, changes[0]) then Err(InvalidRequest)
      else
        var field :- ObjectField(lib, schema, changes[0].target);
        var rest :- ObjectFields(lib, store, changes[1..]);
        Ok([field] + rest)
  }

  /** An admitted request: its hash fields, its signature and its place in the ledger. */
  datatype Admission = Admission(fields: seq<Bytes>, signature: Bytes, ledger: Bytes)

  /** Everything `save` checks before it talks to Redis. */
  function Admit(lib: Library, store: StoreSchema, request: SaveRequest): (r: Result<Admission>)
    ensures r.Ok? ==> |r.value.fields| == |request.changes| && 1 <= |request.changes| <= MAX_CHANGES
    ensures r.Ok? ==> |request.requestId| <= 255 && r.value.ledger == LedgerField(request.requestId)
    ensures r.Ok? ==>
      Signature(lib, request) == Ok(r.value.signature)
      && ObjectFields(lib, store, request.changes) == Ok(r.value.fields)
    ensures r.Err? ==> r.code == InvalidRequest
  {
    if !ValidRequest(request) || |request.requestId| > 255 || |request.changes| > MAX_CHANGES then Err(InvalidRequest)
    else
      var fields :- ObjectFields(lib, store, request.changes);
      var signature :- Signature(lib, request);
      Ok(Admission(fields, signature, LedgerField(request.requestId)))
  }

  /**
   A request is admitted exactly when it is valid, not too large, and each change by itself can be placed and signed.
   */
  lemma AdmitExactly(lib: Library, store: StoreSchema, request: SaveRequest)
    ensures Admit(lib, store, request).Ok? <==>
      && ValidRequest(request) && |request.requestId| <= 255 && |request.changes| <= 1024
      && Signature(lib, request).Ok?
      && forall i | 0 <= i < |request.changes| :: Placed(lib, store, request.changes[i])
    ensures Admit(lib, store, request).Ok? ==>
      forall i | 0 <= i < |request.changes| ::
        Placed(lib, store, request.changes[i])
        && FieldOf(lib, store, request.changes[i]) == Admit(lib, store, request).value.fields[i]
  {
    hide ValidRequest, Signature, LedgerField, Placed, FieldOf;
    ObjectFieldsExactly(lib, store, request.changes);
  }

  /** The change names an entity of the store, fits its schema, and has a complete key. */
  predicate Placed(lib: Library, store: StoreSchema, change: EntityPatch) {
    && change.target.entity in store.entities
    && ValidPatch(lib, store.entities[change.target.entity], change)
    && ObjectField(lib, store.entities[change.target.entity], change.target).Ok?
  }

  function FieldOf(lib: Library, store: StoreSchema, change: EntityPatch): Bytes
    requires Placed(lib, store, change)
  {
    ObjectField(lib, store.entities[change.target.entity], change.target).value
  }

  lemma {:induction false} ObjectFieldsExactly(lib: Library, store: StoreSchema, changes: seq<EntityPatch>)
    ensures ObjectFields(lib, store, changes).Ok? <==> forall i | 0 <= i < |changes| :: Placed(lib, store, changes[i])
    ensures ObjectFields(lib, store, changes).Ok? ==>
      forall i | 0 <= i < |changes| ::
        Placed(lib, store, changes[i]) && FieldOf(lib, store, changes[i]) == ObjectFields(lib, store, changes).value[i]
  {
    hide ObjectField, ValidPatch;
    if changes != [] {
      var rest := changes[1..];
      ObjectFieldsExactly(lib, store, rest);
      assert forall i | 0 < i < |changes| :: changes[i] == rest[i - 1];
      assert forall i | 0 <= i < |rest| :: rest[i] == changes[i + 1];
    }
  }

  // ---- Snapshot and plan -------------------------------------------------------------

  type Hash = map<Bytes, Bytes>
  type Snapshot = map<Bytes, Option<Bytes>>

  function FieldSet(fields: seq<Bytes>): set<Bytes> { set f | f in fields }

  function Look(hash: Hash, field: Bytes): Option<Bytes> {
    if field in hash then Some(hash[field]) else None
  }

  /** HMGET: what the hash holds for these fields, at one instant. */
  function Read(hash: Hash, fields: seq<Bytes>): Snapshot {
    map f | f in FieldSet(fields) :: Look(hash, f)
  }

  /** Decodes the snapshot field by field, in map order, under the batch size limit. */
  function LoadAll(order: seq<Bytes>, snapshot: Snapshot, total: nat): Result<map<Bytes, Document>>
    requires forall f | f in order :: f in snapshot
  {
    if order == [] then Ok(map[])
    else match snapshot[order[0]]
      case None => LoadAll(order[1..], snapshot, total)
      case Some(bytes) =>
        if total + |bytes| > MAX_BYTES then Err(InvalidRequest)
        else if bytes == [] then LoadAll(order[1..], snapshot, total)
        else
          var document :- Decode(bytes);
          var rest :- LoadAll(order[1..], snapshot, total + |bytes|);
          Ok(rest[order[0] := document])
  }

  function DocumentAt(documents: map<Bytes, Document>, field: Bytes): Document {
    if field in documents then documents[field] else EMPTY
  }

  /** The documents after a batch, and what the batch reports for each change. */
  datatype Batch = Batch(documents: map<Bytes, Document>, entities: seq<CommittedEntity>)

  /** Applies the changes in order; changes of one entity see each other's effect. */
  function ApplyAll(lib: Library, store: StoreSchema, changes: seq<EntityPatch>, fields: seq<Bytes>,
      documents: map<Bytes, Document>): Result<Batch>
    requires |fields| == |changes|
  {
    if changes == [] then Ok(Batch(documents, []))
    else if changes[0].target.entity !in store.entities then Err(InvalidRequest)
    else
      var next :- Apply(lib, DocumentAt(documents, fields[0]), store.entities[changes[0].target.entity], changes[0]);
      var rest :- ApplyAll(lib, store, changes[1..], fields[1..], documents[fields[0] := next]);
      Ok(Batch(rest.documents, [CommittedEntity(changes[0].target, next.version, changes[0].operation)]
        + rest.entities))
  }

  /** One object of the commit command: expected octets and new octets. An empty payload marks a deletion. */
  datatype Item = Item(field: Bytes, before: Option<Bytes>, after: Bytes)

  datatype Command = Command(ledger: Bytes, record: Bytes, items: seq<Item>)

  function Stored(lib: Library, d: Document): Result<Bytes> {
    if d.version == 0 then Ok([]) else Encode(lib, d)
  }

  function Items(lib: Library, order: seq<Bytes>, snapshot: Snapshot, documents: map<Bytes, Document>,
      total: nat): (r: Result<seq<Item>>)
    requires forall f | f in order :: f in snapshot
    ensures r.Ok? ==> |r.value| == |order|
  {
    if order == [] then Ok([])
    else
      var f := order[0];
      var after :- Stored(lib, DocumentAt(documents, f));
      var size := total + |f| + |after| + (if snapshot[f].Some? then |snapshot[f].value| else 0);
      if size > 3 * MAX_BYTES then Err(InvalidRequest)
      else
        var rest :- Items(lib, order[1..], snapshot, documents, size);
        Ok([Item(f, snapshot[f], after)] + rest)
  }

  /** A command ready to send and the answer it stands for. */
  datatype Plan = Plan(command: Command, entities: seq<CommittedEntity>)

  /** From a snapshot to the commit command. */
  function Prepare(lib: Library, store: StoreSchema, request: SaveRequest, admission: Admission,
      snapshot: Snapshot): Result<Plan>
    requires |admission.fields| == |request.changes|
  {
    var order := Sorted(snapshot.Keys);
    var documents :- LoadAll(order, snapshot, 0);
    var batch :- ApplyAll(lib, store, request.changes, admission.fields, documents);
    var record :- Ledger(admission.signature, batch.entities);
    var items :- Items(lib, order, snapshot, batch.documents, |record|);
    Ok(Plan(Command(admission.ledger, record, items), batch.entities))
  }

  // ---- The commit script -----------------------------------------------------------------

  datatype Reply =
    | Done
    | Stale
    | Previous(record: Bytes)
    | Refused

  predicate Fresh(hash: Hash, items: seq<Item>) {
    forall i | 0 <= i < |items| :: Look(hash, items[i].field) == items[i].before
  }

  function Write(hash: Hash, items: seq<Item>): Hash
    decreases items
  {
    if items == [] then hash else Write(hash[items[0].field := items[0].after], items[1..])
  }

  function ScriptReply(hash: Hash, command: Command): Reply {
    if command.ledger in hash then Previous(hash[command.ledger])
    else if |command.items| < 1 || |command.items| > MAX_CHANGES then Refused
    else if !Fresh(hash, command.items) then Stale
    else Done
  }

  /** All checks come before the one HSET. */
  function ScriptHash(hash: Hash, command: Command): Hash {
    if ScriptReply(hash, command).Done? then Write(hash[command.ledger := command.record], command.items) else hash
  }
}
