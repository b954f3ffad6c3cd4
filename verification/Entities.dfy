/** The entity-store contract: values, references, patches, requests, results and the server-side schema. */
module Entities {
  import opened ByteStrings
  import opened Results

  type int64 = x: int | -0x8000_0000_0000_0000 <= x <= INT64_MAX

  datatype Kind = Null | Boolean | SignedInteger | UnsignedInteger | Real | Decimal | Text | Json | Blob

  /** A value that crosses databases. A real is its IEEE 754 bit pattern. */
  datatype Value =
    | NullValue
    | BooleanValue(flag: bool)
    | SignedValue(signed: int64)
    | UnsignedValue(unsigned: uint64)
    | RealValue(bits: uint64)
    | DecimalValue(decimal: Bytes)
    | TextValue(text: Bytes)
    | JsonValue(json: Bytes)
    | BlobValue(blob: Bytes)

  function KindOf(v: Value): Kind {
    match v
    case NullValue => Null
    case BooleanValue(_) => Boolean
    case SignedValue(_) => SignedInteger
    case UnsignedValue(_) => UnsignedInteger
    case RealValue(_) => Real
    case DecimalValue(_) => Decimal
    case TextValue(_) => Text
    case JsonValue(_) => Json
    case BlobValue(_) => Blob
  }

  predicate IsNumber(kind: Kind) {
    kind.SignedInteger? || kind.UnsignedInteger? || kind.Real? || kind.Decimal?
  }

  /** What the codec takes from libraries: the JSON parser and double arithmetic. */
  datatype Library = Library(
    acceptsJson: Bytes -> bool,
    printReal: uint64 -> Bytes,
    addReal: (uint64, Bytes) -> Option<uint64>)

  datatype NamedValue = NamedValue(name: Bytes, data: Value)
  datatype EntityRef = EntityRef(store: Bytes, partition: Bytes, entity: Bytes, key: seq<NamedValue>)

  datatype PatchOp = Set | Erase | Increment
  datatype FieldPatch = FieldPatch(operation: PatchOp, name: Bytes, data: Value)

  datatype Operation = LegacyPatch | Insert | Update | Delete
  datatype EntityPatch = EntityPatch(
    target: EntityRef, fields: seq<FieldPatch>, createIfMissing: bool,
    checkVersion: bool, expectedVersion: uint64, operation: Operation)

  datatype SaveRequest = SaveRequest(requestId: Bytes, changes: seq<EntityPatch>)

  datatype CommittedEntity = CommittedEntity(target: EntityRef, version: uint64, operation: Operation)
  datatype SaveResult = SaveResult(code: ResultCode, requestId: Bytes, committed: bool, entities: seq<CommittedEntity>)

  datatype FieldSchema = FieldSchema(name: Bytes, column: Bytes, kind: Kind, writable: bool, nullable: bool)
  datatype EntitySchema = EntitySchema(table: Bytes, keys: seq<FieldSchema>, fields: seq<FieldSchema>)
  datatype StoreSchema = StoreSchema(idempotencyTable: Bytes, entities: map<Bytes, EntitySchema>)

  function FindField(fields: seq<FieldSchema>, name: Bytes): (r: Option<FieldSchema>)
    ensures r.Some? ==> r.value in fields && r.value.name == name
    ensures r.None? ==> forall f | f in fields :: f.name != name
  {
    if fields == [] then None
    else if fields[0].name == name then Some(fields[0])
    else FindField(fields[1..], name)
  }

  function FindWritable(schema: EntitySchema, name: Bytes): Option<FieldSchema> {
    match FindField(schema.fields, name)
    case None => None
    case Some(f) => if f.writable then Some(f) else None
  }

  function FindNamed(values: seq<NamedValue>, name: Bytes): (r: Option<NamedValue>)
    ensures r.Some? ==> r.value in values && r.value.name == name
    ensures r.None? ==> forall v | v in values :: v.name != name
  {
    if values == [] then None
    else if values[0].name == name then Some(values[0])
    else FindNamed(values[1..], name)
  }

  // ---- validate(save_request) ---------------------------------------------

  predicate ValidTarget(target: EntityRef) {
    && target.store != [] && target.entity != [] && target.key != []
    && (forall i | 0 <= i < |target.key| :: target.key[i].name != [])
    && (forall i, j | 0 <= i < j < |target.key| :: target.key[i].name != target.key[j].name)
  }

  predicate SameEntity(a: EntityRef, b: EntityRef) {
    && a.store == b.store && a.entity == b.entity && |a.key| == |b.key|
    && forall k | k in a.key :: k in b.key
  }

  predicate ValidField(change: EntityPatch, field: FieldPatch) {
    && (change.operation.Insert? ==> field.operation.Set?)
    && field.name != []
    && (forall k | k in change.target.key :: k.name != field.name)
    && (field.operation.Increment? ==> IsNumber(KindOf(field.data)))
  }

  predicate ValidChange(change: EntityPatch) {
    && ValidTarget(change.target)
    && (!change.operation.LegacyPatch? ==> !change.createIfMissing && change.expectedVersion <= INT64_MAX)
    && (change.operation.Insert? ==> !change.checkVersion && change.expectedVersion == 0)
    && (change.operation.Update? || change.operation.Delete? ==> change.checkVersion && change.expectedVersion != 0)
    && (change.operation.Delete? ==> change.fields == [])
    && (change.operation.LegacyPatch? || change.operation.Update? ==> change.fields != [])
    && (forall f | f in change.fields :: ValidField(change, f))
    && (forall i, j | 0 <= i < j < |change.fields| :: change.fields[i].name != change.fields[j].name)
  }

  predicate ValidRequest(request: SaveRequest) {
    && request.requestId != [] && request.changes != []
    && (forall c | c in request.changes ::
          && ValidChange(c)
          && c.target.store == request.changes[0].target.store
          && c.target.partition == request.changes[0].target.partition)
    && (forall i, j | 0 <= i < j < |request.changes| ::
          (request.changes[i].operation.LegacyPatch? && request.changes[j].operation.LegacyPatch?)
          || !SameEntity(request.changes[j].target, request.changes[i].target))
  }
}
