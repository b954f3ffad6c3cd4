/** Hash field names, request signatures and idempotency records of the Redis store. */
module Records {
  import opened ByteStrings
  import opened Results
  import opened Entities
  import opened Framing
  import opened Codec

  const OBJECT := Ascii("object")
  const REQUEST := Ascii("request")
  const REQUEST_MARK := Ascii("redis-request-v1")
  const COMMIT_MARK := Ascii("redis-commit-v1")
  const STRICT_MARK := Ascii("strict-crud-v1")

  // ---- Cancelling what stands in front of a buffer ------------------------------

  lemma NumberCancel(m: uint64, n: uint64, r: Bytes, s: Bytes)
    requires Number(m) + r == Number(n) + s
    ensures m == n && r == s
  {
    hide *;
    TakeNumberBack(m, r);
    TakeNumberBack(n, s);
  }

  lemma FrameCancel(a: Bytes, b: Bytes, r: Bytes, s: Bytes)
    requires |a| < U64 && |b| < U64 && Frame(a) + r == Frame(b) + s
    ensures a == b && r == s
  {
    hide *;
    TakeTextBack(a, r);
    TakeTextBack(b, s);
  }

  lemma PlainCancel(v: Value, w: Value, r: Bytes, s: Bytes)
    requires |Plain(v)| <= MAX_BYTES && |Plain(w)| <= MAX_BYTES && Plain(v) + r == Plain(w) + s
    ensures v == w && r == s
  {
    hide *;
    TakeValueBack(v, r);
    TakeValueBack(w, s);
  }

  // ---- Signatures ----------------------------------------------------------------

  function KeysBytes(keys: seq<NamedValue>): Bytes {
    if keys == [] then [] else Frame(keys[0].name) + Plain(keys[0].data) + KeysBytes(keys[1..])
  }

  function TargetBytes(t: EntityRef): Bytes {
    Frame(t.store) + Frame(t.partition) + Frame(t.entity) + Number(|t.key| % U64) + KeysBytes(t.key)
  }

  function OpByte(op: PatchOp): byte { match op case Set => 0 case Erase => 1 case Increment => 2 }
  function OperationByte(op: Operation): byte {
    match op case LegacyPatch => 0 case Insert => 1 case Update => 2 case Delete => 3
  }
  function Flag(b: bool): byte { if b then 1 else 0 }

  function PatchesBytes(fields: seq<FieldPatch>): Bytes {
    if fields == [] then []
    else Frame(fields[0].name) + ([OpByte(fields[0].operation)] + Plain(fields[0].data)) + PatchesBytes(fields[1..])
  }

  function ChangeBytes(c: EntityPatch): Bytes {
    TargetBytes(c.target) + [Flag(c.createIfMissing), Flag(c.checkVersion)]
    + Number(c.expectedVersion) + Number(|c.fields| % U64) + PatchesBytes(c.fields)
  }

  function ChangesBytes(changes: seq<EntityPatch>): Bytes {
    if changes == [] then [] else ChangeBytes(changes[0]) + ChangesBytes(changes[1..])
  }

  function OperationsBytes(changes: seq<EntityPatch>): (r: Bytes)
    ensures |r| == |changes|
    ensures forall i | 0 <= i < |r| :: r[i] == OperationByte(changes[i].operation)
  {
    if changes == [] then [] else [OperationByte(changes[0].operation)] + OperationsBytes(changes[1..])
  }

  predicate AnyStrict(changes: seq<EntityPatch>) {
    exists c | c in changes :: !c.operation.LegacyPatch?
  }

  function StrictBytes(changes: seq<EntityPatch>): Bytes {
    if AnyStrict(changes) then Frame(STRICT_MARK) + OperationsBytes(changes) else []
  }

  function SignatureBytes(changes: seq<EntityPatch>): Bytes {
    Frame(REQUEST_MARK) + Number(|changes| % U64) + (ChangesBytes(changes) + StrictBytes(changes))
  }

  function CanonKeys(keys: seq<NamedValue>): (r: seq<NamedValue>)
    ensures |r| == |keys|
  {
    seq(|keys|, i requires 0 <= i < |keys| => keys[i].(data := Canon(keys[i].data)))
  }

  function CanonPatches(fields: seq<FieldPatch>): (r: seq<FieldPatch>)
    ensures |r| == |fields|
  {
    seq(|fields|, i requires 0 <= i < |fields| => fields[i].(data := Canon(fields[i].data)))
  }

  function CanonChange(c: EntityPatch): EntityPatch {
    c.(target := c.target.(key := CanonKeys(c.target.key)), fields := CanonPatches(c.fields))
  }

  function CanonChanges(changes: seq<EntityPatch>): (r: seq<EntityPatch>)
    ensures |r| == |changes| && forall i | 0 <= i < |r| :: r[i] == CanonChange(changes[i])
  {
    seq(|changes|, i requires 0 <= i < |changes| => CanonChange(changes[i]))
  }

  predicate ChangesEncodable(lib: Library, changes: seq<EntityPatch>) {
    forall c | c in changes ::
      && (forall k | k in c.target.key :: Encodable(lib, k.data))
      && (forall f | f in c.fields :: Encodable(lib, f.data))
  }

  /** `EntityCodec::signature`: the payload a request id stands for. */
  function Signature(lib: Library, request: SaveRequest): Result<Bytes> {
    if !ChangesEncodable(lib, request.changes) then Err(InvalidRequest)
    else
      var bytes := SignatureBytes(CanonChanges(request.changes));
      if |bytes| > MAX_BYTES then Err(InvalidRequest) else Ok(bytes)
  }

  lemma {:induction false} KeysCancel(a: seq<NamedValue>, b: seq<NamedValue>, r: Bytes, s: Bytes)
    requires |a| == |b| && |KeysBytes(a)| <= MAX_BYTES && |KeysBytes(b)| <= MAX_BYTES
    requires KeysBytes(a) + r == KeysBytes(b) + s
    ensures a == b && r == s
  {
    hide Frame, Plain;
    if a == [] {
      assert KeysBytes(a) + r == r && KeysBytes(b) + s == s;
    } else {
      var ra, rb := KeysBytes(a[1..]) + r, KeysBytes(b[1..]) + s;
      assert KeysBytes(a) + r == Frame(a[0].name) + (Plain(a[0].data) + ra);
      assert KeysBytes(b) + s == Frame(b[0].name) + (Plain(b[0].data) + rb);
      FrameCancel(a[0].name, b[0].name, Plain(a[0].data) + ra, Plain(b[0].data) + rb);
      PlainCancel(a[0].data, b[0].data, ra, rb);
      KeysCancel(a[1..], b[1..], r, s);
      assert a == [a[0]] + a[1..] && b == [b[0]] + b[1..];
    }
  }

  lemma {:induction false} PatchesCancel(a: seq<FieldPatch>, b: seq<FieldPatch>, r: Bytes, s: Bytes)
    requires |a| == |b| && |PatchesBytes(a)| <= MAX_BYTES && |PatchesBytes(b)| <= MAX_BYTES
    requires PatchesBytes(a) + r == PatchesBytes(b) + s
    ensures a == b && r == s
  {
    hide Frame, Plain;
    if a == [] {
      assert PatchesBytes(a) + r == r && PatchesBytes(b) + s == s;
    } else {
      var x, y := a[0], b[0];
      var ra, rb := PatchesBytes(a[1..]) + r, PatchesBytes(b[1..]) + s;
      assert PatchesBytes(a) + r == Frame(x.name) + ([OpByte(x.operation)] + (Plain(x.data) + ra));
      assert PatchesBytes(b) + s == Frame(y.name) + ([OpByte(y.operation)] + (Plain(y.data) + rb));
      FrameCancel(x.name, y.name, [OpByte(x.operation)] + (Plain(x.data) + ra),
        [OpByte(y.operation)] + (Plain(y.data) + rb));
      HeadCancel([OpByte(x.operation)], [OpByte(y.operation)], Plain(x.data) + ra, Plain(y.data) + rb);
      PlainCancel(x.data, y.data, ra, rb);
      PatchesCancel(a[1..], b[1..], r, s);
      assert a == [a[0]] + a[1..] && b == [b[0]] + b[1..];
    }
  }

  lemma HeadCancel(a: Bytes, b: Bytes, r: Bytes, s: Bytes)
    requires |a| == |b| && a + r == b + s
    ensures a == b && r == s
  {
    assert a == (a + r)[..|a|] && b == (b + s)[..|a|];
    assert r == (a + r)[|a|..] && s == (b + s)[|a|..];
  }

  lemma Regroup(a: Bytes, b: Bytes, c: Bytes, d: Bytes, e: Bytes, r: Bytes)
    ensures a + b + c + d + e + r == a + (b + (c + (d + (e + r))))
  {
  }

  lemma {:induction false} KeysBytesLength(keys: seq<NamedValue>)
    ensures |KeysBytes(keys)| >= |keys|
  {
    if keys != [] { KeysBytesLength(keys[1..]); }
  }

  lemma {:induction false} PatchesBytesLength(fields: seq<FieldPatch>)
    ensures |PatchesBytes(fields)| >= |fields|
  {
    if fields != [] { PatchesBytesLength(fields[1..]); }
  }

  lemma TargetCancel(a: EntityRef, b: EntityRef, r: Bytes, s: Bytes)
    requires |TargetBytes(a)| <= MAX_BYTES && |TargetBytes(b)| <= MAX_BYTES
    requires TargetBytes(a) + r == TargetBytes(b) + s
    ensures a == b && r == s
  {
    KeysBytesLength(a.key);
    KeysBytesLength(b.key);
    hide Frame, Plain, Number, KeysBytes;
    var ka, kb := Number(|a.key| % U64) + (KeysBytes(a.key) + r), Number(|b.key| % U64) + (KeysBytes(b.key) + s);
    Regroup(Frame(a.store), Frame(a.partition), Frame(a.entity), Number(|a.key| % U64), KeysBytes(a.key), r);
    Regroup(Frame(b.store), Frame(b.partition), Frame(b.entity), Number(|b.key| % U64), KeysBytes(b.key), s);
    FrameCancel(a.store, b.store, Frame(a.partition) + (Frame(a.entity) + ka),
      Frame(b.partition) + (Frame(b.entity) + kb));
    FrameCancel(a.partition, b.partition, Frame(a.entity) + ka, Frame(b.entity) + kb);
    FrameCancel(a.entity, b.entity, ka, kb);
    NumberCancel(|a.key| % U64, |b.key| % U64, KeysBytes(a.key) + r, KeysBytes(b.key) + s);
    KeysCancel(a.key, b.key, r, s);
  }

  /** A change up to its operation, which the signature only records in the strict suffix. */
  function Legacy(c: EntityPatch): EntityPatch { c.(operation := LegacyPatch) }

  lemma ChangeCancel(a: EntityPatch, b: EntityPatch, r: Bytes, s: Bytes)
    requires |ChangeBytes(a)| <= MAX_BYTES && |ChangeBytes(b)| <= MAX_BYTES
    requires ChangeBytes(a) + r == ChangeBytes(b) + s
    ensures Legacy(a) == Legacy(b) && r == s
  {
    PatchesBytesLength(a.fields);
    PatchesBytesLength(b.fields);
    hide Plain, Number, TargetBytes, PatchesBytes;
    var fa, fb := [Flag(a.createIfMissing), Flag(a.checkVersion)], [Flag(b.createIfMissing), Flag(b.checkVersion)];
    var pa, pb := PatchesBytes(a.fields) + r, PatchesBytes(b.fields) + s;
    var na, nb := Number(|a.fields| % U64) + pa, Number(|b.fields| % U64) + pb;
    var va, vb := Number(a.expectedVersion) + na, Number(b.expectedVersion) + nb;
    Regroup(TargetBytes(a.target), fa, Number(a.expectedVersion), Number(|a.fields| % U64), PatchesBytes(a.fields), r);
    Regroup(TargetBytes(b.target), fb, Number(b.expectedVersion), Number(|b.fields| % U64), PatchesBytes(b.fields), s);
    TargetCancel(a.target, b.target, fa + va, fb + vb);
    HeadCancel(fa, fb, va, vb);
    assert fa[0] == fb[0] && fa[1] == fb[1];
    NumberCancel(a.expectedVersion, b.expectedVersion, na, nb);
    NumberCancel(|a.fields| % U64, |b.fields| % U64, pa, pb);
    PatchesCancel(a.fields, b.fields, r, s);
  }

  lemma {:induction false} ChangesCancel(a: seq<EntityPatch>, b: seq<EntityPatch>, r: Bytes, s: Bytes)
    requires |a| == |b| && |ChangesBytes(a)| <= MAX_BYTES && |ChangesBytes(b)| <= MAX_BYTES
    requires ChangesBytes(a) + r == ChangesBytes(b) + s
    ensures forall i | 0 <= i < |a| :: Legacy(a[i]) == Legacy(b[i])
    ensures r == s
  {
    hide ChangeBytes;
    if a == [] {
      assert ChangesBytes(a) + r == r && ChangesBytes(b) + s == s;
    } else {
      var ra, rb := ChangesBytes(a[1..]) + r, ChangesBytes(b[1..]) + s;
      assert ChangesBytes(a) + r == ChangeBytes(a[0]) + ra;
      assert ChangesBytes(b) + s == ChangeBytes(b[0]) + rb;
      ChangeCancel(a[0], b[0], ra, rb);
      ChangesCancel(a[1..], b[1..], r, s);
    }
  }

  lemma {:induction false} ChangesBytesLength(changes: seq<EntityPatch>)
    ensures |ChangesBytes(changes)| >= |changes|
  {
    if changes != [] { ChangesBytesLength(changes[1..]); }
  }

  lemma StrictCancel(a: seq<EntityPatch>, b: seq<EntityPatch>)
    requires |a| == |b| && StrictBytes(a) == StrictBytes(b)
    ensures forall i | 0 <= i < |a| :: a[i].operation == b[i].operation
  {
    hide Frame;
    if AnyStrict(a) {
      assert AnyStrict(b);
      HeadCancel(Frame(STRICT_MARK), Frame(STRICT_MARK), OperationsBytes(a), OperationsBytes(b));
      forall i | 0 <= i < |a| ensures a[i].operation == b[i].operation {
        assert OperationsBytes(a)[i] == OperationsBytes(b)[i];
      }
    } else {
      assert !AnyStrict(b);
      forall i | 0 <= i < |a| ensures a[i].operation == b[i].operation { assert a[i] in a && b[i] in b; }
    }
  }

  lemma SignatureBytesInjective(a: seq<EntityPatch>, b: seq<EntityPatch>)
    requires |SignatureBytes(a)| <= MAX_BYTES && SignatureBytes(a) == SignatureBytes(b)
    ensures a == b
  {
    ChangesBytesLength(a);
    ChangesBytesLength(b);
    hide Frame, Number, ChangesBytes, StrictBytes, Ascii;
    var ta, tb := ChangesBytes(a) + StrictBytes(a), ChangesBytes(b) + StrictBytes(b);
    assert SignatureBytes(a) == Frame(REQUEST_MARK) + (Number(|a| % U64) + ta);
    assert SignatureBytes(b) == Frame(REQUEST_MARK) + (Number(|b| % U64) + tb);
    HeadCancel(Frame(REQUEST_MARK), Frame(REQUEST_MARK), Number(|a| % U64) + ta, Number(|b| % U64) + tb);
    NumberCancel(|a| % U64, |b| % U64, ta, tb);
    ChangesCancel(a, b, StrictBytes(a), StrictBytes(b));
    StrictCancel(a, b);
    forall i | 0 <= i < |a| ensures a[i] == b[i] { assert Legacy(a[i]) == Legacy(b[i]); }
  }

  /** Two accepted requests have one signature exactly when their changes agree up to the spelling of numbers. */
  lemma SignatureInjective(lib: Library, p: SaveRequest, q: SaveRequest)
    requires Signature(lib, p).Ok? && Signature(lib, q).Ok?
    ensures Signature(lib, p) == Signature(lib, q) <==> CanonChanges(p.changes) == CanonChanges(q.changes)
  {
    hide SignatureBytes, ChangesEncodable, CanonChanges;
    if Signature(lib, p) == Signature(lib, q) {
      SignatureBytesInjective(CanonChanges(p.changes), CanonChanges(q.changes));
    }
  }

  // ---- Hash fields -------------------------------------------------------------------

  /** `EntityCodec::validate_value`. */
  predicate ValidValue(lib: Library, v: Value, field: FieldSchema, key: bool) {
    && (if v.NullValue? then !key && field.nullable else KindOf(v) == field.kind)
    && Encodable(lib, v)
  }

  /** The key columns of a target; the first schema key wins if two share a column. */
  function KeyMap(lib: Library, keys: seq<FieldSchema>, target: EntityRef): Option<map<Bytes, Value>> {
    if keys == [] then Some(map[])
    else match FindNamed(target.key, keys[0].name)
      case None => None
      case Some(found) =>
        if !ValidValue(lib, found.data, keys[0], true) then None
        else match KeyMap(lib, keys[1..], target)
          case None => None
          case Some(rest) => Some(rest[keys[0].column := found.data])
  }

  function ObjectBytes(table: Bytes, columns: map<Bytes, Value>): Bytes {
    Frame(OBJECT) + Frame(table) + FieldsBytes(Sorted(columns.Keys), columns)
  }

  /** `EntityCodec::object_field`: where an entity lives in the hash. */
  function ObjectField(lib: Library, schema: EntitySchema, target: EntityRef): Result<Bytes> {
    if |target.key| != |schema.keys| || KeyMap(lib, schema.keys, target).None? then Err(InvalidRequest)
    else
      var bytes := ObjectBytes(schema.table, CanonFields(KeyMap(lib, schema.keys, target).value));
      if |bytes| > MAX_BYTES then Err(InvalidRequest) else Ok(bytes)
  }

  /** `EntityCodec::ledger_field`: where the record of a request id lives. */
  function LedgerField(requestId: Bytes): Bytes {
    Frame(REQUEST) + Frame(requestId)
  }

  lemma {:induction false} FieldsCancel(a: seq<Bytes>, f: map<Bytes, Value>, b: seq<Bytes>, g: map<Bytes, Value>)
    requires Covers(a, f) && Covers(b, g) && |FieldsBytes(a, f)| <= MAX_BYTES
    requires FieldsBytes(a, f) == FieldsBytes(b, g)
    ensures a == b && forall c | c in a :: f[c] == g[c]
  {
    hide Frame, Plain;
    if a != [] && b != [] {
      var ra, rb := FieldsBytes(a[1..], f), FieldsBytes(b[1..], g);
      assert FieldsBytes(a, f) == Frame(a[0]) + (Plain(f[a[0]]) + ra);
      assert FieldsBytes(b, g) == Frame(b[0]) + (Plain(g[b[0]]) + rb);
      FrameCancel(a[0], b[0], Plain(f[a[0]]) + ra, Plain(g[b[0]]) + rb);
      PlainCancel(f[a[0]], g[b[0]], ra, rb);
      FieldsCancel(a[1..], f, b[1..], g);
      assert a == [a[0]] + a[1..] && b == [b[0]] + b[1..];
    }
  }

  lemma ObjectBytesInjective(table: Bytes, f: map<Bytes, Value>, other: Bytes, g: map<Bytes, Value>)
    requires |ObjectBytes(table, f)| <= MAX_BYTES && ObjectBytes(table, f) == ObjectBytes(other, g)
    ensures table == other && f == g
  {
    hide Frame, FieldsBytes, Sorted, Ascii;
    var a, b := Sorted(f.Keys), Sorted(g.Keys);
    var ra, rb := FieldsBytes(a, f), FieldsBytes(b, g);
    assert ObjectBytes(table, f) == Frame(OBJECT) + (Frame(table) + ra);
    assert ObjectBytes(other, g) == Frame(OBJECT) + (Frame(other) + rb);
    HeadCancel(Frame(OBJECT), Frame(OBJECT), Frame(table) + ra, Frame(other) + rb);
    FrameCancel(table, other, ra, rb);
    FieldsCancel(a, f, b, g);
    assert f.Keys == g.Keys;
  }

  /** One hash field means one table and one set of key values, whatever the schemas and spellings. */
  lemma ObjectFieldSeparates(lib: Library, s: EntitySchema, t: EntityRef, s': EntitySchema, t': EntityRef)
    requires ObjectField(lib, s, t).Ok? && ObjectField(lib, s', t').Ok?
    ensures ObjectField(lib, s, t) == ObjectField(lib, s', t')
       <==> && s.table == s'.table
            && CanonFields(KeyMap(lib, s.keys, t).value) == CanonFields(KeyMap(lib, s'.keys, t').value)
  {
    hide ObjectBytes, CanonFields, KeyMap;
    if ObjectField(lib, s, t) == ObjectField(lib, s', t') {
      ObjectBytesInjective(s.table, CanonFields(KeyMap(lib, s.keys, t).value), s'.table,
        CanonFields(KeyMap(lib, s'.keys, t').value));
    }
  }

  predicate DistinctNames(values: seq<NamedValue>) {
    forall i, j | 0 <= i < j < |values| :: values[i].name != values[j].name
  }

  lemma FindNamedByMembership(a: seq<NamedValue>, b: seq<NamedValue>, name: Bytes)
    requires DistinctNames(a) && DistinctNames(b) && multiset(a) == multiset(b)
    ensures FindNamed(a, name) == FindNamed(b, name)
  {
    forall v ensures v in a <==> v in b { assert v in a <==> v in multiset(a); assert v in b <==> v in multiset(b); }
    var x, y := FindNamed(a, name), FindNamed(b, name);
    if x.Some? && y.Some? {
      var i :| 0 <= i < |b| && b[i] == x.value;
      var j :| 0 <= j < |b| && b[j] == y.value;
      assert i == j;
    }
  }

  lemma {:induction false} KeyMapOrder(lib: Library, keys: seq<FieldSchema>, t: EntityRef, u: EntityRef)
    requires DistinctNames(t.key) && DistinctNames(u.key) && multiset(t.key) == multiset(u.key)
    ensures KeyMap(lib, keys, t) == KeyMap(lib, keys, u)
  {
    hide ValidValue, FindNamed;
    if keys != [] {
      FindNamedByMembership(t.key, u.key, keys[0].name);
      KeyMapOrder(lib, keys[1..], t, u);
    }
  }

  /** The order in which a request lists its key fields does not matter. */
  lemma ObjectFieldOrder(lib: Library, schema: EntitySchema, t: EntityRef, u: EntityRef)
    requires DistinctNames(t.key) && DistinctNames(u.key) && multiset(t.key) == multiset(u.key)
    ensures ObjectField(lib, schema, t) == ObjectField(lib, schema, u)
  {
    hide ObjectBytes, CanonFields, KeyMap;
    assert |t.key| == |multiset(t.key)| == |u.key|;
    KeyMapOrder(lib, schema.keys, t, u);
  }

  lemma ObjectNotLedger(table: Bytes, columns: map<Bytes, Value>, requestId: Bytes)
    ensures ObjectBytes(table, columns) != LedgerField(requestId)
  {
    MarkLengths();
    hide ObjectBytes, LedgerField, Ascii;
    if ObjectBytes(table, columns) == LedgerField(requestId) { FrontMark(table, columns, requestId); }
  }

  lemma MarkLengths()
    ensures |OBJECT| == 6 && |REQUEST| == 7
  {
  }

  lemma FrontMark(table: Bytes, columns: map<Bytes, Value>, requestId: Bytes)
    requires ObjectBytes(table, columns) == LedgerField(requestId) && |OBJECT| < U64 && |REQUEST| < U64
    ensures OBJECT == REQUEST
  {
    hide Frame, FieldsBytes, Sorted, Ascii;
    var front, mark := OBJECT, REQUEST;
    var rest := FieldsBytes(Sorted(columns.Keys), columns);
    assert Frame(front) + Frame(table) + rest == Frame(front) + (Frame(table) + rest);
    FrameCancel(front, mark, Frame(table) + rest, Frame(requestId));
  }

  lemma LedgerFieldInjective(requestId: Bytes, other: Bytes)
    requires |requestId| < U64 && |other| < U64 && LedgerField(requestId) == LedgerField(other)
    ensures requestId == other
  {
    hide Frame, Ascii;
    HeadCancel(Frame(REQUEST), Frame(REQUEST), Frame(requestId), Frame(other));
    assert Frame(requestId) + [] == Frame(requestId) && Frame(other) + [] == Frame(other);
    FrameCancel(requestId, other, [], []);
  }

  /** Objects and idempotency records never share a hash field. */
  lemma FieldsNeverCollide(lib: Library, schema: EntitySchema, t: EntityRef, requestId: Bytes)
    ensures ObjectField(lib, schema, t) != Ok(LedgerField(requestId))
  {
    hide ObjectBytes, LedgerField, CanonFields, KeyMap;
    if ObjectField(lib, schema, t).Ok? {
      ObjectNotLedger(schema.table, CanonFields(KeyMap(lib, schema.keys, t).value), requestId);
    }
  }

  // ---- Idempotency records -------------------------------------------------------------

  function VersionsBytes(entities: seq<CommittedEntity>): (r: Bytes)
    ensures |r| == 8 * |entities|
  {
    if entities == [] then [] else Number(entities[0].version) + VersionsBytes(entities[1..])
  }

  function LedgerBytes(signature: Bytes, entities: seq<CommittedEntity>): Bytes {
    Frame(COMMIT_MARK) + Frame(signature) + Number(|entities| % U64) + VersionsBytes(entities)
  }

  /** `EntityCodec::ledger`. */
  function Ledger(signature: Bytes, entities: seq<CommittedEntity>): Result<Bytes> {
    var bytes := LedgerBytes(signature, entities);
    if |bytes| > MAX_BYTES then Err(InvalidRequest) else Ok(bytes)
  }

  /** A committed version is a positive int64, except that a deletion has none. */
  predicate CommittedVersion(version: uint64, operation: Operation) {
    version <= INT64_MAX && (version == 0 <==> operation.Delete?)
  }

  function TakeVersions(changes: seq<EntityPatch>, b: Bytes): Option<Taken<seq<CommittedEntity>>> {
    if changes == [] then Some(Taken([], b))
    else match TakeNumber(b)
      case None => None
      case Some(Taken(version, rest)) =>
        if !CommittedVersion(version, changes[0].operation) then None
        else match TakeVersions(changes[1..], rest)
          case None => None
          case Some(Taken(entities, tail)) =>
            Some(Taken([CommittedEntity(changes[0].target, version, changes[0].operation)] + entities, tail))
  }

  /** `EntityCodec::replay`: answers a request from the record of its id. */
  function Replay(request: SaveRequest, signature: Bytes, b: Bytes): Result<SaveResult> {
    if |b| > MAX_BYTES then Err(InternalError)
    else match TakeText(b)
      case None => Err(InternalError)
      case Some(Taken(mark, b1)) =>
        if mark != COMMIT_MARK then Err(InternalError)
        else match TakeText(b1)
          case None => Err(InternalError)
          case Some(Taken(recorded, b2)) =>
            if recorded != signature then Err(Conflict) else ReplayVersions(request, b2)
  }

  function ReplayVersions(request: SaveRequest, b: Bytes): Result<SaveResult> {
    match TakeNumber(b)
    case None => Err(InternalError)
    case Some(Taken(count, rest)) =>
      if count != |request.changes| then Err(InternalError)
      else match TakeVersions(request.changes, rest)
        case None => Err(InternalError)
        case Some(Taken(entities, tail)) =>
          if tail != [] then Err(InternalError)
          else Ok(SaveResult(Success, request.requestId, true, entities))
  }

  /** The entities list a commit of these changes reports. */
  predicate Reports(changes: seq<EntityPatch>, entities: seq<CommittedEntity>) {
    && |entities| == |changes|
    && forall i | 0 <= i < |changes| ::
         && entities[i].target == changes[i].target && entities[i].operation == changes[i].operation
         && CommittedVersion(entities[i].version, entities[i].operation)
  }

  lemma {:induction false} TakeVersionsBack(changes: seq<EntityPatch>, entities: seq<CommittedEntity>)
    requires Reports(changes, entities)
    ensures TakeVersions(changes, VersionsBytes(entities)) == Some(Taken(entities, []))
  {
    hide Number, TakeNumber;
    if changes != [] {
      TakeNumberBack(entities[0].version, VersionsBytes(entities[1..]));
      TakeVersionsBack(changes[1..], entities[1..]);
      assert [entities[0]] + entities[1..] == entities;
    }
  }

  lemma LedgerTake(signature: Bytes, entities: seq<CommittedEntity>)
    requires |LedgerBytes(signature, entities)| <= MAX_BYTES
    ensures var rest := Number(|entities|) + VersionsBytes(entities);
      && TakeText(LedgerBytes(signature, entities)) == Some(Taken(COMMIT_MARK, Frame(signature) + rest))
      && TakeText(Frame(signature) + rest) == Some(Taken(signature, rest))
      && TakeNumber(rest) == Some(Taken(|entities|, VersionsBytes(entities)))
  {
    hide Number, TakeNumber, TakeText, VersionsBytes, Ascii;
    var rest := Number(|entities|) + VersionsBytes(entities);
    assert LedgerBytes(signature, entities) == Frame(COMMIT_MARK) + (Frame(signature) + rest);
    TakeTextBack(COMMIT_MARK, Frame(signature) + rest);
    TakeTextBack(signature, rest);
    TakeNumberBack(|entities|, VersionsBytes(entities));
  }

  /** Replaying a record gives the first answer again; a different payload under the same id is a conflict. */
  lemma ReplayLedger(request: SaveRequest, signature: Bytes, recorded: Bytes, entities: seq<CommittedEntity>)
    requires Reports(request.changes, entities) && Ledger(recorded, entities).Ok?
    ensures Replay(request, signature, Ledger(recorded, entities).value)
         == if signature == recorded then Ok(SaveResult(Success, request.requestId, true, entities)) else Err(Conflict)
  {
    hide Number, TakeNumber, TakeText, LedgerBytes, VersionsBytes, TakeVersions, Frame, Ascii;
    LedgerTake(recorded, entities);
    TakeVersionsBack(request.changes, entities);
  }

  /** A record never answers for a different payload. */
  lemma ReplayOther(request: SaveRequest, signature: Bytes, recorded: Bytes, entities: seq<CommittedEntity>)
    requires Ledger(recorded, entities).Ok? && signature != recorded
    ensures Replay(request, signature, Ledger(recorded, entities).value) == Err(Conflict)
  {
    hide Number, TakeNumber, TakeText, LedgerBytes, VersionsBytes, ReplayVersions, Frame, Ascii;
    LedgerTake(recorded, entities);
  }

  /** The committed versions, told for another spelling of the same changes. */
  function Retold(changes: seq<EntityPatch>, entities: seq<CommittedEntity>): (r: seq<CommittedEntity>)
    requires |changes| == |entities|
    ensures |r| == |changes|
    ensures forall i | 0 <= i < |r| ::
      r[i] == CommittedEntity(changes[i].target, entities[i].version, changes[i].operation)
  {
    if changes == [] then []
    else
      [CommittedEntity(changes[0].target, entities[0].version, changes[0].operation)]
      + Retold(changes[1..], entities[1..])
  }

  lemma {:induction false} RetoldBytes(changes: seq<EntityPatch>, entities: seq<CommittedEntity>)
    requires |changes| == |entities|
    ensures VersionsBytes(Retold(changes, entities)) == VersionsBytes(entities)
  {
    hide Number;
    if changes != [] {
      RetoldBytes(changes[1..], entities[1..]);
      assert Retold(changes, entities)[1..] == Retold(changes[1..], entities[1..]);
    }
  }

  /** The same payload, however spelled, is answered with the versions of the first commit. */
  lemma ReplaySame(lib: Library, first: SaveRequest, again: SaveRequest, entities: seq<CommittedEntity>)
    requires Signature(lib, first).Ok? && Signature(lib, again) == Signature(lib, first)
    requires Reports(first.changes, entities) && Ledger(Signature(lib, first).value, entities).Ok?
    ensures |again.changes| == |entities|
    ensures Replay(again, Signature(lib, again).value, Ledger(Signature(lib, first).value, entities).value)
         == Ok(SaveResult(Success, again.requestId, true, Retold(again.changes, entities)))
  {
    hide Signature, Replay, VersionsBytes, Number, Frame, Ascii, CanonChange;
    SignatureInjective(lib, first, again);
    forall i | 0 <= i < |first.changes| ensures again.changes[i].operation == first.changes[i].operation {
      SameOperation(first.changes, again.changes, i);
    }
    RetoldBytes(again.changes, entities);
    var signature := Signature(lib, first).value;
    assert Ledger(signature, Retold(again.changes, entities)) == Ledger(signature, entities);
    ReplayLedger(again, signature, signature, Retold(again.changes, entities));
  }

  lemma SameOperation(a: seq<EntityPatch>, b: seq<EntityPatch>, i: nat)
    requires CanonChanges(a) == CanonChanges(b) && i < |a| == |b|
    ensures a[i].operation == b[i].operation
  {
    hide CanonKeys, CanonPatches;
    assert CanonChanges(a)[i] == CanonChange(a[i]) && CanonChanges(b)[i] == CanonChange(b[i]);
  }
}
