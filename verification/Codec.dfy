/** `EntityCodec` on values and documents: the stored byte format of an entity. */
module Codec {
  import opened ByteStrings
  import opened Results
  import opened Entities
  import opened Framing
  import opened Increments
  import D = Decimals
  import DT = DecimalTexts

  const MAX_FIELDS := 65536
  const ENTITY_MARK := Ascii("redis-entity-v1")

  datatype Document = Document(version: uint64, fields: map<Bytes, Value>)

  const EMPTY := Document(0, map[])

  // ---- Canonical values ------------------------------------------------------

  /** What the store keeps of a value: decimals in normal form, no negative zero. */
  function Canon(v: Value): Value {
    match v
    case DecimalValue(t) => (match DT.Parse(t) case Ok(d) => DecimalValue(DT.Print(d)) case Err(_) => v)
    case RealValue(bits) => if bits == SIGN_BIT then RealValue(0) else v
    case _ => v
  }

  function CanonFields(fields: map<Bytes, Value>): map<Bytes, Value> {
    map column | column in fields :: Canon(fields[column])
  }

  function CanonDocument(d: Document): Document {
    Document(d.version, CanonFields(d.fields))
  }

  // ---- Values ----------------------------------------------------------------

  function Tag(kind: Kind): byte {
    match kind
    case Null => 0 case Boolean => 1 case SignedInteger => 2 case UnsignedInteger => 3 case Real => 4
    case Decimal => 5 case Text => 6 case Json => 7 case Blob => 8
  }

  /** The bit pattern of an int64, and back. */
  function Unsign(i: int64): uint64 { if i < 0 then i + U64 else i }
  function Sign(u: uint64): int64 { if u >= SIGN_BIT then u - U64 else u }

  function Payload(v: Value): Bytes {
    match v
    case NullValue => []
    case BooleanValue(flag) => [if flag then 1 else 0]
    case SignedValue(i) => Number(Unsign(i))
    case UnsignedValue(u) => Number(u)
    case RealValue(bits) => Number(bits)
    case DecimalValue(t) => Frame(t)
    case TextValue(t) => Frame(t)
    case JsonValue(t) => Frame(t)
    case BlobValue(t) => Frame(t)
  }

  /** The octets of a canonical value. */
  function Plain(v: Value): Bytes {
    [Tag(KindOf(v))] + Payload(v)
  }

  /** encode_value accepts v. */
  predicate Encodable(lib: Library, v: Value) {
    && (v.RealValue? ==> Finite(v.bits))
    && (v.DecimalValue? ==> DT.Parse(v.decimal).Ok?)
    && (v.JsonValue? ==> lib.acceptsJson(v.json))
    && |Plain(Canon(v))| <= MAX_BYTES
  }

  function TakeValue(b: Bytes): Option<Taken<Value>> {
    match TakeByte(b)
    case None => None
    case Some(Taken(tag, rest)) =>
      if tag == 0 then Some(Taken(NullValue, rest))
      else if tag == 1 then
        match TakeByte(rest)
        case None => None
        case Some(Taken(flag, after)) => if flag > 1 then None else Some(Taken(BooleanValue(flag != 0), after))
      else if tag <= 4 then
        match TakeNumber(rest)
        case None => None
        case Some(Taken(n, after)) =>
          var item :=
            if tag == 2 then SignedValue(Sign(n)) else if tag == 3 then UnsignedValue(n) else RealValue(n);
          Some(Taken(item, after))
      else if tag <= 8 then
        match TakeText(rest)
        case None => None
        case Some(Taken(t, after)) =>
          var item :=
            if tag == 5 then DecimalValue(t) else if tag == 6 then TextValue(t)
            else if tag == 7 then JsonValue(t) else BlobValue(t);
          Some(Taken(item, after))
      else None
  }

  /** A canonical value in front of any octets is read back, leaving those octets. */
  lemma TakeValueBack(v: Value, rest: Bytes)
    requires |Plain(v)| <= MAX_BYTES
    ensures TakeValue(Plain(v) + rest) == Some(Taken(v, rest))
  {
    hide Number, Frame, TakeNumber, TakeText;
    var b := Plain(v) + rest;
    assert b[1..] == Payload(v) + rest;
    match v
    case NullValue => assert b[1..] == rest;
    case BooleanValue(flag) => assert b[1..][1..] == rest;
    case SignedValue(i) => TakeNumberBack(Unsign(i), rest);
    case UnsignedValue(u) => TakeNumberBack(u, rest);
    case RealValue(bits) => TakeNumberBack(bits, rest);
    case DecimalValue(t) => TakeTextBack(t, rest);
    case TextValue(t) => TakeTextBack(t, rest);
    case JsonValue(t) => TakeTextBack(t, rest);
    case BlobValue(t) => TakeTextBack(t, rest);
  }

  /** Storing twice is storing once. */
  lemma CanonTwice(v: Value)
    ensures Canon(Canon(v)) == Canon(v)
  {
    hide DT.Parse, DT.Print;
    if v.DecimalValue? && DT.Parse(v.decimal).Ok? {
      ParsedNormal(v.decimal);
      DT.ParsePrint(DT.Parse(v.decimal).value);
    }
  }

  /** What is stored for the value can be read as a value again: a decimal's print is within the parser's limit. */
  predicate Rereadable(v: Value) {
    v.DecimalValue? && DT.Parse(v.decimal).Ok? ==> |DT.Print(DT.Parse(v.decimal).value)| <= D.LIMIT
  }

  /** The stored form of an acceptable value is acceptable exactly when it can be read again. */
  lemma CanonEncodable(lib: Library, v: Value)
    requires Encodable(lib, v)
    ensures Encodable(lib, Canon(v)) <==> Rereadable(v)
    ensures KindOf(Canon(v)) == KindOf(v)
  {
    hide DT.Parse, DT.Print, Plain;
    CanonTwice(v);
    if v.DecimalValue? {
      ParsedNormal(v.decimal);
      DT.ParsePrint(DT.Parse(v.decimal).value);
    } else if v.RealValue? {
      ZeroIsFinite();
    }
  }

  lemma ZeroIsFinite()
    ensures Finite(0)
  {
  }

  // ---- Documents -------------------------------------------------------------

  function FieldsBytes(columns: seq<Bytes>, fields: map<Bytes, Value>): Bytes
    requires forall c | c in columns :: c in fields
  {
    if columns == [] then []
    else Frame(columns[0]) + Plain(fields[columns[0]]) + FieldsBytes(columns[1..], fields)
  }

  function DocumentBytes(d: Document): Bytes {
    Frame(ENTITY_MARK) + Number(d.version) + Number(|d.fields| % U64) + FieldsBytes(Sorted(d.fields.Keys), d.fields)
  }

  /** `EntityCodec::encode`. */
  function Encode(lib: Library, d: Document): Result<Bytes> {
    if exists c | c in d.fields :: !Encodable(lib, d.fields[c]) then Err(InvalidRequest)
    else
      var bytes := DocumentBytes(CanonDocument(d));
      if |bytes| > MAX_BYTES then Err(InvalidRequest) else Ok(bytes)
  }

  function TakeFields(count: nat, b: Bytes, fields: map<Bytes, Value>): Option<Taken<map<Bytes, Value>>> {
    if count == 0 then Some(Taken(fields, b))
    else match TakeText(b)
      case None => None
      case Some(Taken(column, rest)) =>
        match TakeValue(rest)
        case None => None
        case Some(Taken(item, after)) =>
          if column in fields then None else TakeFields(count - 1, after, fields[column := item])
  }

  /** `EntityCodec::decode`. */
  function Decode(b: Bytes): Result<Document> {
    if |b| > MAX_BYTES then Err(InternalError)
    else match TakeText(b)
      case None => Err(InternalError)
      case Some(Taken(mark, b1)) =>
        if mark != ENTITY_MARK then Err(InternalError)
        else match TakeNumber(b1)
          case None => Err(InternalError)
          case Some(Taken(version, b2)) =>
            if version == 0 || version > INT64_MAX then Err(InternalError)
            else DecodeFields(version, b2)
  }

  function DecodeFields(version: uint64, b: Bytes): Result<Document> {
    match TakeNumber(b)
    case None => Err(InternalError)
    case Some(Taken(count, rest)) =>
      if count > MAX_FIELDS then Err(InternalError)
      else match TakeFields(count, rest, map[])
        case None => Err(InternalError)
        case Some(Taken(fields, tail)) => if tail != [] then Err(InternalError) else Ok(Document(version, fields))
  }

  predicate Distinct(columns: seq<Bytes>) {
    forall i, j | 0 <= i < j < |columns| :: columns[i] != columns[j]
  }

  predicate Covers(columns: seq<Bytes>, fields: map<Bytes, Value>) {
    forall c | c in columns :: c in fields
  }

  function Only(columns: seq<Bytes>, fields: map<Bytes, Value>): map<Bytes, Value>
    requires Covers(columns, fields)
  {
    map c | c in columns :: fields[c]
  }

  lemma {:induction false} TakeFieldsBack(columns: seq<Bytes>, fields: map<Bytes, Value>, done: map<Bytes, Value>,
      rest: Bytes)
    requires Covers(columns, fields) && Distinct(columns)
    requires forall c | c in columns :: c !in done
    requires |FieldsBytes(columns, fields)| <= MAX_BYTES
    ensures TakeFields(|columns|, FieldsBytes(columns, fields) + rest, done)
      == Some(Taken(done + Only(columns, fields), rest))
  {
    hide Frame, Plain, TakeText, TakeValue, Only;
    if columns == [] {
      assert FieldsBytes(columns, fields) + rest == rest;
      OnlyNone(fields, done);
    } else {
      var c, v, later := columns[0], fields[columns[0]], columns[1..];
      var tail := FieldsBytes(later, fields) + rest;
      FieldsBytesCons(columns, fields, rest);
      TakeTextBack(c, Plain(v) + tail);
      TakeValueBack(v, tail);
      TakeFieldsBack(later, fields, done[c := v], rest);
      OnlyCons(columns, fields, done);
    }
  }

  lemma FieldsBytesCons(columns: seq<Bytes>, fields: map<Bytes, Value>, rest: Bytes)
    requires columns != [] && Covers(columns, fields)
    ensures FieldsBytes(columns, fields) + rest
         == Frame(columns[0]) + (Plain(fields[columns[0]]) + (FieldsBytes(columns[1..], fields) + rest))
  {
    hide Frame, Plain;
  }

  lemma OnlyNone(fields: map<Bytes, Value>, done: map<Bytes, Value>)
    ensures done + Only([], fields) == done
  {
  }

  lemma OnlyCons(columns: seq<Bytes>, fields: map<Bytes, Value>, done: map<Bytes, Value>)
    requires columns != [] && Covers(columns, fields) && Distinct(columns)
    ensures Covers(columns[1..], fields)
    ensures done[columns[0] := fields[columns[0]]] + Only(columns[1..], fields) == done + Only(columns, fields)
  {
  }

  lemma OnlyAll(columns: seq<Bytes>, fields: map<Bytes, Value>)
    requires forall c :: c in columns <==> c in fields.Keys
    ensures map[] + Only(columns, fields) == fields
  {
    assert Only(columns, fields).Keys == fields.Keys;
  }

  lemma DocumentBytesTake(d: Document)
    requires |DocumentBytes(d)| <= MAX_BYTES
    ensures var rest := FieldsBytes(Sorted(d.fields.Keys), d.fields);
      && |rest| <= MAX_BYTES
      && TakeText(DocumentBytes(d)) == Some(Taken(ENTITY_MARK, Number(d.version) + (Number(|d.fields| % U64) + rest)))
      && TakeNumber(Number(d.version) + (Number(|d.fields| % U64) + rest))
        == Some(Taken(d.version, Number(|d.fields| % U64) + rest))
      && TakeNumber(Number(|d.fields| % U64) + rest) == Some(Taken(|d.fields| % U64, rest))
  {
    hide Frame, Number, TakeText, TakeNumber, FieldsBytes, Sorted, Ascii;
    var rest := FieldsBytes(Sorted(d.fields.Keys), d.fields);
    var count := Number(|d.fields| % U64);
    assert DocumentBytes(d) == Frame(ENTITY_MARK) + (Number(d.version) + (count + rest));
    TakeTextBack(ENTITY_MARK, Number(d.version) + (count + rest));
    TakeNumberBack(d.version, count + rest);
    TakeNumberBack(|d.fields| % U64, rest);
  }

  lemma {:induction false} FieldsBytesLength(columns: seq<Bytes>, fields: map<Bytes, Value>)
    requires Covers(columns, fields)
    ensures |FieldsBytes(columns, fields)| >= |columns|
  {
    if columns != [] { FieldsBytesLength(columns[1..], fields); }
  }

  lemma FieldsRead(d: Document)
    requires |FieldsBytes(Sorted(d.fields.Keys), d.fields)| <= MAX_BYTES
    ensures |d.fields| < U64
    ensures TakeFields(|d.fields|, FieldsBytes(Sorted(d.fields.Keys), d.fields), map[]) == Some(Taken(d.fields, []))
  {
    hide FieldsBytes, TakeFields, Sorted, Only;
    var columns := Sorted(d.fields.Keys);
    FieldsBytesLength(columns, d.fields);
    SortedDistinct(d.fields.Keys);
    TakeFieldsBack(columns, d.fields, map[], []);
    assert FieldsBytes(columns, d.fields) + [] == FieldsBytes(columns, d.fields);
    OnlyAll(columns, d.fields);
    assert |d.fields| == |d.fields.Keys|;
  }

  lemma SortedDistinct(keys: set<Bytes>)
    ensures Distinct(Sorted(keys))
  {
    var r := Sorted(keys);
    forall i, j | 0 <= i < j < |r| ensures r[i] != r[j] { LessTrichotomy(r[i], r[j]); }
  }

  /**
   Decoding an encoded document gives its canonical form exactly when the version and the field count are storable.
   */
  lemma DecodeEncode(lib: Library, d: Document)
    requires Encode(lib, d).Ok?
    ensures Decode(Encode(lib, d).value)
         == if 1 <= d.version <= INT64_MAX && |d.fields| <= MAX_FIELDS then Ok(CanonDocument(d)) else Err(InternalError)
  {
    hide TakeText, TakeNumber, TakeFields, DocumentBytes, FieldsBytes, Sorted, Frame, Number, Encodable, Canon, Ascii;
    var c := CanonDocument(d);
    assert c.fields.Keys == d.fields.Keys;
    assert |c.fields| == |c.fields.Keys| && |d.fields| == |d.fields.Keys|;
    DocumentBytesTake(c);
    FieldsRead(c);
  }

  /** One encoding means one canonical form. */
  lemma EncodeInjective(lib: Library, d: Document, e: Document)
    requires Encode(lib, d).Ok? && Encode(lib, d) == Encode(lib, e)
    ensures CanonDocument(d) == CanonDocument(e)
  {
    hide TakeText, TakeNumber, TakeFields, DocumentBytes, FieldsBytes, Sorted, Frame, Number, Encodable;
    hide CanonDocument, Ascii;
    DocumentBytesTake(CanonDocument(d));
    DocumentBytesTake(CanonDocument(e));
    FieldsRead(CanonDocument(d));
    FieldsRead(CanonDocument(e));
  }
}
