/** `Writer`, `Reader` and the document loops of the codec, proved to compute the stored format. */
module CodecLoops {
  import opened ByteStrings
  import opened Results
  import opened Entities
  import opened Framing
  import opened Codec
  import opened Increments
  import DT = DecimalTexts

  /** value >> (8 * octets). */
  function ShiftRight(value: nat, octets: nat): nat {
    if octets == 0 then value else ShiftRight(value, octets - 1) / 256
  }

  lemma {:induction false} ShiftBound(value: nat, octets: nat, left: nat)
    requires value < Pow(256, octets + left)
    ensures ShiftRight(value, octets) < Pow(256, left)
  {
    if octets > 0 { ShiftBound(value, octets - 1, left + 1); }
  }

  class Writer {
    var data: Bytes

    constructor ()
      ensures data == []
    {
      data := [];
    }

    method PutByte(value: byte)
      modifies this
      ensures data == old(data) + [value]
    {
      data := data + [value];
    }

    method PutNumber(value: uint64)
      modifies this
      ensures data == old(data) + Number(value)
    {
      var i := 8;
      Width8();
      ShiftBound(value, 8, 0);
      while i > 0
        invariant 0 <= i <= 8
        invariant data == old(data) + BigEndian(ShiftRight(value, i), 8 - i)
      {
        i := i - 1;
        data := data + [ShiftRight(value, i) % 256];
      }
    }

    /** False is the exception for a payload over the limit. */
    method PutText(value: Bytes) returns (ok: bool)
      modifies this
      ensures ok <==> |old(data)| + |Frame(value)| <= MAX_BYTES
      ensures ok ==> data == old(data) + Frame(value)
    {
      if |value| > MAX_BYTES {
        return false;
      }
      PutNumber(|value|);
      data := data + value;
      return |data| <= MAX_BYTES;
    }

    /** `encode_value`: refuses what cannot be stored, and writes the canonical form of the rest. */
    method PutValue(lib: Library, value: Value) returns (ok: bool)
      modifies this
      ensures ok ==> Encodable(lib, value) && data == old(data) + Plain(Canon(value))
      ensures !ok ==> !Encodable(lib, value) || |old(data)| + |Plain(Canon(value))| > MAX_BYTES
    {
      hide Number, Frame, DT.Parse, DT.Print, Finite;
      NumberWidth();
      PutByte(Tag(KindOf(value)));
      ok := true;
      match value
      case NullValue =>
      case BooleanValue(flag) => PutByte(if flag then 1 else 0);
      case SignedValue(i) => PutNumber(Unsign(i));
      case UnsignedValue(u) => PutNumber(u);
      case RealValue(bits) =>
        if !Finite(bits) {
          return false;
        }
        PutNumber(if bits == SIGN_BIT then 0 else bits);
      case DecimalValue(t) =>
        var parsed := DT.Parse(t);
        if parsed.Err? {
          return false;
        }
        ok := PutText(DT.Print(parsed.value));
      case TextValue(t) => ok := PutText(t);
      case JsonValue(t) =>
        if !lib.acceptsJson(t) {
          return false;
        }
        ok := PutText(t);
      case BlobValue(t) => ok := PutText(t);
    }

    /** The field loop of encode. */
    method PutFields(lib: Library, columns: seq<Bytes>, fields: map<Bytes, Value>) returns (ok: bool)
      requires Covers(columns, fields)
      modifies this
      ensures ok ==> data == old(data) + FieldsBytes(columns, CanonFields(fields)) && forall c | c in columns ::
        Encodable(lib, fields[c])
      ensures !ok ==> || |old(data)| + |FieldsBytes(columns, CanonFields(fields))| > MAX_BYTES
                      || exists c | c in columns :: !Encodable(lib, fields[c])
    {
      hide Number, Plain, Frame, Encodable, Canon;
      var i := 0;
      ghost var stored := CanonFields(fields);
      ghost var whole := data + FieldsBytes(columns, stored);
      assert columns[0..] == columns;
      while i < |columns|
        invariant 0 <= i <= |columns| && Covers(columns[i..], fields)
        invariant whole == data + FieldsBytes(columns[i..], stored)
        invariant forall k | 0 <= k < i :: Encodable(lib, fields[columns[k]])
      {
        FieldsSplit(columns[i..], stored, data);
        assert columns[i..][1..] == columns[i + 1..] && columns[i] in columns;
        ok := PutText(columns[i]);
        if !ok {
          return;
        }
        ok := PutValue(lib, fields[columns[i]]);
        if !ok {
          return;
        }
        i := i + 1;
      }
      return true;
    }
  }

  class Reader {
    const data: Bytes
    var pos: nat

    ghost predicate Valid()
      reads this
    {
      pos <= |data|
    }

    ghost function Rest(): Bytes
      reads this
      requires Valid()
    {
      data[pos..]
    }

    constructor (bytes: Bytes)
      ensures Valid() && data == bytes && Rest() == bytes
    {
      data, pos := bytes, 0;
    }

    method GetByte() returns (r: Option<byte>)
      requires Valid()
      modifies this
      ensures Valid()
      ensures match TakeByte(old(Rest()))
        case None => r.None?
        case Some(taken) => r == Some(taken.value) && Rest() == taken.rest
    {
      if pos == |data| {
        return None;
      }
      pos := pos + 1;
      return Some(data[pos - 1]);
    }

    method GetNumber() returns (r: Option<uint64>)
      requires Valid()
      modifies this
      ensures Valid()
      ensures match TakeNumber(old(Rest()))
        case None => r.None?
        case Some(taken) => r == Some(taken.value) && Rest() == taken.rest
    {
      var start: nat, out: nat, i := pos, 0, 0;
      while i < 8
        invariant 0 <= i <= 8 && pos == start + i <= |data|
        invariant out == FromBigEndian(data[start..pos])
      {
        if pos == |data| {
          return None;
        }
        out := 256 * out + data[pos];
        assert data[start..pos + 1][..pos - start] == data[start..pos];
        pos := pos + 1;
        i := i + 1;
      }
      assert data[start..pos] == old(Rest())[..8];
      FromBigEndianBound(data[start..pos]);
      Width8();
      return Some(out);
    }

    method GetText() returns (r: Option<Bytes>)
      requires Valid()
      modifies this
      ensures Valid()
      ensures match TakeText(old(Rest()))
        case None => r.None?
        case Some(taken) => r == Some(taken.value) && Rest() == taken.rest
    {
      var count := GetNumber();
      if count.None? || count.value > |data| - pos {
        return None;
      }
      assert data[pos..][..count.value] == data[pos..pos + count.value];
      r := Some(data[pos..pos + count.value]);
      pos := pos + count.value;
    }

    method GetValue() returns (r: Option<Value>)
      requires Valid()
      modifies this
      ensures Valid()
      ensures match TakeValue(old(Rest()))
        case None => r.None?
        case Some(taken) => r == Some(taken.value) && Rest() == taken.rest
    {
      hide TakeNumber, TakeText;
      var tag := GetByte();
      if tag.None? || tag.value > 8 {
        return None;
      }
      if tag.value == 0 {
        return Some(NullValue);
      } else if tag.value == 1 {
        var flag := GetByte();
        if flag.None? || flag.value > 1 {
          return None;
        }
        return Some(BooleanValue(flag.value != 0));
      } else if tag.value <= 4 {
        var n := GetNumber();
        if n.None? {
          return None;
        }
        return Some(if tag.value == 2 then SignedValue(Sign(n.value)) else if tag.value == 3 then UnsignedValue(n.value)
          else RealValue(n.value));
      } else {
        var t := GetText();
        if t.None? {
          return None;
        }
        return Some(if tag.value == 5 then DecimalValue(t.value) else if tag.value == 6 then TextValue(t.value)
                    else if tag.value == 7 then JsonValue(t.value) else BlobValue(t.value));
      }
    }

    /** The field loop of decode. */
    method GetFields(count: nat) returns (r: Option<map<Bytes, Value>>)
      requires Valid()
      modifies this
      ensures Valid()
      ensures match TakeFields(count, old(Rest()), map[])
        case None => r.None?
        case Some(taken) => r == Some(taken.value) && Rest() == taken.rest
    {
      hide TakeText, TakeValue;
      ghost var whole := TakeFields(count, Rest(), map[]);
      var fields, i := map[], 0;
      while i < count
        invariant 0 <= i <= count && Valid()
        invariant TakeFields(count - i, Rest(), fields) == whole
      {
        var column := GetText();
        if column.None? {
          return None;
        }
        var item := GetValue();
        if item.None? || column.value in fields {
          return None;
        }
        fields := fields[column.value := item.value];
        i := i + 1;
      }
      return Some(fields);
    }
  }

  /** `EntityCodec::decode`. */
  method DecodeDocument(bytes: Bytes) returns (r: Result<Document>)
    ensures r == Decode(bytes)
  {
    hide TakeText, TakeNumber, TakeFields, Ascii;
    if |bytes| > MAX_BYTES {
      return Err(InternalError);
    }
    var input := new Reader(bytes);
    var mark := input.GetText();
    if mark.None? || mark.value != ENTITY_MARK {
      return Err(InternalError);
    }
    var version := input.GetNumber();
    if version.None? || version.value == 0 || version.value > INT64_MAX {
      return Err(InternalError);
    }
    var count := input.GetNumber();
    if count.None? || count.value > MAX_FIELDS {
      return Err(InternalError);
    }
    var fields := input.GetFields(count.value);
    if fields.None? || input.pos != |input.data| {
      return Err(InternalError);
    }
    return Ok(Document(version.value, fields.value));
  }

  lemma NumberWidth()
    ensures forall n: uint64 :: |Number(n)| == 8
  {
  }

  lemma CanonSize(fields: map<Bytes, Value>)
    ensures CanonFields(fields).Keys == fields.Keys && |CanonFields(fields)| == |fields|
  {
    hide Canon;
    var stored := CanonFields(fields);
    assert stored.Keys == fields.Keys;
    assert |stored| == |stored.Keys| && |fields| == |fields.Keys|;
  }

  /** `EntityCodec::encode`, field by field in map order, refusals included. */
  method EncodeDocument(lib: Library, document: Document) returns (r: Result<Bytes>)
    ensures r == Encode(lib, document)
  {
    hide Number, Frame, FieldsBytes, Ascii, Sorted, Encodable, Canon, CanonFields;
    var out := new Writer();
    MarkFits();
    CanonSize(document.fields);
    var ok := out.PutText(ENTITY_MARK);
    assert out.data == Frame(ENTITY_MARK);
    out.PutNumber(document.version);
    out.PutNumber(|document.fields| % U64);
    ok := out.PutFields(lib, Sorted(document.fields.Keys), document.fields);
    if !ok || |out.data| > MAX_BYTES {
      return Err(InvalidRequest);
    }
    return Ok(out.data);
  }

  lemma MarkFits()
    ensures |Frame(ENTITY_MARK)| <= MAX_BYTES
  {
  }

  lemma FieldsSplit(columns: seq<Bytes>, fields: map<Bytes, Value>, before: Bytes)
    requires columns != [] && Covers(columns, fields)
    ensures before + FieldsBytes(columns, fields)
         == before + Frame(columns[0]) + Plain(fields[columns[0]]) + FieldsBytes(columns[1..], fields)
  {
    hide Frame, Plain;
  }
}
