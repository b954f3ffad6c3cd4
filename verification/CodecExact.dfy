/** Which octets the Redis entity codec reads, and as what: the converse of its round trips. */
module CodecExact {
  import opened ByteStrings
  import opened Results
  import opened Entities
  import opened Framing
  import opened Codec

  lemma {:induction false} BigEndianOf(b: Bytes)
    ensures BigEndian(FromBigEndian(b), |b|) == b
  {
    if b != [] {
      var high, low := FromBigEndian(b[..|b| - 1]), b[|b| - 1];
      BigEndianOf(b[..|b| - 1]);
      assert (256 * high + low) / 256 == high && (256 * high + low) % 256 == low;
      assert b == b[..|b| - 1] + [low];
    }
  }

  /** A number is read exactly from its eight octets. */
  lemma NumberExact(b: Bytes, n: uint64, rest: Bytes)
    ensures TakeNumber(b) == Some(Taken(n, rest)) <==> b == Number(n) + rest
  {
    hide BigEndian, FromBigEndian;
    if b == Number(n) + rest { TakeNumberBack(n, rest); }
    if TakeNumber(b) == Some(Taken(n, rest)) {
      BigEndianOf(b[..8]);
      assert b == b[..8] + b[8..];
    }
  }

  /** A text is read exactly from its length and its octets. */
  lemma TextExact(b: Bytes, text: Bytes, rest: Bytes)
    ensures TakeText(b) == Some(Taken(text, rest)) <==> |text| < U64 && b == Frame(text) + rest
  {
    hide Number, TakeNumber;
    if |text| < U64 && b == Frame(text) + rest { TakeTextBack(text, rest); }
    if TakeText(b) == Some(Taken(text, rest)) {
      var size := TakeNumber(b).value;
      NumberExact(b, size.value, size.rest);
      assert size.rest == text + rest;
      assert Number(|text|) + (text + rest) == Frame(text) + rest;
    }
  }

  lemma PlainFront(b: Bytes, v: Value, rest: Bytes)
    requires b != [] && b[0] == Tag(KindOf(v)) && b[1..] == Payload(v) + rest
    ensures b == Plain(v) + rest
  {
    hide Tag, KindOf, Payload;
  }

  lemma NumberFound(b: Bytes)
    requires TakeValue(b).Some? && 2 <= b[0] <= 4
    ensures var t := TakeValue(b).value; b == Plain(t.value) + t.rest
  {
    hide Number, Frame, TakeNumber, TakeText, Plain;
    var t, n := TakeValue(b).value, TakeNumber(b[1..]).value;
    NumberExact(b[1..], n.value, n.rest);
    PlainFront(b, t.value, t.rest);
  }

  lemma TextFound(b: Bytes)
    requires TakeValue(b).Some? && b[0] > 4
    ensures var t := TakeValue(b).value; b == Plain(t.value) + t.rest
  {
    hide Number, Frame, TakeNumber, TakeText, Plain;
    var t, text := TakeValue(b).value, TakeText(b[1..]).value;
    TextExact(b[1..], text.value, text.rest);
    PlainFront(b, t.value, t.rest);
  }

  /** A value is read exactly from its tag and its payload. */
  lemma ValueExact(b: Bytes, v: Value, rest: Bytes)
    requires |b| <= MAX_BYTES
    ensures TakeValue(b) == Some(Taken(v, rest)) <==> b == Plain(v) + rest
  {
    hide TakeValue, Plain;
    if b == Plain(v) + rest { TakeValueBack(v, rest); }
    if TakeValue(b) == Some(Taken(v, rest)) { ValueFound(b); }
  }

  lemma ValueFound(b: Bytes)
    requires TakeValue(b).Some?
    ensures var t := TakeValue(b).value; b == Plain(t.value) + t.rest
  {
    hide Number, Frame, TakeNumber, TakeText, Plain;
    if b[0] > 4 {
      TextFound(b);
    } else if b[0] >= 2 {
      NumberFound(b);
    } else {
      var t := TakeValue(b).value;
      if b[0] == 1 { assert b[1..] == [b[1]] + b[1..][1..]; } else { assert b[1..] == [] + t.rest; }
      PlainFront(b, t.value, t.rest);
    }
  }

  lemma {:induction false} FieldsFound(count: nat, b: Bytes, done: map<Bytes, Value>) returns (columns: seq<Bytes>)
    requires TakeFields(count, b, done).Some?
    ensures var t := TakeFields(count, b, done).value;
      && |columns| == count && Distinct(columns) && (forall c | c in columns :: c !in done)
      && Covers(columns, t.value) && t.value == done + Only(columns, t.value)
      && b == FieldsBytes(columns, t.value) + t.rest
  {
    hide Frame, Plain, TakeText, TakeValue, Only, FieldsBytes, Distinct;
    var t := TakeFields(count, b, done).value;
    if count == 0 {
      columns := [];
      NoFields(t.value, b);
    } else {
      var name := TakeText(b).value;
      var item := TakeValue(name.rest).value;
      TextExact(b, name.value, name.rest);
      ValueFound(name.rest);
      var more := FieldsFound(count - 1, item.rest, done[name.value := item.value]);
      columns := [name.value] + more;
      OneMore(name.value, item.value, more, done, t.value);
      FieldsBytesCons(columns, t.value, t.rest);
      assert columns[1..] == more;
    }
  }

  lemma NoFields(fields: map<Bytes, Value>, rest: Bytes)
    ensures fields + Only([], fields) == fields && FieldsBytes([], fields) + rest == rest && Distinct([])
  {
  }

  lemma OneMore(column: Bytes, item: Value, more: seq<Bytes>, done: map<Bytes, Value>, all: map<Bytes, Value>)
    requires column !in done && (forall c | c in more :: c !in done[column := item]) && Distinct(more)
    requires Covers(more, all) && all == done[column := item] + Only(more, all)
    ensures Distinct([column] + more) && (forall c | c in [column] + more :: c !in done) && Covers([column] + more, all)
    ensures all == done + Only([column] + more, all) && all[column] == item
  {
    assert column !in more;
    assert Only([column] + more, all).Keys == Only(more, all).Keys + {column};
  }

  /** The octets of a document with its columns in the given order. */
  ghost predicate Lays(b: Bytes, d: Document, columns: seq<Bytes>) {
    && |b| <= MAX_BYTES && 1 <= d.version <= INT64_MAX && |columns| <= MAX_FIELDS
    && Distinct(columns) && (forall c :: c in columns <==> c in d.fields)
    && b == Frame(ENTITY_MARK) + (Number(d.version) + (Number(|columns|) + FieldsBytes(columns, d.fields)))
  }

  lemma LaysFound(b: Bytes) returns (columns: seq<Bytes>)
    requires Decode(b).Ok?
    ensures Lays(b, Decode(b).value, columns)
  {
    hide TakeText, TakeNumber, TakeFields, Frame, Number, FieldsBytes, Distinct, Ascii, Only;
    var mark := TakeText(b).value;
    TextExact(b, mark.value, mark.rest);
    var version := TakeNumber(mark.rest).value;
    NumberExact(mark.rest, version.value, version.rest);
    var count := TakeNumber(version.rest).value;
    NumberExact(version.rest, count.value, count.rest);
    columns := FieldsFound(count.value, count.rest, map[]);
    var fields := TakeFields(count.value, count.rest, map[]).value.value;
    OnlyColumns(columns, fields);
    assert FieldsBytes(columns, fields) + [] == FieldsBytes(columns, fields);
  }

  lemma OnlyColumns(columns: seq<Bytes>, fields: map<Bytes, Value>)
    requires Covers(columns, fields) && fields == map[] + Only(columns, fields)
    ensures forall c :: c in columns <==> c in fields
  {
    assert forall c :: c in Only(columns, fields) <==> c in columns;
  }

  lemma LaysDecoded(b: Bytes, d: Document, columns: seq<Bytes>)
    requires Lays(b, d, columns)
    ensures Decode(b) == Ok(d)
  {
    hide TakeText, TakeNumber, TakeFields, Frame, Number, FieldsBytes, Distinct, Ascii, Only;
    var fields := FieldsBytes(columns, d.fields);
    TakeTextBack(ENTITY_MARK, Number(d.version) + (Number(|columns|) + fields));
    TakeNumberBack(d.version, Number(|columns|) + fields);
    TakeNumberBack(|columns|, fields);
    TakeFieldsBack(columns, d.fields, map[], []);
    assert fields + [] == fields;
    OnlyAll(columns, d.fields);
  }

  /**
   Octets are read as a document exactly when they lay it out: mark, version, count, then each column once with its
   value, in any order, and nothing more. Everything else is refused as an internal error.
   */
  lemma DecodeExact(b: Bytes, d: Document)
    ensures Decode(b) == Ok(d) <==> exists columns :: Lays(b, d, columns)
    ensures Decode(b).Err? ==> Decode(b).code == InternalError
  {
    hide Decode, Lays;
    if Decode(b) == Ok(d) { var columns := LaysFound(b); }
    forall columns | Lays(b, d, columns) ensures Decode(b) == Ok(d) { LaysDecoded(b, d, columns); }
    Refuses(b);
  }

  lemma Refuses(b: Bytes)
    ensures Decode(b).Err? ==> Decode(b).code == InternalError
  {
    hide TakeText, TakeNumber, TakeFields;
  }
}
