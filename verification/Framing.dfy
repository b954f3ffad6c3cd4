/**
 The binary framing of the Redis entity codec: eight-byte big-endian numbers and
 length-prefixed texts, and the reader that takes them back off the front of a buffer.
 */
module Framing {
  import opened ByteStrings
  import opened Results

  const MAX_BYTES := 8 * 1024 * 1024

  // ---- Numbers -------------------------------------------------------------

  function BigEndian(n: nat, width: nat): (r: Bytes)
    ensures |r| == width
  {
    if width == 0 then [] else BigEndian(n / 256, width - 1) + [n % 256]
  }

  function FromBigEndian(b: Bytes): nat {
    if b == [] then 0 else 256 * FromBigEndian(b[..|b| - 1]) + b[|b| - 1]
  }

  lemma {:induction false} BigEndianBack(n: nat, width: nat)
    requires n < Pow(256, width)
    ensures FromBigEndian(BigEndian(n, width)) == n
  {
    if width > 0 {
      BigEndianBack(n / 256, width - 1);
      assert BigEndian(n, width)[..width - 1] == BigEndian(n / 256, width - 1);
    }
  }

  lemma {:induction false} FromBigEndianBound(b: Bytes)
    ensures FromBigEndian(b) < Pow(256, |b|)
  {
    if b != [] { FromBigEndianBound(b[..|b| - 1]); }
  }

  lemma Width8()
    ensures Pow(256, 8) == U64
  {
    assert Pow(256, 4) == 0x1_0000_0000;
    PowAdd(256, 4, 4);
  }

  /** `Writer::number`. */
  function Number(n: uint64): (r: Bytes)
    ensures |r| == 8
  {
    BigEndian(n, 8)
  }

  /** `Writer::text`: the length, then the octets. Lengths stay far below 2^64. */
  function Frame(text: Bytes): (r: Bytes)
    ensures |r| == 8 + |text|
  {
    Number(|text| % U64) + text
  }

  // ---- Reading -------------------------------------------------------------

  /** A value taken off the front of a buffer, and what is left of the buffer. */
  datatype Taken<+T> = Taken(value: T, rest: Bytes)

  function TakeByte(b: Bytes): Option<Taken<byte>> {
    if b == [] then None else Some(Taken(b[0], b[1..]))
  }

  function TakeNumber(b: Bytes): Option<Taken<uint64>> {
    if |b| < 8 then None
    else
      FromBigEndianBound(b[..8]);
      Width8();
      Some(Taken(FromBigEndian(b[..8]), b[8..]))
  }

  function TakeText(b: Bytes): Option<Taken<Bytes>> {
    match TakeNumber(b)
    case None => None
    case Some(Taken(count, rest)) => if count > |rest| then None else Some(Taken(rest[..count], rest[count..]))
  }

  lemma TakeNumberBack(n: uint64, rest: Bytes)
    ensures TakeNumber(Number(n) + rest) == Some(Taken(n, rest))
  {
    Width8();
    BigEndianBack(n, 8);
    assert (Number(n) + rest)[..8] == Number(n);
    assert (Number(n) + rest)[8..] == rest;
  }

  lemma TakeTextBack(text: Bytes, rest: Bytes)
    requires |text| < U64
    ensures TakeText(Frame(text) + rest) == Some(Taken(text, rest))
  {
    hide Number, TakeNumber;
    TakeNumberBack(|text|, text + rest);
    assert Frame(text) + rest == Number(|text|) + (text + rest);
    assert (text + rest)[..|text|] == text && (text + rest)[|text|..] == rest;
  }
}
