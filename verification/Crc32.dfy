/**
 CRC-32 of IEEE 802.3: the bit-serial shift register as reference, the table-driven form the
 checkpoint code uses, their equality, and what the checksum detects.
 */
module Crc32 {
  type Octets = seq<bv8>

  const POLYNOMIAL: bv32 := 0xEDB88320
  const ONES: bv32 := 0xFFFFFFFF

  // The word operations have names, so that proofs above the bit level do not look inside words.
  function Xor(a: bv32, b: bv32): bv32 { a ^ b }
  function Wide(b: bv8): bv32 { b as bv32 }
  function Low(c: bv32): bv8 { (c & 0xFF) as bv8 }
  function Drop8(c: bv32): bv32 { c >> 8 }
  function Raise8(c: bv32): bv32 { c << 8 }
  function Difference(a: bv8, b: bv8): bv8 { a ^ b }
  predicate TopClear(c: bv32) { c >> 24 == 0 }
  predicate IsOdd(b: bv8) { b & 1 == 1 }
  function HalfOctet(b: bv8): bv8 { b >> 1 }
  function Half(c: bv32): bv32 { c >> 1 }
  function Feedback(c: bv32): bv32 { if c & 1 == 1 then POLYNOMIAL else 0 }

  // ---- Reference: one message bit at a time ----------------------------------------------------

  /** The register takes in one bit: it shifts, and feeds back when its low bit and the message bit differ. */
  function Shift(register: bv32, bit: bool): bv32 {
    Xor(Half(register), if (register & 1 == 1) != bit then POLYNOMIAL else 0)
  }

  /** The lowest `n` bits of an octet, low bit first. */
  function BitsOf(b: bv8, n: nat): seq<bool> { if n == 0 then [] else [IsOdd(b)] + BitsOf(HalfOctet(b), n - 1) }

  function Feed(register: bv32, bits: seq<bool>): bv32
    decreases bits
  {
    if bits == [] then register else Feed(Shift(register, bits[0]), bits[1..])
  }

  function Serial(register: bv32, data: Octets): bv32
    decreases data
  {
    if data == [] then register else Serial(Feed(register, BitsOf(data[0], 8)), data[1..])
  }

  function BitwiseCrc(data: Octets): bv32 { Xor(Serial(ONES, data), ONES) }

  // ---- Table form -------------------------------------------------------------------------------

  function BitStep(c: bv32): bv32 { Xor(Half(c), Feedback(c)) }

  function Step8(c: bv32): bv32 { BitStep(BitStep(BitStep(BitStep(BitStep(BitStep(BitStep(BitStep(c)))))))) }

  /** The table entry of an octet. */
  function TableEntry(b: bv8): bv32 { Step8(Wide(b)) }

  function TableStep(c: bv32, b: bv8): bv32 { Xor(TableEntry(Low(Xor(c, Wide(b)))), Drop8(c)) }

  function Table(c: bv32, data: Octets): bv32
    decreases data
  {
    if data == [] then c else Table(TableStep(c, data[0]), data[1..])
  }

  function Crc(data: Octets): bv32 { Xor(Table(ONES, data), ONES) }

  // ---- Linearity ----------------------------------------------------------------------------------

  lemma XorAssociative(a: bv32, b: bv32, c: bv32)
    ensures Xor(Xor(a, b), c) == Xor(a, Xor(b, c))
  {
  }

  lemma XorCommutes(a: bv32, b: bv32)
    ensures Xor(a, b) == Xor(b, a)
  {
  }

  lemma XorExchange(a: bv32, b: bv32, c: bv32, d: bv32)
    ensures Xor(Xor(a, b), Xor(c, d)) == Xor(Xor(a, c), Xor(b, d))
  {
    hide Xor;
    XorAssociative(a, b, Xor(c, d));
    XorAssociative(b, c, d);
    XorCommutes(b, c);
    XorAssociative(c, b, d);
    XorAssociative(a, c, Xor(b, d));
  }

  lemma FeedbackLinear(a: bv32, b: bv32)
    ensures Xor(Feedback(a), Feedback(b)) == Feedback(Xor(a, b))
  {
    assert (a ^ b) & 1 == (a & 1) ^ (b & 1);
    assert a & 1 == 0 || a & 1 == 1;
    assert b & 1 == 0 || b & 1 == 1;
  }

  lemma HalfLinear(a: bv32, b: bv32)
    ensures Xor(Half(a), Half(b)) == Half(Xor(a, b))
  {
  }

  lemma BitStepLinear(a: bv32, b: bv32)
    ensures Xor(BitStep(a), BitStep(b)) == BitStep(Xor(a, b))
  {
    hide Feedback, Xor, Half;
    FeedbackLinear(a, b);
    HalfLinear(a, b);
    XorExchange(Half(a), Feedback(a), Half(b), Feedback(b));
  }

  lemma Step8Linear(a: bv32, b: bv32)
    ensures Xor(Step8(a), Step8(b)) == Step8(Xor(a, b))
  {
    hide Xor, BitStep;
    var a1, b1 := BitStep(a), BitStep(b);
    var a2, b2 := BitStep(a1), BitStep(b1);
    var a3, b3 := BitStep(a2), BitStep(b2);
    var a4, b4 := BitStep(a3), BitStep(b3);
    var a5, b5 := BitStep(a4), BitStep(b4);
    var a6, b6 := BitStep(a5), BitStep(b5);
    var a7, b7 := BitStep(a6), BitStep(b6);
    BitStepLinear(a, b);
    BitStepLinear(a1, b1);
    BitStepLinear(a2, b2);
    BitStepLinear(a3, b3);
    BitStepLinear(a4, b4);
    BitStepLinear(a5, b5);
    BitStepLinear(a6, b6);
    BitStepLinear(a7, b7);
  }

  // ---- The table step is eight bit steps ------------------------------------------------------------

  function Rest(x: bv32): bv32 { x & 0xFFFFFF00 }

  lemma RestShifts(x: bv32)
    ensures Step8(Rest(x)) == Drop8(x)
  {
  }

  lemma SplitOctet(x: bv32)
    ensures Xor(Wide(Low(x)), Rest(x)) == x
  {
  }

  lemma OctetBelow(c: bv32, b: bv8)
    ensures Drop8(Xor(c, Wide(b))) == Drop8(c)
  {
  }

  lemma TableStepIs(c: bv32, b: bv8)
    ensures TableStep(c, b) == Step8(Xor(c, Wide(b)))
  {
    hide Xor, Step8, Wide, Low, Rest, Drop8;
    var x := Xor(c, Wide(b));
    SplitOctet(x);
    OctetBelow(c, b);
    RestShifts(x);
    Step8Linear(Wide(Low(x)), Rest(x));
  }

  function Steps(c: bv32, n: nat): bv32
    decreases n
  {
    if n == 0 then c else Steps(BitStep(c), n - 1)
  }

  function Dropped(b: bv8, n: nat): bv8
    decreases n
  {
    if n == 0 then b else Dropped(HalfOctet(b), n - 1)
  }

  function BitWord(bit: bool): bv32 { if bit then 1 else 0 }

  lemma FlipLow(register: bv32)
    ensures Half(Xor(register, 1)) == Half(register)
    ensures Feedback(Xor(register, 1)) == if register & 1 == 1 then 0 else POLYNOMIAL
  {
    assert register & 1 == 0 || register & 1 == 1;
  }

  lemma ShiftIs(register: bv32, bit: bool)
    ensures Shift(register, bit) == BitStep(Xor(register, BitWord(bit)))
  {
    hide Xor, Half;
    if bit { FlipLow(register); } else { XorZero(register); }
  }

  function Even(b: bv8): bv32 { (b as bv32) & 0xFE }

  lemma OctetSplits(b: bv8)
    ensures Wide(b) == Xor(BitWord(IsOdd(b)), Even(b)) && BitStep(Even(b)) == Wide(HalfOctet(b))
  {
    assert b & 1 == 0 || b & 1 == 1;
  }

  /** Mixing a whole octet in at once, its bits come up one by one. */
  lemma BitComesUp(register: bv32, b: bv8)
    ensures BitStep(Xor(register, Wide(b))) == Xor(Shift(register, IsOdd(b)), Wide(HalfOctet(b)))
  {
    hide Xor, Wide, BitStep, Shift, IsOdd, HalfOctet, Even, BitWord;
    var low := BitWord(IsOdd(b));
    OctetSplits(b);
    ShiftIs(register, IsOdd(b));
    XorAssociative(register, low, Even(b));
    BitStepLinear(Xor(register, low), Even(b));
  }

  lemma {:induction false} BitsComeUp(register: bv32, b: bv8, n: nat)
    ensures Steps(Xor(register, Wide(b)), n) == Xor(Feed(register, BitsOf(b, n)), Wide(Dropped(b, n)))
    decreases n
  {
    hide Xor, BitStep, Shift, Wide, IsOdd, HalfOctet;
    if n > 0 {
      BitComesUp(register, b);
      BitsComeUp(Shift(register, IsOdd(b)), HalfOctet(b), n - 1);
      var bits := BitsOf(b, n);
      assert bits[0] == IsOdd(b) && bits[1..] == BitsOf(HalfOctet(b), n - 1);
    }
  }

  lemma HalvedAway(b: bv8)
    ensures b >> 1 >> 1 >> 1 >> 1 >> 1 >> 1 >> 1 >> 1 == 0
  {
  }

  lemma AllDropped(b: bv8)
    ensures Dropped(b, 8) == 0
  {
    var b1 := HalfOctet(b);
    var b2 := HalfOctet(b1);
    var b3 := HalfOctet(b2);
    var b4 := HalfOctet(b3);
    var b5 := HalfOctet(b4);
    var b6 := HalfOctet(b5);
    var b7 := HalfOctet(b6);
    assert Dropped(b, 8) == Dropped(b2, 6) == Dropped(b4, 4) == Dropped(b6, 2) == HalfOctet(b7);
    HalvedAway(b);
  }

  lemma EightSteps(c: bv32)
    ensures Steps(c, 8) == Step8(c)
  {
    hide BitStep;
    var c2 := BitStep(BitStep(c));
    var c4 := BitStep(BitStep(c2));
    var c6 := BitStep(BitStep(c4));
    assert Steps(c, 8) == Steps(c2, 6) == Steps(c4, 4) == Steps(c6, 2) == Step8(c);
  }

  lemma XorZero(c: bv32)
    ensures Xor(c, 0) == c
  {
  }

  lemma WideZero()
    ensures Wide(0) == 0
  {
  }

  /** One table lookup does what feeding the octet's eight bits does. */
  lemma OctetIsBits(c: bv32, b: bv8)
    ensures TableStep(c, b) == Feed(c, BitsOf(b, 8))
  {
    hide Xor, Step8, TableStep, Feed, BitsOf, Dropped, Steps, Wide;
    TableStepIs(c, b);
    EightSteps(Xor(c, Wide(b)));
    BitsComeUp(c, b, 8);
    AllDropped(b);
    WideZero();
    XorZero(Feed(c, BitsOf(b, 8)));
  }

  lemma {:induction false} TableIsSerial(c: bv32, data: Octets)
    ensures Table(c, data) == Serial(c, data)
    decreases data
  {
    hide TableStep, Feed, BitsOf;
    if data != [] {
      OctetIsBits(c, data[0]);
      TableIsSerial(TableStep(c, data[0]), data[1..]);
    }
  }

  /** The table-driven CRC is the bit-by-bit CRC-32. */
  lemma CrcIsBitwise(data: Octets)
    ensures Crc(data) == BitwiseCrc(data)
  {
    hide Table, Serial;
    TableIsSerial(ONES, data);
  }

  // ---- What the checksum detects -------------------------------------------------------------------------

  lemma {:induction false} TableAppend(c: bv32, a: Octets, b: Octets)
    ensures Table(c, a + b) == Table(Table(c, a), b)
    decreases a
  {
    hide TableStep;
    if a == [] {
      assert a + b == b;
    } else {
      TableAppend(TableStep(c, a[0]), a[1..], b);
      assert (a + b)[1..] == a[1..] + b;
    }
  }

  /** A register whose top octet is clear after eight steps is that register shifted back. */
  lemma StepsBack(z: bv32)
    requires TopClear(Step8(z))
    ensures z == Raise8(Step8(z))
  {
  }

  /** The difference of two windows, as one little-endian word. */
  function Word(v: Octets, w: Octets): bv32
    requires |v| == |w|
  {
    if v == [] then 0 else Xor(Wide(Difference(v[0], w[0])), Raise8(Word(v[1..], w[1..])))
  }

  predicate Below(x: bv32, octets: nat) {
    match octets case 0 => x == 0 case 1 => x >> 8 == 0 case 2 => x >> 16 == 0 case 3 => x >> 24 == 0 case _ => true
  }

  lemma {:induction false} WordBelow(v: Octets, w: Octets)
    requires |v| == |w| <= 3
    ensures Below(Word(v, w), |v|)
  {
    hide Xor, Wide, Raise8, Difference, Below;
    if v == [] {
      BelowNone();
    } else {
      WordBelow(v[1..], w[1..]);
      PushBelow(Difference(v[0], w[0]), Word(v[1..], w[1..]), |v| - 1);
    }
  }

  lemma BelowNone()
    ensures Below(0, 0)
  {
  }

  lemma PushBelow(b: bv8, x: bv32, n: nat)
    requires n <= 2 && Below(x, n)
    ensures Below(Xor(Wide(b), Raise8(x)), n + 1)
  {
  }

  lemma BelowTop(x: bv32, n: nat)
    requires n <= 3 && Below(x, n)
    ensures TopClear(x)
  {
  }

  lemma PushZero(b: bv8, x: bv32)
    requires TopClear(x) && Xor(Wide(b), Raise8(x)) == 0
    ensures b == 0 && x == 0
  {
  }

  lemma NoDifference(a: bv8, b: bv8)
    requires Difference(a, b) == 0
    ensures a == b
  {
  }

  lemma {:induction false} WordZero(v: Octets, w: Octets)
    requires |v| == |w| <= 4 && Word(v, w) == 0
    ensures v == w
  {
    hide Xor, Wide, Raise8, Difference, Below, TopClear;
    if v != [] {
      WordBelow(v[1..], w[1..]);
      BelowTop(Word(v[1..], w[1..]), |v| - 1);
      PushZero(Difference(v[0], w[0]), Word(v[1..], w[1..]));
      NoDifference(v[0], w[0]);
      WordZero(v[1..], w[1..]);
      assert v == [v[0]] + v[1..] && w == [w[0]] + w[1..];
    }
  }

  lemma XorCancel(d: bv32, e: bv32, x: bv32)
    requires Xor(d, e) == x
    ensures d == Xor(e, x)
  {
  }

  lemma OctetXor(a: bv8, b: bv8)
    ensures Xor(Wide(a), Wide(b)) == Wide(Difference(a, b))
  {
  }

  /** Registers that meet after two windows of at most four octets differed before by the windows' difference. */
  lemma {:induction false} MeetAfter(c: bv32, d: bv32, v: Octets, w: Octets)
    requires |v| == |w| <= 4 && Table(c, v) == Table(d, w)
    ensures Xor(c, d) == Word(v, w)
    decreases |v|
  {
    hide Xor, TableStep, Wide, Raise8, Difference;
    if v == [] {
      XorSelf(c);
    } else {
      MeetAfter(TableStep(c, v[0]), TableStep(d, w[0]), v[1..], w[1..]);
      OneStepBack(c, d, v, w);
    }
  }

  lemma OneStepBack(c: bv32, d: bv32, v: Octets, w: Octets)
    requires 0 < |v| == |w| <= 4 && Xor(TableStep(c, v[0]), TableStep(d, w[0])) == Word(v[1..], w[1..])
    ensures Xor(c, d) == Word(v, w)
  {
    hide Xor, TableStep, Wide, Raise8, Difference, Step8, TopClear, Below;
    var rest := Word(v[1..], w[1..]);
    WordBelow(v[1..], w[1..]);
    BelowTop(rest, |v| - 1);
    TableStepIs(c, v[0]);
    TableStepIs(d, w[0]);
    var x, y := Xor(c, Wide(v[0])), Xor(d, Wide(w[0]));
    Step8Linear(x, y);
    StepsBack(Xor(x, y));
    XorExchange(c, Wide(v[0]), d, Wide(w[0]));
    OctetXor(v[0], w[0]);
    XorCancel(Xor(c, d), Wide(Difference(v[0], w[0])), Raise8(rest));
  }

  lemma XorSelf(c: bv32)
    ensures Xor(c, c) == 0
  {
  }

  lemma XorZeroSame(c: bv32, d: bv32)
    requires Xor(c, d) == 0
    ensures c == d
  {
  }

  /** Octets after the change cannot hide it: a step is injective in the register. */
  lemma {:induction false} SuffixKeepsApart(c: bv32, d: bv32, s: Octets)
    requires Table(c, s) == Table(d, s)
    ensures c == d
    decreases s
  {
    hide TableStep;
    if s != [] {
      SuffixKeepsApart(TableStep(c, s[0]), TableStep(d, s[0]), s[1..]);
      StepKeepsApart(c, d, s[0]);
    }
  }

  lemma StepKeepsApart(c: bv32, d: bv32, b: bv8)
    requires TableStep(c, b) == TableStep(d, b)
    ensures c == d
  {
    hide TableStep, Xor, Word;
    assert Table(c, [b]) == Table(TableStep(c, b), []) && Table(d, [b]) == Table(TableStep(d, b), []);
    MeetAfter(c, d, [b], [b]);
    SameWord(b);
    XorZeroSame(c, d);
  }

  lemma SameWord(b: bv8)
    ensures Word([b], [b]) == 0
  {
    assert Difference(b, b) == 0;
    assert Word([b][1..], [b][1..]) == 0;
  }

  /** Two texts that differ only inside a window of at most four octets have different checksums. */
  lemma BurstDetected(before: Octets, v: Octets, w: Octets, after: Octets)
    requires |v| == |w| <= 4 && v != w
    ensures Crc(before + v + after) != Crc(before + w + after)
  {
    hide Table, Xor, Word, ONES;
    var c := Table(ONES, before);
    TableAppend(ONES, before + v, after);
    TableAppend(ONES, before + w, after);
    TableAppend(ONES, before, v);
    TableAppend(ONES, before, w);
    if Crc(before + v + after) == Crc(before + w + after) {
      UnmaskSame(Table(ONES, before + v + after), Table(ONES, before + w + after));
      SuffixKeepsApart(Table(c, v), Table(c, w), after);
      MeetAfter(c, c, v, w);
      XorSelf(c);
      WordZero(v, w);
    }
  }

  lemma UnmaskSame(c: bv32, d: bv32)
    requires Xor(c, ONES) == Xor(d, ONES)
    ensures c == d
  {
  }

  // ---- The loops of the source ------------------------------------------------------------------------------

  lemma Masked(c: bv32)
    ensures (c >> 1) ^ (POLYNOMIAL & (0 - (c & 1))) == BitStep(c)
  {
    assert c & 1 == 0 || c & 1 == 1;
  }

  lemma OctetOfIndex(i: nat)
    requires i < 256
    ensures Wide(i as bv8) == i as bv32
  {
  }

  lemma IndexOfOctet(b: bv8)
    ensures (b as nat) < 256 && (b as nat) as bv8 == b
  {
  }

  method BuildTable() returns (table: array<bv32>)
    ensures table.Length == 256 && forall i | 0 <= i < 256 :: table[i] == TableEntry(i as bv8)
  {
    hide Step8, BitStep;
    table := new bv32[256];
    var i := 0;
    while i < 256
      invariant 0 <= i <= 256
      invariant forall k | 0 <= k < i :: table[k] == TableEntry(k as bv8)
    {
      OctetOfIndex(i);
      var crc := EightBits(i as bv32);
      table[i] := crc;
      i := i + 1;
    }
  }

  method EightBits(start: bv32) returns (crc: bv32)
    ensures crc == Step8(start)
  {
    hide BitStep;
    crc := start;
    var j := 0;
    while j < 8
      invariant 0 <= j <= 8 && Steps(crc, 8 - j) == Steps(start, 8)
    {
      Masked(crc);
      crc := (crc >> 1) ^ (POLYNOMIAL & (0 - (crc & 1)));
      j := j + 1;
    }
    EightSteps(start);
  }

  method ComputeCrc32(table: array<bv32>, data: Octets) returns (crc: bv32)
    requires table.Length == 256 && forall i | 0 <= i < 256 :: table[i] == TableEntry(i as bv8)
    ensures crc == Crc(data)
  {
    hide TableEntry, TableStep, Xor, ONES;
    crc := ONES;
    var i := 0;
    assert data[0..] == data;
    while i < |data|
      invariant 0 <= i <= |data| && Table(crc, data[i..]) == Table(ONES, data)
    {
      assert data[i..][1..] == data[i + 1..];
      crc := Round(table, crc, data[i]);
      i := i + 1;
    }
    crc := Xor(crc, ONES);
  }

  method Round(table: array<bv32>, crc: bv32, b: bv8) returns (next: bv32)
    requires table.Length == 256 && forall i | 0 <= i < 256 :: table[i] == TableEntry(i as bv8)
    ensures next == TableStep(crc, b)
  {
    hide TableEntry, Xor, Wide, Low, Drop8;
    var octet := Low(Xor(crc, Wide(b)));
    IndexOfOctet(octet);
    return Xor(table[octet as nat], Drop8(crc));
  }
}
