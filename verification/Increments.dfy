/** Numeric texts and `EntityCodec::increment`: exact integer and decimal counters. */
module Increments {
  import opened ByteStrings
  import opened Results
  import opened Entities
  import D = Decimals
  import DT = DecimalTexts

  const SIGN_BIT := 0x8000_0000_0000_0000
  const MANTISSA := 0x10_0000_0000_0000

  /** std::isfinite on the bit pattern: the exponent is not all ones. */
  predicate Finite(bits: uint64) { (bits / MANTISSA) % 2048 != 2047 }

  function NumericText(lib: Library, v: Value): Result<Bytes> {
    match v
    case SignedValue(i) => Ok(DT.ToChars(i))
    case UnsignedValue(u) => Ok(DT.ToChars(u))
    case DecimalValue(t) => (match DT.Parse(t) case Ok(d) => Ok(DT.Print(d)) case Err(code) => Err(code))
    case RealValue(bits) => if Finite(bits) then Ok(lib.printReal(bits)) else Err(InvalidRequest)
    case _ => Err(InvalidRequest)
  }

  function Zero(kind: Kind): Result<Value> {
    match kind
    case SignedInteger => Ok(SignedValue(0))
    case UnsignedInteger => Ok(UnsignedValue(0))
    case Real => Ok(RealValue(0))
    case Decimal => Ok(DecimalValue(Ascii("0")))
    case _ => Err(InvalidRequest)
  }

  function IntegerValue(kind: Kind, text: Bytes): Result<Value> {
    if kind.SignedInteger? then
      match DT.FromChars(text, -SIGN_BIT, INT64_MAX)
      case Some(n) => Ok(SignedValue(n))
      case None => Err(InvalidRequest)
    else
      match DT.FromChars(text, 0, U64 - 1)
      case Some(n) => Ok(UnsignedValue(n))
      case None => Err(InvalidRequest)
  }

  function Advance(kind: Kind, start: D.Decimal, change: D.Decimal): Result<Value> {
    var sum :- D.Add(start, change);
    if kind.Decimal? then Ok(DecimalValue(DT.Print(sum)))
    else if sum.scale != 0 then Err(InvalidRequest)
    else IntegerValue(kind, DT.Print(sum))
  }

  function Increment(lib: Library, before: Value, delta: Value, kind: Kind): Result<Value> {
    if !IsNumber(kind) || !IsNumber(KindOf(delta)) || KindOf(before) != kind then Err(InvalidRequest)
    else
      var text :- NumericText(lib, delta);
      if kind.Real? then
        match lib.addReal(before.bits, text)
        case Some(bits) => Ok(RealValue(bits))
        case None => Err(InvalidRequest)
      else
        var change :- DT.Parse(text);
        if !kind.Decimal? && change.scale != 0 then Err(InvalidRequest)
        else
          var current :- NumericText(lib, before);
          var start :- DT.Parse(current);
          Advance(kind, start, change)
  }

  // ---- Integers as decimals -----------------------------------------------

  function OfInteger(n: int): D.Decimal {
    if n == 0 then D.ZERO else D.Decimal(n < 0, D.Digits(D.Abs(n)), 0)
  }

  lemma {:induction false} DigitCount(n: nat, k: nat)
    ensures n < Pow(10, k) ==> |D.Digits(n)| <= k
    ensures n >= Pow(10, k) ==> |D.Digits(n)| > k
  {
    if k == 0 {
      if n == 0 { assert D.Digits(0) == []; }
    } else {
      DigitCount(n / 10, k - 1);
      PowPositive(10, k - 1);
      if n == 0 { assert D.Digits(0) == []; }
    }
  }

  const WIDE := 1_0000_0000_0000_0000_0000_0000

  predicate Small(n: int) { D.Abs(n) < WIDE }

  lemma SmallDigits(n: int)
    ensures Small(n) <==> |D.Digits(D.Abs(n))| <= 24
  {
    assert Pow(10, 4) == 10000;
    PowAdd(10, 4, 4);
    PowAdd(10, 8, 8);
    PowAdd(10, 16, 8);
    DigitCount(D.Abs(n), 24);
  }

  /** d is the decimal of the integer n. */
  predicate IsInteger(d: D.Decimal, n: int) {
    D.Normal(d) && d == OfInteger(n) && D.Scaled(d, 0) == n
  }

  lemma OfIntegerNormal(n: int)
    requires Small(n)
    ensures IsInteger(OfInteger(n), n)
  {
    hide Pow, D.Num, D.Digits;
    SmallDigits(n);
    D.NumDigits(D.Abs(n));
    D.NumSingle(0);
    UnitPow();
  }

  lemma UnitPow()
    ensures Pow(10, 0) == 1
  {
  }

  /** The decimal of a small integer prints as the integer does and reads back. */
  lemma OfIntegerReads(n: int)
    requires Small(n)
    ensures IsInteger(OfInteger(n), n) && DT.Parse(DT.ToChars(n)) == Ok(OfInteger(n))
  {
    OfIntegerNormal(n);
    DT.PrintIntegral(OfInteger(n));
    DT.ParsePrint(OfInteger(n));
    SmallDigits(n);
  }

  /** An integral decimal is the decimal of its value; a small one survives printing and reading. */
  lemma IntegralDecimal(d: D.Decimal)
    requires D.Normal(d) && d.scale == 0
    ensures IsInteger(d, D.Scaled(d, 0))
    ensures Small(D.Scaled(d, 0)) ==> DT.Parse(DT.Print(d)) == Ok(d)
  {
    IntegralIsInteger(d);
    hide D.Normal, D.Scaled, OfInteger, DT.Print, DT.Parse;
    if Small(D.Scaled(d, 0)) { OfIntegerReads(D.Scaled(d, 0)); DT.PrintIntegral(d); }
  }

  lemma IntegralIsInteger(d: D.Decimal)
    requires D.Normal(d) && d.scale == 0
    ensures IsInteger(d, D.Scaled(d, 0))
  {
    assert Pow(10, 0) == 1;
    D.NumSingle(0);
    if d != D.ZERO { D.NumPositive(d.digits); D.DigitsNum(d.digits); }
  }

  /** Adding integers gives the integer sum, or is out of any small range. */
  lemma AddIntegral(a: D.Decimal, x: int, b: D.Decimal, y: int)
    requires IsInteger(a, x) && IsInteger(b, y)
    ensures D.Add(a, b).Ok? ==> IsInteger(D.Add(a, b).value, x + y)
    ensures D.Add(a, b).Err? ==> D.Add(a, b) == Err(InvalidRequest) && !Small(x + y)
  {
    hide D.Add, D.Num, D.Digits, D.Scaled, D.NegativeFraction;
    NoFraction(a);
    NoFraction(b);
    if D.Add(a, b).Ok? {
      D.AddExact(a, b);
      IntegralDecimal(D.Add(a, b).value);
    } else if Small(x + y) {
      OfIntegerNormal(x + y);
      IntegerSum(a, x, b, y);
      D.AddRejectsOnlySize(a, b, OfInteger(x + y));
    }
  }

  lemma IntegerSum(a: D.Decimal, x: int, b: D.Decimal, y: int)
    requires IsInteger(a, x) && IsInteger(b, y) && IsInteger(OfInteger(x + y), x + y)
    ensures D.IsSum(OfInteger(x + y), a, b)
  {
    hide D.Normal, D.Num;
    var r := OfInteger(x + y);
    forall k: nat ensures D.Scaled(r, k) == D.Scaled(a, k) + D.Scaled(b, k) {
      D.ScaledAt(r, 0, k);
      D.ScaledAt(a, 0, k);
      D.ScaledAt(b, 0, k);
      D.MulDistribute(x, y, Pow(10, k));
    }
  }

  lemma NoFraction(d: D.Decimal)
    requires D.Normal(d) && d.scale == 0
    ensures !D.NegativeFraction(d)
  {
    assert Pow(10, 0) == 1;
    if d != D.ZERO { D.NumPositive(d.digits); }
  }

  // ---- The counter theorem ------------------------------------------------

  function Whole(text: Bytes): Option<int> {
    match DT.Parse(text)
    case Ok(d) => if d.scale == 0 then Some(D.Scaled(d, 0)) else None
    case Err(_) => None
  }

  /** The integer an increment asks for, if it asks for one. A real asks for what the library prints. */
  function IntegralDelta(lib: Library, delta: Value): Option<int> {
    match delta
    case SignedValue(i) => Some(i)
    case UnsignedValue(u) => Some(u)
    case DecimalValue(t) => Whole(t)
    case RealValue(bits) => if Finite(bits) then Whole(lib.printReal(bits)) else None
    case _ => None
  }

  function Count(v: Value): int
    requires v.SignedValue? || v.UnsignedValue?
  {
    if v.SignedValue? then v.signed else v.unsigned
  }

  /** The integer field value n, if the field's width holds it. */
  function Counter(kind: Kind, n: int): Result<Value> {
    if kind.SignedInteger? && -SIGN_BIT <= n <= INT64_MAX then Ok(SignedValue(n))
    else if kind.UnsignedInteger? && 0 <= n < U64 then Ok(UnsignedValue(n))
    else Err(InvalidRequest)
  }

  lemma PrintedCounter(kind: Kind, n: int)
    requires kind.SignedInteger? || kind.UnsignedInteger?
    requires IsInteger(OfInteger(n), n)
    ensures IntegerValue(kind, DT.Print(OfInteger(n))) == Counter(kind, n)
  {
    DT.PrintIntegral(OfInteger(n));
    DT.FromToChars(n, -SIGN_BIT, INT64_MAX);
    DT.FromToChars(n, 0, U64 - 1);
  }

  lemma AdvanceInteger(kind: Kind, a: D.Decimal, x: int, b: D.Decimal, y: int)
    requires kind.SignedInteger? || kind.UnsignedInteger?
    requires IsInteger(a, x) && IsInteger(b, y)
    ensures Advance(kind, a, b) == Counter(kind, x + y)
  {
    hide D.Add, D.Normal, D.Scaled, DT.Print, IntegerValue, D.Digits;
    AddIntegral(a, x, b, y);
    if D.Add(a, b).Ok? { PrintedCounter(kind, x + y); }
  }

  /** What `Decimal change{numeric_text(delta)}` yields. */
  function Change(lib: Library, delta: Value): Result<D.Decimal> {
    var text :- NumericText(lib, delta);
    DT.Parse(text)
  }

  lemma ChangeReads(lib: Library, delta: Value)
    requires IsNumber(KindOf(delta))
    ensures match IntegralDelta(lib, delta)
      case None =>
        Change(lib, delta) == Err(InvalidRequest) || (Change(lib, delta).Ok? && Change(lib, delta).value.scale != 0)
      case Some(n) =>
        || (Change(lib, delta).Ok? && IsInteger(Change(lib, delta).value, n))
        || (Change(lib, delta) == Err(InvalidRequest) && !Small(n))
  {
    hide D.Normal, D.Scaled, DT.Print, DT.Parse, DT.ToChars, OfInteger;
    if delta.DecimalValue? {
      if DT.Parse(delta.decimal).Ok? {
        var d := DT.Parse(delta.decimal).value;
        ParsedNormal(delta.decimal);
        DT.ParsePrint(d);
        if d.scale == 0 { IntegralDecimal(d); }
      }
    } else if delta.RealValue? {
      var text := lib.printReal(delta.bits);
      if DT.Parse(text).Ok? {
        ParsedNormal(text);
        if DT.Parse(text).value.scale == 0 { IntegralDecimal(DT.Parse(text).value); }
      }
    } else {
      OfIntegerReads(Count(delta));
    }
  }

  lemma ParsedNormal(text: Bytes)
    requires DT.Parse(text).Ok?
    ensures D.Normal(DT.Parse(text).value)
  {
    var reading := DT.Read(text).value;
    DT.OfReadingExact(reading, D.Abs(reading.fraction - reading.exponent));
  }

  /**
   For every integer field and every numeric delta: the increment is exactly before + delta when
   delta is integral and the sum fits the field, and is refused otherwise.
   */
  lemma IncrementInteger(lib: Library, before: Value, delta: Value, kind: Kind)
    requires kind.SignedInteger? || kind.UnsignedInteger?
    requires KindOf(before) == kind
    requires IsNumber(KindOf(delta))
    ensures Increment(lib, before, delta, kind)
         == match IntegralDelta(lib, delta)
            case None => Err(InvalidRequest)
            case Some(n) => Counter(kind, Count(before) + n)
  {
    hide D.Normal, D.Scaled, DT.Print, DT.Parse, DT.ToChars, D.Digits, Advance;
    OfIntegerReads(Count(before));
    ChangeReads(lib, delta);
    var n := IntegralDelta(lib, delta);
    if n.Some? && Change(lib, delta).Ok? {
      AdvanceInteger(kind, OfInteger(Count(before)), Count(before), Change(lib, delta).value, n.value);
    }
  }

  // ---- Decimal fields -----------------------------------------------------

  /**
   For every decimal field and every delta: an increment is carried out exactly when both numbers can be
   read and the sum is not too long, and then stores before + delta exactly unless a zero meets a number
   strictly between -1 and 0.
   */
  lemma IncrementDecimal(lib: Library, before: Bytes, delta: Value)
    ensures var r := Increment(lib, DecimalValue(before), delta, Kind.Decimal);
      var start, change := DT.Parse(before), Change(lib, delta);
      && (r.Ok? <==> && IsNumber(KindOf(delta)) && start.Ok? && change.Ok? && |DT.Print(start.value)| <= D.LIMIT
                     && D.Add(start.value, change.value).Ok?)
      && (r.Ok? ==>
            var sum := D.Add(start.value, change.value).value;
            && D.Normal(sum) && r.value == DecimalValue(DT.Print(sum))
            && (D.IsSum(sum, start.value, change.value) <==> !D.ZeroAgainstFraction(start.value, change.value)))
  {
    hide D.Normal, D.Add, D.IsSum, D.ZeroAgainstFraction, DT.Print, DT.Parse;
    var start, change := DT.Parse(before), Change(lib, delta);
    if start.Ok? {
      ParsedNormal(before);
      DT.ParsePrint(start.value);
      if change.Ok? {
        ParsedNormal(NumericText(lib, delta).value);
        if D.Add(start.value, change.value).Ok? { D.AddExact(start.value, change.value); }
      }
    }
  }

  const HALF := D.Decimal(true, [5], 1)

  lemma HalfReads()
    ensures DT.Parse(Ascii("-0.5")) == Ok(HALF) && DT.Print(HALF) == Ascii("-0.5")
  {
    assert DT.Print(HALF) == Ascii("-0.5");
    DT.ParsePrint(HALF);
  }

  lemma ZeroReads()
    ensures DT.Parse(Ascii("0")) == Ok(D.ZERO) && DT.Print(D.ZERO) == Ascii("0")
  {
    assert DT.Print(D.ZERO) == Ascii("0");
    DT.ParsePrint(D.ZERO);
  }

  lemma SlipPrints()
    ensures DT.Print(D.Decimal(false, [9, 5], 1)) == Ascii("9.5")
  {
  }

  /** A decimal field that is missing or zero, incremented by -0.5, becomes 9.5. */
  lemma IncrementSlips(lib: Library)
    ensures Zero(Kind.Decimal).Ok?
    ensures Increment(lib, Zero(Kind.Decimal).value, DecimalValue(Ascii("-0.5")), Kind.Decimal)
      == Ok(DecimalValue(Ascii("9.5")))
  {
    hide DT.Print, DT.Parse, D.Add, Ascii;
    HalfReads();
    ZeroReads();
    SlipPrints();
    D.ZeroPlusMinusHalf();
    DT.ParsePrint(HALF);
  }
}
