/**
 The text forms of `Decimal`: what a decimal text denotes, its parser, its printer,
 and the whole-text integer parser std::from_chars that the codec relies on.
 */
module DecimalTexts {
  import opened ByteStrings
  import opened Results
  import opened Decimals

  const PLUS: byte := 43
  const MINUS: byte := 45
  const POINT: byte := 46
  const NINE: byte := 57
  const NOUGHT: byte := 48

  predicate IsDigit(c: byte) { NOUGHT <= c <= NINE }
  predicate AllDigits(text: Bytes) { forall i | 0 <= i < |text| :: IsDigit(text[i]) }
  predicate IsExponentMark(c: byte) { c == 69 || c == 101 }

  function Digit(c: byte): digit
    requires IsDigit(c)
  {
    c - NOUGHT
  }

  function Chars(ds: seq<digit>): (r: Bytes)
    ensures |r| == |ds| && forall i | 0 <= i < |ds| :: r[i] == NOUGHT + ds[i]
  {
    seq(|ds|, i requires 0 <= i < |ds| => NOUGHT + ds[i])
  }

  function Values(text: Bytes): (r: seq<digit>)
    requires AllDigits(text)
    ensures |r| == |text| && forall i | 0 <= i < |r| :: r[i] == Digit(text[i])
  {
    seq(|text|, i requires 0 <= i < |text| => Digit(text[i]))
  }

  /** std::from_chars over a whole range: a sign only for signed types, digits, nothing else, and no overflow. */
  function FromChars(text: Bytes, low: int, high: int): (r: Option<int>)
    ensures r.Some? ==> low <= r.value <= high
  {
    var negative := low < 0 && text != [] && text[0] == MINUS;
    var body := if negative then text[1..] else text;
    if body == [] || !AllDigits(body) then None
    else
      var n := Signed(negative, Num(Values(body)));
      if low <= n <= high then Some(n) else None
  }

  /** std::to_string of an integer. */
  function ToChars(n: int): Bytes {
    (if n < 0 then [MINUS] else []) + (if n == 0 then [NOUGHT] else Chars(Digits(Abs(n))))
  }

  // ---- Reading -----------------------------------------------------------

  /** A decimal text taken apart: ±digits * 10^(exponent - fraction). */
  datatype Reading = Reading(negative: bool, digits: seq<digit>, fraction: nat, exponent: int)

  /** The digits of a mantissa, how many of them follow the point, and the text after it. */
  datatype Scan = Scan(digits: seq<digit>, fraction: nat, rest: Bytes)

  /** Scans up to an exponent mark: digits with at most one point. */
  function Mantissa(text: Bytes, dot: bool): Option<Scan> {
    if text == [] || IsExponentMark(text[0]) then Some(Scan([], 0, text))
    else if text[0] == POINT && !dot then Mantissa(text[1..], true)
    else if !IsDigit(text[0]) then None
    else match Mantissa(text[1..], dot)
      case None => None
      case Some(scan) =>
        Some(Scan([Digit(text[0])] + scan.digits, if dot then scan.fraction + 1 else scan.fraction, scan.rest))
  }

  function Exponent(text: Bytes): Option<int> {
    FromChars(if text != [] && text[0] == PLUS then text[1..] else text, -LIMIT, LIMIT)
  }

  function Read(text: Bytes): Option<Reading> {
    if text == [] then None else
      var signed := text[0] == MINUS || text[0] == PLUS;
      match Mantissa(if signed then text[1..] else text, false)
      case None => None
      case Some(Scan(ds, fraction, rest)) =>
        if ds == [] then None
        else if rest == [] then Some(Reading(text[0] == MINUS, ds, fraction, 0))
        else match Exponent(rest[1..])
          case None => None
          case Some(exponent) => Some(Reading(text[0] == MINUS, ds, fraction, exponent))
  }

  /** The number a reading denotes, times 10^k. */
  function At(r: Reading, k: nat): int
    requires k >= r.fraction - r.exponent
  {
    Signed(r.negative, Num(r.digits) * Pow(10, k - (r.fraction - r.exponent)))
  }

  ghost predicate SameNumber(x: Reading, y: Reading) {
    forall k: nat | k >= x.fraction - x.exponent && k >= y.fraction - y.exponent :: At(x, k) == At(y, k)
  }

  function OfReading(r: Reading): Result<Decimal> {
    var scale := r.fraction - r.exponent;
    if scale < 0 then Make(r.negative, Num(r.digits) * Pow(10, -scale), 0) else Make(r.negative, Num(r.digits), scale)
  }

  /** The constructor `Decimal(text)`. */
  function Parse(text: Bytes): (r: Result<Decimal>)
    ensures r.Err? ==> r.code == InvalidRequest
  {
    if |text| > LIMIT || Read(text).None? then Err(InvalidRequest) else OfReading(Read(text).value)
  }

  lemma OfReadingExact(r: Reading, k: nat)
    requires OfReading(r).Ok? && k >= r.fraction - r.exponent
    ensures var d := OfReading(r).value; Normal(d) && d.scale <= k && Scaled(d, k) == At(r, k)
  {
    var scale := r.fraction - r.exponent;
    if scale < 0 {
      MakeExact(r.negative, Num(r.digits) * Pow(10, -scale), 0, k);
      PowAdd(10, -scale, k);
      MulAssoc(Num(r.digits), Pow(10, -scale), Pow(10, k));
    } else {
      MakeExact(r.negative, Num(r.digits), scale, k);
    }
  }

  // ---- Printing ----------------------------------------------------------

  /** The digits with the leading zeros that printing a fraction needs. */
  function Padded(d: Decimal): (ds: seq<digit>)
    ensures d.scale > 0 ==> |ds| > d.scale
  {
    if 0 < d.scale && |d.digits| <= d.scale then Zeros(d.scale + 1 - |d.digits|) + d.digits else d.digits
  }

  /** `Decimal::str`. */
  function Print(d: Decimal): Bytes {
    var ds := Padded(d);
    var body := if d.scale > 0 then Chars(ds[..|ds| - d.scale]) + [POINT] + Chars(ds[|ds| - d.scale..]) else Chars(ds);
    if d.negative then [MINUS] + body else body
  }

  lemma MantissaStep(d: digit, rest: Bytes, dot: bool)
    requires Mantissa(rest, dot).Some?
    ensures var scan := Mantissa(rest, dot).value;
      Mantissa([NOUGHT + d] + rest, dot)
        == Some(Scan([d] + scan.digits, if dot then scan.fraction + 1 else scan.fraction, scan.rest))
  {
    assert ([NOUGHT + d] + rest)[1..] == rest;
  }

  lemma CharsCons(ds: seq<digit>, rest: Bytes)
    requires ds != []
    ensures Chars(ds) + rest == [NOUGHT + ds[0]] + (Chars(ds[1..]) + rest)
  {
  }

  lemma {:induction false} MantissaDigits(ds: seq<digit>, rest: Bytes, dot: bool)
    requires Mantissa(rest, dot).Some?
    ensures var Scan(es, f, tail) := Mantissa(rest, dot).value;
      Mantissa(Chars(ds) + rest, dot) == Some(Scan(ds + es, if dot then |ds| + f else f, tail))
  {
    hide Mantissa, Chars;
    var scan := Mantissa(rest, dot).value;
    if ds == [] {
      assert Chars(ds) + rest == rest && ds + scan.digits == scan.digits;
    } else {
      MantissaDigits(ds[1..], rest, dot);
      var inner := Chars(ds[1..]) + rest;
      assert Mantissa(inner, dot) == Some(Scan(ds[1..] + scan.digits, if dot then |ds| - 1 + scan.fraction
        else scan.fraction, scan.rest));
      MantissaStep(ds[0], inner, dot);
      CharsCons(ds, rest);
      assert [ds[0]] + (ds[1..] + scan.digits) == ds + scan.digits;
    }
  }

  lemma MantissaAll(ds: seq<digit>, dot: bool)
    ensures Mantissa(Chars(ds), dot) == Some(Scan(ds, if dot then |ds| else 0, []))
  {
    MantissaDigits(ds, [], dot);
    assert Chars(ds) + [] == Chars(ds) && ds + [] == ds;
  }

  lemma MantissaPrinted(front: seq<digit>, back: seq<digit>)
    ensures Mantissa(Chars(front) + [POINT] + Chars(back), false) == Some(Scan(front + back, |back|, []))
  {
    MantissaAll(back, true);
    assert ([POINT] + Chars(back))[1..] == Chars(back);
    MantissaDigits(front, [POINT] + Chars(back), false);
    assert Chars(front) + ([POINT] + Chars(back)) == Chars(front) + [POINT] + Chars(back);
  }

  lemma ReadPrint(d: Decimal)
    requires d.digits != []
    ensures Read(Print(d)) == Some(Reading(d.negative, Padded(d), d.scale, 0))
  {
    var ds := Padded(d);
    if d.scale > 0 {
      MantissaPrinted(ds[..|ds| - d.scale], ds[|ds| - d.scale..]);
      assert ds[..|ds| - d.scale] + ds[|ds| - d.scale..] == ds;
    } else {
      MantissaAll(ds, false);
    }
    if d.negative {
      assert Mantissa(Print(d)[1..], false) == Some(Scan(ds, d.scale, []));
    } else {
      assert IsDigit(Print(d)[0]);
    }
  }

  lemma PrintedValue(d: Decimal)
    requires Normal(d)
    ensures OfReading(Reading(d.negative, Padded(d), d.scale, 0)) == Ok(d)
  {
    if 0 < d.scale && |d.digits| <= d.scale { NumPadded(d.digits, d.scale + 1 - |d.digits|); }
    MakeNormal(d);
  }

  /** Reading back what was printed succeeds exactly when the printed form fits the parser's limit. */
  lemma ParsePrint(d: Decimal)
    requires Normal(d)
    ensures Parse(Print(d)) == if |Print(d)| <= LIMIT then Ok(d) else Err(InvalidRequest)
  {
    ReadPrint(d);
    PrintedValue(d);
  }

  lemma PrintInjective(a: Decimal, b: Decimal)
    requires Normal(a) && Normal(b) && Print(a) == Print(b)
    ensures a == b
  {
    ReadPrint(a);
    ReadPrint(b);
    PrintedValue(a);
    PrintedValue(b);
  }

  /** Printing is canonical: two accepted texts print alike exactly when they denote the same number. */
  lemma PrintCanonical(s: Bytes, t: Bytes)
    requires Parse(s).Ok? && Parse(t).Ok?
    ensures Print(Parse(s).value) == Print(Parse(t).value) <==> SameNumber(Read(s).value, Read(t).value)
  {
    var x, y := Read(s).value, Read(t).value;
    var a, b := Parse(s).value, Parse(t).value;
    var k := Max(Abs(x.fraction - x.exponent), Abs(y.fraction - y.exponent));
    OfReadingExact(x, k);
    OfReadingExact(y, k);
    if SameNumber(x, y) {
      assert At(x, k) == At(y, k);
      Canonical(a, b, k);
    }
    if Print(a) == Print(b) {
      PrintInjective(a, b);
      forall k: nat | k >= x.fraction - x.exponent && k >= y.fraction - y.exponent ensures At(x, k) == At(y, k) {
        OfReadingExact(x, k);
        OfReadingExact(y, k);
      }
    }
  }

  // ---- Integers ----------------------------------------------------------

  lemma FromDigits(ds: seq<digit>, low: int, high: int)
    requires ds != [] && low <= 0
    ensures FromChars(Chars(ds), low, high) == if Num(ds) <= high then Some(Num(ds)) else None
    ensures low < 0 ==> FromChars([MINUS] + Chars(ds), low, high) == var n := 0 - Num(ds);
      if low <= n <= high then Some(n) else None
    ensures low == 0 ==> FromChars([MINUS] + Chars(ds), low, high) == None
  {
    hide Chars, Values, Num, AllDigits;
    ValuesChars(ds);
    assert Chars(ds)[0] != MINUS;
    var text := [MINUS] + Chars(ds);
    MinusIsNoDigit(Chars(ds));
    assert text[1..] == Chars(ds);
  }

  lemma MinusIsNoDigit(text: Bytes)
    ensures !AllDigits([MINUS] + text)
  {
    assert !IsDigit(([MINUS] + text)[0]);
  }

  lemma ValuesChars(ds: seq<digit>)
    ensures AllDigits(Chars(ds))
    ensures Values(Chars(ds)) == ds
  {
  }

  /** from_chars reads back what to_string printed, exactly when the number is in range. */
  lemma FromToChars(n: int, low: int, high: int)
    requires low <= 0 <= high
    ensures FromChars(ToChars(n), low, high) == if low <= n <= high then Some(n) else None
  {
    hide Chars, FromChars, Num, Digits;
    var ds := if n == 0 then [0] else Digits(Abs(n));
    NumDigits(Abs(n));
    NumSingle(0);
    FromDigits(ds, low, high);
    assert Chars([0]) == [NOUGHT];
    assert n >= 0 ==> ToChars(n) == Chars(ds);
  }

  /** An integral normal decimal prints as to_string prints its value. */
  lemma PrintIntegral(d: Decimal)
    requires Normal(d) && d.scale == 0
    ensures Print(d) == ToChars(Scaled(d, 0))
  {
    assert Pow(10, 0) == 1;
    if d == ZERO {
      NumSingle(0);
      assert Chars([0]) == [NOUGHT];
    } else {
      NumPositive(d.digits);
      DigitsNum(d.digits);
    }
  }
}
