/** The digit loops of `Decimal`: constructor, `normalize` and `add`, each proved to compute its specification. */
module DecimalLoops {
  import opened ByteStrings
  import opened Results
  import opened Decimals
  import opened DecimalTexts

  // ---- normalize ---------------------------------------------------------

  lemma NumLeadingZero(ds: seq<digit>)
    requires ds != [] && ds[0] == 0
    ensures Num(ds) == Num(ds[1..])
  {
    NumConcat([0], ds[1..]);
    NumSingle(0);
    assert ds == [0] + ds[1..];
  }

  method Normalize(negative: bool, digits: seq<digit>, scale: nat) returns (r: Result<Decimal>)
    ensures r == Make(negative, Num(digits), scale)
  {
    var first := 0;
    while first < |digits| && digits[first] == 0
      invariant 0 <= first <= |digits|
      invariant Num(digits[first..]) == Num(digits)
    {
      NumLeadingZero(digits[first..]);
      assert digits[first..][1..] == digits[first + 1..];
      first := first + 1;
    }
    if first == |digits| {
      return Ok(ZERO);
    }
    var ds, s: nat := digits[first..], scale;
    NumPositive(ds);
    while s > 0 && ds[|ds| - 1] == 0
      invariant ds != [] && ds[0] != 0
      invariant Reduce(Num(ds), s) == Reduce(Num(digits), scale)
    {
      LastDigit(ds);
      ds, s := ds[..|ds| - 1], s - 1;
    }
    LastDigit(ds);
    DigitsNum(ds);
    if |ds| > LIMIT || s > LIMIT {
      return Err(InvalidRequest);
    }
    return Ok(Decimal(negative, ds, s));
  }

  // ---- constructor -------------------------------------------------------

  function Prepend(digits: seq<digit>, fraction: nat, rest: Option<Scan>): Option<Scan> {
    match rest
    case None => None
    case Some(scan) => Some(Scan(digits + scan.digits, fraction + scan.fraction, scan.rest))
  }

  /** The mantissa loop: stops at the end, at an exponent mark, or at a bad character. */
  method ScanMantissa(text: Bytes, start: nat) returns (ok: bool, digits: seq<digit>, fraction: nat, pos: nat)
    requires start <= |text|
    ensures ok ==> pos <= |text| && Mantissa(text[start..], false) == Some(Scan(digits, fraction, text[pos..]))
    ensures !ok ==> Mantissa(text[start..], false) == None
  {
    ghost var whole := Mantissa(text[start..], false);
    digits, fraction, pos := [], 0, start;
    var dot := false;
    PrependNothing(whole);
    while pos < |text| && !IsExponentMark(text[pos])
      invariant pos <= |text|
      invariant whole == Prepend(digits, fraction, Mantissa(text[pos..], dot))
    {
      var c := text[pos];
      assert text[pos..][1..] == text[pos + 1..];
      pos := pos + 1;
      if c == POINT && !dot {
        dot := true;
      } else if !IsDigit(c) {
        return false, digits, fraction, pos;
      } else {
        PrependDigit(digits, Digit(c), fraction, if dot then 1 else 0, Mantissa(text[pos..], dot));
        digits := digits + [Digit(c)];
        if dot { fraction := fraction + 1; }
      }
    }
    ok := true;
    assert digits + [] == digits;
  }

  method ParseText(text: Bytes) returns (r: Result<Decimal>)
    ensures r == Parse(text)
  {
    if text == [] || |text| > LIMIT {
      return Err(InvalidRequest);
    }
    var start, negative := 0, text[0] == MINUS;
    if text[0] == MINUS || text[0] == PLUS {
      start := 1;
    }
    var ok, digits, fraction, pos := ScanMantissa(text, start);
    assert start == 0 ==> text[start..] == text;
    if !ok || digits == [] {
      return Err(InvalidRequest);
    }
    var exponent := 0;
    if pos < |text| {
      var parsed := Exponent(text[pos..][1..]);
      if parsed.None? {
        return Err(InvalidRequest);
      }
      exponent := parsed.value;
    }
    assert Read(text) == Some(Reading(negative, digits, fraction, exponent));
    r := Rescale(Reading(negative, digits, fraction, exponent));
  }

  /** A negative scale becomes trailing zeros. */
  method Rescale(reading: Reading) returns (r: Result<Decimal>)
    ensures r == OfReading(reading)
  {
    var digits, scale := reading.digits, reading.fraction - reading.exponent;
    if scale < 0 {
      NumPadded(digits, -scale);
      digits, scale := digits + Zeros(-scale), 0;
    }
    r := Normalize(reading.negative, digits, scale);
  }

  lemma PrependNothing(rest: Option<Scan>)
    ensures Prepend([], 0, rest) == rest
  {
    if rest.Some? { assert [] + rest.value.digits == rest.value.digits; }
  }

  lemma PrependDigit(digits: seq<digit>, d: digit, fraction: nat, step: nat, rest: Option<Scan>)
    ensures Prepend(digits, fraction,
              match rest
              case None => None
              case Some(scan) => Some(Scan([d] + scan.digits, scan.fraction + step, scan.rest)))
         == Prepend(digits + [d], fraction + step, rest)
  {
    if rest.Some? { assert digits + ([d] + rest.value.digits) == (digits + [d]) + rest.value.digits; }
  }

  // ---- add ---------------------------------------------------------------

  /** The i-th digit from the right, 0 beyond the left end. */
  function FromRight(ds: seq<digit>, i: nat): digit {
    if i < |ds| then ds[|ds| - 1 - i] else 0
  }

  /** The number made of the last i digits. */
  function Tail(ds: seq<digit>, i: nat): nat {
    if i < |ds| then Num(ds[|ds| - i..]) else Num(ds)
  }

  /** A digit string written least significant digit first. */
  function Reversed(ds: seq<digit>): (r: seq<digit>)
    ensures |r| == |ds|
  {
    if ds == [] then [] else [ds[|ds| - 1]] + Reversed(ds[..|ds| - 1])
  }

  lemma TailStep(ds: seq<digit>, i: nat)
    ensures Tail(ds, i + 1) == Tail(ds, i) + FromRight(ds, i) * Pow(10, i)
  {
    if i < |ds| {
      var rest := ds[|ds| - i..];
      NumConcat([ds[|ds| - 1 - i]], rest);
      NumSingle(ds[|ds| - 1 - i]);
      assert ds[|ds| - 1 - i..] == [ds[|ds| - 1 - i]] + rest;
      if i + 1 == |ds| { assert ds[0..] == ds; }
    }
  }

  lemma ReversedStep(out: seq<digit>, d: digit)
    ensures Num(Reversed(out + [d])) == Num(Reversed(out)) + d * Pow(10, |out|)
  {
    assert (out + [d])[..|out|] == out;
    NumConcat([d], Reversed(out));
    NumSingle(d);
  }

  /** Schoolbook addition, least significant digit first. */
  method AddMagnitudes(a: seq<digit>, b: seq<digit>) returns (out: seq<digit>)
    ensures Num(Reversed(out)) == Num(a) + Num(b)
  {
    hide Num, Pow, Reversed, Tail;
    out := [];
    var i, carry := 0, 0;
    NothingTaken(a);
    NothingTaken(b);
    PowStep(0);
    var length := if |a| >= |b| then |a| else |b|;
    while i < length || carry != 0
      invariant i == |out| && 0 <= carry <= 1 && (i > length ==> carry == 0)
      invariant Num(Reversed(out)) + carry * Pow(10, i) == Tail(a, i) + Tail(b, i)
      decreases length - i, carry
    {
      var sum := carry + FromRight(a, i) + FromRight(b, i);
      TailStep(a, i);
      TailStep(b, i);
      PowStep(i);
      ReversedStep(out, sum % 10);
      CarryStep(Num(Reversed(out)), Tail(a, i) + Tail(b, i), FromRight(a, i), FromRight(b, i), carry, Pow(10, i));
      out, carry := out + [sum % 10], sum / 10;
      i := i + 1;
    }
    AllTaken(a, i);
    AllTaken(b, i);
  }

  lemma PowStep(i: nat)
    ensures Pow(10, 0) == 1 && Pow(10, i + 1) == 10 * Pow(10, i)
  {
  }

  lemma NothingTaken(ds: seq<digit>)
    ensures Tail(ds, 0) == 0 && Num(Reversed([])) == 0
  {
    assert ds[|ds|..] == [];
  }

  lemma AllTaken(ds: seq<digit>, i: nat)
    ensures i >= |ds| ==> Tail(ds, i) == Num(ds)
  {
  }

  lemma CarryStep(written: nat, taken: nat, x: nat, y: nat, carry: nat, p: nat)
    requires written + carry * p == taken
    ensures var sum := carry + x + y;
      written + (sum % 10) * p + (sum / 10) * (10 * p) == taken + x * p + y * p
  {
    var sum := carry + x + y;
    assert sum == sum % 10 + 10 * (sum / 10);
    MulDistribute(sum % 10, 10 * (sum / 10), p);
    MulDistribute(carry + x, y, p);
    MulDistribute(carry, x, p);
    MulAssoc(sum / 10, 10, p);
  }

  /** What subtraction leaves when the borrow out of the top digit is dropped. */
  function Difference(a: seq<digit>, b: seq<digit>): int {
    Num(a) - Num(b) + (if Num(a) < Num(b) then Pow(10, |a|) else 0)
  }

  /** Schoolbook subtraction; a borrow out of the most significant digit is dropped. */
  method SubtractMagnitudes(a: seq<digit>, b: seq<digit>) returns (out: seq<digit>)
    requires |b| <= |a|
    ensures |out| == |a|
    ensures Num(Reversed(out)) == Difference(a, b)
  {
    hide Num, Pow, Reversed, Tail;
    out := [];
    var i, borrow := 0, 0;
    NothingTaken(a);
    NothingTaken(b);
    PowStep(0);
    while i < |a|
      invariant i == |out| <= |a| && 0 <= borrow <= 1
      invariant Num(Reversed(out)) - borrow * Pow(10, i) == Tail(a, i) - Tail(b, i)
    {
      var difference := FromRight(a, i) - borrow - FromRight(b, i);
      TailStep(a, i);
      TailStep(b, i);
      PowStep(i);
      var next := if difference < 0 then 1 else 0;
      var d: digit := if difference < 0 then difference + 10 else difference;
      ReversedStep(out, d);
      BorrowStep(FromRight(a, i), FromRight(b, i), borrow, d, next, Pow(10, i));
      out, borrow := out + [d], next;
      i := i + 1;
    }
    NumBounds(Reversed(out));
    AllTaken(a, i);
    AllTaken(b, i);
    assert borrow == 1 ==> Num(a) < Num(b);
    assert borrow == 0 ==> Num(a) >= Num(b);
  }

  lemma BorrowStep(x: int, y: int, borrow: int, d: int, next: int, p: int)
    requires d == x - borrow - y + 10 * next
    ensures d * p - next * (10 * p) == x * p - y * p - borrow * p
  {
    assert d * p == (x - borrow - y + 10 * next) * p;
  }

  /** a < b on digit strings of equal length, as std::string compares them. */
  predicate Smaller(a: seq<digit>, b: seq<digit>)
    requires |a| == |b|
  {
    a != [] && (a[0] < b[0] || (a[0] == b[0] && Smaller(a[1..], b[1..])))
  }

  lemma {:induction false} SmallerNum(a: seq<digit>, b: seq<digit>)
    requires |a| == |b|
    ensures Smaller(a, b) <==> Num(a) < Num(b)
  {
    if a != [] {
      var x, y := a[1..], b[1..];
      SmallerNum(x, y);
      NumConcat([a[0]], x);
      NumConcat([b[0]], y);
      NumSingle(a[0]);
      NumSingle(b[0]);
      assert a == [a[0]] + x && b == [b[0]] + y;
      NumBounds(x);
      NumBounds(y);
      LeadingDigit(a[0], b[0], Num(x), Num(y), Pow(10, |x|));
    }
  }

  lemma LeadingDigit(p: int, q: int, x: int, y: int, unit: int)
    requires 0 <= x < unit && 0 <= y < unit
    ensures p < q ==> p * unit + x < q * unit + y
    ensures p == q ==> (p * unit + x < q * unit + y <==> x < y)
    ensures p > q ==> p * unit + x > q * unit + y
  {
    MulDistribute(q, p - q, unit);
    if p < q { MulGrows(q - p, unit); MulNegate(q - p, unit); }
    if p > q { MulGrows(p - q, unit); }
  }

  lemma MulGrows(x: int, y: int)
    requires x >= 1 && y >= 0
    ensures x * y >= y
  {
  }

  /** Digit strings without leading zeros compare by length first. */
  lemma LongerIsLarger(a: seq<digit>, b: seq<digit>)
    requires a != [] && a[0] != 0 && |a| > |b|
    ensures Num(a) > Num(b)
  {
    NumBounds(a);
    NumBounds(b);
    PowSuffix(|b|, |a| - 1);
  }

  lemma {:induction false} PowSuffix(a: nat, b: nat)
    requires a <= b
    ensures Pow(10, a) <= Pow(10, b)
  {
    if a < b { PowSuffix(a, b - 1); }
  }

  predicate Swaps(a: seq<digit>, b: seq<digit>) {
    |a| < |b| || (|a| == |b| && Smaller(a, b))
  }

  /** `Decimal::add`. */
  method AddDecimals(x: Decimal, y: Decimal) returns (r: Result<Decimal>)
    requires Normal(x) && Normal(y)
    ensures r == Add(x, y)
  {
    var scale := Max(x.scale, y.scale);
    var a, b := x.digits + Zeros(scale - x.scale), y.digits + Zeros(scale - y.scale);
    if |a| > LIMIT || |b| > LIMIT {
      return Err(InvalidRequest);
    }
    Align(x, scale);
    Align(y, scale);
    var negative, digits := AddAligned(x, y, a, b);
    ghost var total := Total(x, y);
    assert Add(x, y) == Make(total < 0, Abs(total), scale);
    MakeSigned(negative, Num(digits), scale);
    r := Normalize(negative, digits, scale);
  }

  lemma Align(d: Decimal, scale: nat)
    requires scale >= d.scale
    ensures Aligned(d, d.digits + Zeros(scale - d.scale), scale)
  {
    NumPadded(d.digits, scale - d.scale);
  }

  lemma MakeSigned(negative: bool, n: nat, scale: nat)
    ensures var total := Signed(negative, n); Make(total < 0, Abs(total), scale) == Make(negative, n, scale)
  {
  }

  method AddAligned(x: Decimal, y: Decimal, a: seq<digit>, b: seq<digit>) returns (negative: bool, digits: seq<digit>)
    requires Normal(x) && Normal(y)
    requires Aligned(x, a, Max(x.scale, y.scale)) && Aligned(y, b, Max(x.scale, y.scale))
    ensures Total(x, y) == Signed(negative, Num(digits))
  {
    var out;
    if x.negative == y.negative {
      out := AddMagnitudes(a, b);
      negative := x.negative;
      SameSigns(x, y, a, b);
    } else {
      DifferentSigns(x, y, a, b);
      if Swaps(a, b) {
        out := SubtractMagnitudes(b, a);
        negative := y.negative;
      } else {
        out := SubtractMagnitudes(a, b);
        negative := x.negative;
      }
    }
    digits := Reversed(out);
  }

  lemma SameSigns(x: Decimal, y: Decimal, a: seq<digit>, b: seq<digit>)
    requires Normal(x) && Normal(y) && x.negative == y.negative
    requires Aligned(x, a, Max(x.scale, y.scale)) && Aligned(y, b, Max(x.scale, y.scale))
    ensures Total(x, y) == Signed(x.negative, Num(a) + Num(b))
  {
  }

  predicate Aligned(d: Decimal, a: seq<digit>, scale: nat) {
    && scale >= d.scale && a == d.digits + Zeros(scale - d.scale)
    && Num(a) == Num(d.digits) * Pow(10, scale - d.scale)
  }

  /** Comparing lengths first is right except when a zero meets a fraction. */
  lemma DifferentSigns(x: Decimal, y: Decimal, a: seq<digit>, b: seq<digit>)
    requires Normal(x) && Normal(y) && x.negative != y.negative
    requires Aligned(x, a, Max(x.scale, y.scale)) && Aligned(y, b, Max(x.scale, y.scale))
    ensures Swaps(a, b) ==> Difference(b, a) >= 0 && Total(x, y) == Signed(y.negative, Difference(b, a))
    ensures !Swaps(a, b) ==> Difference(a, b) >= 0 && Total(x, y) == Signed(x.negative, Difference(a, b))
  {
    if |a| == |b| { SmallerNum(a, b); }
    var scale := Max(x.scale, y.scale);
    if x == ZERO {
      ZeroOperand(x, a, y, b, scale);
    } else if y == ZERO {
      ZeroOperand(y, b, x, a, scale);
    } else if |a| > |b| {
      LongerIsLarger(a, b);
    } else if |b| > |a| {
      LongerIsLarger(b, a);
    }
  }

  lemma ZeroOperand(zero: Decimal, z: seq<digit>, d: Decimal, ds: seq<digit>, scale: nat)
    requires zero == ZERO && Normal(d) && d.negative && scale == d.scale
    requires Aligned(zero, z, scale) && Aligned(d, ds, scale)
    ensures ds == d.digits && Num(z) == 0 && |z| == scale + 1 && Num(ds) > 0
    ensures NegativeFraction(d) <==> |ds| <= scale
    ensures Num(ds) < Pow(10, |ds|)
  {
    hide Num, Pow;
    NumSingle(0);
    ZeroAligned(z, scale);
    assert d.digits + Zeros(0) == d.digits;
    assert ds == d.digits;
    NumPositive(ds);
    NumBounds(ds);
    if |ds| <= scale { PowSuffix(|ds|, scale); } else { PowSuffix(scale, |ds| - 1); }
  }

  lemma ZeroAligned(z: seq<digit>, scale: nat)
    requires Aligned(ZERO, z, scale)
    ensures Num(z) == 0 && |z| == scale + 1
  {
    hide Pow;
    NumSingle(0);
  }
}
