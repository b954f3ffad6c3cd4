/**
 Exact, bounded base-10 arithmetic: `Decimal` of the Redis entity codec.

 A decimal is kept as its significant digits, the number of them after the point, and a
 sign. What it denotes is stated with integers only: `Scaled(d, k)` is the number times 10^k.
 */
module Decimals {
  import opened ByteStrings
  import opened Results

  const LIMIT := 4096

  type digit = x: int | 0 <= x < 10

  datatype Decimal = Decimal(negative: bool, digits: seq<digit>, scale: nat)

  const ZERO := Decimal(false, [0], 0)

  function Max(a: nat, b: nat): nat { if a >= b then a else b }
  function Abs(n: int): nat { if n < 0 then -n else n }
  function Signed(negative: bool, n: nat): int { if negative then -(n as int) else n }

  // ---- Digit strings -----------------------------------------------------

  function Num(ds: seq<digit>): nat {
    if ds == [] then 0 else 10 * Num(ds[..|ds| - 1]) + ds[|ds| - 1]
  }

  /** The digits of n without leading zeros; none at all for zero. */
  function Digits(n: nat): seq<digit> {
    if n == 0 then [] else Digits(n / 10) + [n % 10]
  }

  function Zeros(n: nat): (r: seq<digit>)
    ensures |r| == n
  {
    seq(n, _ => 0)
  }

  lemma NumSingle(d: digit)
    ensures Num([d]) == d
  {
    assert Num([d][..0]) == 0;
  }

  lemma {:induction false} NumDigits(n: nat)
    ensures Num(Digits(n)) == n
    ensures n > 0 ==> Digits(n) != [] && Digits(n)[0] != 0
  {
    if n > 0 {
      NumDigits(n / 10);
      assert Digits(n)[..|Digits(n)| - 1] == Digits(n / 10);
    }
  }

  lemma {:induction false} DigitsNum(ds: seq<digit>)
    requires ds == [] || ds[0] != 0
    ensures Digits(Num(ds)) == ds
  {
    hide Digits;
    if ds == [] {
      NoDigits();
    } else {
      var front, last := ds[..|ds| - 1], ds[|ds| - 1];
      DigitsNum(front);
      if front != [] { NumPositive(front); }
      DigitsMore(Num(front), last);
      assert ds == front + [last];
    }
  }

  lemma NoDigits()
    ensures Digits(0) == []
  {
  }

  lemma DigitsMore(n: nat, last: digit)
    requires n > 0 || last > 0
    ensures Digits(10 * n + last) == Digits(n) + [last]
  {
    assert (10 * n + last) / 10 == n && (10 * n + last) % 10 == last;
  }

  lemma {:induction false} NumBounds(ds: seq<digit>)
    ensures Num(ds) < Pow(10, |ds|)
    ensures ds != [] && ds[0] != 0 ==> Num(ds) >= Pow(10, |ds| - 1)
  {
    if ds != [] {
      NumBounds(ds[..|ds| - 1]);
      if |ds| == 1 { assert Num(ds[..0]) == 0; }
    }
  }

  lemma NumPositive(ds: seq<digit>)
    requires ds != [] && ds[0] != 0
    ensures Num(ds) >= 1
  {
    NumBounds(ds);
    PowPositive(10, |ds| - 1);
  }

  lemma LastDigit(ds: seq<digit>)
    requires ds != []
    ensures Num(ds) % 10 == ds[|ds| - 1]
  {
  }

  lemma {:induction false} NumConcat(a: seq<digit>, b: seq<digit>)
    ensures Num(a + b) == Num(a) * Pow(10, |b|) + Num(b)
  {
    if b == [] {
      assert a + b == a;
    } else {
      var c := b[..|b| - 1];
      NumConcat(a, c);
      assert (a + b)[..|a + b| - 1] == a + c;
      assert Pow(10, |b|) == 10 * Pow(10, |c|);
      assert 10 * (Num(a) * Pow(10, |c|)) == Num(a) * (10 * Pow(10, |c|));
    }
  }

  lemma {:induction false} NumZeros(n: nat)
    ensures Num(Zeros(n)) == 0
  {
    if n > 0 {
      NumZeros(n - 1);
      assert Zeros(n)[..n - 1] == Zeros(n - 1);
    }
  }

  lemma NumPadded(ds: seq<digit>, n: nat)
    ensures Num(ds + Zeros(n)) == Num(ds) * Pow(10, n)
    ensures Num(Zeros(n) + ds) == Num(ds)
  {
    NumConcat(ds, Zeros(n));
    NumConcat(Zeros(n), ds);
    NumZeros(n);
  }

  // ---- Normal form -------------------------------------------------------

  predicate Normal(d: Decimal) {
    && d.digits != [] && |d.digits| <= LIMIT && d.scale <= LIMIT
    && (d == ZERO || (d.digits[0] != 0 && (d.scale > 0 ==> d.digits[|d.digits| - 1] != 0)))
  }

  function Reduce(n: nat, scale: nat): (nat, nat)
    decreases scale
  {
    if scale > 0 && n % 10 == 0 then Reduce(n / 10, scale - 1) else (n, scale)
  }

  /** The normal form of ±n / 10^scale, or the precision error. */
  function Make(negative: bool, n: nat, scale: nat): (r: Result<Decimal>)
    ensures r.Err? ==> r.code == InvalidRequest
  {
    if n == 0 then Ok(ZERO) else
      var (m, s) := Reduce(n, scale);
      if |Digits(m)| > LIMIT || s > LIMIT then Err(InvalidRequest)
      else Ok(Decimal(negative, Digits(m), s))
  }

  /** The number d denotes, times 10^k. */
  function Scaled(d: Decimal, k: nat): int
    requires k >= d.scale
  {
    Signed(d.negative, Num(d.digits) * Pow(10, k - d.scale))
  }

  lemma {:induction false} ReduceExact(n: nat, scale: nat)
    ensures var (m, s) := Reduce(n, scale); s <= scale && m * Pow(10, scale - s) == n && (s > 0 ==> m % 10 != 0)
    ensures n > 0 ==> Reduce(n, scale).0 > 0
    decreases scale
  {
    if scale > 0 && n % 10 == 0 {
      ReduceExact(n / 10, scale - 1);
      var (m, s) := Reduce(n, scale);
      assert m * (10 * Pow(10, scale - 1 - s)) == 10 * (m * Pow(10, scale - 1 - s));
    }
  }

  lemma MakeExact(negative: bool, n: nat, scale: nat, k: nat)
    requires Make(negative, n, scale).Ok? && k >= scale
    ensures var d := Make(negative, n, scale).value;
      Normal(d) && d.scale <= scale && Scaled(d, k) == Signed(negative, n * Pow(10, k - scale))
  {
    var d := Make(negative, n, scale).value;
    if n == 0 {
      NumSingle(0);
    } else {
      ReduceExact(n, scale);
      var (m, s) := Reduce(n, scale);
      NumDigits(m);
      assert Digits(m)[|Digits(m)| - 1] == m % 10;
      PowAdd(10, scale - s, k - scale);
      MulAssoc(m, Pow(10, scale - s), Pow(10, k - scale));
    }
  }

  /** A normal form is its own normal form. */
  lemma MakeNormal(d: Decimal)
    requires Normal(d)
    ensures Make(d.negative, Num(d.digits), d.scale) == Ok(d)
  {
    if d == ZERO {
      NumSingle(0);
    } else {
      NumPositive(d.digits);
      LastDigit(d.digits);
      DigitsNum(d.digits);
    }
  }

  lemma ScaledZero(d: Decimal, k: nat)
    requires Normal(d) && k >= d.scale
    ensures Scaled(d, k) == 0 <==> d == ZERO
    ensures d.negative ==> Scaled(d, k) < 0
    ensures !d.negative ==> Scaled(d, k) >= 0
  {
    PowPositive(10, k - d.scale);
    if d == ZERO {
      NumSingle(0);
    } else {
      NumPositive(d.digits);
      MulAtLeast(Num(d.digits), Pow(10, k - d.scale));
    }
  }

  lemma MulAtLeast(x: nat, y: nat)
    requires x >= 1 && y >= 1
    ensures x * y >= 1
  {
  }

  /** Normal forms are canonical: one number has one normal form. */
  lemma Canonical(a: Decimal, b: Decimal, k: nat)
    requires Normal(a) && Normal(b) && k >= a.scale && k >= b.scale
    requires Scaled(a, k) == Scaled(b, k)
    ensures a == b
  {
    ScaledZero(a, k);
    ScaledZero(b, k);
    if a != ZERO {
      if a.scale <= b.scale { CanonicalOrdered(a, b, k); } else { CanonicalOrdered(b, a, k); }
    }
  }

  lemma AlignedEqual(x: nat, y: nat, gap: nat, rest: nat)
    requires x * Pow(10, gap + rest) == y * Pow(10, rest)
    ensures x * Pow(10, gap) == y
    ensures if gap > 0 then y % 10 == 0 else x == y
  {
    PowAdd(10, gap, rest);
    PowPositive(10, rest);
    MulAssoc(x, Pow(10, gap), Pow(10, rest));
    Cancel(x * Pow(10, gap), y, Pow(10, rest));
    if gap > 0 {
      var p := Pow(10, gap - 1);
      assert x * (10 * p) == 10 * (x * p);
    }
  }

  lemma CanonicalOrdered(a: Decimal, b: Decimal, k: nat)
    requires Normal(a) && Normal(b) && a != ZERO && b != ZERO && a.scale <= b.scale <= k
    requires a.negative == b.negative && Num(a.digits) * Pow(10, k - a.scale) == Num(b.digits) * Pow(10, k - b.scale)
    ensures a == b
  {
    hide Num, Pow, Digits;
    var gap := b.scale - a.scale;
    assert k - a.scale == gap + (k - b.scale);
    AlignedEqual(Num(a.digits), Num(b.digits), gap, k - b.scale);
    LastDigit(b.digits);
    DigitsNum(a.digits);
    DigitsNum(b.digits);
  }

  lemma Cancel(x: nat, y: nat, z: nat)
    requires z > 0 && x * z == y * z
    ensures x == y
  {
  }

  lemma MulAssoc(x: int, y: int, z: int)
    ensures (x * y) * z == x * (y * z)
  {
  }

  lemma MulDistribute(x: int, y: int, z: int)
    ensures (x + y) * z == x * z + y * z
  {
  }

  lemma MulNegate(x: int, y: int)
    ensures (-x) * y == -(x * y)
  {
  }

  // ---- Addition ----------------------------------------------------------

  /** d lies strictly between -1 and 0. */
  predicate NegativeFraction(d: Decimal) {
    d.negative && Num(d.digits) < Pow(10, d.scale)
  }

  /** The operand pairs on which `Decimal::add` goes wrong. */
  predicate ZeroAgainstFraction(a: Decimal, b: Decimal) {
    (a == ZERO && NegativeFraction(b)) || (b == ZERO && NegativeFraction(a))
  }

  /** What the digit loops leave at the common scale: a borrow out of the top digit is dropped. */
  function Total(a: Decimal, b: Decimal): int {
    var scale := Max(a.scale, b.scale);
    Scaled(a, scale) + Scaled(b, scale) + (if ZeroAgainstFraction(a, b) then Pow(10, scale + 1) else 0)
  }

  function Add(a: Decimal, b: Decimal): (r: Result<Decimal>)
    ensures r.Err? ==> r.code == InvalidRequest
  {
    var scale := Max(a.scale, b.scale);
    if |a.digits| + (scale - a.scale) > LIMIT || |b.digits| + (scale - b.scale) > LIMIT then Err(InvalidRequest)
    else Make(Total(a, b) < 0, Abs(Total(a, b)), scale)
  }

  /** r is the exact rational sum of a and b. */
  ghost predicate IsSum(r: Decimal, a: Decimal, b: Decimal) {
    forall k: nat | k >= r.scale && k >= a.scale && k >= b.scale :: Scaled(r, k) == Scaled(a, k) + Scaled(b, k)
  }

  lemma ScaledAt(d: Decimal, s: nat, k: nat)
    requires d.scale <= s <= k
    ensures Scaled(d, k) == Scaled(d, s) * Pow(10, k - s)
  {
    PowAdd(10, s - d.scale, k - s);
    MulAssoc(Num(d.digits), Pow(10, s - d.scale), Pow(10, k - s));
    MulNegate(Num(d.digits) * Pow(10, s - d.scale), Pow(10, k - s));
  }

  lemma AddAt(a: Decimal, b: Decimal, k: nat)
    requires Normal(a) && Normal(b) && Add(a, b).Ok? && k >= Max(a.scale, b.scale)
    ensures var r := Add(a, b).value; var scale := Max(a.scale, b.scale);
      Normal(r) && r.scale <= scale && Scaled(r, k) == Total(a, b) * Pow(10, k - scale)
  {
    var scale := Max(a.scale, b.scale);
    MakeExact(Total(a, b) < 0, Abs(Total(a, b)), scale, k);
    MulNegate(Total(a, b), Pow(10, k - scale));
  }

  lemma SumAt(a: Decimal, b: Decimal, k: nat)
    requires Normal(a) && Normal(b) && Add(a, b).Ok? && k >= Max(a.scale, b.scale) && !ZeroAgainstFraction(a, b)
    ensures Add(a, b).value.scale <= k && Scaled(Add(a, b).value, k) == Scaled(a, k) + Scaled(b, k)
  {
    var scale := Max(a.scale, b.scale);
    AddAt(a, b, k);
    ScaledAt(a, scale, k);
    ScaledAt(b, scale, k);
    MulDistribute(Scaled(a, scale), Scaled(b, scale), Pow(10, k - scale));
  }

  /** Addition that is not rejected for size is exact unless a zero meets a number strictly between -1 and 0. */
  lemma AddExact(a: Decimal, b: Decimal)
    requires Normal(a) && Normal(b) && Add(a, b).Ok?
    ensures Normal(Add(a, b).value) && Add(a, b).value.scale <= Max(a.scale, b.scale)
    ensures IsSum(Add(a, b).value, a, b) <==> !ZeroAgainstFraction(a, b)
  {
    var r := Add(a, b).value;
    var scale := Max(a.scale, b.scale);
    AddAt(a, b, scale);
    if ZeroAgainstFraction(a, b) {
      PowPositive(10, scale + 1);
      assert Scaled(r, scale) != Scaled(a, scale) + Scaled(b, scale);
    } else {
      forall k: nat | k >= r.scale && k >= a.scale && k >= b.scale
        ensures Scaled(r, k) == Scaled(a, k) + Scaled(b, k)
      {
        SumAt(a, b, k);
      }
    }
  }

  /** A sum in normal form has no more digits after the point than its operands. */
  lemma SumScale(a: Decimal, b: Decimal, r: Decimal)
    requires Normal(r) && IsSum(r, a, b)
    ensures r.scale <= Max(a.scale, b.scale)
  {
    hide Scaled;
    var scale := Max(a.scale, b.scale);
    if r.scale > scale {
      var gap := r.scale - scale;
      ScaledAt(a, scale, r.scale);
      ScaledAt(b, scale, r.scale);
      MulDistribute(Scaled(a, scale), Scaled(b, scale), Pow(10, gap));
      var n := Scaled(a, scale) + Scaled(b, scale);
      assert Scaled(r, r.scale) == n * Pow(10, gap);
      MulAssoc(n, 10, Pow(10, gap - 1));
      MulAssoc(n, Pow(10, gap - 1), 10);
      TenDivides(r, n * Pow(10, gap - 1));
    }
  }

  lemma TenDivides(d: Decimal, m: int)
    requires Normal(d) && d.scale > 0
    ensures Scaled(d, d.scale) != m * 10
  {
    assert Pow(10, 0) == 1;
    LastDigit(d.digits);
  }

  /** The rejections are for size only: no decimal within the limits denotes the sum of operands that align. */
  lemma AddRejectsOnlySize(a: Decimal, b: Decimal, r: Decimal)
    requires Normal(a) && Normal(b) && Normal(r) && IsSum(r, a, b)
    requires !ZeroAgainstFraction(a, b)
    requires |a.digits| + (Max(a.scale, b.scale) - a.scale) <= LIMIT
    requires |b.digits| + (Max(a.scale, b.scale) - b.scale) <= LIMIT
    ensures Add(a, b) == Ok(r)
  {
    var scale := Max(a.scale, b.scale);
    SumScale(a, b, r);
    assert Scaled(r, scale) == Total(a, b);
    MakeOf(r, scale);
  }

  lemma MakeOf(d: Decimal, scale: nat)
    requires Normal(d) && scale >= d.scale
    ensures Make(Scaled(d, scale) < 0, Abs(Scaled(d, scale)), scale) == Ok(d)
  {
    ScaledZero(d, scale);
    if d != ZERO { MakePadded(d, scale - d.scale); }
  }

  lemma MakePadded(d: Decimal, zeros: nat)
    requires Normal(d) && d != ZERO
    ensures Make(d.negative, Num(d.digits) * Pow(10, zeros), d.scale + zeros) == Ok(d)
  {
    hide Num, Pow, Digits, Reduce;
    NumPositive(d.digits);
    PowPositive(10, zeros);
    var n := Num(d.digits) * Pow(10, zeros);
    assert n > 0 by { MulAtLeast(Num(d.digits), Pow(10, zeros)); }
    LastDigit(d.digits);
    ReducePadded(Num(d.digits), d.scale, zeros);
    DigitsNum(d.digits);
  }

  lemma {:induction false} ReducePadded(n: nat, scale: nat, zeros: nat)
    requires scale > 0 ==> n % 10 != 0
    ensures Reduce(n * Pow(10, zeros), scale + zeros) == (n, scale)
  {
    if zeros > 0 {
      ReducePadded(n, scale, zeros - 1);
      assert n * (10 * Pow(10, zeros - 1)) == 10 * (n * Pow(10, zeros - 1));
    }
  }

  /** The failing family is not empty: 0 + -0.5 comes out as 9.5. */
  lemma ZeroPlusMinusHalf()
    ensures var half := Decimal(true, [5], 1);
      Normal(ZERO) && Normal(half) && ZeroAgainstFraction(ZERO, half)
      && Add(ZERO, half) == Ok(Decimal(false, [9, 5], 1))
  {
    var half := Decimal(true, [5], 1);
    NumSingle(5);
    NumSingle(0);
    assert Pow(10, 0) == 1;
    assert Pow(10, 1) == 10;
    assert Pow(10, 2) == 10 * Pow(10, 1);
    assert Scaled(ZERO, 1) == 0 && Scaled(half, 1) == -5;
    assert Reduce(95, 1) == (95, 1);
    assert Digits(9) == [9] by { assert Digits(0) == []; }
    assert Digits(95) == [9, 5];
  }
}
