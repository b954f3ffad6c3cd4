/**
 Byte strings as the C++ code uses `std::string`: a sequence of octets, compared
 octet by octet. Also the iteration order of `std::map<std::string, T>` and the
 powers that positional encodings need.
 */
module ByteStrings {

  type byte = x: int | 0 <= x < 256
  type Bytes = seq<byte>

  const U64 := 0x1_0000_0000_0000_0000
  const INT64_MAX := 0x7FFF_FFFF_FFFF_FFFF

  type uint64 = x: int | 0 <= x < U64

  /** The octets of an ASCII literal. */
  function Ascii(s: string): (r: Bytes)
    ensures |r| == |s|
  {
    seq(|s|, i requires 0 <= i < |s| => (s[i] as int) % 256)
  }

  function Pow(base: nat, exponent: nat): nat {
    if exponent == 0 then 1 else base * Pow(base, exponent - 1)
  }

  lemma {:induction false} PowPositive(base: nat, exponent: nat)
    requires base > 0
    ensures Pow(base, exponent) > 0
  {
    if exponent > 0 { PowPositive(base, exponent - 1); }
  }

  lemma {:induction false} PowAdd(base: nat, a: nat, b: nat)
    ensures Pow(base, a + b) == Pow(base, a) * Pow(base, b)
  {
    if a > 0 {
      PowAdd(base, a - 1, b);
      assert base * (Pow(base, a - 1) * Pow(base, b)) == (base * Pow(base, a - 1)) * Pow(base, b);
    }
  }

  // ---- Octet order -------------------------------------------------------

  /** `a < b` on std::string. */
  predicate Less(a: Bytes, b: Bytes) {
    b != [] && (a == [] || a[0] < b[0] || (a[0] == b[0] && Less(a[1..], b[1..])))
  }

  lemma {:induction false} LessTrichotomy(a: Bytes, b: Bytes)
    ensures !Less(a, a)
    ensures a == b || Less(a, b) || Less(b, a)
    ensures !(Less(a, b) && Less(b, a))
  {
    if a != [] {
      LessTrichotomy(a[1..], if b == [] then a[1..] else b[1..]);
      if b != [] && a[0] == b[0] && a[1..] == b[1..] {
        assert a == [a[0]] + a[1..] && b == [b[0]] + b[1..];
      }
    }
  }

  lemma {:induction false} LessTransitive(a: Bytes, b: Bytes, c: Bytes)
    requires Less(a, b) && Less(b, c)
    ensures Less(a, c)
  {
    if a != [] && a[0] == b[0] == c[0] { LessTransitive(a[1..], b[1..], c[1..]); }
  }

  predicate IsLeast(k: Bytes, keys: set<Bytes>) {
    k in keys && forall j | j in keys && j != k :: Less(k, j)
  }

  lemma {:induction false} LeastExists(keys: set<Bytes>)
    requires keys != {}
    ensures exists k :: IsLeast(k, keys)
  {
    var x :| x in keys;
    var rest := keys - {x};
    if rest == {} {
      assert forall j | j in keys :: j == x || j in rest;
      assert IsLeast(x, keys);
    } else {
      LeastExists(rest);
      var k :| IsLeast(k, rest);
      LessTrichotomy(x, k);
      if Less(k, x) {
        assert IsLeast(k, keys);
      } else {
        forall j | j in keys && j != x ensures Less(x, j) {
          if j != k { LessTransitive(x, k, j); }
        }
        assert IsLeast(x, keys);
      }
    }
  }

  lemma LeastUnique(k: Bytes, j: Bytes, keys: set<Bytes>)
    requires IsLeast(k, keys) && IsLeast(j, keys)
    ensures k == j
  {
    LessTrichotomy(k, j);
  }

  function Least(keys: set<Bytes>): (k: Bytes)
    requires keys != {}
    ensures IsLeast(k, keys)
  {
    LeastExists(keys);
    assert forall k, j | IsLeast(k, keys) && IsLeast(j, keys) :: k == j by {
      forall k, j | IsLeast(k, keys) && IsLeast(j, keys) ensures k == j { LeastUnique(k, j, keys); }
    }
    var k :| IsLeast(k, keys);
    k
  }

  /** The keys of a std::map in iteration order. */
  function Sorted(keys: set<Bytes>): (r: seq<Bytes>)
    ensures forall k :: k in r <==> k in keys
    ensures |r| == |keys|
    ensures forall i, j | 0 <= i < j < |r| :: Less(r[i], r[j])
  {
    if keys == {} then [] else
      var k := Least(keys);
      [k] + Sorted(keys - {k})
  }
}
