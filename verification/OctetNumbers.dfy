/** Octets as bit vectors and as numbers, bit by bit. */
module OctetNumbers {
  function Pack(b7: bool, b6: bool, b5: bool, b4: bool, b3: bool, b2: bool, b1: bool, b0: bool): bv8 {
    (if b7 then 0x80 else 0) | (if b6 then 0x40 else 0) | (if b5 then 0x20 else 0) | (if b4 then 0x10 else 0)
    | (if b3 then 8 else 0) | (if b2 then 4 else 0) | (if b1 then 2 else 0) | (if b0 then 1 else 0)
  }

  function Weight(b: bool, w: nat): nat { if b then w else 0 }

  predicate Has(b: bv8, mask: bv8) { b & mask != 0 }

  function Octet(n: nat): bv8
    requires n < 256
  {
    var n6 := Cut(n, 128);
    var n5 := Cut(n6, 64);
    var n4 := Cut(n5, 32);
    var n3 := Cut(n4, 16);
    var n2 := Cut(n3, 8);
    var n1 := Cut(n2, 4);
    var n0 := Cut(n1, 2);
    Pack(n >= 128, n6 >= 64, n5 >= 32, n4 >= 16, n3 >= 8, n2 >= 4, n1 >= 2, n0 >= 1)
  }

  /** What is left of a number after its place of this weight. */
  function Cut(n: nat, w: nat): nat { if n >= w then n - w else n }

  function Number(b: bv8): (n: nat)
    ensures n < 256
  {
    Sum(Has(b, 0x80), Has(b, 0x40), Has(b, 0x20), Has(b, 0x10), Has(b, 8), Has(b, 4), Has(b, 2), Has(b, 1))
  }

  function Sum(b7: bool, b6: bool, b5: bool, b4: bool, b3: bool, b2: bool, b1: bool, b0: bool): (n: nat)
    ensures n < 256
  {
    Weight(b7, 128) + Weight(b6, 64) + Weight(b5, 32) + Weight(b4, 16) + Weight(b3, 8) + Weight(b2, 4) + Weight(b1, 2)
      + Weight(b0, 1)
  }

  lemma PackHas(b7: bool, b6: bool, b5: bool, b4: bool, b3: bool, b2: bool, b1: bool, b0: bool)
    ensures var p := Pack(b7, b6, b5, b4, b3, b2, b1, b0);
      && Has(p, 0x80) == b7 && Has(p, 0x40) == b6 && Has(p, 0x20) == b5 && Has(p, 0x10) == b4
      && Has(p, 8) == b3 && Has(p, 4) == b2 && Has(p, 2) == b1 && Has(p, 1) == b0
  {
  }

  lemma NumberPack(b7: bool, b6: bool, b5: bool, b4: bool, b3: bool, b2: bool, b1: bool, b0: bool)
    ensures Number(Pack(b7, b6, b5, b4, b3, b2, b1, b0)) == Sum(b7, b6, b5, b4, b3, b2, b1, b0)
  {
    hide Pack, Has, Sum;
    PackHas(b7, b6, b5, b4, b3, b2, b1, b0);
  }

  lemma NumberOctet(n: nat)
    requires n < 256
    ensures Number(Octet(n)) == n
  {
    hide Pack, Number, Weight, Cut;
    var n6 := Cut(n, 128);
    var n5 := Cut(n6, 64);
    var n4 := Cut(n5, 32);
    var n3 := Cut(n4, 16);
    var n2 := Cut(n3, 8);
    var n1 := Cut(n2, 4);
    var n0 := Cut(n1, 2);
    NumberPack(n >= 128, n6 >= 64, n5 >= 32, n4 >= 16, n3 >= 8, n2 >= 4, n1 >= 2, n0 >= 1);
    CutWeight(n, 128);
    CutWeight(n6, 64);
    CutWeight(n5, 32);
    CutWeight(n4, 16);
    CutWeight(n3, 8);
    CutWeight(n2, 4);
    CutWeight(n1, 2);
    CutWeight(n0, 1);
  }

  lemma CutWeight(n: nat, w: nat)
    requires n < 2 * w
    ensures n == Weight(n >= w, w) + Cut(n, w) && Cut(n, w) < w
  {
  }

  lemma PackOfHas(b: bv8)
    ensures Pack(Has(b, 0x80), Has(b, 0x40), Has(b, 0x20), Has(b, 0x10), Has(b, 8), Has(b, 4), Has(b, 2), Has(b, 1))
      == b
  {
  }

  /** The highest place of a number that is not too large is taken exactly when the number reaches its weight. */
  lemma CutPlace(b: bool, w: nat, rest: nat)
    requires rest < w
    ensures (Weight(b, w) + rest >= w) == b && Cut(Weight(b, w) + rest, w) == rest
  {
  }

  lemma OctetSum(b7: bool, b6: bool, b5: bool, b4: bool, b3: bool, b2: bool, b1: bool, b0: bool)
    ensures Octet(Sum(b7, b6, b5, b4, b3, b2, b1, b0)) == Pack(b7, b6, b5, b4, b3, b2, b1, b0)
  {
    hide Pack, Weight, Cut;
    assert Weight(b0, 1) < 2 && Weight(b1, 2) <= 2 && Weight(b2, 4) <= 4 && Weight(b3, 8) <= 8 && Weight(b4, 16) <= 16
      && Weight(b5, 32) <= 32 && Weight(b6, 64) <= 64 by { WeightMost(b0, b1, b2, b3, b4, b5, b6); }
    var n0 := Weight(b0, 1);
    var n1 := Weight(b1, 2) + n0;
    var n2 := Weight(b2, 4) + n1;
    var n3 := Weight(b3, 8) + n2;
    var n4 := Weight(b4, 16) + n3;
    var n5 := Weight(b5, 32) + n4;
    var n6 := Weight(b6, 64) + n5;
    CutPlace(b7, 128, n6);
    CutPlace(b6, 64, n5);
    CutPlace(b5, 32, n4);
    CutPlace(b4, 16, n3);
    CutPlace(b3, 8, n2);
    CutPlace(b2, 4, n1);
    CutPlace(b1, 2, n0);
    CutPlace(b0, 1, 0);
  }

  lemma WeightMost(b0: bool, b1: bool, b2: bool, b3: bool, b4: bool, b5: bool, b6: bool)
    ensures Weight(b0, 1) <= 1 && Weight(b1, 2) <= 2 && Weight(b2, 4) <= 4 && Weight(b3, 8) <= 8
      && Weight(b4, 16) <= 16 && Weight(b5, 32) <= 32 && Weight(b6, 64) <= 64
  {
  }

  lemma OctetNumber(b: bv8)
    ensures Octet(Number(b)) == b
  {
    hide Pack, Has, Octet, Sum;
    PackOfHas(b);
    OctetSum(Has(b, 0x80), Has(b, 0x40), Has(b, 0x20), Has(b, 0x10), Has(b, 8), Has(b, 4), Has(b, 2), Has(b, 1));
  }
}
