/** Unsigned machine integers as natural numbers, and the bitwise operators on them. */
module Bits {

  type uint8 = x: nat | x < 256
  type uint64 = x: nat | x < 0x1_0000_0000_0000_0000

  /** 1 << k */
  function Pow2(k: nat): (r: nat)
    ensures r > 0
  {
    if k == 0 then 1 else 2 * Pow2(k - 1)
  }

  /** Bit k of w, counted from the least significant one. */
  predicate Bit(w: nat, k: nat) {
    if k == 0 then w % 2 == 1 else Bit(w / 2, k - 1)
  }

  function And(a: nat, b: nat): nat {
    if a == 0 || b == 0 then 0 else 2 * And(a / 2, b / 2) + (if a % 2 == 1 && b % 2 == 1 then 1 else 0)
  }

  function Or(a: nat, b: nat): nat
    decreases a + b
  {
    if a == 0 && b == 0 then 0 else 2 * Or(a / 2, b / 2) + (if a % 2 == 1 || b % 2 == 1 then 1 else 0)
  }

  /** a & ^b */
  function AndNot(a: nat, b: nat): nat {
    if a == 0 then 0 else 2 * AndNot(a / 2, b / 2) + (if a % 2 == 1 && b % 2 == 0 then 1 else 0)
  }

  function Xor(a: nat, b: nat): nat
    decreases a + b
  {
    if a == 0 && b == 0 then 0 else 2 * Xor(a / 2, b / 2) + (if a % 2 != b % 2 then 1 else 0)
  }

  lemma {:induction false} BitOfZero(k: nat)
    ensures !Bit(0, k)
  {
    if k > 0 { BitOfZero(k - 1); }
  }

  lemma {:induction false} BitOfAnd(a: nat, b: nat, k: nat)
    ensures Bit(And(a, b), k) == (Bit(a, k) && Bit(b, k))
  {
    if a == 0 || b == 0 { BitOfZero(k); } else if k > 0 { BitOfAnd(a / 2, b / 2, k - 1); }
  }

  lemma {:induction false} BitOfOr(a: nat, b: nat, k: nat)
    ensures Bit(Or(a, b), k) == (Bit(a, k) || Bit(b, k))
  {
    if a == 0 && b == 0 { BitOfZero(k); } else if k > 0 { BitOfOr(a / 2, b / 2, k - 1); }
  }

  lemma {:induction false} BitOfAndNot(a: nat, b: nat, k: nat)
    ensures Bit(AndNot(a, b), k) == (Bit(a, k) && !Bit(b, k))
  {
    if a == 0 { BitOfZero(k); } else if k > 0 { BitOfAndNot(a / 2, b / 2, k - 1); }
  }

  lemma {:induction false} BitOfXor(a: nat, b: nat, k: nat)
    ensures Bit(Xor(a, b), k) == (Bit(a, k) != Bit(b, k))
  {
    if a == 0 && b == 0 { BitOfZero(k); } else if k > 0 { BitOfXor(a / 2, b / 2, k - 1); }
  }

  lemma {:induction false} BitOfPow2(j: nat, k: nat)
    ensures Bit(Pow2(j), k) == (j == k)
  {
    if j > 0 && k > 0 {
      BitOfPow2(j - 1, k - 1);
    } else if k > 0 {
      BitOfZero(k - 1);
    }
  }

  /** A number is below 2^n exactly when it has no bits from n up. */
  lemma {:induction false} HighBits(w: nat, n: nat)
    requires w < Pow2(n)
    ensures forall k :: k >= n ==> !Bit(w, k)
  {
    forall k | k >= n ensures !Bit(w, k) {
      if w == 0 {
        BitOfZero(k);
      } else {
        HighBits(w / 2, n - 1);
      }
    }
  }

  lemma {:induction false} FitsByBits(w: nat, n: nat)
    requires forall k :: k >= n ==> !Bit(w, k)
    ensures w < Pow2(n)
  {
    if w >= Pow2(n) {
      var k := SomeHighBit(w, n);
      assert false;
    }
  }

  lemma {:induction false} SomeHighBit(w: nat, n: nat) returns (k: nat)
    requires w >= Pow2(n)
    ensures k >= n && Bit(w, k)
  {
    if n == 0 && w % 2 == 1 {
      k := 0;
    } else {
      k := SomeHighBit(w / 2, if n == 0 then 0 else n - 1);
      k := k + 1;
    }
  }

  lemma {:induction false} SameBits(a: nat, b: nat)
    requires forall k: nat :: Bit(a, k) == Bit(b, k)
    ensures a == b
    decreases a + b
  {
    if a > 0 || b > 0 {
      assert Bit(a, 0) == Bit(b, 0);
      forall k: nat ensures Bit(a / 2, k) == Bit(b / 2, k) {
        assert Bit(a, k + 1) == Bit(b, k + 1);
      }
      SameBits(a / 2, b / 2);
    }
  }

  /** The test of the source, `w & mask > 0`, reads one bit. */
  lemma MaskTest(w: nat, k: nat)
    ensures And(w, Pow2(k)) > 0 <==> Bit(w, k)
  {
    if And(w, Pow2(k)) > 0 {
      var j := SomeHighBit(And(w, Pow2(k)), 0);
      BitOfAnd(w, Pow2(k), j);
      BitOfPow2(k, j);
    } else {
      BitOfZero(k);
      BitOfAnd(w, Pow2(k), k);
      BitOfPow2(k, k);
    }
  }

  /** Setting or clearing bit j changes bit j and no other. */
  lemma MaskSet(w: nat, j: nat, k: nat)
    ensures Bit(Or(w, Pow2(j)), k) == (j == k || Bit(w, k))
    ensures Bit(AndNot(w, Pow2(j)), k) == (j != k && Bit(w, k))
  {
    BitOfOr(w, Pow2(j), k);
    BitOfAndNot(w, Pow2(j), k);
    BitOfPow2(j, k);
  }

  lemma MaskFits(w: nat, j: nat, n: nat)
    requires w < Pow2(n) && j < n
    ensures Or(w, Pow2(j)) < Pow2(n) && AndNot(w, Pow2(j)) < Pow2(n)
  {
    HighBits(w, n);
    forall k | k >= n ensures !Bit(Or(w, Pow2(j)), k) && !Bit(AndNot(w, Pow2(j)), k) { MaskSet(w, j, k); }
    FitsByBits(Or(w, Pow2(j)), n);
    FitsByBits(AndNot(w, Pow2(j)), n);
  }

  lemma {:induction false} Pow2Add(a: nat, b: nat)
    ensures Pow2(a + b) == Pow2(a) * Pow2(b)
  {
    if a > 0 { Pow2Add(a - 1, b); }
  }

  lemma Pow2Byte()
    ensures Pow2(7) == 128 && Pow2(8) == 256
  {
    assert Pow2(4) == 16;
  }

  lemma Pow2Word()
    ensures Pow2(64) == 0x1_0000_0000_0000_0000
  {
    Pow2Byte();
    Pow2Add(8, 8);
    assert Pow2(16) == 0x1_0000;
    Pow2Add(16, 16);
    assert Pow2(32) == 0x1_0000_0000;
    Pow2Add(32, 32);
  }
}
