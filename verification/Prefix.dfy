/** Addresses as strings of bits, and the test for a prefix by leading zeros (src/inet256/id.go). */
module Prefix {
  import opened Bits
  import opened Bitstr

  type Address = a: seq<uint8> | |a| == 32 witness seq(32, _ => 0)

  /** The bits of some bytes, each from its most significant bit down. */
  function MsbBits(bytes: seq<uint8>): (bits: seq<bool>)
    ensures |bits| == |bytes| * 8
  {
    seq(|bytes| * 8, i requires 0 <= i < |bytes| * 8 => Bit(bytes[i / 8], 7 - i % 8))
  }

  lemma SourceBits(bytes: seq<uint8>, begin: nat, end: nat)
    requires begin <= end <= |bytes| * 8 && end > 0
    ensures Readable(BytesMSB(bytes, begin, end)) && BitsOf(BytesMSB(bytes, begin, end)) == MsbBits(bytes)[begin..end]
  {
    var s := BytesMSB(bytes, begin, end);
    forall i | 0 <= i < Len(s) ensures At(s, i) == MsbBits(bytes)[begin..end][i] {
      MaskTest(bytes[(i + begin) / 8], 7 - (i + begin) % 8);
    }
  }

  lemma MsbBitsInjective(a: seq<uint8>, b: seq<uint8>)
    requires MsbBits(a) == MsbBits(b)
    ensures a == b
  {
    assert |a| == |b|;
    forall i | 0 <= i < |a| * 8 ensures Bit(a[i / 8], 7 - i % 8) == Bit(b[i / 8], 7 - i % 8) {
      assert MsbBits(a)[i] == MsbBits(b)[i];
    }
    forall i | 0 <= i < |a| * 8 ensures Bit(a[i / 8], 7 - i % 8) == (i < |MsbBits(a)| && MsbBits(a)[i]) {}
    PackedUnique(a, b, MsbBits(a));
  }

  // ----- Packing as a function

  predicate BitAt(bits: seq<bool>, i: nat) {
    i < |bits| && bits[i]
  }

  /** The number whose binary digits are n bits from `base` on. */
  function Binary(bits: seq<bool>, base: nat, n: nat): (r: nat)
    ensures r < Pow2(n)
  {
    if n == 0 then 0 else 2 * Binary(bits, base, n - 1) + (if BitAt(bits, base + n - 1) then 1 else 0)
  }

  lemma {:induction false} BinaryBits(bits: seq<bool>, base: nat, n: nat, k: nat)
    requires k < n
    ensures Bit(Binary(bits, base, n), k) == BitAt(bits, base + n - 1 - k)
  {
    if k > 0 { BinaryBits(bits, base, n - 1, k - 1); }
  }

  /** `bits` as bytes, the last one filled up with zeros. */
  function FromMsbBits(bits: seq<bool>): (r: seq<uint8>)
    ensures PacksMSB(r, bits)
  {
    Pow2Byte();
    var r := seq(DivCeil(|bits|, 8), j requires 0 <= j => Binary(bits, j * 8, 8));
    assert forall i :: 0 <= i < |r| * 8 ==> Bit(r[i / 8], 7 - i % 8) == (i < |bits| && bits[i]) by {
      forall i | 0 <= i < |r| * 8 ensures Bit(r[i / 8], 7 - i % 8) == (i < |bits| && bits[i]) {
        BinaryBits(bits, i / 8 * 8, 8, 7 - i % 8);
      }
    }
    r
  }

  lemma PackedBits(bits: seq<bool>)
    ensures MsbBits(FromMsbBits(bits))[..|bits|] == bits
    ensures |bits| % 8 == 0 ==> MsbBits(FromMsbBits(bits)) == bits
  {
    var r := FromMsbBits(bits);
    forall i | 0 <= i < |bits| ensures MsbBits(r)[i] == bits[i] {
      assert i < |r| * 8 && Bit(r[i / 8], 7 - i % 8) == bits[i];
    }
    assert MsbBits(r)[..|bits|] == bits;
  }

  // ----- Leading zeros

  function LeadingZeros8(b: uint8): (lz: nat)
    ensures lz <= 8
    ensures b < Pow2(8 - lz) && (lz < 8 ==> b >= Pow2(7 - lz))
  {
    Pow2Byte();
    assert Pow2(0) == 1 && Pow2(1) == 2 && Pow2(2) == 4 && Pow2(3) == 8;
    assert Pow2(4) == 16 && Pow2(5) == 32 && Pow2(6) == 64;
    if b >= 128 then 0 else if b >= 64 then 1 else if b >= 32 then 2 else if b >= 16 then 3
    else if b >= 8 then 4 else if b >= 4 then 5 else if b >= 2 then 6 else if b >= 1 then 7 else 8
  }

  lemma XorFits(a: uint8, b: uint8)
    ensures Xor(a, b) < 256
  {
    Pow2Byte();
    HighBits(a, 8);
    HighBits(b, 8);
    forall k | k >= 8 ensures !Bit(Xor(a, b), k) { BitOfXor(a, b, k); }
    FitsByBits(Xor(a, b), 8);
  }

  /** The leading zeros of x ^ y count the leading bits on which x and y agree. */
  lemma XorLeading(x: uint8, y: uint8, lz: nat)
    requires Xor(x, y) < 256 && lz == LeadingZeros8(Xor(x, y))
    ensures forall k :: 8 - lz <= k < 8 ==> Bit(x, k) == Bit(y, k)
    ensures lz < 8 ==> Bit(x, 7 - lz) != Bit(y, 7 - lz)
  {
    var d := Xor(x, y);
    HighBits(d, 8 - lz);
    forall k | 8 - lz <= k < 8 ensures Bit(x, k) == Bit(y, k) { BitOfXor(x, y, k); }
    if lz < 8 {
      var k := SomeHighBit(d, 7 - lz);
      assert k == 7 - lz;
      BitOfXor(x, y, k);
    }
  }

  // ----- The test

  /** What HasPrefix below decides, for every nbits including those out of range. */
  predicate Prefixed(x: seq<uint8>, prefix: seq<uint8>, nbits: int) {
    && x != [] && prefix != []
    && nbits <= |x| * 8 && nbits <= |prefix| * 8
    && (nbits > 0 ==> MsbBits(x)[..nbits] == MsbBits(prefix)[..nbits])
  }

  lemma DifferAt(x: seq<uint8>, prefix: seq<uint8>, nbits: int, i: nat)
    requires i < |x| * 8 && i < |prefix| * 8 && i < nbits && MsbBits(x)[i] != MsbBits(prefix)[i]
    ensures !Prefixed(x, prefix, nbits)
  {}

  /** One byte further: the bits on which byte i agrees, and the first one on which it does not. */
  lemma ByteAgrees(x: seq<uint8>, y: seq<uint8>, i: nat, lz: nat)
    requires i < |x| && i < |y| && MsbBits(x)[..i * 8] == MsbBits(y)[..i * 8]
    requires Xor(x[i], y[i]) < 256 && lz == LeadingZeros8(Xor(x[i], y[i]))
    ensures MsbBits(x)[..i * 8 + lz] == MsbBits(y)[..i * 8 + lz]
    ensures lz < 8 ==> MsbBits(x)[i * 8 + lz] != MsbBits(y)[i * 8 + lz]
  {
    XorLeading(x[i], y[i], lz);
    forall j | 0 <= j < i * 8 + lz ensures MsbBits(x)[j] == MsbBits(y)[j] {
      if j < i * 8 {
        assert MsbBits(x)[..i * 8][j] == MsbBits(y)[..i * 8][j];
      } else {
        assert j / 8 == i && j % 8 == j - i * 8;
      }
    }
  }

  method HasPrefix(x: seq<uint8>, prefix: seq<uint8>, nbits: int) returns (r: bool)
    ensures r <==> Prefixed(x, prefix, nbits)
  {
    var total := 0;
    for i := 0 to |prefix|
      invariant total == i * 8
      invariant i <= |x| && MsbBits(x)[..i * 8] == MsbBits(prefix)[..i * 8]
      invariant i > 0 ==> total < nbits
    {
      if i >= |x| {
        return false;
      }
      XorFits(x[i], prefix[i]);
      var lz := LeadingZeros8(Xor(x[i], prefix[i]));
      ByteAgrees(x, prefix, i, lz);
      total := total + lz;
      if total >= nbits {
        PrefixOfEqual(MsbBits(x), MsbBits(prefix), total, nbits);
        return true;
      }
      if lz < 8 {
        DifferAt(x, prefix, nbits, total);
        return false;
      }
    }
    r := false;
  }

  lemma PrefixOfEqual(a: seq<bool>, b: seq<bool>, n: nat, m: int)
    requires n <= |a| && n <= |b| && a[..n] == b[..n] && m <= n
    ensures m > 0 ==> a[..m] == b[..m]
  {
    if m > 0 {
      assert a[..m] == a[..n][..m] && b[..m] == b[..n][..m];
    }
  }

  /** The two prefix tests.  From one bit up they agree on every input; at zero bits, where an End
      of 0 makes the bit string stand for the whole prefix, they agree only if the prefix is not
      empty and x has all of it. */
  lemma PrefixTestsAgree(x: seq<uint8>, prefix: seq<uint8>, nbits: nat)
    requires x != [] && nbits <= |prefix| * 8
    ensures var bitwise := Len(BytesMSB(prefix, 0, nbits)) <= |x| * 8
                           && Readable(BytesMSB(prefix, 0, nbits))
                           && BitsOf(BytesMSB(prefix, 0, nbits)) <= MsbBits(x);
      (Prefixed(x, prefix, nbits) == bitwise) <==>
        (nbits > 0 || (prefix != [] && MsbBits(prefix) <= MsbBits(x)))
  {
    if nbits > 0 {
      SourceBits(prefix, 0, nbits);
    } else if prefix != [] {
      SourceBits(prefix, 0, |prefix| * 8);
      assert MsbBits(prefix)[0..|prefix| * 8] == MsbBits(prefix);
      assert BitsOf(BytesMSB(prefix, 0, 0)) == BitsOf(BytesMSB(prefix, 0, |prefix| * 8));
    }
  }
}
