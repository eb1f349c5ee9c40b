/** Bit strings: sources of bits, the growable word-packed buffer and the canonical byte-packed
    string (src/internal/bitstr). */
module Bitstr {
  import opened Bits

  /** An immutable string of bits, eight to a byte with the first bit lowest. */
  datatype BitString = BitString(x: seq<uint8>, l: nat)

  datatype Source =
    | BytesLSB(bytes: seq<uint8>, begin: nat, end: nat)
    | BytesMSB(bytes: seq<uint8>, begin: nat, end: nat)
    | Slice(source: Source, begin: nat, end: nat)
    | OfString(s: BitString)
    | OfBuffer(words: seq<uint64>, l: nat)

  /** An End of 0 stands for the end of the bytes. */
  function ByteEnd(bytes: seq<uint8>, end: nat): nat {
    if end == 0 then |bytes| * 8 else end
  }

  function Len(s: Source): int {
    match s
    case BytesLSB(bytes, begin, end) => ByteEnd(bytes, end) - begin
    case BytesMSB(bytes, begin, end) => ByteEnd(bytes, end) - begin
    case Slice(_, begin, end) => end - begin
    case OfString(str) => str.l
    case OfBuffer(_, l) => l
  }

  /** Every index below Len can be read without running out of bytes or words. */
  predicate Readable(s: Source) {
    match s
    case BytesLSB(bytes, begin, end) => Len(s) > 0 ==> ByteEnd(bytes, end) <= |bytes| * 8
    case BytesMSB(bytes, begin, end) => Len(s) > 0 ==> ByteEnd(bytes, end) <= |bytes| * 8
    case Slice(source, begin, end) => Len(s) > 0 ==> Readable(source) && end <= Len(source)
    case OfString(str) => str.l <= |str.x| * 8
    case OfBuffer(words, l) => l <= |words| * 64
  }

  predicate At(s: Source, i: nat)
    requires Readable(s) && i < Len(s)
  {
    match s
    case BytesLSB(bytes, begin, _) => And(bytes[(i + begin) / 8], Pow2((i + begin) % 8)) > 0
    case BytesMSB(bytes, begin, _) => And(bytes[(i + begin) / 8], Pow2(7 - (i + begin) % 8)) > 0
    case Slice(source, begin, _) => At(source, i + begin)
    case OfString(str) => And(str.x[i / 8], Pow2(i % 8)) > 0
    case OfBuffer(words, _) => And(words[i / 64], Pow2(i % 64)) > 0
  }

  function BitsOf(s: Source): (bits: seq<bool>)
    requires Readable(s)
    ensures |bits| == if Len(s) < 0 then 0 else Len(s)
  {
    seq(if Len(s) < 0 then 0 else Len(s), i requires 0 <= i < Len(s) => At(s, i))
  }

  function DivCeil(x: nat, z: nat): nat
    requires z > 0
  {
    if x % z > 0 then x / z + 1 else x / z
  }

  /** r holds exactly `bits`, eight to a byte, with the rest of the last byte clear. */
  ghost predicate PacksLSB(r: seq<uint8>, bits: seq<bool>) {
    && |r| == DivCeil(|bits|, 8)
    && forall i :: 0 <= i < |r| * 8 ==> Bit(r[i / 8], i % 8) == (i < |bits| && bits[i])
  }

  ghost predicate PacksMSB(r: seq<uint8>, bits: seq<bool>) {
    && |r| == DivCeil(|bits|, 8)
    && forall i :: 0 <= i < |r| * 8 ==> Bit(r[i / 8], 7 - i % 8) == (i < |bits| && bits[i])
  }

  lemma ByteExtensional(a: uint8, b: uint8)
    requires forall k :: 0 <= k < 8 ==> Bit(a, k) == Bit(b, k)
    ensures a == b
  {
    Pow2Byte();
    HighBits(a, 8);
    HighBits(b, 8);
    SameBits(a, b);
  }

  /** The packed form is unique. */
  lemma PackedUnique(r: seq<uint8>, s: seq<uint8>, bits: seq<bool>)
    requires (PacksLSB(r, bits) && PacksLSB(s, bits)) || (PacksMSB(r, bits) && PacksMSB(s, bits))
    ensures r == s
  {
    forall j | 0 <= j < |r| ensures r[j] == s[j] {
      forall k | 0 <= k < 8 ensures Bit(r[j], k) == Bit(s[j], k) {
        assert (j * 8 + k) / 8 == j && (j * 8 + k) % 8 == k;
        assert (j * 8 + (7 - k)) / 8 == j && 7 - (j * 8 + (7 - k)) % 8 == k;
      }
      ByteExtensional(r[j], s[j]);
    }
  }

  method AsBytesLSB(s: Source) returns (r: seq<uint8>, nbits: int)
    requires Readable(s)
    ensures PacksLSB(r, BitsOf(s))
    ensures nbits == Len(s)
  {
    ghost var bits := BitsOf(s);
    nbits := Len(s);
    var n: nat := if nbits < 0 then 0 else nbits;
    var buf := new uint8[DivCeil(n, 8)](_ => 0);
    forall i | 0 <= i < buf.Length * 8 ensures !Bit(buf[i / 8], i % 8) { BitOfZero(i % 8); }
    for i := 0 to n
      invariant buf.Length == DivCeil(n, 8)
      invariant forall j :: 0 <= j < buf.Length * 8 ==> Bit(buf[j / 8], j % 8) == (j < i && bits[j])
    {
      if At(s, i) {
        OrBit(buf[i / 8], i % 8);
        buf[i / 8] := Or(buf[i / 8], Pow2(i % 8));
      }
    }
    r := buf[..];
  }

  /** Setting a bit of a byte leaves a byte. */
  lemma OrBit(b: uint8, j: nat)
    requires j < 8
    ensures Or(b, Pow2(j)) < 256
    ensures forall k :: 0 <= k < 8 ==> Bit(Or(b, Pow2(j)), k) == (j == k || Bit(b, k))
  {
    Pow2Byte();
    MaskFits(b, j, 8);
    forall k | 0 <= k < 8 ensures Bit(Or(b, Pow2(j)), k) == (j == k || Bit(b, k)) { MaskSet(b, j, k); }
  }

  method AsBytesMSB(s: Source) returns (r: seq<uint8>, nbits: int)
    requires Readable(s)
    ensures PacksMSB(r, BitsOf(s))
    ensures nbits == Len(s)
  {
    ghost var bits := BitsOf(s);
    nbits := Len(s);
    var n: nat := if nbits < 0 then 0 else nbits;
    var buf := new uint8[DivCeil(n, 8)](_ => 0);
    forall i | 0 <= i < buf.Length * 8 ensures !Bit(buf[i / 8], 7 - i % 8) { BitOfZero(7 - i % 8); }
    for i := 0 to n
      invariant buf.Length == DivCeil(n, 8)
      invariant forall j :: 0 <= j < buf.Length * 8 ==> Bit(buf[j / 8], 7 - j % 8) == (j < i && bits[j])
    {
      if At(s, i) {
        OrBit(buf[i / 8], 7 - i % 8);
        buf[i / 8] := Or(buf[i / 8], Pow2(7 - i % 8));
      }
    }
    r := buf[..];
  }

  /** A string as made by BitString(): unused bits are clear and there are no unused bytes. */
  ghost predicate Canonical(s: BitString) {
    Readable(OfString(s)) && PacksLSB(s.x, BitsOf(OfString(s)))
  }

  lemma PackedReads(r: seq<uint8>, bits: seq<bool>)
    requires PacksLSB(r, bits)
    ensures Readable(OfString(BitString(r, |bits|))) && BitsOf(OfString(BitString(r, |bits|))) == bits
  {
    var s := OfString(BitString(r, |bits|));
    forall i | 0 <= i < |bits| ensures At(s, i) == bits[i] { MaskTest(r[i / 8], i % 8); }
  }

  /** Canonical strings are equal exactly when their bits are, so they can serve as map keys. */
  lemma CanonicalKeys(a: BitString, b: BitString)
    requires Canonical(a) && Canonical(b)
    ensures a == b <==> BitsOf(OfString(a)) == BitsOf(OfString(b))
  {
    if BitsOf(OfString(a)) == BitsOf(OfString(b)) {
      PackedUnique(a.x, b.x, BitsOf(OfString(a)));
    }
  }

  // ----- The buffer

  function WithBit(words: seq<uint64>, i: nat, b: bool): (r: seq<uint64>)
    requires i < |words| * 64
    ensures |r| == |words|
    ensures forall k :: 0 <= k < |words| * 64 ==> Bit(r[k / 64], k % 64) == if k == i then b else Bit(words[k / 64], k % 64)
  {
    WordFits(words[i / 64], i % 64);
    var w := if b then Or(words[i / 64], Pow2(i % 64)) else AndNot(words[i / 64], Pow2(i % 64));
    assert forall k :: 0 <= k < 64 ==> Bit(w, k) == if k == i % 64 then b else Bit(words[i / 64], k);
    words[i / 64 := w]
  }

  lemma WordFits(w: uint64, j: nat)
    requires j < 64
    ensures Or(w, Pow2(j)) < 0x1_0000_0000_0000_0000 && AndNot(w, Pow2(j)) < 0x1_0000_0000_0000_0000
    ensures forall k :: 0 <= k < 64 ==> Bit(Or(w, Pow2(j)), k) == (j == k || Bit(w, k))
    ensures forall k :: 0 <= k < 64 ==> Bit(AndNot(w, Pow2(j)), k) == (j != k && Bit(w, k))
  {
    Pow2Word();
    MaskFits(w, j, 64);
    forall k | 0 <= k < 64
      ensures Bit(Or(w, Pow2(j)), k) == (j == k || Bit(w, k))
      ensures Bit(AndNot(w, Pow2(j)), k) == (j != k && Bit(w, k))
    {
      MaskSet(w, j, k);
    }
  }

  /** The bits of a buffer are the bits of its words, whatever lies beyond its length. */
  lemma BufferBits(words: seq<uint64>, l: nat)
    requires l <= |words| * 64
    ensures forall i :: 0 <= i < l ==> BitsOf(OfBuffer(words, l))[i] == Bit(words[i / 64], i % 64)
  {
    forall i | 0 <= i < l ensures BitsOf(OfBuffer(words, l))[i] == Bit(words[i / 64], i % 64) {
      MaskTest(words[i / 64], i % 64);
    }
  }

  class Buffer {
    var x: seq<uint64>
    var l: nat

    ghost predicate Valid()
      reads this
    {
      l <= |x| * 64
    }

    ghost function Contents(): seq<bool>
      requires Valid()
      reads this
    {
      BitsOf(OfBuffer(x, l))
    }

    constructor ()
      ensures Valid() && Contents() == []
    {
      x, l := [], 0;
    }

    method Append(b: bool)
      requires Valid()
      modifies this
      ensures Valid() && Contents() == old(Contents()) + [b]
    {
      BufferBits(x, l);
      if |x| * 64 <= l {
        x := x + [0];
      }
      x := WithBit(x, l, b);
      l := l + 1;
      BufferBits(x, l);
    }

    method AppendAll(s: Source)
      requires Valid() && Readable(s)
      modifies this
      ensures Valid() && Contents() == old(Contents()) + BitsOf(s)
    {
      ghost var bits, before := BitsOf(s), Contents();
      var i := 0;
      assert bits[..0] == [];
      while i < Len(s)
        invariant 0 <= i <= |bits|
        invariant Valid() && Contents() == before + bits[..i]
      {
        Append(At(s, i));
        i := i + 1;
        assert bits[..i] == bits[..i - 1] + [bits[i - 1]];
      }
      assert bits[..i] == bits;
    }

    method Set(i: nat, b: bool)
      requires Valid() && i < l
      modifies this
      ensures Valid() && Contents() == old(Contents())[i := b]
    {
      BufferBits(x, l);
      x := WithBit(x, i, b);
      BufferBits(x, l);
    }

    /** Only the length changes; up to the old length the bits that remain are the first ones. */
    method Truncate(n: nat)
      requires Valid()
      modifies this
      ensures l == n && x == old(x)
      ensures n <= old(l) ==> Valid() && Contents() == old(Contents())[..n]
    {
      l := n;
    }

    method ToString() returns (r: BitString)
      requires Valid()
      ensures Canonical(r) && BitsOf(OfString(r)) == Contents()
    {
      var bytes, n := AsBytesLSB(OfBuffer(x, l));
      PackedReads(bytes, Contents());
      r := BitString(bytes, n);
    }
  }

  method FromSource(s: Source) returns (r: BitString)
    requires Readable(s)
    ensures Canonical(r) && BitsOf(OfString(r)) == BitsOf(s)
  {
    var buf := new Buffer();
    buf.AppendAll(s);
    r := buf.ToString();
  }

  /** The first bits of x are those of p.  A source whose begin lies behind its end has a negative
      length, which counts in the comparison. */
  method HasPrefix(x: Source, p: Source) returns (r: bool)
    requires Readable(x) && Readable(p)
    ensures r <==> Len(p) <= Len(x) && BitsOf(p) <= BitsOf(x)
  {
    if Len(x) < Len(p) {
      return false;
    }
    ghost var xs, ps := BitsOf(x), BitsOf(p);
    var i := 0;
    while i < Len(p)
      invariant 0 <= i <= |ps|
      invariant xs[..i] == ps[..i]
    {
      if At(x, i) != At(p, i) {
        assert xs[i] != ps[i];
        return false;
      }
      assert xs[..i + 1] == xs[..i] + [xs[i]] && ps[..i + 1] == ps[..i] + [ps[i]];
      i := i + 1;
    }
    assert ps[..i] == ps;
    r := true;
  }
}
