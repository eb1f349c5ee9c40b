/** INET256 addresses inside the IPv6 network 0200::/7 (src/inet256ipv6/addrmap.go). */
module AddrMap {
  import opened Bits
  import opened Bitstr
  import opened Prefix
  import opened Wrappers

  /** An IP address as netip sees it; `zoned` is an IPv6 address with a zone. */
  datatype IP = V4(b4: seq<uint8>) | V6(b6: IPv6, zoned: bool)

  type IPv6 = a: seq<uint8> | |a| == 16 witness seq(16, _ => 0)

  /** The seven bits of 0200::/7. */
  const NET_BITS: seq<bool> := [false, false, false, false, false, false, true]

  const NET_ADDR: seq<uint8> := [2, 0, 0, 0, 0, 0, 0, 0, 0, 0, 0, 0, 0, 0, 0, 0]

  lemma NetBits()
    ensures MsbBits(NET_ADDR)[0..7] == NET_BITS
  {
    BitOfTwo();
    forall i | 0 <= i < 7 ensures MsbBits(NET_ADDR)[i] == NET_BITS[i] {
      assert MsbBits(NET_ADDR)[i] == Bit(2, 7 - i);
    }
  }

  lemma BitOfTwo()
    ensures forall k: nat :: Bit(2, k) == (k == 1)
  {
    forall k: nat ensures Bit(2, k) == (k == 1) { assert Pow2(1) == 2; BitOfPow2(1, k); }
  }

  /** netPrefix.Contains for an IPv6 address. */
  predicate InNetwork(ip: IP) {
    ip.V6? && !ip.zoned && NET_BITS <= MsbBits(ip.b6)
  }

  // ----- The maps on bits

  /** The number of leading zeros. */
  function FirstOne(bits: seq<bool>): (n: nat)
    ensures n <= |bits|
    ensures forall i :: 0 <= i < n ==> !bits[i]
    ensures n < |bits| ==> bits[n]
  {
    if bits == [] || bits[0] then 0 else 1 + FirstOne(bits[1..])
  }

  function Uint7Bits(x: nat): (bits: seq<bool>)
    ensures |bits| == 7
  {
    seq(7, i requires 0 <= i < 7 => Bit(x, 6 - i))
  }

  /** What follows the first one; nothing if there is none. */
  function AfterFirstOne(bits: seq<bool>): seq<bool> {
    if FirstOne(bits) < |bits| then bits[FirstOne(bits) + 1..] else []
  }

  function Compressed(bits: seq<bool>): seq<bool> {
    Uint7Bits(FirstOne(bits)) + AfterFirstOne(bits)
  }

  function Uncompressed(c: seq<bool>): seq<bool>
    requires |c| >= 7
  {
    seq(Binary(c, 0, 7), _ => false) + [true] + c[7..]
  }

  lemma Pow2Seven()
    ensures Pow2(7) == 128
  {
    Pow2Byte();
  }

  /** Seven bits and the number below 128 they spell determine each other. */
  lemma Uint7RoundTrip(x: nat, rest: seq<bool>)
    requires x < 128
    ensures Binary(Uint7Bits(x) + rest, 0, 7) == x
  {
    Pow2Seven();
    var y := Binary(Uint7Bits(x) + rest, 0, 7);
    HighBits(x, 7);
    HighBits(y, 7);
    forall k: nat ensures Bit(x, k) == Bit(y, k) {
      if k < 7 { BinaryBits(Uint7Bits(x) + rest, 0, 7, k); }
    }
    SameBits(x, y);
  }

  lemma Uint7OfBinary(c: seq<bool>)
    requires |c| >= 7
    ensures Uint7Bits(Binary(c, 0, 7)) == c[..7]
  {
    var x := Binary(c, 0, 7);
    forall i | 0 <= i < 7 ensures Uint7Bits(x)[i] == c[i] { Uint7Bit(c, x, i); }
  }

  lemma Uint7Bit(c: seq<bool>, x: nat, i: nat)
    requires |c| >= 7 && x == Binary(c, 0, 7) && i < 7
    ensures Uint7Bits(x)[i] == c[i]
  {
    BinaryBits(c, 0, 7, 6 - i);
  }

  lemma BinaryUnique(c: seq<bool>, x: nat)
    requires x < 128 && |c| >= 7
    requires forall k :: 0 <= k < 7 ==> Bit(x, k) == c[6 - k]
    ensures x == Binary(c, 0, 7)
  {
    var y := Binary(c, 0, 7);
    Pow2Seven();
    HighBits(x, 7);
    HighBits(y, 7);
    forall k: nat ensures Bit(x, k) == Bit(y, k) {
      if k < 7 { BinaryBits(c, 0, 7, k); }
    }
    SameBits(x, y);
  }

  lemma FirstOneIs(bits: seq<bool>, n: nat)
    requires n <= |bits| && (forall i :: 0 <= i < n ==> !bits[i]) && (n < |bits| ==> bits[n])
    ensures n == FirstOne(bits)
  {}

  lemma FirstOneLate(bits: seq<bool>, n: nat)
    requires n <= |bits|
    ensures FirstOne(bits) >= n <==> forall i :: 0 <= i < n ==> !bits[i]
  {}

  lemma SliceBits(s: Source, begin: nat, end: nat)
    requires Readable(s) && begin <= end <= Len(s)
    ensures Readable(Slice(s, begin, end)) && BitsOf(Slice(s, begin, end)) == BitsOf(s)[begin..end]
  {}

  /** Reading one more bit into n sets bit j of n. */
  lemma ReadStep(n: nat, j: nat)
    requires n < 128 && j < 7
    ensures Or(n, Pow2(j)) < 128
    ensures forall k :: 0 <= k < 7 ==> Bit(Or(n, Pow2(j)), k) == (j == k || Bit(n, k))
  {
    Pow2Seven();
    MaskFits(n, j, 7);
    forall k | 0 <= k < 7 ensures Bit(Or(n, Pow2(j)), k) == (j == k || Bit(n, k)) { MaskSet(n, j, k); }
  }

  // ----- The code

  method WriteUint7(buf: Buffer, x: nat)
    requires buf.Valid() && x < 128
    modifies buf
    ensures buf.Valid() && buf.Contents() == old(buf.Contents()) + Uint7Bits(x)
  {
    ghost var before, bits := buf.Contents(), Uint7Bits(x);
    assert bits[..0] == [];
    for i := 0 to 7
      invariant buf.Valid() && buf.Contents() == before + bits[..i]
    {
      MaskTest(x, 6 - i);
      buf.Append(And(x, Pow2(6 - i)) > 0);
      assert bits[..i + 1] == bits[..i] + [bits[i]];
    }
    assert bits[..7] == bits;
  }

  method ReadUint7(s: Source) returns (n: nat)
    requires Readable(s) && Len(s) >= 7
    ensures n == Binary(BitsOf(s), 0, 7)
  {
    ghost var bits := BitsOf(s);
    n := 0;
    forall k | 0 <= k < 7 ensures !Bit(0, k) { BitOfZero(k); }
    for i := 0 to 7
      invariant n < 128
      invariant forall k :: 0 <= k < 7 ==> Bit(n, k) == (6 - k < i && bits[6 - k])
    {
      if At(s, i) {
        ReadStep(n, 6 - i);
        n := Or(n, Pow2(6 - i));
      }
    }
    BinaryUnique(bits, n);
  }

  lemma CompressedParts(before: seq<bool>, bits: seq<bool>)
    ensures before + Uint7Bits(FirstOne(bits)) + AfterFirstOne(bits) == before + Compressed(bits)
  {}

  /** What compress appends last; an empty slice if there is no one. */
  lemma RestBits(s: Source, n: nat)
    requires Readable(s) && n == FirstOne(BitsOf(s)) && Len(s) >= 0
    ensures Readable(Slice(s, n + 1, Len(s))) && BitsOf(Slice(s, n + 1, Len(s))) == AfterFirstOne(BitsOf(s))
  {
    if n < Len(s) {
      SliceBits(s, n + 1, Len(s));
      assert BitsOf(s)[n + 1..Len(s)] == BitsOf(s)[n + 1..];
    }
  }

  /** The loop of compress that finds the first one. */
  method CountLeadingZeros(x: BitString) returns (firstOne: nat)
    requires Readable(OfString(x))
    ensures firstOne == FirstOne(BitsOf(OfString(x)))
  {
    var s := OfString(x);
    ghost var bits := BitsOf(s);
    firstOne := 0;
    while firstOne < x.l && !At(s, firstOne)
      invariant 0 <= firstOne <= x.l
      invariant forall j :: 0 <= j < firstOne ==> !bits[j]
    {
      firstOne := firstOne + 1;
    }
    FirstOneIs(bits, firstOne);
  }

  /** ok is false where the source panics. */
  method Compress(buf: Buffer, x: BitString) returns (ok: bool)
    requires buf.Valid() && Readable(OfString(x))
    modifies buf
    ensures buf.Valid()
    ensures ok <==> FirstOne(BitsOf(OfString(x))) < 128
    ensures ok ==> buf.Contents() == old(buf.Contents()) + Compressed(BitsOf(OfString(x)))
  {
    var s := OfString(x);
    var firstOne := CountLeadingZeros(x);
    if firstOne >= 128 {
      return false;
    }
    ghost var before := buf.Contents();
    WriteUint7(buf, firstOne);
    RestBits(s, firstOne);
    buf.AppendAll(Slice(s, firstOne + 1, x.l));
    CompressedParts(before, BitsOf(s));
    ok := true;
  }

  method Uncompress(x: BitString) returns (r: BitString)
    requires Readable(OfString(x)) && x.l >= 7
    ensures Canonical(r) && BitsOf(OfString(r)) == Uncompressed(BitsOf(OfString(x)))
  {
    var s := OfString(x);
    var buf := new Buffer();
    var lz := ReadUint7(s);
    for i := 0 to lz
      invariant buf.Valid() && buf.Contents() == seq(i, _ => false)
    {
      buf.Append(false);
    }
    buf.Append(true);
    SliceBits(s, 7, x.l);
    buf.AppendAll(Slice(s, 7, x.l));
    r := buf.ToString();
  }

  // ----- The maps on addresses

  /** The IPv6 address of an INET256 address; None where the source panics. */
  function IPv6Of(a: Address): Option<IPv6> {
    var bits := MsbBits(a);
    if FirstOne(bits) >= 128 then None else Some(FromMsbBits((NET_BITS + Compressed(bits))[..128]))
  }

  datatype PrefixResult = NotV6 | NotInNetwork | Found(prefix: seq<uint8>, nbits: nat)

  function AddrPrefixBits(ip: IPv6): (bits: seq<bool>)
    ensures 115 <= |bits| < 115 + 128
  {
    Pow2Seven();
    Uncompressed(MsbBits(ip)[7..128])
  }

  /** The prefix that INET256 addresses with this IPv6 address share. */
  function PrefixFor(ip: IP): PrefixResult {
    if ip.V4? then NotV6
    else if !InNetwork(ip) then NotInNetwork
    else Found(FromMsbBits(AddrPrefixBits(ip.b6)), |AddrPrefixBits(ip.b6)|)
  }

  /** The code panics for an address whose first half is zero. */
  lemma PanicsExactly(a: Address)
    ensures IPv6Of(a).None? <==> forall i :: 0 <= i < 128 ==> !MsbBits(a)[i]
  {
    FirstOneLate(MsbBits(a), 128);
  }

  /** A buffer that holds the network prefix. */
  method NetworkBuffer() returns (buf: Buffer)
    ensures buf.Valid() && fresh(buf) && buf.Contents() == NET_BITS
  {
    buf := new Buffer();
    NetBits();
    SourceBits(NET_ADDR, 0, 7);
    buf.AppendAll(BytesMSB(NET_ADDR, 0, 7));
  }

  method IPv6FromINET256(x: Address) returns (r: Option<IPv6>)
    ensures r == IPv6Of(x)
  {
    ghost var bits := MsbBits(x);
    var buf := NetworkBuffer();
    SourceBits(x, 0, 256);
    assert bits[0..256] == bits;
    var str := FromSource(BytesMSB(x, 0, 256));
    var ok := Compress(buf, str);
    if !ok {
      return None;
    }
    assert buf.Contents() == NET_BITS + Compressed(bits);
    buf.Truncate(128);
    str := buf.ToString();
    var data, nbits := AsBytesMSB(OfString(str));
    PackedUnique(data, FromMsbBits(buf.Contents()), buf.Contents());
    r := Some(data);
  }

  method INET256PrefixFromIPv6(ip: IP) returns (r: PrefixResult)
    ensures r == PrefixFor(ip)
    ensures r.NotV6? <==> ip.V4?
    ensures r.NotInNetwork? <==> ip.V6? && (ip.zoned || !(NET_BITS <= MsbBits(ip.b6)))
  {
    if !ip.V6? {
      return NotV6;
    }
    if !InNetwork(ip) {
      return NotInNetwork;
    }
    SourceBits(ip.b6, 7, 128);
    var comp := FromSource(BytesMSB(ip.b6, 7, 128));
    var u := Uncompress(comp);
    var prefix, nbits := AsBytesMSB(OfString(u));
    PackedUnique(prefix, FromMsbBits(AddrPrefixBits(ip.b6)), AddrPrefixBits(ip.b6));
    r := Found(prefix, nbits);
  }

  // ----- Exact inverse

  /** The bits of the IPv6 address of an address with bits `a`. */
  function IPv6Bits(a: seq<bool>): (bits: seq<bool>)
    requires |a| == 256 && FirstOne(a) < 128
    ensures |bits| == 128
    ensures bits == NET_BITS + Uint7Bits(FirstOne(a)) + a[FirstOne(a) + 1..FirstOne(a) + 115]
  {
    (NET_BITS + Compressed(a))[..128]
  }

  lemma IPv6BitsInverse(a: seq<bool>, n: nat, rest: seq<bool>)
    requires |a| == 256 && n < 128 && |rest| == 114
    ensures (FirstOne(a) == n && a[n + 1..n + 115] == rest) <==> a[..n + 115] == seq(n, _ => false) + [true] + rest
  {
    var u := seq(n, _ => false) + [true] + rest;
    if a[..n + 115] == u {
      assert forall i :: 0 <= i < n + 115 ==> a[i] == u[i];
      FirstOneIs(a, n);
    }
  }

  lemma SameIPv6Bits(a: Address, ip: IPv6)
    ensures IPv6Of(a) == Some(ip) <==> FirstOne(MsbBits(a)) < 128 && IPv6Bits(MsbBits(a)) == MsbBits(ip)
  {
    if FirstOne(MsbBits(a)) < 128 {
      var bits := IPv6Bits(MsbBits(a));
      PackedBits(bits);
      if bits == MsbBits(ip) { MsbBitsInjective(FromMsbBits(bits), ip); }
    }
  }

  lemma PrefixedByBits(a: Address, ip: IP)
    requires InNetwork(ip)
    ensures var u := AddrPrefixBits(ip.b6);
      Prefixed(a, PrefixFor(ip).prefix, PrefixFor(ip).nbits) <==> MsbBits(a)[..|u|] == u
  {
    PackedBits(AddrPrefixBits(ip.b6));
  }

  lemma BitsToIPv6(a: seq<bool>, i: seq<bool>)
    requires |a| == 256 && |i| == 128 && NET_BITS <= i
    requires Binary(i[7..128], 0, 7) < 128
    requires FirstOne(a) == Binary(i[7..128], 0, 7) && a[FirstOne(a) + 1..FirstOne(a) + 115] == i[7..128][7..]
    ensures IPv6Bits(a) == i
  {
    var c := i[7..128];
    Uint7OfBinary(c);
    assert i == NET_BITS + c[..7] + c[7..];
  }

  lemma IPv6ToBits(a: seq<bool>, i: seq<bool>)
    requires |a| == 256 && |i| == 128 && FirstOne(a) < 128 && IPv6Bits(a) == i
    ensures FirstOne(a) == Binary(i[7..128], 0, 7) && a[FirstOne(a) + 1..FirstOne(a) + 115] == i[7..128][7..]
  {
    var k := FirstOne(a);
    assert i[7..128] == Uint7Bits(k) + a[k + 1..k + 115];
    Uint7RoundTrip(k, a[k + 1..k + 115]);
  }

  /** An address maps to ip exactly when it has the prefix found for ip, whose length tells the
      number of leading zeros. */
  lemma ExactInverse(a: Address, ip: IP)
    requires InNetwork(ip)
    ensures PrefixFor(ip).Found?
    ensures IPv6Of(a) == Some(ip.b6) <==> Prefixed(a, PrefixFor(ip).prefix, PrefixFor(ip).nbits)
    ensures IPv6Of(a) == Some(ip.b6) ==> PrefixFor(ip).nbits == FirstOne(MsbBits(a)) + 115
  {
    var bits, i := MsbBits(a), MsbBits(ip.b6);
    var n, rest := Binary(i[7..128], 0, 7), i[7..128][7..];
    Pow2Seven();
    PrefixedByBits(a, ip);
    IPv6BitsInverse(bits, n, rest);
    SameIPv6Bits(a, ip.b6);
    if IPv6Of(a) == Some(ip.b6) {
      IPv6ToBits(bits, i);
    } else if FirstOne(bits) == n && bits[n + 1..n + 115] == rest {
      BitsToIPv6(bits, i);
    }
  }

  /** Every INET256 address that has an IPv6 address has it inside the network. */
  lemma ImageInNetwork(a: Address)
    requires IPv6Of(a).Some?
    ensures InNetwork(V6(IPv6Of(a).value, false))
  {
    SameIPv6Bits(a, IPv6Of(a).value);
  }
}
