/** The header of beaconnet messages: a type byte, a source and a destination
    (networks/beaconnet/message.go). */
module Wire {
  import opened Bits
  import opened ByteSlices
  import opened Wrappers
  import opened Prefix

  const HEADER_SIZE: nat := 1 + 32 + 32

  type Header = h: Bytes | |h| == HEADER_SIZE witness seq(HEADER_SIZE, _ => 0)

  function GetType(h: Header): uint8 {
    h[0]
  }

  function GetSrc(h: Header): Address {
    h[1..33]
  }

  function GetDst(h: Header): Address {
    h[33..65]
  }

  method SetType(h: array<uint8>, x: uint8)
    requires h.Length == HEADER_SIZE
    modifies h
    ensures GetType(h[..]) == x && GetSrc(h[..]) == old(GetSrc(h[..])) && GetDst(h[..]) == old(GetDst(h[..]))
    ensures h[..] == [x] + old(h[1..])
  {
    h[0] := x;
    assert h[..][1..33] == old(h[..])[1..33] && h[..][33..65] == old(h[..])[33..65];
  }

  method SetSrc(h: array<uint8>, x: Address)
    requires h.Length == HEADER_SIZE
    modifies h
    ensures GetSrc(h[..]) == x && GetType(h[..]) == old(GetType(h[..])) && GetDst(h[..]) == old(GetDst(h[..]))
  {
    CopyInto(h, 1, x);
    assert h[..][0] == old(h[..])[0] && h[..][1..33] == x && h[..][33..65] == old(h[..])[33..65];
  }

  method SetDst(h: array<uint8>, x: Address)
    requires h.Length == HEADER_SIZE
    modifies h
    ensures GetDst(h[..]) == x && GetType(h[..]) == old(GetType(h[..])) && GetSrc(h[..]) == old(GetSrc(h[..]))
  {
    CopyInto(h, 33, x);
    assert h[..][0] == old(h[..])[0] && h[..][1..33] == old(h[..])[1..33] && h[..][33..65] == x;
  }

  /** The bytes that send puts on the wire. */
  method Marshal(src: Address, dst: Address, mtype: uint8, body: Bytes) returns (data: Bytes)
    ensures data == [mtype] + src + dst + body
    ensures Parse(data) == Some((mtype, src, dst, body))
  {
    var h := new uint8[HEADER_SIZE](_ => 0);
    SetSrc(h, src);
    SetDst(h, dst);
    SetType(h, mtype);
    data := h[..] + body;
    assert data[..HEADER_SIZE] == h[..] && data[HEADER_SIZE..] == body;
  }

  /** ParseMessage and the getters: None if there is no room for a header. */
  function Parse(data: Bytes): Option<(uint8, Address, Address, Bytes)> {
    if |data| < HEADER_SIZE then None
    else
      var h: Header := data[..HEADER_SIZE];
      Some((GetType(h), GetSrc(h), GetDst(h), data[HEADER_SIZE..]))
  }

  /** A message is determined by its type, source, destination and body, so what a forwarder
      passes on, the header and the body it parsed, is what it received. */
  lemma ParseIsInjective(data: Bytes, other: Bytes)
    requires Parse(data).Some? && Parse(data) == Parse(other)
    ensures data == other
  {
    ParseExact(data, Parse(data).value.0, Parse(data).value.1, Parse(data).value.2, Parse(data).value.3);
    ParseExact(other, Parse(data).value.0, Parse(data).value.1, Parse(data).value.2, Parse(data).value.3);
  }

  /** The layout of a message: the type, the source, the destination, the body.  Shorter ones do not parse. */
  lemma ParseExact(data: Bytes, mtype: uint8, src: Address, dst: Address, body: Bytes)
    ensures Parse(data) == Some((mtype, src, dst, body)) <==> data == [mtype] + src + dst + body
    ensures Parse(data).None? <==> |data| < 65
  {
    if |data| >= HEADER_SIZE {
      var h: Header := data[..HEADER_SIZE];
      assert h[1..33] == data[1..33] && h[33..65] == data[33..65];
      assert data == [data[0]] + data[1..33] + data[33..65] + data[65..];
    }
    if data == [mtype] + src + dst + body {
      assert data[0] == mtype && data[1..33] == src && data[33..65] == dst && data[65..] == body;
    }
  }
}
