/** The text form of addresses: unpadded base64 with an alphabet in the order of its characters
    (src/inet256/id.go; section 4 of RFC 4648 for the grouping). */
module TextForm {
  import opened Bits
  import opened Prefix
  import opened Wrappers

  type Sextet = x: nat | x < 64

  /** The character for a sextet.  The alphabet is a dash, the digits, the capital letters, an
      underscore and the small letters. */
  function Char(i: Sextet): char {
    if i == 0 then '-'
    else if i <= 10 then '0' + (i - 1) as char
    else if i <= 36 then 'A' + (i - 11) as char
    else if i == 37 then '_'
    else 'a' + (i - 38) as char
  }

  function Value(c: char): Option<Sextet> {
    if c == '-' then Some(0)
    else if '0' <= c <= '9' then Some((c - '0') as int + 1)
    else if 'A' <= c <= 'Z' then Some((c - 'A') as int + 11)
    else if c == '_' then Some(37)
    else if 'a' <= c <= 'z' then Some((c - 'a') as int + 38)
    else None
  }

  lemma CharValue(i: Sextet)
    ensures Value(Char(i)) == Some(i)
  {}

  lemma CharOrder(i: Sextet, j: Sextet)
    ensures Char(i) < Char(j) <==> i < j
    ensures Char(i) == Char(j) <==> i == j
  {}

  // ----- Encoding

  /** The four sextets of three bytes. */
  function Sextets(a: uint8, b: uint8, c: uint8): (r: seq<Sextet>)
    ensures |r| == 4
  {
    [a / 4, a % 4 * 16 + b / 16, b % 16 * 4 + c / 64, c % 64]
  }

  function SextetsOf(bytes: seq<uint8>): seq<Sextet> {
    if bytes == [] then []
    else if |bytes| == 1 then Sextets(bytes[0], 0, 0)[..2]
    else if |bytes| == 2 then Sextets(bytes[0], bytes[1], 0)[..3]
    else Sextets(bytes[0], bytes[1], bytes[2]) + SextetsOf(bytes[3..])
  }

  function Chars(s: seq<Sextet>): (t: string)
    ensures |t| == |s|
  {
    seq(|s|, i requires 0 <= i < |s| => Char(s[i]))
  }

  function Encode(bytes: seq<uint8>): string {
    Chars(SextetsOf(bytes))
  }

  // ----- Decoding

  /** The bytes of a group of two to four sextets; left-over low bits are ignored. */
  function Bytes(s: seq<Sextet>): (r: seq<uint8>)
    requires 2 <= |s| <= 4
    ensures |r| == |s| - 1
  {
    var s0: nat, s1: nat := s[0], s[1];
    var s2: nat := if |s| > 2 then s[2] else 0;
    var s3: nat := if |s| > 3 then s[3] else 0;
    [s0 * 4 + s1 / 16, s1 % 16 * 16 + s2 / 4, s2 % 4 * 64 + s3][..|s| - 1]
  }

  function DecodeSextets(s: seq<Sextet>): Option<seq<uint8>> {
    if s == [] then Some([])
    else if |s| == 1 then None
    else if |s| <= 4 then Some(Bytes(s))
    else
      var rest := DecodeSextets(s[4..]);
      if rest.None? then None else Some(Bytes(s[..4]) + rest.value)
  }

  /** Line breaks are skipped and any other character outside the alphabet is an error. */
  function Values(t: string): Option<seq<Sextet>> {
    if t == "" then Some([])
    else
      var rest := Values(t[1..]);
      if rest.None? then None
      else if t[0] == '\n' || t[0] == '\r' then rest
      else if Value(t[0]).None? then None
      else Some([Value(t[0]).value] + rest.value)
  }

  function Decode(t: string): Option<seq<uint8>> {
    var s := Values(t);
    if s.None? then None else DecodeSextets(s.value)
  }

  datatype Unmarshaled = Ok(addr: Address) | Error | Overflow

  /** UnmarshalText; Overflow is a text for more bytes than an address has, where the source panics. */
  function UnmarshalText(t: string): Unmarshaled {
    var b := Decode(t);
    if b.None? || |b.value| < 32 then Error
    else if |b.value| > 32 then Overflow
    else Ok(b.value)
  }

  // ----- Round trip

  lemma {:induction false} ValuesOfChars(s: seq<Sextet>)
    ensures Values(Chars(s)) == Some(s)
  {
    if s != [] {
      ValuesOfChars(s[1..]);
      CharValue(s[0]);
      assert Chars(s)[1..] == Chars(s[1..]);
      assert Chars(s)[0] == Char(s[0]);
      assert s == [s[0]] + s[1..];
    }
  }

  lemma GroupRoundTrip(a: uint8, b: uint8, c: uint8)
    ensures Bytes(Sextets(a, b, c)) == [a, b, c]
    ensures Bytes(Sextets(a, b, 0)[..3]) == [a, b]
    ensures Bytes(Sextets(a, 0, 0)[..2]) == [a]
  {}

  lemma {:induction false} SextetsRoundTrip(bytes: seq<uint8>)
    ensures DecodeSextets(SextetsOf(bytes)) == Some(bytes)
  {
    if |bytes| == 0 {
    } else if |bytes| == 1 {
      GroupRoundTrip(bytes[0], 0, 0);
      assert bytes == [bytes[0]];
    } else if |bytes| == 2 {
      GroupRoundTrip(bytes[0], bytes[1], 0);
      assert bytes == [bytes[0], bytes[1]];
    } else {
      var group, rest := Sextets(bytes[0], bytes[1], bytes[2]), SextetsOf(bytes[3..]);
      GroupRoundTrip(bytes[0], bytes[1], bytes[2]);
      SextetsRoundTrip(bytes[3..]);
      assert bytes == [bytes[0], bytes[1], bytes[2]] + bytes[3..];
      if rest == [] {
        assert group + rest == group;
        assert bytes == [bytes[0], bytes[1], bytes[2]];
      } else {
        assert (group + rest)[..4] == group && (group + rest)[4..] == rest;
      }
    }
  }

  /** Any bytes, and so any address, are read back from their text. */
  lemma TextRoundTrip(bytes: seq<uint8>, a: Address)
    ensures Decode(Encode(bytes)) == Some(bytes)
    ensures UnmarshalText(Encode(a)) == Ok(a)
  {
    ValuesOfChars(SextetsOf(bytes));
    SextetsRoundTrip(bytes);
    ValuesOfChars(SextetsOf(a));
    SextetsRoundTrip(a);
  }

  // ----- Order

  predicate Less(a: seq<nat>, b: seq<nat>) {
    b != [] && (a == [] || a[0] < b[0] || (a[0] == b[0] && Less(a[1..], b[1..])))
  }

  predicate LessText(a: string, b: string) {
    b != [] && (a == [] || a[0] < b[0] || (a[0] == b[0] && LessText(a[1..], b[1..])))
  }

  lemma {:induction false} CharsOrder(s: seq<Sextet>, t: seq<Sextet>)
    ensures LessText(Chars(s), Chars(t)) <==> Less(s, t)
  {
    if s != [] && t != [] {
      CharOrder(s[0], t[0]);
      CharsOrder(s[1..], t[1..]);
      assert Chars(s)[1..] == Chars(s[1..]) && Chars(t)[1..] == Chars(t[1..]);
    }
  }

  /** Comparing a common-length start first, then the rest. */
  lemma {:induction false} LessAppend(a: seq<nat>, b: seq<nat>, x: seq<nat>, y: seq<nat>)
    requires |a| == |b|
    ensures Less(a + x, b + y) <==> Less(a, b) || (a == b && Less(x, y))
  {
    if a == [] {
      assert a + x == x && b + y == y;
    } else {
      LessAppend(a[1..], b[1..], x, y);
      assert (a + x)[1..] == a[1..] + x && (b + y)[1..] == b[1..] + y;
      assert a == [a[0]] + a[1..] && b == [b[0]] + b[1..];
    }
  }

  /** Less on three or four digits, spelled out. */
  lemma LessDigits(a: seq<nat>, b: seq<nat>)
    requires |a| == |b| > 0
    ensures Less(a, b) <==> a[0] < b[0] || (a[0] == b[0] && Less(a[1..], b[1..]))
  {}

  function Number(a: nat, b: nat, c: nat): nat {
    a * 65536 + b * 256 + c
  }

  lemma LessBytes(a: seq<uint8>, b: seq<uint8>)
    requires |a| == |b| == 3
    ensures Less(a, b) <==> Number(a[0], a[1], a[2]) < Number(b[0], b[1], b[2])
    ensures a == b <==> Number(a[0], a[1], a[2]) == Number(b[0], b[1], b[2])
  {
    LessDigits(a, b);
    LessDigits(a[1..], b[1..]);
    LessDigits(a[1..][1..], b[1..][1..]);
    assert a[1..][1..][1..] == [] && b[1..][1..][1..] == [];
  }

  function Number4(s: seq<Sextet>): nat
    requires |s| == 4
  {
    var s0: nat, s1: nat, s2: nat, s3: nat := s[0], s[1], s[2], s[3];
    s0 * 262144 + s1 * 4096 + s2 * 64 + s3
  }

  lemma LessSextets(s: seq<Sextet>, t: seq<Sextet>)
    requires |s| == |t| == 4
    ensures Less(s, t) <==> Number4(s) < Number4(t)
    ensures s == t <==> Number4(s) == Number4(t)
  {
    LessDigits(s, t);
    LessDigits(s[1..], t[1..]);
    LessDigits(s[1..][1..], t[1..][1..]);
    LessDigits(s[1..][1..][1..], t[1..][1..][1..]);
    assert s[1..][1..][1..][1..] == [] && t[1..][1..][1..][1..] == [];
  }

  /** Three bytes and their four sextets spell the same number. */
  lemma SameNumber(a: uint8, b: uint8, c: uint8)
    ensures Number4(Sextets(a, b, c)) == Number(a, b, c)
  {
    var x: nat, y: nat, z: nat := a, b, c;
    assert x == x / 4 * 4 + x % 4 && y == y / 16 * 16 + y % 16 && z == z / 64 * 64 + z % 64;
  }

  lemma GroupOrder(a: seq<uint8>, b: seq<uint8>)
    requires |a| == |b| == 3
    ensures Less(Sextets(a[0], a[1], a[2]), Sextets(b[0], b[1], b[2])) <==> Less(a, b)
    ensures Sextets(a[0], a[1], a[2]) == Sextets(b[0], b[1], b[2]) <==> a == b
  {
    LessBytes(a, b);
    LessSextets(Sextets(a[0], a[1], a[2]), Sextets(b[0], b[1], b[2]));
    SameNumber(a[0], a[1], a[2]);
    SameNumber(b[0], b[1], b[2]);
  }

  /** A last group of one or two bytes compares like the same group filled up with zeros. */
  lemma LastGroupOrder(a: seq<uint8>, b: seq<uint8>)
    requires 1 <= |a| == |b| <= 2
    ensures Less(SextetsOf(a), SextetsOf(b)) <==> Less(a, b)
  {
    var zeros: seq<uint8> := if |a| == 1 then [0, 0] else [0];
    var a3, b3 := a + zeros, b + zeros;
    var s, t := Sextets(a3[0], a3[1], a3[2]), Sextets(b3[0], b3[1], b3[2]);
    var n := |a| + 1;
    GroupOrder(a3, b3);
    LessAppend(a, b, zeros, zeros);
    assert s == SextetsOf(a) + s[n..] && t == SextetsOf(b) + t[n..];
    assert s[n..] == t[n..];
    LessAppend(SextetsOf(a), SextetsOf(b), s[n..], t[n..]);
    NotLess(zeros);
    NotLess(s[n..]);
  }

  lemma {:induction false} NotLess(s: seq<nat>)
    ensures !Less(s, s)
  {
    if s != [] { NotLess(s[1..]); }
  }

  lemma {:induction false} SextetsOrder(a: seq<uint8>, b: seq<uint8>)
    requires |a| == |b|
    ensures Less(SextetsOf(a), SextetsOf(b)) <==> Less(a, b)
  {
    if 1 <= |a| <= 2 {
      LastGroupOrder(a, b);
    } else if |a| >= 3 {
      SextetsOrder(a[3..], b[3..]);
      GroupOrder(a[..3], b[..3]);
      LessAppend(a[..3], b[..3], a[3..], b[3..]);
      assert a == a[..3] + a[3..] && b == b[..3] + b[3..];
      LessAppend(Sextets(a[0], a[1], a[2]), Sextets(b[0], b[1], b[2]), SextetsOf(a[3..]), SextetsOf(b[3..]));
    }
  }

  /** Addresses, and any two byte strings of the same length, are ordered as their texts are. */
  lemma TextKeepsOrder(a: seq<uint8>, b: seq<uint8>)
    requires |a| == |b|
    ensures LessText(Encode(a), Encode(b)) <==> Less(a, b)
  {
    SextetsOrder(a, b);
    CharsOrder(SextetsOf(a), SextetsOf(b));
  }
}
