/** The IPC protocol: length-prefixed frames on a byte stream and the messages inside them
    (src/inet256ipc). */
module Ipc {
  import opened Bits
  import opened ByteSlices

  const MTU: nat := 65535
  const MAX_MESSAGE_LEN: nat := 4 + 32 + MTU

  // ----- Big-endian numbers

  function BE32(n: nat): (b: Bytes)
    requires n < 0x1_0000_0000
    ensures |b| == 4
  {
    [n / 256 / 256 / 256, n / 256 / 256 % 256, n / 256 % 256, n % 256]
  }

  function FromBE32(b: Bytes): (n: nat)
    requires |b| == 4
    ensures n < 0x1_0000_0000
  {
    var b0: nat, b1: nat, b2: nat, b3: nat := b[0], b[1], b[2], b[3];
    ((b0 * 256 + b1) * 256 + b2) * 256 + b3
  }

  lemma BE32RoundTrip(n: nat)
    requires n < 0x1_0000_0000
    ensures FromBE32(BE32(n)) == n
  {}

  lemma FromBE32RoundTrip(b: Bytes)
    requires |b| == 4
    ensures BE32(FromBE32(b)) == b
  {
    var n: nat := FromBE32(b);
    var b0: nat, b1: nat, b2: nat, b3: nat := b[0], b[1], b[2], b[3];
    assert n / 256 == (b0 * 256 + b1) * 256 + b2 && n % 256 == b3;
    assert n / 256 / 256 == b0 * 256 + b1 && n / 256 % 256 == b2;
  }

  // ----- Frames

  function Frame(m: Bytes): Bytes
    requires |m| <= MAX_MESSAGE_LEN
  {
    BE32(|m|) + m
  }

  predicate Fits(ms: seq<Bytes>) {
    forall i :: 0 <= i < |ms| ==> |ms[i]| <= MAX_MESSAGE_LEN
  }

  function Frames(ms: seq<Bytes>): Bytes
    requires Fits(ms)
  {
    if ms == [] then [] else Frame(ms[0]) + Frames(ms[1..])
  }

  datatype Received = Message(data: Bytes) | EOF | UnexpectedEOF | TooLong

  /** io.ReadFull fails with EOF if it gets nothing at all. */
  function ShortRead(available: nat): Received {
    if available == 0 then EOF else UnexpectedEOF
  }

  /** One Receive on a stream that holds s and then ends: the result and what is left unread. */
  function ReadFrame(s: Bytes): (r: (Received, Bytes))
    ensures r.0.Message? ==> |r.1| < |s|
  {
    if |s| < 4 then (ShortRead(|s|), [])
    else
      var l := FromBE32(s[..4]);
      if l > MAX_MESSAGE_LEN then (TooLong, s[4..])
      else if |s| - 4 < l then (ShortRead(|s| - 4), [])
      else (Message(s[4..4 + l]), s[4 + l..])
  }

  /** A frame is read if there is one; otherwise the error tells whether nothing was there, before the
      length or after it, or something but not enough, or a length above the limit. */
  lemma ReadExact(s: Bytes)
    ensures var (r, rest) := ReadFrame(s);
      && (r.Message? ==> |r.data| <= MAX_MESSAGE_LEN && s == BE32(|r.data|) + r.data + rest)
      && (r == TooLong <==> |s| >= 4 && FromBE32(s[..4]) > MAX_MESSAGE_LEN)
      && (r == EOF <==> s == [] || (|s| == 4 && 0 < FromBE32(s) <= MAX_MESSAGE_LEN))
      && (r == UnexpectedEOF <==>
            0 < |s| < 4 || (|s| > 4 && |s| - 4 < FromBE32(s[..4]) <= MAX_MESSAGE_LEN))
      && (!r.Message? && r != TooLong ==> rest == [])
      && (r == TooLong ==> rest == s[4..])
  {
    if |s| >= 4 {
      var l := FromBE32(s[..4]);
      FromBE32RoundTrip(s[..4]);
      assert |s| == 4 ==> s[..4] == s;
      if l <= |s| - 4 { assert s == s[..4] + s[4..4 + l] + s[4 + l..]; }
    }
  }

  /** Receive until it fails: the messages, the error and what is left unread. */
  function ReadAll(s: Bytes): (seq<Bytes>, Received, Bytes)
    decreases |s|
  {
    var (r, rest) := ReadFrame(s);
    if r.Message? then
      var (ms, err, left) := ReadAll(rest);
      ([r.data] + ms, err, left)
    else ([], r, rest)
  }

  lemma ReadOne(m: Bytes, rest: Bytes)
    requires |m| <= MAX_MESSAGE_LEN
    ensures ReadFrame(Frame(m) + rest) == (Message(m), rest)
  {
    var s := Frame(m) + rest;
    BE32RoundTrip(|m|);
    assert s[..4] == BE32(|m|);
    assert s[4..4 + |m|] == m;
    assert s[4 + |m|..] == rest;
  }

  /** How many of the messages have their whole frame within the first n bytes. */
  function Complete(ms: seq<Bytes>, n: nat): nat
    requires Fits(ms)
  {
    if ms == [] || n < |Frame(ms[0])| then 0 else 1 + Complete(ms[1..], n - |Frame(ms[0])|)
  }

  lemma {:induction false} CompleteBound(ms: seq<Bytes>, n: nat)
    requires Fits(ms)
    ensures Complete(ms, n) <= |ms|
    ensures n >= |Frames(ms)| ==> Complete(ms, n) == |ms|
  {
    if ms != [] && n >= |Frame(ms[0])| {
      CompleteBound(ms[1..], n - |Frame(ms[0])|);
    }
  }

  lemma PartialFrame(m: Bytes, s: Bytes, rest: Bytes)
    requires |m| <= MAX_MESSAGE_LEN && s <= Frame(m) + rest && |s| < |Frame(m)|
    ensures ReadFrame(s) == (ShortRead(if |s| < 4 then |s| else |s| - 4), [])
  {
    if |s| >= 4 {
      assert s[..4] == BE32(|m|);
      BE32RoundTrip(|m|);
    }
  }

  /** The whole frames are the longest sequence of frames that fits, and `Cut` bytes are left over. */
  function Cut(ms: seq<Bytes>, n: nat): nat
    requires Fits(ms)
  {
    if ms == [] || n < |Frame(ms[0])| then n else Cut(ms[1..], n - |Frame(ms[0])|)
  }

  lemma {:induction false} CompleteExact(ms: seq<Bytes>, n: nat)
    requires Fits(ms)
    ensures var k := Complete(ms, n);
      && k <= |ms| && |Frames(ms[..k])| + Cut(ms, n) == n
      && (k < |ms| ==> Cut(ms, n) < |Frame(ms[k])|)
    decreases |ms|
  {
    if ms != [] && n >= |Frame(ms[0])| {
      var k := Complete(ms[1..], n - |Frame(ms[0])|);
      CompleteExact(ms[1..], n - |Frame(ms[0])|);
      assert ms[..k + 1][1..] == ms[1..][..k];
    }
  }

  /** A stream of frames that is cut anywhere yields exactly the messages whose frames are whole, in
      order, and then an end-of-file error.  It is a clean end where a cut leaves nothing of the next
      frame, and also where it leaves nothing but its length. */
  lemma {:induction false} CutStream(ms: seq<Bytes>, s: Bytes)
    requires Fits(ms) && s <= Frames(ms)
    ensures Complete(ms, |s|) <= |ms|
    ensures ReadAll(s).0 == ms[..Complete(ms, |s|)]
    ensures ReadAll(s).1 == (if Cut(ms, |s|) == 0 || Cut(ms, |s|) == 4 then EOF else UnexpectedEOF) && ReadAll(s).2 == []
    ensures s == Frames(ms) ==> ReadAll(s).1 == EOF
    decreases |ms|
  {
    CompleteBound(ms, |s|);
    if ms != [] {
      if |s| < |Frame(ms[0])| {
        PartialFrame(ms[0], s, Frames(ms[1..]));
      } else {
        var rest := s[|Frame(ms[0])|..];
        assert s == Frame(ms[0]) + rest && rest <= Frames(ms[1..]);
        ReadOne(ms[0], rest);
        CutStream(ms[1..], rest);
        HeadAndRest(ms, Complete(ms[1..], |rest|));
        assert s == Frames(ms) ==> rest == Frames(ms[1..]);
      }
    }
  }

  lemma HeadAndRest(ms: seq<Bytes>, n: nat)
    requires ms != [] && n < |ms|
    ensures [ms[0]] + ms[1..][..n] == ms[..n + 1]
  {}

  lemma FramingRoundTrip(ms: seq<Bytes>)
    requires Fits(ms)
    ensures ReadAll(Frames(ms)) == (ms, EOF, [])
  {
    CompleteBound(ms, |Frames(ms)|);
    CutStream(ms, Frames(ms));
    assert ms[..|ms|] == ms;
  }

  lemma {:induction false} FramesAppend(ms: seq<Bytes>, m: Bytes)
    requires Fits(ms) && |m| <= MAX_MESSAGE_LEN
    ensures Fits(ms + [m]) && Frames(ms + [m]) == Frames(ms) + Frame(m)
  {
    var all := ms + [m];
    if ms == [] {
      assert all == [m] && all[1..] == [];
    } else {
      FramesAppend(ms[1..], m);
      assert all[0] == ms[0] && all[1..] == ms[1..] + [m];
      assert Frames(all) == Frame(ms[0]) + (Frames(ms[1..]) + Frame(m));
    }
  }

  /** The two ends of a stream.  A Send holds the write lock from its length to its last byte, so
      the order of concurrent Sends is the order in which they get the lock. */
  class StreamFramer {
    var written: Bytes
    var unread: Bytes
    ghost var sent: seq<Bytes>

    ghost predicate Valid()
      reads this
    {
      Fits(sent) && written == Frames(sent)
    }

    constructor (input: Bytes)
      ensures Valid() && sent == [] && unread == input
    {
      written, unread, sent := [], input, [];
    }

    method Send(data: Bytes) returns (ok: bool)
      requires Valid()
      modifies this
      ensures Valid() && unread == old(unread)
      ensures ok <==> |data| <= MAX_MESSAGE_LEN
      ensures sent == if ok then old(sent) + [data] else old(sent)
    {
      if |data| > MAX_MESSAGE_LEN {
        return false;
      }
      var lenBuf := BE32(|data|);
      FramesAppend(sent, data);
      written := written + lenBuf;
      written := written + data;
      sent := sent + [data];
      ok := true;
    }

    /** What other side wrote is in `unread`; the frame is taken off it. */
    method Receive() returns (r: Received)
      modifies this`unread
      ensures (r, unread) == ReadFrame(old(unread))
      ensures r.Message? ==> |r.data| <= MAX_MESSAGE_LEN && old(unread) == BE32(|r.data|) + r.data + unread
      ensures r == TooLong <==> |old(unread)| >= 4 && FromBE32(old(unread)[..4]) > MAX_MESSAGE_LEN
      ensures r == EOF <==> old(unread) == [] || (|old(unread)| == 4 && 0 < FromBE32(old(unread)) <= MAX_MESSAGE_LEN)
      ensures r == UnexpectedEOF <==>
        || 0 < |old(unread)| < 4
        || (|old(unread)| > 4 && |old(unread)| - 4 < FromBE32(old(unread)[..4]) <= MAX_MESSAGE_LEN)
      ensures !r.Message? && r != TooLong ==> unread == []
      ensures r == TooLong ==> unread == old(unread)[4..]
    {
      ReadExact(unread);
      if |unread| < 4 {
        r := ShortRead(|unread|);
        unread := [];
        return;
      }
      ghost var before := unread;
      var l := FromBE32(unread[..4]);
      unread := unread[4..];
      if l > MAX_MESSAGE_LEN {
        return TooLong;
      }
      if |unread| < l {
        r := ShortRead(|unread|);
        unread := [];
        return;
      }
      r := Message(unread[..l]);
      unread := unread[l..];
      assert before[4..][..l] == before[4..4 + l] && before[4..][l..] == before[4 + l..];
    }
  }

  // ----- Messages

  const MT_DATA: nat := 0x44415441
  const MT_PUBLIC_KEY: nat := 0x5055424B
  const MT_FIND_ADDR: nat := 0x46494E44
  const MT_KEEP_ALIVE: nat := 0x4B454550

  function GetType(m: Bytes): nat
    requires |m| >= 4
  {
    FromBE32(m[..4])
  }

  predicate IsAskType(t: nat) {
    t == MT_FIND_ADDR || t == MT_PUBLIC_KEY
  }

  /** AsMessage accepts x. */
  predicate IsMessage(x: Bytes) {
    |x| >= 4 &&
    var t := GetType(x);
    if t == MT_DATA then |x| >= 36
    else if IsAskType(t) then |x| >= 20
    else t == MT_KEEP_ALIVE
  }

  function DataAddr(m: Bytes): Bytes
    requires |m| >= 36
  {
    m[4..36]
  }

  function DataPayload(m: Bytes): Bytes
    requires |m| >= 36
  {
    m[36..]
  }

  function RequestID(m: Bytes): Bytes
    requires |m| >= 20
  {
    m[4..20]
  }

  function AskBody(m: Bytes): Bytes
    requires |m| >= 20
  {
    m[20..]
  }

  /** Writes a data message at the start of dst and returns its length; the rest of dst stays. */
  method WriteDataMessage(dst: array<uint8>, addr: Bytes, data: Bytes) returns (l: nat)
    requires |addr| == 32 && 36 + |data| <= dst.Length
    modifies dst
    ensures l == 36 + |data|
    ensures dst[..] == BE32(MT_DATA) + addr + data + old(dst[l..])
  {
    l := 4 + 32 + |data|;
    CopyInto(dst, 0, BE32(MT_DATA));
    assert dst[..] == BE32(MT_DATA) + old(dst[4..]);
    CopyInto(dst, 4, addr);
    assert dst[..] == BE32(MT_DATA) + addr + old(dst[36..]);
    CopyInto(dst, 36, data);
    assert dst[..36] == BE32(MT_DATA) + addr;
  }

  method WriteKeepAlive(dst: array<uint8>) returns (l: nat)
    requires 4 <= dst.Length
    modifies dst
    ensures l == 4 && dst[..] == BE32(MT_KEEP_ALIVE) + old(dst[4..])
  {
    l := 4;
    CopyInto(dst, 0, BE32(MT_KEEP_ALIVE));
  }

  /** `body` is the JSON text of the request or response. */
  method WriteAskMessage(dst: array<uint8>, reqID: Bytes, mtype: nat, body: Bytes) returns (l: nat)
    requires |reqID| == 16 && mtype < 0x1_0000_0000 && 20 + |body| <= dst.Length
    modifies dst
    ensures l == 20 + |body|
    ensures dst[..] == BE32(mtype) + reqID + body + old(dst[l..])
  {
    l := 4 + 16 + |body|;
    CopyInto(dst, 0, BE32(mtype));
    assert dst[..] == BE32(mtype) + old(dst[4..]);
    CopyInto(dst, 4, reqID);
    assert dst[..] == BE32(mtype) + reqID + old(dst[20..]);
    CopyInto(dst, 20, body);
    assert dst[..20] == BE32(mtype) + reqID;
  }

  /** Data messages and pairs of an address and a payload correspond one to one. */
  lemma DataRoundTrip(m: Bytes, addr: Bytes, data: Bytes)
    requires |addr| == 32
    ensures m == BE32(MT_DATA) + addr + data <==>
      IsMessage(m) && GetType(m) == MT_DATA && DataAddr(m) == addr && DataPayload(m) == data
  {
    BE32RoundTrip(MT_DATA);
    if m == BE32(MT_DATA) + addr + data {
      assert m[..4] == BE32(MT_DATA) && m[4..36] == addr && m[36..] == data;
    } else if IsMessage(m) && GetType(m) == MT_DATA {
      FromBE32RoundTrip(m[..4]);
      assert m == m[..4] + m[4..36] + m[36..];
    }
  }

  /** So do messages that ask or answer, and triples of a type, a request ID and a body. */
  lemma AskRoundTrip(m: Bytes, reqID: Bytes, mtype: nat, body: Bytes)
    requires |reqID| == 16 && IsAskType(mtype)
    ensures m == BE32(mtype) + reqID + body <==>
      IsMessage(m) && GetType(m) == mtype && RequestID(m) == reqID && AskBody(m) == body
  {
    BE32RoundTrip(mtype);
    if m == BE32(mtype) + reqID + body {
      assert m[..4] == BE32(mtype) && m[4..20] == reqID && m[20..] == body;
    } else if IsMessage(m) && GetType(m) == mtype {
      FromBE32RoundTrip(m[..4]);
      assert m == m[..4] + m[4..20] + m[20..];
    }
  }

  /** What AsMessage accepts: a data message, one that asks or answers, or anything that starts with
      the type of a keep-alive. */
  lemma MessageExact(m: Bytes)
    ensures IsMessage(m) <==>
      || (exists addr: Bytes, data: Bytes :: |addr| == 32 && m == BE32(MT_DATA) + addr + data)
      || (exists mtype, id: Bytes, body: Bytes :: (mtype == MT_FIND_ADDR || mtype == MT_PUBLIC_KEY) && |id| == 16 && m == BE32(mtype) + id + body)
      || BE32(MT_KEEP_ALIVE) <= m
  {
    if |m| >= 4 {
      FromBE32RoundTrip(m[..4]);
      KeepAliveExact(m);
      if IsMessage(m) && GetType(m) == MT_DATA {
        DataRoundTrip(m, DataAddr(m), DataPayload(m));
      } else if IsMessage(m) && IsAskType(GetType(m)) {
        AskRoundTrip(m, RequestID(m), GetType(m), AskBody(m));
      }
    }
    if addr: Bytes, data: Bytes :| |addr| == 32 && m == BE32(MT_DATA) + addr + data {
      DataRoundTrip(m, addr, data);
    }
    if mtype, id: Bytes, body: Bytes :| (mtype == MT_FIND_ADDR || mtype == MT_PUBLIC_KEY) && |id| == 16 && m == BE32(mtype) + id + body {
      AskRoundTrip(m, id, mtype, body);
    }
  }

  lemma KeepAliveExact(m: Bytes)
    requires |m| >= 4
    ensures BE32(MT_KEEP_ALIVE) <= m <==> IsMessage(m) && GetType(m) == MT_KEEP_ALIVE
  {
    BE32RoundTrip(MT_KEEP_ALIVE);
    FromBE32RoundTrip(m[..4]);
    assert BE32(MT_KEEP_ALIVE) <= m ==> m[..4] == BE32(MT_KEEP_ALIVE);
  }

  /** A data message with a payload of up to the MTU goes through the framer as the only message. */
  lemma DataFitsFrame(addr: Bytes, data: Bytes)
    requires |addr| == 32 && |data| <= MTU
    ensures var m := BE32(MT_DATA) + addr + data;
      |m| <= MAX_MESSAGE_LEN && ReadAll(Frame(m)) == ([m], EOF, [])
  {
    var m := BE32(MT_DATA) + addr + data;
    FramingRoundTrip([m]);
    assert Frames([m]) == Frame(m) + Frames([]) == Frame(m);
  }
}
