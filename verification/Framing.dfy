/** Length-prefixed framing, the same code on both sides of the socket
    (internal/ipcbus/framing.go and sdk/channel/message.go). The JSON encodings are abstract. */
module Framing {
  import opened Common

  newtype byte = x: int | 0 <= x < 256

  const MAX_MESSAGE_SIZE: nat := 16 * 1024 * 1024
  const HEADER: nat := 4

  /** One side's json.Marshal and json.Unmarshal. */
  datatype Codec = Codec(marshal: Message -> Option<seq<byte>>, unmarshal: seq<byte> -> Option<Message>)

  datatype ReadError = EOF | HeaderCut | TooLarge(length: nat) | BodyEOF | BodyCut | BadBody

  datatype Read = Got(msg: Message) | Failed(err: ReadError)

  // ---- Big-endian 32-bit lengths ----

  function PutUint32(n: nat): seq<byte>
    requires n < 0x1_0000_0000
  {
    [(n / 0x100_0000) as byte, (n / 0x1_0000 % 0x100) as byte, (n / 0x100 % 0x100) as byte, (n % 0x100) as byte]
  }

  function Uint32(h: seq<byte>): (n: nat)
    requires |h| == HEADER
    ensures n < 0x1_0000_0000
  {
    h[0] as nat * 0x100_0000 + h[1] as nat * 0x1_0000 + h[2] as nat * 0x100 + h[3] as nat
  }

  lemma Uint32RoundTrip(n: nat)
    requires n < 0x1_0000_0000
    ensures |PutUint32(n)| == HEADER && Uint32(PutUint32(n)) == n
  {
    assert n / 0x100 == n / 0x1_0000 * 0x100 + n / 0x100 % 0x100;
    assert n / 0x1_0000 == n / 0x100_0000 * 0x100 + n / 0x1_0000 % 0x100;
  }

  // ---- Writing ----

  /** A body within the size bound. */
  type Body = d: seq<byte> | |d| <= MAX_MESSAGE_SIZE

  function Frame(data: Body): seq<byte> {
    PutUint32(|data|) + data
  }

  class Writer {
    var out: seq<byte>

    method Write(p: seq<byte>)
      modifies this
      ensures out == old(out) + p
    {
      out := out + p;
    }
  }

  /** Writes one whole frame, or nothing when marshalling fails or the body is over 16 MiB. */
  method WriteMessage(w: Writer, codec: Codec, msg: Message) returns (ok: bool)
    modifies w
    ensures ok <==> codec.marshal(msg).Some? && |codec.marshal(msg).value| <= 0x100_0000
    ensures w.out == if ok then old(w.out) + Frame(codec.marshal(msg).value) else old(w.out)
  {
    var d := codec.marshal(msg);
    if d.None? || |d.value| > MAX_MESSAGE_SIZE {
      return false;
    }
    var data := d.value;
    var frame := new byte[HEADER + |data|];
    var header := PutUint32(|data|);
    frame[0], frame[1], frame[2], frame[3] := header[0], header[1], header[2], header[3];
    var i := 0;
    while i < |data|
      invariant 0 <= i <= |data| && w.out == old(w.out)
      invariant frame[..HEADER + i] == header + data[..i]
    {
      frame[HEADER + i] := data[i];
      i := i + 1;
    }
    assert frame[..] == frame[..HEADER + i] == header + data by { assert data[..i] == data; }
    assert frame[..] == Frame(data);
    w.Write(frame[..]);
    ok := true;
  }

  // ---- Reading ----

  datatype Filled = Full(data: seq<byte>) | Nothing | Partial

  /** io.ReadFull: all of it, nothing at all, or an unexpected end. */
  function Fill(bytes: seq<byte>, n: nat): Filled {
    if |bytes| >= n then Full(bytes[..n]) else if bytes == [] then Nothing else Partial
  }

  function Parse(codec: Codec, bytes: seq<byte>): (r: (Read, seq<byte>))
    ensures r.0.Got? ==> |r.1| + HEADER <= |bytes|
  {
    match Fill(bytes, HEADER)
    case Nothing => (Failed(EOF), [])
    case Partial => (Failed(HeaderCut), [])
    case Full(h) =>
      var n, rest := Uint32(h), bytes[HEADER..];
      if n > MAX_MESSAGE_SIZE then (Failed(TooLarge(n)), rest)
      else
        match Fill(rest, n)
        case Nothing => (Failed(BodyEOF), [])
        case Partial => (Failed(BodyCut), [])
        case Full(d) =>
          if codec.unmarshal(d).Some? then (Got(codec.unmarshal(d).value), rest[n..]) else (Failed(BadBody), rest[n..])
  }

  class Reader {
    var input: seq<byte>

    method ReadFull(n: nat) returns (f: Filled)
      modifies this
      ensures f == Fill(old(input), n)
      ensures input == if f.Full? then old(input)[n..] else []
    {
      f := Fill(input, n);
      input := if f.Full? then input[n..] else [];
    }
  }

  method ReadMessage(r: Reader, codec: Codec) returns (res: Read)
    modifies r
    ensures (res, r.input) == Parse(codec, old(r.input))
  {
    var h := r.ReadFull(HEADER);
    if h.Nothing? {
      return Failed(EOF);
    } else if h.Partial? {
      return Failed(HeaderCut);
    }
    var length := Uint32(h.data);
    if length > MAX_MESSAGE_SIZE {
      return Failed(TooLarge(length));
    }
    var d := r.ReadFull(length);
    if d.Nothing? {
      return Failed(BodyEOF);
    } else if d.Partial? {
      return Failed(BodyCut);
    }
    var m := codec.unmarshal(d.data);
    return if m.Some? then Got(m.value) else Failed(BadBody);
  }

  /** A read loop: messages up to the first error. */
  function DecodeAll(codec: Codec, bytes: seq<byte>): (seq<Message>, ReadError)
    decreases |bytes|
  {
    match Parse(codec, bytes)
    case (Failed(e), _) => ([], e)
    case (Got(m), rest) => var (ms, e) := DecodeAll(codec, rest); ([m] + ms, e)
  }

  // ---- Streams ----

  /** A message as some peer's codec put it on the wire. */
  datatype Sent = Sent(msg: Message, data: Body)

  /** The reader understands what the writing side produced. */
  ghost predicate Understood(reader: Codec, writers: set<Codec>, s: Sent) {
    && reader.unmarshal(s.data) == Some(s.msg)
    && exists w :: w in writers && w.marshal(s.msg) == Some(s.data)
  }

  function Stream(ss: seq<Sent>): seq<byte> {
    if ss == [] then [] else Frame(ss[0].data) + Stream(ss[1..])
  }

  function Msgs(ss: seq<Sent>): seq<Message> {
    if ss == [] then [] else [ss[0].msg] + Msgs(ss[1..])
  }

  /** How many whole frames the first `p` bytes hold. */
  function Whole(ss: seq<Sent>, p: nat): (k: nat)
    ensures k <= |ss|
  {
    if ss == [] || p < HEADER + |ss[0].data| then 0 else 1 + Whole(ss[1..], p - HEADER - |ss[0].data|)
  }

  /** How far the first `p` bytes reach into the frame after the whole ones. */
  function Into(ss: seq<Sent>, p: nat): nat {
    if ss == [] || p < HEADER + |ss[0].data| then p else Into(ss[1..], p - HEADER - |ss[0].data|)
  }

  /** The error a reader meets `q` bytes into a frame. */
  function CutError(q: nat): ReadError {
    if q == 0 then EOF else if q < HEADER then HeaderCut else if q == HEADER then BodyEOF else BodyCut
  }

  lemma ParseFrame(reader: Codec, s: Sent, rest: seq<byte>)
    requires reader.unmarshal(s.data) == Some(s.msg)
    ensures Parse(reader, Frame(s.data) + rest) == (Got(s.msg), rest)
  {
    var h := PutUint32(|s.data|);
    Uint32RoundTrip(|s.data|);
    var bytes := Frame(s.data) + rest;
    assert bytes[..HEADER] == h && bytes[HEADER..] == s.data + rest;
    assert (s.data + rest)[..|s.data|] == s.data && (s.data + rest)[|s.data|..] == rest;
  }

  /** A frame is refused for its size exactly when a whole header announces more than 16 MiB, before any of
      its body is read. */
  lemma TooLargeIff(reader: Codec, bytes: seq<byte>)
    ensures var (r, rest) := Parse(reader, bytes);
            && (r.Failed? && r.err.TooLarge? <==> |bytes| >= 4 && Uint32(bytes[..4]) > 0x100_0000)
            && (r.Failed? && r.err.TooLarge? ==> r.err.length == Uint32(bytes[..4]) && rest == bytes[4..])
  {
  }

  lemma ParseCut(reader: Codec, data: Body, q: nat)
    requires q < HEADER + |data|
    ensures Parse(reader, Frame(data)[..q]).0 == Failed(CutError(q))
  {
    var bytes := Frame(data)[..q];
    Uint32RoundTrip(|data|);
    if q >= HEADER { assert bytes[..HEADER] == PutUint32(|data|); }
  }

  lemma DecodeCut(reader: Codec, data: Body, q: nat)
    requires q < HEADER + |data|
    ensures DecodeAll(reader, Frame(data)[..q]) == ([], CutError(q))
  {
    ParseCut(reader, data, q);
  }

  lemma DecodeFrame(reader: Codec, s: Sent, rest: seq<byte>)
    requires reader.unmarshal(s.data) == Some(s.msg)
    ensures var (ms, e) := DecodeAll(reader, rest); DecodeAll(reader, Frame(s.data) + rest) == ([s.msg] + ms, e)
  {
    ParseFrame(reader, s, rest);
  }

  lemma StreamCut(ss: seq<Sent>, p: nat)
    requires ss != [] && p <= |Stream(ss)|
    ensures var f, n := Frame(ss[0].data), HEADER + |ss[0].data|;
            if p < n then Stream(ss)[..p] == f[..p]
            else p - n <= |Stream(ss[1..])| && Stream(ss)[..p] == f + Stream(ss[1..])[..p - n]
  {
  }

  lemma MsgsCons(ss: seq<Sent>, k: nat)
    requires ss != [] && k < |ss|
    ensures Msgs(ss[..1 + k]) == [ss[0].msg] + Msgs(ss[1..][..k])
  {
    assert ss[..1 + k][1..] == ss[1..][..k];
  }

  lemma {:induction false} WholeToTheEnd(ss: seq<Sent>, p: nat)
    requires p <= |Stream(ss)| && Whole(ss, p) == |ss|
    ensures Into(ss, p) == 0 && p == |Stream(ss)|
    decreases |ss|
  {
    if ss != [] { WholeToTheEnd(ss[1..], p - HEADER - |ss[0].data|); }
  }

  lemma {:induction false} CutDecodes(reader: Codec, writers: set<Codec>, ss: seq<Sent>, p: nat)
    requires forall i | 0 <= i < |ss| :: Understood(reader, writers, ss[i])
    requires p <= |Stream(ss)|
    ensures DecodeAll(reader, Stream(ss)[..p]) == (Msgs(ss[..Whole(ss, p)]), CutError(Into(ss, p)))
    decreases |ss|
  {
    if ss != [] {
      var n := HEADER + |ss[0].data|;
      StreamCut(ss, p);
      if p < n {
        DecodeCut(reader, ss[0].data, p);
      } else {
        var tail := ss[1..];
        assert Understood(reader, writers, ss[0]) && forall i | 0 <= i < |tail| :: tail[i] == ss[i + 1];
        DecodeFrame(reader, ss[0], Stream(tail)[..p - n]);
        CutDecodes(reader, writers, tail, p - n);
        MsgsCons(ss, Whole(tail, p - n));
      }
    }
  }

  /** Cut the stream anywhere: the reader delivers exactly the whole messages before the cut,
      whichever side wrote each of them, and then an error that tells a cut between frames (a
      bare EOF) from one inside a frame. */
  lemma CutAnywhere(reader: Codec, writers: set<Codec>, ss: seq<Sent>, p: nat)
    requires forall i | 0 <= i < |ss| :: Understood(reader, writers, ss[i])
    requires p <= |Stream(ss)|
    ensures DecodeAll(reader, Stream(ss)[..p]) == (Msgs(ss[..Whole(ss, p)]), CutError(Into(ss, p)))
    ensures Whole(ss, p) == |ss| ==> Into(ss, p) == 0 && p == |Stream(ss)|
  {
    CutDecodes(reader, writers, ss, p);
    if Whole(ss, p) == |ss| { WholeToTheEnd(ss, p); }
  }

  /** The uncut stream decodes to every message and a clean end. */
  lemma StreamRoundTrip(reader: Codec, writers: set<Codec>, ss: seq<Sent>)
    requires forall i | 0 <= i < |ss| :: Understood(reader, writers, ss[i])
    ensures DecodeAll(reader, Stream(ss)) == (Msgs(ss), EOF)
  {
    AllWhole(ss);
    CutAnywhere(reader, writers, ss, |Stream(ss)|);
    assert Stream(ss)[..|Stream(ss)|] == Stream(ss) && ss[..|ss|] == ss;
  }

  lemma {:induction false} AllWhole(ss: seq<Sent>)
    ensures Whole(ss, |Stream(ss)|) == |ss| && Into(ss, |Stream(ss)|) == 0
    decreases |ss|
  {
    if ss != [] { AllWhole(ss[1..]); }
  }

  /** errors.Is(err, io.EOF): the bare end, and the body read that found nothing. */
  predicate IsEOF(e: ReadError) { e == EOF || e == BodyEOF }

  /** The client's read loop takes a torn stream for a clean disconnect exactly when the cut falls
      between frames or right behind a header. */
  lemma LooksCleanIff(reader: Codec, writers: set<Codec>, ss: seq<Sent>, p: nat)
    requires forall i | 0 <= i < |ss| :: Understood(reader, writers, ss[i])
    requires p <= |Stream(ss)|
    ensures IsEOF(DecodeAll(reader, Stream(ss)[..p]).1) <==> Into(ss, p) == 0 || Into(ss, p) == HEADER
  {
    CutAnywhere(reader, writers, ss, p);
  }
}
