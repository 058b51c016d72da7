/**
 The WebSocket frame codec of the session-script SDK (sections 5.2 and 5.3 of RFC 6455) and the
 buffered socket reader beneath it.
 */
module WebSocketFrames {
  import opened Wrappers
  import opened Sequences
  import opened WireBytes
  import opened Deliveries
  import opened Handshake

  const MAX_MESSAGE_BYTES: nat := 0x10_0000
  const MAX_RECEIVED_MESSAGE_BYTES: nat := 0x800_0000

  type Opcode = x: int | 0 <= x < 16
  type Mask = m: seq<byte> | |m| == 4 witness [0, 0, 0, 0]

  datatype Frame = Frame(fin: bool, opcode: Opcode, payload: seq<byte>)

  /** A frame with the mask it is written under; servers write without one. */
  datatype Wire = Wire(frame: Frame, mask: Option<Mask>)

  datatype WireError = Closed | TooLarge

  /** What the head of a byte stream decodes to, with the bytes that follow. */
  datatype Decoded = Got(frame: Frame, rest: seq<byte>) | Oversize(rest: seq<byte>) | Short

  predicate Sendable(f: Frame) {
    |f.payload| <= MAX_RECEIVED_MESSAGE_BYTES
  }

  function Header(f: Frame, masked: bool): (h: seq<byte>)
    requires Sendable(f)
    ensures |h| >= 2
  {
    var first: byte := (if f.fin then 0x80 else 0) + f.opcode;
    var flag := if masked then 0x80 else 0;
    var n := |f.payload|;
    if n < 126 then [first, flag + n]
    else if n <= 0xFFFF then [first, flag + 126] + BigEndian(n, 2)
    else [first, flag + 127] + BigEndian(n, 8)
  }

  function Encode(w: Wire): (s: seq<byte>)
    requires Sendable(w.frame)
    ensures |s| >= 2
  {
    match w.mask
    case None => Header(w.frame, false) + w.frame.payload
    case Some(m) => Header(w.frame, true) + m + Masked(w.frame.payload, m)
  }

  function EncodeAll(ws: seq<Wire>): seq<byte>
    requires forall i | 0 <= i < |ws| :: Sendable(ws[i].frame)
  {
    if ws == [] then [] else Encode(ws[0]) + EncodeAll(ws[1..])
  }

  /**
   The header as section 5.2 of RFC 6455 lays it out: the final bit, three reserved bits of zero and the
   opcode; the mask bit and the length in the shortest of the three forms, high byte first.
   */
  lemma {:induction false} HeaderLayout(f: Frame, masked: bool)
    requires Sendable(f)
    ensures var h, n := Header(f, masked), |f.payload|;
            && h[0] / 128 == (if f.fin then 1 else 0) && h[0] / 16 % 8 == 0 && h[0] % 16 == f.opcode
            && h[1] / 128 == (if masked then 1 else 0)
            && h[1] % 128 == (if n < 126 then n else if n < 0x1_0000 then 126 else 127)
            && |h| == (if n < 126 then 2 else if n < 0x1_0000 then 4 else 10)
            && (n >= 126 ==> FromBigEndian(h[2..]) == n)
  {
    var n := |f.payload|;
    if n >= 126 {
      var width := if n <= 0xFFFF then 2 else 8;
      Pow256Values();
      BigEndianRoundTrip(n, width);
      assert Header(f, masked)[2..] == BigEndian(n, width);
    }
  }

  const HELLO: seq<byte> := [0x48, 0x65, 0x6C, 0x6C, 0x6F]
  const HELLO_MASK: seq<byte> := [0x37, 0xFA, 0x21, 0x3D]

  /** The single-frame text "Hello" of section 5.7 of RFC 6455: bare, and up to its masked payload. */
  lemma {:induction false} HelloBytes()
    ensures Encode(Wire(Frame(true, 1, HELLO), None)) == [0x81, 0x05, 0x48, 0x65, 0x6C, 0x6C, 0x6F]
    ensures Encode(Wire(Frame(true, 1, HELLO), Some(HELLO_MASK)))
         == [0x81, 0x85, 0x37, 0xFA, 0x21, 0x3D] + Masked(HELLO, HELLO_MASK)
  {
    assert [0x81, 0x85] + HELLO_MASK == [0x81, 0x85, 0x37, 0xFA, 0x21, 0x3D];
  }

  /** Bytes of extended payload length that follow the second header byte. */
  function ExtraLength(second: byte): (n: nat)
    ensures n in {0, 2, 8}
  {
    if second % 128 == 126 then 2 else if second % 128 == 127 then 8 else 0
  }

  /** The header fields, and the bytes after the length. */
  datatype Head = Head(fin: bool, opcode: Opcode, masked: bool, length: nat, body: seq<byte>)

  function ParseHead(s: seq<byte>): (h: Option<Head>)
    ensures h.Some? ==> |h.value.body| + 2 <= |s|
  {
    if |s| < 2 || |s| < 2 + ExtraLength(s[1]) then None else
    var extra := ExtraLength(s[1]);
    var length := if extra == 0 then s[1] % 128 else FromBigEndian(s[2..2 + extra]);
    Some(Head(s[0] >= 128, s[0] % 16, s[1] >= 128, length, s[2 + extra..]))
  }

  /** A payload without its mask, and what follows it. */
  datatype Body = Body(payload: seq<byte>, rest: seq<byte>)

  function TakeBody(masked: bool, length: nat, body: seq<byte>): (b: Option<Body>)
    ensures b.Some? ==> |b.value.rest| <= |body|
  {
    var skip := if masked then 4 else 0;
    if |body| < skip + length then None else
    var raw := body[skip..skip + length];
    Some(Body(if masked then Masked(raw, body[..4]) else raw, body[skip + length..]))
  }

  function DecodeBody(h: Head): (d: Decoded)
    ensures d.Got? ==> |d.rest| <= |h.body|
  {
    if h.length > MAX_RECEIVED_MESSAGE_BYTES then Oversize(h.body) else
    match TakeBody(h.masked, h.length, h.body)
    case None => Short
    case Some(b) => Got(Frame(h.fin, h.opcode, b.payload), b.rest)
  }

  function Decode(s: seq<byte>): (d: Decoded)
    ensures d.Got? ==> |d.rest| + 2 <= |s|
  {
    var h := ParseHead(s);
    if h.None? then Short else DecodeBody(h.value)
  }

  /** The frames a stream holds, in order, up to the first incomplete or oversize one. */
  function Frames(s: seq<byte>): seq<Frame>
    decreases |s|
  {
    var d := Decode(s);
    if d.Got? then [d.frame] + Frames(d.rest) else []
  }

  /** What is left of a stream after `Frames`: empty, cut short, or oversize. */
  function Ending(s: seq<byte>): Decoded
    decreases |s|
  {
    var d := Decode(s);
    if d.Got? then Ending(d.rest) else d
  }

  function Plain(ws: seq<Wire>): (fs: seq<Frame>)
    ensures |fs| == |ws|
  {
    if ws == [] then [] else [ws[0].frame] + Plain(ws[1..])
  }

  lemma {:induction false} ShortHeadParses(first: byte, second: byte, body: seq<byte>)
    requires second % 128 < 126
    ensures ParseHead([first, second] + body)
         == Some(Head(first >= 128, first % 16, second >= 128, second % 128, body))
  {
    Parts([first, second], body);
  }

  lemma {:induction false} LongHeadParses(first: byte, second: byte, length: nat, width: nat, body: seq<byte>)
    requires width == ExtraLength(second) && width > 0 && length < Pow256(width)
    ensures ParseHead([first, second] + BigEndian(length, width) + body)
         == Some(Head(first >= 128, first % 16, second >= 128, length, body))
  {
    var h := [first, second] + BigEndian(length, width);
    BigEndianRoundTrip(length, width);
    Parts(h, body);
    Parts([first, second], BigEndian(length, width));
    assert (h + body)[2..2 + width] == BigEndian(length, width);
  }

  /** The flag beside the length, or beside the code that announces a longer one. */
  lemma {:induction false} SecondByte(masked: bool, low: nat)
    requires low < 128
    ensures var second := (if masked then 0x80 else 0) + low; second % 128 == low && (second >= 128 <==> masked)
  {
  }

  lemma {:induction false} FirstByte(f: Frame)
    ensures var first := (if f.fin then 0x80 else 0) + f.opcode; first % 16 == f.opcode && (first >= 128 <==> f.fin)
  {
  }

  lemma {:induction false} ShortHeader(f: Frame, masked: bool, body: seq<byte>)
    requires |f.payload| < 126
    ensures ParseHead(Header(f, masked) + body) == Some(Head(f.fin, f.opcode, masked, |f.payload|, body))
  {
    FirstByte(f);
    SecondByte(masked, |f.payload|);
    ShortHeadParses((if f.fin then 0x80 else 0) + f.opcode, (if masked then 0x80 else 0) + |f.payload|, body);
  }

  lemma {:induction false} LongHeader(f: Frame, masked: bool, width: nat, body: seq<byte>)
    requires Sendable(f) && |f.payload| >= 126 && width == (if |f.payload| <= 0xFFFF then 2 else 8)
    ensures ParseHead(Header(f, masked) + body) == Some(Head(f.fin, f.opcode, masked, |f.payload|, body))
  {
    var code := if width == 2 then 126 else 127;
    Pow256Values();
    FirstByte(f);
    SecondByte(masked, code);
    LongHeadParses((if f.fin then 0x80 else 0) + f.opcode, (if masked then 0x80 else 0) + code,
                   |f.payload|, width, body);
  }

  lemma {:induction false} HeaderParses(f: Frame, masked: bool, body: seq<byte>)
    requires Sendable(f)
    ensures ParseHead(Header(f, masked) + body)
            == Some(Head(f.fin, f.opcode, masked, |f.payload|, body))
  {
    if |f.payload| < 126 {
      ShortHeader(f, masked, body);
    } else {
      LongHeader(f, masked, if |f.payload| <= 0xFFFF then 2 else 8, body);
    }
  }

  /** A header is incomplete exactly below the length its second byte calls for. */
  lemma {:induction false} HeadMissing(s: seq<byte>)
    ensures ParseHead(s).None?
       <==> |s| < 2 || (s[1] % 128 == 126 && |s| < 4) || (s[1] % 128 == 127 && |s| < 10)
  {
  }

  /**
   What follows any header: too long a payload is refused before any of it is there; otherwise the frame is
   complete exactly with its mask and payload, and its payload is what the mask leaves of the bytes, bit by bit.
   */
  lemma {:induction false} AnyBody(h: Head, i: nat, k: nat)
    ensures var skip, d := if h.masked then 4 else 0, DecodeBody(h);
            && (d.Oversize? <==> h.length > 134217728)
            && (d.Oversize? ==> d.rest == h.body)
            && (d.Short? <==> h.length <= 134217728 && |h.body| < skip + h.length)
            && (d.Got? ==>
                  && d.frame.fin == h.fin && d.frame.opcode == h.opcode && |d.frame.payload| == h.length
                  && d.rest == h.body[skip + h.length..]
                  && (i < h.length && k < 8 ==>
                        Bit(d.frame.payload[i], k)
                        == if h.masked && Bit(h.body[i % 4], k) == 1 then 1 - Bit(h.body[skip + i], k)
                           else Bit(h.body[skip + i], k)))
  {
    if h.masked && i < h.length <= 134217728 && 4 + h.length <= |h.body| && k < 8 {
      MaskedBits(h.body[4..4 + h.length], h.body[..4], i, k);
      BitIsOneOrZero(h.body[i % 4], k);
      BitIsOneOrZero(h.body[4 + i], k);
    }
  }

  lemma {:induction false} PlainBodyDecodes(f: Frame, tail: seq<byte>)
    requires Sendable(f)
    ensures DecodeBody(Head(f.fin, f.opcode, false, |f.payload|, f.payload + tail)) == Got(f, tail)
  {
    var body := f.payload + tail;
    assert body[0..0 + |f.payload|] == f.payload && body[|f.payload|..] == tail;
  }

  lemma {:induction false} MaskedBodyDecodes(f: Frame, m: Mask, tail: seq<byte>)
    requires Sendable(f)
    ensures DecodeBody(Head(f.fin, f.opcode, true, |f.payload|, m + Masked(f.payload, m) + tail)) == Got(f, tail)
  {
    var body := m + Masked(f.payload, m) + tail;
    assert body[..4] == m && body[4..4 + |f.payload|] == Masked(f.payload, m) && body[4 + |f.payload|..] == tail;
    MaskedInvolutive(f.payload, m);
  }

  /** One frame survives the wire, and decoding stops exactly at its last byte. */
  lemma {:induction false} DecodeEncode(w: Wire, tail: seq<byte>)
    requires Sendable(w.frame)
    ensures Decode(Encode(w) + tail) == Got(w.frame, tail)
  {
    var f := w.frame;
    match w.mask {
      case None =>
        assert Encode(w) + tail == Header(f, false) + (f.payload + tail);
        HeaderParses(f, false, f.payload + tail);
        PlainBodyDecodes(f, tail);
      case Some(m) =>
        var body := m + Masked(f.payload, m) + tail;
        assert Encode(w) + tail == Header(f, true) + body;
        HeaderParses(f, true, body);
        MaskedBodyDecodes(f, m, tail);
    }
  }

  lemma {:induction false} FramesStep(s: seq<byte>, frame: Frame, rest: seq<byte>)
    requires Decode(s) == Got(frame, rest)
    ensures Frames(s) == [frame] + Frames(rest) && Ending(s) == Ending(rest)
  {
  }

  lemma {:induction false} EncodedHeadFirst(ws: seq<Wire>, tail: seq<byte>)
    requires ws != [] && forall i | 0 <= i < |ws| :: Sendable(ws[i].frame)
    ensures var s, rest := EncodeAll(ws) + tail, EncodeAll(ws[1..]) + tail;
            Frames(s) == [ws[0].frame] + Frames(rest) && Ending(s) == Ending(rest)
  {
    var rest := EncodeAll(ws[1..]) + tail;
    assert EncodeAll(ws) + tail == Encode(ws[0]) + rest;
    DecodeEncode(ws[0], rest);
    FramesStep(EncodeAll(ws) + tail, ws[0].frame, rest);
  }

  /** A whole sequence of frames survives the wire, whatever bytes follow it. */
  lemma {:induction false} FramesOfEncoded(ws: seq<Wire>, tail: seq<byte>)
    requires forall i | 0 <= i < |ws| :: Sendable(ws[i].frame)
    ensures Frames(EncodeAll(ws) + tail) == Plain(ws) + Frames(tail)
    ensures Ending(EncodeAll(ws) + tail) == Ending(tail)
  {
    if ws == [] {
      assert EncodeAll(ws) + tail == tail;
    } else {
      FramesOfEncoded(ws[1..], tail);
      EncodedHeadFirst(ws, tail);
      assert Plain(ws) + Frames(tail) == [ws[0].frame] + (Plain(ws[1..]) + Frames(tail));
    }
  }

  lemma {:induction false} EncodeAllAppend(ws: seq<Wire>, w: Wire)
    requires Sendable(w.frame) && forall i | 0 <= i < |ws| :: Sendable(ws[i].frame)
    ensures EncodeAll(ws + [w]) == EncodeAll(ws) + Encode(w)
  {
    if ws == [] {
      assert ws + [w] == [w];
      assert EncodeAll([w]) == Encode(w) + EncodeAll([]);
    } else {
      EncodeAllAppend(ws[1..], w);
      assert (ws + [w])[1..] == ws[1..] + [w] && (ws + [w])[0] == ws[0];
      assert EncodeAll(ws + [w]) == Encode(ws[0]) + (EncodeAll(ws[1..]) + Encode(w));
    }
  }

  /** A call that ended as the reader on values does. */
  ghost predicate Outcome(read: Read, r: Result<seq<byte>, WireError>, buffer: seq<byte>, incoming: seq<byte>) {
    match read
    case Found(head, rest, later) => r == Ok(head) && buffer == rest && incoming == Flat(later)
    case Ended(rest) => r == Err(Closed) && buffer == rest && incoming == []
    case Overflown(rest, later) => r == Err(TooLarge) && buffer == rest && incoming == Flat(later)
  }

  /** What the outcome says of the bytes: the first marker, or none, or too many without it. */
  ghost predicate Settled(r: Result<seq<byte>, WireError>, start: seq<byte>, stream: seq<byte>, after: seq<byte>,
                          marker: seq<byte>)
  {
    match r
    case Ok(head) =>
      && head + after == stream && |marker| <= |head|
      && IsFirst(stream, marker, |head| - |marker|)
      && (|head| <= MAX_HANDSHAKE_BYTES || Contains(start, marker))
    case Err(Closed) => !Contains(stream, marker)
    case Err(TooLarge) =>
      && |stream| > MAX_HANDSHAKE_BYTES
      && forall i: nat | OccursAt(stream, marker, i) :: i + |marker| > SAFE_BYTES
  }

  lemma {:induction false} OutcomeSettled(start: seq<byte>, stream: seq<byte>, chunks: seq<seq<byte>>, marker: seq<byte>,
                                          r: Result<seq<byte>, WireError>, buffer: seq<byte>, incoming: seq<byte>)
    requires Delivers(chunks, stream) && Outcome(ReadMarker(start, chunks, marker), r, buffer, incoming)
    ensures Settled(r, start, start + stream, buffer + incoming, marker)
  {
    ReadTells(start, chunks, marker);
    var read := ReadMarker(start, chunks, marker);
    if read.Found? {
      assert start + stream == read.head + (buffer + incoming);
    }
  }

  /** A call on `start` and `stream` may end with `r`, having been delivered `chunks`. */
  ghost predicate Ends(start: seq<byte>, stream: seq<byte>, chunks: seq<seq<byte>>, marker: seq<byte>,
                       r: Result<seq<byte>, WireError>, buffer: seq<byte>, incoming: seq<byte>)
  {
    && Delivers(chunks, stream)
    && Outcome(ReadMarker(start, chunks, marker), r, buffer, incoming)
    && Settled(r, start, start + stream, buffer + incoming, marker)
  }

  /** The chunks read so far of `stream`, and the rest. */
  ghost predicate Reading(start: seq<byte>, stream: seq<byte>, taken: seq<seq<byte>>, marker: seq<byte>,
                          buffer: seq<byte>, incoming: seq<byte>)
  {
    && buffer == start + Flat(taken) && Flat(taken) + incoming == stream
    && Readable(taken, HANDSHAKE_CHUNK_BYTES) && Taken(start, taken, marker)
  }

  lemma {:induction false} ReadingBegins(start: seq<byte>, stream: seq<byte>, marker: seq<byte>)
    ensures Reading(start, stream, [], marker, start, stream)
  {
    Whole(start);
    Whole(stream);
  }

  lemma {:induction false} Exhausted(start: seq<byte>, stream: seq<byte>, taken: seq<seq<byte>>, marker: seq<byte>,
                                     buffer: seq<byte>)
    requires Reading(start, stream, taken, marker, buffer, []) && EndOf(buffer, marker).None?
    ensures Ends(start, stream, taken, marker, Err(Closed), buffer, [])
  {
    TakenRead(start, taken, [], marker);
    assert taken + [] == taken && Flat(taken) == stream;
    OutcomeSettled(start, stream, taken, marker, Err(Closed), buffer, []);
  }

  lemma {:induction false} Completed(start: seq<byte>, stream: seq<byte>, taken: seq<seq<byte>>, marker: seq<byte>,
                                     buffer: seq<byte>, incoming: seq<byte>)
    requires Reading(start, stream, taken, marker, buffer, incoming) && EndOf(buffer, marker).Some?
    ensures var end := EndOf(buffer, marker).value;
            Ends(start, stream, taken + Drip(incoming), marker, Ok(buffer[..end]), buffer[end..], incoming)
  {
    var end := EndOf(buffer, marker).value;
    TakenRead(start, taken, Drip(incoming), marker);
    FlatAppend(taken, Drip(incoming));
    OutcomeSettled(start, stream, taken + Drip(incoming), marker, Ok(buffer[..end]), buffer[end..], incoming);
  }

  lemma {:induction false} Overflows(start: seq<byte>, stream: seq<byte>, taken: seq<seq<byte>>, marker: seq<byte>,
                                     buffer: seq<byte>, chunk: seq<byte>, rest: seq<byte>)
    requires Reading(start, stream, taken, marker, buffer, chunk + rest) && EndOf(buffer, marker).None?
    requires 0 < |chunk| <= HANDSHAKE_CHUNK_BYTES && |buffer + chunk| > MAX_HANDSHAKE_BYTES
    ensures Ends(start, stream, taken + ([chunk] + Drip(rest)), marker, Err(TooLarge), buffer + chunk, rest)
  {
    var all := taken + ([chunk] + Drip(rest));
    FlatAppend(taken, [chunk] + Drip(rest));
    FlatFirst(chunk, Drip(rest));
    TakenRead(start, taken, [chunk] + Drip(rest), marker);
    ReadOn(buffer, chunk, Drip(rest), marker);
    OutcomeSettled(start, stream, all, marker, Err(TooLarge), buffer + chunk, rest);
  }

  lemma {:induction false} ReadsOn(start: seq<byte>, stream: seq<byte>, taken: seq<seq<byte>>, marker: seq<byte>,
                                   buffer: seq<byte>, chunk: seq<byte>, rest: seq<byte>)
    requires Reading(start, stream, taken, marker, buffer, chunk + rest) && EndOf(buffer, marker).None?
    requires 0 < |chunk| <= HANDSHAKE_CHUNK_BYTES && |buffer + chunk| <= MAX_HANDSHAKE_BYTES
    ensures Reading(start, stream, taken + [chunk], marker, buffer + chunk, rest)
  {
    FlatSnoc(taken, chunk);
    Assoc(start, Flat(taken), chunk);
    Assoc(Flat(taken), chunk, rest);
    Snoc(taken, chunk);
  }

  /** The transport: a receive buffer over a socket, and what was written to the peer. */
  class WebSocketTransport {
    var buffer: seq<byte>
    var incoming: seq<byte>   // what the peer will deliver before it closes
    var outgoing: seq<byte>
    ghost var sent: seq<Wire>

    ghost function Stream(): seq<byte>
      reads this
    {
      buffer + incoming
    }

    ghost predicate Valid()
      reads this
    {
      && (forall i | 0 <= i < |sent| :: Sendable(sent[i].frame))
      && outgoing == EncodeAll(sent)
    }

    constructor (incoming: seq<byte>)
      ensures Valid() && Stream() == incoming && buffer == [] && sent == []
    {
      this.incoming := incoming;
      buffer, outgoing, sent := [], [], [];
    }

    /** `recv`: any non-empty prefix of what is to come, up to `limit`; empty only at the end. */
    method Recv(limit: nat) returns (chunk: seq<byte>)
      requires limit > 0
      modifies `incoming
      ensures chunk + incoming == old(incoming)
      ensures |chunk| <= limit && (chunk == [] <==> old(incoming) == [])
    {
      if incoming == [] {
        chunk := [];
      } else {
        var n :| 1 <= n <= limit && n <= |incoming|;
        chunk, incoming := incoming[..n], incoming[n..];
      }
    }

    method ReadExact(size: nat) returns (r: Result<seq<byte>, WireError>)
      modifies `buffer, `incoming
      ensures |old(Stream())| >= size ==>
                r == Ok(old(Stream())[..size]) && Stream() == old(Stream())[size..]
      ensures |old(Stream())| < size ==> r == Err(Closed) && Stream() == []
    {
      ghost var stream := Stream();
      if |buffer| >= size {
        r := Ok(buffer[..size]);
        buffer := buffer[size..];
        assert stream[..size] == r.value;
        return;
      }
      var data := buffer;
      buffer := [];
      while |data| < size
        invariant buffer == [] && data + incoming == stream && |data| <= size
      {
        var want := size - |data|;
        var chunk := Recv(if want < 0x1_0000 then want else 0x1_0000);
        if chunk == [] {
          return Err(Closed);
        }
        data := data + chunk;
      }
      assert stream[..size] == data && stream[size..] == incoming;
      r := Ok(data);
    }

    /**
     Read up to and including the first `marker`, keeping the surplus in the buffer. The outcome is that of
     the reader on values for the chunks that `recv` happened to return.
     */
    method ReadUntil(marker: seq<byte>) returns (r: Result<seq<byte>, WireError>, ghost chunks: seq<seq<byte>>)
      requires marker != []
      modifies `buffer, `incoming
      ensures Delivers(chunks, old(incoming))
      ensures Outcome(ReadMarker(old(buffer), chunks, marker), r, buffer, incoming)
      ensures Settled(r, old(buffer), old(Stream()), Stream(), marker)
    {
      ghost var start, stream, taken := buffer, incoming, [];
      ReadingBegins(start, stream, marker);
      while EndOf(buffer, marker).None?
        invariant Reading(start, stream, taken, marker, buffer, incoming)
        decreases |incoming|
      {
        var chunk := Recv(HANDSHAKE_CHUNK_BYTES);
        if chunk == [] {
          Exhausted(start, stream, taken, marker, buffer);
          return Err(Closed), taken;
        }
        if |buffer + chunk| > MAX_HANDSHAKE_BYTES {
          Overflows(start, stream, taken, marker, buffer, chunk, incoming);
          buffer := buffer + chunk;
          return Err(TooLarge), taken + ([chunk] + Drip(incoming));
        }
        ReadsOn(start, stream, taken, marker, buffer, chunk, incoming);
        buffer, taken := buffer + chunk, taken + [chunk];
      }
      Completed(start, stream, taken, marker, buffer, incoming);
      var end := EndOf(buffer, marker).value;
      r, chunks := Ok(buffer[..end]), taken + Drip(incoming);
      buffer := buffer[end..];
    }

    /** The two fixed header bytes and the extended length, if any. */
    method ReceiveHead() returns (first: byte, second: byte, length: nat, complete: bool)
      modifies `buffer, `incoming
      ensures match ParseHead(old(Stream()))
              case None => !complete && Stream() == []
              case Some(h) =>
                && complete && Stream() == h.body && length == h.length
                && h.fin == (first >= 128) && h.opcode == first % 16 && h.masked == (second >= 128)
    {
      ghost var s := Stream();
      first, second, length, complete := 0, 0, 0, false;
      var head := ReadExact(2);
      if head.Err? {
        return;
      }
      first, second := head.value[0], head.value[1];
      length := second % 128;
      if second % 128 == 126 || second % 128 == 127 {
        var wide := ReadExact(ExtraLength(second));
        if wide.Err? {
          return;
        }
        length := FromBigEndian(wide.value);
        assert wide.value == s[2..2 + ExtraLength(second)];
      }
      complete := true;
    }

    /** Mask and payload, if the stream has them. */
    method ReceiveBody(masked: bool, length: nat) returns (r: Result<seq<byte>, WireError>)
      modifies `buffer, `incoming
      ensures match TakeBody(masked, length, old(Stream()))
              case None => r == Err(Closed) && Stream() == []
              case Some(b) => r == Ok(b.payload) && Stream() == b.rest
    {
      ghost var body := Stream();
      if !masked {
        r := ReadExact(length);
        return;
      }
      var mask := ReadExact(4);
      if mask.Err? {
        return Err(Closed);
      }
      if |body| >= 4 + length {
        DropDrop(body, 4, length);
      }
      r := ReadExact(length);
      if r.Ok? {
        assert r.value == body[4..][..length] == body[4..4 + length];
        r := Ok(Masked(r.value, mask.value));
      }
    }

    /** One frame off the socket: exactly the head of the stream, however `recv` cut it up. */
    method Receive() returns (r: Result<Frame, WireError>)
      modifies `buffer, `incoming
      ensures match Decode(old(Stream()))
              case Got(frame, rest) => r == Ok(frame) && Stream() == rest
              case Oversize(rest) => r == Err(TooLarge) && Stream() == rest
              case Short => r == Err(Closed) && Stream() == []
    {
      var first, second, length, complete := ReceiveHead();
      if !complete {
        return Err(Closed);
      }
      if length > MAX_RECEIVED_MESSAGE_BYTES {
        return Err(TooLarge);
      }
      var payload := ReceiveBody(second >= 128, length);
      r := if payload.Ok? then Ok(Frame(first >= 128, first % 16, payload.value)) else Err(Closed);
    }

    /** Write one final frame under a fresh mask. */
    method Send(opcode: Opcode, payload: seq<byte>) returns (r: Result<(), WireError>)
      requires Valid()
      modifies `outgoing, `sent
      ensures Valid()
      ensures |payload| > MAX_MESSAGE_BYTES ==> r == Err(TooLarge) && sent == old(sent)
      ensures |payload| <= MAX_MESSAGE_BYTES ==>
                && r == Ok(())
                && |sent| == |old(sent)| + 1 && sent[..|old(sent)|] == old(sent)
                && sent[|old(sent)|].frame == Frame(true, opcode, payload)
                && sent[|old(sent)|].mask.Some?
    {
      if |payload| > MAX_MESSAGE_BYTES {
        return Err(TooLarge);
      }
      var m0: byte, m1: byte, m2: byte, m3: byte := *, *, *, *;
      var mask: Mask := [m0, m1, m2, m3];
      var wire := Wire(Frame(true, opcode, payload), Some(mask));
      EncodeAllAppend(sent, wire);
      outgoing := outgoing + Encode(wire);
      sent := sent + [wire];
      r := Ok(());
    }
  }
}
