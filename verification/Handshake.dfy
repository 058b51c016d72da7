/**
 Reading the handshake response up to its marker. The size limit is tested after each read of at most
 4096 bytes; the question is for which byte streams the outcome depends on how they were cut up.
 */
module Handshake {
  import opened Wrappers
  import opened Sequences
  import opened WireBytes
  import opened Deliveries

  const MAX_HANDSHAKE_BYTES: nat := 0x1_0000
  const HANDSHAKE_CHUNK_BYTES: nat := 4096

  /** The last place where a marker may end to be safe from every delivery. */
  const SAFE_BYTES: nat := MAX_HANDSHAKE_BYTES - HANDSHAKE_CHUNK_BYTES + 1

  /** What a call returns or raises, what it leaves buffered and what it leaves unread. */
  datatype Read =
    | Found(head: seq<byte>, buffer: seq<byte>, chunks: seq<seq<byte>>)
    | Ended(buffer: seq<byte>)
    | Overflown(buffer: seq<byte>, chunks: seq<seq<byte>>)

  /** Where the first `marker` ends. */
  function EndOf(s: seq<byte>, marker: seq<byte>): (end: Option<nat>)
    ensures end.Some? ==> |marker| <= end.value <= |s|
  {
    var at := Find(s, marker);
    if at.Some? then Some(at.value + |marker|) else None
  }

  function ReadMarker(buffer: seq<byte>, chunks: seq<seq<byte>>, marker: seq<byte>): Read
    decreases |chunks|
  {
    var end := EndOf(buffer, marker);
    if end.Some? then Found(buffer[..end.value], buffer[end.value..], chunks)
    else if chunks == [] then Ended(buffer)
    else
      var more := buffer + chunks[0];
      if |more| > MAX_HANDSHAKE_BYTES then Overflown(more, chunks[1..]) else ReadMarker(more, chunks[1..], marker)
  }

  /** More bytes behind do not move a marker; a marker they complete ends among them. */
  lemma {:induction false} EndOfLonger(s: seq<byte>, t: seq<byte>, marker: seq<byte>)
    ensures EndOf(s, marker).Some? ==> EndOf(s + t, marker) == EndOf(s, marker)
    ensures EndOf(s, marker).None? && EndOf(s + t, marker).Some? ==> EndOf(s + t, marker).value > |s|
  {
    forall i: nat | i + |marker| <= |s| ensures OccursAt(s, marker, i) <==> OccursAt(s + t, marker, i) {
      OccursInPrefix(s, t, marker, i);
    }
  }

  /** One read: the stream stays the same, and the loop goes on or overflows. */
  lemma {:induction false} ReadOn(buffer: seq<byte>, chunk: seq<byte>, later: seq<seq<byte>>, marker: seq<byte>)
    requires EndOf(buffer, marker).None?
    ensures ReadMarker(buffer, [chunk] + later, marker)
         == if |buffer| + |chunk| > MAX_HANDSHAKE_BYTES then Overflown(buffer + chunk, later)
            else ReadMarker(buffer + chunk, later, marker)
  {
    FlatFirst(chunk, later);
  }

  /** What an outcome says of the byte stream. */
  ghost predicate Tells(r: Read, buffer: seq<byte>, stream: seq<byte>, marker: seq<byte>) {
    match r
    case Found(head, rest, later) =>
      && EndOf(stream, marker) == Some(|head|) && stream == head + (rest + Flat(later))
      && (|head| <= MAX_HANDSHAKE_BYTES || EndOf(buffer, marker).Some?)
    case Ended(rest) => EndOf(stream, marker).None? && rest == stream
    case Overflown(rest, later) =>
      && |stream| > MAX_HANDSHAKE_BYTES && stream == rest + Flat(later)
      && (EndOf(stream, marker).Some? ==> EndOf(stream, marker).value > SAFE_BYTES)
  }

  lemma {:induction false} FoundTells(buffer: seq<byte>, chunks: seq<seq<byte>>, marker: seq<byte>)
    requires EndOf(buffer, marker).Some?
    ensures Tells(ReadMarker(buffer, chunks, marker), buffer, buffer + Flat(chunks), marker)
  {
    var end := EndOf(buffer, marker).value;
    EndOfLonger(buffer, Flat(chunks), marker);
    assert buffer + Flat(chunks) == buffer[..end] + (buffer[end..] + Flat(chunks));
  }

  lemma {:induction false} OverflownTells(buffer: seq<byte>, chunk: seq<byte>, later: seq<seq<byte>>, marker: seq<byte>)
    requires EndOf(buffer, marker).None? && |chunk| <= HANDSHAKE_CHUNK_BYTES
    requires |buffer| + |chunk| > MAX_HANDSHAKE_BYTES
    ensures Tells(Overflown(buffer + chunk, later), buffer, buffer + (chunk + Flat(later)), marker)
  {
    EndOfLonger(buffer, chunk + Flat(later), marker);
    Assoc(buffer, chunk, Flat(later));
  }

  lemma {:induction false} StepTells(r: Read, buffer: seq<byte>, chunk: seq<byte>, rest: seq<byte>, marker: seq<byte>)
    requires EndOf(buffer, marker).None? && |buffer| + |chunk| <= MAX_HANDSHAKE_BYTES
    requires Tells(r, buffer + chunk, buffer + chunk + rest, marker)
    ensures Tells(r, buffer, buffer + (chunk + rest), marker)
  {
    Assoc(buffer, chunk, rest);
    EndOfLonger(buffer + chunk, rest, marker);
  }

  /** Every outcome, whatever the delivery, tells this much of the bytes. */
  lemma {:induction false} ReadTells(buffer: seq<byte>, chunks: seq<seq<byte>>, marker: seq<byte>)
    requires Readable(chunks, HANDSHAKE_CHUNK_BYTES)
    ensures Tells(ReadMarker(buffer, chunks, marker), buffer, buffer + Flat(chunks), marker)
    decreases |chunks|
  {
    if EndOf(buffer, marker).Some? {
      FoundTells(buffer, chunks, marker);
    } else if chunks == [] {
      assert buffer + Flat(chunks) == buffer;
    } else {
      var chunk, later := chunks[0], chunks[1..];
      assert chunks == [chunk] + later;
      ReadOn(buffer, chunk, later, marker);
      if |buffer| + |chunk| > MAX_HANDSHAKE_BYTES {
        OverflownTells(buffer, chunk, later, marker);
      } else {
        ReadTells(buffer + chunk, later, marker);
        StepTells(ReadMarker(buffer + chunk, later, marker), buffer, chunk, Flat(later), marker);
      }
    }
  }

  /** Chunks that bring neither marker nor overflow are only buffered. */
  lemma {:induction false} Passed(buffer: seq<byte>, first: seq<seq<byte>>, rest: seq<seq<byte>>, marker: seq<byte>)
    requires EndOf(buffer + Flat(first), marker).None?
    requires first == [] || |buffer + Flat(first)| <= MAX_HANDSHAKE_BYTES
    ensures ReadMarker(buffer, first + rest, marker) == ReadMarker(buffer + Flat(first), rest, marker)
    decreases |first|
  {
    if first == [] {
      assert first + rest == rest && buffer + Flat(first) == buffer;
    } else {
      var chunk, later := first[0], first[1..];
      HeadTail(first, rest);
      FlatFirst(chunk, later);
      Split(first, 1);
      Assoc(buffer, chunk, Flat(later));
      EndOfLonger(buffer, chunk + Flat(later), marker);
      ReadOn(buffer, chunk, later + rest, marker);
      Passed(buffer + chunk, later, rest, marker);
    }
  }

  /** The chunks read so far, the last of which may have brought the marker. */
  ghost predicate Taken(buffer: seq<byte>, taken: seq<seq<byte>>, marker: seq<byte>) {
    taken == [] || (&& EndOf(buffer + Flat(taken[..|taken| - 1]), marker).None?
                    && |buffer + Flat(taken)| <= MAX_HANDSHAKE_BYTES)
  }

  lemma {:induction false} TakenRead(buffer: seq<byte>, taken: seq<seq<byte>>, rest: seq<seq<byte>>, marker: seq<byte>)
    requires Taken(buffer, taken, marker)
    ensures ReadMarker(buffer, taken + rest, marker) == ReadMarker(buffer + Flat(taken), rest, marker)
  {
    if taken == [] {
      Whole(rest);
      Whole(buffer);
    } else {
      var front, last := taken[..|taken| - 1], taken[|taken| - 1];
      Unsnoc(taken);
      Assoc(front, [last], rest);
      FlatSnoc(front, last);
      Assoc(buffer, Flat(front), last);
      Passed(buffer, front, [last] + rest, marker);
      ReadOn(buffer + Flat(front), last, rest, marker);
    }
  }

  // ---------- all deliveries of one stream ----------

  ghost predicate Delivers(chunks: seq<seq<byte>>, stream: seq<byte>) {
    Readable(chunks, HANDSHAKE_CHUNK_BYTES) && Flat(chunks) == stream
  }

  ghost predicate AllAccept(stream: seq<byte>, marker: seq<byte>) {
    forall chunks | Delivers(chunks, stream) :: ReadMarker([], chunks, marker).Found?
  }

  ghost predicate AllRefuse(stream: seq<byte>, marker: seq<byte>) {
    forall chunks | Delivers(chunks, stream) :: !ReadMarker([], chunks, marker).Found?
  }

  lemma {:induction false} DeliveryTells(chunks: seq<seq<byte>>, stream: seq<byte>, marker: seq<byte>)
    requires Delivers(chunks, stream) && marker != []
    ensures Tells(ReadMarker([], chunks, marker), [], stream, marker)
    ensures EndOf([], marker).None?
  {
    ReadTells([], chunks, marker);
    assert [] + Flat(chunks) == stream;
  }

  lemma {:induction false} DripSplit(s: seq<byte>, t: seq<byte>)
    ensures Drip(s + t) == Drip(s) + Drip(t)
  {
    if s == [] {
      assert s + t == t;
    } else {
      assert (s + t)[0] == s[0] && (s + t)[1..] == s[1..] + t;
      DripSplit(s[1..], t);
    }
  }

  lemma {:induction false} EndOfPart(stream: seq<byte>, marker: seq<byte>, n: nat)
    requires n <= |stream| && EndOf(stream, marker).Some?
    ensures EndOf(stream[..n], marker) == if EndOf(stream, marker).value <= n then EndOf(stream, marker) else None
  {
    assert stream == stream[..n] + stream[n..];
    EndOfLonger(stream[..n], stream[n..], marker);
    var at := Find(stream, marker).value;
    if at + |marker| <= n {
      OccursInPrefix(stream[..n], stream[n..], marker, at);
    }
  }

  lemma {:induction false} DripStops(stream: seq<byte>, marker: seq<byte>, end: nat)
    requires marker != [] && EndOf(stream, marker) == Some(end) && end <= MAX_HANDSHAKE_BYTES
    ensures ReadMarker([], Drip(stream), marker).Found?
  {
    var head, tail := stream[..end - 1], stream[end - 1..];
    assert stream == head + tail && stream[..end] == head + [tail[0]];
    DripSplit(head, tail);
    EndOfPart(stream, marker, end - 1);
    EndOfPart(stream, marker, end);
    assert [] + Flat(Drip(head)) == head;
    Passed([], Drip(head), Drip(tail), marker);
    ReadOn(head, [tail[0]], Drip(tail[1..]), marker);
  }

  /** Byte by byte, a marker within the limit is found. */
  lemma {:induction false} AcceptedSlowly(stream: seq<byte>, marker: seq<byte>) returns (chunks: seq<seq<byte>>)
    requires marker != [] && EndOf(stream, marker).Some? && EndOf(stream, marker).value <= MAX_HANDSHAKE_BYTES
    ensures Delivers(chunks, stream) && ReadMarker([], chunks, marker).Found?
  {
    chunks := Drip(stream);
    DripStops(stream, marker, EndOf(stream, marker).value);
  }

  /** The delivery that is refused: up to the last safe byte, and then a full read across the limit. */
  lemma {:induction false} RefusedAcross(stream: seq<byte>, marker: seq<byte>) returns (chunks: seq<seq<byte>>)
    requires EndOf(stream, marker).Some? && EndOf(stream, marker).value > SAFE_BYTES && |stream| > MAX_HANDSHAKE_BYTES
    ensures Delivers(chunks, stream) && ReadMarker([], chunks, marker).Overflown?
  {
    var over := MAX_HANDSHAKE_BYTES + 1;
    var head, chunk, tail := stream[..SAFE_BYTES], stream[SAFE_BYTES..over], stream[over..];
    assert stream == head + (chunk + tail);
    Crossing(head, chunk, tail, HANDSHAKE_CHUNK_BYTES);
    chunks := Drip(head) + ([chunk] + Drip(tail));
    EndOfPart(stream, marker, SAFE_BYTES);
    assert [] + Flat(Drip(head)) == head;
    Passed([], Drip(head), [chunk] + Drip(tail), marker);
    ReadOn(head, chunk, Drip(tail), marker);
  }

  /**
   Main result: every delivery of a stream is accepted exactly when its marker ends by byte 61441, or the
   whole stream is within the limit; every one is refused exactly when there is no marker or it ends beyond
   the limit. In between, the chunks decide.
   */
  lemma {:induction false} AcceptanceExactly(stream: seq<byte>, marker: seq<byte>)
    requires marker != []
    ensures AllAccept(stream, marker)
       <==> EndOf(stream, marker).Some?
            && (EndOf(stream, marker).value <= SAFE_BYTES || |stream| <= MAX_HANDSHAKE_BYTES)
    ensures AllRefuse(stream, marker)
       <==> EndOf(stream, marker).None? || EndOf(stream, marker).value > MAX_HANDSHAKE_BYTES
  {
    forall chunks | Delivers(chunks, stream)
      ensures Tells(ReadMarker([], chunks, marker), [], stream, marker) && EndOf([], marker).None?
    {
      DeliveryTells(chunks, stream, marker);
    }
    assert Delivers(Drip(stream), stream);
    if EndOf(stream, marker).Some? && EndOf(stream, marker).value <= MAX_HANDSHAKE_BYTES {
      var slow := AcceptedSlowly(stream, marker);
    }
    if EndOf(stream, marker).Some? && EndOf(stream, marker).value > SAFE_BYTES && |stream| > MAX_HANDSHAKE_BYTES {
      var across := RefusedAcross(stream, marker);
    }
  }
}
