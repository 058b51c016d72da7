/**
 The JSONL reader of a host-managed child. `read` returns the input in chunks of at most 8192 bytes;
 the question is which outcomes depend only on the bytes and which on how they were cut up.
 */
module JsonLines {
  import opened Sequences
  import opened WireBytes
  import opened Deliveries

  const MAX_LINE_BYTES: nat := 0x800_0000
  const CHUNK_BYTES: nat := 8192
  const NEWLINE: byte := 10

  datatype Outcome = Line(bytes: seq<byte>) | TooLong | PipeClosed

  /** What one call returns, what it leaves buffered and what it leaves unread. */
  datatype Call = Call(outcome: Outcome, input: seq<byte>, chunks: seq<seq<byte>>)

  /** Position of the first newline at or after `from`, or the length when there is none. */
  function Newline(s: seq<byte>, from: nat := 0): (i: nat)
    requires from <= |s|
    ensures from <= i <= |s| && (i < |s| ==> s[i] == NEWLINE)
    ensures forall j | from <= j < i :: s[j] != NEWLINE
    decreases |s| - from
  {
    if from == |s| || s[from] == NEWLINE then from else Newline(s, from + 1)
  }

  function Receive(input: seq<byte>, chunks: seq<seq<byte>>, limit: nat): Call
    decreases |chunks|
  {
    var i := Newline(input);
    if i < |input| then Call(if i > limit then TooLong else Line(input[..i]), input[i + 1..], chunks)
    else if chunks == [] then Call(PipeClosed, input, [])
    else
      var more := input + chunks[0];
      if Newline(more) == |more| && |more| > limit then Call(TooLong, more, chunks[1..])
      else Receive(more, chunks[1..], limit)
  }

  /** The outcome a byte stream calls for, however it is delivered. */
  function Verdict(stream: seq<byte>, limit: nat): Outcome {
    var i := Newline(stream);
    if i > limit then TooLong
    else if i < |stream| then Line(stream[..i])
    else PipeClosed
  }

  function Unread(c: Call): seq<byte> {
    c.input + Flat(c.chunks)
  }

  /** No unfinished line beyond the limit is buffered; only a size error leaves such a buffer. */
  predicate Clean(input: seq<byte>, limit: nat) {
    var i := Newline(input);
    if i < |input| then Clean(input[i + 1..], limit) else |input| <= limit
  }

  lemma {:induction false} NewlineOfPrefix(s: seq<byte>, t: seq<byte>)
    ensures Newline(s) < |s| ==> Newline(s + t) == Newline(s)
    ensures Newline(s) == |s| ==> Newline(s + t) == |s| + Newline(t)
  {
    var a, b := Newline(s), Newline(s + t);
    assert forall j | 0 <= j < |s| :: (s + t)[j] == s[j];
    if a == |s| {
      assert forall j | 0 <= j < |t| :: (s + t)[|s| + j] == t[j];
    }
  }

  lemma {:induction false} CleanOfShort(input: seq<byte>, limit: nat)
    requires |input| <= limit
    ensures Clean(input, limit)
    decreases |input|
  {
    if Newline(input) < |input| {
      CleanOfShort(input[Newline(input) + 1..], limit);
    }
  }

  /** A turn of the loop that has to read: the stream is unchanged, and where its newline is. */
  lemma {:induction false} ReadStep(input: seq<byte>, chunks: seq<seq<byte>>, limit: nat)
    requires Newline(input) == |input| && chunks != []
    ensures var more, later := input + chunks[0], chunks[1..];
            var stream := input + Flat(chunks);
            && stream == more + Flat(later)
            && Receive(input, chunks, limit)
               == (if Newline(more) == |more| && |more| > limit then Call(TooLong, more, later)
                   else Receive(more, later, limit))
            && |input| <= Newline(more)
            && (Newline(more) < |more| ==> Newline(stream) == Newline(more))
            && (Newline(more) == |more| ==> Newline(stream) >= |more|)
  {
    var more := input + chunks[0];
    NewlineOfPrefix(input, chunks[0]);
    NewlineOfPrefix(more, Flat(chunks[1..]));
    Assoc(input, chunks[0], Flat(chunks[1..]));
  }

  /** Splitting a prefix of a concatenation. */
  lemma {:induction false} SplitConcat(a: seq<byte>, b: seq<byte>, n: nat)
    requires n < |a|
    ensures (a + b)[..n] == a[..n] && (a + b)[n + 1..] == a[n + 1..] + b
  {
  }

  /** A turn of the loop that finds a newline in the buffer. */
  lemma {:induction false} SplitStep(input: seq<byte>, chunks: seq<seq<byte>>, limit: nat)
    requires Newline(input) < |input|
    ensures var i, stream := Newline(input), input + Flat(chunks);
            && i == Newline(stream) && stream[..i] == input[..i]
            && stream[i + 1..] == input[i + 1..] + Flat(chunks)
            && Receive(input, chunks, limit)
               == Call(if i > limit then TooLong else Line(input[..i]), input[i + 1..], chunks)
  {
    NewlineOfPrefix(input, Flat(chunks));
    SplitConcat(input, Flat(chunks), Newline(input));
  }

  /** What one call owes to the stream it was made on. */
  ghost predicate Follows(c: Call, stream: seq<byte>, limit: nat) {
    && c.outcome == Verdict(stream, limit)
    && (c.outcome.Line? ==> Unread(c) == stream[|c.outcome.bytes| + 1..] && Clean(c.input, limit)
                            && Readable(c.chunks, CHUNK_BYTES))
    && (c.outcome.PipeClosed? ==> Unread(c) == stream)
  }

  lemma {:induction false} SplitFollows(input: seq<byte>, chunks: seq<seq<byte>>, limit: nat)
    requires Newline(input) < |input| && Clean(input[Newline(input) + 1..], limit) && Readable(chunks, CHUNK_BYTES)
    ensures Follows(Receive(input, chunks, limit), input + Flat(chunks), limit)
  {
    SplitStep(input, chunks, limit);
  }

  lemma {:induction false} EndFollows(input: seq<byte>, limit: nat)
    requires Newline(input) == |input| <= limit
    ensures Follows(Receive(input, [], limit), input + Flat([]), limit)
  {
    Whole(input);
  }

  /** A chunk that crosses the limit without a newline. */
  lemma {:induction false} CrossingFollows(input: seq<byte>, chunks: seq<seq<byte>>, limit: nat)
    requires Newline(input) == |input| && chunks != []
    requires var more := input + chunks[0]; Newline(more) == |more| > limit
    ensures Follows(Receive(input, chunks, limit), input + Flat(chunks), limit)
  {
    ReadStep(input, chunks, limit);
  }

  lemma {:induction false} FollowsFrom(input: seq<byte>, chunks: seq<seq<byte>>, limit: nat)
    requires Clean(input, limit) && Readable(chunks, CHUNK_BYTES) && CHUNK_BYTES <= limit
    ensures Follows(Receive(input, chunks, limit), input + Flat(chunks), limit)
    decreases |chunks|
  {
    if Newline(input) < |input| {
      SplitFollows(input, chunks, limit);
    } else if chunks == [] {
      EndFollows(input, limit);
    } else {
      var more := input + chunks[0];
      if Newline(more) == |more| > limit {
        CrossingFollows(input, chunks, limit);
      } else {
        ReadStep(input, chunks, limit);
        if Newline(more) < |more| {
          CleanOfShort(more[Newline(more) + 1..], limit);
        }
        FollowsFrom(more, chunks[1..], limit);
      }
    }
  }

  /**
   Main result: from a clean buffer, the outcome of a call is a function of the byte stream alone,
   and so is what it leaves unread when it returns a line or finds the pipe closed.
   */
  lemma {:induction false} OutcomeIgnoresChunks(input: seq<byte>, chunks: seq<seq<byte>>, limit: nat)
    requires Clean(input, limit) && Readable(chunks, CHUNK_BYTES) && CHUNK_BYTES <= limit
    ensures var c, stream := Receive(input, chunks, limit), input + Flat(chunks);
            && c.outcome == Verdict(stream, limit)
            && (c.outcome.Line? ==> Unread(c) == stream[|c.outcome.bytes| + 1..] && Clean(c.input, limit)
                                    && Readable(c.chunks, CHUNK_BYTES))
            && (c.outcome.PipeClosed? ==> Unread(c) == stream)
  {
    FollowsFrom(input, chunks, limit);
  }

  /** Up to `k` calls in a row by a caller that stops at the first error. */
  function Calls(input: seq<byte>, chunks: seq<seq<byte>>, limit: nat, k: nat): seq<Outcome>
    decreases k
  {
    if k == 0 then [] else
    var c := Receive(input, chunks, limit);
    if c.outcome.Line? then [c.outcome] + Calls(c.input, c.chunks, limit, k - 1) else [c.outcome]
  }

  /** The outcomes the byte stream itself calls for. */
  function Verdicts(stream: seq<byte>, limit: nat, k: nat): seq<Outcome>
    decreases k
  {
    if k == 0 then [] else
    var v := Verdict(stream, limit);
    if v.Line? then [v] + Verdicts(stream[|v.bytes| + 1..], limit, k - 1) else [v]
  }

  /** The first of the outcomes, and what the later ones depend on. */
  lemma {:induction false} FirstVerdict(input: seq<byte>, chunks: seq<seq<byte>>, limit: nat, k: nat)
    requires Clean(input, limit) && Readable(chunks, CHUNK_BYTES) && CHUNK_BYTES <= limit && k > 0
    ensures var c, all := Receive(input, chunks, limit), Verdicts(input + Flat(chunks), limit, k);
            if c.outcome.Line?
            then && Clean(c.input, limit) && Readable(c.chunks, CHUNK_BYTES)
                 && all == [c.outcome] + Verdicts(c.input + Flat(c.chunks), limit, k - 1)
            else all == [c.outcome]
  {
    FollowsFrom(input, chunks, limit);
  }

  lemma {:induction false} CallsStep(input: seq<byte>, chunks: seq<seq<byte>>, limit: nat, k: nat)
    requires Clean(input, limit) && Readable(chunks, CHUNK_BYTES) && CHUNK_BYTES <= limit && k > 0
    requires var c := Receive(input, chunks, limit);
             c.outcome.Line? ==> Calls(c.input, c.chunks, limit, k - 1) == Verdicts(c.input + Flat(c.chunks), limit, k - 1)
    ensures Calls(input, chunks, limit, k) == Verdicts(input + Flat(chunks), limit, k)
  {
    FirstVerdict(input, chunks, limit, k);
  }

  /** Main result: lines, and the error that ends them, come out the same however they were delivered. */
  lemma {:induction false} CallsFollowStream(input: seq<byte>, chunks: seq<seq<byte>>, limit: nat, k: nat)
    requires Clean(input, limit) && Readable(chunks, CHUNK_BYTES) && CHUNK_BYTES <= limit
    ensures Calls(input, chunks, limit, k) == Verdicts(input + Flat(chunks), limit, k)
    decreases k
  {
    if k > 0 {
      var c := Receive(input, chunks, limit);
      if c.outcome.Line? {
        FirstVerdict(input, chunks, limit, k);
        CallsFollowStream(c.input, c.chunks, limit, k - 1);
      }
      CallsStep(input, chunks, limit, k);
    }
  }

  // ---------- where the chunks do show: a line just over the limit ----------

  /** Bytes without a newline, within the limit, are only buffered. */
  lemma {:induction false} Buffered(input: seq<byte>, first: seq<seq<byte>>, rest: seq<seq<byte>>, limit: nat)
    requires var all := input + Flat(first); Newline(all) == |all| <= limit
    ensures Receive(input, first + rest, limit) == Receive(input + Flat(first), rest, limit)
    decreases |first|
  {
    if first == [] {
      Whole(rest);
      Whole(input);
    } else {
      var more := input + first[0];
      Assoc(input, first[0], Flat(first[1..]));
      NewlineOfPrefix(input, first[0] + Flat(first[1..]));
      NewlineOfPrefix(more, Flat(first[1..]));
      HeadTail(first, rest);
      Buffered(more, first[1..], rest, limit);
    }
  }

  /** Whether a first line's length lets the chunks decide if a size error consumes it. */
  predicate Borderline(stream: seq<byte>, limit: nat) {
    var i := Newline(stream);
    i < |stream| && limit < i < limit + CHUNK_BYTES
  }

  /** Without a newline up to `limit`, then one chunk, then byte by byte: where the chunk leads. */
  lemma {:induction false} Crossed(head: seq<byte>, chunk: seq<byte>, tail: seq<byte>, limit: nat)
    requires Newline(head) == |head| == limit && chunk != []
    ensures var more, later := head + chunk, Drip(tail);
            Receive([], Drip(head) + ([chunk] + later), limit)
            == if Newline(more) == |more| then Call(TooLong, more, later) else Receive(more, later, limit)
  {
    Whole(head);
    Buffered([], Drip(head), [chunk] + Drip(tail), limit);
    Uncons(chunk, Drip(tail));
    ReadStep(head, [chunk] + Drip(tail), limit);
  }

  /** `stream` in three parts. */
  lemma {:induction false} ThreeParts(stream: seq<byte>, m: nat, n: nat)
    requires m <= n <= |stream|
    ensures stream[..m] + stream[m..n] == stream[..n] && stream[..m] + (stream[m..n] + stream[n..]) == stream
  {
  }

  /** `stream` delivered byte by byte except for one chunk from `limit` to `end`. */
  lemma {:induction false} Dripped(stream: seq<byte>, limit: nat, end: nat) returns (chunks: seq<seq<byte>>)
    requires limit < end <= |stream| && end - limit <= CHUNK_BYTES && Newline(stream[..limit]) == limit
    ensures Readable(chunks, CHUNK_BYTES) && Flat(chunks) == stream
    ensures var more, later := stream[..end], Drip(stream[end..]);
            Receive([], chunks, limit)
            == if Newline(more) == |more| then Call(TooLong, more, later) else Receive(more, later, limit)
  {
    var head, chunk, tail := stream[..limit], stream[limit..end], stream[end..];
    ThreeParts(stream, limit, end);
    Crossing(head, chunk, tail, CHUNK_BYTES);
    Crossed(head, chunk, tail, limit);
    chunks := Drip(head) + ([chunk] + Drip(tail));
  }

  /** Where the newline of a prefix is. */
  lemma {:induction false} NewlineOfPart(stream: seq<byte>, n: nat)
    requires n <= |stream|
    ensures Newline(stream[..n]) == if Newline(stream) < n then Newline(stream) else n
  {
    Split(stream, n);
    NewlineOfPrefix(stream[..n], stream[n..]);
  }

  /** A delivery of a borderline stream that is refused before its newline arrives. */
  lemma {:induction false} RefusedEarly(stream: seq<byte>, limit: nat) returns (slow: seq<seq<byte>>)
    requires Borderline(stream, limit)
    ensures Readable(slow, CHUNK_BYTES) && Flat(slow) == stream && Unread(Receive([], slow, limit)) == stream
  {
    NewlineOfPart(stream, limit);
    NewlineOfPart(stream, limit + 1);
    slow := Dripped(stream, limit, limit + 1);
    Split(stream, limit + 1);
  }

  /** A delivery of the same stream that is refused with its newline, and consumed. */
  lemma {:induction false} RefusedLate(stream: seq<byte>, limit: nat) returns (fast: seq<seq<byte>>)
    requires Borderline(stream, limit)
    ensures Readable(fast, CHUNK_BYTES) && Flat(fast) == stream
    ensures Unread(Receive([], fast, limit)) == stream[Newline(stream) + 1..]
  {
    var end := Newline(stream) + 1;
    NewlineOfPart(stream, limit);
    NewlineOfPart(stream, end);
    fast := Dripped(stream, limit, end);
    Split(stream, end);
    SplitStep(stream[..end], Drip(stream[end..]), limit);
  }

  /** Outside the border the unread bytes are settled by the stream, size error or not. */
  lemma {:induction false} UnreadOutsideBorder(input: seq<byte>, chunks: seq<seq<byte>>, limit: nat)
    requires Newline(input) == |input| <= limit && Readable(chunks, CHUNK_BYTES)
    requires !Borderline(input + Flat(chunks), limit)
    ensures Unread(Receive(input, chunks, limit)) == AfterFirstLine(input + Flat(chunks), limit)
    decreases |chunks|
  {
    if chunks == [] {
      Whole(input);
    } else {
      var more, later := input + chunks[0], chunks[1..];
      ReadStep(input, chunks, limit);
      if Newline(more) < |more| {
        SplitStep(more, later, limit);
      } else if |more| <= limit {
        UnreadOutsideBorder(more, later, limit);
      }
    }
  }

  /** The stream without its first line, when that line is complete and within the limit. */
  function AfterFirstLine(stream: seq<byte>, limit: nat): seq<byte> {
    var i := Newline(stream);
    if i < |stream| && i <= limit then stream[i + 1..] else stream
  }

  /** All deliveries of the stream to an empty buffer leave the same bytes unread. */
  ghost predicate UnreadSettled(stream: seq<byte>, limit: nat) {
    forall c1: seq<seq<byte>>, c2: seq<seq<byte>> ::
      Readable(c1, CHUNK_BYTES) && Readable(c2, CHUNK_BYTES) && Flat(c1) == stream && Flat(c2) == stream
      ==> Unread(Receive([], c1, limit)) == Unread(Receive([], c2, limit))
  }

  /**
   Main result: a fresh reader's next line can depend on the chunks exactly when the first line is
   over the limit by less than one chunk; then a size error may or may not consume it.
   */
  lemma {:induction false} UnreadSettledExactly(stream: seq<byte>, limit: nat)
    ensures UnreadSettled(stream, limit) <==> !Borderline(stream, limit)
  {
    if Borderline(stream, limit) {
      var slow := RefusedEarly(stream, limit);
      var fast := RefusedLate(stream, limit);
      assert |Unread(Receive([], slow, limit))| != |Unread(Receive([], fast, limit))|;
    } else {
      forall c1: seq<seq<byte>>, c2: seq<seq<byte>> |
        Readable(c1, CHUNK_BYTES) && Readable(c2, CHUNK_BYTES) && Flat(c1) == stream && Flat(c2) == stream
        ensures Unread(Receive([], c1, limit)) == Unread(Receive([], c2, limit))
      {
        assert [] + Flat(c1) == stream && [] + Flat(c2) == stream;
        UnreadOutsideBorder([], c1, limit);
        UnreadOutsideBorder([], c2, limit);
      }
    }
  }

  /** The child's end of the pipe. */
  class HostChildTransport {
    var input: seq<byte>
    var chunks: seq<seq<byte>>

    constructor (chunks: seq<seq<byte>>)
      ensures input == [] && this.chunks == chunks
    {
      input, this.chunks := [], chunks;
    }

    /** `os.read`: the next chunk, or nothing at the end of the pipe. */
    method Read() returns (chunk: seq<byte>)
      modifies `chunks
      ensures old(chunks) == [] ==> chunk == [] && chunks == []
      ensures old(chunks) != [] ==> chunk == old(chunks)[0] && chunks == old(chunks)[1..]
    {
      if chunks == [] {
        chunk := [];
      } else {
        chunk, chunks := chunks[0], chunks[1..];
      }
    }

    method ReceiveLine() returns (outcome: Outcome)
      requires Readable(chunks, CHUNK_BYTES)
      modifies this
      ensures Call(outcome, input, chunks) == Receive(old(input), old(chunks), MAX_LINE_BYTES)
    {
      ghost var call := Receive(input, chunks, MAX_LINE_BYTES);
      var i := Newline(input);
      while i == |input|
        invariant i == Newline(input) && Readable(chunks, CHUNK_BYTES)
        invariant call == Receive(input, chunks, MAX_LINE_BYTES)
        decreases |chunks|
      {
        var chunk := Read();
        if chunk == [] {
          return PipeClosed;
        }
        input := input + chunk;
        i := Newline(input);
        if i == |input| && |input| > MAX_LINE_BYTES {
          return TooLong;
        }
      }
      var line := input[..i];
      input := input[i + 1..];
      outcome := if |line| > MAX_LINE_BYTES then TooLong else Line(line);
    }
  }
}
