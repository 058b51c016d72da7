/**
 The installer's output: the worker keeps the last 262144 bytes and saves snapshots; a client polls with
 a cursor into the whole stream and is told to reset when the snapshot no longer reaches back that far.
 */
module UpdateLog {
  import opened Wrappers
  import opened WireBytes

  const RETAINED_BYTES: nat := 262144
  const CHUNK_BYTES: nat := 65536

  /** The saved state: the end of the stream and the bytes just before it. */
  datatype Snapshot = Snapshot(end: nat, output: seq<byte>)

  datatype Reply = Reply(chunk: seq<byte>, cursor: int, reset: bool)

  function Start(s: Snapshot): int {
    s.end - |s.output|
  }

  function Last(s: seq<byte>, n: nat): (r: seq<byte>)
    ensures |r| == if |s| > n then n else |s|
  {
    if |s| > n then s[|s| - n..] else s
  }

  /** `status(cursor)`; without a snapshot there is nothing yet. */
  function Status(saved: Option<Snapshot>, cursor: int): Result<Reply, ()> {
    if cursor < 0 then Err(())
    else if saved.None? then Ok(Reply([], 0, false))
    else
      var s := saved.value;
      var reset := cursor < Start(s) || cursor > s.end;
      var offset := if reset then Start(s) else cursor;
      var tail := s.output[offset - Start(s)..];
      var chunk := if |tail| > CHUNK_BYTES then tail[..CHUNK_BYTES] else tail;
      Ok(Reply(chunk, offset + |chunk|, reset))
  }

  class UpdateWorker {
    var output: seq<byte>
    var total: nat
    var saved: Option<Snapshot>
    ghost var stream: seq<byte>   // everything recorded so far

    ghost predicate Valid()
      reads this
    {
      total == |stream| && output == Last(stream, RETAINED_BYTES)
    }

    constructor ()
      ensures Valid() && stream == [] && saved == None
    {
      output, total, saved, stream := [], 0, None, [];
    }

    method Record(chunk: seq<byte>)
      requires Valid()
      modifies `output, `total, `stream
      ensures Valid() && stream == old(stream) + chunk
    {
      LastOfLonger(stream, chunk);
      output := Last(output + chunk, RETAINED_BYTES);
      total := total + |chunk|;
      stream := stream + chunk;
    }

    method Save()
      requires Valid()
      modifies `saved
      ensures saved == Some(Snapshot(|stream|, Last(stream, RETAINED_BYTES)))
    {
      saved := Some(Snapshot(total, output));
    }
  }

  lemma {:induction false} LastOfLonger(stream: seq<byte>, chunk: seq<byte>)
    ensures Last(Last(stream, RETAINED_BYTES) + chunk, RETAINED_BYTES) == Last(stream + chunk, RETAINED_BYTES)
  {
    if |stream| > RETAINED_BYTES {
      var cut := |stream| - RETAINED_BYTES;
      assert stream + chunk == stream[..cut] + (stream[cut..] + chunk);
    }
  }

  // ---------- one installer run with a polling client ----------

  /** `got` is what the client has received since the start or its last reset, from `base` on. */
  datatype Client = Client(cursor: int, base: int, got: seq<byte>)

  datatype World = World(stream: seq<byte>, saved: Option<Snapshot>, client: Client)

  datatype Step = Record(chunk: seq<byte>) | Save | Poll

  function Polled(client: Client, reply: Reply): Client {
    if reply.reset then Client(reply.cursor, reply.cursor - |reply.chunk|, reply.chunk)
    else Client(reply.cursor, client.base, client.got + reply.chunk)
  }

  ghost predicate Next(w: World, step: Step, v: World) {
    match step
    case Record(chunk) => v == w.(stream := w.stream + chunk)
    case Save => v == w.(saved := Some(Snapshot(|w.stream|, Last(w.stream, RETAINED_BYTES))))
    case Poll =>
      var reply := Status(w.saved, w.client.cursor);
      reply.Ok? && v == w.(client := Polled(w.client, reply.value))
  }

  ghost predicate Run(ws: seq<World>, steps: seq<Step>) {
    && |ws| == |steps| + 1 && ws[0] == World([], None, Client(0, 0, []))
    && forall i | 0 <= i < |steps| :: Next(ws[i], steps[i], ws[i + 1])
  }

  /** A snapshot holds exactly the tail of the stream up to its end. */
  ghost predicate Faithful(s: Snapshot, stream: seq<byte>) {
    && s.end <= |stream| && 0 <= Start(s)
    && s.output == stream[Start(s)..s.end]
    && |s.output| == (if s.end > RETAINED_BYTES then RETAINED_BYTES else s.end)
  }

  ghost predicate Invariant(w: World) {
    && (w.saved.Some? ==> Faithful(w.saved.value, w.stream))
    && 0 <= w.client.base <= w.client.cursor
    && w.client.cursor <= (if w.saved.Some? then w.saved.value.end else 0)
    && w.client.cursor <= |w.stream|
    && w.client.got == w.stream[w.client.base..w.client.cursor]
  }

  /** A poll hands out exactly the stream from its offset on, and resets only a cursor left behind. */
  lemma {:induction false} StatusFaithful(s: Snapshot, stream: seq<byte>, cursor: nat)
    requires Faithful(s, stream) && cursor <= s.end
    ensures Status(Some(s), cursor).Ok?
    ensures var reply := Status(Some(s), cursor).value;
            var offset := if reply.reset then Start(s) else cursor;
            && (reply.reset <==> cursor < Start(s))
            && reply.cursor == (if offset + CHUNK_BYTES < s.end then offset + CHUNK_BYTES else s.end)
            && reply.chunk == stream[offset..reply.cursor]
  {
    var offset := if cursor < Start(s) then Start(s) else cursor;
    var tail := s.output[offset - Start(s)..];
    assert tail == stream[offset..s.end];
    if |tail| > CHUNK_BYTES {
      assert tail[..CHUNK_BYTES] == stream[offset..offset + CHUNK_BYTES];
    }
  }

  /** A negative cursor is refused; before the first snapshot there is nothing to hand out. */
  lemma {:induction false} StatusRefuses(saved: Option<Snapshot>, cursor: int)
    ensures Status(saved, cursor).Err? <==> cursor < 0
    ensures saved.None? && cursor >= 0 ==> Status(saved, cursor) == Ok(Reply([], 0, false))
  {
  }

  /** A cursor past the end, left over from another run of the installer, starts again with the retained tail. */
  lemma {:induction false} BeyondStartsAgain(s: Snapshot, stream: seq<byte>, cursor: int)
    requires Faithful(s, stream) && cursor > s.end
    ensures Status(Some(s), cursor).Ok?
    ensures var reply, start := Status(Some(s), cursor).value, s.end - |s.output|;
            && reply.reset
            && reply.cursor == (if start + 65536 < s.end then start + 65536 else s.end)
            && reply.chunk == stream[start..reply.cursor]
  {
    var start := s.end - |s.output|;
    if start + CHUNK_BYTES < s.end {
      assert stream[start..s.end][..CHUNK_BYTES] == stream[start..start + CHUNK_BYTES];
    }
  }

  lemma {:induction false} RecordKeeps(w: World, chunk: seq<byte>)
    requires Invariant(w)
    ensures Invariant(w.(stream := w.stream + chunk))
  {
    var longer := w.stream + chunk;
    assert w.client.got == longer[w.client.base..w.client.cursor];
    if w.saved.Some? {
      assert w.saved.value.output == longer[Start(w.saved.value)..w.saved.value.end];
    }
  }

  lemma {:induction false} PollKeeps(w: World)
    requires Invariant(w) && w.saved.Some?
    ensures Invariant(w.(client := Polled(w.client, Status(w.saved, w.client.cursor).value)))
  {
    StatusFaithful(w.saved.value, w.stream, w.client.cursor);
    var reply := Status(w.saved, w.client.cursor).value;
    if !reply.reset {
      assert w.stream[w.client.base..w.client.cursor] + w.stream[w.client.cursor..reply.cursor]
          == w.stream[w.client.base..reply.cursor];
    }
  }

  lemma {:induction false} NextKeeps(w: World, step: Step, v: World)
    requires Invariant(w) && Next(w, step, v)
    ensures Invariant(v)
  {
    match step {
      case Record(chunk) => RecordKeeps(w, chunk);
      case Save =>
      case Poll =>
        if w.saved.Some? {
          PollKeeps(w);
        }
    }
  }

  lemma {:induction false} RunKeeps(ws: seq<World>, steps: seq<Step>, i: nat)
    requires Run(ws, steps) && i < |ws|
    ensures Invariant(ws[i])
  {
    if i > 0 {
      RunKeeps(ws, steps, i - 1);
      NextKeeps(ws[i - 1], steps[i - 1], ws[i]);
    }
  }

  /**
   Main result: at any moment the client has received exactly the output stream from where it started or
   was last reset up to its cursor: no gap, no repeat.
   */
  lemma {:induction false} ClientHasStream(ws: seq<World>, steps: seq<Step>, i: nat)
    requires Run(ws, steps) && i < |ws|
    ensures var c := ws[i].client;
            0 <= c.base <= c.cursor <= |ws[i].stream| && c.got == ws[i].stream[c.base..c.cursor]
  {
    RunKeeps(ws, steps, i);
  }

  /** Main result: a poll resets exactly when the cursor fell behind the retained tail of the snapshot. */
  lemma {:induction false} ResetExactly(ws: seq<World>, steps: seq<Step>, i: nat)
    requires Run(ws, steps) && i < |ws|
    ensures var c, saved := ws[i].client.cursor, ws[i].saved;
            && Status(saved, c).Ok?
            && (Status(saved, c).value.reset <==> saved.Some? && c + RETAINED_BYTES < saved.value.end)
  {
    RunKeeps(ws, steps, i);
    if ws[i].saved.Some? {
      StatusFaithful(ws[i].saved.value, ws[i].stream, ws[i].client.cursor);
    }
  }

  // ---------- catching up ----------

  /** Where one poll moves the cursor. */
  function Moved(s: Snapshot, cursor: int): int {
    var reply := Status(Some(s), cursor);
    if reply.Ok? then reply.value.cursor else cursor
  }

  /** The cursor after `n` polls of one snapshot. */
  function CursorAfter(s: Snapshot, cursor: int, n: nat): int {
    if n == 0 then cursor else Moved(s, CursorAfter(s, cursor, n - 1))
  }

  /** A full chunk on from `from`, but never past `end`. */
  function Ahead(from: int, chunks: nat, end: int): int {
    if from + chunks * CHUNK_BYTES < end then from + chunks * CHUNK_BYTES else end
  }

  function Offset(s: Snapshot, cursor: int): int {
    if cursor < Start(s) then Start(s) else cursor
  }

  lemma {:induction false} OnePollMoves(s: Snapshot, stream: seq<byte>, cursor: nat)
    requires Faithful(s, stream) && cursor <= s.end
    ensures Moved(s, cursor) == Ahead(Offset(s, cursor), 1, s.end)
    ensures Start(s) <= Moved(s, cursor) <= s.end
  {
    StatusFaithful(s, stream, cursor);
  }

  lemma {:induction false} AheadAgain(from: int, chunks: nat, end: int)
    requires from <= end
    ensures Ahead(Ahead(from, chunks, end), 1, end) == Ahead(from, chunks + 1, end)
    ensures from <= Ahead(from, chunks, end) <= end
  {
  }

  /** Repeated polling of a fixed snapshot moves on by a full chunk each time until it reaches the end. */
  lemma {:induction false} CatchesUp(s: Snapshot, stream: seq<byte>, cursor: nat, n: nat)
    requires Faithful(s, stream) && cursor <= s.end && n > 0
    ensures CursorAfter(s, cursor, n) == Ahead(Offset(s, cursor), n, s.end)
  {
    if n == 1 {
      assert CursorAfter(s, cursor, 0) == cursor;
      OnePollMoves(s, stream, cursor);
    } else {
      CatchesUp(s, stream, cursor, n - 1);
      AheadAgain(Offset(s, cursor), n - 1, s.end);
      OnePollMoves(s, stream, CursorAfter(s, cursor, n - 1));
    }
  }

  /** So four polls always reach the end of a snapshot. */
  lemma {:induction false} FourPollsSuffice(s: Snapshot, stream: seq<byte>, cursor: nat, n: nat)
    requires Faithful(s, stream) && cursor <= s.end && n >= 4
    ensures CursorAfter(s, cursor, n) == s.end
  {
    CatchesUp(s, stream, cursor, n);
  }
}
