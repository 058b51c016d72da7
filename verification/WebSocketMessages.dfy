/**
 Message assembly of the session-script SDK (sections 5.4 and 5.5 of RFC 6455): text fragments
 with control frames interleaved become one message, and each ping is answered.
 */
module WebSocketMessages {
  import opened Wrappers
  import opened Sequences
  import opened WireBytes
  import opened WebSocketFrames

  const CONTINUATION: Opcode := 0x0
  const TEXT: Opcode := 0x1
  const CLOSE: Opcode := 0x8
  const PING: Opcode := 0x9
  const PONG: Opcode := 0xA

  datatype Failure = PeerClosed | BadSequence | OversizeMessage | OversizePong

  /** What one call makes of a frame sequence: `used` frames are consumed. */
  datatype Assembly =
    | Message(payload: seq<byte>, used: nat, pongs: seq<seq<byte>>)
    | Failed(failure: Failure, used: nat, pongs: seq<seq<byte>>)
    | Incomplete(pongs: seq<seq<byte>>)

  // ---------- the loop, frame by frame ----------

  /** The effect of one frame on the open message: carry on, or finish with a result. */
  datatype Effect = Carry(open: Option<seq<byte>>) | Answer(pong: seq<byte>) | Done(payload: seq<byte>) | Stop(failure: Failure)

  function Absorb(f: Frame, open: Option<seq<byte>>): (e: Effect)
    ensures e.Answer? ==> |e.pong| <= MAX_MESSAGE_BYTES
  {
    if f.opcode == CLOSE then Stop(PeerClosed)
    else if f.opcode == PING then
      if |f.payload| > MAX_MESSAGE_BYTES then Stop(OversizePong) else Answer(f.payload)
    else if f.opcode == PONG then Carry(open)
    else if !(f.opcode == TEXT && open.None?) && (f.opcode != CONTINUATION || open.None?) then
      Stop(BadSequence)
    else
      var soFar := if open.Some? then open.value else [];
      if |soFar| + |f.payload| > MAX_RECEIVED_MESSAGE_BYTES then Stop(OversizeMessage)
      else if f.fin then Done(soFar + f.payload)
      else Carry(Some(soFar + f.payload))
  }

  function Assemble(frames: seq<Frame>, open: Option<seq<byte>>, used: nat, pongs: seq<seq<byte>>): Assembly {
    if frames == [] then Incomplete(pongs) else
    match Absorb(frames[0], open)
    case Carry(o) => Assemble(frames[1..], o, used + 1, pongs)
    case Answer(p) => Assemble(frames[1..], open, used + 1, pongs + [p])
    case Done(payload) => Message(payload, used + 1, pongs)
    case Stop(failure) => Failed(failure, used + 1, pongs)
  }

  /** One unfolding of the loop. */
  lemma {:induction false} AssembleStep(frames: seq<Frame>, open: Option<seq<byte>>, used: nat, pongs: seq<seq<byte>>)
    requires frames != []
    ensures Assemble(frames, open, used, pongs)
            == match Absorb(frames[0], open)
               case Carry(o) => Assemble(frames[1..], o, used + 1, pongs)
               case Answer(p) => Assemble(frames[1..], open, used + 1, pongs + [p])
               case Done(payload) => Message(payload, used + 1, pongs)
               case Stop(failure) => Failed(failure, used + 1, pongs)
  {
  }

  // ---------- the standard's view, independent of the loop ----------

  predicate IsControl(f: Frame) {
    f.opcode == PING || f.opcode == PONG
  }

  /** The frames that are neither ping nor pong. */
  function Data(frames: seq<Frame>): seq<Frame> {
    if frames == [] then []
    else (if IsControl(frames[0]) then [] else [frames[0]]) + Data(frames[1..])
  }

  function Pings(frames: seq<Frame>): seq<seq<byte>> {
    if frames == [] then []
    else (if frames[0].opcode == PING then [frames[0].payload] else []) + Pings(frames[1..])
  }

  function Concat(frames: seq<Frame>): seq<byte> {
    if frames == [] then [] else frames[0].payload + Concat(frames[1..])
  }

  /** A text frame followed by continuations. */
  predicate InOrder(data: seq<Frame>) {
    forall i | 0 <= i < |data| :: data[i].opcode == (if i == 0 then TEXT else CONTINUATION)
  }

  /** Fragments that leave a message open: in order, none final, nothing too large. */
  predicate OpenWith(data: seq<Frame>, text: seq<byte>, pings: seq<seq<byte>>) {
    && InOrder(data)
    && (forall i | 0 <= i < |data| :: !data[i].fin)
    && |text| <= MAX_RECEIVED_MESSAGE_BYTES
    && (forall i | 0 <= i < |pings| :: |pings[i]| <= MAX_MESSAGE_BYTES)
  }

  /** The final fragment that completes an open message. */
  predicate CompletesWith(data: seq<Frame>, text: seq<byte>, last: Frame) {
    && last.opcode == (if data == [] then TEXT else CONTINUATION)
    && last.fin
    && |text| + |last.payload| <= MAX_RECEIVED_MESSAGE_BYTES
  }

  /** Why a frame may not follow an open message, if it may not. */
  function RefusalWith(data: seq<Frame>, text: seq<byte>, last: Frame): Option<Failure> {
    if last.opcode == CLOSE then Some(PeerClosed)
    else if last.opcode == PING && |last.payload| > MAX_MESSAGE_BYTES then Some(OversizePong)
    else if IsControl(last) then None
    else if last.opcode != (if data == [] then TEXT else CONTINUATION) then Some(BadSequence)
    else if |text| + |last.payload| > MAX_RECEIVED_MESSAGE_BYTES then Some(OversizeMessage)
    else None
  }

  predicate Open(frames: seq<Frame>) {
    OpenWith(Data(frames), Concat(Data(frames)), Pings(frames))
  }

  predicate Completes(frames: seq<Frame>, last: Frame) {
    Open(frames) && CompletesWith(Data(frames), Concat(Data(frames)), last)
  }

  predicate Refuses(frames: seq<Frame>, last: Frame, failure: Failure) {
    Open(frames) && RefusalWith(Data(frames), Concat(Data(frames)), last) == Some(failure)
  }

  // ---------- the two agree ----------

  lemma {:induction false} DataSnoc(frames: seq<Frame>, f: Frame)
    ensures Data(frames + [f]) == if IsControl(f) then Data(frames) else Data(frames) + [f]
    ensures Pings(frames + [f]) == if f.opcode == PING then Pings(frames) + [f.payload] else Pings(frames)
  {
    if frames == [] {
      assert frames + [f] == [f];
      assert Data([f][1..]) == [] && Pings([f][1..]) == [];
    } else {
      DataSnoc(frames[1..], f);
      assert (frames + [f])[1..] == frames[1..] + [f];
    }
  }

  lemma {:induction false} ConcatSnoc(frames: seq<Frame>, f: Frame)
    ensures Concat(frames + [f]) == Concat(frames) + f.payload
  {
    if frames == [] {
      assert frames + [f] == [f] && Concat([f][1..]) == [];
    } else {
      ConcatSnoc(frames[1..], f);
      assert (frames + [f])[1..] == frames[1..] + [f];
    }
  }

  /** The loop's accumulator after an open prefix. */
  function OpenText(data: seq<Frame>, text: seq<byte>): Option<seq<byte>> {
    if data == [] then None else Some(text)
  }

  function Accumulated(frames: seq<Frame>): Option<seq<byte>> {
    OpenText(Data(frames), Concat(Data(frames)))
  }

  /** One frame after an open message: the loop body and the standard take the same turn. */
  lemma {:induction false} AbsorbAgrees(data: seq<Frame>, text: seq<byte>, pings: seq<seq<byte>>, f: Frame)
    requires OpenWith(data, text, pings) && (data == [] ==> text == [])
    ensures match Absorb(f, OpenText(data, text))
            case Carry(o) =>
              && f.opcode != PING
              && (if IsControl(f) then o == OpenText(data, text)
                  else o == Some(text + f.payload) && OpenWith(data + [f], text + f.payload, pings))
            case Answer(p) => f.opcode == PING && p == f.payload && OpenWith(data, text, pings + [p])
            case Done(payload) => CompletesWith(data, text, f) && payload == text + f.payload
            case Stop(failure) => RefusalWith(data, text, f) == Some(failure)
  {
  }

  /** Taking back the last frame of an open message leaves an open message that the frame fitted. */
  lemma {:induction false} OpenTakenBack(data: seq<Frame>, text: seq<byte>, pings: seq<seq<byte>>, f: Frame)
    requires OpenWith(if IsControl(f) then data else data + [f],
                      if IsControl(f) then text else text + f.payload,
                      if f.opcode == PING then pings + [f.payload] else pings)
    ensures OpenWith(data, text, pings)
    ensures !IsControl(f) ==> !f.fin && f.opcode == (if data == [] then TEXT else CONTINUATION)
                              && |text| + |f.payload| <= MAX_RECEIVED_MESSAGE_BYTES
    ensures f.opcode == PING ==> |f.payload| <= MAX_MESSAGE_BYTES
  {
    if f.opcode == PING {
      var all := pings + [f.payload];
      assert all[|pings|] == f.payload;
      assert forall i | 0 <= i < |pings| :: pings[i] == all[i];
    } else if !IsControl(f) {
      var all := data + [f];
      assert all[|data|] == f;
      assert forall i | 0 <= i < |data| :: data[i] == all[i];
    }
  }

  /** What a turn adds to the prefix: pings, text and the frame itself. */
  lemma {:induction false} PrefixGrows(frames: seq<Frame>, k: nat)
    requires k < |frames|
    ensures var f, data := frames[k], Data(frames[..k]);
            && Data(frames[..k + 1]) == (if IsControl(f) then data else data + [f])
            && Concat(Data(frames[..k + 1])) == (if IsControl(f) then Concat(data) else Concat(data) + f.payload)
            && Pings(frames[..k + 1]) == (if f.opcode == PING then Pings(frames[..k]) + [f.payload] else Pings(frames[..k]))
  {
    TakeMore(frames, k);
    DataSnoc(frames[..k], frames[k]);
    ConcatSnoc(Data(frames[..k]), frames[k]);
  }

  /** Every prefix of an open sequence is open, and no frame of it completes or spoils it. */
  lemma {:induction false} OpenPrefix(frames: seq<Frame>, n: nat)
    requires n < |frames| && Open(frames[..n + 1])
    ensures Open(frames[..n])
    ensures !CompletesWith(Data(frames[..n]), Concat(Data(frames[..n])), frames[n])
    ensures RefusalWith(Data(frames[..n]), Concat(Data(frames[..n])), frames[n]).None?
  {
    PrefixGrows(frames, n);
    OpenTakenBack(Data(frames[..n]), Concat(Data(frames[..n])), Pings(frames[..n]), frames[n]);
  }

  lemma {:induction false} OpenPrefixes(frames: seq<Frame>, m: nat, n: nat)
    requires n <= m <= |frames| && Open(frames[..m])
    ensures Open(frames[..n])
    ensures n < m ==> && !CompletesWith(Data(frames[..n]), Concat(Data(frames[..n])), frames[n])
                      && RefusalWith(Data(frames[..n]), Concat(Data(frames[..n])), frames[n]).None?
    decreases m
  {
    if n < m {
      OpenPrefix(frames, m - 1);
      OpenPrefixes(frames, m - 1, n);
    }
  }

  /** What the standard says of a finished call over `frames`. */
  ghost predicate Accounts(frames: seq<Frame>, a: Assembly) {
    match a
    case Message(payload, used, pongs) =>
      && 0 < used <= |frames|
      && Completes(frames[..used - 1], frames[used - 1])
      && payload == Concat(Data(frames[..used - 1])) + frames[used - 1].payload
      && pongs == Pings(frames[..used - 1])
    case Failed(failure, used, pongs) =>
      && 0 < used <= |frames|
      && Refuses(frames[..used - 1], frames[used - 1], failure)
      && pongs == Pings(frames[..used - 1])
    case Incomplete(pongs) => Open(frames) && pongs == Pings(frames)
  }

  /** The loop after `k` frames that left the message open. */
  function AssembleAt(frames: seq<Frame>, k: nat): Assembly
    requires k <= |frames|
  {
    Assemble(frames[k..], Accumulated(frames[..k]), k, Pings(frames[..k]))
  }

  lemma {:induction false} AssembleAtStep(frames: seq<Frame>, k: nat)
    requires k < |frames|
    ensures var open, pongs := Accumulated(frames[..k]), Pings(frames[..k]);
            AssembleAt(frames, k)
            == match Absorb(frames[k], open)
               case Carry(o) => Assemble(frames[k + 1..], o, k + 1, pongs)
               case Answer(p) => Assemble(frames[k + 1..], open, k + 1, pongs + [p])
               case Done(payload) => Message(payload, k + 1, pongs)
               case Stop(failure) => Failed(failure, k + 1, pongs)
  {
    TakeMore(frames, k);
    AssembleStep(frames[k..], Accumulated(frames[..k]), k, Pings(frames[..k]));
  }

  /** One turn of the loop either answers as the standard does or moves on by one open frame. */
  lemma {:induction false} AssembleTurn(frames: seq<Frame>, k: nat)
    requires k < |frames| && Open(frames[..k])
    ensures Accounts(frames, AssembleAt(frames, k))
            || (Open(frames[..k + 1]) && AssembleAt(frames, k) == AssembleAt(frames, k + 1))
  {
    AssembleAtStep(frames, k);
    PrefixGrows(frames, k);
    AbsorbAgrees(Data(frames[..k]), Concat(Data(frames[..k])), Pings(frames[..k]), frames[k]);
  }

  /** Started inside an open prefix, the loop finishes as the standard says of the whole sequence. */
  lemma {:induction false} AssembleFrom(frames: seq<Frame>, k: nat)
    requires k <= |frames| && Open(frames[..k])
    ensures Accounts(frames, AssembleAt(frames, k))
    decreases |frames| - k
  {
    if k == |frames| {
      Whole(frames);
    } else {
      AssembleTurn(frames, k);
      if !Accounts(frames, AssembleAt(frames, k)) {
        AssembleFrom(frames, k + 1);
      }
    }
  }

  lemma {:induction false} AssembleAccounts(frames: seq<Frame>)
    ensures Accounts(frames, Assemble(frames, None, 0, []))
  {
    Whole(frames);
    AssembleFrom(frames, 0);
  }

  /** An open prefix is followed by a frame that completes it or may not follow it. */
  ghost predicate Stops(frames: seq<Frame>, n: nat) {
    && n < |frames| && Open(frames[..n])
    && var data := Data(frames[..n]);
       CompletesWith(data, Concat(data), frames[n]) || RefusalWith(data, Concat(data), frames[n]).Some?
  }

  lemma {:induction false} StopsOnce(frames: seq<Frame>, m: nat, n: nat)
    requires Stops(frames, n) && m <= |frames| && Open(frames[..m])
    ensures m <= n
  {
    if n < m {
      OpenPrefixes(frames, m, n);
    }
  }

  lemma {:induction false} AccountStops(frames: seq<Frame>, a: Assembly)
    requires Accounts(frames, a) && !a.Incomplete?
    ensures a.used > 0 && Stops(frames, a.used - 1)
  {
  }

  /** Two accounts of the same sequence stop at the same frame. */
  lemma {:induction false} FinishesAt(frames: seq<Frame>, n: nat)
    requires Stops(frames, n)
    ensures !Assemble(frames, None, 0, []).Incomplete? && Assemble(frames, None, 0, []).used == n + 1
  {
    var a := Assemble(frames, None, 0, []);
    AssembleAccounts(frames);
    if a.Incomplete? {
      Whole(frames);
      StopsOnce(frames, |frames|, n);
    } else {
      AccountStops(frames, a);
      StopsOnce(frames, n, a.used - 1);
      StopsOnce(frames, a.used - 1, n);
    }
  }

  /** A frame cannot both complete a message and be refused. */
  lemma {:induction false} NotBoth(data: seq<Frame>, text: seq<byte>, last: Frame)
    ensures !CompletesWith(data, text, last) || RefusalWith(data, text, last).None?
  {
  }

  lemma {:induction false} MessageWhere(frames: seq<Frame>, n: nat)
    requires n < |frames|
    ensures Completes(frames[..n], frames[n])
            <==> var a := Assemble(frames, None, 0, []); a.Message? && a.used == n + 1
  {
    AssembleAccounts(frames);
    NotBoth(Data(frames[..n]), Concat(Data(frames[..n])), frames[n]);
    if Completes(frames[..n], frames[n]) {
      FinishesAt(frames, n);
    }
  }

  /**
   Main result: a call returns a message exactly when the frames begin with an open prefix and the
   fragment that completes it; the message is the concatenated text, the pongs are the pings in order.
   */
  lemma {:induction false} MessageExactly(frames: seq<Frame>, n: nat)
    requires n < |frames|
    ensures Completes(frames[..n], frames[n])
            <==> var a := Assemble(frames, None, 0, []); a.Message? && a.used == n + 1
    ensures Completes(frames[..n], frames[n])
            ==> Assemble(frames, None, 0, [])
                == Message(Concat(Data(frames[..n + 1])), n + 1, Pings(frames[..n + 1]))
  {
    MessageWhere(frames, n);
    AssembleAccounts(frames);
    PrefixGrows(frames, n);
  }

  /** Main result: a call fails exactly when an open prefix is followed by a frame that may not follow. */
  lemma {:induction false} FailureExactly(frames: seq<Frame>, n: nat, failure: Failure)
    requires n < |frames|
    ensures Refuses(frames[..n], frames[n], failure)
            <==> var a := Assemble(frames, None, 0, []);
                 a.Failed? && a.used == n + 1 && a.failure == failure
  {
    AssembleAccounts(frames);
    NotBoth(Data(frames[..n]), Concat(Data(frames[..n])), frames[n]);
    if Refuses(frames[..n], frames[n], failure) {
      FinishesAt(frames, n);
    }
  }

  /**
   End to end: a text message cut into any fragments, with pings and pongs anywhere between them and
   any bytes behind, is read off the socket as exactly its text, leaving exactly those bytes.
   */
  lemma {:induction false} FragmentedTextArrives(ws: seq<Wire>, tail: seq<byte>)
    requires ws != [] && forall i | 0 <= i < |ws| :: Sendable(ws[i].frame)
    requires Completes(Plain(ws)[..|ws| - 1], Plain(ws)[|ws| - 1])
    ensures var frames := Frames(EncodeAll(ws) + tail);
            && Assemble(frames, None, 0, []) == Message(Concat(Data(Plain(ws))), |ws|, Pings(Plain(ws)))
            && |ws| <= |frames| && frames[|ws|..] == Frames(tail)
  {
    var frames, n := Frames(EncodeAll(ws) + tail), |ws| - 1;
    FramesOfEncoded(ws, tail);
    assert frames[..n] == Plain(ws)[..n] && frames[..n + 1] == Plain(ws);
    MessageExactly(frames, n);
  }

  datatype ReceiveError = Protocol(failure: Failure) | Transport(error: WireError)

  /** The last `|pongs|` frames written are the pongs that carry these payloads, in order. */
  ghost predicate Ponged(before: seq<Wire>, after: seq<Wire>, pongs: seq<seq<byte>>) {
    && |after| == |before| + |pongs| && after[..|before|] == before
    && forall i | 0 <= i < |pongs| :: after[|before| + i].frame == Frame(true, PONG, pongs[i])
  }

  lemma {:induction false} PongedSnoc(before: seq<Wire>, middle: seq<Wire>, after: seq<Wire>, pongs: seq<seq<byte>>, p: seq<byte>)
    requires Ponged(before, middle, pongs)
    requires |after| == |middle| + 1 && after[..|middle|] == middle
    requires after[|middle|].frame == Frame(true, PONG, p)
    ensures Ponged(before, after, pongs + [p])
  {
    assert after[..|before|] == after[..|middle|][..|before|];
    forall j | |before| <= j < |middle| ensures after[j] == middle[j] {
      assert after[..|middle|][j] == middle[j];
    }
  }

  /** The next frame of the stream, seen through `Frames` alone. */
  method NextFrame(t: WebSocketTransport) returns (r: Result<Frame, WireError>)
    modifies t`buffer, t`incoming
    ensures var all := Frames(old(t.Stream()));
            if all == [] then
              r == Err(if Ending(old(t.Stream())).Oversize? then TooLarge else Closed)
            else
              && r == Ok(all[0]) && Frames(t.Stream()) == all[1..]
              && Ending(t.Stream()) == Ending(old(t.Stream()))
              && |t.Stream()| < |old(t.Stream())|
  {
    ghost var stream := t.Stream();
    r := t.Receive();
    if r.Ok? {
      FramesStep(stream, r.value, t.Stream());
    }
  }

  /** What one call reports when the frames it can see assemble to `a`. */
  ghost predicate Reports(a: Assembly, ending: Decoded, r: Result<seq<byte>, ReceiveError>) {
    match a
    case Message(payload, _, _) => r == Ok(payload)
    case Failed(failure, _, _) => r == Err(Protocol(failure))
    case Incomplete(_) => r == Err(Transport(if ending.Oversize? then TooLarge else Closed))
  }

  /** A call that has used some frames of the sequence and has `rest` before it. */
  ghost predicate Under(frames: seq<Frame>, a: Assembly, rest: seq<Frame>, open: Option<seq<byte>>, used: nat,
                        pongs: seq<seq<byte>>)
  {
    used <= |frames| && frames[used..] == rest && a == Assemble(rest, open, used, pongs)
  }

  lemma {:induction false} UnderStep(frames: seq<Frame>, a: Assembly, rest: seq<Frame>, open: Option<seq<byte>>,
                                     used: nat, pongs: seq<seq<byte>>)
    requires Under(frames, a, rest, open, used, pongs) && rest != []
    ensures used < |frames| && frames[used + 1..] == rest[1..]
    ensures match Absorb(rest[0], open)
            case Carry(o) => Under(frames, a, rest[1..], o, used + 1, pongs)
            case Answer(p) => Under(frames, a, rest[1..], open, used + 1, pongs + [p])
            case Done(payload) => a == Message(payload, used + 1, pongs)
            case Stop(failure) => a == Failed(failure, used + 1, pongs)
  {
    TakeMore(frames, used);
    AssembleStep(rest, open, used, pongs);
  }

  /** Answer a ping; the pongs written so far grow by this one. */
  method Pong(t: WebSocketTransport, pong: seq<byte>, ghost before: seq<Wire>, ghost pongs: seq<seq<byte>>)
    requires t.Valid() && |pong| <= MAX_MESSAGE_BYTES && Ponged(before, t.sent, pongs)
    modifies t`outgoing, t`sent
    ensures t.Valid() && Ponged(before, t.sent, pongs + [pong])
  {
    ghost var middle := t.sent;
    var answered := t.Send(PONG, pong);
    PongedSnoc(before, middle, t.sent, pongs, pong);
  }

  /** In the middle of a call: the frames used, the message open and the pongs written so far. */
  ghost predicate Receiving(t: WebSocketTransport, before: seq<Wire>, frames: seq<Frame>, a: Assembly, ending: Decoded,
                            open: Option<seq<byte>>, used: nat, pongs: seq<seq<byte>>)
    reads t
  {
    && t.Valid() && ending == Ending(t.Stream())
    && Under(frames, a, Frames(t.Stream()), open, used, pongs)
    && Ponged(before, t.sent, pongs)
  }

  /** At its end: the result is the one of the assembly, all its pongs are written, its frames used. */
  ghost predicate Received(t: WebSocketTransport, before: seq<Wire>, frames: seq<Frame>, a: Assembly, ending: Decoded,
                           r: Result<seq<byte>, ReceiveError>)
    reads t
  {
    && t.Valid() && Reports(a, ending, r)
    && Ponged(before, t.sent, a.pongs)
    && (!a.Incomplete? ==> a.used <= |frames| && Frames(t.Stream()) == frames[a.used..])
  }

  /** One turn of the loop: the next frame ends the call, or is absorbed. */
  method TakeFrame(t: WebSocketTransport, open: Option<seq<byte>>, ghost before: seq<Wire>, ghost frames: seq<Frame>,
                   ghost a: Assembly, ghost ending: Decoded, ghost used: nat, ghost pongs: seq<seq<byte>>)
    returns (r: Option<Result<seq<byte>, ReceiveError>>, still: Option<seq<byte>>, ghost answered: seq<seq<byte>>)
    requires Receiving(t, before, frames, a, ending, open, used, pongs)
    modifies t
    ensures r.Some? ==> Received(t, before, frames, a, ending, r.value)
    ensures r.None? ==> Receiving(t, before, frames, a, ending, still, used + 1, answered)
    ensures r.None? ==> |t.Stream()| < old(|t.Stream()|)
  {
    still, answered := open, pongs;
    ghost var rest := Frames(t.Stream());
    var received := NextFrame(t);
    if received.Err? {
      return Some(Err(Transport(received.error))), still, answered;
    }
    UnderStep(frames, a, rest, open, used, pongs);
    var effect := Absorb(received.value, open);
    match effect {
      case Stop(failure) => r := Some(Err(Protocol(failure)));
      case Done(payload) => r := Some(Ok(payload));
      case Carry(next) => r, still := None, next;
      case Answer(pong) =>
        Pong(t, pong, before, pongs);
        r, answered := None, pongs + [pong];
    }
  }

  method ReceiveMessage(t: WebSocketTransport) returns (r: Result<seq<byte>, ReceiveError>)
    requires t.Valid()
    modifies t
    ensures t.Valid()
    ensures var frames := Frames(old(t.Stream()));
            var a := Assemble(frames, None, 0, []);
            && Reports(a, Ending(old(t.Stream())), r)
            && Ponged(old(t.sent), t.sent, a.pongs)
            && (!a.Incomplete? ==> a.used <= |frames| && Frames(t.Stream()) == frames[a.used..])
  {
    ghost var before, frames, ending := t.sent, Frames(t.Stream()), Ending(t.Stream());
    ghost var a := Assemble(frames, None, 0, []);
    ghost var used, pongs := 0, [];
    var open: Option<seq<byte>> := None;
    Whole(frames);
    Whole(t.sent);
    while true
      invariant Receiving(t, before, frames, a, ending, open, used, pongs)
      decreases |t.Stream()|
    {
      var done;
      done, open, pongs := TakeFrame(t, open, before, frames, a, ending, used, pongs);
      used := used + 1;
      if done.Some? {
        return done.value;
      }
    }
  }
}
