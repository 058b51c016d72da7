/**
 The request/response side of the session-script client. While a request waits, server messages are
 handed to handlers, which may issue requests of their own; responses that arrive for an outer request
 are buffered. The peer answers each request at most once, after it was sent.
 */
module RpcClient {
  import opened Wrappers
  import opened Counting

  const MAX_BUFFERED_RESPONSES: nat := 64

  type RequestId = nat

  datatype Response = Response(id: RequestId, body: string)

  /** A message off the transport; `nested` is how many requests the handler of a server message makes. */
  datatype Incoming = Answer(response: Response) | ServerMessage(nested: nat)

  datatype Failure =
    | Closed      // the peer closed the connection
    | Overflow    // too many responses are waiting in the buffer
    | Escaped     // an error escaped from a handler and ended the wait

  lemma {:induction false} SeqSetCount(s: seq<RequestId>)
    ensures |set i | 0 <= i < |s| :: s[i]| <= |s|
  {
    var all := set i | 0 <= i < |s| :: s[i];
    if s == [] {
      assert all == {};
    } else {
      var rest := s[..|s| - 1];
      SeqSetCount(rest);
      assert all == (set i | 0 <= i < |rest| :: rest[i]) + {s[|s| - 1]};
    }
  }

  lemma {:induction false} OpenCount(outer: seq<RequestId>, abandoned: set<RequestId>, kept: set<RequestId>)
    requires forall q | q in kept :: q in outer || q in abandoned
    ensures |kept| <= |outer| + |abandoned|
  {
    var all := set i | 0 <= i < |outer| :: outer[i];
    SeqSetCount(outer);
    SubsetSmaller(kept, all + abandoned);
  }

  class SessionScriptClient {
    var nextId: RequestId
    var buffered: map<RequestId, Response>
    var remaining: nat                              // messages until the peer closes

    var received: map<RequestId, Response>          // every response that arrived
    ghost var returned: map<RequestId, Response>    // every response handed to its request
    ghost var waiting: seq<RequestId>               // requests being waited for, outermost first
    ghost var abandoned: set<RequestId>             // requests whose wait ended in an error
    ghost var lost: set<RequestId>                  // responses that an overflowing buffer turned away
    ghost var peak: nat                             // most requests ever open, waiting or abandoned
    ghost var escapes: nat                          // errors that escaped from a handler

    /** Every request sent is answered and returned, waiting, or abandoned: exactly one of the three. */
    ghost predicate Accounted()
      reads `nextId, `returned, `waiting, `abandoned, `peak
    {
      && (forall id :: 1 <= id < nextId <==> id in returned || id in waiting || id in abandoned)
      && Ledger()
    }

    /** The three never overlap, and outer requests are older. */
    ghost predicate Ledger()
      reads `returned, `waiting, `abandoned, `peak
    {
      && returned.Keys !! abandoned
      && (forall i | 0 <= i < |waiting| :: waiting[i] !in returned && waiting[i] !in abandoned)
      && (forall i, j | 0 <= i < j < |waiting| :: waiting[i] < waiting[j])
      && |waiting| + |abandoned| <= peak
    }

    /**
     Every response received was returned once, to its own request, or sits in the buffer, or is the
     one in hand; one is lost only if more than 64 requests besides the one waiting were open.
     */
    ghost predicate Conserved(inHand: Option<RequestId>)
      reads `nextId, `received, `returned, `buffered, `lost, `peak
    {
      && (forall id | id in received ::
            && 1 <= id < nextId && received[id].id == id
            && (id in returned || id in buffered || id in lost || inHand == Some(id)))
      && (forall id | id in returned ::
            id in received && returned[id] == received[id] && id !in buffered && id !in lost)
      && (forall id | id in buffered :: id in received && buffered[id] == received[id] && id !in lost)
      && (forall id | id in lost :: id in received)
      && (lost != {} ==> peak > MAX_BUFFERED_RESPONSES + 1)
      && (inHand.Some? ==> inHand.value in received && inHand.value !in returned
                           && inHand.value !in buffered && inHand.value !in lost)
    }

    /** While no handler failed and the buffer never overflowed, only the end of the connection stops a wait. */
    ghost predicate GivenUpLast()
      reads `received, `abandoned, `remaining, `escapes, `peak
    {
      escapes == 0 && peak <= MAX_BUFFERED_RESPONSES + 1 ==>
        forall id | id in abandoned :: remaining == 0 && id !in received
    }

    ghost predicate Valid()
      reads this
    {
      nextId >= 1 && Accounted() && Conserved(None) && GivenUpLast()
    }

    constructor (messages: nat)
      ensures Valid() && waiting == [] && abandoned == {} && buffered == map[] && remaining == messages
      ensures escapes == 0 && peak == 0
    {
      nextId, buffered, remaining, received := 1, map[], messages, map[];
      returned, lost, waiting, abandoned, peak, escapes := map[], {}, [], {}, 0, 0;
    }

    /** Nothing that has happened is undone. */
    twostate predicate Continues()
      reads this
    {
      && nextId >= old(nextId) && remaining <= old(remaining) && peak >= old(peak) && escapes >= old(escapes)
      && old(abandoned) <= abandoned
      && (forall id | id in old(returned) :: id in returned && returned[id] == old(returned)[id])
    }

    /** Any message of a well-behaved peer: an answer to an open request, or a server message. */
    method Receive() returns (m: Option<Incoming>)
      requires Valid()
      modifies `remaining, `received
      ensures remaining == if old(remaining) == 0 then 0 else old(remaining) - 1
      ensures m.None? <==> old(remaining) == 0
      ensures if m.Some? && m.value.Answer? then InHand(m.value.response) else Valid()
    {
      if remaining == 0 {
        return None;
      }
      remaining := remaining - 1;
      var id: nat, body: string, nested: nat := *, *, *;
      var answers: bool := *;
      if answers && 1 <= id < nextId && id !in received {
        received := received[id := Response(id, body)];
        m := Some(Answer(Response(id, body)));
      } else {
        m := Some(ServerMessage(nested));
      }
    }

    /** A response has arrived and is not placed yet. */
    ghost predicate InHand(response: Response)
      reads this
    {
      && nextId >= 1 && Accounted() && Conserved(Some(response.id)) && GivenUpLast()
      && received[response.id] == response
    }

    /** The request just sent is the innermost one waited for. */
    ghost method Await(id: RequestId)
      requires nextId == id + 1 && id >= 1 && Conserved(None) && GivenUpLast()
      requires (forall q :: 1 <= q < id <==> q in returned || q in waiting || q in abandoned) && Ledger()
      modifies `waiting, `peak
      ensures Valid() && waiting == old(waiting) + [id] && peak >= old(peak)
    {
      ghost var before := waiting;
      waiting := waiting + [id];
      if |waiting| + |abandoned| > peak {
        peak := |waiting| + |abandoned|;
      }
      assert forall q :: q in waiting <==> q in before || q == id;
    }

    /**
     Send a request and wait for its response. If no error escapes a handler and at most 64 outer requests
     are ever open, the response comes back unless the peer closed without sending one.
     */
    method Request() returns (r: Result<Response, Failure>)
      requires Valid()
      modifies this
      ensures Valid() && Continues() && waiting == old(waiting) && nextId > old(nextId)
      ensures Settled(old(nextId), r, old(escapes))
      ensures escapes == old(escapes) && peak <= MAX_BUFFERED_RESPONSES + 1 ==> Answered(old(nextId), r)
      decreases remaining, 3
    {
      var id := nextId;
      nextId := nextId + 1;
      Await(id);
      r := WaitForResponse(id);
      if escapes == old(escapes) && peak <= MAX_BUFFERED_RESPONSES + 1 {
        SettledIsAnswered(id, r, old(escapes));
      }
    }

    /** The wait ended in an error: the request is open for ever. */
    ghost method Abandon()
      requires Valid() && waiting != []
      requires escapes > 0 || peak > MAX_BUFFERED_RESPONSES + 1
            || (remaining == 0 && waiting[|waiting| - 1] !in received)
      modifies `waiting, `abandoned
      ensures Valid() && waiting == old(waiting)[..|old(waiting)| - 1]
      ensures abandoned == old(abandoned) + {old(waiting)[|old(waiting)| - 1]}
    {
      var id := waiting[|waiting| - 1];
      ghost var before := waiting;
      waiting, abandoned := waiting[..|waiting| - 1], abandoned + {id};
      assert forall q :: q in before <==> q in waiting || q == id;
    }

    /** The response in hand goes to the innermost request. */
    ghost method Return(response: Response)
      requires InHand(response) && waiting != [] && response.id == waiting[|waiting| - 1]
      modifies `waiting, `returned
      ensures Valid() && waiting == old(waiting)[..|old(waiting)| - 1]
      ensures returned == old(returned)[response.id := response]
    {
      ghost var before := waiting;
      waiting, returned := waiting[..|waiting| - 1], returned[response.id := response];
      assert forall q :: q in before <==> q in waiting || q == response.id;
    }

    lemma {:induction false} OuterOrAbandoned(response: Response, q: RequestId)
      requires InHand(response) && waiting != [] && waiting[|waiting| - 1] != response.id
      requires waiting[|waiting| - 1] !in buffered && (q in buffered || q == response.id)
      ensures q in waiting[..|waiting| - 1] || q in abandoned
    {
      assert q in received && q !in returned;
      if q in waiting {
        var i :| 0 <= i < |waiting| && waiting[i] == q;
        assert waiting[..|waiting| - 1][i] == q;
      }
    }

    /** A response in hand for another request means that another request is open. */
    lemma {:induction false} BufferFits(response: Response)
      requires InHand(response) && waiting != [] && waiting[|waiting| - 1] != response.id
      requires waiting[|waiting| - 1] !in buffered
      ensures |buffered| + 2 <= |waiting| + |abandoned|
    {
      forall q | q in buffered.Keys + {response.id} ensures q in waiting[..|waiting| - 1] || q in abandoned {
        OuterOrAbandoned(response, q);
      }
      OpenCount(waiting[..|waiting| - 1], abandoned, buffered.Keys + {response.id});
      assert |buffered.Keys + {response.id}| == |buffered| + 1;
    }

    /** Buffer the response in hand for an outer request, unless the buffer is full. */
    method Keep(response: Response) returns (ok: bool)
      requires InHand(response) && waiting != [] && waiting[|waiting| - 1] != response.id
      requires waiting[|waiting| - 1] !in buffered
      modifies `buffered, `lost
      ensures Valid() && (!ok ==> peak > MAX_BUFFERED_RESPONSES + 1)
    {
      BufferFits(response);
      if |buffered| >= MAX_BUFFERED_RESPONSES {
        lost := lost + {response.id};
        ok := false;
      } else {
        buffered := buffered[response.id := response];
        ok := true;
      }
    }

    /** Take the innermost request's response out of the buffer. */
    method Take(id: RequestId) returns (response: Response)
      requires Valid() && waiting != [] && id == waiting[|waiting| - 1] && id in buffered
      modifies `buffered, `returned, `waiting
      ensures Valid() && waiting == old(waiting)[..|old(waiting)| - 1]
      ensures response.id == id && returned == old(returned)[id := response]
    {
      response := buffered[id];
      assert id in received;
      buffered := buffered - {id};
      Return(response);
    }

    /**
     The wait for `id` is over with `r`: returned to its request, or given up. It is given up only for an
     overflowing buffer, an error that escaped a handler since `before`, or the end of the connection when
     no response to `id` is at hand.
     */
    ghost predicate Settled(id: RequestId, r: Result<Response, Failure>, before: nat)
      reads `received, `returned, `abandoned, `lost, `remaining, `peak, `escapes
    {
      match r
      case Ok(response) => response.id == id && id in returned && returned[id] == response
      case Err(Closed) => id in abandoned && remaining == 0 && (id in received ==> id in lost)
      case Err(Overflow) => id in abandoned && peak > MAX_BUFFERED_RESPONSES + 1
      case Err(Escaped) => id in abandoned && escapes > before
    }

    /** The request got what the peer sent it; only a peer that closed without answering leaves it without. */
    ghost predicate Answered(id: RequestId, r: Result<Response, Failure>)
      reads `received, `returned, `remaining
    {
      match r
      case Ok(response) => id in received && response == received[id] && id in returned
      case Err(failure) => failure.Closed? && remaining == 0 && id !in received
    }

    lemma {:induction false} SettledIsAnswered(id: RequestId, r: Result<Response, Failure>, before: nat)
      requires Valid() && Settled(id, r, before) && escapes == before && peak <= MAX_BUFFERED_RESPONSES + 1
      ensures Answered(id, r)
    {
    }

    /** A response that has just arrived: for this request, or to be buffered for an outer one. */
    method Place(id: RequestId, response: Response) returns (settled: Option<Result<Response, Failure>>)
      requires InHand(response) && waiting != [] && id == waiting[|waiting| - 1] && id !in buffered
      modifies this
      ensures Valid() && Continues() && remaining == old(remaining)
      ensures waiting == if settled.Some? then old(waiting)[..|old(waiting)| - 1] else old(waiting)
      ensures settled.Some? ==> Settled(id, settled.value, old(escapes))
    {
      if response.id == id {
        Return(response);
        return Some(Ok(response));
      }
      var ok := Keep(response);
      if ok {
        return None;
      }
      Abandon();
      settled := Some(Err(Overflow));
    }

    /** The next message, for a wait with nothing in the buffer. */
    method Poll(id: RequestId) returns (settled: Option<Result<Response, Failure>>)
      requires Valid() && waiting != [] && id == waiting[|waiting| - 1] && id !in buffered
      modifies this
      ensures Valid() && Continues()
      ensures waiting == if settled.Some? then old(waiting)[..|old(waiting)| - 1] else old(waiting)
      ensures if settled.Some? then Settled(id, settled.value, old(escapes)) else remaining < old(remaining)
      decreases remaining, 0
    {
      var m := Receive();
      if m.None? {
        Unanswered(id);
        Abandon();
        return Some(Err(Closed));
      }
      match m.value {
        case Answer(response) =>
          settled := Place(id, response);
        case ServerMessage(nested) =>
          settled := Serve(id, nested);
      }
    }

    /** One turn of the wait: the buffer first, then the next message. */
    method Turn(id: RequestId) returns (settled: Option<Result<Response, Failure>>)
      requires Valid() && waiting != [] && id == waiting[|waiting| - 1]
      modifies this
      ensures Valid() && Continues()
      ensures waiting == if settled.Some? then old(waiting)[..|old(waiting)| - 1] else old(waiting)
      ensures if settled.Some? then Settled(id, settled.value, old(escapes)) else remaining < old(remaining)
      ensures id in old(buffered) ==> settled == Some(Ok(old(buffered)[id])) && remaining == old(remaining)
      decreases remaining, 1
    {
      if id in buffered {
        var response := Take(id);
        return Some(Ok(response));
      }
      settled := Poll(id);
    }

    /** A wait that found nothing in the buffer has no response to come to it but a lost one. */
    lemma {:induction false} Unanswered(id: RequestId)
      requires Valid() && id in waiting && id !in buffered
      ensures id in received ==> id in lost
      ensures peak <= MAX_BUFFERED_RESPONSES + 1 ==> id !in received
    {
      var i :| 0 <= i < |waiting| && waiting[i] == id;
    }

    /** A server message goes to its handler; an error that escapes ends the wait. */
    method Serve(id: RequestId, nested: nat) returns (settled: Option<Result<Response, Failure>>)
      requires Valid() && waiting != [] && id == waiting[|waiting| - 1]
      modifies this
      ensures Valid() && Continues()
      ensures waiting == if settled.Some? then old(waiting)[..|old(waiting)| - 1] else old(waiting)
      ensures settled.Some? ==> Settled(id, settled.value, old(escapes))
      decreases remaining, 5
    {
      var escaped := Handle(nested);
      if !escaped {
        return None;
      }
      Abandon();
      settled := Some(Err(Escaped));
    }

    method WaitForResponse(id: RequestId) returns (r: Result<Response, Failure>)
      requires Valid() && waiting != [] && id == waiting[|waiting| - 1]
      modifies this
      ensures Valid() && Continues() && waiting == old(waiting)[..|old(waiting)| - 1]
      ensures Settled(id, r, old(escapes))
      ensures id in old(buffered) ==> r == Ok(old(buffered)[id]) && remaining == old(remaining)
      decreases remaining, 2
    {
      var settled := None;
      while settled.None?
        invariant Valid() && Continues()
        invariant waiting == if settled.Some? then old(waiting)[..|old(waiting)| - 1] else old(waiting)
        invariant settled.Some? ==> Settled(id, settled.value, old(escapes))
        invariant id in old(buffered) ==> remaining == old(remaining)
        invariant id in old(buffered) && settled.None? ==> id in buffered && buffered[id] == old(buffered)[id]
        invariant id in old(buffered) && settled.Some? ==> settled == Some(Ok(old(buffered)[id]))
        decreases if settled.None? then 1 else 0, remaining
      {
        settled := Turn(id);
      }
      r := settled.value;
    }

    /** What the buffer holds belongs to requests that are still open. */
    lemma {:induction false} BufferedAreOpen(id: RequestId)
      requires Valid() && id in buffered
      ensures id in waiting || id in abandoned
    {
    }

    /**
     Main result, on hypotheses about handlers and nesting only: when no error ever escaped a handler and at
     most 64 outer requests were ever open, then between requests every response the peer sent has been
     returned to its own request, unchanged, and the buffer is empty; a request without one was still
     unanswered when the peer closed.
     */
    lemma {:induction false} AllReturned()
      requires Valid() && waiting == [] && escapes == 0 && peak <= MAX_BUFFERED_RESPONSES + 1
      ensures received == returned && buffered == map[] && lost == {}
      ensures forall id | 1 <= id < nextId && id !in returned :: remaining == 0 && id !in received
    {
      if buffered != map[] {
        var id :| id in buffered;
        BufferedAreOpen(id);
      }
      assert forall id :: id in received <==> id in returned;
    }

    /** A handler: any number of requests, any of which may fail, and then perhaps an error of its own. */
    method Handle(nested: nat) returns (escaped: bool)
      requires Valid()
      modifies this
      ensures Valid() && Continues() && waiting == old(waiting)
      ensures escaped ==> escapes > old(escapes)
      decreases remaining, 4
    {
      for i := 0 to nested
        invariant Valid() && Continues() && waiting == old(waiting)
      {
        var r := Request();
        if r.Err? {
          escaped := *;
          if escaped {
            escapes := escapes + 1;
            return;
          }
        }
      }
      escaped := *;
      if escaped {
        escapes := escapes + 1;
      }
    }
  }
}
