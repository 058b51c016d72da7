/**
 The push observer's memory of thread statuses: an `OrderedDict` of at most 1000 threads against the
 unbounded memory it stands for.
 */
module StatusObserver {
  import opened Wrappers
  import opened OrderedDicts
  import opened Sequences

  const CAPACITY: nat := 1000

  type ThreadId = string

  datatype Kind = Idle | Active | SystemError | OtherKind
  datatype Flag = WaitingOnApproval | WaitingOnUserInput | OtherFlag
  datatype Status = Status(kind: Kind, flags: set<Flag>)

  /** A thread's status at one moment. */
  type Entry = (ThreadId, Status)

  datatype Alert = InputNeeded(thread: ThreadId) | TurnFinished(thread: ThreadId)

  const IDLE := Status(Idle, {})

  predicate NeedsInput(s: Status) {
    s.flags * {WaitingOnApproval, WaitingOnUserInput} != {}
  }

  /** The notification for a change from `previous` to `status`, if any. */
  function Edge(thread: ThreadId, previous: Status, status: Status): Option<Alert> {
    if NeedsInput(status) && !NeedsInput(previous) then Some(InputNeeded(thread))
    else if previous.kind.Active? && (status.kind.Idle? || status.kind.SystemError?) then Some(TurnFinished(thread))
    else None
  }

  function OrIdle(s: Option<Status>): Status {
    if s.Some? then s.value else IDLE
  }

  // ---------- the unbounded reference ----------

  /** The last status `thread` had in a history. */
  function LastStatus(history: seq<Entry>, thread: ThreadId): Option<Status> {
    if history == [] then None
    else if history[|history| - 1].0 == thread then Some(history[|history| - 1].1)
    else LastStatus(history[..|history| - 1], thread)
  }

  /** The distinct other threads that changed since `thread` last did; all of them if it never did. */
  function OthersSince(history: seq<Entry>, thread: ThreadId): set<ThreadId> {
    if history == [] || history[|history| - 1].0 == thread then {}
    else OthersSince(history[..|history| - 1], thread) + {history[|history| - 1].0}
  }

  // ---------- the bounded memory ----------

  /** `states.pop(t); states[t] = s`, and then the oldest entries go while there are too many. */
  function Remember(states: seq<Entry>, e: Entry, capacity: nat): seq<Entry> {
    Newest(Remove(states, e.0) + [e], capacity)
  }

  function Newest(states: seq<Entry>, capacity: nat): seq<Entry> {
    if |states| > capacity then states[|states| - capacity..] else states
  }

  /** The memory after a whole history. */
  function Memory(history: seq<Entry>, capacity: nat): seq<Entry> {
    if history == [] then []
    else Remember(Memory(history[..|history| - 1], capacity), history[|history| - 1], capacity)
  }

  /** Every thread once, by last change: the memory with room for all. */
  ghost function Recency(history: seq<Entry>): (r: seq<Entry>)
  {
    if history == [] then []
    else Remove(Recency(history[..|history| - 1]), history[|history| - 1].0) + [history[|history| - 1]]
  }

  lemma {:induction false} MovedDistinct(all: seq<Entry>, e: Entry)
    requires Distinct(all)
    ensures Distinct(Remove(all, e.0) + [e])
  {
    RemoveDistinct(all, e.0);
    DistinctConcat(Remove(all, e.0), [e]);
  }

  lemma {:induction false} RecencyDistinct(history: seq<Entry>)
    ensures Distinct(Recency(history))
  {
    if history != [] {
      RecencyDistinct(history[..|history| - 1]);
      MovedDistinct(Recency(history[..|history| - 1]), history[|history| - 1]);
    }
  }

  lemma {:induction false} NewestOfLong(front: seq<Entry>, back: seq<Entry>, capacity: nat)
    requires |back| >= capacity
    ensures Newest(front + back, capacity) == Newest(back, capacity)
  {
    assert (front + back)[|front| + |back| - capacity..] == back[|back| - capacity..];
  }

  lemma {:induction false} MoveFromFront(gone: seq<Entry>, kept: seq<Entry>, e: Entry)
    requires e.0 in Keys(gone) && e.0 !in Keys(kept)
    ensures Remove(gone + kept, e.0) + [e] == Remove(gone, e.0) + (Remove(kept, e.0) + [e])
  {
    RemoveFromFront(gone, kept, e.0);
    Assoc(Remove(gone, e.0), kept, [e]);
  }

  lemma {:induction false} MoveFromBack(gone: seq<Entry>, kept: seq<Entry>, e: Entry)
    requires e.0 !in Keys(gone)
    ensures Remove(gone + kept, e.0) + [e] == gone + (Remove(kept, e.0) + [e])
  {
    RemoveFromBack(gone, kept, e.0);
    Assoc(gone, Remove(kept, e.0), [e]);
  }

  /** The same of a memory cut in two. */
  lemma {:induction false} RememberBehind(gone: seq<Entry>, kept: seq<Entry>, e: Entry, capacity: nat)
    requires |kept| == capacity && (e.0 in Keys(gone) ==> e.0 !in Keys(kept))
    ensures Remember(kept, e, capacity) == Newest(Remove(gone + kept, e.0) + [e], capacity)
  {
    var moved := Remove(kept, e.0) + [e];
    if e.0 in Keys(gone) {
      MoveFromFront(gone, kept, e);
      NewestOfLong(Remove(gone, e.0), moved, capacity);
    } else {
      MoveFromBack(gone, kept, e);
      NewestOfLong(gone, moved, capacity);
    }
  }

  /** Moving an entry to the end commutes with cutting to the newest entries. */
  lemma {:induction false} RememberIsNewest(all: seq<Entry>, e: Entry, capacity: nat)
    requires Distinct(all) && capacity > 0
    ensures Remember(Newest(all, capacity), e, capacity) == Newest(Remove(all, e.0) + [e], capacity)
  {
    if |all| > capacity {
      var cut := |all| - capacity;
      Split(all, cut);
      DistinctConcat(all[..cut], all[cut..]);
      RememberBehind(all[..cut], all[cut..], e, capacity);
    }
  }

  lemma {:induction false} MemoryIsNewest(history: seq<Entry>, capacity: nat)
    requires capacity > 0
    ensures Memory(history, capacity) == Newest(Recency(history), capacity)
  {
    if history != [] {
      MemoryIsNewest(history[..|history| - 1], capacity);
      RecencyDistinct(history[..|history| - 1]);
      RememberIsNewest(Recency(history[..|history| - 1]), history[|history| - 1], capacity);
    }
  }

  /** Where a thread stands in the recency order, and what stands behind it. */
  lemma {:induction false} RecencyPosition(history: seq<Entry>, thread: ThreadId)
    ensures var r := Recency(history);
            && Get(r, thread) == LastStatus(history, thread)
            && (thread in Keys(r) ==> OthersSince(history, thread) == Keys(Behind(r, thread)))
  {
    if history != [] {
      var past, e := history[..|history| - 1], history[|history| - 1];
      RecencyPosition(past, thread);
      RecencyDistinct(past);
      MoveToEnd(Recency(past), e, thread);
    }
  }

  /** Moving an entry to the end: what a thread's status is, and what stands behind it. */
  lemma {:induction false} MoveToEnd(q: seq<Entry>, e: Entry, thread: ThreadId)
    requires Distinct(q)
    ensures var r := Remove(q, e.0) + [e];
            && Get(r, thread) == (if e.0 == thread then Some(e.1) else Get(q, thread))
            && (e.0 == thread ==> Behind(r, thread) == [])
            && (e.0 != thread && thread in Keys(q) ==> Keys(Behind(r, thread)) == Keys(Behind(q, thread)) + {e.0})
  {
    var m := Remove(q, e.0);
    RemoveDistinct(q, e.0);
    GetRemove(q, e.0, thread);
    GetConcat(m, [e], thread);
    BehindConcat(m, [e], thread);
    if e.0 != thread {
      BehindRemove(q, e.0, thread);
      BehindDistinct(q, thread);
      RemoveDistinct(Behind(q, thread), e.0);
      KeysConcat(Remove(Behind(q, thread), e.0), [e]);
    }
  }

  /** Cutting to the newest entries keeps exactly the keys with few entries behind them. */
  lemma {:induction false} NewestKeeps(r: seq<Entry>, thread: ThreadId, capacity: nat)
    requires Distinct(r)
    ensures Get(Newest(r, capacity), thread)
            == if |Behind(r, thread)| < capacity then Get(r, thread) else None
  {
    if |r| > capacity {
      var gone, kept := r[..|r| - capacity], r[|r| - capacity..];
      assert r == gone + kept;
      DistinctConcat(gone, kept);
      GetConcat(gone, kept, thread);
      BehindConcat(gone, kept, thread);
      BehindShort(kept, thread);
    } else {
      BehindShort(r, thread);
    }
  }

  lemma {:induction false} BehindShort(r: seq<Entry>, thread: ThreadId)
    ensures thread in Keys(r) ==> |Behind(r, thread)| < |r|
    ensures thread !in Keys(r) ==> Behind(r, thread) == []
  {
    if r != [] && r[0].0 != thread {
      BehindShort(r[1..], thread);
    }
  }

  /**
   The bounded memory remembers a thread exactly when it has a last status and fewer than `capacity`
   other threads have changed since; and then it remembers that status.
   */
  lemma {:induction false} RemembersExactly(history: seq<Entry>, thread: ThreadId, capacity: nat)
    requires capacity > 0
    ensures Get(Memory(history, capacity), thread)
            == if |OthersSince(history, thread)| < capacity then LastStatus(history, thread) else None
  {
    var r := Recency(history);
    MemoryIsNewest(history, capacity);
    RecencyPosition(history, thread);
    RecencyDistinct(history);
    NewestKeeps(r, thread, capacity);
    BehindDistinct(r, thread);
    KeysCount(Behind(r, thread));
  }

  // ---------- notifications ----------

  /** What an observer with room for `capacity` threads announces for the `i`-th event. */
  function AlertAt(history: seq<Entry>, events: seq<Entry>, capacity: nat, i: nat): Option<Alert>
    requires i < |events|
  {
    var e := events[i];
    Edge(e.0, OrIdle(Get(Memory(history + events[..i], capacity), e.0)), e.1)
  }

  function Alerts(history: seq<Entry>, events: seq<Entry>, capacity: nat): seq<Option<Alert>> {
    seq(|events|, i requires 0 <= i < |events| => AlertAt(history, events, capacity, i))
  }

  /** What an observer that forgets nothing announces for the `i`-th event. */
  function IdealAlert(history: seq<Entry>, events: seq<Entry>, i: nat): Option<Alert>
    requires i < |events|
  {
    Edge(events[i].0, OrIdle(LastStatus(history + events[..i], events[i].0)), events[i].1)
  }

  /**
   Main result: over any run, each event is announced exactly as an unbounded memory would announce
   it, or, if `capacity` other threads have changed since its own last change, as if it had been idle.
   */
  lemma {:induction false} AlertsExactly(history: seq<Entry>, events: seq<Entry>, capacity: nat, i: nat)
    requires capacity > 0 && i < |events|
    ensures var e, past := events[i], history + events[..i];
            Alerts(history, events, capacity)[i]
            == if |OthersSince(past, e.0)| < capacity then IdealAlert(history, events, i)
               else Edge(e.0, IDLE, e.1)
  {
    RemembersExactly(history + events[..i], events[i].0, capacity);
  }

  /** One of the two flags that wait for the user. */
  predicate WaitsForUser(flags: set<Flag>) {
    WaitingOnApproval in flags || WaitingOnUserInput in flags
  }

  /** The status a thread last had, or what a thread without one counts as. */
  function Before(past: seq<Entry>, thread: ThreadId): Status {
    var last := LastStatus(past, thread);
    if last.None? then Status(Idle, {}) else last.value
  }

  /**
   Main result: while fewer than `capacity` other threads have changed since, an event announces that input is
   needed exactly when it brings one of the waiting flags and the thread had none, and that a turn has finished
   exactly when it does not do that but takes the thread from active to idle or to a system error.
   */
  lemma {:induction false} AlertsAsPromised(history: seq<Entry>, events: seq<Entry>, capacity: nat, i: nat)
    requires capacity > 0 && i < |events|
    requires |OthersSince(history + events[..i], events[i].0)| < capacity
    ensures var thread, status, last := events[i].0, events[i].1, Before(history + events[..i], events[i].0);
            var asks := WaitsForUser(status.flags) && !WaitsForUser(last.flags);
            var ends := last.kind == Active && (status.kind == Idle || status.kind == SystemError);
            && (Alerts(history, events, capacity)[i] == Some(InputNeeded(thread)) <==> asks)
            && (Alerts(history, events, capacity)[i] == Some(TurnFinished(thread)) <==> !asks && ends)
            && (Alerts(history, events, capacity)[i] == None <==> !asks && !ends)
  {
    AlertsExactly(history, events, capacity, i);
    FlagsMeet(events[i].1.flags);
    FlagsMeet(Before(history + events[..i], events[i].0).flags);
  }

  /** After that many others, a thread counts as idle: only a call for input is announced. */
  lemma {:induction false} AlertsOnceForgotten(history: seq<Entry>, events: seq<Entry>, capacity: nat, i: nat)
    requires capacity > 0 && i < |events|
    requires |OthersSince(history + events[..i], events[i].0)| >= capacity
    ensures Alerts(history, events, capacity)[i]
         == if WaitsForUser(events[i].1.flags) then Some(InputNeeded(events[i].0)) else None
  {
    AlertsExactly(history, events, capacity, i);
    FlagsMeet(events[i].1.flags);
  }

  lemma {:induction false} FlagsMeet(flags: set<Flag>)
    ensures WaitsForUser(flags) <==> flags * {WaitingOnApproval, WaitingOnUserInput} != {}
  {
    if WaitingOnApproval in flags {
      assert WaitingOnApproval in flags * {WaitingOnApproval, WaitingOnUserInput};
    }
    if WaitingOnUserInput in flags {
      assert WaitingOnUserInput in flags * {WaitingOnApproval, WaitingOnUserInput};
    }
  }

  /** The bound is sharp: after `capacity` other threads a finished turn goes unannounced. */
  lemma {:induction false} ForgottenTurn(thread: ThreadId, others: seq<Entry>, capacity: nat)
    requires capacity > 0 && |others| == capacity && Distinct(others) && thread !in Keys(others)
    ensures var past, done := [(thread, Status(Active, {}))] + others, [(thread, IDLE)];
            && IdealAlert(past, done, 0) == Some(TurnFinished(thread))
            && Alerts(past, done, capacity) == [None]
  {
    var past := [(thread, Status(Active, {}))] + others;
    var done := [(thread, IDLE)];
    OthersOf(thread, others);
    KeysCount(others);
    AlertsExactly(past, done, capacity, 0);
    assert past + done[..0] == past;
  }

  lemma {:induction false} OthersOf(thread: ThreadId, others: seq<Entry>)
    requires thread !in Keys(others)
    ensures var past := [(thread, Status(Active, {}))] + others;
            OthersSince(past, thread) == Keys(others) && LastStatus(past, thread) == Some(Status(Active, {}))
    decreases |others|
  {
    var past := [(thread, Status(Active, {}))] + others;
    if others != [] {
      var front, last := others[..|others| - 1], others[|others| - 1];
      assert others == front + [last];
      KeysConcat(front, [last]);
      OthersOf(thread, front);
      assert past[..|past| - 1] == [(thread, Status(Active, {}))] + front;
    }
  }

  /** The observer loop of one connection. */
  class Observer {
    var states: seq<Entry>
    ghost var history: seq<Entry>

    ghost predicate Valid()
      reads this
    {
      states == Memory(history, CAPACITY)
    }

    /**
     A new connection starts from the listed active threads: the first 1000 elements of the list,
     malformed ones skipped, a repeated id keeping its place and taking its last status.
     */
    constructor (listed: seq<Option<Entry>>)
      ensures Valid() && history == Baseline(listed)
    {
      history := Baseline(listed);
      states := Baseline(listed);
      BaselineFits(listed);
    }

    /** Take one status change into the memory; returns the status the thread had. */
    method Change(thread: ThreadId, status: Status) returns (previous: Status)
      requires Valid()
      modifies this
      ensures Valid() && history == old(history) + [(thread, status)]
      ensures previous == OrIdle(Get(Memory(old(history), CAPACITY), thread))
    {
      previous := OrIdle(Get(states, thread));
      states := Remove(states, thread) + [(thread, status)];
      ghost var grown := states;
      while |states| > CAPACITY
        invariant history == old(history)
        invariant Newest(states, CAPACITY) == Newest(grown, CAPACITY)
      {
        states := states[1..];
      }
      ghost var past := history;
      history := history + [(thread, status)];
      assert history[..|history| - 1] == past;
    }

    /** One change: what it announces. */
    method Announce(e: Entry) returns (alert: Option<Alert>)
      requires Valid()
      modifies this
      ensures Valid() && history == old(history) + [e]
      ensures alert == Edge(e.0, OrIdle(Get(Memory(old(history), CAPACITY), e.0)), e.1)
    {
      var previous := Change(e.0, e.1);
      alert := Edge(e.0, previous, e.1);
    }

    /** Drain the queued status changes, announcing each edge. */
    method Process(events: seq<Entry>) returns (alerts: seq<Option<Alert>>)
      requires Valid()
      modifies this
      ensures Valid() && history == old(history) + events
      ensures alerts == Alerts(old(history), events, CAPACITY)
    {
      alerts := [];
      ghost var past := history;
      Whole(past);
      Whole(events);
      for i := 0 to |events|
        invariant Valid() && history == past + events[..i]
        invariant AlertsUpTo(alerts, past, events, i)
      {
        ghost var before := history;
        var alert := Announce(events[i]);
        AlertsGrow(alerts, past, events, i, before, alert);
        alerts := alerts + [alert];
      }
      AlertsWhole(alerts, past, events);
    }
  }

  lemma {:induction false} AlertsGrow(alerts: seq<Option<Alert>>, past: seq<Entry>, events: seq<Entry>, n: nat,
                                      history: seq<Entry>, alert: Option<Alert>)
    requires AlertsUpTo(alerts, past, events, n) && n < |events| && history == past + events[..n]
    requires alert == Edge(events[n].0, OrIdle(Get(Memory(history, CAPACITY), events[n].0)), events[n].1)
    ensures AlertsUpTo(alerts + [alert], past, events, n + 1) && history + [events[n]] == past + events[..n + 1]
  {
    TakeMore(events, n);
    Assoc(past, events[..n], [events[n]]);
  }

  lemma {:induction false} AlertsWhole(alerts: seq<Option<Alert>>, past: seq<Entry>, events: seq<Entry>)
    requires AlertsUpTo(alerts, past, events, |events|)
    ensures alerts == Alerts(past, events, CAPACITY) && past + events[..|events|] == past + events
  {
    Whole(events);
  }

  ghost predicate AlertsUpTo(alerts: seq<Option<Alert>>, past: seq<Entry>, events: seq<Entry>, n: nat) {
    && |alerts| == n <= |events|
    && forall j | 0 <= j < n :: alerts[j] == AlertAt(past, events, CAPACITY, j)
  }

  function Baseline(listed: seq<Option<Entry>>): (d: seq<Entry>)
    ensures |d| <= CAPACITY
  {
    Listed(if |listed| > CAPACITY then listed[..CAPACITY] else listed)
  }

  function Listed(listed: seq<Option<Entry>>): (d: seq<Entry>)
    ensures |d| <= |listed|
  {
    if listed == [] then []
    else
      var d, last := Listed(listed[..|listed| - 1]), listed[|listed| - 1];
      if last.Some? then Put(d, last.value.0, last.value.1) else d
  }

  /** The well-formed elements of a list. */
  function WellFormed(listed: seq<Option<Entry>>): seq<Entry> {
    if listed == [] then []
    else
      var front, last := WellFormed(listed[..|listed| - 1]), listed[|listed| - 1];
      if last.Some? then front + [last.value] else front
  }

  /** The baseline has exactly the threads of the first 1000 elements, each with its last status there. */
  lemma {:induction false} BaselineExactly(listed: seq<Option<Entry>>, thread: ThreadId)
    ensures Get(Baseline(listed), thread)
         == LastStatus(WellFormed(if |listed| > 1000 then listed[..1000] else listed), thread)
  {
    ListedExactly(if |listed| > CAPACITY then listed[..CAPACITY] else listed, thread);
  }

  lemma {:induction false} ListedExactly(listed: seq<Option<Entry>>, thread: ThreadId)
    ensures Get(Listed(listed), thread) == LastStatus(WellFormed(listed), thread)
  {
    if listed != [] {
      var front, last := listed[..|listed| - 1], listed[|listed| - 1];
      ListedExactly(front, thread);
      if last.Some? {
        GetPut(Listed(front), last.value.0, last.value.1, thread);
        Snoc(WellFormed(front), last.value);
      }
    }
  }

  lemma {:induction false} ListedDistinct(listed: seq<Option<Entry>>)
    ensures Distinct(Listed(listed))
  {
    if listed != [] {
      var last := listed[|listed| - 1];
      ListedDistinct(listed[..|listed| - 1]);
      if last.Some? {
        PutDistinct(Listed(listed[..|listed| - 1]), last.value.0, last.value.1);
      }
    }
  }

  /** The baseline is what the observer would remember had its entries just changed in that order. */
  lemma {:induction false} BaselineFits(listed: seq<Option<Entry>>)
    ensures Memory(Baseline(listed), CAPACITY) == Baseline(listed)
  {
    ListedDistinct(if |listed| > CAPACITY then listed[..CAPACITY] else listed);
    RecencyOfDistinct(Baseline(listed));
    MemoryIsNewest(Baseline(listed), CAPACITY);
  }

  lemma {:induction false} RecencyOfDistinct(d: seq<Entry>)
    requires Distinct(d)
    ensures Recency(d) == d
    decreases |d|
  {
    if d != [] {
      var front, last := d[..|d| - 1], d[|d| - 1];
      assert d == front + [last];
      DistinctConcat(front, [last]);
      RecencyOfDistinct(front);
    }
  }
}
