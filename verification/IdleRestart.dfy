/**
 Restarting the broker once it is idle, within one serving epoch: workers admitted through the gate, four
 components that hold work, and the waiter thread that closes the gate, looks at one thing after another
 and then either commits to the restart or opens the gate again.
 */
module IdleRestart {

  // ---------- the admission gate ----------

  datatype Gate = Gate(accepting: bool, inFlight: nat)

  /** The gate; each method is one critical section. */
  class WorkAdmissionGate {
    var accepting: bool
    var inFlight: nat

    ghost function State(): Gate
      reads this
    {
      Gate(accepting, inFlight)
    }

    constructor ()
      ensures State() == Gate(true, 0)
    {
      accepting, inFlight := true, 0;
    }

    /** Entering an `admit` block; refused while the gate is closed. */
    method Enter() returns (admitted: bool)
      modifies this
      ensures admitted == old(accepting)
      ensures State() == if admitted then old(State()).(inFlight := old(inFlight) + 1) else old(State())
    {
      admitted := accepting;
      if accepting {
        inFlight := inFlight + 1;
      }
    }

    /** Leaving it, normally or by an exception. */
    method Exit()
      requires inFlight > 0
      modifies this
      ensures State() == old(State()).(inFlight := old(inFlight) - 1)
    {
      inFlight := inFlight - 1;
    }

    method Close()
      modifies this
      ensures State() == Gate(false, old(inFlight))
    {
      accepting := false;
    }

    method Open()
      modifies this
      ensures State() == Gate(true, old(inFlight))
    {
      accepting := true;
    }
  }

  // ---------- the epoch ----------

  type WorkerId = nat

  datatype Component = Operations | PeerSessions | HostGui | Messages

  /** A piece of work some component is busy with. */
  datatype Work = Work(component: Component, id: nat)

  const COMPONENTS: nat := 4

  /** The order in which `_has_active_work` looks at the components. */
  function Rank(c: Component): (k: nat)
    ensures k < COMPONENTS
  {
    match c
    case Operations => 0
    case PeerSessions => 1
    case HostGui => 2
    case Messages => 3
  }

  datatype Waiter =
    | None              // no waiter thread
    | Waiting           // polling, gate open
    | Counting          // gate closed, about to read the in-flight count
    | Looking(k: nat)   // about to ask the k-th component
    | Deciding(busy: bool)
    | Opening           // has checked the flags, about to open the gate again
    | Committing        // has checked the flags, about to set the shutdown flag

  datatype World = World(gate: Gate, inside: set<WorkerId>, active: set<Work>, shutdown: bool, requested: bool,
                         serving: bool, waiter: Waiter, committed: bool)

  datatype Step =
    | Enter(worker: WorkerId)
    | Activate(worker: WorkerId, work: Work)   // work becomes visible while its worker is inside
    | Exit(worker: WorkerId)
    | Finish(work: Work)
    | RequestRestart
    | Clear          // the three parts of request_shutdown, which takes no lifecycle lock
    | Shut
    | SetShutdown
    | StopServing
    | WaiterStep(fails: bool)   // the waiter's next atomic step; a look at the components may raise

  /** May a restart go ahead: requested, serving, and no shutdown under way. */
  predicate MayRestart(w: World) {
    w.requested && w.serving && !w.shutdown
  }

  predicate Busy(w: World, k: nat) {
    exists work :: work in w.active && Rank(work.component) == k
  }

  function WaiterMoves(w: World, fails: bool): World {
    match w.waiter
    case None => w
    case Waiting =>
      if MayRestart(w) then w.(gate := w.gate.(accepting := false), waiter := Counting) else w.(waiter := None)
    case Counting => w.(waiter := if w.gate.inFlight > 0 then Deciding(true) else Looking(0))
    case Looking(k) =>
      if fails then w.(waiter := if MayRestart(w) then Opening else None)
      else if k >= COMPONENTS then w.(waiter := Deciding(false))
      else if Busy(w, k) then w.(waiter := Deciding(true))
      else w.(waiter := Looking(k + 1))
    case Deciding(busy) =>
      if !MayRestart(w) then w.(waiter := None)
      else if busy then w.(waiter := Opening)
      else w.(waiter := Committing)
    case Opening => w.(gate := w.gate.(accepting := true), waiter := Waiting)
    case Committing => w.(shutdown := true, committed := true, waiter := None)
  }

  ghost predicate Next(w: World, step: Step, v: World) {
    match step
    case Enter(x) =>
      x !in w.inside
      && v == if w.gate.accepting
              then w.(gate := w.gate.(inFlight := w.gate.inFlight + 1), inside := w.inside + {x}) else w
    case Activate(x, work) => x in w.inside && v == w.(active := w.active + {work})
    case Exit(x) =>
      x in w.inside && w.gate.inFlight > 0
      && v == w.(gate := w.gate.(inFlight := w.gate.inFlight - 1), inside := w.inside - {x})
    case Finish(work) => v == w.(active := w.active - {work})
    case RequestRestart =>
      v == if w.serving && !w.shutdown
           then w.(requested := true, waiter := if w.waiter.None? then Waiting else w.waiter) else w
    case Clear => v == w.(requested := false)
    case Shut => v == w.(gate := w.gate.(accepting := false))
    case SetShutdown => v == w.(shutdown := true)
    case StopServing => v == w.(serving := false)
    case WaiterStep(fails) => v == WaiterMoves(w, fails)
  }

  /** The gate has just been opened by `start`; no waiter of an earlier epoch is left. */
  ghost predicate Initial(w: World) {
    w == World(Gate(true, 0), {}, {}, false, false, true, None, false)
  }

  ghost predicate Steps(ws: seq<World>, steps: seq<Step>) {
    |ws| == |steps| + 1 && forall i | 0 <= i < |steps| :: Next(ws[i], steps[i], ws[i + 1])
  }

  ghost predicate Run(ws: seq<World>, steps: seq<Step>) {
    Steps(ws, steps) && Initial(ws[0])
  }

  // ---------- safety of the commitment ----------

  /** No work of the first `k` components, and nobody inside to add any. */
  ghost predicate QuietUpTo(w: World, k: nat) {
    && !w.gate.accepting && w.inside == {}
    && forall work | work in w.active :: k <= Rank(work.component)
  }

  ghost predicate Quiet(w: World) {
    !w.gate.accepting && w.inside == {} && w.active == {}
  }

  ghost predicate Invariant(w: World) {
    && w.gate.inFlight == |w.inside|
    && (match w.waiter
        case Counting => !w.gate.accepting
        case Looking(k) => QuietUpTo(w, k)
        case Deciding(busy) => !w.gate.accepting && (!busy ==> Quiet(w))
        case Committing => Quiet(w)
        case _ => true)
    && (w.committed ==> w.shutdown && Quiet(w) && w.waiter.None?)
  }

  lemma {:induction false} WaiterKeeps(w: World, fails: bool)
    requires Invariant(w)
    ensures Invariant(WaiterMoves(w, fails))
  {
    match w.waiter {
      case Counting => assert w.gate.inFlight == 0 ==> w.inside == {};
      case Looking(k) => assert k >= COMPONENTS ==> w.active == {};
      case _ =>
    }
  }

  lemma {:induction false} NextKeeps(w: World, step: Step, v: World)
    requires Invariant(w) && Next(w, step, v)
    ensures Invariant(v)
  {
    if step.WaiterStep? {
      WaiterKeeps(w, step.fails);
    }
  }

  lemma {:induction false} RunKeeps(ws: seq<World>, steps: seq<Step>, i: nat)
    requires Run(ws, steps) && i < |ws|
    ensures Invariant(ws[i])
  {
    if i > 0 {
      RunKeeps(ws, steps, i - 1);
      NextKeeps(ws[i - 1], steps[i - 1], ws[i]);
    }
  }

  lemma {:induction false} CommittedStays(ws: seq<World>, steps: seq<Step>, i: nat, j: nat)
    requires Steps(ws, steps) && i <= j < |ws| && ws[i].committed
    ensures ws[j].committed
    decreases j
  {
    if i < j {
      CommittedStays(ws, steps, i, j - 1);
    }
  }

  /**
   Main result: for every interleaving, when the waiter sets the shutdown flag for a restart no work is in
   flight or active in any component, and none can start again in this epoch.
   */
  lemma {:induction false} RestartOnlyWhenIdle(ws: seq<World>, steps: seq<Step>, i: nat, j: nat)
    requires Run(ws, steps) && i <= j < |ws| && ws[i].committed
    ensures Quiet(ws[i]) && ws[i].gate.inFlight == 0
    ensures Quiet(ws[j]) && ws[j].shutdown && ws[j].gate.inFlight == 0
  {
    CommittedStays(ws, steps, i, j);
    RunKeeps(ws, steps, i);
    RunKeeps(ws, steps, j);
  }

  // ---------- what the waiter comes to ----------

  /** A restart is wanted and the waiter polls. */
  ghost predicate Wanted(w: World) {
    w.waiter.Waiting? && w.requested && w.serving && !w.shutdown
  }

  /** `n` steps of the waiter in a row, none of which fails. */
  function Waits(w: World, n: nat): World
    decreases n
  {
    if n == 0 then w else Waits(WaiterMoves(w, false), n - 1)
  }

  /** The waiter passes over every component that is not busy. */
  lemma {:induction false} LooksPast(w: World, from: nat, to: nat, n: nat)
    requires w.waiter == Looking(from) && from <= to <= COMPONENTS && to - from <= n
    requires forall work | work in w.active :: to <= Rank(work.component)
    ensures Waits(w, n) == Waits(w.(waiter := Looking(to)), n - (to - from))
    decreases n
  {
    if from < to {
      PassesOn(w, from);
      LooksPast(w.(waiter := Looking(from + 1)), from + 1, to, n - 1);
    } else {
      assert w == w.(waiter := Looking(to));
    }
  }

  lemma {:induction false} PassesOn(w: World, k: nat)
    requires w.waiter == Looking(k) && k < COMPONENTS && forall work | work in w.active :: k < Rank(work.component)
    ensures WaiterMoves(w, false) == w.(waiter := Looking(k + 1))
  {
  }

  /** Nobody inside: two steps close the gate and bring the waiter to its first look. */
  lemma {:induction false} Closes(w: World, n: nat)
    requires Wanted(w) && w.gate.inFlight == 0 && n >= 2
    ensures Waits(w, n) == Waits(w.(gate := Gate(false, 0), waiter := Looking(0)), n - 2)
  {
    assert Waits(w, n) == Waits(w.(gate := Gate(false, 0), waiter := Counting), n - 1);
  }

  /**
   Main result: an idle broker restarts. If a restart is wanted, nobody is inside and nothing active, nine steps
   of the waiter close the gate, look at everything and set the shutdown flag.
   */
  lemma {:induction false} IdleRestarts(w: World)
    requires Wanted(w) && w.gate.inFlight == 0 && w.active == {}
    ensures Waits(w, 9) == w.(gate := Gate(false, 0), shutdown := true, waiter := None, committed := true)
  {
    var looking := w.(gate := Gate(false, 0), waiter := Looking(0));
    Closes(w, 9);
    LooksPast(looking, 0, 4, 7);
    assert Waits(looking.(waiter := Looking(4)), 3) == Waits(looking.(waiter := Deciding(false)), 2)
        == Waits(looking.(waiter := Committing), 1);
  }

  /** Work in flight sends the waiter back to polling, with the gate open again. */
  lemma {:induction false} InFlightGoesOn(w: World)
    requires Wanted(w) && w.gate.inFlight > 0
    ensures Waits(w, 4) == w.(gate := Gate(true, w.gate.inFlight))
  {
    var closed := w.(gate := Gate(false, w.gate.inFlight));
    assert Waits(w, 4) == Waits(closed.(waiter := Counting), 3) == Waits(closed.(waiter := Deciding(true)), 2)
        == Waits(closed.(waiter := Opening), 1);
  }

  /** So does a busy component, however late the waiter looks at it. */
  lemma {:induction false} BusyGoesOn(w: World, work: Work)
    requires Wanted(w) && w.gate.inFlight == 0 && work in w.active
    requires forall other | other in w.active :: Rank(work.component) <= Rank(other.component)
    ensures Waits(w, Rank(work.component) + 5) == w.(gate := Gate(true, 0))
  {
    var k := Rank(work.component);
    var looking := w.(gate := Gate(false, 0), waiter := Looking(0));
    Closes(w, k + 5);
    LooksPast(looking, 0, k, k + 3);
    FoundBusy(looking.(waiter := Looking(k)), k, work);
    assert Waits(looking.(waiter := Looking(k)), 3) == Waits(looking.(waiter := Deciding(true)), 2)
        == Waits(looking.(waiter := Opening), 1);
  }

  lemma {:induction false} FoundBusy(w: World, k: nat, work: Work)
    requires w.waiter == Looking(k) && work in w.active && Rank(work.component) == k
    ensures WaiterMoves(w, false) == w.(waiter := Deciding(true))
  {
  }

  /** A look that fails opens the gate again and goes on polling while the restart is wanted. */
  lemma {:induction false} FailedLookGoesOn(w: World, k: nat)
    requires w.waiter == Looking(k) && w.requested && w.serving && !w.shutdown
    ensures WaiterMoves(WaiterMoves(w, true), false) == w.(gate := Gate(true, w.gate.inFlight), waiter := Waiting)
  {
  }

  /** A restart that is no longer wanted ends the waiter, which leaves the gate as it is. */
  lemma {:induction false} UnwantedEnds(w: World, fails: bool)
    requires !(w.requested && w.serving && !w.shutdown)
    requires w.waiter.Waiting? || w.waiter.Deciding? || (w.waiter.Looking? && fails)
    ensures WaiterMoves(w, fails) == w.(waiter := None)
  {
  }

  /** Every run that has come to an idle broker with a restart wanted can go on to that restart. */
  lemma {:induction false} RestartCanFollow(ws: seq<World>, steps: seq<Step>) returns (ws': seq<World>, steps': seq<Step>)
    requires Run(ws, steps) && Wanted(ws[|ws| - 1])
    requires ws[|ws| - 1].gate.inFlight == 0 && ws[|ws| - 1].active == {}
    ensures Run(ws', steps') && ws <= ws' && ws'[|ws'| - 1].committed && ws'[|ws'| - 1].shutdown
  {
    var w := ws[|ws| - 1];
    IdleRestarts(w);
    ws', steps' := WaitAlong(ws, steps, w, 9);
  }

  lemma {:induction false} WaitAlong(ws: seq<World>, steps: seq<Step>, w: World, n: nat)
      returns (ws': seq<World>, steps': seq<Step>)
    requires Run(ws, steps) && ws[|ws| - 1] == w
    ensures Run(ws', steps') && ws <= ws' && ws'[|ws'| - 1] == Waits(w, n)
    decreases n
  {
    ws', steps' := ws, steps;
    if n > 0 {
      var v := WaiterMoves(w, false);
      RunLonger(ws, steps, WaiterStep(false), v);
      ws', steps' := WaitAlong(ws + [v], steps + [WaiterStep(false)], v, n - 1);
    }
  }

  /** Such a run: a request on a new, idle broker. */
  lemma {:induction false} RestartHappens() returns (ws: seq<World>, steps: seq<Step>)
    ensures Run(ws, steps) && ws[|ws| - 1].committed
  {
    var first := World(Gate(true, 0), {}, {}, false, false, true, None, false);
    var wanted := first.(requested := true, waiter := Waiting);
    assert Run([first], []);
    RunLonger([first], [], RequestRestart, wanted);
    ws, steps := RestartCanFollow([first] + [wanted], [] + [RequestRestart]);
  }

  // ---------- a plain shutdown request is weaker ----------

  /** With the shutdown flag set and the gate closed, only a waiter that has already checked can open it. */
  lemma {:induction false} ClosedStays(ws: seq<World>, steps: seq<Step>, i: nat, j: nat)
    requires Steps(ws, steps) && i <= j < |ws|
    requires ws[i].shutdown && !ws[i].gate.accepting && !ws[i].waiter.Opening?
    ensures ws[j].shutdown && !ws[j].gate.accepting && !ws[j].waiter.Opening?
    decreases j
  {
    if i < j {
      ClosedStays(ws, steps, i, j - 1);
    }
  }

  /** From `w` on, some continuation opens the gate. */
  ghost predicate CanReopen(w: World) {
    exists ws: seq<World>, steps: seq<Step>, j: nat ::
      Steps(ws, steps) && j < |ws| && ws[0] == w && ws[j].gate.accepting
  }

  /**
   After a shutdown request has closed the gate and set its flag, the gate can open again in this epoch
   exactly when the waiter stands between its check of the flags and its opening of the gate.
   */
  lemma {:induction false} ReopensExactly(w: World)
    requires w.shutdown && !w.gate.accepting
    ensures CanReopen(w) <==> w.waiter.Opening?
  {
    if w.waiter.Opening? {
      var ws, steps := [w, WaiterMoves(w, false)], [WaiterStep(false)];
      assert Steps(ws, steps) && ws[0] == w && ws[1].gate.accepting;
    } else if CanReopen(w) {
      var ws: seq<World>, steps: seq<Step>, j: nat :|
        Steps(ws, steps) && j < |ws| && ws[0] == w && ws[j].gate.accepting;
      ClosedStays(ws, steps, 0, j);
    }
  }

  lemma {:induction false} RunLonger(ws: seq<World>, steps: seq<Step>, step: Step, v: World)
    requires Run(ws, steps) && Next(ws[|ws| - 1], step, v)
    ensures Run(ws + [v], steps + [step])
  {
  }

  /** That moment is reachable: a worker is admitted after a complete shutdown request. */
  lemma {:induction false} AdmittedAfterShutdown() returns (ws: seq<World>, steps: seq<Step>)
    ensures Run(ws, steps)
    ensures |steps| >= 5 && steps[|steps| - 5..] == [Clear, Shut, SetShutdown, WaiterStep(false), Enter(2)]
    ensures var last := ws[|ws| - 1]; last.shutdown && !last.committed && 2 in last.inside
  {
    var w := World(Gate(true, 0), {}, {}, false, false, true, None, false);
    ws, steps := [w], [];
    ws, steps, w := Then(ws, steps, Enter(1), w.(gate := Gate(true, 1), inside := {1}));
    ws, steps, w := Then(ws, steps, RequestRestart, w.(requested := true, waiter := Waiting));
    ws, steps, w := Then(ws, steps, WaiterStep(false), w.(gate := Gate(false, 1), waiter := Counting));
    ws, steps, w := Then(ws, steps, WaiterStep(false), w.(waiter := Deciding(true)));
    ws, steps, w := Then(ws, steps, WaiterStep(false), w.(waiter := Opening));
    ghost var prelude := steps;
    ws, steps, w := Then(ws, steps, Clear, w.(requested := false));
    ws, steps, w := Then(ws, steps, Shut, w);
    ws, steps, w := Then(ws, steps, SetShutdown, w.(shutdown := true));
    ws, steps, w := Then(ws, steps, WaiterStep(false), w.(gate := Gate(true, 1), waiter := Waiting));
    ws, steps, w := Then(ws, steps, Enter(2), w.(gate := Gate(true, 2), inside := {1, 2}));
    assert steps == prelude + [Clear, Shut, SetShutdown, WaiterStep(false), Enter(2)];
  }

  /** One more step of a run. */
  lemma {:induction false} Then(ws: seq<World>, steps: seq<Step>, step: Step, v: World)
                           returns (ws': seq<World>, steps': seq<Step>, w: World)
    requires Run(ws, steps) && Next(ws[|ws| - 1], step, v)
    ensures Run(ws', steps') && steps' == steps + [step] && ws'[|ws'| - 1] == v && w == v
  {
    RunLonger(ws, steps, step, v);
    ws', steps', w := ws + [v], steps + [step], v;
  }
}
