/**
 Ownership of the daemon's state directory by at most one process: an advisory lock, and a PID file that
 names its owner by process id and a random token. Processes and lock probers start, fail and die at any
 point, and process ids are reused.
 */
module DaemonOwnership {
  import opened Wrappers

  type Pid = nat
  type Token = nat

  datatype PidFile = Absent | Unreadable | Named(pid: Pid, owner: Token)

  /** Where a process stands; the token is drawn when it has the lock. */
  datatype Stage =
    | Outside
    | Probing                    // a status check that took the lock and will drop it
    | Locked(token: Token)       // about to remove whatever PID file there is
    | Cleared(token: Token)      // about to create the file exclusively
    | Created(token: Token)      // the file exists, its content not yet
    | Claimed(token: Token)      // serving
    | Releasing(token: Token)    // stopping, or failing to start: about to read the file
    | Unlinking(token: Token)    // has read its own pid and token
    | Unlocking                  // about to drop the lock

  datatype World = World(stages: map<Pid, Stage>, lock: Option<Pid>, file: PidFile, drawn: set<Token>)

  datatype Action =
    | Spawn
    | Die
    | Acquire(token: Token)
    | Probe
    | EndProbe
    | Remove(works: bool)        // a failed unlink is ignored
    | Create
    | Write
    | Fail                       // any error while starting
    | Stop
    | ReadBack
    | Unlink(works: bool)
    | Unlock

  datatype Step = Step(pid: Pid, action: Action)

  function At(w: World, p: Pid, stage: Stage): World {
    w.(stages := w.stages[p := stage])
  }

  predicate InStart(stage: Stage) {
    stage.Locked? || stage.Cleared? || stage.Created?
  }

  ghost predicate Next(w: World, step: Step, v: World) {
    var p := step.pid;
    if step.action.Spawn? then p !in w.stages && v == At(w, p, Outside)
    else p in w.stages && v == Acted(w, p, step.action) && Enabled(w, p, step.action)
  }

  predicate Enabled(w: World, p: Pid, action: Action)
    requires p in w.stages
  {
    var stage := w.stages[p];
    match action
    case Spawn => false
    case Die => true
    case Acquire(token) => stage.Outside? && w.lock.None? && token !in w.drawn
    case Probe => stage.Outside? && w.lock.None?
    case EndProbe => stage.Probing?
    case Remove(_) => stage.Locked?
    case Create => stage.Cleared?
    case Write => stage.Created?
    case Fail => InStart(stage)
    case Stop => stage.Claimed?
    case ReadBack => stage.Releasing?
    case Unlink(_) => stage.Unlinking?
    case Unlock => stage.Unlocking?
  }

  function Acted(w: World, p: Pid, action: Action): World
    requires p in w.stages
  {
    var stage := w.stages[p];
    match action
    case Spawn => w
    case Die => w.(stages := w.stages - {p}, lock := if w.lock == Some(p) then None else w.lock)
    case Acquire(token) => At(w, p, Locked(token)).(lock := Some(p), drawn := w.drawn + {token})
    case Probe => At(w, p, Probing).(lock := Some(p))
    case EndProbe => At(w, p, Outside).(lock := None)
    case Remove(works) =>
      if stage.Locked? then At(w, p, Cleared(stage.token)).(file := if works then Absent else w.file) else w
    case Create =>
      if !stage.Cleared? then w
      else if w.file.Absent? then At(w, p, Created(stage.token)).(file := Unreadable)
      else At(w, p, Releasing(stage.token))
    case Write =>
      if stage.Created? then At(w, p, Claimed(stage.token)).(file := Named(p, stage.token)) else w
    case Fail => if InStart(stage) then At(w, p, Releasing(stage.token)) else w
    case Stop => if stage.Claimed? then At(w, p, Releasing(stage.token)) else w
    case ReadBack =>
      if !stage.Releasing? then w
      else At(w, p, if w.file == Named(p, stage.token) then Unlinking(stage.token) else Unlocking)
    case Unlink(works) => At(w, p, Unlocking).(file := if works then Absent else w.file)
    case Unlock => At(w, p, Outside).(lock := None)
  }

  ghost predicate Run(ws: seq<World>, steps: seq<Step>) {
    && |ws| == |steps| + 1
    && ws[0].lock.None? && ws[0].stages == map[]
    && (ws[0].file.Named? ==> ws[0].file.owner in ws[0].drawn)   // a stale file of an earlier boot
    && forall i | 0 <= i < |steps| :: Next(ws[i], steps[i], ws[i + 1])
  }

  predicate Holds(w: World, p: Pid) {
    p in w.stages && !w.stages[p].Outside?
  }

  /** The token of a process between drawing it and giving the file up. */
  function TokenOf(stage: Stage): Option<Token> {
    if InStart(stage) || stage.Claimed? || stage.Releasing? || stage.Unlinking? then Some(stage.token) else None
  }

  ghost predicate Invariant(w: World) {
    && (forall p | p in w.stages :: Holds(w, p) <==> w.lock == Some(p))
    && (w.lock.Some? ==> w.lock.value in w.stages)
    && (forall p | p in w.stages && TokenOf(w.stages[p]).Some? :: TokenOf(w.stages[p]).value in w.drawn)
    && (w.file.Named? ==> w.file.owner in w.drawn)
    && (forall p | p in w.stages && (w.stages[p].Claimed? || w.stages[p].Unlinking?) ::
          w.file == Named(p, w.stages[p].token))
    && (forall p | p in w.stages && InStart(w.stages[p]) ::
          w.file.Named? ==> w.file.owner != w.stages[p].token)
  }

  lemma {:induction false} ActedKeeps(w: World, p: Pid, action: Action)
    requires Invariant(w) && p in w.stages && Enabled(w, p, action)
    ensures Invariant(Acted(w, p, action))
  {
    match action {
      case Die =>
      case Acquire(token) =>
      case Create =>
      case Write =>
      case Unlink(works) =>
      case Remove(works) =>
      case _ =>
    }
  }

  lemma {:induction false} NextKeeps(w: World, step: Step, v: World)
    requires Invariant(w) && Next(w, step, v)
    ensures Invariant(v)
  {
    if !step.action.Spawn? {
      ActedKeeps(w, step.pid, step.action);
    }
  }

  lemma {:induction false} RunKeeps(ws: seq<World>, steps: seq<Step>, i: nat)
    requires Run(ws, steps) && i < |ws|
    ensures Invariant(ws[i])
  {
    if i > 0 {
      RunKeeps(ws, steps, i - 1);
      NextKeeps(ws[i - 1], steps[i - 1], ws[i]);
    }
  }

  /** At most one process is past the lock, daemon or prober: what the lock gives, at every moment of a run. */
  lemma {:induction false} AtMostOneHolder(ws: seq<World>, steps: seq<Step>, i: nat, p: Pid, q: Pid)
    requires Run(ws, steps) && i < |ws| && Holds(ws[i], p) && Holds(ws[i], q)
    ensures p == q && ws[i].lock == Some(p)
  {
    RunKeeps(ws, steps, i);
  }

  /** Main result: between its claim and its release, the PID file names exactly the serving daemon. */
  lemma {:induction false} FileNamesOwner(ws: seq<World>, steps: seq<Step>, i: nat, p: Pid)
    requires Run(ws, steps) && i < |ws| && p in ws[i].stages && ws[i].stages[p].Claimed?
    ensures ws[i].file == Named(p, ws[i].stages[p].token)
  {
    RunKeeps(ws, steps, i);
  }

  /**
   Main result: while the process that a PID file names by pid and token is alive and has not dropped the
   lock, only that process changes the file; a reused pid does not make a stale file its own.
   */
  lemma {:induction false} OnlyOwnerChangesFile(ws: seq<World>, steps: seq<Step>, i: nat, p: Pid)
    requires Run(ws, steps) && i < |steps| && p in ws[i].stages
    requires ws[i].file.Named? && ws[i].file.pid == p && TokenOf(ws[i].stages[p]) == Some(ws[i].file.owner)
    ensures ws[i + 1].file != ws[i].file ==> steps[i].pid == p && steps[i].action.Unlink?
    ensures ws[i].stages[p].Claimed? || ws[i].stages[p].Releasing? || ws[i].stages[p].Unlinking?
  {
    RunKeeps(ws, steps, i);
  }

  // ---------- that starting and stopping get through ----------

  /** What `p` leaves after taking these actions one after the other. */
  function Took(w: World, p: Pid, actions: seq<Action>): World
    decreases |actions|
  {
    if actions == [] || p !in w.stages then w else Took(Acted(w, p, actions[0]), p, actions[1..])
  }

  /** Each of them can be taken when its turn comes. */
  predicate CanTake(w: World, p: Pid, actions: seq<Action>)
    decreases |actions|
  {
    actions == []
    || (p in w.stages && Enabled(w, p, actions[0]) && CanTake(Acted(w, p, actions[0]), p, actions[1..]))
  }

  /** With the lock free, a process with a fresh token can become the daemon, whatever file an earlier one left. */
  lemma {:induction false} StartServes(w: World, p: Pid, token: Token)
    requires p in w.stages && w.stages[p].Outside? && w.lock.None? && token !in w.drawn
    ensures var actions := [Acquire(token), Remove(true), Create, Write];
            && CanTake(w, p, actions)
            && Took(w, p, actions) == World(w.stages[p := Claimed(token)], Some(p), Named(p, token), w.drawn + {token})
  {
    var locked := At(w, p, Locked(token)).(lock := Some(p), drawn := w.drawn + {token});
    var cleared := At(locked, p, Cleared(token)).(file := Absent);
    var created := At(cleared, p, Created(token)).(file := Unreadable);
    assert Acted(w, p, Acquire(token)) == locked && Acted(locked, p, Remove(true)) == cleared
        && Acted(cleared, p, Create) == created;
    assert CanTake(created, p, [Write]) && Took(created, p, [Write])
        == World(w.stages[p := Claimed(token)], Some(p), Named(p, token), w.drawn + {token}) by {
      assert created.stages[p := Claimed(token)] == w.stages[p := Claimed(token)];
    }
    assert [Create, Write][1..] == [Write];
    assert [Remove(true), Create, Write][1..] == [Create, Write];
    assert [Acquire(token), Remove(true), Create, Write][1..] == [Remove(true), Create, Write];
  }

  /** Stopping removes the daemon's own file and frees the lock. */
  lemma {:induction false} StopReleases(w: World, p: Pid, token: Token)
    requires p in w.stages && w.stages[p] == Claimed(token) && w.file == Named(p, token)
    ensures var actions := [Stop, ReadBack, Unlink(true), Unlock];
            && CanTake(w, p, actions)
            && Took(w, p, actions) == World(w.stages[p := Outside], None, Absent, w.drawn)
  {
    var stopping, reading := At(w, p, Releasing(token)), At(w, p, Unlinking(token));
    var gone := At(w, p, Unlocking).(file := Absent);
    assert Acted(w, p, Stop) == stopping;
    assert Acted(stopping, p, ReadBack) == reading by {
      assert stopping.stages[p := Unlinking(token)] == reading.stages;
    }
    assert Acted(reading, p, Unlink(true)) == gone by {
      assert reading.stages[p := Unlocking] == gone.stages;
    }
    assert Took(gone, p, [Unlock]) == World(w.stages[p := Outside], None, Absent, w.drawn) by {
      assert gone.stages[p := Outside] == w.stages[p := Outside];
    }
    assert [Unlink(true), Unlock][1..] == [Unlock];
    assert [ReadBack, Unlink(true), Unlock][1..] == [Unlink(true), Unlock];
    assert [Stop, ReadBack, Unlink(true), Unlock][1..] == [ReadBack, Unlink(true), Unlock];
  }

  /** A start that fails, or meets a file it could not remove, leaves a file that is not its own and frees the lock. */
  lemma {:induction false} FailureReleases(w: World, p: Pid, token: Token)
    requires p in w.stages && InStart(w.stages[p]) && w.stages[p].token == token && w.file != Named(p, token)
    ensures CanTake(w, p, [Fail, ReadBack, Unlock])
    ensures Took(w, p, [Fail, ReadBack, Unlock]) == World(w.stages[p := Outside], None, w.file, w.drawn)
    ensures w.stages[p].Cleared? && !w.file.Absent? ==> Acted(w, p, Create) == Acted(w, p, Fail)
  {
    var failed, read := At(w, p, Releasing(token)), At(w, p, Unlocking);
    assert Acted(w, p, Fail) == failed;
    assert Acted(failed, p, ReadBack) == read by {
      assert failed.stages[p := Unlocking] == read.stages;
    }
    assert Took(read, p, [Unlock]) == World(w.stages[p := Outside], None, w.file, w.drawn) by {
      assert read.stages[p := Outside] == w.stages[p := Outside];
    }
    assert [ReadBack, Unlock][1..] == [Unlock];
    assert [Fail, ReadBack, Unlock][1..] == [ReadBack, Unlock];
  }

  /** A status check leaves everything as it was. */
  lemma {:induction false} ProbeLeavesAll(w: World, p: Pid)
    requires p in w.stages && w.stages[p].Outside? && w.lock.None?
    ensures CanTake(w, p, [Probe, EndProbe]) && Took(w, p, [Probe, EndProbe]) == w
  {
    var probing := At(w, p, Probing).(lock := Some(p));
    assert Took(probing, p, [EndProbe]) == w by {
      assert probing.stages[p := Outside] == w.stages;
    }
    assert [Probe, EndProbe][1..] == [EndProbe];
  }

  /** A death frees the lock and nothing else of the others. */
  lemma {:induction false} DeathFrees(w: World, p: Pid, q: Pid)
    requires Invariant(w) && p in w.stages
    ensures var v := Acted(w, p, Die);
            && v.file == w.file && p !in v.stages && v.lock != Some(p)
            && (q != p ==> (q in v.stages <==> q in w.stages) && (q in w.stages ==> v.stages[q] == w.stages[q])
                           && (v.lock == Some(q) <==> w.lock == Some(q)))
  {
  }

  /** Taking actions that can be taken continues a run. */
  lemma {:induction false} TakeAlong(ws: seq<World>, steps: seq<Step>, w: World, p: Pid, actions: seq<Action>)
      returns (ws': seq<World>, steps': seq<Step>)
    requires Run(ws, steps) && ws[|ws| - 1] == w && CanTake(w, p, actions)
    ensures Run(ws', steps') && ws <= ws' && ws'[|ws'| - 1] == Took(w, p, actions)
    decreases |actions|
  {
    if actions == [] {
      ws', steps' := ws, steps;
    } else {
      var v := Acted(w, p, actions[0]);
      RunLonger(ws, steps, Step(p, actions[0]), v);
      ws', steps' := TakeAlong(ws + [v], steps + [Step(p, actions[0])], v, p, actions[1..]);
    }
  }

  lemma {:induction false} RunLonger(ws: seq<World>, steps: seq<Step>, step: Step, v: World)
    requires Run(ws, steps) && Next(ws[|ws| - 1], step, v)
    ensures Run(ws + [v], steps + [step])
  {
    var worlds, all := ws + [v], steps + [step];
    forall i | 0 <= i < |all| ensures Next(worlds[i], all[i], worlds[i + 1]) {
      if i < |steps| {
        assert worlds[i] == ws[i] && worlds[i + 1] == ws[i + 1] && all[i] == steps[i];
      }
    }
  }

  /**
   Main result: however a run went, once the lock is free a waiting process can become the daemon that the file
   names, and then stop again with the file gone and the lock free.
   */
  lemma {:induction false} CanServeAndStop(ws: seq<World>, steps: seq<Step>, p: Pid, token: Token)
      returns (serving: seq<World>, started: seq<Step>, stopped: seq<World>, all: seq<Step>)
    requires Run(ws, steps) && p in ws[|ws| - 1].stages && ws[|ws| - 1].stages[p].Outside?
    requires ws[|ws| - 1].lock.None? && token !in ws[|ws| - 1].drawn
    ensures Run(serving, started) && ws <= serving && Run(stopped, all) && serving <= stopped
    ensures var w, v := ws[|ws| - 1], serving[|serving| - 1];
            v == World(w.stages[p := Claimed(token)], Some(p), Named(p, token), w.drawn + {token})
            && stopped[|stopped| - 1] == World(v.stages[p := Outside], None, Absent, v.drawn)
  {
    var w := ws[|ws| - 1];
    StartServes(w, p, token);
    serving, started := TakeAlong(ws, steps, w, p, [Acquire(token), Remove(true), Create, Write]);
    var v := serving[|serving| - 1];
    StopReleases(v, p, token);
    stopped, all := TakeAlong(serving, started, v, p, [Stop, ReadBack, Unlink(true), Unlock]);
  }
}
