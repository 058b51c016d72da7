/**
 Delivery of one observed event to its recipients, interleaved with registrations, revocations and
 account changes at every point where the host holds no lock.
 */
module PushDelivery {
  import opened Wrappers
  import opened Sequences
  import Push = HostPush
  import Auth = HostAuth
  import A = Accounts

  type Secret = Push.Secret

  /** What decides which sessions a recipient may see. */
  datatype Access = Access(username: string, admin: bool, workspaces: set<string>)

  datatype Result = Sent | Invalid | Retry | Rejected

  /** Sends to the push service and acknowledged revocations, in the order they happened. */
  datatype Entry =
    | Send(event: nat, secret: Secret, device: Push.Device, access: Access, result: Result)
    | Revoked(secret: Secret)

  datatype Courier =
    | Idle
    | Walking(event: nat, todo: seq<Secret>)
    | Sending(event: nat, secret: Secret, device: Push.Device, access: Access, attempt: nat, todo: seq<Secret>)

  datatype World = World(store: Push.Store, file: Option<Push.Store>, auth: Auth.Memory, now: real,
                         courier: Courier, events: nat, log: seq<Entry>)

  datatype Step =
    | Operate(op: Push.Op, written: bool)       // register, unregister, housekeeping
    | Restart                                   // the host dies and comes back from its file
    | Account(auth: Auth.Memory, now: real)     // logins, account changes, time passing
    | Begin(recipients: seq<Secret>)
    | Pick(found: bool)                         // whether the recipient may see the thread
    | Try(result: Result, written: bool)
    | Abandon                                   // shutdown, or an exception while delivering

  function Eligible(w: World): Push.Devices {
    Push.Eligible(w.store.devices, w.auth, w.now)
  }

  function AccessOf(auth: Auth.Memory, username: string): Access
    requires username in auth.users
  {
    Access(username, auth.users[username].admin, auth.users[username].workspaces)
  }

  /** The recipient's device is still eligible and unchanged, and so is what it may see. */
  predicate StillCurrent(w: World, secret: Secret, device: Push.Device, access: Access) {
    && secret in Eligible(w) && Eligible(w)[secret] == device
    && device.username in w.auth.users && AccessOf(w.auth, device.username) == access
  }

  ghost predicate Listed(recipients: seq<Secret>, devices: Push.Devices) {
    && (forall k :: k in recipients <==> k in devices)
    && forall i, j | 0 <= i < j < |recipients| :: recipients[i] != recipients[j]
  }

  function Operated(w: World, op: Push.Op, r: Push.Outcome): World {
    w.(store := r.memory, file := r.file,
       log := if op.Unregister? && op.secret.Some? && r.reply == Push.Accepted
              then w.log + [Revoked(op.secret.value)] else w.log)
  }

  /** One attempt under both locks. */
  function Tried(w: World, result: Result, written: bool): World
    requires w.courier.Sending?
  {
    var c := w.courier;
    if !StillCurrent(w, c.secret, c.device, c.access) then w.(courier := Walking(c.event, c.todo))
    else
      var logged := w.(log := w.log + [Send(c.event, c.secret, c.device, c.access, result)]);
      match result
      case Retry =>
        logged.(courier := if c.attempt == 0 then c.(attempt := 1) else Walking(c.event, c.todo))
      case Invalid =>
        var r := Push.Perform(w.store, w.file, Push.Invalidate(c.secret), w.auth, w.now, written);
        logged.(store := r.memory, file := r.file,
                courier := if r.reply == Push.Accepted then Walking(c.event, c.todo) else Idle)
      case Sent => logged.(courier := Walking(c.event, c.todo))
      case Rejected => logged.(courier := Walking(c.event, c.todo))
  }

  /** The next recipient: skipped, or its device and access are noted before the lock is released. */
  function Picked(w: World, found: bool): World
    requires w.courier.Walking?
  {
    var c := w.courier;
    if c.todo == [] then w.(courier := Idle)
    else
      var k, rest := c.todo[0], c.todo[1..];
      if k !in Eligible(w) || !found then w.(courier := Walking(c.event, rest))
      else
        var device := Eligible(w)[k];
        w.(courier := Sending(c.event, k, device, AccessOf(w.auth, device.username), 0, rest))
  }

  ghost predicate Next(w: World, step: Step, v: World) {
    match step
    case Operate(op, written) => v == Operated(w, op, Push.Perform(w.store, w.file, op, w.auth, w.now, written))
    case Restart => v == w.(store := Push.Content(w.file), courier := Idle)
    case Account(auth, now) => v == w.(auth := auth, now := now)
    case Begin(recipients) =>
      w.courier.Idle? && Listed(recipients, Eligible(w))
      && v == w.(courier := Walking(w.events, recipients), events := w.events + 1)
    case Pick(found) => w.courier.Walking? && v == Picked(w, found)
    case Try(result, written) => w.courier.Sending? && v == Tried(w, result, written)
    case Abandon => v == w.(courier := Idle)
  }

  ghost predicate Run(ws: seq<World>, steps: seq<Step>) {
    && |ws| == |steps| + 1
    && ws[0].log == [] && ws[0].courier.Idle? && Push.Sound(ws[0].store, ws[0].file)
    && forall i | 0 <= i < |steps| :: Next(ws[i], steps[i], ws[i + 1])
  }

  // ---------- no send after a revocation ----------

  ghost predicate RevokedStay(w: World) {
    && Push.Sound(w.store, w.file)
    && forall i | 0 <= i < |w.log| && w.log[i].Revoked? :: w.log[i].secret in w.store.revoked
  }

  /** At most one entry is added, and a send only for what holds at this moment. */
  ghost predicate LogStep(w: World, v: World) {
    || v.log == w.log
    || (&& |v.log| == |w.log| + 1 && w.log <= v.log
        && var e := v.log[|w.log|];
           e.Send? ==> StillCurrent(w, e.secret, e.device, e.access))
  }

  lemma {:induction false} OperateStays(w: World, op: Push.Op, r: Push.Outcome)
    requires RevokedStay(w) && Push.Kept(w.store, w.file, op, r)
    ensures RevokedStay(Operated(w, op, r)) && LogStep(w, Operated(w, op, r))
  {
  }

  /** A send of what holds now, with whatever the store keeps of its tombstones. */
  lemma {:induction false} SendStays(w: World, v: World, e: Entry)
    requires RevokedStay(w) && e.Send? && StillCurrent(w, e.secret, e.device, e.access)
    requires v.log == w.log + [e] && Push.Sound(v.store, v.file) && w.store.revoked <= v.store.revoked
    ensures RevokedStay(v) && LogStep(w, v)
  {
    Snoc(w.log, e);
  }

  lemma {:induction false} TryStays(w: World, result: Result, written: bool)
    requires RevokedStay(w) && w.courier.Sending?
    ensures RevokedStay(Tried(w, result, written)) && LogStep(w, Tried(w, result, written))
  {
    var c := w.courier;
    if StillCurrent(w, c.secret, c.device, c.access) {
      Push.PerformKeeps(w.store, w.file, Push.Invalidate(c.secret), w.auth, w.now, written);
      SendStays(w, Tried(w, result, written), Send(c.event, c.secret, c.device, c.access, result));
    }
  }

  lemma {:induction false} NextStays(w: World, step: Step, v: World)
    requires RevokedStay(w) && Next(w, step, v)
    ensures RevokedStay(v) && LogStep(w, v)
  {
    match step {
      case Operate(op, written) =>
        Push.PerformKeeps(w.store, w.file, op, w.auth, w.now, written);
        OperateStays(w, op, Push.Perform(w.store, w.file, op, w.auth, w.now, written));
      case Try(result, written) => TryStays(w, result, written);
      case _ =>
    }
  }

  lemma {:induction false} RunStays(ws: seq<World>, steps: seq<Step>, i: nat, j: nat)
    requires Run(ws, steps) && i <= j < |ws|
    ensures RevokedStay(ws[j]) && ws[i].log <= ws[j].log
    decreases j
  {
    if j > 0 {
      RunStays(ws, steps, if i < j then i else j - 1, j - 1);
      NextStays(ws[j - 1], steps[j - 1], ws[j]);
    }
  }

  /** What the worlds of a run tell of its log, step by step. */
  ghost predicate Story(ws: seq<World>) {
    && ws != [] && ws[0].log == []
    && (forall k | 0 <= k < |ws| :: RevokedStay(ws[k]))
    && (forall k | 0 <= k < |ws| - 1 :: LogStep(ws[k], ws[k + 1]) && ws[k].log <= ws[k + 1].log)
  }

  lemma {:induction false} RunStory(ws: seq<World>, steps: seq<Step>)
    requires Run(ws, steps)
    ensures Story(ws)
  {
    forall k | 0 <= k < |ws| ensures RevokedStay(ws[k]) {
      RunStays(ws, steps, k, k);
    }
    forall k | 0 <= k < |ws| - 1 ensures LogStep(ws[k], ws[k + 1]) && ws[k].log <= ws[k + 1].log {
      RunStays(ws, steps, k, k + 1);
      NextStays(ws[k], steps[k], ws[k + 1]);
    }
  }

  /** Entry `i` of the log was written between `w` and `v`, a send with what held in `w`. */
  ghost predicate SentAt(w: World, v: World, log: seq<Entry>, i: nat)
    requires i < |log| && log[i].Send?
  {
    && w.log == log[..i] && v.log == log[..i + 1]
    && StillCurrent(w, log[i].secret, log[i].device, log[i].access)
  }

  /** From step to step the log grows by one entry at most. */
  ghost predicate Growing(ws: seq<World>) {
    && ws != [] && ws[0].log == []
    && forall k | 0 <= k < |ws| - 1 :: ws[k].log <= ws[k + 1].log && |ws[k + 1].log| <= |ws[k].log| + 1
  }

  lemma {:induction false} StoryStep(ws: seq<World>, n: nat)
    requires Story(ws) && n < |ws| - 1
    ensures LogStep(ws[n], ws[n + 1]) && ws[n].log <= ws[n + 1].log && |ws[n + 1].log| <= |ws[n].log| + 1
  {
  }

  lemma {:induction false} StoryGrows(ws: seq<World>)
    requires Story(ws)
    ensures Growing(ws)
  {
    forall k | 0 <= k < |ws| - 1 ensures ws[k].log <= ws[k + 1].log && |ws[k + 1].log| <= |ws[k].log| + 1 {
      StoryStep(ws, k);
    }
  }

  lemma {:induction false} PrefixOfPrefix(a: seq<Entry>, b: seq<Entry>, c: seq<Entry>)
    requires a <= b <= c
    ensures a <= c
  {
  }

  /** The step at which an entry was written. */
  lemma {:induction false} WrittenAt(ws: seq<World>, n: nat, i: nat) returns (k: nat)
    requires Growing(ws) && n < |ws| && i < |ws[n].log|
    ensures k < n && |ws[k].log| == i && |ws[k + 1].log| == i + 1 && ws[k + 1].log <= ws[n].log
    decreases n
  {
    if i < |ws[n - 1].log| {
      k := WrittenAt(ws, n - 1, i);
      PrefixOfPrefix(ws[k + 1].log, ws[n - 1].log, ws[n].log);
    } else {
      k := n - 1;
    }
  }

  lemma {:induction false} SentThen(w: World, v: World, log: seq<Entry>, i: nat)
    requires LogStep(w, v) && w.log <= v.log <= log && |w.log| == i && |v.log| == i + 1 && log[i].Send?
    ensures SentAt(w, v, log, i)
  {
    assert v.log[i] == log[i];
  }

  /**
   Main result: every send in the log of a run was made at a step of that run, with the device record and
   the access triple that held at that very moment.
   */
  lemma {:induction false} SendsAreCurrent(ws: seq<World>, steps: seq<Step>, n: nat, i: nat) returns (k: nat)
    requires Run(ws, steps) && n < |ws| && i < |ws[n].log| && ws[n].log[i].Send?
    ensures k < n && SentAt(ws[k], ws[k + 1], ws[n].log, i)
  {
    RunStory(ws, steps);
    StoryGrows(ws);
    k := WrittenAt(ws, n, i);
    StoryStep(ws, k);
    SentThen(ws[k], ws[k + 1], ws[n].log, i);
  }

  /** A new entry of the log is no send for a secret revoked before. */
  lemma {:induction false} NewIsNotRevoked(w: World, v: World, i: nat, j: nat)
    requires RevokedStay(w) && LogStep(w, v) && w.log <= v.log
    requires i < |w.log| <= j < |v.log| && v.log[i].Revoked?
    ensures !(v.log[j].Send? && v.log[j].secret == v.log[i].secret)
  {
    assert w.log[i] == v.log[i];
  }

  lemma {:induction false} NotRevokedInStory(ws: seq<World>, n: nat, i: nat, j: nat)
    requires Story(ws) && n < |ws| && i < j < |ws[n].log| && ws[n].log[i].Revoked?
    ensures !(ws[n].log[j].Send? && ws[n].log[j].secret == ws[n].log[i].secret)
    decreases n
  {
    assert LogStep(ws[n - 1], ws[n]);
    if j < |ws[n - 1].log| {
      NotRevokedInStory(ws, n - 1, i, j);
    } else {
      NewIsNotRevoked(ws[n - 1], ws[n], i, j);
    }
  }

  /** Main result: in the log of any run, no send for a secret follows its acknowledged revocation. */
  lemma {:induction false} NoSendAfterRevocation(ws: seq<World>, steps: seq<Step>, n: nat, i: nat, j: nat)
    requires Run(ws, steps) && n < |ws| && i < j < |ws[n].log|
    requires ws[n].log[i].Revoked?
    ensures !(ws[n].log[j].Send? && ws[n].log[j].secret == ws[n].log[i].secret)
  {
    RunStory(ws, steps);
    NotRevokedInStory(ws, n, i, j);
  }

  // ---------- delivery beside the account store ----------

  /** The account memories of a delivery run are those of a run of the account store, at the moments `at`. */
  ghost predicate Joined(ws: seq<World>, auths: seq<Auth.World>, at: seq<nat>) {
    && |at| == |ws|
    && (forall i | 0 <= i < |ws| :: at[i] < |auths| && auths[at[i]].memory == Some(ws[i].auth))
    && (forall i, j | 0 <= i <= j < |ws| :: at[i] <= at[j])
  }

  /**
   Main result: every send in the log rests on a login that was issued under the very user table in force
   at the moment of that send.
   */
  lemma {:induction false} SendsRestOnLogins(ws: seq<World>, steps: seq<Step>, auths: seq<Auth.World>,
                                             changes: seq<Auth.Step>, at: seq<nat>, n: nat, i: nat)
      returns (k: nat)
    requires Run(ws, steps) && Auth.Run(auths, changes) && Joined(ws, auths, at)
    requires n < |ws| && i < |ws[n].log| && ws[n].log[i].Send?
    ensures k < n && SentAt(ws[k], ws[k + 1], ws[n].log, i)
    ensures var session, account := ws[n].log[i].device.session, auths[at[k]];
            && Auth.Accepts(account, session)
            && session in account.minted && account.minted[session] == ws[k].auth.users
  {
    k := SendsAreCurrent(ws, steps, n, i);
    Auth.SessionsMatchTable(auths, changes, at[k], ws[n].log[i].device.session);
  }

  /** What is logged after moment `m` was sent after it. */
  lemma {:induction false} LoggedLater(ws: seq<World>, steps: seq<Step>, k: nat, m: nat)
    requires Run(ws, steps) && k + 1 < |ws| && m < |ws| && |ws[k + 1].log| > |ws[m].log|
    ensures k >= m
  {
    if k < m {
      RunStays(ws, steps, k + 1, m);
    }
  }

  /**
   Main result: once an account change has completed, nothing is sent to a device whose login is older,
   whatever fails or crashes afterwards.
   */
  lemma {:induction false} NoSendAfterChange(ws: seq<World>, steps: seq<Step>, auths: seq<Auth.World>,
                                             changes: seq<Auth.Step>, at: seq<nat>, c: nat, users: A.Users,
                                             m: nat, n: nat, i: nat)
    requires Run(ws, steps) && Auth.Run(auths, changes) && Joined(ws, auths, at)
    requires c < |changes| && changes[c] == Auth.Finish(Auth.ChangeUsers(users), 2)
    requires m < |ws| && at[m] > c && n < |ws| && |ws[m].log| <= i < |ws[n].log| && ws[n].log[i].Send?
    ensures ws[n].log[i].device.session !in auths[c].minted
  {
    var k := SendsRestOnLogins(ws, steps, auths, changes, at, n, i);
    LoggedLater(ws, steps, k, m);
    var session := ws[n].log[i].device.session;
    if session in auths[c].minted {
      Auth.ChangeEndsLogins(auths, changes, c, at[k], users, session);
    }
  }

  // ---------- at most two sends a recipient ----------

  /** The outcomes of the sends to one recipient for one event. */
  function Outcomes(log: seq<Entry>, event: nat, secret: Secret): seq<Result> {
    if log == [] then []
    else
      var e, before := log[|log| - 1], Outcomes(log[..|log| - 1], event, secret);
      if e.Send? && e.event == event && e.secret == secret then before + [e.result] else before
  }

  predicate Restrained(outcomes: seq<Result>) {
    |outcomes| <= 2 && (|outcomes| == 2 ==> outcomes[0] == Retry)
  }

  /** Every recipient so far was treated properly; the ones to come not at all; the current one in step. */
  ghost predicate Tidy(w: World) {
    && (forall e, k :: Restrained(Outcomes(w.log, e, k)))
    && (forall e, k | e >= w.events :: Outcomes(w.log, e, k) == [])
    && match w.courier
       case Idle => true
       case Walking(event, todo) => event < w.events && Untouched(w.log, event, todo)
       case Sending(event, secret, _, _, attempt, todo) =>
         && event < w.events && Untouched(w.log, event, todo) && secret !in todo
         && Outcomes(w.log, event, secret) == (if attempt == 0 then [] else [Retry])
  }

  ghost predicate Untouched(log: seq<Entry>, event: nat, todo: seq<Secret>) {
    && (forall i | 0 <= i < |todo| :: Outcomes(log, event, todo[i]) == [])
    && forall i, j | 0 <= i < j < |todo| :: todo[i] != todo[j]
  }

  lemma {:induction false} OutcomesOfLonger(log: seq<Entry>, e: Entry)
    ensures forall event, k :: Outcomes(log + [e], event, k)
              == if e.Send? && e.event == event && e.secret == k then Outcomes(log, event, k) + [e.result]
                 else Outcomes(log, event, k)
  {
    assert (log + [e])[..|log|] == log;
  }

  lemma {:induction false} NextTidy(w: World, step: Step, v: World)
    requires Tidy(w) && Next(w, step, v)
    ensures Tidy(v)
  {
    match step {
      case Operate(op, written) =>
        if op.Unregister? && op.secret.Some? {
          OutcomesOfLonger(w.log, Revoked(op.secret.value));
        }
      case Try(result, written) => TryTidy(w, result, written);
      case _ =>
    }
  }

  /** One more send to the current recipient: everybody else's outcomes stay. */
  lemma {:induction false} SentTidy(w: World, result: Result)
    requires Tidy(w) && w.courier.Sending?
    ensures var c := w.courier;
            var log := w.log + [Send(c.event, c.secret, c.device, c.access, result)];
            && (forall e, k :: Restrained(Outcomes(log, e, k)))
            && (forall e, k | e >= w.events :: Outcomes(log, e, k) == [])
            && Untouched(log, c.event, c.todo)
            && Outcomes(log, c.event, c.secret) == (if c.attempt == 0 then [result] else [Retry, result])
  {
    var c := w.courier;
    OutcomesOfLonger(w.log, Send(c.event, c.secret, c.device, c.access, result));
    assert Restrained(Outcomes(w.log, c.event, c.secret) + [result]);
  }

  lemma {:induction false} TryTidy(w: World, result: Result, written: bool)
    requires Tidy(w) && w.courier.Sending?
    ensures Tidy(Tried(w, result, written))
  {
    SentTidy(w, result);
  }

  /**
   Main result: over any run, each recipient of each event gets at most two sends, and a second one only
   after the first came back with `Retry`.
   */
  lemma {:induction false} AtMostTwoSends(ws: seq<World>, steps: seq<Step>, i: nat, event: nat, secret: Secret)
    requires Run(ws, steps) && i < |ws|
    ensures Tidy(ws[i]) && Restrained(Outcomes(ws[i].log, event, secret))
  {
    if i > 0 {
      AtMostTwoSends(ws, steps, i - 1, event, secret);
      NextTidy(ws[i - 1], steps[i - 1], ws[i]);
    }
  }
}
