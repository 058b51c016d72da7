/** That delivery gets through: what each of its steps does, and a whole delivery to everybody eligible. */
module PushCouriers {
  import W = Wrappers
  import opened OrderedDicts
  import opened Sequences
  import opened PushDelivery
  import Ops = PushOperations
  import Push = HostPush
  import Auth = HostAuth

  /** The registered device, its login running, and what its account may see right now. */
  ghost predicate Reachable(w: World, secret: Secret, device: Push.Device, access: Access) {
    && secret in w.store.devices && w.store.devices[secret] == device
    && Ops.Runs(w.auth, device.session, device.username, w.now)
    && access.username == device.username
    && access.admin == w.auth.users[device.username].admin
    && access.workspaces == w.auth.users[device.username].workspaces
  }

  lemma {:induction false} CurrentExactly(w: World, secret: Secret, device: Push.Device, access: Access)
    requires Distinct(w.auth.sessions)
    ensures StillCurrent(w, secret, device, access) <==> Reachable(w, secret, device, access)
  {
    Ops.EligibleExactly(w.store.devices, w.auth, w.now, secret);
  }

  /** Main result: every send goes to a device registered and logged in at that moment, with its account's present access. */
  lemma {:induction false} SendsReachable(ws: seq<World>, steps: seq<Step>, n: nat, i: nat) returns (k: nat)
    requires Run(ws, steps) && n < |ws| && i < |ws[n].log| && ws[n].log[i].Send?
    requires forall m | 0 <= m < |ws| :: Distinct(ws[m].auth.sessions)
    ensures k < n && ws[k].log == ws[n].log[..i]
    ensures Reachable(ws[k], ws[n].log[i].secret, ws[n].log[i].device, ws[n].log[i].access)
  {
    k := SendsAreCurrent(ws, steps, n, i);
    CurrentExactly(ws[k], ws[n].log[i].secret, ws[n].log[i].device, ws[n].log[i].access);
  }

  // ---------- one step of the courier ----------

  /** The next recipient is noted exactly if it is reachable and may see the thread; otherwise it is passed over. */
  lemma {:induction false} PickExactly(w: World, found: bool, event: nat, secret: Secret, rest: seq<Secret>,
                                       device: Push.Device, access: Access)
    requires w.courier == Walking(event, [secret] + rest) && Distinct(w.auth.sessions)
    ensures found && Reachable(w, secret, device, access)
       <==> Picked(w, found) == w.(courier := Sending(event, secret, device, access, 0, rest))
    ensures Picked(w, found).courier.Sending? || Picked(w, found) == w.(courier := Walking(event, rest))
  {
    Uncons(secret, rest);
    Ops.EligibleExactly(w.store.devices, w.auth, w.now, secret);
  }

  lemma {:induction false} PickEnds(w: World, found: bool, event: nat)
    requires w.courier == Walking(event, [])
    ensures Picked(w, found) == w.(courier := Idle)
  {
  }

  /** A reachable recipient is sent to; only a first `Retry` is followed by another attempt. */
  lemma {:induction false} TrySends(w: World, result: Result, written: bool, event: nat, secret: Secret,
                                    device: Push.Device, access: Access, attempt: nat, rest: seq<Secret>)
    requires w.courier == Sending(event, secret, device, access, attempt, rest) && Distinct(w.auth.sessions)
    ensures var v := Tried(w, result, written);
            && v.log == (if Reachable(w, secret, device, access)
                         then w.log + [Send(event, secret, device, access, result)] else w.log)
            && (!result.Invalid? || !Reachable(w, secret, device, access) ==>
                  v == w.(log := v.log,
                          courier := if Reachable(w, secret, device, access) && result.Retry? && attempt == 0
                                     then Sending(event, secret, device, access, 1, rest)
                                     else Walking(event, rest)))
  {
    CurrentExactly(w, secret, device, access);
  }

  /** A dead token is given up, once the store is written; a failed write ends the delivery. */
  lemma {:induction false} InvalidGivesUp(w: World, written: bool, event: nat, secret: Secret, device: Push.Device,
                                          access: Access, attempt: nat, rest: seq<Secret>)
    requires w.courier == Sending(event, secret, device, access, attempt, rest) && Distinct(w.auth.sessions)
    requires Reachable(w, secret, device, access) && |w.store.revoked + {secret}| <= 4096
    ensures var v := Tried(w, Invalid, written);
            && (written ==> v.store == Push.Store(w.store.devices - {secret}, w.store.revoked + {secret})
                            && v.courier == Walking(event, rest))
            && (!written ==> v.store == w.store && v.file == w.file && v.courier == Idle)
  {
    CurrentExactly(w, secret, device, access);
    Ops.InvalidateReplies(w.store, w.file, secret, w.auth, w.now, written);
  }

  /** The log notes a revocation exactly when it is acknowledged, and an operation ends no delivery. */
  lemma {:induction false} RevocationsLogged(w: World, op: Push.Op, written: bool)
    ensures var r := Push.Perform(w.store, w.file, op, w.auth, w.now, written);
            var v := Operated(w, op, r);
            && v.log == (if r.reply == Push.Accepted && op.Unregister? && op.secret.Some?
                         then w.log + [Revoked(op.secret.value)] else w.log)
            && v == w.(store := r.memory, file := r.file, log := v.log)
  {
  }

  /** A device can always revoke itself while there is room for the tombstone and the write works. */
  lemma {:induction false} RevocationEnds(w: World, secret: Secret, session: Auth.SessionKey, device: Push.Device,
                                          access: Access)
    requires Push.Consistent(w.store) && Distinct(w.auth.sessions)
    requires secret in w.store.devices && |w.store.revoked| < 4096
    ensures var op := Push.Unregister(W.Some(secret), session);
            var v := Operated(w, op, Push.Perform(w.store, w.file, op, w.auth, w.now, true));
            && v.log == w.log + [Revoked(secret)] && v.courier == w.courier
            && v.store == Push.Store(w.store.devices - {secret}, w.store.revoked + {secret})
            && !Reachable(v, secret, device, access)
  {
    Ops.UnregisterReplies(w.store, w.file, W.Some(secret), session, w.auth, w.now, true);
    Ops.UnregisteredExactly(w.store, w.file, secret, session, w.auth, w.now, true);
    RevocationsLogged(w, Push.Unregister(W.Some(secret), session), true);
  }

  // ---------- a whole delivery ----------

  /** One send to each of `todo`, in order. */
  function SendsTo(devices: Push.Devices, auth: Auth.Memory, event: nat, todo: seq<Secret>): seq<Entry>
    requires forall k | k in todo :: k in devices && devices[k].username in auth.users
  {
    if todo == [] then []
    else
      var device := devices[todo[0]];
      var user := auth.users[device.username];
      [Send(event, todo[0], device, Access(device.username, user.admin, user.workspaces), Sent)]
      + SendsTo(devices, auth, event, todo[1..])
  }

  lemma {:induction false} LastOfLonger<T>(s: seq<T>, x: T)
    ensures (s + [x])[|s + [x]| - 1] == x && s <= s + [x]
  {
  }

  lemma {:induction false} RunLonger(ws: seq<World>, steps: seq<Step>, step: Step, v: World)
    requires Run(ws, steps) && Next(ws[|ws| - 1], step, v)
    ensures Run(ws + [v], steps + [step])
  {
    var worlds, all := ws + [v], steps + [step];
    forall i | 0 <= i < |all| ensures Next(worlds[i], all[i], worlds[i + 1]) {
      if i < |steps| {
        assert worlds[i] == ws[i] && worlds[i + 1] == ws[i + 1] && all[i] == steps[i];
      }
    }
  }

  /** One recipient: picked, and sent to. */
  lemma {:induction false} DeliversOne(w: World, event: nat, secret: Secret, rest: seq<Secret>)
    requires w.courier == Walking(event, [secret] + rest) && secret in Eligible(w)
    ensures var device := Eligible(w)[secret];
            device.username in w.auth.users
            && var user := w.auth.users[device.username];
               var access := Access(device.username, user.admin, user.workspaces);
               Picked(w, true) == w.(courier := Sending(event, secret, device, access, 0, rest))
               && Tried(Picked(w, true), Sent, true)
                  == w.(courier := Walking(event, rest), log := w.log + [Send(event, secret, device, access, Sent)])
  {
    Uncons(secret, rest);
  }

  lemma {:induction false} DeliversNext(ws: seq<World>, steps: seq<Step>, w: World, event: nat, secret: Secret,
                                        rest: seq<Secret>, sent: World)
      returns (ws': seq<World>, steps': seq<Step>)
    requires Run(ws, steps) && ws[|ws| - 1] == w && w.courier == Walking(event, [secret] + rest) && secret in Eligible(w)
    requires sent == w.(courier := Walking(event, rest), log := w.log + SendsTo(Eligible(w), w.auth, event, [secret]))
    ensures Run(ws', steps') && ws <= ws' && ws'[|ws'| - 1] == sent
  {
    DeliversOne(w, event, secret, rest);
    var noted := Picked(w, true);
    RunLonger(ws, steps, Pick(true), noted);
    LastOfLonger(ws, noted);
    RunLonger(ws + [noted], steps + [Pick(true)], Try(Sent, true), sent);
    LastOfLonger(ws + [noted], sent);
    ws', steps' := ws + [noted] + [sent], steps + [Pick(true)] + [Try(Sent, true)];
  }

  /** The sends to all are the send to the first and those to the rest. */
  lemma {:induction false} SendsInOrder(devices: Push.Devices, auth: Auth.Memory, event: nat, todo: seq<Secret>)
    requires todo != [] && forall k | k in todo :: k in devices && devices[k].username in auth.users
    ensures [todo[0]] + todo[1..] == todo
    ensures SendsTo(devices, auth, event, todo)
         == SendsTo(devices, auth, event, [todo[0]]) + SendsTo(devices, auth, event, todo[1..])
  {
    var first := [todo[0]];
    assert first[1..] == [];
    Whole(SendsTo(devices, auth, event, first));
  }

  /** From any moment of a walk, the run can go on to a send to everybody left. */
  lemma {:induction false} DeliversRest(ws: seq<World>, steps: seq<Step>, w: World, event: nat, todo: seq<Secret>)
      returns (ws': seq<World>, steps': seq<Step>)
    requires Run(ws, steps) && ws[|ws| - 1] == w && w.courier == Walking(event, todo)
    requires forall k | k in todo :: k in Eligible(w)
    ensures Run(ws', steps') && ws <= ws'
    ensures ws'[|ws'| - 1] == w.(courier := Walking(event, []),
                                 log := w.log + SendsTo(Eligible(w), w.auth, event, todo))
    decreases |todo|
  {
    var devices := Eligible(w);
    if todo == [] {
      Whole(w.log);
      ws', steps' := ws, steps;
    } else {
      SendsInOrder(devices, w.auth, event, todo);
      var one, others := SendsTo(devices, w.auth, event, [todo[0]]), SendsTo(devices, w.auth, event, todo[1..]);
      var sent := w.(courier := Walking(event, todo[1..]), log := w.log + one);
      var past, taken := DeliversNext(ws, steps, w, event, todo[0], todo[1..], sent);
      ws', steps' := DeliversRest(past, taken, sent, event, todo[1..]);
      Assoc(w.log, one, others);
    }
  }

  /**
   Main result: whenever the courier is idle, the run can go on with an event that is sent exactly once to every
   eligible device and to no other, in the order of the recipients.
   */
  lemma {:induction false} DeliversToAll(ws: seq<World>, steps: seq<Step>, recipients: seq<Secret>)
      returns (ws': seq<World>, steps': seq<Step>)
    requires Run(ws, steps) && ws[|ws| - 1].courier.Idle? && Listed(recipients, Eligible(ws[|ws| - 1]))
    ensures Run(ws', steps') && ws <= ws'
    ensures var w := ws[|ws| - 1];
            ws'[|ws'| - 1] == w.(events := w.events + 1,
                                 log := w.log + SendsTo(Eligible(w), w.auth, w.events, recipients))
  {
    var w := ws[|ws| - 1];
    var begun := w.(courier := Walking(w.events, recipients), events := w.events + 1);
    RunLonger(ws, steps, Begin(recipients), begun);
    LastOfLonger(ws, begun);
    ws', steps' := DeliversRest(ws + [begun], steps + [Begin(recipients)], begun, w.events, recipients);
    var last := ws'[|ws'| - 1];
    RunLonger(ws', steps', Pick(true), last.(courier := Idle));
    ws', steps' := ws' + [last.(courier := Idle)], steps' + [Pick(true)];
  }
}
