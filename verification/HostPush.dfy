/**
 The host's push-subscription store: live devices and permanent tombstones, replaced together in one
 file. A subscription secret stands for its SHA-256 hash, which is taken as injective.
 */
module HostPush {
  import opened Wrappers
  import opened OrderedDicts
  import opened Counting
  import Auth = HostAuth

  const MAX_DEVICES: nat := 256
  const MAX_REVOKED: nat := 4096

  type Secret = string

  datatype Device = Device(installation: string, token: string, environment: string,
                           username: string, session: Auth.SessionKey, origin: string)

  type Devices = map<Secret, Device>

  /** What the process holds in memory, and what the file holds. */
  datatype Store = Store(devices: Devices, revoked: set<Secret>)

  const EMPTY := Store(map[], {})

  datatype Reply = Accepted | BadRequest | Unauthorized | Unavailable

  /** A registration body; a malformed secret or body is `None` or invalid. */
  datatype Registration = Registration(secret: Option<Secret>, valid: bool, installation: string,
                                       token: string, environment: string)

  // ---------- eligibility ----------

  predicate IsEligible(device: Device, auth: Auth.Memory, now: real) {
    var s := Get(auth.sessions, device.session);
    s.Some? && s.value.name == device.username && s.value.deadline > now && device.username in auth.users
  }

  function Eligible(devices: Devices, auth: Auth.Memory, now: real): Devices {
    map k | k in devices && IsEligible(devices[k], auth, now) :: devices[k]
  }

  /** `account(token)`: the session is known, running, and its user still exists. */
  predicate LoggedIn(session: Auth.SessionKey, auth: Auth.Memory, now: real) {
    var s := Get(auth.sessions, session);
    s.Some? && s.value.deadline > now && s.value.name in auth.users
  }

  // ---------- saving ----------

  /** The store a save would write: whatever leaves the devices joins the tombstones. */
  function Merged(m: Store, devices: Devices, revoked: set<Secret>): Store {
    Store(devices, revoked + (m.devices.Keys - devices.Keys))
  }

  /** The store asked for by each locked operation, or the reply that refuses it. */
  function Asked(m: Store, op: Op, auth: Auth.Memory, now: real): Result<Store, Reply> {
    match op
    case Register(r, session, username, origin, configured) =>
      if !r.valid || r.secret.None? then Err(BadRequest)
      else if !configured then Err(Unavailable)
      else if !LoggedIn(session, auth, now) then Err(Unauthorized)
      else
        var secret := r.secret.value;
        var eligible := Eligible(m.devices, auth, now);
        if secret in m.revoked then Err(BadRequest)
        else if secret in m.devices && (m.devices[secret].username != username
                                        || m.devices[secret].installation != r.installation) then Err(Unauthorized)
        else if secret !in eligible && |eligible| >= MAX_DEVICES then Err(BadRequest)
        else
          var device := Device(r.installation, r.token, r.environment, username, session, origin);
          Ok(Merged(m, eligible[secret := device], m.revoked))
    case Unregister(None, _) => Err(BadRequest)
    case Unregister(Some(secret), session) =>
      if secret in m.revoked then Ok(m)
      else if secret !in m.devices && !LoggedIn(session, auth, now) then Err(Unauthorized)
      else if |m.revoked| >= MAX_REVOKED then Err(BadRequest)
      else Ok(Merged(m, m.devices - {secret}, m.revoked + {secret}))
    case Prune => Ok(Merged(m, Eligible(m.devices, auth, now), m.revoked))
    case Invalidate(secret) => Ok(Merged(m, m.devices - {secret}, m.revoked))
  }

  datatype Op =
    | Register(r: Registration, session: Auth.SessionKey, username: string, origin: string, configured: bool)
    | Unregister(secret: Option<Secret>, revoker: Auth.SessionKey)
    | Prune                         // the observer drops devices whose login ended
    | Invalidate(dead: Secret)      // the push service reported the token gone

  /** Whether the operation has to write at all: revoking a tombstone again does not. */
  predicate Writes(m: Store, op: Op) {
    !(op.Unregister? && op.secret.Some? && op.secret.value in m.revoked)
  }

  /**
   One operation under the lock. `written` says whether the file replacement went through; it can fail
   for the size limit or any I/O error. Returns memory, file and reply.
   */
  function Perform(m: Store, file: Option<Store>, op: Op, auth: Auth.Memory, now: real, written: bool): Outcome {
    Conclude(m, file, Asked(m, op, auth, now), Writes(m, op), written)
  }

  /** Memory, file and reply after an operation. */
  datatype Outcome = Outcome(memory: Store, file: Option<Store>, reply: Reply)

  function Conclude(m: Store, file: Option<Store>, asked: Result<Store, Reply>, writes: bool, written: bool): Outcome {
    match asked
    case Err(reply) => Outcome(m, file, reply)
    case Ok(next) =>
      if !writes then Outcome(m, file, Accepted)
      else if |next.revoked| > MAX_REVOKED then Outcome(m, file, BadRequest)
      else if !written then Outcome(m, file, Unavailable)
      else Outcome(next, Some(next), Accepted)
  }

  // ---------- what every operation keeps ----------

  ghost predicate Consistent(s: Store) {
    && s.devices.Keys !! s.revoked
    && |s.devices| <= MAX_DEVICES && |s.revoked| <= MAX_REVOKED
  }

  /** What a load makes of the file; the constructor refuses stores beyond the limits. */
  function Loaded(file: Option<Store>): Result<Store, ()> {
    match file
    case None => Ok(EMPTY)
    case Some(s) => if |s.devices| > MAX_DEVICES || |s.revoked| > MAX_REVOKED then Err(()) else Ok(s)
  }

  function Content(file: Option<Store>): Store {
    if file.Some? then file.value else EMPTY
  }

  /** A running host: within limits, and memory is what the file holds. */
  ghost predicate Sound(m: Store, file: Option<Store>) {
    Consistent(m) && m == Content(file)
  }

  lemma {:induction false} RegisteredCount(m: Store, eligible: Devices, secret: Secret, device: Device)
    requires eligible.Keys <= m.devices.Keys && |m.devices| <= MAX_DEVICES
    requires secret in eligible || |eligible| < MAX_DEVICES
    ensures |eligible[secret := device]| <= MAX_DEVICES
  {
    var next := eligible[secret := device];
    assert next.Keys == eligible.Keys + {secret};
    MapSize(next);
    MapSize(eligible);
    SubmapSmaller(eligible, m.devices);
  }

  /** The secret an operation may make live. */
  function Registers(op: Op): set<Secret> {
    if op.Register? && op.r.secret.Some? then {op.r.secret.value} else {}
  }

  /** Devices leave only into the tombstones, and only a registration adds one. */
  ghost predicate Flows(m: Store, op: Op, next: Store) {
    && m.revoked <= next.revoked
    && m.devices.Keys <= next.devices.Keys + next.revoked
    && next.devices.Keys <= m.devices.Keys + Registers(op)
    && (op.Unregister? ==> op.secret.Some? && op.secret.value in next.revoked)
  }

  lemma {:induction false} AskedFlows(m: Store, op: Op, auth: Auth.Memory, now: real)
    ensures match Asked(m, op, auth, now)
            case Ok(next) => Flows(m, op, next) && (!Writes(m, op) ==> next == m)
            case Err(reply) => reply != Accepted
  {
  }

  /** Every store an operation asks for keeps devices and tombstones apart, and the devices bounded. */
  lemma {:induction false} AskedKeeps(m: Store, op: Op, auth: Auth.Memory, now: real)
    requires Consistent(m) && Asked(m, op, auth, now).Ok?
    ensures var next := Asked(m, op, auth, now).value;
            next.devices.Keys !! next.revoked && |next.devices| <= MAX_DEVICES
  {
    match op {
      case Register(r, session, username, origin, _) =>
        var device := Device(r.installation, r.token, r.environment, username, session, origin);
        RegisteredCount(m, Eligible(m.devices, auth, now), r.secret.value, device);
      case Unregister(secret, _) => SubmapSmaller(m.devices - {secret.value}, m.devices);
      case Prune => SubmapSmaller(Eligible(m.devices, auth, now), m.devices);
      case Invalidate(secret) => SubmapSmaller(m.devices - {secret}, m.devices);
    }
  }

  /** What a finished operation guarantees about the store it found. */
  ghost predicate Kept(m: Store, file: Option<Store>, op: Op, r: Outcome) {
    && Sound(r.memory, r.file)
    && m.revoked <= r.memory.revoked
    && m.devices.Keys <= r.memory.devices.Keys + r.memory.revoked
    && r.memory.devices.Keys <= m.devices.Keys + Registers(op)
    && (r.reply == Accepted ==> Flows(m, op, r.memory))
    && (r.reply != Accepted ==> r.memory == m && r.file == file)
  }

  lemma {:induction false} ConcludeKeeps(m: Store, file: Option<Store>, op: Op, asked: Result<Store, Reply>, written: bool)
    requires Sound(m, file)
    requires asked.Err? ==> asked.error != Accepted
    requires asked.Ok? ==> && Flows(m, op, asked.value) && (!Writes(m, op) ==> asked.value == m)
                           && asked.value.devices.Keys !! asked.value.revoked && |asked.value.devices| <= MAX_DEVICES
    ensures Kept(m, file, op, Conclude(m, file, asked, Writes(m, op), written))
  {
  }

  /**
   Main result: every operation, succeeding or failing, keeps the store consistent and reloadable, loses
   no tombstone and no device except into the tombstones; a failure changes nothing.
   */
  lemma {:induction false} PerformKeeps(m: Store, file: Option<Store>, op: Op, auth: Auth.Memory, now: real, written: bool)
    requires Sound(m, file)
    ensures Kept(m, file, op, Perform(m, file, op, auth, now, written))
  {
    AskedFlows(m, op, auth, now);
    if Asked(m, op, auth, now).Ok? {
      AskedKeeps(m, op, auth, now);
    }
    ConcludeKeeps(m, file, op, Asked(m, op, auth, now), written);
  }

  /** The device under a registered secret is never taken over by another account or installation. */
  lemma {:induction false} OwnerStays(m: Store, file: Option<Store>, op: Op, auth: Auth.Memory, now: real,
                                      written: bool, secret: Secret)
    requires secret in m.devices
    ensures var m' := Perform(m, file, op, auth, now, written).memory;
            secret in m'.devices ==> m'.devices[secret].username == m.devices[secret].username
                                     && m'.devices[secret].installation == m.devices[secret].installation
  {
  }

  /** A live device was there before, of the same installation, or is the one just registered. */
  ghost predicate Placed(m: Store, op: Op, next: Store, secret: Secret)
    requires secret in next.devices
  {
    || (secret in m.devices && next.devices[secret].installation == m.devices[secret].installation)
    || (op.Register? && op.r.secret == Some(secret) && next.devices[secret].installation == op.r.installation)
  }

  lemma {:induction false} AskedPlaced(m: Store, op: Op, auth: Auth.Memory, now: real, secret: Secret)
    requires Asked(m, op, auth, now).Ok? && secret in Asked(m, op, auth, now).value.devices
    ensures Placed(m, op, Asked(m, op, auth, now).value, secret)
  {
  }

  lemma {:induction false} ConcludedWhich(m: Store, file: Option<Store>, op: Op, auth: Auth.Memory, now: real, written: bool)
    ensures var memory := Perform(m, file, op, auth, now, written).memory;
            memory == m || (Asked(m, op, auth, now).Ok? && memory == Asked(m, op, auth, now).value)
  {
  }

  lemma {:induction false} DevicesPlaced(m: Store, file: Option<Store>, op: Op, auth: Auth.Memory, now: real,
                                         written: bool, secret: Secret)
    requires secret in Perform(m, file, op, auth, now, written).memory.devices
    ensures Placed(m, op, Perform(m, file, op, auth, now, written).memory, secret)
  {
    ConcludedWhich(m, file, op, auth, now, written);
    if Perform(m, file, op, auth, now, written).memory != m {
      AskedPlaced(m, op, auth, now, secret);
    }
  }

  // ---------- runs with crashes ----------

  /** `acked` are the secrets whose revocation was acknowledged to a client. */
  datatype World = World(memory: Option<Store>, file: Option<Store>, acked: set<Secret>)

  datatype Step =
    | Finish(op: Op, auth: Auth.Memory, now: real, written: bool)
    | Crash(op: Op, auth: Auth.Memory, now: real, written: bool)   // dies inside the operation, before replying
    | Boot

  function Acknowledged(op: Op, r: Outcome): set<Secret> {
    if op.Unregister? && op.secret.Some? && r.reply == Accepted then {op.secret.value} else {}
  }

  function Concluded(w: World, op: Op, r: Outcome): World {
    World(Some(r.memory), r.file, w.acked + Acknowledged(op, r))
  }

  ghost predicate Next(w: World, step: Step, v: World) {
    match step
    case Finish(op, auth, now, written) =>
      && w.memory.Some?
      && v == Concluded(w, op, Perform(w.memory.value, w.file, op, auth, now, written))
    case Crash(op, auth, now, written) =>
      && w.memory.Some?
      && v == World(None, Perform(w.memory.value, w.file, op, auth, now, written).file, w.acked)
    case Boot => Loaded(w.file).Ok? && v == w.(memory := Some(Loaded(w.file).value))
  }

  /** A host starts with no file, or with one that an earlier run left. */
  ghost predicate Initial(w: World) {
    w.memory.None? && w.acked == {} && (w.file.None? || Consistent(w.file.value))
  }

  ghost predicate Run(ws: seq<World>, steps: seq<Step>) {
    && |ws| == |steps| + 1 && Initial(ws[0])
    && forall i | 0 <= i < |steps| :: Next(ws[i], steps[i], ws[i + 1])
  }

  /** The tombstones that would survive a crash now. */
  function Durable(w: World): set<Secret> {
    Content(w.file).revoked
  }

  ghost predicate Invariant(w: World) {
    && Consistent(Content(w.file))
    && (w.memory.Some? ==> w.memory.value == Content(w.file))
    && w.acked <= Durable(w)
  }

  lemma {:induction false} ConcludedKeeps(w: World, op: Op, r: Outcome)
    requires Invariant(w) && w.memory.Some? && Kept(w.memory.value, w.file, op, r)
    ensures var v := Concluded(w, op, r);
            && Invariant(v) && Durable(w) <= Durable(v) && w.acked <= v.acked
            && Invariant(World(None, r.file, w.acked))
  {
  }

  lemma {:induction false} NextKeeps(w: World, step: Step, v: World)
    requires Invariant(w) && Next(w, step, v)
    ensures Invariant(v) && Durable(w) <= Durable(v) && w.acked <= v.acked
  {
    if !step.Boot? {
      PerformKeeps(w.memory.value, w.file, step.op, step.auth, step.now, step.written);
      ConcludedKeeps(w, step.op, Perform(w.memory.value, w.file, step.op, step.auth, step.now, step.written));
    }
  }

  lemma {:induction false} RunKeeps(ws: seq<World>, steps: seq<Step>, i: nat, j: nat)
    requires Run(ws, steps) && i <= j < |ws|
    ensures Invariant(ws[j]) && Durable(ws[i]) <= Durable(ws[j]) && ws[i].acked <= ws[j].acked
    decreases j
  {
    if j > 0 {
      RunKeeps(ws, steps, if i < j then i else j - 1, j - 1);
      NextKeeps(ws[j - 1], steps[j - 1], ws[j]);
    }
  }

  /**
   Main result: over any run with crashes anywhere, a revocation once acknowledged is in the file and in
   memory ever after, its secret is never live again, and the file can always be loaded.
   */
  lemma {:induction false} AcknowledgedForGood(ws: seq<World>, steps: seq<Step>, i: nat, j: nat, secret: Secret)
    requires Run(ws, steps) && i <= j < |ws| && secret in ws[i].acked
    ensures secret in Durable(ws[j]) && Loaded(ws[j].file).Ok?
    ensures ws[j].memory.Some? ==> secret in ws[j].memory.value.revoked && secret !in ws[j].memory.value.devices
  {
    RunKeeps(ws, steps, i, j);
  }

  function OwnerOf(s: Store, secret: Secret): Option<(string, string)> {
    if secret in s.devices then Some((s.devices[secret].username, s.devices[secret].installation)) else None
  }

  lemma {:induction false} NeverBack(ws: seq<World>, steps: seq<Step>, i: nat, k: nat, secret: Secret)
    requires Run(ws, steps) && i <= k < |ws|
    ensures secret in Durable(ws[i]) ==> OwnerOf(Content(ws[k].file), secret).None?
  {
    RunKeeps(ws, steps, i, k);
  }

  /**
   A secret that is live at two moments of a run belongs to the same account and installation at both, and
   was live all the while: once gone it never returns.
   */
  lemma {:induction false} SecretKeepsOwner(ws: seq<World>, steps: seq<Step>, i: nat, j: nat, k: nat, secret: Secret)
    requires Run(ws, steps) && i <= j <= k < |ws|
    requires OwnerOf(Content(ws[i].file), secret).Some? && OwnerOf(Content(ws[k].file), secret).Some?
    ensures OwnerOf(Content(ws[j].file), secret) == OwnerOf(Content(ws[i].file), secret)
    decreases j
  {
    if i < j {
      SecretKeepsOwner(ws, steps, i, j - 1, k, secret);
      RunKeeps(ws, steps, j - 1, j - 1);
      StepKeepsOwner(ws[j - 1], steps[j - 1], ws[j], secret);
      NeverBack(ws, steps, j, k, secret);
    }
  }

  lemma {:induction false} StepKeepsOwner(w: World, step: Step, v: World, secret: Secret)
    requires Invariant(w) && Next(w, step, v) && OwnerOf(Content(w.file), secret).Some?
    ensures OwnerOf(Content(v.file), secret) == OwnerOf(Content(w.file), secret) || secret in Durable(v)
  {
    if !step.Boot? {
      PerformKeeps(w.memory.value, w.file, step.op, step.auth, step.now, step.written);
      OwnerStays(w.memory.value, w.file, step.op, step.auth, step.now, step.written, secret);
    }
  }

  /** Together with the account store: an eligible device rests on a login under the current table. */
  lemma {:induction false} EligibleRestsOnCurrentTable(auths: seq<Auth.World>, steps: seq<Auth.Step>, i: nat,
                                                       devices: Devices, now: real, secret: Secret)
    requires Auth.Run(auths, steps) && i < |auths| && auths[i].memory.Some?
    requires secret in Eligible(devices, auths[i].memory.value, now)
    ensures var session := devices[secret].session;
            && session in auths[i].minted
            && auths[i].minted[session] == auths[i].memory.value.users
            && devices[secret].username in auths[i].memory.value.users
  {
    Auth.SessionsMatchTable(auths, steps, i, devices[secret].session);
  }

  // ---------- the service object ----------

  class HostPush {
    var devices: Devices
    var revoked: set<Secret>
    var file: Option<Store>

    ghost function InMemory(): Store
      reads this
    {
      Store(devices, revoked)
    }

    constructor (file: Option<Store>)
      requires Loaded(file).Ok?
      ensures InMemory() == Loaded(file).value && this.file == file
    {
      var s := if file.Some? then file.value else EMPTY;
      devices, revoked, this.file := s.devices, s.revoked, file;
    }

    /** Write and sync a temporary file, then move it over the store. */
    method Replace(s: Store) returns (ok: bool)
      modifies `file
      ensures file == if ok then Some(s) else old(file)
    {
      ok := *;
      if ok {
        file := Some(s);
      }
    }

    method Save(next: Devices, tombstones: set<Secret>) returns (reply: Reply)
      modifies this
      ensures var s := Merged(old(InMemory()), next, tombstones);
              if |s.revoked| > MAX_REVOKED then reply == BadRequest
              else reply == Accepted || reply == Unavailable
      ensures reply == Accepted ==>
                var s := Merged(old(InMemory()), next, tombstones); InMemory() == s && file == Some(s)
      ensures reply != Accepted ==> InMemory() == old(InMemory()) && file == old(file)
    {
      var all := tombstones + (devices.Keys - next.Keys);
      if |all| > MAX_REVOKED {
        return BadRequest;
      }
      var ok := Replace(Store(next, all));
      if !ok {
        return Unavailable;
      }
      devices, revoked := next, all;
      reply := Accepted;
    }

    /** Memory, file and reply are those of the operation, with the write succeeding or not. */
    twostate predicate Performed(op: Op, auth: Auth.Memory, now: real, reply: Reply)
      reads this
    {
      || Outcome(InMemory(), file, reply) == Perform(old(InMemory()), old(file), op, auth, now, true)
      || Outcome(InMemory(), file, reply) == Perform(old(InMemory()), old(file), op, auth, now, false)
    }

    method Register(r: Registration, session: Auth.SessionKey, username: string, origin: string, configured: bool,
                    auth: Auth.Memory, now: real) returns (reply: Reply)
      modifies this
      ensures Performed(Op.Register(r, session, username, origin, configured), auth, now, reply)
    {
      if !r.valid || r.secret.None? {
        return BadRequest;
      }
      if !configured {
        return Unavailable;
      }
      if !LoggedIn(session, auth, now) {
        return Unauthorized;
      }
      var secret := r.secret.value;
      if secret in revoked {
        return BadRequest;
      }
      if secret in devices && (devices[secret].username != username || devices[secret].installation != r.installation) {
        return Unauthorized;
      }
      var eligible := Eligible(devices, auth, now);
      if secret !in eligible && |eligible| >= MAX_DEVICES {
        return BadRequest;
      }
      reply := Save(eligible[secret := Device(r.installation, r.token, r.environment, username, session, origin)], revoked);
    }

    method Unregister(secret: Option<Secret>, session: Auth.SessionKey, auth: Auth.Memory, now: real)
      returns (reply: Reply)
      modifies this
      ensures Performed(Op.Unregister(secret, session), auth, now, reply)
    {
      if secret.None? {
        return BadRequest;
      }
      if secret.value !in revoked {
        if secret.value !in devices && !LoggedIn(session, auth, now) {
          return Unauthorized;
        }
        if |revoked| >= MAX_REVOKED {
          return BadRequest;
        }
        reply := Save(devices - {secret.value}, revoked + {secret.value});
      } else {
        reply := Accepted;
      }
    }

    /** The observer's housekeeping; it saves only when some device is no longer eligible. */
    method DropIneligible(auth: Auth.Memory, now: real) returns (reply: Reply)
      modifies this
      ensures Performed(Prune, auth, now, reply)
              || (reply == Accepted && InMemory() == old(InMemory()) && file == old(file)
                  && Eligible(devices, auth, now) == devices)
    {
      var eligible := Eligible(devices, auth, now);
      if eligible == devices {
        return Accepted;
      }
      reply := Save(eligible, revoked);
    }

    method DropInvalid(secret: Secret, auth: Auth.Memory, now: real) returns (reply: Reply)
      modifies this
      ensures Performed(Invalidate(secret), auth, now, reply)
    {
      reply := Save(devices - {secret}, revoked);
    }
  }
}
