/**
 The push-subscription protocol between iOS installations and hosts. A phone runs as segments between
 suspension points; requests and acknowledgments may be lost, delayed, duplicated or reordered; phones
 and hosts may die at any time, a host also in the middle of an operation.
 */
module PushProtocol {
  import opened Wrappers
  import Push = HostPush
  import Auth = HostAuth

  type HostId = nat
  type PhoneId = string   // the installation id
  type Secret = Push.Secret

  /** A host address. It always leads to the same host; `parses` says whether it is a usable URL. */
  datatype Origin = Origin(url: string, host: HostId, parses: bool)

  // ---------- the phone ----------

  datatype Record = Record(origin: Option<Origin>, secret: Option<Secret>)

  /** Inside `revoke`: waiting for cookies, then for the host's answer. */
  datatype Revoke = Cookies(origin: Origin, secret: Secret) | Asked(origin: Origin, secret: Secret)

  /** Why a switch is under way: the user chose another host (or none), or denied notifications. */
  datatype Goal = To(next: Option<Origin>) | Denied

  datatype Switcher = NoSwitch | WaitingForRefresh(goal: Goal) | Revoking(goal: Goal, revoke: Revoke)

  datatype Refresh =
    | NoRefresh
    | Checking(origin: Origin)
    | Registering(origin: Origin, secret: Secret, attempt: nat)
    | Unregistering(origin: Origin, retry: bool, revoke: Revoke)

  datatype App = Off | On(record: Record, switching: bool, switcher: Switcher, refresh: Refresh)

  /** The keychain outlives the app. */
  datatype Phone = Phone(keychain: Record, app: App)

  datatype Check = GiveUp | NoService | Ready
  datatype Code = Registered | Refused | Failed

  /** One segment; the flags say how keychain writes and the random source turned out. */
  datatype Segment =
    | Launch
    | Kill
    | BeginSwitch(goal: Goal)
    | ProceedSwitch(saved: bool)
    | AskSwitch
    | AnswerSwitch(confirmed: bool, cleared: bool, saved: bool)
    | BeginRefresh
    | Checked(check: Check, random: Secret, saved: bool)
    | RegisterAnswered(code: Code, random: Secret, saved: bool)
    | AskRefresh
    | AnswerRefresh(confirmed: bool, cleared: bool, random: Secret, saved: bool)

  datatype Message =
    | RegisterSent(origin: Origin, secret: Secret, phone: PhoneId)
    | UnregisterSent(origin: Origin, secret: Secret)
    | Acknowledged(origin: Origin, secret: Secret)

  /** The phone after a segment, what it sent, and the secret it drew, if any. */
  datatype Turn = Turn(phone: Phone, sent: set<Message>, drawn: Option<Secret>)

  function Quiet(a: Phone): Turn {
    Turn(a, {}, None)
  }

  /** `persist`: the keychain first, then memory; a failed write changes neither. */
  function Persist(a: Phone, updated: Record, ok: bool): Phone
    requires a.app.On?
  {
    if ok then Phone(updated, a.app.(record := updated)) else a
  }

  function EndSwitch(a: Phone): Phone
    requires a.app.On?
  {
    a.(app := a.app.(switching := false, switcher := NoSwitch))
  }

  function InRefresh(a: Phone, refresh: Refresh): Phone
    requires a.app.On?
  {
    a.(app := a.app.(refresh := refresh))
  }

  /** The entry of `revoke`: nothing to do without a secret and a usable origin. */
  function StartRevoke(r: Record): Option<Revoke> {
    if r.secret.Some? && r.origin.Some? && r.origin.value.parses
    then Some(Cookies(r.origin.value, r.secret.value)) else None
  }

  /** The rest of a switch once `revoke` has returned. */
  function FinishSwitch(a: Phone, goal: Goal, saved: bool): Phone
    requires a.app.On?
  {
    match goal
    case To(next) => EndSwitch(Persist(a, a.app.record.(origin := next), saved))
    case Denied => EndSwitch(a)
  }

  /** One registration attempt: draw and persist a secret if there is none, then send it. */
  function SendRegister(p: PhoneId, a: Phone, origin: Origin, attempt: nat, random: Secret, saved: bool): Turn
    requires a.app.On?
  {
    match a.app.record.secret
    case Some(secret) =>
      Turn(InRefresh(a, Registering(origin, secret, attempt)), {RegisterSent(origin, secret, p)}, None)
    case None =>
      if !saved then Quiet(InRefresh(a, NoRefresh)) else
      var b := Persist(a, a.app.record.(secret := Some(random)), true);
      Turn(InRefresh(b, Registering(origin, random, attempt)), {RegisterSent(origin, random, p)}, Some(random))
  }

  function Act(p: PhoneId, a: Phone, step: Segment): Option<Turn> {
    if step.Launch? then
      if a.app.Off? then Some(Quiet(a.(app := On(a.keychain, false, NoSwitch, NoRefresh)))) else None
    else if a.app.Off? then None
    else ActOn(p, a, step)
  }

  function ActOn(p: PhoneId, a: Phone, step: Segment): Option<Turn>
    requires a.app.On?
  {
    var app := a.app;
    match step
    case Launch => None
    case Kill => Some(Quiet(a.(app := Off)))
    case BeginSwitch(goal) =>
      if app.switching then None
      else Some(Quiet(a.(app := app.(switching := true, switcher := WaitingForRefresh(goal)))))
    case ProceedSwitch(saved) =>
      if !app.switcher.WaitingForRefresh? || app.refresh != NoRefresh then None
      else
        var goal := app.switcher.goal;
        if goal.To? && app.record.origin == goal.next then Some(Quiet(EndSwitch(a)))
        else (match StartRevoke(app.record)
              case Some(revoke) => Some(Quiet(a.(app := app.(switcher := Revoking(goal, revoke)))))
              case None => Some(Quiet(FinishSwitch(a, goal, saved))))
    case AskSwitch =>
      if !app.switcher.Revoking? || !app.switcher.revoke.Cookies? then None
      else
        var (o, s) := (app.switcher.revoke.origin, app.switcher.revoke.secret);
        Some(Turn(a.(app := app.(switcher := Revoking(app.switcher.goal, Asked(o, s)))), {UnregisterSent(o, s)}, None))
    case AnswerSwitch(confirmed, cleared, saved) =>
      if !app.switcher.Revoking? || !app.switcher.revoke.Asked? then None
      else if !confirmed || !cleared then Some(Quiet(EndSwitch(a)))
      else Some(Quiet(FinishSwitch(Persist(a, app.record.(secret := None), true), app.switcher.goal, saved)))
    case BeginRefresh =>
      if app.switching || app.refresh != NoRefresh || app.record.origin.None? then None
      else if !app.record.origin.value.parses then Some(Quiet(a))
      else Some(Quiet(InRefresh(a, Checking(app.record.origin.value))))
    case Checked(check, random, saved) =>
      if !app.refresh.Checking? then None
      else (match check
            case GiveUp => Some(Quiet(InRefresh(a, NoRefresh)))
            case NoService =>
              (match StartRevoke(app.record)
               case Some(revoke) => Some(Quiet(InRefresh(a, Unregistering(app.refresh.origin, false, revoke))))
               case None => Some(Quiet(InRefresh(a, NoRefresh))))
            case Ready => Some(SendRegister(p, a, app.refresh.origin, 0, random, saved)))
    case RegisterAnswered(code, random, saved) =>
      if !app.refresh.Registering? then None
      else if !code.Refused? || app.refresh.attempt != 0 then Some(Quiet(InRefresh(a, NoRefresh)))
      else (match StartRevoke(app.record)
            case Some(revoke) => Some(Quiet(InRefresh(a, Unregistering(app.refresh.origin, true, revoke))))
            case None => Some(SendRegister(p, a, app.refresh.origin, 1, random, saved)))
    case AskRefresh =>
      if !app.refresh.Unregistering? || !app.refresh.revoke.Cookies? then None
      else
        var (o, s) := (app.refresh.revoke.origin, app.refresh.revoke.secret);
        Some(Turn(InRefresh(a, Unregistering(app.refresh.origin, app.refresh.retry, Asked(o, s))),
                  {UnregisterSent(o, s)}, None))
    case AnswerRefresh(confirmed, cleared, random, saved) =>
      if !app.refresh.Unregistering? || !app.refresh.revoke.Asked? then None
      else if !confirmed || !cleared then Some(Quiet(InRefresh(a, NoRefresh)))
      else
        var b := Persist(a, app.record.(secret := None), true);
        if app.refresh.retry then Some(SendRegister(p, b, app.refresh.origin, 1, random, saved))
        else Some(Quiet(InRefresh(b, NoRefresh)))
  }

  /** The revocation whose answer a segment takes as confirmed, if it does. */
  function Confirms(a: Phone, step: Segment): Option<Revoke> {
    if a.app.Off? then None
    else if step.AnswerSwitch? && step.confirmed && a.app.switcher.Revoking? then Some(a.app.switcher.revoke)
    else if step.AnswerRefresh? && step.confirmed && a.app.refresh.Unregistering? then Some(a.app.refresh.revoke)
    else None
  }

  /** The secret a segment may draw. */
  function Draws(step: Segment): Option<Secret> {
    if step.Checked? || step.RegisterAnswered? || step.AnswerRefresh? then Some(step.random) else None
  }

  // ---------- what one phone guarantees ----------

  /** A revocation under way is of the recorded subscription, at the recorded origin. */
  ghost predicate Tracks(revoke: Revoke, r: Record) {
    r == Record(Some(revoke.origin), Some(revoke.secret))
  }

  ghost predicate Orderly(a: Phone) {
    && (a.keychain.secret.Some? ==> a.keychain.origin.Some? && a.keychain.origin.value.parses)
    && (a.app.On? ==>
          && a.app.record == a.keychain
          && (a.app.switching <==> a.app.switcher != NoSwitch)
          && (a.app.switcher.Revoking? ==> a.app.refresh == NoRefresh && Tracks(a.app.switcher.revoke, a.keychain))
          && RefreshOrderly(a.app.refresh, a.keychain))
  }

  ghost predicate RefreshOrderly(refresh: Refresh, r: Record) {
    match refresh
    case NoRefresh => true
    case Checking(origin) => r.origin == Some(origin) && origin.parses
    case Registering(origin, secret, _) => r == Record(Some(origin), Some(secret)) && origin.parses
    case Unregistering(origin, _, revoke) => Tracks(revoke, r) && revoke.origin == origin && origin.parses
  }

  /**
   A segment gives up the recorded subscription only on a confirmed revocation of it, sends registrations
   only for the subscription its keychain already holds, and draws a secret only when it holds none.
   */
  ghost predicate Careful(p: PhoneId, a: Phone, step: Segment, t: Turn) {
    && Orderly(t.phone)
    && (a.keychain.secret.Some? && a.keychain.origin.Some? && t.phone.keychain != a.keychain ==>
          Confirms(a, step) == Some(Asked(a.keychain.origin.value, a.keychain.secret.value)))
    && (forall m | m in t.sent && m.RegisterSent? ::
          m.phone == p && t.phone.keychain == Record(Some(m.origin), Some(m.secret)))
    && (forall m | m in t.sent :: !m.Acknowledged?)
    && (t.drawn.Some? ==> t.drawn == Draws(step) && t.phone.keychain.secret == t.drawn)
    && (t.phone.keychain.secret.Some? && t.drawn.None? ==> t.phone.keychain == a.keychain)
    && (t.phone.keychain.origin != a.keychain.origin ==> t.phone.keychain.secret.None?)
  }

  lemma {:induction false} SendRegisterCareful(p: PhoneId, a: Phone, origin: Origin, attempt: nat, random: Secret, saved: bool)
    requires Orderly(a) && a.app.On? && !a.app.switcher.Revoking?
    requires a.keychain.origin == Some(origin) && origin.parses
    ensures var t := SendRegister(p, a, origin, attempt, random, saved);
            && Orderly(t.phone)
            && (forall m | m in t.sent :: t.phone.keychain.secret.Some?
                                          && m == RegisterSent(origin, t.phone.keychain.secret.value, p))
            && t.phone.keychain.origin == a.keychain.origin
            && (a.keychain.secret.Some? ==> t.phone.keychain == a.keychain && t.drawn.None?)
            && (t.drawn.Some? ==> t.drawn == Some(random) && t.phone.keychain.secret == t.drawn)
            && (t.phone.keychain.secret.Some? && t.drawn.None? ==> t.phone.keychain == a.keychain)
  {
  }

  /** Every segment of every phone is careful: the reentrancy flags are enough. */
  lemma {:induction false} ActCareful(p: PhoneId, a: Phone, step: Segment)
    requires Orderly(a) && Act(p, a, step).Some?
    ensures Careful(p, a, step, Act(p, a, step).value)
  {
    if step.Checked? && step.check.Ready? {
      SendRegisterCareful(p, a, a.app.refresh.origin, 0, step.random, step.saved);
    } else if step.RegisterAnswered? && step.code.Refused? && a.app.refresh.attempt == 0 {
    } else if step.AnswerRefresh? && step.confirmed && step.cleared && a.app.refresh.retry {
      var cleared := Persist(a, a.app.record.(secret := None), true);
      SendRegisterCareful(p, InRefresh(cleared, Checking(a.app.refresh.origin)), a.app.refresh.origin, 1,
                          step.random, step.saved);
    }
  }

  // ---------- phones, hosts and the network together ----------

  /** A host process (absent while it is down) and its store file. */
  datatype Node = Node(memory: Option<Push.Store>, file: Option<Push.Store>)

  /** Where a secret was drawn, and for which host. */
  datatype Issue = Issue(phone: PhoneId, origin: Origin)

  /** Messages stay in `net` for ever: any copy may still arrive, or never. */
  datatype World = World(phones: map<PhoneId, Phone>, nodes: map<HostId, Node>, net: set<Message>,
                         issued: map<Secret, Issue>)

  datatype Step =
    | PhoneStep(phone: PhoneId, segment: Segment)
    | HostStep(host: HostId, op: Push.Op, message: Option<Message>, auth: Auth.Memory, now: real, written: bool, dies: bool)
    | HostBoot(host: HostId)

  /** The operation a request asks of a host; everything but secret and installation is up to the sender. */
  ghost predicate Requests(message: Message, host: HostId, op: Push.Op) {
    match message
    case RegisterSent(origin, secret, phone) =>
      origin.host == host && op.Register? && op.r.secret == Some(secret) && op.r.installation == phone
    case UnregisterSent(origin, secret) => origin.host == host && op.Unregister? && op.secret == Some(secret)
    case Acknowledged(_, _) => false
  }

  ghost predicate PhoneNext(w: World, p: PhoneId, segment: Segment, v: World) {
    && p in w.phones
    && var t := Act(p, w.phones[p], segment);
       && t.Some?
       && (match Confirms(w.phones[p], segment)
           case Some(revoke) => Acknowledged(revoke.origin, revoke.secret) in w.net
           case None => true)
       && (t.value.drawn.Some? ==> t.value.drawn.value !in w.issued && t.value.phone.keychain.origin.Some?)
       && v == World(w.phones[p := t.value.phone], w.nodes, w.net + t.value.sent,
                     if t.value.drawn.Some?
                     then w.issued[t.value.drawn.value := Issue(p, t.value.phone.keychain.origin.value)] else w.issued)
  }

  /** A request on its way, or the host's own initiative. */
  ghost predicate Prompted(w: World, step: Step)
    requires step.HostStep?
  {
    match step.message
    case Some(message) => message in w.net && Requests(message, step.host, step.op)
    case None => step.op.Prune? || step.op.Invalidate?
  }

  /** A host serves a request that is on its way, or drops devices on its own; it may die before replying. */
  ghost predicate HostNext(w: World, step: Step, v: World)
    requires step.HostStep?
  {
    && step.host in w.nodes && w.nodes[step.host].memory.Some?
    && Prompted(w, step)
    && var node := w.nodes[step.host];
       v == Served(w, step, Push.Perform(node.memory.value, node.file, step.op, step.auth, step.now, step.written))
  }

  function Served(w: World, step: Step, r: Push.Outcome): World
    requires step.HostStep?
  {
    var node := Node(if step.dies then None else Some(r.memory), r.file);
    var answers := !step.dies && r.reply == Push.Accepted && step.message.Some? && step.message.value.UnregisterSent?;
    w.(nodes := w.nodes[step.host := node],
       net := if answers then w.net + {Acknowledged(step.message.value.origin, step.message.value.secret)} else w.net)
  }

  ghost predicate Next(w: World, step: Step, v: World) {
    match step
    case PhoneStep(p, segment) => PhoneNext(w, p, segment, v)
    case HostStep(_, _, _, _, _, _, _) => HostNext(w, step, v)
    case HostBoot(h) =>
      && h in w.nodes && Push.Loaded(w.nodes[h].file).Ok?
      && v == w.(nodes := w.nodes[h := w.nodes[h].(memory := Some(Push.Loaded(w.nodes[h].file).value))])
  }

  /** No phone has subscribed yet, and no host has a store. */
  ghost predicate Initial(w: World) {
    && w.net == {} && w.issued == map[]
    && (forall p | p in w.phones :: w.phones[p] == Phone(Record(None, None), Off))
    && (forall h | h in w.nodes :: w.nodes[h] == Node(None, None))
  }

  ghost predicate Run(ws: seq<World>, steps: seq<Step>) {
    && |ws| == |steps| + 1 && Initial(ws[0])
    && forall i | 0 <= i < |steps| :: Next(ws[i], steps[i], ws[i + 1])
  }

  // ---------- the invariant ----------

  function Stored(w: World, h: HostId): Push.Store {
    if h in w.nodes then Push.Content(w.nodes[h].file) else Push.EMPTY
  }

  predicate Tombstoned(w: World, h: HostId, s: Secret) {
    s in Stored(w, h).revoked
  }

  /** The phone's keychain holds this very subscription. */
  predicate Recorded(w: World, p: PhoneId, o: Origin, s: Secret) {
    p in w.phones && w.phones[p].keychain == Record(Some(o), Some(s))
  }

  ghost predicate NodesSound(w: World) {
    forall h | h in w.nodes ::
      && Push.Consistent(Push.Content(w.nodes[h].file))
      && (w.nodes[h].memory.Some? ==> w.nodes[h].memory.value == Push.Content(w.nodes[h].file))
  }

  ghost predicate PhonesOrderly(w: World) {
    forall p | p in w.phones ::
      && Orderly(w.phones[p])
      && (w.phones[p].keychain.secret.Some? ==>
            && w.phones[p].keychain.secret.value in w.issued
            && w.issued[w.phones[p].keychain.secret.value] == Issue(p, w.phones[p].keychain.origin.value))
  }

  /** A secret that any message names is tombstoned at its host or still the one its phone has on record. */
  ghost predicate SecretsAccounted(w: World) {
    forall s | s in w.issued ::
      Tombstoned(w, w.issued[s].origin.host, s) || Recorded(w, w.issued[s].phone, w.issued[s].origin, s)
  }

  ghost predicate NetSound(w: World) {
    forall m | m in w.net ::
      && (m.RegisterSent? ==> m.secret in w.issued && w.issued[m.secret] == Issue(m.phone, m.origin))
      && (m.Acknowledged? ==> Tombstoned(w, m.origin.host, m.secret))
  }

  ghost predicate LiveIssued(w: World) {
    forall h, s | h in w.nodes && s in Stored(w, h).devices ::
      s in w.issued && w.issued[s].origin.host == h && Stored(w, h).devices[s].installation == w.issued[s].phone
  }

  ghost predicate Invariant(w: World) {
    NodesSound(w) && PhonesOrderly(w) && SecretsAccounted(w) && NetSound(w) && LiveIssued(w)
  }

  lemma {:induction false} PhoneNextKeeps(w: World, p: PhoneId, segment: Segment, v: World)
    requires Invariant(w) && PhoneNext(w, p, segment, v)
    ensures Invariant(v)
  {
    var a := w.phones[p];
    var t := Act(p, a, segment).value;
    ActCareful(p, a, segment);
    PhoneLedgerKeeps(w, p, segment, t, v);
  }

  /** The world after a careful segment. */
  ghost predicate Turned(w: World, p: PhoneId, segment: Segment, t: Turn, v: World) {
    && p in w.phones && Careful(p, w.phones[p], segment, t)
    && (Confirms(w.phones[p], segment).Some? ==>
          var revoke := Confirms(w.phones[p], segment).value; Acknowledged(revoke.origin, revoke.secret) in w.net)
    && (t.drawn.Some? ==> t.drawn.value !in w.issued && t.phone.keychain.origin.Some?)
    && v == World(w.phones[p := t.phone], w.nodes, w.net + t.sent,
                  if t.drawn.Some?
                  then w.issued[t.drawn.value := Issue(p, t.phone.keychain.origin.value)] else w.issued)
  }

  lemma {:induction false} TurnedPhones(w: World, p: PhoneId, segment: Segment, t: Turn, v: World)
    requires Invariant(w) && Turned(w, p, segment, t, v)
    ensures PhonesOrderly(v)
  {
    forall q | q in v.phones && v.phones[q].keychain.secret.Some?
      ensures v.phones[q].keychain.secret.value in v.issued
              && v.issued[v.phones[q].keychain.secret.value] == Issue(q, v.phones[q].keychain.origin.value)
    {
      if q != p {
        assert w.phones[q] == v.phones[q];
      }
    }
  }

  lemma {:induction false} TurnedSecrets(w: World, p: PhoneId, segment: Segment, t: Turn, v: World)
    requires Invariant(w) && Turned(w, p, segment, t, v)
    ensures SecretsAccounted(v)
  {
    assert forall h :: Stored(v, h) == Stored(w, h);
    forall s | s in v.issued
      ensures Tombstoned(v, v.issued[s].origin.host, s) || Recorded(v, v.issued[s].phone, v.issued[s].origin, s)
    {
      if s in w.issued && v.issued[s] == w.issued[s] && !Tombstoned(w, w.issued[s].origin.host, s) {
        assert Recorded(w, w.issued[s].phone, w.issued[s].origin, s);
      }
    }
  }

  lemma {:induction false} TurnedNet(w: World, p: PhoneId, segment: Segment, t: Turn, v: World)
    requires Invariant(w) && Turned(w, p, segment, t, v)
    ensures NodesSound(v) && NetSound(v) && LiveIssued(v)
  {
    assert forall h :: Stored(v, h) == Stored(w, h);
  }

  /** The bookkeeping of a careful segment. */
  lemma {:induction false} PhoneLedgerKeeps(w: World, p: PhoneId, segment: Segment, t: Turn, v: World)
    requires Invariant(w) && Turned(w, p, segment, t, v)
    ensures Invariant(v)
  {
    TurnedPhones(w, p, segment, t, v);
    TurnedSecrets(w, p, segment, t, v);
    TurnedNet(w, p, segment, t, v);
  }

  /** A host step changes one store, whose tombstones only grow and whose new devices were requested. */
  lemma {:induction false} HostNextKeeps(w: World, step: Step, v: World)
    requires Invariant(w) && step.HostStep? && HostNext(w, step, v)
    ensures Invariant(v)
  {
    var node := w.nodes[step.host];
    var r := Push.Perform(node.memory.value, node.file, step.op, step.auth, step.now, step.written);
    Push.PerformKeeps(node.memory.value, node.file, step.op, step.auth, step.now, step.written);
    forall s | s in r.memory.devices ensures Push.Placed(node.memory.value, step.op, r.memory, s) {
      Push.DevicesPlaced(node.memory.value, node.file, step.op, step.auth, step.now, step.written, s);
    }
    ServedKeeps(w, step, r);
  }

  /** No host forgets a tombstone between `w` and `v`, and no phone or issue changes. */
  ghost predicate OnlyStoresChange(w: World, v: World) {
    && v.phones == w.phones && v.issued == w.issued
    && forall g, s | Tombstoned(w, g, s) :: Tombstoned(v, g, s)
  }

  lemma {:induction false} LedgerGrows(w: World, v: World)
    requires Invariant(w) && OnlyStoresChange(w, v)
    requires forall m | m in v.net && m !in w.net :: m.Acknowledged? && Tombstoned(v, m.origin.host, m.secret)
    ensures PhonesOrderly(v) && SecretsAccounted(v) && NetSound(v)
  {
  }

  lemma {:induction false} ServedStores(w: World, step: Step, r: Push.Outcome)
    requires Invariant(w) && step.HostStep? && step.host in w.nodes && w.nodes[step.host].memory.Some?
    requires Push.Kept(w.nodes[step.host].memory.value, w.nodes[step.host].file, step.op, r)
    ensures var v := Served(w, step, r);
            && NodesSound(v) && OnlyStoresChange(w, v)
            && Stored(v, step.host) == r.memory && forall g | g != step.host :: Stored(v, g) == Stored(w, g)
  {
  }

  /** An acknowledgment is only sent once the tombstone is in the store. */
  lemma {:induction false} ServedAnswers(w: World, step: Step, r: Push.Outcome)
    requires step.HostStep? && step.host in w.nodes && w.nodes[step.host].memory.Some? && Prompted(w, step)
    requires Push.Kept(w.nodes[step.host].memory.value, w.nodes[step.host].file, step.op, r)
    requires Stored(Served(w, step, r), step.host) == r.memory
    ensures var v := Served(w, step, r);
            forall m | m in v.net && m !in w.net :: m.Acknowledged? && Tombstoned(v, m.origin.host, m.secret)
  {
  }

  /** What becomes live was asked for by a register of the phone it was drawn by. */
  lemma {:induction false} RequestedSecret(w: World, step: Step, s: Secret)
    requires NetSound(w) && step.HostStep? && Prompted(w, step) && step.op.Register? && step.op.r.secret == Some(s)
    ensures s in w.issued && w.issued[s].origin.host == step.host && w.issued[s].phone == step.op.r.installation
  {
    var m := step.message.value;
    assert m in w.net && m.RegisterSent? && m.secret == s;
  }

  lemma {:induction false} ServedLive(w: World, step: Step, r: Push.Outcome)
    requires NetSound(w) && LiveIssued(w) && step.HostStep? && step.host in w.nodes && Prompted(w, step)
    requires forall s | s in r.memory.devices :: Push.Placed(Stored(w, step.host), step.op, r.memory, s)
    requires var v := Served(w, step, r);
             Stored(v, step.host) == r.memory && forall g | g != step.host :: Stored(v, g) == Stored(w, g)
    ensures LiveIssued(Served(w, step, r))
  {
    var v := Served(w, step, r);
    forall g, s | g in v.nodes && s in Stored(v, g).devices
      ensures s in v.issued && v.issued[s].origin.host == g
              && Stored(v, g).devices[s].installation == v.issued[s].phone
    {
      if g != step.host {
        assert s in Stored(w, g).devices;
      } else {
        assert Push.Placed(Stored(w, step.host), step.op, r.memory, s);
        if s !in Stored(w, g).devices || r.memory.devices[s].installation != Stored(w, g).devices[s].installation {
          RequestedSecret(w, step, s);
        }
      }
    }
  }

  lemma {:induction false} ServedKeeps(w: World, step: Step, r: Push.Outcome)
    requires Invariant(w) && step.HostStep? && step.host in w.nodes && w.nodes[step.host].memory.Some? && Prompted(w, step)
    requires Push.Kept(w.nodes[step.host].memory.value, w.nodes[step.host].file, step.op, r)
    requires forall s | s in r.memory.devices :: Push.Placed(w.nodes[step.host].memory.value, step.op, r.memory, s)
    ensures Invariant(Served(w, step, r))
  {
    ServedStores(w, step, r);
    ServedAnswers(w, step, r);
    LedgerGrows(w, Served(w, step, r));
    assert w.nodes[step.host].memory.value == Stored(w, step.host);
    ServedLive(w, step, r);
  }

  lemma {:induction false} NextKeeps(w: World, step: Step, v: World)
    requires Invariant(w) && Next(w, step, v)
    ensures Invariant(v)
  {
    match step {
      case PhoneStep(p, segment) => PhoneNextKeeps(w, p, segment, v);
      case HostStep(_, _, _, _, _, _, _) => HostNextKeeps(w, step, v);
      case HostBoot(h) => assert forall g :: Stored(v, g) == Stored(w, g);
    }
  }

  lemma {:induction false} RunKeeps(ws: seq<World>, steps: seq<Step>, i: nat)
    requires Run(ws, steps) && i < |ws|
    ensures Invariant(ws[i])
  {
    if i > 0 {
      RunKeeps(ws, steps, i - 1);
      NextKeeps(ws[i - 1], steps[i - 1], ws[i]);
    }
  }

  // ---------- what it is for ----------

  /** A secret of phone `p` that is live at host `h`, or that a register still on its way could make live. */
  ghost predicate Threatens(w: World, p: PhoneId, h: HostId, s: Secret) {
    || (h in w.nodes && s in Stored(w, h).devices && s in w.issued && w.issued[s].phone == p)
    || (exists m :: m in w.net && m.RegisterSent? && m.secret == s && m.phone == p && m.origin.host == h)
  }

  /** Live at a running host, or restored to life by its next start. */
  predicate Live(w: World, h: HostId, s: Secret) {
    h in w.nodes && s in Stored(w, h).devices
  }

  /**
   Main result: over any run, whatever is live at some host or may yet be made so by a register in flight
   is tombstoned there, or is the subscription its phone has on record for that very host.
   */
  lemma {:induction false} LiveOrPendingIsRecorded(ws: seq<World>, steps: seq<Step>, i: nat, p: PhoneId, h: HostId, s: Secret)
    requires Run(ws, steps) && i < |ws| && Threatens(ws[i], p, h, s)
    ensures Tombstoned(ws[i], h, s)
            || (s in ws[i].issued && ws[i].issued[s].origin.host == h && Recorded(ws[i], p, ws[i].issued[s].origin, s))
  {
    RunKeeps(ws, steps, i);
  }

  /** A host never serves a tombstoned secret, in memory or after a restart. */
  lemma {:induction false} TombstonedIsDead(ws: seq<World>, steps: seq<Step>, i: nat, h: HostId, s: Secret)
    requires Run(ws, steps) && i < |ws| && h in ws[i].nodes && Tombstoned(ws[i], h, s)
    ensures !Live(ws[i], h, s)
    ensures ws[i].nodes[h].memory.Some? ==> s !in ws[i].nodes[h].memory.value.devices
  {
    RunKeeps(ws, steps, i);
  }

  /** What is live anywhere is what the phone named in the device has on record, for that host. */
  lemma {:induction false} LiveIsRecorded(w: World, h: HostId, s: Secret)
    requires Invariant(w) && Live(w, h, s)
    ensures s in w.issued && w.issued[s].origin.host == h && Recorded(w, w.issued[s].phone, w.issued[s].origin, s)
    ensures Stored(w, h).devices[s].installation == w.issued[s].phone
  {
    assert !Tombstoned(w, h, s);
  }

  /** Main result: two live devices of one installation, anywhere, are the same subscription of the same host. */
  lemma {:induction false} AtMostOneLive(ws: seq<World>, steps: seq<Step>, i: nat, h: HostId, s: Secret, g: HostId, r: Secret)
    requires Run(ws, steps) && i < |ws| && Live(ws[i], h, s) && Live(ws[i], g, r)
    ensures Stored(ws[i], h).devices[s].installation == Stored(ws[i], g).devices[r].installation ==> s == r && h == g
    ensures s in ws[i].issued && r in ws[i].issued
    ensures ws[i].issued[s].phone == ws[i].issued[r].phone ==> s == r && h == g
  {
    RunKeeps(ws, steps, i);
    LiveIsRecorded(ws[i], h, s);
    LiveIsRecorded(ws[i], g, r);
  }

  /** No secret of the phone is live anywhere, and every register of it in flight meets a tombstone. */
  ghost predicate NothingLeft(w: World, p: PhoneId) {
    forall h, s | Threatens(w, p, h, s) :: Tombstoned(w, h, s) && !Live(w, h, s)
  }

  /** The `i`-th step changed the phone's recorded host. */
  predicate SwitchedAt(ws: seq<World>, i: nat, p: PhoneId)
    requires i < |ws|
  {
    && i > 0 && p in ws[i - 1].phones && p in ws[i].phones
    && ws[i - 1].phones[p].keychain.origin != ws[i].phones[p].keychain.origin
  }

  /** A phone without a secret has nothing left anywhere. */
  lemma {:induction false} SecretlessLeavesNothing(w: World, p: PhoneId)
    requires Invariant(w) && p in w.phones && w.phones[p].keychain.secret.None?
    ensures NothingLeft(w, p)
  {
    forall h, s | Threatens(w, p, h, s) ensures Tombstoned(w, h, s) && !Live(w, h, s) {
      ThreatIsTombstoned(w, p, h, s);
    }
  }

  lemma {:induction false} ThreatIsTombstoned(w: World, p: PhoneId, h: HostId, s: Secret)
    requires Invariant(w) && p in w.phones && w.phones[p].keychain.secret.None? && Threatens(w, p, h, s)
    ensures Tombstoned(w, h, s) && !Live(w, h, s)
  {
    assert s in w.issued && w.issued[s].phone == p && w.issued[s].origin.host == h;
    assert !Recorded(w, p, w.issued[s].origin, s);
  }

  lemma {:induction false} OriginChangeForgets(w: World, step: Step, v: World, p: PhoneId)
    requires Invariant(w) && Next(w, step, v) && p in w.phones && p in v.phones
    requires w.phones[p].keychain.origin != v.phones[p].keychain.origin
    ensures v.phones[p].keychain.secret.None?
  {
    if step.PhoneStep? && step.phone == p {
      ActCareful(p, w.phones[p], step.segment);
    }
  }

  lemma {:induction false} SwitchForgets(ws: seq<World>, steps: seq<Step>, i: nat, p: PhoneId)
    requires Run(ws, steps) && i < |ws| && SwitchedAt(ws, i, p)
    ensures ws[i].phones[p].keychain.secret.None?
  {
    RunKeeps(ws, steps, i - 1);
    assert Next(ws[i - 1], steps[i - 1], ws[i]);
    OriginChangeForgets(ws[i - 1], steps[i - 1], ws[i], p);
  }

  /**
   Main result: when a phone's recorded host changes, nothing of it is live anywhere and no register in
   flight can bring anything back; and so it stays while it has no new secret.
   */
  lemma {:induction false} SwitchLeavesNothing(ws: seq<World>, steps: seq<Step>, i: nat, p: PhoneId)
    requires Run(ws, steps) && i < |ws| && p in ws[i].phones
    ensures ws[i].phones[p].keychain.secret.None? ==> NothingLeft(ws[i], p)
    ensures SwitchedAt(ws, i, p) ==> NothingLeft(ws[i], p)
  {
    RunKeeps(ws, steps, i);
    if SwitchedAt(ws, i, p) {
      SwitchForgets(ws, steps, i, p);
    }
    if ws[i].phones[p].keychain.secret.None? {
      SecretlessLeavesNothing(ws[i], p);
    }
  }

  /**
   The reentrancy flags keep a refresh and the critical part of a switch apart, and memory agrees with the
   keychain whenever the app runs.
   */
  lemma {:induction false} RefreshAndSwitchExclude(ws: seq<World>, steps: seq<Step>, i: nat, p: PhoneId)
    requires Run(ws, steps) && i < |ws| && p in ws[i].phones && ws[i].phones[p].app.On?
    ensures ws[i].phones[p].app.switcher.Revoking? ==> ws[i].phones[p].app.refresh == NoRefresh
    ensures ws[i].phones[p].app.record == ws[i].phones[p].keychain
  {
    RunKeeps(ws, steps, i);
  }
}
