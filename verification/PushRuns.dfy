/**
 That the protocol gets somewhere: from any world of phones and hosts, a phone can subscribe at the host it
 has recorded, and switch to another one that then takes its subscription.
 */
module PushRuns {
  import opened Wrappers
  import opened Sequences
  import opened PushProtocol
  import opened PushSegments
  import Push = HostPush
  import Ops = PushOperations
  import Auth = HostAuth
  import Accounts

  // ---------- continuations ----------

  ghost predicate Path(ws: seq<World>, steps: seq<Step>, w: World, v: World) {
    && |ws| == |steps| + 1 && ws[0] == w && ws[|steps|] == v
    && forall i | 0 <= i < |steps| :: Next(ws[i], steps[i], ws[i + 1])
  }

  ghost predicate Leads(w: World, v: World) {
    exists ws: seq<World>, steps: seq<Step> :: Path(ws, steps, w, v)
  }

  lemma {:induction false} LeadsInOne(w: World, step: Step, v: World)
    requires Next(w, step, v)
    ensures Leads(w, v)
  {
    assert Path([w, v], [step], w, v);
  }

  lemma {:induction false} PathsJoin(ws: seq<World>, steps: seq<Step>, vs: seq<World>, more: seq<Step>,
                                     u: World, w: World, v: World)
    requires Path(ws, steps, u, w) && Path(vs, more, w, v)
    ensures Path(ws + vs[1..], steps + more, u, v)
  {
    var all, both := ws + vs[1..], steps + more;
    forall i | 0 <= i < |both| ensures Next(all[i], both[i], all[i + 1]) {
      if i >= |steps| {
        var k := i - |steps|;
        assert Next(vs[k], more[k], vs[k + 1]) && all[i] == vs[k] && all[i + 1] == vs[k + 1];
      }
    }
  }

  lemma {:induction false} LeadsOn(u: World, w: World, v: World)
    requires Leads(u, w) && Leads(w, v)
    ensures Leads(u, v)
  {
    var ws: seq<World>, steps: seq<Step> :| Path(ws, steps, u, w);
    var vs: seq<World>, more: seq<Step> :| Path(vs, more, w, v);
    PathsJoin(ws, steps, vs, more, u, w, v);
  }

  // ---------- one step at a time ----------

  function Turned(w: World, p: PhoneId, t: Turn): World
    requires t.drawn.Some? ==> t.phone.keychain.origin.Some?
  {
    World(w.phones[p := t.phone], w.nodes, w.net + t.sent,
          if t.drawn.Some? then w.issued[t.drawn.value := Issue(p, t.phone.keychain.origin.value)] else w.issued)
  }

  /** A segment that confirms nothing and draws nothing. */
  lemma {:induction false} PlainTurn(w: World, p: PhoneId, segment: Segment) returns (v: World)
    requires p in w.phones && Act(p, w.phones[p], segment).Some?
    requires Confirms(w.phones[p], segment).None? && Act(p, w.phones[p], segment).value.drawn.None?
    ensures Leads(w, v)
    ensures var t := Act(p, w.phones[p], segment).value;
            v == w.(phones := w.phones[p := t.phone], net := w.net + t.sent)
  {
    v := Turned(w, p, Act(p, w.phones[p], segment).value);
    LeadsInOne(w, PhoneStep(p, segment), v);
  }

  ghost predicate AtRest(w: World, p: PhoneId, record: Record) {
    p in w.phones && Orderly(w.phones[p]) && Idle(w.phones[p], record)
  }

  ghost predicate Running(w: World, h: HostId) {
    h in w.nodes && w.nodes[h].memory.Some?
  }

  // ---------- subscribing ----------

  /** From rest at a recorded host to a registration on its way. */
  lemma {:induction false} SendsRegistration(w: World, p: PhoneId, origin: Origin, secret: Secret) returns (v: World)
    requires AtRest(w, p, Record(Some(origin), None)) && origin.parses && secret !in w.issued
    ensures Leads(w, v) && v.nodes == w.nodes && p in v.phones
    ensures RegisterSent(origin, secret, p) in v.net && v.issued == w.issued[secret := Issue(p, origin)]
    ensures v.phones[p].keychain == Record(Some(origin), Some(secret))
    ensures Refreshing(v.phones[p], Registering(origin, secret, 0)) && !v.phones[p].app.switching
  {
    RefreshBegins(p, w.phones[p]);
    var u := PlainTurn(w, p, BeginRefresh);
    ReadyRegisters(p, u.phones[p], origin, secret, true);
    var t := Act(p, u.phones[p], Checked(Ready, secret, true)).value;
    v := Turned(u, p, t);
    LeadsInOne(u, PhoneStep(p, Checked(Ready, secret, true)), v);
    LeadsOn(w, u, v);
  }

  function Registration(p: PhoneId, secret: Secret, token: string): Push.Registration {
    Push.Registration(Some(secret), true, p, token, "production")
  }

  function RegisterOp(p: PhoneId, secret: Secret, token: string, session: Auth.SessionKey, username: string,
                      origin: Origin): Push.Op
  {
    Push.Register(Registration(p, secret, token), session, username, origin.url, true)
  }

  /** The host would accept the operation now. */
  ghost predicate Accepts(w: World, h: HostId, op: Push.Op, auth: Auth.Memory, now: real)
    requires Running(w, h)
  {
    Push.Perform(w.nodes[h].memory.value, w.nodes[h].file, op, auth, now, true).reply == Push.Accepted
  }

  /** A running host once it has done an operation. */
  function After(node: Node, op: Push.Op, auth: Auth.Memory, now: real): Node
    requires node.memory.Some?
  {
    var r := Push.Perform(node.memory.value, node.file, op, auth, now, true);
    Node(Some(r.memory), r.file)
  }

  lemma {:induction false} HostServes(w: World, h: HostId, op: Push.Op, message: Message, auth: Auth.Memory, now: real)
      returns (v: World)
    requires Running(w, h) && message in w.net && Requests(message, h, op)
    ensures Leads(w, v) && v.phones == w.phones && v.issued == w.issued && w.net <= v.net
    ensures var r := Push.Perform(w.nodes[h].memory.value, w.nodes[h].file, op, auth, now, true);
            && v.nodes == w.nodes[h := Node(Some(r.memory), r.file)]
            && (r.reply == Push.Accepted && message.UnregisterSent? ==> Acknowledged(message.origin, message.secret) in v.net)
  {
    var r := Push.Perform(w.nodes[h].memory.value, w.nodes[h].file, op, auth, now, true);
    var step := HostStep(h, op, Some(message), auth, now, true, false);
    v := Served(w, step, r);
    LeadsInOne(w, step, v);
  }

  /** The answer to a registration puts the phone to rest. */
  lemma {:induction false} RegistrationAnswered(w: World, p: PhoneId, origin: Origin, secret: Secret) returns (v: World)
    requires p in w.phones && Refreshing(w.phones[p], Registering(origin, secret, 0)) && !w.phones[p].app.switching
    ensures Leads(w, v) && AtRest(v, p, Record(Some(origin), Some(secret)))
    ensures v.nodes == w.nodes && v.issued == w.issued
  {
    AnswerEndsRefresh(p, w.phones[p], origin, secret, 0, Registered, "", true);
    ActCareful(p, w.phones[p], RegisterAnswered(Registered, "", true));
    v := PlainTurn(w, p, RegisterAnswered(Registered, "", true));
  }

  /** The host serves the registration: the device is live, with the token sent. */
  lemma {:induction false} HostRegisters(w: World, p: PhoneId, origin: Origin, secret: Secret, token: string,
                                         session: Auth.SessionKey, username: string, auth: Auth.Memory, now: real)
      returns (v: World)
    requires Running(w, origin.host) && RegisterSent(origin, secret, p) in w.net
    requires Accepts(w, origin.host, RegisterOp(p, secret, token, session, username, origin), auth, now)
    ensures Leads(w, v) && v.phones == w.phones && v.issued == w.issued && LiveWith(v, origin.host, secret, token)
    ensures v.nodes[origin.host] == After(w.nodes[origin.host], RegisterOp(p, secret, token, session, username, origin), auth, now)
    ensures forall h | h != origin.host && h in w.nodes :: h in v.nodes && v.nodes[h] == w.nodes[h]
  {
    var node, op := w.nodes[origin.host], RegisterOp(p, secret, token, session, username, origin);
    Ops.RegisteredAsAsked(node.memory.value, node.file, op.r, session, username, origin.url, true, auth, now, true, secret);
    v := HostServes(w, origin.host, op, RegisterSent(origin, secret, p), auth, now);
  }

  /** The running host has the device, with this token. */
  ghost predicate LiveWith(w: World, h: HostId, secret: Secret, token: string) {
    Running(w, h) && secret in w.nodes[h].memory.value.devices && w.nodes[h].memory.value.devices[secret].token == token
  }

  /**
   Main result: a phone at rest can subscribe at its recorded host: a continuation makes a new secret live
   there, with the token it registers, whenever the host accepts the registration.
   */
  lemma {:induction false} CanSubscribe(w: World, p: PhoneId, origin: Origin, secret: Secret, token: string,
                                        session: Auth.SessionKey, username: string, auth: Auth.Memory, now: real)
      returns (v: World)
    requires AtRest(w, p, Record(Some(origin), None)) && origin.parses && secret !in w.issued && Running(w, origin.host)
    requires Accepts(w, origin.host, RegisterOp(p, secret, token, session, username, origin), auth, now)
    ensures Leads(w, v) && AtRest(v, p, Record(Some(origin), Some(secret))) && LiveWith(v, origin.host, secret, token)
    ensures v.issued == w.issued[secret := Issue(p, origin)]
    ensures v.nodes[origin.host] == After(w.nodes[origin.host], RegisterOp(p, secret, token, session, username, origin), auth, now)
    ensures forall h | h != origin.host && h in w.nodes :: h in v.nodes && v.nodes[h] == w.nodes[h]
  {
    var asked := SendsRegistration(w, p, origin, secret);
    var served := HostRegisters(asked, p, origin, secret, token, session, username, auth, now);
    v := RegistrationAnswered(served, p, origin, secret);
    LeadsOn(w, asked, served);
    LeadsOn(w, served, v);
  }

  // ---------- switching ----------

  /** From rest with a subscription to its revocation on its way. */
  lemma {:induction false} SendsRevocation(w: World, p: PhoneId, origin: Origin, secret: Secret, next: Option<Origin>)
      returns (v: World)
    requires AtRest(w, p, Record(Some(origin), Some(secret))) && next != Some(origin)
    ensures Leads(w, v) && v.nodes == w.nodes && v.issued == w.issued && p in v.phones
    ensures UnregisterSent(origin, secret) in v.net
    ensures Asking(v.phones[p], To(next)) && v.phones[p].keychain == Record(Some(origin), Some(secret))
  {
    SwitchBegins(p, w.phones[p], To(next));
    ActCareful(p, w.phones[p], BeginSwitch(To(next)));
    var begun := PlainTurn(w, p, BeginSwitch(To(next)));
    SwitchAsksFirst(p, begun.phones[p], To(next), true);
    var waiting := PlainTurn(begun, p, ProceedSwitch(true));
    v := PlainTurn(waiting, p, AskSwitch);
    LeadsOn(w, begun, waiting);
    LeadsOn(w, waiting, v);
  }

  lemma {:induction false} AnswerArrives(w: World, p: PhoneId, origin: Origin, secret: Secret, next: Option<Origin>)
      returns (v: World)
    requires p in w.phones && Asking(w.phones[p], To(next))
    requires w.phones[p].keychain == Record(Some(origin), Some(secret)) && Acknowledged(origin, secret) in w.net
    ensures Leads(w, v) && AtRest(v, p, Record(next, None)) && v.nodes == w.nodes && v.issued == w.issued
  {
    SwitchEndsAtChosenHost(p, w.phones[p], next, true);
    ActCareful(p, w.phones[p], AnswerSwitch(true, true, true));
    v := Turned(w, p, Act(p, w.phones[p], AnswerSwitch(true, true, true)).value);
    LeadsInOne(w, PhoneStep(p, AnswerSwitch(true, true, true)), v);
  }

  /**
   Main result: a phone at rest with a subscription can switch: a continuation ends at rest at the chosen host,
   the old subscription being a tombstone, whenever the old host accepts the revocation.
   */
  lemma {:induction false} CanSwitch(w: World, p: PhoneId, origin: Origin, secret: Secret, next: Option<Origin>,
                                     auth: Auth.Memory, now: real)
      returns (v: World)
    requires AtRest(w, p, Record(Some(origin), Some(secret))) && next != Some(origin) && Running(w, origin.host)
    requires Push.Consistent(w.nodes[origin.host].memory.value)
    requires Accepts(w, origin.host, Push.Unregister(Some(secret), ""), auth, now)
    ensures Leads(w, v) && AtRest(v, p, Record(next, None)) && Running(v, origin.host) && v.issued == w.issued
    ensures secret in v.nodes[origin.host].memory.value.revoked && secret !in v.nodes[origin.host].memory.value.devices
    ensures forall h | h != origin.host && h in w.nodes :: h in v.nodes && v.nodes[h] == w.nodes[h]
  {
    var node, op := w.nodes[origin.host], Push.Unregister(Some(secret), "");
    var asked := SendsRevocation(w, p, origin, secret, next);
    Ops.UnregisteredExactly(node.memory.value, node.file, secret, "", auth, now, true);
    var served := HostServes(asked, origin.host, op, UnregisterSent(origin, secret), auth, now);
    v := AnswerArrives(served, p, origin, secret, next);
    LeadsOn(w, asked, served);
    LeadsOn(w, served, v);
  }

  // ---------- a whole life ----------

  const ACCOUNT := Auth.Memory(map["u" := Accounts.User(true, {}, "s", Accounts.Digest("secret", "s"))],
                               [("k", Auth.Session("u", 10.0))])

  /** A host that has nothing stored yet accepts a registration of a logged-in user. */
  lemma {:induction false} EmptyHostAccepts(w: World, p: PhoneId, secret: Secret, token: string, origin: Origin)
    requires Running(w, origin.host) && w.nodes[origin.host].memory.value == Push.EMPTY
    ensures Accepts(w, origin.host, RegisterOp(p, secret, token, "k", "u", origin), ACCOUNT, 0.0)
  {
    var m, r := Push.EMPTY, Registration(p, secret, token);
    assert ("k", Auth.Session("u", 10.0)) in ACCOUNT.sessions;
    assert Ops.Runs(ACCOUNT, "k", "u", 0.0);
    assert Push.Eligible(m.devices, ACCOUNT, 0.0) == map[];
    assert m.revoked + (Ops.Ending(m, Push.Eligible(m.devices, ACCOUNT, 0.0)) - {secret}) == {};
    Ops.RegisterReplies(m, w.nodes[origin.host].file, r, "k", "u", origin.url, true, ACCOUNT, 0.0, true);
  }

  /** A host accepts the revocation of a live device while its tombstones have room. */
  lemma {:induction false} LiveHostAccepts(w: World, h: HostId, secret: Secret)
    requires Running(w, h) && Push.Consistent(w.nodes[h].memory.value)
    requires secret in w.nodes[h].memory.value.devices && |w.nodes[h].memory.value.revoked| < 4096
    ensures Accepts(w, h, Push.Unregister(Some(secret), ""), ACCOUNT, 0.0)
  {
    Ops.UnregisterReplies(w.nodes[h].memory.value, w.nodes[h].file, Some(secret), "", ACCOUNT, 0.0, true);
  }

  lemma {:induction false} FirstStore(node: Node, p: PhoneId, secret: Secret, token: string, origin: Origin)
    requires node == Node(Some(Push.EMPTY), None)
    ensures var m := After(node, RegisterOp(p, secret, token, "k", "u", origin), ACCOUNT, 0.0).memory.value;
            Push.Consistent(m) && m.revoked == {}
  {
    var op := RegisterOp(p, secret, token, "k", "u", origin);
    Push.PerformKeeps(Push.EMPTY, None, op, ACCOUNT, 0.0, true);
    assert Push.Eligible(Push.EMPTY.devices, ACCOUNT, 0.0) == map[];
  }

  lemma {:induction false} Boots(w: World, h: HostId) returns (v: World)
    requires h in w.nodes && w.nodes[h].file.None?
    ensures Leads(w, v) && v == w.(nodes := w.nodes[h := Node(Some(Push.EMPTY), None)])
  {
    v := w.(nodes := w.nodes[h := Node(Some(Push.EMPTY), None)]);
    LeadsInOne(w, HostBoot(h), v);
  }

  /** A phone that was never used is started and told its first host. */
  lemma {:induction false} FirstHost(w: World, p: PhoneId, origin: Origin) returns (v: World)
    requires p in w.phones && w.phones[p] == Phone(Record(None, None), Off)
    ensures Leads(w, v) && AtRest(v, p, Record(Some(origin), None)) && v.nodes == w.nodes && v.issued == w.issued
  {
    var goal := To(Some(origin));
    ActCareful(p, w.phones[p], Launch);
    var launched := PlainTurn(w, p, Launch);
    SwitchBegins(p, launched.phones[p], goal);
    ActCareful(p, launched.phones[p], BeginSwitch(goal));
    var begun := PlainTurn(launched, p, BeginSwitch(goal));
    SwitchWithoutSecret(p, begun.phones[p], Some(origin), true);
    ActCareful(p, begun.phones[p], ProceedSwitch(true));
    v := PlainTurn(begun, p, ProceedSwitch(true));
    LeadsOn(w, launched, begun);
    LeadsOn(w, begun, v);
  }

  /**
   Main result: from a new installation and two new hosts there is a run in which the phone's device is live
   at one host and, after a switch, at the other alone.
   */
  lemma {:induction false} LivesHereThenThere(w: World, p: PhoneId, here: Origin, there: Origin)
      returns (u: World, v: World)
    requires Initial(w) && p in w.phones && here.parses && there.parses && here.host != there.host
    requires here.host in w.nodes && there.host in w.nodes
    ensures Leads(w, u) && LiveWith(u, here.host, "s1", "token") && AtRest(u, p, Record(Some(here), Some("s1")))
    ensures Leads(u, v) && LiveWith(v, there.host, "s2", "token") && AtRest(v, p, Record(Some(there), Some("s2")))
    ensures here.host in v.nodes && v.nodes[here.host].memory.Some?
            && "s1" !in v.nodes[here.host].memory.value.devices
  {
    var a := Boots(w, here.host);
    var b := Boots(a, there.host);
    var c := FirstHost(b, p, here);
    EmptyHostAccepts(c, p, "s1", "token", here);
    u := CanSubscribe(c, p, here, "s1", "token", "k", "u", ACCOUNT, 0.0);
    LeadsOn(w, a, b);
    LeadsOn(w, b, c);
    LeadsOn(w, c, u);
    FirstStore(c.nodes[here.host], p, "s1", "token", here);
    v := MovesOn(u, p, here, there);
  }

  lemma {:induction false} MovesOn(u: World, p: PhoneId, here: Origin, there: Origin) returns (v: World)
    requires AtRest(u, p, Record(Some(here), Some("s1"))) && there.parses && here.host != there.host
    requires LiveWith(u, here.host, "s1", "token") && Push.Consistent(u.nodes[here.host].memory.value)
    requires |u.nodes[here.host].memory.value.revoked| < 4096 && "s2" !in u.issued
    requires Running(u, there.host) && u.nodes[there.host].memory.value == Push.EMPTY
    ensures Leads(u, v) && LiveWith(v, there.host, "s2", "token") && AtRest(v, p, Record(Some(there), Some("s2")))
    ensures here.host in v.nodes && v.nodes[here.host].memory.Some?
            && "s1" !in v.nodes[here.host].memory.value.devices
  {
    LiveHostAccepts(u, here.host, "s1");
    var d := CanSwitch(u, p, here, "s1", Some(there), ACCOUNT, 0.0);
    EmptyHostAccepts(d, p, "s2", "token", there);
    v := CanSubscribe(d, p, there, "s2", "token", "k", "u", ACCOUNT, 0.0);
    LeadsOn(u, d, v);
  }
}
