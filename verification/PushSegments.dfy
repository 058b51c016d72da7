/**
 What the phone's segments come to, from what is recorded before to what is recorded and sent after: a
 switch ends at the chosen host, a refresh registers the recorded subscription, a refusal is retried once.
 */
module PushSegments {
  import opened Wrappers
  import opened PushProtocol

  /** Nothing under way, and memory as the keychain. */
  predicate Idle(a: Phone, record: Record) {
    a == Phone(record, On(record, false, NoSwitch, NoRefresh))
  }

  ghost predicate Waiting(a: Phone, goal: Goal) {
    Orderly(a) && a.app.On? && a.app.switcher == WaitingForRefresh(goal) && a.app.refresh == NoRefresh
  }

  // ---------- switching ----------

  /** Without a subscription, a switch records the chosen host if the keychain takes it. */
  lemma {:induction false} SwitchWithoutSecret(p: PhoneId, a: Phone, next: Option<Origin>, saved: bool)
    requires Waiting(a, To(next)) && a.keychain.secret.None?
    ensures var t := Act(p, a, ProceedSwitch(saved));
            t.Some? && t.value.sent == {}
            && Idle(t.value.phone, if saved then Record(next, None) else a.keychain)
  {
  }

  /** Choosing the recorded host again keeps its subscription. */
  lemma {:induction false} SwitchToSame(p: PhoneId, a: Phone, saved: bool)
    requires Waiting(a, To(a.keychain.origin))
    ensures var t := Act(p, a, ProceedSwitch(saved)); t.Some? && t.value.sent == {} && Idle(t.value.phone, a.keychain)
  {
  }

  /** With a subscription, leaving its host or denying notifications first asks that host to revoke it. */
  lemma {:induction false} SwitchAsksFirst(p: PhoneId, a: Phone, goal: Goal, saved: bool)
    requires Waiting(a, goal) && a.keychain.secret.Some? && goal != To(a.keychain.origin)
    ensures var t := Act(p, a, ProceedSwitch(saved));
            && t.Some? && t.value.sent == {} && t.value.phone.keychain == a.keychain
            && var u := Act(p, t.value.phone, AskSwitch);
               && u.Some? && u.value.phone.keychain == a.keychain
               && u.value.sent == {UnregisterSent(a.keychain.origin.value, a.keychain.secret.value)}
               && Asking(u.value.phone, goal)
  {
  }

  /** A switch that has asked for the revocation and waits for the answer. */
  ghost predicate Asking(a: Phone, goal: Goal) {
    && Orderly(a) && a.app.On? && a.app.switcher.Revoking? && a.app.switcher.goal == goal
    && a.app.switcher.revoke.Asked?
  }

  /**
   Main result: once the old host has confirmed the revocation and the keychain has dropped the secret, the
   switch ends at the chosen host, or without a change of host if that cannot be stored.
   */
  lemma {:induction false} SwitchEndsAtChosenHost(p: PhoneId, a: Phone, next: Option<Origin>, saved: bool)
    requires Asking(a, To(next))
    ensures var t := Act(p, a, AnswerSwitch(true, true, saved));
            t.Some? && t.value.sent == {}
            && Idle(t.value.phone, Record(if saved then next else a.keychain.origin, None))
  {
  }

  /** Denied notifications leave the host recorded, without a subscription. */
  lemma {:induction false} DenialKeepsHost(p: PhoneId, a: Phone, saved: bool)
    requires Asking(a, Denied)
    ensures var t := Act(p, a, AnswerSwitch(true, true, saved));
            t.Some? && t.value.sent == {} && Idle(t.value.phone, Record(a.keychain.origin, None))
  {
  }

  /** Without a confirmation, or without the keychain, nothing is given up and the switch is over. */
  lemma {:induction false} SwitchGivesUp(p: PhoneId, a: Phone, goal: Goal, confirmed: bool, cleared: bool, saved: bool)
    requires Asking(a, goal) && !(confirmed && cleared)
    ensures var t := Act(p, a, AnswerSwitch(confirmed, cleared, saved));
            t.Some? && t.value.sent == {} && Idle(t.value.phone, a.keychain)
  {
  }

  // ---------- refreshing ----------

  ghost predicate Refreshing(a: Phone, refresh: Refresh) {
    Orderly(a) && a.app.On? && a.app.refresh == refresh
  }

  /** With no switch and no refresh under way, a refresh asks the recorded host. */
  lemma {:induction false} RefreshBegins(p: PhoneId, a: Phone)
    requires Orderly(a) && a.app.On? && !a.app.switching && a.app.refresh == NoRefresh
    requires a.keychain.origin.Some? && a.keychain.origin.value.parses
    ensures var t := Act(p, a, BeginRefresh);
            t.Some? && t.value.sent == {} && t.value.phone.keychain == a.keychain
            && Refreshing(t.value.phone, Checking(a.keychain.origin.value))
  {
  }

  /** Main result: a host that is ready is sent the recorded secret, or a new one recorded before it is sent. */
  lemma {:induction false} ReadyRegisters(p: PhoneId, a: Phone, origin: Origin, random: Secret, saved: bool)
    requires Refreshing(a, Checking(origin)) && (a.keychain.secret.Some? || saved)
    ensures var t := Act(p, a, Checked(Ready, random, saved));
            var secret := if a.keychain.secret.Some? then a.keychain.secret.value else random;
            && t.Some? && t.value.sent == {RegisterSent(origin, secret, p)}
            && t.value.drawn == (if a.keychain.secret.Some? then None else Some(random))
            && t.value.phone.keychain == Record(Some(origin), Some(secret))
            && Refreshing(t.value.phone, Registering(origin, secret, 0))
  {
    SendRegisterCareful(p, a, origin, 0, random, saved);
  }

  /** A host that is not ready is sent nothing. */
  lemma {:induction false} OthersSendNothing(p: PhoneId, a: Phone, origin: Origin, check: Check, random: Secret, saved: bool)
    requires Refreshing(a, Checking(origin)) && (!check.Ready? || (a.keychain.secret.None? && !saved))
    ensures var t := Act(p, a, Checked(check, random, saved));
            && t.Some? && t.value.sent == {} && t.value.drawn.None? && t.value.phone.keychain == a.keychain
            && Refreshing(t.value.phone,
                          if check.NoService? && a.keychain.secret.Some?
                          then Unregistering(origin, false, Cookies(origin, a.keychain.secret.value)) else NoRefresh)
  {
  }

  /** An answer other than a first refusal ends the refresh and keeps the record. */
  lemma {:induction false} AnswerEndsRefresh(p: PhoneId, a: Phone, origin: Origin, secret: Secret, attempt: nat,
                                             code: Code, random: Secret, saved: bool)
    requires Refreshing(a, Registering(origin, secret, attempt)) && (!code.Refused? || attempt != 0)
    ensures var t := Act(p, a, RegisterAnswered(code, random, saved));
            t.Some? && t.value.sent == {} && t.value.phone.keychain == a.keychain
            && Refreshing(t.value.phone, NoRefresh)
  {
  }

  /** After a first refusal the secret is revoked at the same host. */
  lemma {:induction false} RefusalRevokes(p: PhoneId, a: Phone, origin: Origin, secret: Secret, random: Secret, saved: bool)
    requires Refreshing(a, Registering(origin, secret, 0))
    ensures var t := Act(p, a, RegisterAnswered(Refused, random, saved));
            && t.Some? && t.value.sent == {} && t.value.phone.keychain == a.keychain
            && Refreshing(t.value.phone, Unregistering(origin, true, Cookies(origin, secret)))
  {
  }

  lemma {:induction false} RefreshAsks(p: PhoneId, a: Phone, origin: Origin, retry: bool, secret: Secret)
    requires Refreshing(a, Unregistering(origin, retry, Cookies(origin, secret)))
    ensures var t := Act(p, a, AskRefresh);
            && t.Some? && t.value.sent == {UnregisterSent(origin, secret)} && t.value.phone.keychain == a.keychain
            && Refreshing(t.value.phone, Unregistering(origin, retry, Asked(origin, secret)))
  {
  }

  /** Confirmed, a refused secret gives way to a new one, sent to the same host as the second and last attempt. */
  lemma {:induction false} RetryRegistersAnew(p: PhoneId, a: Phone, origin: Origin, secret: Secret, random: Secret)
    requires Refreshing(a, Unregistering(origin, true, Asked(origin, secret)))
    ensures var t := Act(p, a, AnswerRefresh(true, true, random, true));
            && t.Some? && t.value.sent == {RegisterSent(origin, random, p)} && t.value.drawn == Some(random)
            && t.value.phone.keychain == Record(Some(origin), Some(random))
            && Refreshing(t.value.phone, Registering(origin, random, 1))
  {
  }

  /** A new secret that the keychain does not take is never sent. */
  lemma {:induction false} RetryUnsaved(p: PhoneId, a: Phone, origin: Origin, secret: Secret, random: Secret)
    requires Refreshing(a, Unregistering(origin, true, Asked(origin, secret)))
    ensures var t := Act(p, a, AnswerRefresh(true, true, random, false));
            && t.Some? && t.value.sent == {} && t.value.drawn.None?
            && t.value.phone.keychain == Record(Some(origin), None) && Refreshing(t.value.phone, NoRefresh)
  {
  }

  /** Confirmed without a service, the host stays recorded without a subscription. */
  lemma {:induction false} NoServiceForgets(p: PhoneId, a: Phone, origin: Origin, secret: Secret, random: Secret, saved: bool)
    requires Refreshing(a, Unregistering(origin, false, Asked(origin, secret)))
    ensures var t := Act(p, a, AnswerRefresh(true, true, random, saved));
            && t.Some? && t.value.sent == {} && t.value.drawn.None?
            && t.value.phone.keychain == Record(Some(origin), None) && Refreshing(t.value.phone, NoRefresh)
  {
  }

  /** Unconfirmed, or with a keychain that fails, the refresh is over and the record as before. */
  lemma {:induction false} RefreshGivesUp(p: PhoneId, a: Phone, origin: Origin, retry: bool, secret: Secret,
                                          confirmed: bool, cleared: bool, random: Secret, saved: bool)
    requires Refreshing(a, Unregistering(origin, retry, Asked(origin, secret))) && !(confirmed && cleared)
    ensures var t := Act(p, a, AnswerRefresh(confirmed, cleared, random, saved));
            && t.Some? && t.value.sent == {} && t.value.drawn.None?
            && t.value.phone.keychain == a.keychain && Refreshing(t.value.phone, NoRefresh)
  {
  }

  /** A launch starts idle from the keychain; a kill loses nothing but what was under way. */
  lemma {:induction false} LaunchAndKill(p: PhoneId, a: Phone)
    ensures a.app.Off? ==> var t := Act(p, a, Launch); t.Some? && t.value.sent == {} && Idle(t.value.phone, a.keychain)
    ensures a.app.On? ==> var t := Act(p, a, Kill); t.Some? && t.value.sent == {} && t.value.phone == Phone(a.keychain, Off)
  {
  }

  /** A switch begins unless one is under way, and then waits for the refresh. */
  lemma {:induction false} SwitchBegins(p: PhoneId, a: Phone, goal: Goal)
    requires Orderly(a) && a.app.On?
    ensures var t := Act(p, a, BeginSwitch(goal));
            if a.app.switching then t.None?
            else t.Some? && t.value.sent == {} && t.value.phone.keychain == a.keychain
                 && t.value.phone.app.switcher == WaitingForRefresh(goal) && t.value.phone.app.refresh == a.app.refresh
  {
  }
}
