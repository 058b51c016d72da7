/**
 The phone's subscription object. Its asynchronous methods give up the main actor at every `await`; each
 method here is what runs between two of them. It keeps the object valid, gives the recorded subscription
 up only on a confirmed revocation, and does what the protocol's segment of that name says.
 */
module PushPhone {
  import opened Wrappers
  import opened PushProtocol

  class PushSubscription {
    const installation: PhoneId
    var keychain: Record        // survives the app
    var record: Record
    var switching: bool
    var switcher: Switcher      // where `select` or the denied branch of `permissionChanged` waits
    var refreshTask: Refresh    // where `refresh` waits
    var webView: Option<Origin> // the page that last showed the recorded host
    var refreshAgain: bool      // a device token arrived during a refresh

    ghost function State(): Phone
      reads `keychain, `record, `switching, `switcher, `refreshTask
    {
      Phone(keychain, On(record, switching, switcher, refreshTask))
    }

    /** Memory agrees with the keychain, and whatever is under way is about the recorded subscription. */
    ghost predicate Valid()
      reads `keychain, `record, `switching, `switcher, `refreshTask
    {
      Orderly(State())
    }

    /**
     The segment just run: its new state, the request it sent and the secret it drew. The recorded
     subscription goes only on its confirmed revocation, a registration names what the keychain holds by
     then, and a secret is drawn only when there is none.
     */
    twostate predicate Did(step: Segment, new sent: set<Message>, new drawn: Option<Secret>)
      reads `keychain, `record, `switching, `switcher, `refreshTask
    {
      && Act(installation, old(State()), step) == Some(Turn(State(), sent, drawn))
      && Careful(installation, old(State()), step, Turn(State(), sent, drawn))
    }

    constructor (installation: PhoneId, keychain: Record)
      requires Orderly(Phone(keychain, Off))
      ensures Valid() && this.installation == installation
      ensures Act(installation, Phone(keychain, Off), Launch) == Some(Turn(State(), {}, None))
      ensures webView == None && !refreshAgain
    {
      this.installation, this.keychain, record := installation, keychain, keychain;
      switching, switcher, refreshTask := false, NoSwitch, NoRefresh;
      webView, refreshAgain := None, false;
    }

    /** Keychain first, then memory; `saved` says how the keychain write went. */
    method Save(updated: Record, saved: bool)
      modifies `keychain, `record
      ensures State() == Persist(old(State()), updated, saved)
    {
      if saved {
        keychain := updated;
        record := updated;
      }
    }

    /** The entry of `select` and of the denied branch; a second one is turned away. */
    method BeginSwitch(goal: Goal) returns (begun: bool)
      requires Valid()
      modifies `switching, `switcher
      ensures Valid() && begun == !old(switching)
      ensures if begun then Did(Segment.BeginSwitch(goal), {}, None) else State() == old(State())
    {
      begun := !switching;
      if begun {
        switching := true;
        switcher := WaitingForRefresh(goal);
      }
    }

    /** The refresh task has ended: compare the origins and enter `revoke`. */
    method ProceedSwitch(saved: bool)
      requires Valid() && switcher.WaitingForRefresh? && refreshTask == NoRefresh
      modifies `keychain, `record, `switching, `switcher, `webView
      ensures Valid() && Did(Segment.ProceedSwitch(saved), {}, None)
      ensures webView == if record.origin != old(record).origin then None else old(webView)
    {
      ActCareful(installation, State(), Segment.ProceedSwitch(saved));
      var goal := switcher.goal;
      if goal.To? && record.origin == goal.next {
        switching, switcher := false, NoSwitch;
      } else if record.secret.Some? && record.origin.Some? && record.origin.value.parses {
        switcher := Revoking(goal, Cookies(record.origin.value, record.secret.value));
      } else {
        Finish(goal, saved);
      }
    }

    /** What follows a completed `revoke` in a switch, and its deferred reset of the flag. */
    method Finish(goal: Goal, saved: bool)
      modifies `keychain, `record, `switching, `switcher, `webView
      ensures State() == FinishSwitch(old(State()), goal, saved)
      ensures webView == if goal.To? && saved then None else old(webView)
    {
      if goal.To? {
        Save(record.(origin := goal.next), saved);
        if saved {
          webView := None;
        }
      }
      switching, switcher := false, NoSwitch;
    }

    method AskSwitch() returns (sent: set<Message>)
      requires Valid() && switcher.Revoking? && switcher.revoke.Cookies?
      modifies `switcher
      ensures Valid() && Did(Segment.AskSwitch, sent, None)
    {
      ActCareful(installation, State(), Segment.AskSwitch);
      var revoke := switcher.revoke;
      switcher := Revoking(switcher.goal, Asked(revoke.origin, revoke.secret));
      sent := {UnregisterSent(revoke.origin, revoke.secret)};
    }

    /** The host's answer to the revocation of a switch; only a confirmed one goes through. */
    method AnswerSwitch(confirmed: bool, cleared: bool, saved: bool)
      requires Valid() && switcher.Revoking? && switcher.revoke.Asked?
      modifies `keychain, `record, `switching, `switcher, `webView
      ensures Valid() && Did(Segment.AnswerSwitch(confirmed, cleared, saved), {}, None)
      ensures webView == if confirmed && cleared && old(switcher).goal.To? && saved then None else old(webView)
    {
      ActCareful(installation, State(), Segment.AnswerSwitch(confirmed, cleared, saved));
      var goal := switcher.goal;
      if !confirmed || !cleared {
        switching, switcher := false, NoSwitch;
      } else {
        Save(record.(secret := None), true);
        Finish(goal, saved);
      }
    }

    /** `ready`: a page of the recorded host starts a refresh, unless a switch or a refresh is under way. */
    method Ready(page: Origin) returns (begun: bool)
      requires Valid()
      modifies `webView, `refreshTask
      ensures Valid()
      ensures begun == (!old(switching) && record.origin == Some(page) && old(refreshTask) == NoRefresh)
      ensures webView == if !switching && record.origin == Some(page) then Some(page) else old(webView)
      ensures if begun then Did(Segment.BeginRefresh, {}, None) else State() == old(State())
    {
      if switching || record.origin != Some(page) {
        return false;
      }
      webView := Some(page);
      begun := refreshTask == NoRefresh;
      if begun && page.parses {
        refreshTask := Checking(page);
      }
    }

    /** The device token arrives: a running refresh is to be repeated, and otherwise one starts. */
    method ReceivedToken() returns (begun: bool)
      requires Valid()
      modifies `webView, `refreshTask, `refreshAgain
      ensures Valid() && refreshAgain == (old(refreshAgain) || old(refreshTask) != NoRefresh) && webView == old(webView)
      ensures begun == (old(refreshTask) == NoRefresh && !switching && webView.Some? && record.origin == webView)
      ensures if begun then Did(Segment.BeginRefresh, {}, None) else State() == old(State())
    {
      if refreshTask != NoRefresh {
        refreshAgain := true;
      }
      begun := false;
      if webView.Some? {
        begun := Ready(webView.value);
      }
    }

    /** What the refresh task does last: once more for the same page, if a token arrived meanwhile. */
    method RefreshEnded(page: Origin) returns (begun: bool)
      requires Valid() && refreshTask == NoRefresh
      modifies `webView, `refreshTask, `refreshAgain
      ensures Valid() && !refreshAgain
      ensures begun == (old(refreshAgain) && !old(switching) && record.origin == Some(page))
      ensures webView == if begun then Some(page) else old(webView)
      ensures if begun then Did(Segment.BeginRefresh, {}, None) else State() == old(State())
    {
      begun := false;
      if refreshAgain {
        refreshAgain := false;
        begun := Ready(page);
      }
    }

    /** The host's status is known: stop, revoke, or register. */
    method Checked(check: Check, random: Secret, saved: bool) returns (sent: set<Message>, drawn: Option<Secret>)
      requires Valid() && refreshTask.Checking?
      modifies `keychain, `record, `refreshTask
      ensures Valid() && Did(Segment.Checked(check, random, saved), sent, drawn)
    {
      ActCareful(installation, State(), Segment.Checked(check, random, saved));
      var origin := refreshTask.origin;
      sent, drawn := {}, None;
      match check {
        case GiveUp => refreshTask := NoRefresh;
        case NoService =>
          if record.secret.Some? && record.origin.Some? && record.origin.value.parses {
            refreshTask := Unregistering(origin, false, Cookies(record.origin.value, record.secret.value));
          } else {
            refreshTask := NoRefresh;
          }
        case Ready => sent, drawn := Register(origin, 0, random, saved);
      }
    }

    /** One attempt of the loop: a secret is drawn and saved before any request names it. */
    method Register(origin: Origin, attempt: nat, random: Secret, saved: bool)
      returns (sent: set<Message>, drawn: Option<Secret>)
      modifies `keychain, `record, `refreshTask
      ensures Turn(State(), sent, drawn) == SendRegister(installation, old(State()), origin, attempt, random, saved)
    {
      sent, drawn := {}, None;
      if record.secret.None? {
        Save(record.(secret := Some(random)), saved);
        if !saved {
          refreshTask := NoRefresh;
          return;
        }
        drawn := Some(random);
      }
      refreshTask := Registering(origin, record.secret.value, attempt);
      sent := {RegisterSent(origin, record.secret.value, installation)};
    }

    /** The answer to a registration; the first refusal gives the secret up and tries again. */
    method RegisterAnswered(code: Code, random: Secret, saved: bool) returns (sent: set<Message>, drawn: Option<Secret>)
      requires Valid() && refreshTask.Registering?
      modifies `keychain, `record, `refreshTask
      ensures Valid() && Did(Segment.RegisterAnswered(code, random, saved), sent, drawn)
    {
      ActCareful(installation, State(), Segment.RegisterAnswered(code, random, saved));
      var origin := refreshTask.origin;
      sent, drawn := {}, None;
      if code != Refused || refreshTask.attempt != 0 {
        refreshTask := NoRefresh;
      } else {
        refreshTask := Unregistering(origin, true, Cookies(record.origin.value, record.secret.value));
      }
    }

    method AskRefresh() returns (sent: set<Message>)
      requires Valid() && refreshTask.Unregistering? && refreshTask.revoke.Cookies?
      modifies `refreshTask
      ensures Valid() && Did(Segment.AskRefresh, sent, None)
    {
      ActCareful(installation, State(), Segment.AskRefresh);
      var revoke := refreshTask.revoke;
      refreshTask := Unregistering(refreshTask.origin, refreshTask.retry, Asked(revoke.origin, revoke.secret));
      sent := {UnregisterSent(revoke.origin, revoke.secret)};
    }

    method AnswerRefresh(confirmed: bool, cleared: bool, random: Secret, saved: bool)
      returns (sent: set<Message>, drawn: Option<Secret>)
      requires Valid() && refreshTask.Unregistering? && refreshTask.revoke.Asked?
      modifies `keychain, `record, `refreshTask
      ensures Valid() && Did(Segment.AnswerRefresh(confirmed, cleared, random, saved), sent, drawn)
    {
      ActCareful(installation, State(), Segment.AnswerRefresh(confirmed, cleared, random, saved));
      var origin, retry := refreshTask.origin, refreshTask.retry;
      sent, drawn := {}, None;
      if !confirmed || !cleared {
        refreshTask := NoRefresh;
        return;
      }
      Save(record.(secret := None), true);
      if retry {
        sent, drawn := Register(origin, 1, random, saved);
      } else {
        refreshTask := NoRefresh;
      }
    }
  }
}
