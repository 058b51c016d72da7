/**
 What each operation on the host's subscription store comes to: who is eligible, when a registration is
 accepted and what it stores, and what the others leave behind.
 */
module PushOperations {
  import opened Wrappers
  import opened OrderedDicts
  import opened HostPush
  import Auth = HostAuth

  /** The session is stored for `name` and runs past `now`. */
  ghost predicate Runs(auth: Auth.Memory, session: Auth.SessionKey, name: string, now: real) {
    name in auth.users && exists deadline: real :: deadline > now && (session, Auth.Session(name, deadline)) in auth.sessions
  }

  lemma {:induction false} RunsByGet(auth: Auth.Memory, session: Auth.SessionKey, name: string, now: real)
    requires Distinct(auth.sessions)
    ensures Runs(auth, session, name, now)
       <==> name in auth.users && Get(auth.sessions, session).Some?
            && Get(auth.sessions, session).value.name == name && Get(auth.sessions, session).value.deadline > now
  {
    var s := Get(auth.sessions, session);
    if Runs(auth, session, name, now) {
      var deadline: real :| deadline > now && (session, Auth.Session(name, deadline)) in auth.sessions;
      GetExactly(auth.sessions, session, Auth.Session(name, deadline));
    }
    if s.Some? {
      GetExactly(auth.sessions, session, s.value);
      assert s.value == Auth.Session(s.value.name, s.value.deadline);
    }
  }

  /** A device is eligible exactly while the session it was registered from runs for its own user. */
  lemma {:induction false} EligibleExactly(devices: Devices, auth: Auth.Memory, now: real, secret: Secret)
    requires Distinct(auth.sessions)
    ensures secret in Eligible(devices, auth, now)
       <==> secret in devices && Runs(auth, devices[secret].session, devices[secret].username, now)
    ensures secret in Eligible(devices, auth, now) ==> Eligible(devices, auth, now)[secret] == devices[secret]
  {
    if secret in devices {
      RunsByGet(auth, devices[secret].session, devices[secret].username, now);
    }
  }

  lemma {:induction false} LoggedInExactly(session: Auth.SessionKey, auth: Auth.Memory, now: real)
    requires Distinct(auth.sessions)
    ensures LoggedIn(session, auth, now) <==> exists name :: Runs(auth, session, name, now)
  {
    var s := Get(auth.sessions, session);
    if s.Some? {
      RunsByGet(auth, session, s.value.name, now);
    }
    if name :| Runs(auth, session, name, now) {
      RunsByGet(auth, session, name, now);
    }
  }

  // ---------- registering ----------

  /**
   Main result: an accepted registration stores the token, environment and installation it was sent with, for
   the account, session and origin it came from; every other device stays, unchanged, exactly if it was
   eligible, and otherwise is a tombstone.
   */
  lemma {:induction false} RegisteredAsAsked(m: Store, file: Option<Store>, r: Registration, session: Auth.SessionKey,
                                             username: string, origin: string, configured: bool,
                                             auth: Auth.Memory, now: real, written: bool, other: Secret)
    requires Perform(m, file, Register(r, session, username, origin, configured), auth, now, written).reply == Accepted
    ensures var after := Perform(m, file, Register(r, session, username, origin, configured), auth, now, written).memory;
            && r.secret.Some? && r.secret.value in after.devices
            && var d := after.devices[r.secret.value];
               && d.installation == r.installation && d.token == r.token && d.environment == r.environment
               && d.username == username && d.session == session && d.origin == origin
               && (other != r.secret.value ==>
                     && (other in after.devices <==> other in Eligible(m.devices, auth, now))
                     && (other in after.devices ==> other in m.devices && after.devices[other] == m.devices[other])
                     && (other in after.revoked <==> other in m.revoked || (other in m.devices && other !in after.devices)))
  {
  }

  /** What a registration has to meet, apart from the write. */
  ghost predicate Admissible(m: Store, r: Registration, session: Auth.SessionKey, username: string, configured: bool,
                             auth: Auth.Memory, now: real)
  {
    && r.valid && r.secret.Some? && configured
    && (exists name :: Runs(auth, session, name, now))
    && r.secret.value !in m.revoked
    && (r.secret.value in m.devices ==>
          m.devices[r.secret.value].username == username && m.devices[r.secret.value].installation == r.installation)
    && (r.secret.value in Eligible(m.devices, auth, now) || |Eligible(m.devices, auth, now)| < 256)
  }

  /** The devices a registration or the housekeeping would turn into tombstones. */
  function Ending(m: Store, kept: Devices): set<Secret> {
    set k | k in m.devices && k !in kept
  }

  /** An operation is accepted exactly if it is admitted, and within the limit and written where it writes. */
  lemma {:induction false} AcceptedWhen(m: Store, file: Option<Store>, op: Op, auth: Auth.Memory, now: real, written: bool)
    ensures Perform(m, file, op, auth, now, written).reply == Accepted
       <==> Asked(m, op, auth, now).Ok?
            && (!Writes(m, op) || (|Asked(m, op, auth, now).value.revoked| <= 4096 && written))
  {
    AskedFlows(m, op, auth, now);
  }

  lemma {:induction false} RegisterAsked(m: Store, r: Registration, session: Auth.SessionKey, username: string,
                                         origin: string, configured: bool, auth: Auth.Memory, now: real)
    requires Distinct(auth.sessions)
    ensures var asked := Asked(m, Register(r, session, username, origin, configured), auth, now);
            && (asked.Ok? <==> Admissible(m, r, session, username, configured, auth, now))
            && (asked.Ok? ==> asked.value.revoked
                              == m.revoked + (Ending(m, Eligible(m.devices, auth, now)) - {r.secret.value}))
  {
    LoggedInExactly(session, auth, now);
    if r.secret.Some? {
      var eligible := Eligible(m.devices, auth, now);
      var device := Device(r.installation, r.token, r.environment, username, session, origin);
      assert m.devices.Keys - eligible[r.secret.value := device].Keys == Ending(m, eligible) - {r.secret.value};
    }
  }

  /** Main result: a registration is accepted exactly under these conditions. */
  lemma {:induction false} RegisterReplies(m: Store, file: Option<Store>, r: Registration, session: Auth.SessionKey,
                                           username: string, origin: string, configured: bool,
                                           auth: Auth.Memory, now: real, written: bool)
    requires Distinct(auth.sessions)
    ensures Perform(m, file, Register(r, session, username, origin, configured), auth, now, written).reply == Accepted
       <==> && Admissible(m, r, session, username, configured, auth, now) && written
            && |m.revoked + (Ending(m, Eligible(m.devices, auth, now)) - {r.secret.value})| <= 4096
  {
    RegisterAsked(m, r, session, username, origin, configured, auth, now);
    AcceptedWhen(m, file, Register(r, session, username, origin, configured), auth, now, written);
  }

  /** Which refusal a registration meets first. */
  lemma {:induction false} RegisterRefusals(m: Store, file: Option<Store>, r: Registration, session: Auth.SessionKey,
                                            username: string, origin: string, configured: bool,
                                            auth: Auth.Memory, now: real, written: bool)
    requires Distinct(auth.sessions)
    ensures var reply := Perform(m, file, Register(r, session, username, origin, configured), auth, now, written).reply;
            && (!r.valid || r.secret.None? ==> reply == BadRequest)
            && (r.valid && r.secret.Some? && !configured ==> reply == Unavailable)
            && (r.valid && r.secret.Some? && configured ==>
                  && (!(exists name :: Runs(auth, session, name, now)) ==> reply == Unauthorized)
                  && ((exists name :: Runs(auth, session, name, now)) && r.secret.value in m.revoked ==> reply == BadRequest))
  {
    LoggedInExactly(session, auth, now);
  }

  // ---------- the others ----------

  lemma {:induction false} AcceptedMemory(m: Store, file: Option<Store>, op: Op, auth: Auth.Memory, now: real, written: bool)
    requires Perform(m, file, op, auth, now, written).reply == Accepted
    ensures Asked(m, op, auth, now) == Ok(Perform(m, file, op, auth, now, written).memory)
  {
    AskedFlows(m, op, auth, now);
  }

  /** Revoking a tombstone again changes nothing. */
  lemma {:induction false} RevokedAgain(m: Store, secret: Secret)
    requires Consistent(m) && secret in m.revoked
    ensures Store(m.devices - {secret}, m.revoked + {secret}) == m
  {
    assert secret !in m.devices.Keys;
    assert m.devices - {secret} == m.devices && m.revoked + {secret} == m.revoked;
  }

  lemma {:induction false} MergedWithout(m: Store, secret: Secret)
    ensures Merged(m, m.devices - {secret}, m.revoked + {secret}) == Store(m.devices - {secret}, m.revoked + {secret})
  {
    assert m.revoked + {secret} + (m.devices.Keys - (m.devices - {secret}).Keys) == m.revoked + {secret};
  }

  lemma {:induction false} UnregisterStores(m: Store, secret: Secret, session: Auth.SessionKey, auth: Auth.Memory, now: real)
    requires Consistent(m) && Asked(m, Unregister(Some(secret), session), auth, now).Ok?
    ensures Asked(m, Unregister(Some(secret), session), auth, now).value
         == Store(m.devices - {secret}, m.revoked + {secret})
  {
    if secret in m.revoked {
      RevokedAgain(m, secret);
    } else {
      MergedWithout(m, secret);
    }
  }

  /** Main result: an accepted revocation takes away that device alone and adds that tombstone alone. */
  lemma {:induction false} UnregisteredExactly(m: Store, file: Option<Store>, secret: Secret, session: Auth.SessionKey,
                                               auth: Auth.Memory, now: real, written: bool)
    requires Consistent(m) && Perform(m, file, Unregister(Some(secret), session), auth, now, written).reply == Accepted
    ensures Perform(m, file, Unregister(Some(secret), session), auth, now, written).memory
         == Store(m.devices - {secret}, m.revoked + {secret})
  {
    AcceptedMemory(m, file, Unregister(Some(secret), session), auth, now, written);
    UnregisterStores(m, secret, session, auth, now);
  }

  lemma {:induction false} UnregisterAsked(m: Store, secret: Secret, session: Auth.SessionKey,
                                           auth: Auth.Memory, now: real)
    requires Distinct(auth.sessions) && Consistent(m) && secret !in m.revoked
    ensures var asked := Asked(m, Unregister(Some(secret), session), auth, now);
            && (asked.Ok? <==> (secret in m.devices || exists name :: Runs(auth, session, name, now))
                               && |m.revoked| < 4096)
            && (asked.Ok? ==> |asked.value.revoked| == |m.revoked| + 1)
  {
    LoggedInExactly(session, auth, now);
    if Asked(m, Unregister(Some(secret), session), auth, now).Ok? {
      UnregisterStores(m, secret, session, auth, now);
    }
  }

  /** A revocation is accepted for a tombstone, and else if the device is known or its caller logged in. */
  lemma {:induction false} UnregisterReplies(m: Store, file: Option<Store>, secret: Option<Secret>,
                                             session: Auth.SessionKey, auth: Auth.Memory, now: real, written: bool)
    requires Distinct(auth.sessions) && Consistent(m)
    ensures Perform(m, file, Unregister(secret, session), auth, now, written).reply == Accepted
       <==> secret.Some?
            && (secret.value in m.revoked
                || ((secret.value in m.devices || exists name :: Runs(auth, session, name, now))
                    && |m.revoked| < 4096 && written))
  {
    AcceptedWhen(m, file, Unregister(secret, session), auth, now, written);
    if secret.Some? && secret.value !in m.revoked {
      UnregisterAsked(m, secret.value, session, auth, now);
    }
  }

  /** The housekeeping leaves exactly the eligible devices, and the rest as tombstones. */
  lemma {:induction false} PrunedExactly(m: Store, file: Option<Store>, auth: Auth.Memory, now: real, written: bool)
    requires Perform(m, file, Prune, auth, now, written).reply == Accepted
    ensures var kept := Eligible(m.devices, auth, now);
            Perform(m, file, Prune, auth, now, written).memory == Store(kept, m.revoked + Ending(m, kept))
  {
    var kept := Eligible(m.devices, auth, now);
    assert m.devices.Keys - kept.Keys == Ending(m, kept);
  }

  /** A dead token takes away its device alone, into the tombstones. */
  lemma {:induction false} InvalidatedExactly(m: Store, file: Option<Store>, dead: Secret, auth: Auth.Memory, now: real,
                                              written: bool)
    requires Perform(m, file, Invalidate(dead), auth, now, written).reply == Accepted
    ensures Perform(m, file, Invalidate(dead), auth, now, written).memory
         == Store(m.devices - {dead}, m.revoked + (if dead in m.devices then {dead} else {}))
  {
    assert m.devices.Keys - (m.devices - {dead}).Keys == if dead in m.devices then {dead} else {};
  }

  /** With room for its tombstone, a device with a dead token goes exactly when the write works. */
  lemma {:induction false} InvalidateReplies(m: Store, file: Option<Store>, dead: Secret, auth: Auth.Memory, now: real,
                                             written: bool)
    requires dead in m.devices && |m.revoked + {dead}| <= 4096
    ensures var r := Perform(m, file, Invalidate(dead), auth, now, written);
            && (r.reply == Accepted <==> written)
            && (written ==> r.memory == Store(m.devices - {dead}, m.revoked + {dead}))
            && (!written ==> r.memory == m && r.file == file)
  {
    assert m.devices.Keys - (m.devices - {dead}).Keys == {dead};
  }

  /** The file follows memory after every accepted write. */
  lemma {:induction false} AcceptedIsStored(m: Store, op: Op, auth: Auth.Memory, now: real, written: bool)
    ensures var r := Perform(m, Some(m), op, auth, now, written); r.reply == Accepted ==> r.file == Some(r.memory)
  {
  }
}
