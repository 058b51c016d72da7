/** What logins, logouts and restarts do to each single session, told by looking it up. */
module LoginSessions {
  import opened Wrappers
  import opened OrderedDicts
  import opened Accounts
  import opened AccountSizes
  import opened HostAuth

  /** A stored session that has not run out. */
  ghost predicate Runs(sessions: Sessions, key: SessionKey, now: real) {
    Get(sessions, key).Some? && now < Get(sessions, key).value.deadline
  }

  ghost function RunningKeys(sessions: Sessions, now: real): set<SessionKey> {
    set k | k in Keys(sessions) && Runs(sessions, k, now)
  }

  /** The running session that was opened first. */
  ghost predicate Oldest(sessions: Sessions, key: SessionKey, now: real) {
    exists i :: 0 <= i < |sessions| && sessions[i].0 == key && now < sessions[i].1.deadline
                && forall j | 0 <= j < i :: sessions[j].1.deadline <= now
  }

  lemma {:induction false} RunningAsStored(sessions: Sessions, now: real, key: SessionKey)
    requires Distinct(sessions)
    ensures Get(Running(sessions, now), key) == if Runs(sessions, key, now) then Get(sessions, key) else None
  {
    if sessions != [] {
      RunningAsStored(sessions[1..], now, key);
    }
  }

  /** A start takes a session over as the file has it, or not at all. */
  lemma {:induction false} LiveAsStored(sessions: Sessions, now: real, users: Users, key: SessionKey)
    requires Distinct(sessions)
    ensures Get(Live(sessions, now, users), key)
         == if Runs(sessions, key, now) && Get(sessions, key).value.name in users then Get(sessions, key) else None
  {
    if sessions != [] {
      LiveAsStored(sessions[1..], now, users, key);
    }
  }

  lemma {:induction false} RunningCount(sessions: Sessions, now: real)
    requires Distinct(sessions)
    ensures |Running(sessions, now)| == |RunningKeys(sessions, now)|
  {
    var running := Running(sessions, now);
    forall k ensures k in Keys(running) <==> k in RunningKeys(sessions, now) {
      RunningAsStored(sessions, now, k);
    }
    RunningDistinct(sessions, now);
    KeysCount(running);
    assert Keys(running) == RunningKeys(sessions, now);
  }

  lemma {:induction false} FirstIsOldest(sessions: Sessions, now: real, key: SessionKey)
    requires Running(sessions, now) != []
    ensures Oldest(sessions, key, now) <==> key == Running(sessions, now)[0].0
  {
    if sessions[0].1.deadline > now {
      assert Oldest(sessions, sessions[0].0, now);
    } else {
      var rest := sessions[1..];
      FirstIsOldest(rest, now, key);
      if i :| 0 <= i < |rest| && rest[i].0 == key && now < rest[i].1.deadline
              && forall j | 0 <= j < i :: rest[j].1.deadline <= now {
        assert forall j | 0 <= j < i + 1 :: sessions[j] == if j == 0 then sessions[0] else rest[j - 1];
        assert sessions[i + 1] == rest[i];
      }
      if i :| 0 <= i < |sessions| && sessions[i].0 == key && now < sessions[i].1.deadline
              && forall j | 0 <= j < i :: sessions[j].1.deadline <= now {
        assert rest[i - 1] == sessions[i];
        assert forall j | 0 <= j < i - 1 :: rest[j] == sessions[j + 1];
      }
    }
  }

  lemma {:induction false} WithoutFirst(sessions: Sessions, key: SessionKey)
    requires sessions != [] && Distinct(sessions)
    ensures Get(sessions[1..], key) == if key == sessions[0].0 then None else Get(sessions, key)
  {
  }

  /**
   Main result: a login stores its session for 604800 seconds. Every other session stays exactly as it was if it
   still runs, except that the oldest running one goes when 256 of them run; those that ran out go.
   */
  lemma {:induction false} LoginExactly(m: Memory, key: SessionKey, name: Name, now: real, other: SessionKey)
    requires Distinct(m.sessions)
    ensures var after := After(m, OpenSession(key, name, now));
            && after.users == m.users
            && Get(after.sessions, other)
               == if other == key then Some(Session(name, now + 604800.0))
                  else if Runs(m.sessions, other, now)
                          && !(|RunningKeys(m.sessions, now)| >= 256 && Oldest(m.sessions, other, now))
                  then Get(m.sessions, other)
                  else None
  {
    var running := Running(m.sessions, now);
    RunningDistinct(m.sessions, now);
    RunningCount(m.sessions, now);
    RunningAsStored(m.sessions, now, other);
    if |running| >= MAX_SESSIONS {
      FirstIsOldest(m.sessions, now, other);
      WithoutFirst(running, other);
      GetPut(running[1..], key, Session(name, now + SESSION_SECONDS), other);
    } else {
      GetPut(running, key, Session(name, now + SESSION_SECONDS), other);
    }
  }

  /** A logout, or meeting a dead session, takes that session and no other. */
  lemma {:induction false} CloseExactly(m: Memory, key: SessionKey, other: SessionKey)
    requires Distinct(m.sessions)
    ensures forall op | op == CloseSession(key) || op == ExpireSession(key) ::
              && After(m, op).users == m.users
              && Get(After(m, op).sessions, other) == if other == key then None else Get(m.sessions, other)
  {
    GetRemove(m.sessions, key, other);
  }

  /** The files an operation replaces, in order: an account change the table first. */
  lemma {:induction false} FilesInOrder(m: Memory, d: Disk, users: Users, key: SessionKey, name: Name, now: real)
    ensures var changed := SessionFile(TableHash(users), []);
            Writes(m, d, ChangeUsers(users)) == [d, Disk(Some(users), d.sessions), Disk(Some(users), Some(changed))]
    ensures forall op | op == OpenSession(key, name, now) || op == CloseSession(key) ::
              Writes(m, d, op) == [d, Disk(d.users, Some(SessionFile(TableHash(m.users), After(m, op).sessions)))]
    ensures Writes(m, d, ExpireSession(key)) == [d]
  {
  }

  /**
   Main result: a login that returned its token outlives a restart exactly while its seven days last and its
   account exists.
   */
  lemma {:induction false} LoginOutlivesRestart(ws: seq<World>, steps: seq<Step>, i: nat, key: SessionKey, name: Name,
                                                start: real, restarted: real)
    requires Run(ws, steps) && i + 2 < |ws|
    requires steps[i] == Finish(OpenSession(key, name, start), 1) && steps[i + 1] == Boot(restarted)
    ensures Accepts(ws[i + 2], key) <==> restarted < start + 604800.0 && name in ws[i].memory.value.users
  {
    RunSound(ws, steps, i);
    RunDictionaries(ws, steps, i);
    RunDictionaries(ws, steps, i + 1);
    RestartTakes(ws[i], ws[i + 1], ws[i + 2], key, name, start, restarted);
  }

  lemma {:induction false} RestartTakes(w: World, v: World, u: World, key: SessionKey, name: Name, start: real,
                                        restarted: real)
    requires Sound(w) && Dictionaries(w) && Dictionaries(v)
    requires Next(w, Finish(OpenSession(key, name, start), 1), v) && Next(v, Boot(restarted), u)
    ensures Accepts(u, key) <==> restarted < start + 604800.0 && name in w.memory.value.users
  {
    var m := w.memory.value;
    LoginExactly(m, key, name, start, key);
    var file := v.disk.sessions.value;
    assert file == SessionFile(TableHash(m.users), After(m, OpenSession(key, name, start)).sessions);
    LiveAsStored(file.sessions, restarted, m.users, key);
  }
}
