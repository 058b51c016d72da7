/**
 Which logins can come back after an account change that did not complete: a session file that was not
 rewritten counts again once the user table it was written under is back.
 */
module LoginReturns {
  import opened Wrappers
  import opened OrderedDicts
  import opened Sequences
  import opened Accounts
  import opened AccountSizes
  import opened AccountChanges
  import opened HostAuth

  // ---------- runs of accepted changes ----------

  /** A step that changes the table changes it as `save_user` or `delete_user` accept. */
  ghost predicate Changing(w: World, step: Step, used: set<string>) {
    !step.Boot? && step.op.ChangeUsers? && w.memory.Some? ==> Accepted(w.memory.value.users, step.op.users, used)
  }

  ghost predicate AcceptedOnly(ws: seq<World>, steps: seq<Step>, used: set<string>) {
    |ws| == |steps| + 1 && forall i | 0 <= i < |steps| :: Changing(ws[i], steps[i], used)
  }

  /** Memory has the stored table, and that table and the one of the session file were made by changes. */
  ghost predicate WellKept(w: World) {
    && (w.memory.Some? ==> w.memory.value.users == StoredUsers(w.disk))
    && ValidTable(StoredUsers(w.disk))
    && (w.disk.sessions.Some? ==> ValidTable(w.disk.sessions.value.usersHash.table))
  }

  lemma {:induction false} NextWellKept(w: World, step: Step, v: World, used: set<string>)
    requires WellKept(w) && Next(w, step, v) && Changing(w, step, used)
    ensures WellKept(v)
  {
    if !step.Boot? && step.op.ChangeUsers? {
      AcceptedValid(w.memory.value.users, step.op.users, used);
    }
  }

  lemma {:induction false} RunWellKept(ws: seq<World>, steps: seq<Step>, used: set<string>, i: nat)
    requires Run(ws, steps) && AcceptedOnly(ws, steps, used) && i < |ws|
    ensures WellKept(ws[i])
  {
    if i > 0 {
      RunWellKept(ws, steps, used, i - 1);
      NextWellKept(ws[i - 1], steps[i - 1], ws[i], used);
    }
  }

  /** The session file still holds the key, running at `time`, for a user of a loadable table it was written under. */
  ghost predicate Revivable(w: World, key: SessionKey, time: real) {
    w.disk.sessions.Some? && Fits(w.disk.sessions.value.usersHash.table)
    && HoldsLive(w.disk.sessions.value.sessions, key, time, w.disk.sessions.value.usersHash.table)
  }

  /** Restarts happen no earlier than `time`. */
  ghost predicate BootsFrom(steps: seq<Step>, time: real) {
    forall i | 0 <= i < |steps| && steps[i].Boot? :: steps[i].now >= time
  }

  /** From `w` on, at `time`, some continuation by accepted changes with new salts accepts the key. */
  ghost predicate CanReturn(w: World, key: SessionKey, time: real, used: set<string>) {
    exists ws: seq<World>, steps: seq<Step>, j: nat ::
      Steps(ws, steps) && AcceptedOnly(ws, steps, used) && BootsFrom(steps, time)
      && j < |ws| && ws[0] == w && Accepts(ws[j], key)
  }

  // ---------- a file that no longer holds the key ----------

  /** Not accepted, and not to be revived. */
  ghost predicate Lapsed(w: World, key: SessionKey, time: real) {
    key in w.minted && !Accepts(w, key) && !Revivable(w, key, time)
  }

  lemma {:induction false} BootStaysLapsed(w: World, now: real, v: World, key: SessionKey, time: real)
    requires Lapsed(w, key, time) && Next(w, Boot(now), v) && now >= time
    ensures Lapsed(v, key, time)
  {
    var users := StoredUsers(w.disk);
    if Accepts(v, key) {
      var file := w.disk.sessions.value;
      LiveExactly(file.sessions, key, now, users);
      EmptyFits();
    }
  }

  lemma {:induction false} WriteStaysLapsed(w: World, op: Op, n: nat, file: SessionFile, key: SessionKey, time: real)
    requires Lapsed(w, key, time) && w.memory.Some? && Fresh(w, op) && n < |Writes(w.memory.value, w.disk, op)|
    requires Writes(w.memory.value, w.disk, op)[n].sessions == Some(file)
    ensures key !in Keys(After(w.memory.value, op).sessions)
    ensures Some(file) == w.disk.sessions || key !in Keys(file.sessions)
  {
  }

  lemma {:induction false} StaysLapsed(w: World, step: Step, v: World, key: SessionKey, time: real)
    requires Lapsed(w, key, time) && Next(w, step, v) && (step.Boot? ==> step.now >= time)
    ensures Lapsed(v, key, time)
  {
    if step.Boot? {
      BootStaysLapsed(w, step.now, v, key, time);
    } else {
      if v.disk.sessions.Some? {
        var file := v.disk.sessions.value;
        WriteStaysLapsed(w, step.op, step.n, file, key, time);
        if HoldsLive(file.sessions, key, time, file.usersHash.table) {
          LiveHeld(file.sessions, key, time, file.usersHash.table);
        }
      }
    }
  }

  lemma {:induction false} NeverReturns(ws: seq<World>, steps: seq<Step>, j: nat, key: SessionKey, time: real)
    requires Steps(ws, steps) && BootsFrom(steps, time) && j < |ws| && Lapsed(ws[0], key, time)
    ensures Lapsed(ws[j], key, time)
  {
    if j > 0 {
      NeverReturns(ws, steps, j - 1, key, time);
      StaysLapsed(ws[j - 1], steps[j - 1], ws[j], key, time);
    }
  }

  // ---------- a table that cannot be brought back ----------

  /**
   The key is not accepted; if the session file is still the one that holds it, the table it was written
   under is out of reach.
   */
  ghost predicate Barred(w: World, key: SessionKey, file: SessionFile) {
    && key in Keys(file.sessions) && key in w.minted && !Accepts(w, key)
    && (w.memory.Some? ==> w.memory.value.users == StoredUsers(w.disk))
    && (w.disk.sessions.Some? && key in Keys(w.disk.sessions.value.sessions) ==>
          w.disk.sessions == Some(file) && !Restorable(StoredUsers(w.disk), file.usersHash.table))
  }

  lemma {:induction false} BootStaysBarred(w: World, now: real, v: World, key: SessionKey, file: SessionFile)
    requires Barred(w, key, file) && Next(w, Boot(now), v)
    ensures Barred(v, key, file)
  {
    RestorableItself(StoredUsers(w.disk));
  }

  lemma {:induction false} ChangeStaysBarred(w: World, step: Step, v: World, key: SessionKey, file: SessionFile,
                                             used: set<string>)
    requires Barred(w, key, file) && Next(w, step, v) && Changing(w, step, used)
    requires !step.Boot? && step.op.ChangeUsers? && Salts(file.usersHash.table) <= used
    ensures Barred(v, key, file)
  {
    if !Restorable(w.memory.value.users, file.usersHash.table) {
      StaysUnreachable(w.memory.value.users, step.op.users, file.usersHash.table, used);
    }
  }

  lemma {:induction false} SessionStaysBarred(w: World, step: Step, v: World, key: SessionKey, file: SessionFile)
    requires Barred(w, key, file) && Next(w, step, v) && !step.Boot? && !step.op.ChangeUsers?
    ensures Barred(v, key, file)
  {
    assert key !in Keys(After(w.memory.value, step.op).sessions);
  }

  lemma {:induction false} NeverRestored(ws: seq<World>, steps: seq<Step>, j: nat, key: SessionKey, file: SessionFile,
                                         used: set<string>)
    requires Steps(ws, steps) && AcceptedOnly(ws, steps, used) && j < |ws|
    requires Barred(ws[0], key, file) && Salts(file.usersHash.table) <= used
    ensures Barred(ws[j], key, file)
  {
    if j > 0 {
      NeverRestored(ws, steps, j - 1, key, file, used);
      var step := steps[j - 1];
      assert Next(ws[j - 1], step, ws[j]) && Changing(ws[j - 1], step, used);
      match step {
        case Boot(now) => BootStaysBarred(ws[j - 1], now, ws[j], key, file);
        case _ =>
          if step.op.ChangeUsers? {
            ChangeStaysBarred(ws[j - 1], step, ws[j], key, file, used);
          } else {
            SessionStaysBarred(ws[j - 1], step, ws[j], key, file);
          }
      }
    }
  }

  // ---------- how it is brought back ----------

  /** Running with table `users` beside the given session file. */
  ghost predicate Beside(w: World, users: Users, file: SessionFile, minted: map<SessionKey, Users>) {
    w.memory.Some? && w.memory.value.users == users && StoredUsers(w.disk) == users
    && w.disk.sessions == Some(file) && w.minted == minted
  }

  /** A change whose second file could not be written. */
  function HalfChanged(w: World, users: Users): World {
    World(Some(Memory(users, [])), Disk(Some(users), w.disk.sessions), w.minted)
  }

  /** A way to go: accepted changes without a restart. */
  ghost predicate Changes(ws: seq<World>, steps: seq<Step>, used: set<string>) {
    Steps(ws, steps) && AcceptedOnly(ws, steps, used) && forall i | 0 <= i < |steps| :: !steps[i].Boot?
  }

  lemma {:induction false} OneMore(w: World, users: Users, ws: seq<World>, steps: seq<Step>, used: set<string>)
    requires w.memory.Some? && Accepted(w.memory.value.users, users, used)
    requires Changes(ws, steps, used) && ws[0] == HalfChanged(w, users)
    ensures Changes([w] + ws, [Finish(ChangeUsers(users), 1)] + steps, used)
  {
    var all, both := [w] + ws, [Finish(ChangeUsers(users), 1)] + steps;
    forall i | 0 <= i < |both| ensures Next(all[i], both[i], all[i + 1]) && Changing(all[i], both[i], used) {
      if i > 0 {
        assert Next(ws[i - 1], steps[i - 1], ws[i]) && Changing(ws[i - 1], steps[i - 1], used);
      }
    }
  }

  lemma {:induction false} Restored(w: World, file: SessionFile, used: set<string>)
      returns (ws: seq<World>, steps: seq<Step>)
    requires w.memory.Some? && Beside(w, w.memory.value.users, file, w.minted)
    requires ValidTable(file.usersHash.table) && Restorable(w.memory.value.users, file.usersHash.table)
    ensures Changes(ws, steps, used) && ws[0] == w
    ensures Beside(ws[|ws| - 1], file.usersHash.table, file, w.minted)
    decreases |Differing(w.memory.value.users, file.usersHash.table)|
  {
    var users, goal := w.memory.value.users, file.usersHash.table;
    if users == goal {
      ws, steps := [w], [];
    } else {
      var table := Approach(users, goal, used);
      var next := HalfChanged(w, table);
      var later, more := Restored(next, file, used);
      OneMore(w, table, later, more, used);
      ws, steps := [w] + later, [Finish(ChangeUsers(table), 1)] + more;
    }
  }

  lemma {:induction false} ThenBoot(ws: seq<World>, steps: seq<Step>, used: set<string>, time: real)
    requires Changes(ws, steps, used) && Loads(ws[|ws| - 1].disk)
    ensures var last := ws[|ws| - 1];
            var v := last.(memory := Some(Load(last.disk, time)));
            && Steps(ws + [v], steps + [Boot(time)]) && AcceptedOnly(ws + [v], steps + [Boot(time)], used)
            && BootsFrom(steps + [Boot(time)], time)
  {
    var last := ws[|ws| - 1];
    var v := last.(memory := Some(Load(last.disk, time)));
    var all, both := ws + [v], steps + [Boot(time)];
    forall i | 0 <= i < |both| ensures Next(all[i], both[i], all[i + 1]) && Changing(all[i], both[i], used) {
      if i < |steps| {
        assert Next(ws[i], steps[i], ws[i + 1]) && Changing(ws[i], steps[i], used);
      }
    }
  }

  lemma {:induction false} Revived(w: World, key: SessionKey, time: real, used: set<string>)
    requires w.memory.Some? && WellKept(w) && Revivable(w, key, time)
    requires Restorable(w.memory.value.users, w.disk.sessions.value.usersHash.table)
    ensures CanReturn(w, key, time, used)
  {
    var file := w.disk.sessions.value;
    var ws, steps := Restored(w, file, used);
    var last := ws[|ws| - 1];
    ThenBoot(ws, steps, used, time);
    LiveExactly(file.sessions, key, time, file.usersHash.table);
    var all, both := ws + [last.(memory := Some(Load(last.disk, time)))], steps + [Boot(time)];
    assert all[0] == w && Accepts(all[|ws|], key);
  }

  // ---------- exactly when ----------

  /** The only-if half: neither without the key in the file nor without a way back to its table. */
  lemma {:induction false} ReturnsOnlyIf(w: World, key: SessionKey, time: real, used: set<string>)
    requires w.memory.Some? && WellKept(w) && key in w.minted && !Accepts(w, key) && CanReturn(w, key, time, used)
    requires w.disk.sessions.Some? ==> Salts(w.disk.sessions.value.usersHash.table) <= used
    ensures Revivable(w, key, time)
    ensures Restorable(w.memory.value.users, w.disk.sessions.value.usersHash.table)
  {
    var ws: seq<World>, steps: seq<Step>, j: nat :|
      Steps(ws, steps) && AcceptedOnly(ws, steps, used) && BootsFrom(steps, time)
      && j < |ws| && ws[0] == w && Accepts(ws[j], key);
    if !Revivable(w, key, time) {
      NeverReturns(ws, steps, j, key, time);
    } else {
      var file := w.disk.sessions.value;
      LiveHeld(file.sessions, key, time, file.usersHash.table);
      if !Restorable(w.memory.value.users, file.usersHash.table) {
        NeverRestored(ws, steps, j, key, file, used);
      }
    }
  }

  /**
   Main result: at any moment of a run of accepted changes, a key that the running service does not accept
   can be accepted again exactly when the session file still holds it, unexpired, for a user of the loadable
   table the file was written under, and accepted changes lead back to that table: each of its accounts is
   still there with the same salt and digest, and there is no administrator unless that table has one.
   */
  lemma {:induction false} ReturnsExactly(ws: seq<World>, steps: seq<Step>, i: nat, key: SessionKey, time: real,
                                          used: set<string>)
    requires Run(ws, steps) && AcceptedOnly(ws, steps, {}) && i < |ws|
    requires ws[i].memory.Some? && key in ws[i].minted && !Accepts(ws[i], key)
    requires ws[i].disk.sessions.Some? ==> Salts(ws[i].disk.sessions.value.usersHash.table) <= used
    ensures CanReturn(ws[i], key, time, used)
       <==> Revivable(ws[i], key, time)
            && Restorable(ws[i].memory.value.users, ws[i].disk.sessions.value.usersHash.table)
  {
    RunWellKept(ws, steps, {}, i);
    if CanReturn(ws[i], key, time, used) {
      ReturnsOnlyIf(ws[i], key, time, used);
    } else if Revivable(ws[i], key, time)
           && Restorable(ws[i].memory.value.users, ws[i].disk.sessions.value.usersHash.table) {
      Revived(ws[i], key, time, used);
    }
  }

  // ---------- a run in which a wiped session comes back ----------

  const EARLY := map["a" := User(true, {}, "s", Digest("secret", "s"))]
  const LATER := map["a" := User(true, {"w"}, "s", Digest("secret", "s"))]
  const KEY := "k"
  const SESSION := (KEY, Session("a", SESSION_SECONDS))
  const HELD := Some(SessionFile(TableHash(EARLY), [SESSION]))
  const ISSUED := map[KEY := EARLY]

  lemma {:induction false} BothFit()
    ensures Fits(EARLY) && Fits(LATER)
  {
    OneUserFits("a", EARLY["a"]);
    OneUserFits("a", LATER["a"]);
  }

  lemma {:induction false} ToEarly()
    ensures Accepted(map[], EARLY, {})
  {
    assert ValidName("a") && AsSet([]) == {} && Listable([]);
    assert Saved(map[], "a", true, [], "secret", "s") == Ok(EARLY);
  }

  /** The change gives the account a workspace, its undoing takes it away again; both keep the password. */
  lemma {:induction false} ThereAndBack()
    ensures Accepted(EARLY, LATER, {}) && Accepted(LATER, EARLY, {})
  {
    assert ValidName("a") && AsSet(["w"]) == {"w"} && AsSet([]) == {} && Listable(["w"]) && Listable([]);
    assert EARLY["a" := LATER["a"]] == LATER && LATER["a" := EARLY["a"]] == EARLY;
    assert Saved(EARLY, "a", true, ["w"], "", "") == Ok(LATER);
    assert Saved(LATER, "a", true, [], "", "") == Ok(EARLY);
  }

  /** A first account and a login, from an empty host. */
  lemma {:induction false} LoginBegins() returns (ws: seq<World>, steps: seq<Step>)
    ensures Run(ws, steps) && AcceptedOnly(ws, steps, {}) && |ws| == 4 && steps[2] == Finish(OpenSession(KEY, "a", 0.0), 1)
    ensures ws[3] == World(Some(Memory(EARLY, [SESSION])), Disk(Some(EARLY), HELD), ISSUED)
  {
    steps := [Boot(0.0), Finish(ChangeUsers(EARLY), 2), Finish(OpenSession(KEY, "a", 0.0), 1)];
    ws := [World(None, Disk(None, None), map[]),
           World(Some(Memory(map[], [])), Disk(None, None), map[]),
           World(Some(Memory(EARLY, [])), Disk(Some(EARLY), Some(SessionFile(TableHash(EARLY), []))), map[]),
           World(Some(Memory(EARLY, [SESSION])), Disk(Some(EARLY), HELD), ISSUED)];
    assert Next(ws[0], steps[0], ws[1]);
    assert Next(ws[1], steps[1], ws[2]);
    assert Next(ws[2], steps[2], ws[3]);
    ToEarly();
    assert Changing(ws[1], steps[1], {});
  }

  /** The change, its undoing, each cut off between the two files, and the restarts. */
  lemma {:induction false} ChangeUndone(w: World) returns (ws: seq<World>, steps: seq<Step>)
    requires w == World(Some(Memory(EARLY, [SESSION])), Disk(Some(EARLY), HELD), ISSUED)
    ensures Steps(ws, steps) && AcceptedOnly(ws, steps, {}) && |ws| == 5 && ws[0] == w
    ensures ws[2].memory == Some(Memory(LATER, [])) && ws[2].disk.users == Some(LATER) && ws[4].memory == w.memory
  {
    BothFit();
    steps := [Crash(ChangeUsers(LATER), 1), Boot(1.0), Crash(ChangeUsers(EARLY), 1), Boot(2.0)];
    ws := [w,
           World(None, Disk(Some(LATER), HELD), ISSUED),
           World(Some(Memory(LATER, [])), Disk(Some(LATER), HELD), ISSUED),
           World(None, Disk(Some(EARLY), HELD), ISSUED),
           World(Some(Memory(EARLY, [SESSION])), Disk(Some(EARLY), HELD), ISSUED)];
    assert Next(ws[0], steps[0], ws[1]);
    assert LATER["a"] != EARLY["a"];
    assert Next(ws[1], steps[1], ws[2]);
    assert Next(ws[2], steps[2], ws[3]);
    assert [SESSION][1..] == [] && Live([SESSION], 2.0, EARLY) == [SESSION];
    assert Next(ws[3], steps[3], ws[4]);
    ThereAndBack();
    assert Changing(ws[0], steps[0], {}) && Changing(ws[2], steps[2], {});
  }

  lemma {:induction false} RunGoesOn(ws: seq<World>, steps: seq<Step>, vs: seq<World>, more: seq<Step>)
    requires Run(ws, steps) && Steps(vs, more) && vs[0] == ws[|ws| - 1]
    requires AcceptedOnly(ws, steps, {}) && AcceptedOnly(vs, more, {})
    ensures Run(ws + vs[1..], steps + more) && AcceptedOnly(ws + vs[1..], steps + more, {})
  {
    var all, both := ws + vs[1..], steps + more;
    forall i | 0 <= i < |both| ensures Next(all[i], both[i], all[i + 1]) && Changing(all[i], both[i], {}) {
      if i < |steps| {
        assert Next(ws[i], steps[i], ws[i + 1]) && Changing(ws[i], steps[i], {});
      } else {
        var k := i - |steps|;
        assert Next(vs[k], more[k], vs[k + 1]) && Changing(vs[k], more[k], {});
        assert all[i] == vs[k] && all[i + 1] == vs[k + 1];
      }
    }
  }

  /** A wiped session that is accepted again: the change did not complete, and was undone. */
  lemma {:induction false} WipedSessionReturns() returns (ws: seq<World>, steps: seq<Step>, key: SessionKey)
    ensures Run(ws, steps) && AcceptedOnly(ws, steps, {}) && |ws| == 8
    ensures Accepts(ws[3], key) && ws[5].memory.Some? && !Accepts(ws[5], key) && Accepts(ws[7], key)
    ensures StoredUsers(ws[5].disk) != StoredUsers(ws[3].disk)
  {
    key := KEY;
    var front, first := LoginBegins();
    var back, second := ChangeUndone(front[3]);
    RunGoesOn(front, first, back, second);
    ws, steps := front + back[1..], first + second;
    assert LATER["a"] != EARLY["a"];
  }
}
