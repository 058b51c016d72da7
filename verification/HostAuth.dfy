/**
 The host's account store: a user table and its login sessions, kept in two files that are replaced
 one after the other. Hashes are taken as injective: the hash of a table carries the table.
 */
module HostAuth {
  import opened Wrappers
  import opened OrderedDicts
  import opened LoginThrottle
  import opened Counting
  import opened Accounts
  import opened AccountSizes

  const MAX_SESSIONS: nat := 256
  const SESSION_SECONDS: real := 604800.0

  type SessionKey = string   // the hash of a login token

  datatype TableHash = TableHash(table: Users)
  datatype Session = Session(name: Name, deadline: real)

  type Sessions = seq<(SessionKey, Session)>

  datatype SessionFile = SessionFile(usersHash: TableHash, sessions: Sessions)

  /** The two files; either may not exist yet. */
  datatype Disk = Disk(users: Option<Users>, sessions: Option<SessionFile>)

  datatype Memory = Memory(users: Users, sessions: Sessions)

  // ---------- loading ----------

  /** The sessions still running that belong to a known user. */
  function Live(sessions: Sessions, now: real, users: Users): (live: Sessions)
    ensures Keys(live) <= Keys(sessions) && |live| <= |sessions|
  {
    if sessions == [] then []
    else if sessions[0].1.deadline > now && sessions[0].1.name in users then
      [sessions[0]] + Live(sessions[1..], now, users)
    else Live(sessions[1..], now, users)
  }

  function StoredUsers(d: Disk): Users {
    if d.users.Some? then d.users.value else map[]
  }

  /** A user file beyond the limit keeps the service from starting. */
  ghost predicate Loads(d: Disk) {
    d.users.Some? ==> Fits(d.users.value)
  }

  function Load(d: Disk, now: real): Memory {
    var users := StoredUsers(d);
    Memory(users,
           if d.sessions.Some? && d.sessions.value.usersHash == TableHash(users)
           then Live(d.sessions.value.sessions, now, users) else [])
  }

  // ---------- operations and the disk states they pass through ----------

  datatype Op =
    | ChangeUsers(users: Users)                               // save_user and delete_user, once accepted
    | OpenSession(key: SessionKey, name: Name, now: real)     // login, once the password is right
    | CloseSession(key: SessionKey)                           // logout
    | ExpireSession(key: SessionKey)                          // account() meeting a dead session

  /** Sessions after a login: the dead ones go, and the oldest one too if the table is full. */
  function Opened(sessions: Sessions, key: SessionKey, name: Name, now: real): (r: Sessions)
    ensures |sessions| <= MAX_SESSIONS ==> |r| <= MAX_SESSIONS
    ensures Keys(r) <= Keys(sessions) + {key}
  {
    var running := Running(sessions, now);
    var room := if |running| >= MAX_SESSIONS then running[1..] else running;
    Put(room, key, Session(name, now + SESSION_SECONDS))
  }

  function Running(sessions: Sessions, now: real): (r: Sessions)
    ensures |r| <= |sessions| && Keys(r) <= Keys(sessions)
  {
    if sessions == [] then []
    else if sessions[0].1.deadline > now then [sessions[0]] + Running(sessions[1..], now)
    else Running(sessions[1..], now)
  }

  /** Memory once the operation has changed it. */
  function After(m: Memory, op: Op): Memory {
    match op
    case ChangeUsers(users) => Memory(users, [])
    case OpenSession(key, name, now) => m.(sessions := Opened(m.sessions, key, name, now))
    case CloseSession(key) => m.(sessions := Remove(m.sessions, key))
    case ExpireSession(key) => m.(sessions := Remove(m.sessions, key))
  }

  /** The disk before the operation and after each of its atomic file replacements. */
  function Writes(m: Memory, d: Disk, op: Op): (ds: seq<Disk>)
    ensures ds != [] && ds[0] == d
  {
    var next := After(m, op);
    var file := Some(SessionFile(TableHash(next.users), next.sessions));
    match op
    case ChangeUsers(users) => [d, Disk(Some(users), d.sessions), Disk(Some(users), file)]
    case OpenSession(_, _, _) => [d, d.(sessions := file)]
    case CloseSession(_) => [d, d.(sessions := file)]
    case ExpireSession(_) => [d]
  }

  /** Memory when the operation ends after `n` replacements; an account change that wrote nothing raises. */
  function Left(m: Memory, op: Op, n: nat): Memory {
    if op.ChangeUsers? && n == 0 then m else After(m, op)
  }

  // ---------- runs with crashes ----------

  /** `minted` records, for every session key ever issued, the user table it was issued under. */
  datatype World = World(memory: Option<Memory>, disk: Disk, minted: map<SessionKey, Users>)

  datatype Step =
    | Finish(op: Op, n: nat)    // ends, normally or by an exception, after n replacements
    | Crash(op: Op, n: nat)     // the process dies after n replacements
    | Boot(now: real)

  function Minted(w: World, m: Memory, op: Op): map<SessionKey, Users> {
    if op.OpenSession? then w.minted[op.key := m.users] else w.minted
  }

  /** Login tokens are fresh random strings. */
  predicate Fresh(w: World, op: Op) {
    op.OpenSession? ==> op.key !in w.minted
  }

  ghost predicate Next(w: World, step: Step, v: World) {
    match step
    case Finish(op, n) =>
      && w.memory.Some? && Fresh(w, op)
      && var m := w.memory.value;
         n < |Writes(m, w.disk, op)|
         && v == World(Some(Left(m, op, n)), Writes(m, w.disk, op)[n], Minted(w, m, op))
    case Crash(op, n) =>
      && w.memory.Some? && Fresh(w, op)
      && var m := w.memory.value;
         n < |Writes(m, w.disk, op)|
         && v == World(None, Writes(m, w.disk, op)[n], Minted(w, m, op))
    case Boot(now) => Loads(w.disk) && v == w.(memory := Some(Load(w.disk, now)))
  }

  ghost predicate Initial(w: World) {
    w.memory.None? && w.disk == Disk(None, None) && w.minted == map[]
  }

  ghost predicate Steps(ws: seq<World>, steps: seq<Step>) {
    |ws| == |steps| + 1 && forall i | 0 <= i < |steps| :: Next(ws[i], steps[i], ws[i + 1])
  }

  ghost predicate Run(ws: seq<World>, steps: seq<Step>) {
    Steps(ws, steps) && Initial(ws[0])
  }

  /** These sessions were all issued under `table`. */
  ghost predicate MintedUnder(sessions: Sessions, table: Users, minted: map<SessionKey, Users>) {
    forall k | k in Keys(sessions) :: k in minted && minted[k] == table
  }

  ghost predicate Sound(w: World) {
    && (w.memory.Some? ==>
          && MintedUnder(w.memory.value.sessions, w.memory.value.users, w.minted)
          && |w.memory.value.sessions| <= MAX_SESSIONS
          && w.memory.value.users == StoredUsers(w.disk))
    && (w.disk.sessions.Some? ==>
          && MintedUnder(w.disk.sessions.value.sessions, w.disk.sessions.value.usersHash.table, w.minted)
          && |w.disk.sessions.value.sessions| <= MAX_SESSIONS)
  }

  /** What an operation leaves in memory was issued under the table it leaves in memory. */
  lemma {:induction false} AfterSound(m: Memory, op: Op, minted: map<SessionKey, Users>)
    requires MintedUnder(m.sessions, m.users, minted) && |m.sessions| <= MAX_SESSIONS
    requires op.OpenSession? ==> op.key !in minted
    ensures var later := if op.OpenSession? then minted[op.key := m.users] else minted;
            MintedUnder(After(m, op).sessions, After(m, op).users, later) && |After(m, op).sessions| <= MAX_SESSIONS
  {
  }

  lemma {:induction false} MintedStays(sessions: Sessions, table: Users, minted: map<SessionKey, Users>,
                                       key: SessionKey, current: Users)
    requires MintedUnder(sessions, table, minted) && key !in minted
    ensures MintedUnder(sessions, table, minted[key := current])
  {
  }

  lemma {:induction false} NextSound(w: World, step: Step, v: World)
    requires Sound(w) && Next(w, step, v)
    ensures Sound(v)
  {
    if !step.Boot? {
      var m, op := w.memory.value, step.op;
      AfterSound(m, op, w.minted);
      if op.OpenSession? && w.disk.sessions.Some? {
        var file := w.disk.sessions.value;
        MintedStays(file.sessions, file.usersHash.table, w.minted, op.key, m.users);
      }
    }
  }

  lemma {:induction false} RunSound(ws: seq<World>, steps: seq<Step>, i: nat)
    requires Run(ws, steps) && i < |ws|
    ensures Sound(ws[i])
  {
    if i > 0 {
      RunSound(ws, steps, i - 1);
      NextSound(ws[i - 1], steps[i - 1], ws[i]);
    }
  }

  /**
   Main result: in any run, with a crash after any file replacement and a write failing anywhere, every
   session the service accepts was issued under a user table equal to the current one.
   */
  lemma {:induction false} SessionsMatchTable(ws: seq<World>, steps: seq<Step>, i: nat, key: SessionKey)
    requires Run(ws, steps) && i < |ws| && ws[i].memory.Some?
    requires key in Keys(ws[i].memory.value.sessions)
    ensures key in ws[i].minted && ws[i].minted[key] == ws[i].memory.value.users
    ensures |ws[i].memory.value.sessions| <= MAX_SESSIONS
  {
    RunSound(ws, steps, i);
  }

  ghost predicate Accepts(w: World, key: SessionKey) {
    w.memory.Some? && key in Keys(w.memory.value.sessions)
  }

  // ---------- what an account change ends ----------

  /** A key that was issued, and that neither memory nor the session file holds any more. */
  ghost predicate Gone(w: World, key: SessionKey) {
    && key in w.minted
    && !Accepts(w, key)
    && (w.disk.sessions.Some? ==> key !in Keys(w.disk.sessions.value.sessions))
  }

  lemma {:induction false} StaysGone(w: World, step: Step, v: World, key: SessionKey)
    requires Gone(w, key) && Next(w, step, v)
    ensures Gone(v, key)
  {
  }

  /** A change that went through both files leaves no key of an earlier login anywhere. */
  lemma {:induction false} ChangeForgets(w: World, users: Users, v: World, key: SessionKey)
    requires Next(w, Finish(ChangeUsers(users), 2), v) && key in w.minted
    ensures Gone(v, key)
  {
  }

  /**
   Main result: once `save_user` or `delete_user` has returned without an error, no login made before is
   accepted ever again, whatever fails or crashes later; its key is not even in the session file.
   */
  lemma {:induction false} ChangeEndsLogins(ws: seq<World>, steps: seq<Step>, i: nat, j: nat, users: Users,
                                            key: SessionKey)
    requires Steps(ws, steps) && i < j < |ws| && steps[i] == Finish(ChangeUsers(users), 2) && key in ws[i].minted
    ensures Gone(ws[j], key)
    decreases j
  {
    if j == i + 1 {
      ChangeForgets(ws[i], users, ws[j], key);
    } else {
      ChangeEndsLogins(ws, steps, i, j - 1, users, key);
      StaysGone(ws[j - 1], steps[j - 1], ws[j], key);
    }
  }

  // ---------- what a logout ends ----------

  /** The sessions, in memory and in the file, are dictionaries. */
  ghost predicate Dictionaries(w: World) {
    && (w.memory.Some? ==> Distinct(w.memory.value.sessions))
    && (w.disk.sessions.Some? ==> Distinct(w.disk.sessions.value.sessions))
  }

  lemma {:induction false} LiveDistinct(sessions: Sessions, now: real, users: Users)
    requires Distinct(sessions)
    ensures Distinct(Live(sessions, now, users))
  {
    if sessions != [] {
      LiveDistinct(sessions[1..], now, users);
    }
  }

  lemma {:induction false} RunningDistinct(sessions: Sessions, now: real)
    requires Distinct(sessions)
    ensures Distinct(Running(sessions, now))
  {
    if sessions != [] {
      RunningDistinct(sessions[1..], now);
    }
  }

  lemma {:induction false} OpenedDistinct(sessions: Sessions, key: SessionKey, name: Name, now: real)
    requires Distinct(sessions)
    ensures Distinct(Opened(sessions, key, name, now))
  {
    RunningDistinct(sessions, now);
    var running := Running(sessions, now);
    PutDistinct(if |running| >= MAX_SESSIONS then running[1..] else running, key, Session(name, now + SESSION_SECONDS));
  }

  lemma {:induction false} AfterDistinct(m: Memory, op: Op)
    requires Distinct(m.sessions)
    ensures Distinct(After(m, op).sessions)
  {
    match op {
      case ChangeUsers(users) =>
      case OpenSession(key, name, now) => OpenedDistinct(m.sessions, key, name, now);
      case CloseSession(key) => RemoveDistinct(m.sessions, key);
      case ExpireSession(key) => RemoveDistinct(m.sessions, key);
    }
  }

  lemma {:induction false} NextDictionaries(w: World, step: Step, v: World)
    requires Dictionaries(w) && Next(w, step, v)
    ensures Dictionaries(v)
  {
    match step {
      case Boot(now) =>
        if w.disk.sessions.Some? {
          LiveDistinct(w.disk.sessions.value.sessions, now, StoredUsers(w.disk));
        }
      case _ => AfterDistinct(w.memory.value, step.op);
    }
  }

  lemma {:induction false} RunDictionaries(ws: seq<World>, steps: seq<Step>, i: nat)
    requires Run(ws, steps) && i < |ws|
    ensures Dictionaries(ws[i])
  {
    if i > 0 {
      RunDictionaries(ws, steps, i - 1);
      NextDictionaries(ws[i - 1], steps[i - 1], ws[i]);
    }
  }

  lemma {:induction false} LogoutForgets(w: World, key: SessionKey, v: World)
    requires Next(w, Finish(CloseSession(key), 1), v) && key in w.minted && Dictionaries(w)
    ensures Gone(v, key)
  {
    RemoveDistinct(w.memory.value.sessions, key);
  }

  /** Main result: once a logout has returned without an error, its login is never accepted again. */
  lemma {:induction false} LogoutEndsLogin(ws: seq<World>, steps: seq<Step>, i: nat, j: nat, key: SessionKey)
    requires Run(ws, steps) && i < j < |ws| && steps[i] == Finish(CloseSession(key), 1) && key in ws[i].minted
    ensures Gone(ws[j], key)
    decreases j
  {
    if j == i + 1 {
      RunDictionaries(ws, steps, i);
      LogoutForgets(ws[i], key, ws[j]);
    } else {
      LogoutEndsLogin(ws, steps, i, j - 1, key);
      StaysGone(ws[j - 1], steps[j - 1], ws[j], key);
    }
  }

  // ---------- which sessions a start takes from the file ----------

  ghost predicate HoldsLive(sessions: Sessions, key: SessionKey, time: real, users: Users) {
    exists i :: 0 <= i < |sessions| && sessions[i].0 == key
                && sessions[i].1.deadline > time && sessions[i].1.name in users
  }

  lemma {:induction false} LiveExactly(sessions: Sessions, key: SessionKey, time: real, users: Users)
    ensures key in Keys(Live(sessions, time, users)) <==> HoldsLive(sessions, key, time, users)
  {
    if sessions != [] {
      var rest := sessions[1..];
      LiveExactly(rest, key, time, users);
      assert forall i | 0 <= i < |rest| :: rest[i] == sessions[i + 1];
      if HoldsLive(sessions, key, time, users) {
        var i :| 0 <= i < |sessions| && sessions[i].0 == key
                 && sessions[i].1.deadline > time && sessions[i].1.name in users;
        assert i == 0 || rest[i - 1] == sessions[i];
      }
    }
  }

  lemma {:induction false} LiveHeld(sessions: Sessions, key: SessionKey, time: real, users: Users)
    requires HoldsLive(sessions, key, time, users)
    ensures key in Keys(sessions)
  {
    KeysAt(sessions, key);
  }

  // ---------- the service object ----------

  datatype Outcome = Done | Refused(refusal: Refusal) | StorageFailed

  datatype LoginOutcome = LoggedIn(key: SessionKey) | Invalid | Throttled | LoginStorageFailed

  /** Memory and files as an operation leaves them after `written` file replacements. */
  ghost predicate Stored(m: Memory, d: Disk, op: Op, m': Memory, d': Disk, written: nat) {
    && written < |Writes(m, d, op)|
    && m' == Left(m, op, written)
    && d' == Writes(m, d, op)[written]
  }

  class HostAuth {
    var users: Users
    var sessions: Sessions
    var failures: Failures
    var usersFile: Option<Users>
    var sessionsFile: Option<SessionFile>

    ghost function InMemory(): Memory
      reads this
    {
      Memory(users, sessions)
    }

    ghost function OnDisk(): Disk
      reads this
    {
      Disk(usersFile, sessionsFile)
    }

    constructor (disk: Disk, now: real)
      requires Loads(disk)
      ensures InMemory() == Load(disk, now) && OnDisk() == disk && failures == map[]
    {
      var m := Load(disk, now);
      users, sessions, failures := m.users, m.sessions, map[];
      usersFile, sessionsFile := disk.users, disk.sessions;
    }

    method ReplaceUsersFile(table: Users) returns (ok: bool)
      modifies `usersFile
      ensures usersFile == if ok then Some(table) else old(usersFile)
    {
      ok := *;
      if ok {
        usersFile := Some(table);
      }
    }

    method PersistSessions() returns (ok: bool)
      modifies `sessionsFile
      ensures sessionsFile == if ok then Some(SessionFile(TableHash(users), sessions)) else old(sessionsFile)
    {
      ok := *;
      if ok {
        sessionsFile := Some(SessionFile(TableHash(users), sessions));
      }
    }

    /** Replace the table, then end every session; `written` files were replaced. */
    method Persist(table: Users) returns (ok: bool, ghost written: nat)
      modifies `users, `sessions, `usersFile, `sessionsFile
      ensures Stored(old(InMemory()), old(OnDisk()), ChangeUsers(table), InMemory(), OnDisk(), written)
      ensures ok <==> written == 2
    {
      written := 0;
      ok := ReplaceUsersFile(table);
      if !ok {
        return;
      }
      users, sessions := table, [];
      written := 1;
      ok := PersistSessions();
      if ok {
        written := 2;
      }
    }

    method SaveUser(name: Name, admin: bool, workspaces: seq<string>, password: string, salt: string)
      returns (outcome: Outcome, ghost written: nat)
      modifies `users, `sessions, `usersFile, `sessionsFile
      ensures var asked := Saved(old(users), name, admin, workspaces, password, salt);
              match asked
              case Err(refusal) =>
                outcome == Refused(refusal) && InMemory() == old(InMemory()) && OnDisk() == old(OnDisk())
              case Ok(table) =>
                && Stored(old(InMemory()), old(OnDisk()), ChangeUsers(table), InMemory(), OnDisk(), written)
                && outcome == if written == 2 then Done else StorageFailed
    {
      written := 0;
      var asked := Saved(users, name, admin, workspaces, password, salt);
      if asked.Err? {
        outcome := Refused(asked.error);
      } else {
        var ok;
        ok, written := Persist(asked.value);
        outcome := if ok then Done else StorageFailed;
      }
    }

    method DeleteUser(name: Name) returns (outcome: Outcome, ghost written: nat)
      modifies `users, `sessions, `usersFile, `sessionsFile
      ensures match Deleted(old(users), name)
              case Err(refusal) =>
                outcome == Refused(refusal) && InMemory() == old(InMemory()) && OnDisk() == old(OnDisk())
              case Ok(table) =>
                && Stored(old(InMemory()), old(OnDisk()), ChangeUsers(table), InMemory(), OnDisk(), written)
                && outcome == if written == 2 then Done else StorageFailed
    {
      written := 0;
      var asked := Deleted(users, name);
      if asked.Err? {
        outcome := Refused(asked.error);
      } else {
        var ok;
        ok, written := Persist(asked.value);
        outcome := if ok then Done else StorageFailed;
      }
    }

    predicate Correct(name: Name, password: string)
      reads this
    {
      Verifies(users, name, password)
    }

    /** `monotonic` times the throttle, `wall` the session; `key` is the hash of a fresh token. */
    method Login(name: Name, password: string, address: Address, monotonic: real, wall: real, key: SessionKey)
      returns (outcome: LoginOutcome, ghost written: nat)
      modifies `sessions, `failures, `sessionsFile
      ensures |password| > 1024 ==>
                outcome == Invalid && failures == old(failures) && InMemory() == old(InMemory())
      ensures |password| <= 1024 ==>
                var (table, verdict) := Attempted(old(failures), address, monotonic, old(Correct(name, password)));
                && failures == table
                && (verdict.TooMany? <==> outcome == Throttled)
                && (verdict.Wrong? <==> outcome == Invalid)
                && (verdict.Right? ==> outcome == if written == 1 then LoggedIn(key) else LoginStorageFailed)
      ensures if outcome.Throttled? || outcome.Invalid? then
                InMemory() == old(InMemory()) && OnDisk() == old(OnDisk())
              else
                Stored(old(InMemory()), old(OnDisk()), OpenSession(key, name, wall), InMemory(), OnDisk(), written)
    {
      written := 0;
      if |password| > 1024 {
        return Invalid, written;
      }
      failures := Current(failures, monotonic);
      if !Admitted(failures, address) {
        return Throttled, written;
      }
      if !Correct(name, password) {
        failures := Counted(failures, address, monotonic);
        return Invalid, written;
      }
      failures := failures - {address};
      outcome, written := Open(key, name, wall);
    }

    method Open(key: SessionKey, name: Name, wall: real) returns (outcome: LoginOutcome, ghost written: nat)
      modifies `sessions, `sessionsFile
      ensures Stored(old(InMemory()), old(OnDisk()), OpenSession(key, name, wall), InMemory(), OnDisk(), written)
      ensures outcome == if written == 1 then LoggedIn(key) else LoginStorageFailed
    {
      sessions := Opened(sessions, key, name, wall);
      var ok := PersistSessions();
      outcome, written := if ok then LoggedIn(key) else LoginStorageFailed, if ok then 1 else 0;
    }

    /** The account behind a session; a dead session is dropped from memory. */
    method Account(key: SessionKey, now: real) returns (name: Option<Name>)
      modifies `sessions
      ensures var s := Get(old(sessions), key);
              if s.Some? && s.value.deadline > now && s.value.name in users
              then name == Some(s.value.name) && sessions == old(sessions)
              else name == None && InMemory() == Left(old(InMemory()), ExpireSession(key), 0)
    {
      var s := Get(sessions, key);
      if s.None? || s.value.deadline <= now || s.value.name !in users {
        sessions := Remove(sessions, key);
        name := None;
      } else {
        name := Some(s.value.name);
      }
    }

    method Logout(key: SessionKey) returns (ok: bool, ghost written: nat)
      modifies `sessions, `sessionsFile
      ensures Stored(old(InMemory()), old(OnDisk()), CloseSession(key), InMemory(), OnDisk(), written)
      ensures ok <==> written == 1
    {
      sessions := Remove(sessions, key);
      ok := PersistSessions();
      written := if ok then 1 else 0;
    }
  }
}
