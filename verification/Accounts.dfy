/** The user table of a host and its changes. Password digests are taken as injective. */
module Accounts {
  import opened Wrappers
  import opened Counting

  const MAX_USERS: nat := 256

  type Name = string

  datatype Digest = Digest(password: string, salt: string)
  datatype User = User(admin: bool, workspaces: set<string>, salt: string, digest: Digest)

  type Users = map<Name, User>

  datatype Refusal = BadName | BadRole | AccountLimit | BadPassword | LastAdministrator

  predicate NameCharacter(c: char) {
    'A' <= c <= 'Z' || 'a' <= c <= 'z' || '0' <= c <= '9' || c in "_.@-"
  }

  predicate ValidName(name: Name) {
    1 <= |name| <= 64 && forall i | 0 <= i < |name| :: NameCharacter(name[i])
  }

  function Administrators(users: Users): set<Name> {
    set n | n in users && users[n].admin
  }

  function AsSet(items: seq<string>): set<string> {
    set w | w in items
  }

  /** A list of assignments that is short enough. */
  predicate Listable(items: seq<string>) {
    |items| <= 256 && forall i | 0 <= i < |items| :: |items[i]| <= 64
  }

  /** The table a `save_user` call asks for, or why it is refused. `salt` is fresh randomness. */
  function Saved(users: Users, name: Name, admin: bool, workspaces: seq<string>, password: string, salt: string)
      : Result<Users, Refusal>
  {
    if !ValidName(name) then Err(BadName)
    else if !Listable(workspaces) then Err(BadRole)
    else if name !in users && |users| >= MAX_USERS then Err(AccountLimit)
    else if (name !in users || password != "") && !(6 <= |password| <= 1024) then Err(BadPassword)
    else if name in users && users[name].admin && !admin && |Administrators(users)| == 1 then Err(LastAdministrator)
    else
      var keep := name in users && password == "";
      Ok(users[name := User(admin, AsSet(workspaces),
                            if keep then users[name].salt else salt,
                            if keep then users[name].digest else Digest(password, salt))])
  }

  function Deleted(users: Users, name: Name): Result<Users, Refusal> {
    if name in users && users[name].admin && |Administrators(users)| == 1 then Err(LastAdministrator)
    else Ok(users - {name})
  }

  /** Whether a password is the one that the table holds for a name. */
  predicate Verifies(users: Users, name: Name, password: string) {
    name in users && users[name].digest == Digest(password, users[name].salt)
  }

  /**
   After an accepted change the name has the role and workspaces asked for and is let in by exactly the new
   password, or by exactly what let it in before when none was given; no other account changes.
   */
  lemma {:induction false} SavedAsAsked(users: Users, name: Name, admin: bool, workspaces: seq<string>, password: string,
                                        salt: string, attempt: string, other: Name)
    requires Saved(users, name, admin, workspaces, password, salt).Ok?
    ensures var table := Saved(users, name, admin, workspaces, password, salt).value;
            && name in table && table[name].admin == admin
            && (forall w :: w in table[name].workspaces <==> w in workspaces)
            && (Verifies(table, name, attempt) <==>
                  if password == "" then Verifies(users, name, attempt) else attempt == password)
            && (other != name ==> (other in table <==> other in users)
                                  && (other in users ==> table[other] == users[other]))
  {
  }

  /** Why a change is refused: the first of these reasons that applies, and none for an accepted one. */
  lemma {:induction false} SavedRefused(users: Users, name: Name, admin: bool, workspaces: seq<string>, password: string,
                                        salt: string, why: Refusal)
    ensures var saved := Saved(users, name, admin, workspaces, password, salt);
            var entry, badName, badList := name in users, !ValidName(name), !Listable(workspaces);
            var full, short := !entry && |users| >= 256, |password| < 6 || |password| > 1024;
            saved == Err(why) <==>
              match why
              case BadName => badName
              case BadRole => !badName && badList
              case AccountLimit => !badName && !badList && full
              case BadPassword => !badName && !badList && !full && short && !(entry && password == "")
              case LastAdministrator =>
                && !badName && !badList && !admin && Administrators(users) == {name}
                && (password == "" || !short)
  {
    LastOne(users, name);
  }

  lemma {:induction false} LastOne(users: Users, name: Name)
    ensures name in users && users[name].admin && |Administrators(users)| == 1 <==> Administrators(users) == {name}
  {
    if name in Administrators(users) && |Administrators(users)| == 1 {
      assert |Administrators(users) - {name}| == 0;
      assert Administrators(users) == {name} + (Administrators(users) - {name});
    }
  }

  /** A deletion is refused exactly for the only administrator; otherwise that account goes and no other. */
  lemma {:induction false} DeletedAsAsked(users: Users, name: Name, other: Name)
    ensures Deleted(users, name) == Err(LastAdministrator) <==> Administrators(users) == {name}
    ensures Deleted(users, name).Err? ==> Deleted(users, name) == Err(LastAdministrator)
    ensures Deleted(users, name).Ok? ==>
              var table := Deleted(users, name).value;
              && name !in table
              && (other != name ==> (other in table <==> other in users)
                                    && (other in users ==> table[other] == users[other]))
  {
    LastOne(users, name);
  }

  /** No account change leaves a table that had an administrator without one, or grows it past its limit. */
  lemma {:induction false} AdministratorRemains(users: Users, name: Name, admin: bool, workspaces: seq<string>,
                                                password: string, salt: string)
    requires Administrators(users) != {}
    ensures Deleted(users, name).Ok? ==> Administrators(Deleted(users, name).value) != {}
    ensures var s := Saved(users, name, admin, workspaces, password, salt);
            s.Ok? ==> Administrators(s.value) != {} && (|users| <= MAX_USERS ==> |s.value| <= MAX_USERS)
  {
    var n :| n in Administrators(users);
    if Administrators(users) == {name} {
      assert |Administrators(users)| == 1;
    } else {
      var others := Administrators(users) - {name};
      assert others == {} ==> Administrators(users) <= {name};
      var other :| other in others;
      if Deleted(users, name).Ok? {
        assert other in Administrators(Deleted(users, name).value);
      }
      if Saved(users, name, admin, workspaces, password, salt).Ok? {
        assert other in Administrators(Saved(users, name, admin, workspaces, password, salt).value);
      }
    }
    var s := Saved(users, name, admin, workspaces, password, salt);
    if s.Ok? {
      MapSize(users);
      MapSize(s.value);
      assert s.value.Keys == users.Keys + {name};
      if Administrators(users) == {name} {
        assert name in Administrators(s.value);
      }
    }
  }
}
