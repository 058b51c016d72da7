/**
 Which user tables can be reached from one another by accepted changes. A password can only be set together
 with a fresh salt, an administrator never lets the last one go, and everything else can be undone.
 */
module AccountChanges {
  import opened Wrappers
  import opened Counting
  import opened Accounts

  function Salts(users: Users): set<string> {
    set n | n in users :: users[n].salt
  }

  /** One accepted change; a salt it draws is none of `used`. */
  ghost predicate Accepted(users: Users, table: Users, used: set<string>) {
    || (exists name :: Deleted(users, name) == Ok(table))
    || (exists name: Name, admin: bool, workspaces: seq<string>, password: string, salt: string ::
          Saved(users, name, admin, workspaces, password, salt) == Ok(table)
          && ((name in users && password == "") || salt !in used))
  }

  // ---------- tables that accepted changes make ----------

  ghost predicate Assignable(workspaces: set<string>) {
    exists items: seq<string> :: AsSet(items) == workspaces && Listable(items)
  }

  ghost predicate ValidTable(users: Users) {
    forall n | n in users :: ValidName(n) && Assignable(users[n].workspaces)
  }

  lemma {:induction false} SavedValid(users: Users, name: Name, admin: bool, workspaces: seq<string>,
                                      password: string, salt: string)
    requires ValidTable(users) && Saved(users, name, admin, workspaces, password, salt).Ok?
    ensures ValidTable(Saved(users, name, admin, workspaces, password, salt).value)
  {
    assert Listable(workspaces);
  }

  lemma {:induction false} AcceptedValid(users: Users, table: Users, used: set<string>)
    requires ValidTable(users) && Accepted(users, table, used)
    ensures ValidTable(table)
  {
    if name :| Deleted(users, name) == Ok(table) {
    } else {
      var name: Name, admin: bool, workspaces: seq<string>, password: string, salt: string :|
        Saved(users, name, admin, workspaces, password, salt) == Ok(table);
      SavedValid(users, name, admin, workspaces, password, salt);
    }
  }

  // ---------- what can be undone ----------

  /** The account has the salt and digest it is to have. */
  predicate SamePassword(users: Users, n: Name, user: User) {
    n in users && users[n].salt == user.salt && users[n].digest == user.digest
  }

  /**
   Every account of `goal` is still there under the same salt and digest, and there is no administrator
   unless `goal` has one.
   */
  ghost predicate Restorable(users: Users, goal: Users) {
    && (forall n | n in goal :: SamePassword(users, n, goal[n]))
    && (Administrators(goal) != {} || Administrators(users) == {})
  }

  /** A lost password stays lost. */
  lemma {:induction false} PasswordStaysLost(users: Users, table: Users, goal: Users, used: set<string>, n: Name)
    requires n in goal && !SamePassword(users, n, goal[n]) && Accepted(users, table, used) && Salts(goal) <= used
    ensures !SamePassword(table, n, goal[n])
  {
    assert goal[n].salt in Salts(goal);
  }

  lemma {:induction false} AdministratorStays(users: Users, table: Users, used: set<string>)
    requires Administrators(users) != {} && Accepted(users, table, used)
    ensures Administrators(table) != {}
  {
    if name :| Deleted(users, name) == Ok(table) {
      AdministratorRemains(users, name, false, [], "", "");
    } else {
      var name: Name, admin: bool, workspaces: seq<string>, password: string, salt: string :|
        Saved(users, name, admin, workspaces, password, salt) == Ok(table);
      AdministratorRemains(users, name, admin, workspaces, password, salt);
    }
  }

  /** No accepted change makes an unreachable table reachable. */
  lemma {:induction false} StaysUnreachable(users: Users, table: Users, goal: Users, used: set<string>)
    requires !Restorable(users, goal) && Accepted(users, table, used) && Salts(goal) <= used
    ensures !Restorable(table, goal)
  {
    if n :| n in goal && !SamePassword(users, n, goal[n]) {
      PasswordStaysLost(users, table, goal, used, n);
    } else {
      AdministratorStays(users, table, used);
    }
  }

  lemma {:induction false} RestorableItself(users: Users)
    ensures Restorable(users, users)
  {
  }

  // ---------- how it is undone ----------

  /** The accounts that are not as in `goal`. */
  function Differing(users: Users, goal: Users): set<Name> {
    set n | n in users && (n !in goal || users[n] != goal[n])
  }

  lemma {:induction false} NothingDiffers(users: Users, goal: Users)
    requires Restorable(users, goal) && Differing(users, goal) == {}
    ensures users == goal
  {
    assert forall n | n in users :: n !in Differing(users, goal);
  }

  lemma {:induction false} TwoAdministrators(users: Users, a: Name, b: Name)
    requires a in Administrators(users) && b in Administrators(users) && a != b
    ensures |Administrators(users)| != 1
  {
    SubsetSmaller({a, b}, Administrators(users));
  }

  /** The account gets the role and workspaces of `goal` and keeps its password. */
  lemma {:induction false} SetBack(users: Users, goal: Users, n: Name, used: set<string>)
    requires ValidTable(goal) && n in goal && SamePassword(users, n, goal[n])
    requires users[n].admin && !goal[n].admin ==> |Administrators(users)| != 1
    ensures Accepted(users, users[n := goal[n]], used)
  {
    var items: seq<string> :| AsSet(items) == goal[n].workspaces && Listable(items);
    assert Saved(users, n, goal[n].admin, items, "", "") == Ok(users[n := goal[n]]);
  }

  lemma {:induction false} FewerDiffer(users: Users, table: Users, goal: Users, n: Name)
    requires n in Differing(users, goal)
    requires table == (if n in goal then users[n := goal[n]] else users - {n})
    ensures |Differing(table, goal)| < |Differing(users, goal)|
  {
    assert Differing(table, goal) <= Differing(users, goal) - {n};
    SubsetSmaller(Differing(table, goal), Differing(users, goal) - {n});
  }

  /** Setting back an administrator of `goal` is always accepted. */
  lemma {:induction false} PromotedBack(users: Users, goal: Users, n: Name, used: set<string>)
    requires ValidTable(goal) && Restorable(users, goal) && n in goal && goal[n].admin
    ensures Accepted(users, users[n := goal[n]], used) && Restorable(users[n := goal[n]], goal)
  {
    SetBack(users, goal, n, used);
    assert n in Administrators(goal);
  }

  /** An administrator to be given up is not the last one once those of `goal` are in place. */
  lemma {:induction false} OtherRemains(users: Users, goal: Users, n: Name)
    requires Restorable(users, goal) && n in users && users[n].admin && (n in goal ==> !goal[n].admin)
    requires forall a | a in goal && goal[a].admin :: users[a] == goal[a]
    ensures |Administrators(users)| != 1
  {
    assert n in Administrators(users);
    var a :| a in Administrators(goal);
    TwoAdministrators(users, n, a);
  }

  lemma {:induction false} OthersBack(users: Users, goal: Users, n: Name, used: set<string>)
    requires ValidTable(goal) && Restorable(users, goal) && n in users && (n in goal ==> !goal[n].admin)
    requires forall a | a in goal && goal[a].admin :: users[a] == goal[a]
    ensures var table := if n in goal then users[n := goal[n]] else users - {n};
            Accepted(users, table, used) && Restorable(table, goal)
  {
    if users[n].admin {
      OtherRemains(users, goal, n);
    }
    var table := if n in goal then users[n := goal[n]] else users - {n};
    if n in goal {
      SetBack(users, goal, n, used);
    } else {
      assert Deleted(users, n) == Ok(table);
    }
    assert Administrators(table) <= Administrators(users);
  }

  /** From a restorable table some accepted change leads closer to the goal; administrators go first. */
  lemma {:induction false} Approach(users: Users, goal: Users, used: set<string>) returns (table: Users)
    requires ValidTable(goal) && Restorable(users, goal) && users != goal
    ensures Accepted(users, table, used) && Restorable(table, goal)
    ensures |Differing(table, goal)| < |Differing(users, goal)|
  {
    if Differing(users, goal) == {} {
      NothingDiffers(users, goal);
    }
    var n: Name;
    if a :| a in Differing(users, goal) && a in goal && goal[a].admin {
      n := a;
      PromotedBack(users, goal, n, used);
    } else {
      n :| n in Differing(users, goal);
      assert forall a | a in goal && goal[a].admin :: a !in Differing(users, goal);
      OthersBack(users, goal, n, used);
    }
    table := if n in goal then users[n := goal[n]] else users - {n};
    FewerDiffer(users, table, goal, n);
  }

  // ---------- one change that was cut off ----------

  /**
   A saved account can be set back exactly when the change gave no existing account a new password and made
   nobody the first administrator.
   */
  lemma {:induction false} SavedRestorable(users: Users, name: Name, admin: bool, workspaces: seq<string>,
                                           password: string, salt: string)
    requires Saved(users, name, admin, workspaces, password, salt).Ok? && salt !in Salts(users)
    ensures Restorable(Saved(users, name, admin, workspaces, password, salt).value, users)
       <==> (name in users ==> password == "") && (Administrators(users) == {} ==> !admin)
  {
    var table := Saved(users, name, admin, workspaces, password, salt).value;
    if name in users {
      assert users[name].salt in Salts(users);
    }
    if admin {
      assert name in Administrators(table);
    }
    assert forall n | n in Administrators(table) && n != name :: n in Administrators(users);
  }

  /** A deleted account cannot be brought back. */
  lemma {:induction false} DeletedRestorable(users: Users, name: Name)
    requires Deleted(users, name).Ok?
    ensures Restorable(Deleted(users, name).value, users) <==> name !in users
  {
    if name !in users {
      assert users - {name} == users;
    } else {
      assert !SamePassword(users - {name}, name, users[name]);
    }
  }
}
