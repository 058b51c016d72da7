/**
 How many bytes the user table takes in its file, as ASCII JSON. The service refuses to start from a file
 beyond 1 MiB, but writes one of any size.
 */
module AccountSizes {
  import opened Wrappers
  import opened Sequences
  import opened Accounts

  const MAX_FILE_BYTES: nat := 0x10_0000

  // ---------- sizes ----------

  function CharBytes(c: char): nat {
    if c == '"' || c == '\\' || c == '\n' || c == '\r' || c == '\t' || c == '\U{0008}' || c == '\U{000C}' then 2
    else if ' ' <= c <= '~' then 1
    else if c as int > 0xFFFF then 12
    else 6
  }

  /** A string with its quotes. */
  function TextBytes(s: string): nat {
    if s == [] then 2 else CharBytes(s[0]) + TextBytes(s[1..])
  }

  /** The strings, each with a separator. */
  ghost function ItemBytes(items: set<string>): nat {
    if items == {} then 0
    else
      var w :| w in items;
      TextBytes(w) + 2 + ItemBytes(items - {w})
  }

  /** `[...]`: the brackets take the place of the last separator. */
  ghost function ListBytes(items: set<string>): nat {
    if items == {} then 2 else ItemBytes(items)
  }

  /** `{"role": ..., "workspaces": [...], "salt": ..., "digest": ...}`, the last two of 64 digits. */
  ghost function UserBytes(user: User): nat {
    9 + (if user.admin then 7 else 15) + 16 + ListBytes(user.workspaces) + 10 + 66 + 12 + 66 + 1
  }

  ghost function EntryBytes(name: Name, user: User): nat {
    TextBytes(name) + 2 + UserBytes(user)
  }

  ghost function EntriesBytes(users: Users): nat
    decreases |users|
  {
    if users == map[] then 0
    else
      var n :| n in users;
      EntryBytes(n, users[n]) + 2 + EntriesBytes(users - {n})
  }

  ghost function TableBytes(users: Users): nat {
    if users == map[] then 2 else EntriesBytes(users)
  }

  ghost predicate Fits(users: Users) {
    TableBytes(users) <= MAX_FILE_BYTES
  }

  // ---------- one entry more or less ----------

  lemma {:induction false} ItemOut(items: set<string>, w: string)
    requires w in items
    ensures ItemBytes(items) == TextBytes(w) + 2 + ItemBytes(items - {w})
    decreases |items|
  {
    var v :| v in items && ItemBytes(items) == TextBytes(v) + 2 + ItemBytes(items - {v});
    if v != w {
      ItemOut(items - {v}, w);
      ItemOut(items - {w}, v);
      assert items - {v} - {w} == items - {w} - {v};
    }
  }

  lemma {:induction false} EntryOut(users: Users, name: Name)
    requires name in users
    ensures EntriesBytes(users) == EntryBytes(name, users[name]) + 2 + EntriesBytes(users - {name})
    decreases |users|
  {
    var m :| m in users && EntriesBytes(users) == EntryBytes(m, users[m]) + 2 + EntriesBytes(users - {m});
    if m != name {
      EntryOut(users - {m}, name);
      EntryOut(users - {name}, m);
      assert users - {m} - {name} == users - {name} - {m};
    }
  }

  lemma {:induction false} EntryAdded(users: Users, name: Name, user: User)
    requires name !in users
    ensures EntriesBytes(users[name := user]) == EntriesBytes(users) + EntryBytes(name, user) + 2
  {
    EntryOut(users[name := user], name);
    assert users[name := user] - {name} == users;
  }

  lemma {:induction false} EmptyFits()
    ensures Fits(map[])
  {
  }

  /** Deleting an account never makes the table too large. */
  lemma {:induction false} DeletedFits(users: Users, name: Name)
    requires Fits(users) && Deleted(users, name).Ok?
    ensures Fits(Deleted(users, name).value)
  {
    if name in users {
      EntryOut(users, name);
    } else {
      assert users - {name} == users;
    }
  }

  /** Main result: an accepted change keeps the table loadable exactly when the other accounts leave room. */
  lemma {:induction false} SavedFitsExactly(users: Users, name: Name, admin: bool, workspaces: seq<string>,
                                            password: string, salt: string)
    requires Saved(users, name, admin, workspaces, password, salt).Ok?
    ensures var table := Saved(users, name, admin, workspaces, password, salt).value;
            Fits(table) <==> EntriesBytes(users - {name}) + EntryBytes(name, table[name]) + 2 <= MAX_FILE_BYTES
  {
    var table := Saved(users, name, admin, workspaces, password, salt).value;
    EntryOut(table, name);
    assert table - {name} == users - {name};
  }

  // ---------- a small table fits ----------

  lemma {:induction false} OneUserFits(name: Name, user: User)
    requires |name| <= 64 && |user.workspaces| <= 1 && forall w | w in user.workspaces :: |w| <= 64
    ensures Fits(map[name := user])
  {
    var users := map[name := user];
    EntryOut(users, name);
    assert users - {name} == map[];
    ShortText(name);
    if user.workspaces != {} {
      var w :| w in user.workspaces;
      ItemOut(user.workspaces, w);
      ShortText(w);
      assert user.workspaces - {w} == {} by {
        assert |user.workspaces - {w}| == 0;
      }
    }
  }

  lemma {:induction false} ShortText(s: string)
    ensures TextBytes(s) <= 2 + 12 * |s|
  {
    if s != [] {
      ShortText(s[1..]);
    }
  }

  // ---------- accepted changes that lead to a table the service cannot load ----------

  const MAX_WORKSPACES: nat := 128
  const ID_CHARS: nat := 64

  predicate Alphanumeric(c: char) {
    'A' <= c <= 'Z' || 'a' <= c <= 'z' || '0' <= c <= '9'
  }

  /** What a workspace may be called. */
  predicate WorkspaceId(id: string) {
    && 1 <= |id| <= ID_CHARS && Alphanumeric(id[0])
    && forall i | 0 <= i < |id| :: Alphanumeric(id[i]) || id[i] == '_' || id[i] == '-'
  }

  /** 128 names of full length: one of two letters, and then `k % 64` of one kind before those of another. */
  function Id(k: nat): (id: string)
    requires k < MAX_WORKSPACES
    ensures |id| == ID_CHARS
  {
    [if k < 64 then 'x' else 'y'] + seq(63, i => if i < k % 64 then 'a' else 'b')
  }

  lemma {:induction false} IdNew(j: nat, k: nat)
    requires j < k < MAX_WORKSPACES
    ensures Id(j) != Id(k)
  {
    if j < 64 <= k {
      assert Id(j)[0] != Id(k)[0];
    } else {
      assert Id(j)[1 + j % 64] != Id(k)[1 + j % 64];
    }
  }

  lemma {:induction false} IdValid(k: nat)
    requires k < MAX_WORKSPACES
    ensures WorkspaceId(Id(k))
  {
  }

  /** Printable characters other than quote and backslash take one byte each. */
  lemma {:induction false} PlainText(s: string)
    requires forall i | 0 <= i < |s| :: Alphanumeric(s[i])
    ensures TextBytes(s) == 2 + |s|
  {
    if s != [] {
      PlainText(s[1..]);
    }
  }

  function Ids(n: nat): (ids: seq<string>)
    requires n <= MAX_WORKSPACES
    ensures |ids| == n && forall i | 0 <= i < n :: ids[i] == Id(i)
  {
    seq(n, i requires 0 <= i < n => Id(i))
  }

  lemma {:induction false} IdsGrow(n: nat)
    requires 0 < n <= MAX_WORKSPACES
    ensures Id(n - 1) !in AsSet(Ids(n - 1))
    ensures AsSet(Ids(n)) == AsSet(Ids(n - 1)) + {Id(n - 1)}
  {
    forall i | 0 <= i < n - 1 ensures Id(i) != Id(n - 1) {
      IdNew(i, n - 1);
    }
    assert Ids(n) == Ids(n - 1) + [Id(n - 1)];
  }

  lemma {:induction false} ItemAdded(items: set<string>, w: string)
    requires w !in items
    ensures ItemBytes(items + {w}) == ItemBytes(items) + TextBytes(w) + 2
  {
    ItemOut(items + {w}, w);
    assert items + {w} - {w} == items;
  }

  lemma {:induction false} OneMoreId(n: nat)
    requires 0 < n <= MAX_WORKSPACES
    ensures ItemBytes(AsSet(Ids(n))) == ItemBytes(AsSet(Ids(n - 1))) + 68
    ensures |AsSet(Ids(n))| == |AsSet(Ids(n - 1))| + 1
  {
    IdsGrow(n);
    ItemAdded(AsSet(Ids(n - 1)), Id(n - 1));
    PlainText(Id(n - 1));
  }

  lemma {:induction false} IdsBytes(n: nat)
    requires n <= MAX_WORKSPACES
    ensures ItemBytes(AsSet(Ids(n))) == 68 * n && |AsSet(Ids(n))| == n
  {
    if n == 0 {
      assert AsSet(Ids(0)) == {};
    } else {
      IdsBytes(n - 1);
      OneMoreId(n);
    }
  }

  function Member(): User {
    User(true, AsSet(Ids(MAX_WORKSPACES)), "salt", Digest("secret", "salt"))
  }

  lemma {:induction false} MemberBytes()
    ensures UserBytes(Member()) == 8891
  {
    IdsBytes(MAX_WORKSPACES);
  }

  /** 128 names of accounts. */
  function Account(k: nat): (name: Name)
    requires k < 128
    ensures |name| == 1 + k % 64
  {
    [if k < 64 then 'a' else 'b'] + seq(k % 64, i => 'c')
  }

  lemma {:induction false} AccountNew(j: nat, k: nat)
    requires j < k < 128
    ensures Account(j) != Account(k)
  {
    if j < 64 <= k {
      assert Account(j)[0] != Account(k)[0];
    }
  }

  function Crowd(n: nat, member: User): Users
    requires n <= 128
  {
    if n == 0 then map[] else Crowd(n - 1, member)[Account(n - 1) := member]
  }

  lemma {:induction false} CrowdNames(n: nat, member: User, k: nat)
    requires n <= k < 128
    ensures Account(k) !in Crowd(n, member) && |Crowd(n, member)| <= n
  {
    if n > 0 {
      CrowdNames(n - 1, member, k);
      AccountNew(n - 1, k);
    }
  }

  lemma {:induction false} CrowdGrows(n: nat, member: User)
    requires 0 < n <= 128
    ensures EntriesBytes(Crowd(n, member)) >= EntriesBytes(Crowd(n - 1, member)) + UserBytes(member) + 4
  {
    CrowdNames(n - 1, member, n - 1);
    EntryAdded(Crowd(n - 1, member), Account(n - 1), member);
  }

  lemma {:induction false} CrowdBytes(n: nat, member: User)
    requires n <= 128 && UserBytes(member) == 8891
    ensures EntriesBytes(Crowd(n, member)) >= 8895 * n
  {
    if n > 0 {
      CrowdBytes(n - 1, member);
      CrowdGrows(n, member);
    }
  }

  lemma {:induction false} CrowdAccepted(n: nat)
    requires n < 128
    ensures Saved(Crowd(n, Member()), Account(n), true, Ids(MAX_WORKSPACES), "secret", "salt")
         == Ok(Crowd(n + 1, Member()))
  {
    CrowdNames(n, Member(), n);
    assert ValidName(Account(n));
    assert Listable(Ids(MAX_WORKSPACES));
  }

  /** One accepted `save_user` that assigns nothing but configured workspaces. */
  ghost predicate Grows(users: Users, table: Users, configured: set<string>) {
    exists name: Name, workspaces: seq<string>, password: string, salt: string ::
      Saved(users, name, true, workspaces, password, salt) == Ok(table)
      && forall i | 0 <= i < |workspaces| :: workspaces[i] in configured
  }

  /**
   With 128 configured workspaces, 118 accounts, each added by an accepted `save_user` to the table before,
   make a file that the service cannot start from.
   */
  lemma {:induction false} AcceptedButTooLarge() returns (tables: seq<Users>, configured: set<string>)
    ensures |configured| == MAX_WORKSPACES && forall id | id in configured :: WorkspaceId(id)
    ensures |tables| == 119 && tables[0] == map[] && !Fits(tables[118])
    ensures forall k | 0 <= k < 118 :: Grows(tables[k], tables[k + 1], configured)
  {
    var ids := Ids(MAX_WORKSPACES);
    configured := AsSet(ids);
    IdsBytes(MAX_WORKSPACES);
    forall id | id in configured ensures WorkspaceId(id) {
      var i :| 0 <= i < |ids| && ids[i] == id;
      IdValid(i);
    }
    tables := seq(119, k requires 0 <= k < 119 => Crowd(k, Member()));
    forall k | 0 <= k < 118 ensures Grows(tables[k], tables[k + 1], configured) {
      CrowdAccepted(k);
      assert Saved(tables[k], Account(k), true, ids, "secret", "salt") == Ok(tables[k + 1]);
    }
    MemberBytes();
    CrowdBytes(118, Member());
  }
}
