/**
 The browser sessions of a host: at most 16 tokens, each for one user and thread, and the terminal
 producers started for threads that had none. What the outside world answers is a parameter: the
 connection probes, how starting a producer goes, and the fresh token and producer handle.
 */
module SessionGuis {
  import opened Wrappers
  import opened Counting

  const MAX_ENTRIES: nat := 16

  type Token = string
  type Handle = nat

  datatype Address = Address(netloc: string, rest: string)

  datatype Entry = Entry(username: string, workspace: string, thread: string, address: Address)

  datatype Account = Account(username: string, admin: bool, workspaces: set<string>)

  datatype Refusal = Unavailable | LimitExceeded | NotFound

  /** How far starting a producer gets: not even created, failed after creation, or connected. */
  datatype Start = NoProducer | Failed | Ready

  /** One call of `open`; `local` says the address is an http port of 127.0.0.1. */
  datatype Request = Request(entry: Entry, local: bool)

  /** What the outside answers during one `open`. */
  datatype Outside = Outside(connected: set<Token>, again: bool, start: Start, token: Token, handle: Handle)

  /** Which entries `close` removes; the thread counts only together with a user. */
  datatype Criteria = Criteria(username: Option<string>, thread: Option<string>, workspace: Option<string>)

  datatype Guis = Guis(entries: map<Token, Entry>, producers: map<string, Handle>,
                       created: set<Handle>, closed: set<Handle>)

  predicate Mine(e: Entry, q: Entry) {
    e.username == q.username && e.thread == q.thread
  }

  predicate SamePlace(e: Entry, q: Entry) {
    Mine(e, q) && e.address.netloc == q.address.netloc
  }

  predicate Gone(e: Entry, c: Criteria) {
    && (c.workspace.Some? ==> e.workspace == c.workspace.value)
    && (c.username.Some? ==> e.username == c.username.value && (c.thread.Some? ==> e.thread == c.thread.value))
  }

  function Without<K, V>(m: map<K, V>, k: K): map<K, V> {
    map q | q in m && q != k :: m[q]
  }

  function NotMine(entries: map<Token, Entry>, q: Entry): map<Token, Entry> {
    map t | t in entries && !Mine(entries[t], q) :: entries[t]
  }

  function NotGone(entries: map<Token, Entry>, c: Criteria): map<Token, Entry> {
    map t | t in entries && !Gone(entries[t], c) :: entries[t]
  }

  ghost predicate Serves(entries: map<Token, Entry>, thread: string) {
    exists t :: t in entries && entries[t].thread == thread
  }

  // ---------- what each call does ----------

  /** The producer of `thread`, if any, is closed. */
  function Stopped(g: Guis, thread: string): Guis {
    if thread in g.producers then
      g.(producers := Without(g.producers, thread), closed := g.closed + {g.producers[thread]})
    else g
  }

  /** Nobody's entry and no producer left for the thread: what `open` continues from. */
  function Cleared(g: Guis, q: Entry): (r: Guis)
    ensures r.created == g.created && q.thread !in r.producers && r.entries == NotMine(g.entries, q)
  {
    Stopped(g, q.thread).(entries := NotMine(g.entries, q))
  }

  predicate Reusable(entries: map<Token, Entry>, q: Entry, o: Outside, t: Token) {
    t in entries && SamePlace(entries[t], q) && t in o.connected
  }

  /** A stored entry of the same place has just been probed without success. */
  ghost predicate Probed(entries: map<Token, Entry>, q: Entry) {
    exists t :: t in entries && SamePlace(entries[t], q)
  }

  ghost function Opened(g: Guis, q: Entry, o: Outside): (Guis, Result<Token, Refusal>)
    requires forall t :: !Reusable(g.entries, q, o, t)
  {
    var cleared := Cleared(g, q);
    var added := cleared.(entries := cleared.entries[o.token := q]);
    if |cleared.entries| >= MAX_ENTRIES then (cleared, Err(LimitExceeded))
    else if !Probed(g.entries, q) && o.again then (added, Ok(o.token))
    else
      match o.start
      case NoProducer => (cleared, Err(Unavailable))
      case Failed => (cleared.(created := g.created + {o.handle}, closed := cleared.closed + {o.handle}), Err(Unavailable))
      case Ready =>
        (added.(created := g.created + {o.handle}, producers := added.producers[q.thread := o.handle]), Ok(o.token))
  }

  ghost predicate OpenResult(g: Guis, q: Request, o: Outside, after: Guis, r: Result<Token, Refusal>) {
    if !q.local then after == g && r == Err(Unavailable)
    else if exists t :: Reusable(g.entries, q.entry, o, t) then after == g && r.Ok? && Reusable(g.entries, q.entry, o, r.value)
    else (after, r) == Opened(g, q.entry, o)
  }

  /** What is left once only `entries` remain: the producers of the threads they still serve. */
  ghost function Rest(g: Guis, entries: map<Token, Entry>): Guis {
    g.(entries := entries,
       producers := map th | th in g.producers && Serves(entries, th) :: g.producers[th],
       closed := g.closed + set th | th in g.producers && !Serves(entries, th) :: g.producers[th])
  }

  // ---------- the invariant ----------

  /** The producers neither closed nor lost are exactly those held, each once. */
  ghost predicate Balanced(g: Guis) {
    && g.closed <= g.created
    && (forall p | p in g.created && p !in g.closed :: exists th :: th in g.producers && g.producers[th] == p)
    && (forall th | th in g.producers :: g.producers[th] in g.created && g.producers[th] !in g.closed)
    && (forall th, u | th in g.producers && u in g.producers && g.producers[th] == g.producers[u] :: th == u)
  }

  ghost predicate AllServe(producers: map<string, Handle>, entries: map<Token, Entry>) {
    forall th | th in producers :: Serves(entries, th)
  }

  ghost predicate Limits(entries: map<Token, Entry>) {
    && |entries| <= MAX_ENTRIES
    && forall s, t | s in entries && t in entries && Mine(entries[s], entries[t]) :: s == t
  }

  ghost predicate Invariant(g: Guis) {
    Balanced(g) && AllServe(g.producers, g.entries) && Limits(g.entries)
  }

  lemma {:induction false} StoppedBalanced(g: Guis, thread: string)
    requires Balanced(g)
    ensures Balanced(Stopped(g, thread))
  {
    var after := Stopped(g, thread);
    forall p | p in after.created && p !in after.closed
      ensures exists th :: th in after.producers && after.producers[th] == p
    {
      var th :| th in g.producers && g.producers[th] == p;
      assert th in after.producers && after.producers[th] == p;
    }
  }

  lemma {:induction false} OthersServed(g: Guis, q: Entry)
    requires AllServe(g.producers, g.entries)
    ensures AllServe(Stopped(g, q.thread).producers, NotMine(g.entries, q))
  {
    forall th | th in Stopped(g, q.thread).producers ensures Serves(NotMine(g.entries, q), th) {
      assert Serves(g.entries, th);
      var t :| t in g.entries && g.entries[t].thread == th;
      assert t in NotMine(g.entries, q) && NotMine(g.entries, q)[t].thread == th;
    }
  }

  /** Nothing but the entries of one user and thread, and that thread's producer, is given up. */
  lemma {:induction false} ClearedKeeps(g: Guis, q: Entry)
    requires Invariant(g)
    ensures Invariant(Cleared(g, q))
  {
    StoppedBalanced(g, q.thread);
    OthersServed(g, q);
    SubmapSmaller(NotMine(g.entries, q), g.entries);
  }

  lemma {:induction false} AddedKeeps(g: Guis, q: Entry, token: Token)
    requires Invariant(g) && token !in g.entries && |g.entries| < MAX_ENTRIES
    requires forall t | t in g.entries :: !Mine(g.entries[t], q)
    ensures Invariant(g.(entries := g.entries[token := q]))
  {
    var after := g.(entries := g.entries[token := q]);
    forall th | th in g.producers ensures Serves(after.entries, th) {
      var t :| t in g.entries && g.entries[t].thread == th;
      assert t in after.entries && after.entries[t].thread == th;
    }
  }

  lemma {:induction false} HeldKeeps(g: Guis, thread: string, handle: Handle)
    requires Invariant(g) && thread !in g.producers && Serves(g.entries, thread) && handle !in g.created
    ensures Invariant(g.(created := g.created + {handle}, producers := g.producers[thread := handle]))
  {
    var after := g.(created := g.created + {handle}, producers := g.producers[thread := handle]);
    forall p | p in after.created && p !in after.closed
      ensures exists th :: th in after.producers && after.producers[th] == p
    {
      if p == handle {
        assert after.producers[thread] == p;
      } else {
        var th :| th in g.producers && g.producers[th] == p;
        assert th in after.producers && after.producers[th] == p;
      }
    }
  }

  lemma {:induction false} WastedKeeps(g: Guis, handle: Handle)
    requires Invariant(g) && handle !in g.created
    ensures Invariant(g.(created := g.created + {handle}, closed := g.closed + {handle}))
  {
  }

  lemma {:induction false} ReadyKeeps(g: Guis, q: Entry, token: Token, handle: Handle)
    requires Invariant(g) && token !in g.entries && |g.entries| < MAX_ENTRIES && q.thread !in g.producers
    requires (forall t | t in g.entries :: !Mine(g.entries[t], q)) && handle !in g.created
    ensures var added := g.(entries := g.entries[token := q]);
            Invariant(added)
            && Invariant(added.(created := g.created + {handle}, producers := added.producers[q.thread := handle]))
  {
    AddedKeeps(g, q, token);
    var added := g.(entries := g.entries[token := q]);
    assert added.entries[token].thread == q.thread;
    HeldKeeps(added, q.thread, handle);
  }

  lemma {:induction false} OpenKeeps(g: Guis, q: Request, o: Outside, after: Guis, r: Result<Token, Refusal>)
    requires Invariant(g) && OpenResult(g, q, o, after, r) && o.token !in g.entries && o.handle !in g.created
    ensures Invariant(after)
  {
    if q.local && forall t :: !Reusable(g.entries, q.entry, o, t) {
      ClearedKeeps(g, q.entry);
      var cleared := Cleared(g, q.entry);
      if |cleared.entries| < MAX_ENTRIES {
        ReadyKeeps(cleared, q.entry, o.token, o.handle);
        WastedKeeps(cleared, o.handle);
      }
    }
  }

  lemma {:induction false} RestKeeps(g: Guis, entries: map<Token, Entry>)
    requires Invariant(g) && entries.Keys <= g.entries.Keys && forall t | t in entries :: entries[t] == g.entries[t]
    ensures Invariant(Rest(g, entries))
  {
    SubmapSmaller(entries, g.entries);
    var after := Rest(g, entries);
    forall p | p in g.created && p !in after.closed ensures exists th :: th in after.producers && after.producers[th] == p {
      var th :| th in g.producers && g.producers[th] == p;
      assert th in after.producers;
    }
  }

  // ---------- whole runs ----------

  datatype Call = Open(q: Request, o: Outside, r: Result<Token, Refusal>) | Close(c: Criteria)

  ghost predicate Next(g: Guis, call: Call, after: Guis) {
    match call
    case Open(q, o, r) => o.token !in g.entries && o.handle !in g.created && OpenResult(g, q, o, after, r)
    case Close(c) => after == Rest(g, NotGone(g.entries, c))
  }

  ghost predicate Run(gs: seq<Guis>, calls: seq<Call>) {
    && |gs| == |calls| + 1 && gs[0] == Guis(map[], map[], {}, {})
    && forall i | 0 <= i < |calls| :: Next(gs[i], calls[i], gs[i + 1])
  }

  lemma {:induction false} RunKeeps(gs: seq<Guis>, calls: seq<Call>, i: nat)
    requires Run(gs, calls) && i < |gs|
    ensures Invariant(gs[i])
  {
    if i > 0 {
      RunKeeps(gs, calls, i - 1);
      match calls[i - 1] {
        case Open(q, o, r) => OpenKeeps(gs[i - 1], q, o, gs[i], r);
        case Close(c) => RestKeeps(gs[i - 1], NotGone(gs[i - 1].entries, c));
      }
    }
  }

  ghost predicate HeldFor(g: Guis, p: Handle, thread: string) {
    thread in g.producers && g.producers[thread] == p && Serves(g.entries, thread)
  }

  /**
   Main result: between calls every producer ever created is closed, or held for exactly one thread that
   still has an entry, and never both.
   */
  lemma {:induction false} NoProducerLost(gs: seq<Guis>, calls: seq<Call>, i: nat, p: Handle)
    requires Run(gs, calls) && i < |gs| && p in gs[i].created
    ensures p in gs[i].closed <==> !exists thread :: HeldFor(gs[i], p, thread)
    ensures forall s, t | HeldFor(gs[i], p, s) && HeldFor(gs[i], p, t) :: s == t
  {
    RunKeeps(gs, calls, i);
    if p !in gs[i].closed {
      var thread :| thread in gs[i].producers && gs[i].producers[thread] == p;
      assert HeldFor(gs[i], p, thread);
    }
  }

  lemma {:induction false} EntriesBounded(gs: seq<Guis>, calls: seq<Call>, i: nat)
    requires Run(gs, calls) && i < |gs|
    ensures |gs[i].entries| <= MAX_ENTRIES
    ensures forall s, t | s in gs[i].entries && t in gs[i].entries && Mine(gs[i].entries[s], gs[i].entries[t]) :: s == t
  {
    RunKeeps(gs, calls, i);
  }

  // ---------- who may use a token ----------

  function Access(entries: map<Token, Entry>, token: Token, account: Account): Result<Entry, Refusal> {
    if token !in entries || entries[token].username != account.username
       || (!account.admin && entries[token].workspace !in account.workspaces) then Err(NotFound)
    else Ok(entries[token])
  }

  lemma {:induction false} OpenEntries(g: Guis, q: Request, o: Outside, after: Guis, r: Result<Token, Refusal>)
    requires OpenResult(g, q, o, after, r)
    ensures after.entries == g.entries || after.entries == NotMine(g.entries, q.entry)
         || (r == Ok(o.token) && after.entries == NotMine(g.entries, q.entry)[o.token := q.entry])
    ensures r.Err? || Reusable(after.entries, q.entry, o, r.value)
         || (r.value == o.token && after.entries == NotMine(g.entries, q.entry)[o.token := q.entry])
  {
  }

  /** A successful `open` gives its own user the entry asked for, and no token of anybody else changes. */
  lemma {:induction false} OpenGrants(g: Guis, q: Request, o: Outside, after: Guis, r: Result<Token, Refusal>,
                                      account: Account, token: Token)
    requires OpenResult(g, q, o, after, r) && o.token !in g.entries
    ensures r.Ok? ==> r.value in after.entries && SamePlace(after.entries[r.value], q.entry)
    ensures account.username != q.entry.username ==>
            Access(after.entries, token, account) == Access(g.entries, token, account)
  {
    OpenEntries(g, q, o, after, r);
  }

  /** Closing takes away exactly the matching tokens, and a producer only from a thread nobody is left on. */
  lemma {:induction false} CloseTakes(g: Guis, c: Criteria, account: Account, token: Token, thread: string)
    requires Invariant(g)
    ensures var after := Rest(g, NotGone(g.entries, c));
            && Access(after.entries, token, account)
               == (if token in g.entries && Gone(g.entries[token], c) then Err(NotFound)
                   else Access(g.entries, token, account))
            && (thread in g.producers ==>
                  (g.producers[thread] in after.closed
                   <==> forall t | t in g.entries && g.entries[t].thread == thread :: Gone(g.entries[t], c)))
  {
    var after := Rest(g, NotGone(g.entries, c));
    if thread in g.producers {
      if t :| t in g.entries && g.entries[t].thread == thread && !Gone(g.entries[t], c) {
        assert t in after.entries && after.entries[t].thread == thread;
      }
      if Serves(after.entries, thread) {
        var t :| t in after.entries && after.entries[t].thread == thread;
        assert t in g.entries && !Gone(g.entries[t], c);
      }
    }
  }

  /** A token is good exactly for its own user, an administrator or a member of its workspace. */
  lemma {:induction false} AccessExactly(entries: map<Token, Entry>, token: Token, account: Account, e: Entry)
    ensures Access(entries, token, account) == Ok(e) <==>
              && token in entries && entries[token] == e && e.username == account.username
              && (account.admin || e.workspace in account.workspaces)
    ensures Access(entries, token, account).Err? ==> Access(entries, token, account) == Err(NotFound)
  {
  }

  /** What closing leaves: another workspace, another user, or another thread of the user named. */
  lemma {:induction false} CloseLeaves(g: Guis, c: Criteria, token: Token)
    requires token in g.entries
    ensures var e := g.entries[token];
            token in Rest(g, NotGone(g.entries, c)).entries <==>
              || (exists w :: c.workspace == Some(w) && e.workspace != w)
              || (exists u :: c.username == Some(u) && e.username != u)
              || (exists u, th :: c.username == Some(u) && c.thread == Some(th) && e.thread != th)
  {
  }

  /** The entries of other users or threads. */
  ghost function Others(g: Guis, q: Entry): set<Token> {
    set t | t in g.entries && (g.entries[t].username != q.username || g.entries[t].thread != q.thread)
  }

  /** Some connected entry of the user and thread has the address asked for. */
  ghost predicate AtHand(g: Guis, q: Entry, o: Outside) {
    exists t :: t in g.entries && t in o.connected && SameAddress(g.entries[t], q)
  }

  /** Some entry of the user and thread has the address asked for. */
  ghost predicate Known(g: Guis, q: Entry) {
    exists t :: t in g.entries && SameAddress(g.entries[t], q)
  }

  ghost predicate SameAddress(e: Entry, q: Entry) {
    e.username == q.username && e.thread == q.thread && e.address.netloc == q.address.netloc
  }

  /** Whether a local address without an entry at hand has to be served by a new producer. */
  ghost predicate NeedsProducer(g: Guis, q: Request, o: Outside) {
    q.local && !AtHand(g, q.entry, o) && |Others(g, q.entry)| < 16 && (Known(g, q.entry) || !o.again)
  }

  lemma {:induction false} OthersAreNotMine(g: Guis, q: Entry, o: Outside)
    ensures |NotMine(g.entries, q)| == |Others(g, q)|
    ensures AtHand(g, q, o) <==> exists t :: Reusable(g.entries, q, o, t)
    ensures Known(g, q) <==> Probed(g.entries, q)
  {
    MapSize(NotMine(g.entries, q));
    assert NotMine(g.entries, q).Keys == Others(g, q);
    if t :| t in g.entries && t in o.connected && SameAddress(g.entries[t], q) {
      assert Reusable(g.entries, q, o, t);
    }
    if t :| Reusable(g.entries, q, o, t) {
      assert t in g.entries && t in o.connected && SameAddress(g.entries[t], q);
    }
    if t :| t in g.entries && SameAddress(g.entries[t], q) {
      assert t in g.entries && SamePlace(g.entries[t], q);
    }
    if t :| t in g.entries && SamePlace(g.entries[t], q) {
      assert t in g.entries && SameAddress(g.entries[t], q);
    }
  }

  /** When an `open` meets the limit and when it succeeds. */
  lemma {:induction false} OpenExactly(g: Guis, q: Request, o: Outside, after: Guis, r: Result<Token, Refusal>)
    requires OpenResult(g, q, o, after, r)
    ensures r == Err(LimitExceeded) <==> q.local && !AtHand(g, q.entry, o) && |Others(g, q.entry)| >= 16
    ensures r.Ok? <==> q.local && (AtHand(g, q.entry, o)
                                   || (|Others(g, q.entry)| < 16 && (NeedsProducer(g, q, o) ==> o.start == Ready)))
  {
    OthersAreNotMine(g, q.entry, o);
  }

  /** When it creates a producer, and when it keeps it for its thread. */
  lemma {:induction false} OpenProduces(g: Guis, q: Request, o: Outside, after: Guis, r: Result<Token, Refusal>)
    requires Invariant(g) && OpenResult(g, q, o, after, r) && o.handle !in g.created
    ensures o.handle in after.created <==> NeedsProducer(g, q, o) && o.start != NoProducer
    ensures q.entry.thread in after.producers && after.producers[q.entry.thread] == o.handle
       <==> NeedsProducer(g, q, o) && o.start == Ready
  {
    OthersAreNotMine(g, q.entry, o);
  }

  /** Which tokens an `open` leaves, and that only the producer of its thread is touched. */
  lemma {:induction false} OpenLeaves(g: Guis, q: Request, o: Outside, after: Guis, r: Result<Token, Refusal>, token: Token,
                                      thread: string)
    requires OpenResult(g, q, o, after, r) && o.token !in g.entries
    ensures token in g.entries ==>
              (token in after.entries <==> !q.local || AtHand(g, q.entry, o) || token in Others(g, q.entry))
    ensures token !in g.entries && token in after.entries ==> token == o.token && r == Ok(token)
    ensures token in g.entries && token in after.entries ==> after.entries[token] == g.entries[token]
    ensures thread != q.entry.thread ==>
              (thread in after.producers <==> thread in g.producers)
              && (thread in g.producers ==> after.producers[thread] == g.producers[thread])
  {
    OthersAreNotMine(g, q.entry, o);
  }

  // ---------- the table itself ----------

  lemma {:induction false} DropOne(g: Guis, entries: map<Token, Entry>, token: Token)
    requires token in entries
    ensures var fewer, thread := Without(entries, token), entries[token].thread;
            var rest := Rest(g, entries).(entries := fewer);
            Rest(g, fewer) == if Serves(fewer, thread) then rest else Stopped(rest, thread)
  {
    var fewer, thread := Without(entries, token), entries[token].thread;
    forall th | th != thread || Serves(fewer, th) ensures Serves(fewer, th) <==> Serves(entries, th) {
      if t :| t in entries && entries[t].thread == th {
        if th != thread {
          assert t in fewer && fewer[t].thread == th;
        } else {
          assert token in entries && entries[token].thread == th;
        }
      }
      if t :| t in fewer && fewer[t].thread == th {
        assert t in entries && entries[t].thread == th;
      }
    }
    assert Serves(entries, thread) by {
      assert token in entries && entries[token].thread == thread;
    }
  }

  lemma {:induction false} RestOfAll(g: Guis)
    requires Invariant(g)
    ensures Rest(g, g.entries) == g
  {
  }

  /** Of the entries visited, those of the user and thread are gone. */
  ghost predicate Searched(before: map<Token, Entry>, entries: map<Token, Entry>, pending: set<Token>, q: Entry) {
    && (forall t :: t in entries <==> t in before && (t in pending || !Mine(before[t], q)))
    && (forall t | t in entries :: entries[t] == before[t])
  }

  /** None of them could be reused, and `probed` says whether one was of the same place. */
  ghost predicate Refused(before: map<Token, Entry>, pending: set<Token>, q: Entry, o: Outside, probed: bool) {
    && (forall t | t in before && t !in pending :: !Reusable(before, q, o, t))
    && (probed <==> exists t :: t in before && t !in pending && SamePlace(before[t], q))
  }

  ghost predicate Dropped(before: map<Token, Entry>, entries: map<Token, Entry>, pending: set<Token>, c: Criteria) {
    && (forall t :: t in entries <==> t in before && (t in pending || !Gone(before[t], c)))
    && (forall t | t in entries :: entries[t] == before[t])
  }

  lemma {:induction false} DroppedOne(before: map<Token, Entry>, entries: map<Token, Entry>, pending: set<Token>,
                                      c: Criteria, token: Token)
    requires Dropped(before, entries, pending, c) && pending <= before.Keys && token in pending
    ensures token in entries
    ensures Dropped(before, if Gone(entries[token], c) then Without(entries, token) else entries, pending - {token}, c)
  {
  }

  class HostSessionGuis {
    var entries: map<Token, Entry>
    var producers: map<string, Handle>
    ghost var created: set<Handle>
    ghost var closed: set<Handle>

    ghost function State(): Guis
      reads this
    {
      Guis(entries, producers, created, closed)
    }

    constructor ()
      ensures State() == Guis(map[], map[], {}, {})
    {
      entries, producers, created, closed := map[], map[], {}, {};
    }

    /** The loop over the entries: reuse a connected one, or drop those of the user and thread. */
    method Search(q: Entry, o: Outside) returns (found: Option<Token>, probed: bool)
      requires Limits(entries)
      modifies `entries
      ensures found.Some? ==> entries == old(entries) && Reusable(entries, q, o, found.value)
      ensures found.None? ==> entries == NotMine(old(entries), q) && probed == Probed(old(entries), q)
      ensures found.None? ==> forall t :: !Reusable(old(entries), q, o, t)
    {
      ghost var before := entries;
      var pending := entries.Keys;
      found, probed := None, false;
      while pending != {}
        invariant pending <= before.Keys && Searched(before, entries, pending, q)
        invariant Refused(before, pending, q, o, probed)
      {
        var token :| token in pending;
        pending := pending - {token};
        if Mine(entries[token], q) {
          if entries[token].address.netloc == q.address.netloc {
            probed := true;
            assert SamePlace(before[token], q);
            if token in o.connected {
              assert entries == before;
              found := Some(token);
              return;
            }
          }
          entries := Without(entries, token);
        }
      }
      assert entries == NotMine(before, q);
    }

    method Open(q: Request, o: Outside) returns (r: Result<Token, Refusal>)
      requires Invariant(State()) && o.token !in entries && o.handle !in created
      modifies this
      ensures OpenResult(old(State()), q, o, State(), r) && Invariant(State())
    {
      ghost var before := State();
      if !q.local {
        return Err(Unavailable);
      }
      var found, probed := Search(q.entry, o);
      if found.Some? {
        return Ok(found.value);
      }
      Stop(q.entry.thread);
      assert State() == Cleared(before, q.entry);
      OpenKeeps(before, q, o, Opened(before, q.entry, o).0, Opened(before, q.entry, o).1);
      if |entries| >= MAX_ENTRIES {
        return Err(LimitExceeded);
      }
      if probed || !o.again {
        if o.start == NoProducer {
          return Err(Unavailable);
        }
        created := created + {o.handle};
        if o.start == Failed {
          closed := closed + {o.handle};
          return Err(Unavailable);
        }
        producers := producers[q.entry.thread := o.handle];
      }
      entries := entries[o.token := q.entry];
      r := Ok(o.token);
    }

    /** `producers.pop(thread, None)`, closing what was there. */
    method Stop(thread: string)
      modifies `producers, `closed
      ensures State() == Stopped(old(State()), thread)
    {
      if thread in producers {
        closed := closed + {producers[thread]};
        producers := Without(producers, thread);
      }
    }

    /** Remove an entry, and the producer of its thread when nobody else is on it. */
    method Drop(token: Token, ghost before: Guis)
      requires token in entries && State() == Rest(before, entries)
      modifies `entries, `producers, `closed
      ensures entries == Without(old(entries), token) && State() == Rest(before, entries)
    {
      DropOne(before, entries, token);
      var thread := entries[token].thread;
      entries := Without(entries, token);
      if forall other | other in entries :: entries[other].thread != thread {
        Stop(thread);
      }
    }

    method Close(c: Criteria)
      requires Invariant(State())
      modifies this
      ensures State() == Rest(old(State()), NotGone(old(entries), c)) && Invariant(State())
    {
      ghost var before, stored := State(), entries;
      RestOfAll(before);
      var pending := entries.Keys;
      while pending != {}
        invariant pending <= stored.Keys && Dropped(stored, entries, pending, c)
        invariant State() == Rest(before, entries)
      {
        var token :| token in pending;
        DroppedOne(stored, entries, pending, c, token);
        pending := pending - {token};
        if Gone(entries[token], c) {
          Drop(token, before);
        }
      }
      assert entries == NotGone(stored, c);
      RestKeeps(before, entries);
    }
  }
}
