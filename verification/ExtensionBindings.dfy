/**
 Leases of extension children: each names a source for an hour, a new lease replaces the source's old
 one, and at most 1024 are held. Times are counted from the registry's creation.
 */
module ExtensionBindings {
  import opened Wrappers
  import opened Counting

  const MAX_BINDINGS: nat := 1024
  const LEASE_SECONDS: real := 3600.0

  type Lease = string

  datatype Source = Source(thread: string, ext: string)

  datatype Binding = Binding(source: Source, expires: real)

  datatype Refusal = LimitExceeded | Unauthorized

  /** One call with the clock readings it makes; `lease` is the fresh name a `Bind` would issue. */
  datatype Op =
    | Bind(source: Source, lease: Lease, now: real, later: real)
    | Resolve(lease: Lease, now: real)
    | Revoke(lease: Lease, now: real)
    | Clear

  type Table = map<Lease, Binding>

  // ---------- what one call does ----------

  function Live(b: Table, now: real): Table {
    map l | l in b && b[l].expires > now :: b[l]
  }

  function Others(b: Table, source: Source): Table {
    map l | l in b && b[l].source != source :: b[l]
  }

  function Without(b: Table, lease: Lease): Table {
    map l | l in b && l != lease :: b[l]
  }

  function After(b: Table, op: Op): Table {
    match op
    case Bind(source, lease, now, later) =>
      var others := Others(Live(b, now), source);
      if |others| >= MAX_BINDINGS then others else others[lease := Binding(source, later + LEASE_SECONDS)]
    case Resolve(_, now) => Live(b, now)
    case Revoke(lease, now) => Without(Live(b, now), lease)
    case Clear => map[]
  }

  function Initial(log: seq<Op>): seq<Op>
    requires log != []
  {
    log[..|log| - 1]
  }

  function Latest(log: seq<Op>): Op
    requires log != []
  {
    log[|log| - 1]
  }

  function TableOf(log: seq<Op>): Table {
    if log == [] then map[] else After(TableOf(Initial(log)), Latest(log))
  }

  // ---------- the reference: one grant per source ----------

  datatype Grant = Grant(lease: Lease, expires: real)

  function Sources(log: seq<Op>): set<Source> {
    if log == [] then {}
    else Sources(Initial(log)) + (if Latest(log).Bind? then {Latest(log).source} else {})
  }

  /** What the source was last issued and nobody took back, expired or not. */
  ghost function Granted(log: seq<Op>, source: Source): Option<Grant>
    decreases |log|, 0
  {
    if log == [] then None
    else
      var before := Granted(Initial(log), source);
      match Latest(log)
      case Bind(s, lease, now, later) =>
        if s == source && Accepted(Initial(log), source, now) then Some(Grant(lease, later + LEASE_SECONDS))
        else before
      case Revoke(lease, _) => if before.Some? && before.value.lease == lease then None else before
      case Resolve(_, _) => before
      case Clear => None
  }

  /** The sources with an unexpired grant. */
  ghost function Active(log: seq<Op>, now: real): set<Source>
    decreases |log|, 1
  {
    set s | s in Sources(log) && Granted(log, s).Some? && Granted(log, s).value.expires > now
  }

  /** A source may be issued a lease while fewer than 1024 other sources hold one. */
  ghost predicate Accepted(log: seq<Op>, source: Source, now: real)
    decreases |log|, 2
  {
    |Active(log, now) - {source}| < MAX_BINDINGS
  }

  // ---------- a run: the clock never goes back and lease names are new ----------

  function Clock(log: seq<Op>): real {
    if log == [] then 0.0
    else
      match Latest(log)
      case Bind(_, _, _, later) => later
      case Resolve(_, now) => now
      case Revoke(_, now) => now
      case Clear => Clock(Initial(log))
  }

  function Issued(log: seq<Op>): set<Lease> {
    if log == [] then {}
    else Issued(Initial(log)) + (if Latest(log).Bind? then {Latest(log).lease} else {})
  }

  ghost predicate Possible(log: seq<Op>, op: Op) {
    match op
    case Bind(_, lease, now, later) => Clock(log) <= now <= later && lease !in Issued(log)
    case Resolve(_, now) => Clock(log) <= now
    case Revoke(_, now) => Clock(log) <= now
    case Clear => true
  }

  ghost predicate Run(log: seq<Op>) {
    log == [] || (Run(Initial(log)) && Possible(Initial(log), Latest(log)))
  }

  // ---------- the table against the reference ----------

  lemma {:induction false} GrantedKnown(log: seq<Op>, source: Source)
    requires Granted(log, source).Some?
    ensures source in Sources(log) && Granted(log, source).value.lease in Issued(log)
  {
    if Granted(Initial(log), source).Some? {
      GrantedKnown(Initial(log), source);
    }
  }

  /** Every held binding is its source's grant. */
  ghost predicate Sound(b: Table, log: seq<Op>) {
    forall l | l in b :: Granted(log, b[l].source) == Some(Grant(l, b[l].expires))
  }

  /** Every grant unexpired at `now` is held. */
  ghost predicate Complete(b: Table, log: seq<Op>, now: real) {
    forall s | Granted(log, s).Some? && Granted(log, s).value.expires > now ::
      && Granted(log, s).value.lease in b
      && b[Granted(log, s).value.lease] == Binding(s, Granted(log, s).value.expires)
  }

  function SourcesIn(b: Table): set<Source> {
    set l | l in b :: b[l].source
  }

  ghost predicate OnePerSource(b: Table) {
    forall l, m | l in b && m in b && b[l].source == b[m].source :: l == m
  }

  lemma {:induction false} OneSourceFewer(b: Table, l: Lease)
    requires OnePerSource(b) && l in b
    ensures OnePerSource(Without(b, l)) && |b| == |Without(b, l)| + 1
    ensures SourcesIn(b) == SourcesIn(Without(b, l)) + {b[l].source} && b[l].source !in SourcesIn(Without(b, l))
  {
    assert b.Keys == Without(b, l).Keys + {l};
  }

  lemma {:induction false} CountSources(b: Table)
    requires OnePerSource(b)
    ensures |SourcesIn(b)| == |b|
    decreases |b|
  {
    if |b| > 0 {
      var l :| l in b;
      OneSourceFewer(b, l);
      CountSources(Without(b, l));
    } else {
      assert SourcesIn(b) == {};
    }
  }

  /** The bindings left in a source's way are as many as the other active sources. */
  lemma {:induction false} CountOthers(b: Table, log: seq<Op>, source: Source, now: real)
    requires Sound(b, log) && Complete(b, log, now)
    ensures |Others(Live(b, now), source)| == |Active(log, now) - {source}|
  {
    var others := Others(Live(b, now), source);
    CountSources(others);
    forall s ensures s in SourcesIn(others) <==> s in Active(log, now) - {source} {
      if s in SourcesIn(others) {
        var l :| l in others && others[l].source == s;
        GrantedKnown(log, s);
      }
      if s in Active(log, now) - {source} {
        var l := Granted(log, s).value.lease;
        assert l in others && others[l].source == s;
      }
    }
    assert SourcesIn(others) == Active(log, now) - {source};
  }

  lemma {:induction false} CompleteLater(b: Table, log: seq<Op>, now: real, later: real)
    requires Complete(b, log, now) && now <= later
    ensures Complete(b, log, later) && Complete(Live(b, later), log, later)
  {
  }

  ghost predicate Tracks(b: Table, log: seq<Op>, now: real) {
    Sound(b, log) && Complete(b, log, now) && |b| <= MAX_BINDINGS
  }

  /** A source with an unexpired grant of its own is never refused. */
  lemma {:induction false} HolderAccepted(b: Table, log: seq<Op>, source: Source, now: real)
    requires Tracks(b, log, now) && source in Active(log, now)
    ensures Accepted(log, source, now)
  {
    CountOthers(b, log, source, now);
    var l := Granted(log, source).value.lease;
    var others := Others(Live(b, now), source);
    assert l in b.Keys && l !in others.Keys;
    SubsetSmaller(others.Keys, b.Keys - {l});
  }

  lemma {:induction false} GrantedAfterBind(log: seq<Op>, op: Op, source: Source)
    requires op.Bind?
    ensures Granted(log + [op], source)
         == if source == op.source && Accepted(log, source, op.now) then Some(Grant(op.lease, op.later + LEASE_SECONDS))
            else Granted(log, source)
  {
    var next := log + [op];
    assert Initial(next) == log && Latest(next) == op;
  }

  lemma {:induction false} BindSound(b: Table, log: seq<Op>, op: Op)
    requires op.Bind? && Sound(b, log)
    requires |Others(Live(b, op.now), op.source)| < MAX_BINDINGS ==> Accepted(log, op.source, op.now)
    ensures Sound(After(b, op), log + [op])
  {
    var after := After(b, op);
    forall l | l in after ensures Granted(log + [op], after[l].source) == Some(Grant(l, after[l].expires)) {
      GrantedAfterBind(log, op, after[l].source);
    }
  }

  lemma {:induction false} AcceptedComplete(b: Table, log: seq<Op>, op: Op)
    requires op.Bind? && Possible(log, op) && Complete(b, log, op.now)
    requires |Others(Live(b, op.now), op.source)| < MAX_BINDINGS && Accepted(log, op.source, op.now)
    ensures Complete(After(b, op), log + [op], op.later)
  {
    var next, after := log + [op], After(b, op);
    forall s | Granted(next, s).Some? && Granted(next, s).value.expires > op.later
      ensures var g := Granted(next, s).value; g.lease in after && after[g.lease] == Binding(s, g.expires)
    {
      GrantedAfterBind(log, op, s);
      if s != op.source {
        GrantedKnown(log, s);
      }
    }
  }

  lemma {:induction false} RefusedComplete(b: Table, log: seq<Op>, op: Op)
    requires op.Bind? && Possible(log, op) && Complete(b, log, op.now)
    requires |Others(Live(b, op.now), op.source)| >= MAX_BINDINGS
    requires !Accepted(log, op.source, op.now) && op.source !in Active(log, op.now)
    ensures Complete(After(b, op), log + [op], op.later)
  {
    var next, after := log + [op], After(b, op);
    forall s | Granted(next, s).Some? && Granted(next, s).value.expires > op.later
      ensures var g := Granted(next, s).value; g.lease in after && after[g.lease] == Binding(s, g.expires)
    {
      GrantedAfterBind(log, op, s);
      GrantedKnown(log, s);
    }
  }

  lemma {:induction false} BindCounts(b: Table, log: seq<Op>, op: Op)
    requires op.Bind? && Possible(log, op) && Tracks(b, log, Clock(log))
    ensures Tracks(b, log, op.now)
    ensures |Others(Live(b, op.now), op.source)| < MAX_BINDINGS <==> Accepted(log, op.source, op.now)
    ensures |Others(Live(b, op.now), op.source)| <= MAX_BINDINGS
  {
    CompleteLater(b, log, Clock(log), op.now);
    CountOthers(b, log, op.source, op.now);
    SubmapSmaller(Others(Live(b, op.now), op.source), b);
  }

  lemma {:induction false} BindTracks(b: Table, log: seq<Op>, op: Op)
    requires op.Bind? && Possible(log, op) && Tracks(b, log, Clock(log))
    ensures Tracks(After(b, op), log + [op], op.later)
  {
    BindCounts(b, log, op);
    BindSound(b, log, op);
    if Accepted(log, op.source, op.now) {
      AcceptedComplete(b, log, op);
    } else {
      if op.source in Active(log, op.now) {
        HolderAccepted(b, log, op.source, op.now);
      }
      RefusedComplete(b, log, op);
    }
  }

  lemma {:induction false} OtherTracks(b: Table, log: seq<Op>, op: Op)
    requires !op.Bind? && Possible(log, op) && Tracks(b, log, Clock(log))
    ensures Tracks(After(b, op), log + [op], Clock(log + [op]))
  {
    var next := log + [op];
    assert Initial(next) == log && Latest(next) == op;
    SubmapSmaller(After(b, op), b);
    if op.Revoke? {
      CompleteLater(b, log, Clock(log), op.now);
    }
  }

  lemma {:induction false} RunTracks(log: seq<Op>)
    requires Run(log)
    ensures Tracks(TableOf(log), log, Clock(log))
  {
    if log != [] {
      RunTracks(Initial(log));
      assert Initial(log) + [Latest(log)] == log;
      if Latest(log).Bind? {
        BindTracks(TableOf(Initial(log)), Initial(log), Latest(log));
      } else {
        OtherTracks(TableOf(Initial(log)), Initial(log), Latest(log));
      }
    }
  }

  function Resolved(b: Table, lease: Lease, now: real): Option<Source> {
    if lease in Live(b, now) then Some(Live(b, now)[lease].source) else None
  }

  /**
   Main result: in every run, a lease resolves to a source exactly when it is what that source was last
   issued, nobody revoked or cleared it, and less than an hour has passed since it was issued.
   */
  lemma {:induction false} ResolvesExactly(log: seq<Op>, lease: Lease, source: Source, now: real)
    requires Run(log) && Clock(log) <= now
    ensures Resolved(TableOf(log), lease, now) == Some(source)
       <==> Granted(log, source).Some? && Granted(log, source).value.lease == lease
            && now < Granted(log, source).value.expires
  {
    RunTracks(log);
  }

  /** At most one lease is held per source, and at most 1024 in all. */
  lemma {:induction false} HeldBounded(log: seq<Op>)
    requires Run(log)
    ensures OnePerSource(TableOf(log)) && |TableOf(log)| <= MAX_BINDINGS
  {
    RunTracks(log);
  }

  /** A lease is issued exactly when fewer than 1024 other sources hold one. */
  lemma {:induction false} IssuedExactly(log: seq<Op>, op: Op)
    requires Run(log) && op.Bind? && Possible(log, op)
    ensures op.lease in After(TableOf(log), op) <==> Accepted(log, op.source, op.now)
  {
    RunTracks(log);
    BindCounts(TableOf(log), log, op);
    if op.lease in TableOf(log) {
      GrantedKnown(log, TableOf(log)[op.lease].source);
    }
  }

  /**
   A refusal changes no live lease: what resolves at any later time is the same as if the lease had not
   been asked for.
   */
  lemma {:induction false} RefusalHarmless(log: seq<Op>, op: Op, lease: Lease, time: real)
    requires Run(log) && op.Bind? && Possible(log, op) && op.later <= time
    requires !Accepted(log, op.source, op.now)
    ensures Resolved(After(TableOf(log), op), lease, time) == Resolved(TableOf(log), lease, time)
  {
    var b := TableOf(log);
    RunTracks(log);
    BindCounts(b, log, op);
    if op.source in Active(log, op.now) {
      HolderAccepted(b, log, op.source, op.now);
    }
    if lease in Live(b, time) && b[lease].source == op.source {
      GrantedKnown(log, op.source);
    }
  }

  lemma {:induction false} RunExtends(log: seq<Op>, op: Op)
    requires Run(log) && Possible(log, op)
    ensures Run(log + [op]) && TableOf(log + [op]) == After(TableOf(log), op)
  {
    assert Initial(log + [op]) == log && Latest(log + [op]) == op;
  }

  ghost predicate Held(b: Table, log: seq<Op>) {
    Run(log) && b == TableOf(log)
  }

  lemma {:induction false} BindOutcome(b: Table, log: seq<Op>, op: Op)
    requires Held(b, log) && op.Bind? && Possible(log, op)
    ensures var others := Others(Live(b, op.now), op.source);
            if Accepted(log, op.source, op.now)
            then |others| < MAX_BINDINGS
                 && Held(others[op.lease := Binding(op.source, op.later + LEASE_SECONDS)], log + [op])
            else |others| >= MAX_BINDINGS && Held(others, log + [op])
  {
    RunExtends(log, op);
    RunTracks(log);
    BindCounts(b, log, op);
  }

  lemma {:induction false} IssueHeld(b: Table, log: seq<Op>, op: Op, after: Table, issued: bool)
    requires Held(b, log) && op.Bind? && Possible(log, op)
    requires var others := Others(Live(b, op.now), op.source);
             if |others| >= MAX_BINDINGS then !issued && after == others
             else issued && after == others[op.lease := Binding(op.source, op.later + LEASE_SECONDS)]
    ensures Held(after, log + [op]) && issued == Accepted(log, op.source, op.now)
  {
    BindOutcome(b, log, op);
  }

  class ExtensionBindingRegistry {
    var bindings: Table
    ghost var log: seq<Op>   // the calls so far

    ghost predicate Valid()
      reads this
    {
      Held(bindings, log)
    }

    constructor ()
      ensures Valid() && log == []
    {
      bindings, log := map[], [];
    }

    method Bind(source: Source, lease: Lease, now: real, later: real) returns (result: Result<Lease, Refusal>)
      requires Valid() && Possible(log, Op.Bind(source, lease, now, later))
      modifies this
      ensures Valid() && log == old(log) + [Op.Bind(source, lease, now, later)]
      ensures result == if Accepted(old(log), source, now) then Ok(lease) else Err(LimitExceeded)
    {
      ghost var before := bindings;
      result := Issue(source, lease, now, later);
      IssueHeld(before, log, Op.Bind(source, lease, now, later), bindings, result.Ok?);
      log := log + [Op.Bind(source, lease, now, later)];
    }

    /** Make room, and store the lease if there is any. */
    method Issue(source: Source, lease: Lease, now: real, later: real) returns (result: Result<Lease, Refusal>)
      modifies `bindings
      ensures var others := Others(Live(old(bindings), now), source);
              if |others| >= MAX_BINDINGS then result == Err(LimitExceeded) && bindings == others
              else && result == Ok(lease)
                   && bindings == others[lease := Binding(source, later + LEASE_SECONDS)]
    {
      Expire(now);
      DropSource(source);
      if |bindings| >= MAX_BINDINGS {
        return Err(LimitExceeded);
      }
      bindings := bindings[lease := Binding(source, later + LEASE_SECONDS)];
      result := Ok(lease);
    }

    method Resolve(lease: Lease, now: real) returns (result: Result<Source, Refusal>)
      requires Valid() && Possible(log, Op.Resolve(lease, now))
      modifies this
      ensures Valid() && log == old(log) + [Op.Resolve(lease, now)]
      ensures var found := Resolved(TableOf(old(log)), lease, now);
              result == if found.Some? then Ok(found.value) else Err(Unauthorized)
    {
      RunExtends(log, Op.Resolve(lease, now));
      Expire(now);
      log := log + [Op.Resolve(lease, now)];
      result := if lease in bindings then Ok(bindings[lease].source) else Err(Unauthorized);
    }

    method Revoke(lease: Lease, now: real) returns (result: Result<(), Refusal>)
      requires Valid() && Possible(log, Op.Revoke(lease, now))
      modifies this
      ensures Valid() && log == old(log) + [Op.Revoke(lease, now)]
      ensures result == if Resolved(TableOf(old(log)), lease, now).Some? then Ok(()) else Err(Unauthorized)
    {
      RunExtends(log, Op.Revoke(lease, now));
      Expire(now);
      log := log + [Op.Revoke(lease, now)];
      if lease !in bindings {
        assert Without(bindings, lease) == bindings;
        return Err(Unauthorized);
      }
      bindings := Without(bindings, lease);
      result := Ok(());
    }

    method Clear()
      requires Valid()
      modifies this
      ensures Valid() && log == old(log) + [Op.Clear]
    {
      RunExtends(log, Op.Clear);
      bindings, log := map[], log + [Op.Clear];
    }

    method Expire(now: real)
      modifies `bindings
      ensures bindings == Live(old(bindings), now)
    {
      ghost var before := bindings;
      var pending := bindings.Keys;
      while pending != {}
        invariant pending <= before.Keys
        invariant forall l :: l in bindings <==> l in before && (l in pending || before[l].expires > now)
        invariant forall l | l in bindings :: bindings[l] == before[l]
      {
        var lease :| lease in pending;
        if bindings[lease].expires <= now {
          bindings := Without(bindings, lease);
        }
        pending := pending - {lease};
      }
    }

    method DropSource(source: Source)
      modifies `bindings
      ensures bindings == Others(old(bindings), source)
    {
      ghost var before := bindings;
      var pending := bindings.Keys;
      while pending != {}
        invariant pending <= before.Keys
        invariant forall l :: l in bindings <==> l in before && (l in pending || before[l].source != source)
        invariant forall l | l in bindings :: bindings[l] == before[l]
      {
        var lease :| lease in pending;
        if bindings[lease].source == source {
          bindings := Without(bindings, lease);
        }
        pending := pending - {lease};
      }
    }
  }
}
