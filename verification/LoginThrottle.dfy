/**
 Login throttling of the account store: ten failures open a window of 300 seconds per address.
 Times are readings of a clock that never goes back.
 */
module LoginThrottle {
  import opened Counting

  const WINDOW_SECONDS: real := 300.0
  const MAX_ATTEMPTS: nat := 10
  const MAX_ADDRESSES: nat := 1024

  type Address = string

  datatype Failure = Failure(attempts: nat, deadline: real)

  type Failures = map<Address, Failure>

  datatype Verdict = TooMany | Wrong | Right

  /** The failure table without the entries that have run out. */
  function Current(failures: Failures, now: real): Failures {
    map a | a in failures && failures[a].deadline > now :: failures[a]
  }

  /** Whether a login from `address` reaches the password check. */
  predicate Admitted(failures: Failures, address: Address) {
    && (address in failures ==> failures[address].attempts < MAX_ATTEMPTS)
    && (address in failures || |failures| < MAX_ADDRESSES)
  }

  function Counted(failures: Failures, address: Address, now: real): Failures {
    var previous := if address in failures then failures[address] else Failure(0, now + WINDOW_SECONDS);
    failures[address := Failure(previous.attempts + 1, previous.deadline)]
  }

  /** One login: the table after it, and whether the password was looked at and accepted. */
  function Attempted(failures: Failures, address: Address, now: real, correct: bool): (Failures, Verdict) {
    var live := Current(failures, now);
    if !Admitted(live, address) then (live, TooMany)
    else if correct then (live - {address}, Right)
    else (Counted(live, address, now), Wrong)
  }

  /** The table never outgrows its bound. */
  lemma {:induction false} AttemptedBounded(failures: Failures, address: Address, now: real, correct: bool)
    requires |failures| <= MAX_ADDRESSES
    ensures |Attempted(failures, address, now, correct).0| <= MAX_ADDRESSES
  {
    var live := Current(failures, now);
    SubmapSmaller(live, failures);
    SubmapSmaller(live - {address}, live);
    var counted := Counted(live, address, now);
    assert counted.Keys == live.Keys + {address};
    MapSize(counted);
    MapSize(live);
  }

  /** The failures of an address that still count. */
  predicate Counts(failures: Failures, address: Address, now: real) {
    address in failures && now < failures[address].deadline
  }

  /** An attempt is turned away after ten failures in the window, or when 1024 other addresses have open windows. */
  lemma {:induction false} TurnedAwayExactly(failures: Failures, address: Address, now: real, correct: bool)
    ensures var verdict := Attempted(failures, address, now, correct).1;
            && (verdict.TooMany? <==>
                  if Counts(failures, address, now) then failures[address].attempts >= 10
                  else |set a | a in failures && Counts(failures, a, now)| >= 1024)
            && (verdict.Right? ==> correct) && (verdict.Wrong? ==> !correct)
  {
    var live := Current(failures, now);
    MapSize(live);
    assert live.Keys == set a | a in failures && Counts(failures, a, now);
  }

  /**
   What an attempt leaves: windows that ran out are gone and other addresses keep theirs; a right password
   clears its address, a wrong one adds a failure to the open window or opens one.
   */
  lemma {:induction false} AttemptedExactly(failures: Failures, address: Address, now: real, correct: bool, a: Address)
    ensures var (after, verdict) := Attempted(failures, address, now, correct);
            if a != address || verdict.TooMany? then
              (a in after <==> Counts(failures, a, now)) && (a in after ==> after[a] == failures[a])
            else if verdict.Right? then a !in after
            else a in after && after[a] == if Counts(failures, a, now)
                                           then Failure(failures[a].attempts + 1, failures[a].deadline)
                                           else Failure(1, now + 300.0)
  {
  }

  // ---------- runs ----------

  datatype Attempt = Attempt(address: Address, time: real, correct: bool)

  ghost predicate InOrder(run: seq<Attempt>) {
    forall i, j | 0 <= i < j < |run| :: run[i].time <= run[j].time
  }

  /** The table after a run that starts with no failures. */
  function Table(run: seq<Attempt>): Failures {
    if run == [] then map[]
    else
      var last := run[|run| - 1];
      Attempted(Table(run[..|run| - 1]), last.address, last.time, last.correct).0
  }

  lemma {:induction false} TableBounded(run: seq<Attempt>)
    ensures |Table(run)| <= MAX_ADDRESSES
  {
    if run != [] {
      var last := run[|run| - 1];
      TableBounded(run[..|run| - 1]);
      AttemptedBounded(Table(run[..|run| - 1]), last.address, last.time, last.correct);
    }
  }

  function VerdictAt(run: seq<Attempt>, i: nat): Verdict
    requires i < |run|
  {
    Attempted(Table(run[..i]), run[i].address, run[i].time, run[i].correct).1
  }

  /** How many password checks from `address` failed within `WINDOW_SECONDS` from `start`. */
  function FailedChecks(run: seq<Attempt>, address: Address, start: real): nat {
    if run == [] then 0
    else
      var i := |run| - 1;
      FailedChecks(run[..i], address, start)
      + (if run[i].address == address && VerdictAt(run, i).Wrong? && Within(run[i].time, start) then 1 else 0)
  }

  predicate Within(time: real, start: real) {
    start <= time < start + WINDOW_SECONDS
  }

  ghost predicate NeverLogsIn(run: seq<Attempt>, address: Address) {
    forall i | 0 <= i < |run| && run[i].address == address :: !VerdictAt(run, i).Right?
  }

  // ---------- the windows of one address ----------

  /** Times of the failed checks of one window, in order. */
  ghost predicate IsWindow(w: seq<real>) {
    && 0 < |w| <= MAX_ATTEMPTS
    && forall i | 0 <= i < |w| :: w[0] <= w[i] < w[0] + WINDOW_SECONDS
  }

  /** Windows follow one another without overlap. */
  ghost predicate AreWindows(ws: seq<seq<real>>) {
    && (forall k | 0 <= k < |ws| :: IsWindow(ws[k]))
    && (forall k | 0 < k < |ws| :: ws[k - 1][0] + WINDOW_SECONDS <= ws[k][0])
  }

  function CountIn(w: seq<real>, start: real): (n: nat)
    ensures n <= |w|
  {
    if w == [] then 0
    else CountIn(w[..|w| - 1], start) + (if Within(w[|w| - 1], start) then 1 else 0)
  }

  function CountAll(ws: seq<seq<real>>, start: real): nat {
    if ws == [] then 0 else CountAll(ws[..|ws| - 1], start) + CountIn(ws[|ws| - 1], start)
  }

  lemma {:induction false} CountsNothing(w: seq<real>, start: real)
    requires forall i | 0 <= i < |w| :: !Within(w[i], start)
    ensures CountIn(w, start) == 0
  {
    if w != [] {
      CountsNothing(w[..|w| - 1], start);
    }
  }

  /** Windows that open at least a window length before `start` hold nothing of it. */
  lemma {:induction false} CountBefore(ws: seq<seq<real>>, start: real)
    requires AreWindows(ws)
    requires ws != [] ==> ws[|ws| - 1][0] + WINDOW_SECONDS <= start
    ensures CountAll(ws, start) == 0
  {
    if ws != [] {
      CountsNothing(ws[|ws| - 1], start);
      CountBefore(ws[..|ws| - 1], start);
    }
  }

  lemma {:induction false} CountsAllButFirst(w: seq<real>, start: real)
    requires w != [] && !Within(w[0], start)
    ensures CountIn(w, start) <= |w| - 1
  {
    if |w| == 1 {
      assert w[..0] == [];
    } else {
      CountsAllButFirst(w[..|w| - 1], start);
    }
  }

  /** Windows that open before `start`: only the last one counts, and not with its opening failure. */
  lemma {:induction false} CountOpenedBefore(ws: seq<seq<real>>, start: real)
    requires AreWindows(ws)
    requires ws != [] ==> ws[|ws| - 1][0] < start
    ensures CountAll(ws, start) <= MAX_ATTEMPTS - 1
  {
    if ws != [] {
      CountsAllButFirst(ws[|ws| - 1], start);
      CountBefore(ws[..|ws| - 1], start);
    }
  }

  /** A stretch of one window length meets at most two windows, the earlier one after it opened. */
  lemma {:induction false} CountAtMostTwo(ws: seq<seq<real>>, start: real)
    requires AreWindows(ws)
    ensures CountAll(ws, start) <= 2 * MAX_ATTEMPTS - 1
  {
    if ws != [] {
      var w := ws[|ws| - 1];
      if w[0] >= start + WINDOW_SECONDS {
        CountsNothing(w, start);
        CountAtMostTwo(ws[..|ws| - 1], start);
      } else {
        CountOpenedBefore(ws[..|ws| - 1], start);
      }
    }
  }

  /** The windows of `address` over a run agree with its entry in the failure table. */
  ghost predicate Agree(ws: seq<seq<real>>, failures: Failures, address: Address, now: real) {
    && AreWindows(ws)
    && (address in failures ==>
          ws != [] && failures[address] == Failure(|ws[|ws| - 1]|, ws[|ws| - 1][0] + WINDOW_SECONDS))
    && (address !in failures && ws != [] ==> ws[|ws| - 1][0] + WINDOW_SECONDS <= now)
    && (ws != [] ==> ws[|ws| - 1][0] <= now)
  }

  /** A failed check inside the open window. */
  lemma {:induction false} WindowGrows(ws: seq<seq<real>>, time: real) returns (next: seq<seq<real>>)
    requires AreWindows(ws) && ws != []
    requires |ws[|ws| - 1]| < MAX_ATTEMPTS && ws[|ws| - 1][0] <= time < ws[|ws| - 1][0] + WINDOW_SECONDS
    ensures AreWindows(next) && |next| == |ws| && next[|ws| - 1] == ws[|ws| - 1] + [time]
    ensures forall start :: CountAll(next, start) == CountAll(ws, start) + (if Within(time, start) then 1 else 0)
  {
    var last := ws[|ws| - 1];
    var longer := last + [time];
    next := ws[..|ws| - 1] + [longer];
    assert longer[..|longer| - 1] == last && next[..|next| - 1] == ws[..|ws| - 1];
  }

  /** A failed check after the last window has run out. */
  lemma {:induction false} WindowOpens(ws: seq<seq<real>>, time: real) returns (next: seq<seq<real>>)
    requires AreWindows(ws) && (ws != [] ==> ws[|ws| - 1][0] + WINDOW_SECONDS <= time)
    ensures AreWindows(next) && next == ws + [[time]]
    ensures forall start :: CountAll(next, start) == CountAll(ws, start) + (if Within(time, start) then 1 else 0)
  {
    next := ws + [[time]];
    assert next[..|next| - 1] == ws && [time][..0] == [];
    forall start ensures CountIn([time], start) == if Within(time, start) then 1 else 0 {
      assert CountIn([time][..0], start) == 0;
    }
  }

  /** One more attempt, by anyone, extends the last window, opens a new one, or leaves them alone. */
  lemma {:induction false} WindowsStep(ws: seq<seq<real>>, failures: Failures, address: Address, now: real,
                                       a: Attempt) returns (next: seq<seq<real>>)
    requires Agree(ws, failures, address, now) && now <= a.time
    requires a.address == address ==> !Attempted(failures, a.address, a.time, a.correct).1.Right?
    ensures Agree(next, Attempted(failures, a.address, a.time, a.correct).0, address, a.time)
    ensures forall start ::
              CountAll(next, start) == CountAll(ws, start)
                + (if a.address == address && Attempted(failures, a.address, a.time, a.correct).1.Wrong?
                      && Within(a.time, start) then 1 else 0)
  {
    if a.address != address || !Attempted(failures, a.address, a.time, a.correct).1.Wrong? {
      next := ws;
    } else if address in Current(failures, a.time) {
      next := WindowGrows(ws, a.time);
    } else {
      next := WindowOpens(ws, a.time);
    }
  }

  lemma {:induction false} WindowsOf(run: seq<Attempt>, address: Address, now: real) returns (ws: seq<seq<real>>)
    requires InOrder(run) && NeverLogsIn(run, address)
    requires forall i | 0 <= i < |run| :: run[i].time <= now
    ensures Agree(ws, Table(run), address, now)
    ensures forall start :: CountAll(ws, start) == FailedChecks(run, address, start)
    decreases |run|
  {
    if run == [] {
      ws := [];
    } else {
      var n := |run| - 1;
      var past, a := run[..n], run[n];
      forall i | 0 <= i < n && past[i].address == address ensures !VerdictAt(past, i).Right? {
        assert past[..i] == run[..i];
        assert VerdictAt(run, i) == VerdictAt(past, i);
      }
      var before := WindowsOf(past, address, a.time);
      ws := WindowsStep(before, Table(past), address, a.time, a);
    }
  }

  /**
   Main result: from an address that never logs in, no stretch of 300 seconds holds more than nineteen
   failed password checks, whatever the other addresses do; and the table never outgrows its bound.
   */
  lemma {:induction false} AtMostNineteenChecks(run: seq<Attempt>, address: Address, start: real)
    requires InOrder(run) && NeverLogsIn(run, address)
    ensures FailedChecks(run, address, start) <= 19
    ensures |Table(run)| <= MAX_ADDRESSES
  {
    TableBounded(run);
    var ws := WindowsOf(run, address, if run == [] then 0.0 else run[|run| - 1].time);
    CountAtMostTwo(ws, start);
  }

  // ---------- the bound is reached ----------

  /** A table with at most one address in it. */
  function Sole(address: Address, attempts: nat, deadline: real): Failures {
    if attempts == 0 then map[] else map[address := Failure(attempts, deadline)]
  }

  /** One wrong password from an address that has the table to itself and room in its window. */
  lemma {:induction false} WrongCounts(run: seq<Attempt>, address: Address, time: real,
                                       from: nat, deadline: real, start: real)
    requires from < MAX_ATTEMPTS && Current(Table(run), time) == Sole(address, from, deadline)
    requires from == 0 ==> deadline == time + WINDOW_SECONDS
    ensures var longer := run + [Attempt(address, time, false)];
            && Table(longer) == Sole(address, from + 1, deadline)
            && FailedChecks(longer, address, start)
               == FailedChecks(run, address, start) + (if Within(time, start) then 1 else 0)
  {
    var longer := run + [Attempt(address, time, false)];
    assert longer[..|longer| - 1] == run;
    assert Admitted(Sole(address, from, deadline), address);
    assert VerdictAt(longer, |longer| - 1).Wrong?;
  }

  /** Wrong passwords only, in order, none after `time`. */
  ghost predicate WrongUntil(run: seq<Attempt>, time: real) {
    run == [] || (var last := run[|run| - 1];
                  !last.correct && last.time <= time && WrongUntil(run[..|run| - 1], last.time))
  }

  lemma {:induction false} WrongUntilMeans(run: seq<Attempt>, time: real)
    requires WrongUntil(run, time)
    ensures InOrder(run) && forall i | 0 <= i < |run| :: !run[i].correct && run[i].time <= time
    decreases |run|
  {
    if run != [] {
      WrongUntilMeans(run[..|run| - 1], run[|run| - 1].time);
    }
  }

  lemma {:induction false} WrongUntilSnoc(run: seq<Attempt>, address: Address, time: real)
    requires WrongUntil(run, time)
    ensures WrongUntil(run + [Attempt(address, time, false)], time)
  {
    assert (run + [Attempt(address, time, false)])[..|run|] == run;
  }

  ghost predicate FailedUntil(run: seq<Attempt>, address: Address, time: real, attempts: nat, deadline: real) {
    WrongUntil(run, time) && Table(run) == Sole(address, attempts, deadline)
  }

  lemma {:induction false} OneWrong(run: seq<Attempt>, address: Address, time: real,
                                    upto: nat, deadline: real, start: real)
    requires 0 < upto <= MAX_ATTEMPTS && Current(Table(run), time) == Sole(address, upto - 1, deadline)
    requires (upto == 1 ==> deadline == time + WINDOW_SECONDS) && WrongUntil(run, time)
    ensures var longer := run + [Attempt(address, time, false)];
            && FailedUntil(longer, address, time, upto, deadline)
            && FailedChecks(longer, address, start)
               == FailedChecks(run, address, start) + (if Within(time, start) then 1 else 0)
  {
    WrongUntilSnoc(run, address, time);
    WrongCounts(run, address, time, upto - 1, deadline, start);
  }

  lemma {:induction false} StillOpen(run: seq<Attempt>, address: Address, time: real, attempts: nat, deadline: real)
    requires FailedUntil(run, address, time, attempts, deadline) && deadline > time
    ensures WrongUntil(run, time) && Current(Table(run), time) == Sole(address, attempts, deadline)
  {
    SoleIsCurrent(address, attempts, deadline, time);
  }

  /** Wrong passwords at one moment, until `upto` are counted. */
  lemma {:induction false} Burst(run: seq<Attempt>, address: Address, time: real, from: nat, upto: nat,
                                 deadline: real, start: real) returns (longer: seq<Attempt>)
    requires from < upto <= MAX_ATTEMPTS && deadline > time
    requires Current(Table(run), time) == Sole(address, from, deadline)
    requires (from == 0 ==> deadline == time + WINDOW_SECONDS) && WrongUntil(run, time)
    ensures FailedUntil(longer, address, time, upto, deadline)
    ensures FailedChecks(longer, address, start)
            == FailedChecks(run, address, start) + (if Within(time, start) then upto - from else 0)
    decreases upto
  {
    var before := run;
    if from < upto - 1 {
      before := Burst(run, address, time, from, upto - 1, deadline, start);
      StillOpen(before, address, time, upto - 1, deadline);
    }
    longer := before + [Attempt(address, time, false)];
    OneWrong(before, address, time, upto, deadline, start);
  }

  lemma {:induction false} SoleIsCurrent(address: Address, attempts: nat, deadline: real, now: real)
    ensures Current(Sole(address, attempts, deadline), now)
            == if deadline > now then Sole(address, attempts, deadline) else map[]
  {
  }

  /** One early failure, nine late in its window and ten right after it: nineteen within 300 seconds. */
  lemma {:induction false} NineteenReached(address: Address) returns (run: seq<Attempt>)
    ensures InOrder(run) && NeverLogsIn(run, address)
    ensures FailedChecks(run, address, 200.0) == 19
  {
    var one := Burst([], address, 0.0, 0, 1, 300.0, 200.0);
    SoleIsCurrent(address, 1, 300.0, 200.0);
    var ten := Burst(one, address, 200.0, 1, 10, 300.0, 200.0);
    SoleIsCurrent(address, 10, 300.0, 300.0);
    run := Burst(ten, address, 300.0, 0, 10, 600.0, 200.0);
    WrongUntilMeans(run, 300.0);
  }
}
