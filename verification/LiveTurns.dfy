/**
 The controller's record of live turn items: for each of the last turns it saw start, the items the
 app-server announced, laid over a thread's turns when a client reads it.
 */
module LiveTurns {
  import opened Wrappers
  import opened OrderedDicts
  import opened Sequences
  import opened JsonValues

  const MAX_TURNS: nat := 16
  const MAX_ITEMS: nat := 256

  type Key = (string, string)   // thread and turn

  datatype Event =
    | Started(key: Key)
    | Completed(key: Key)
    | Announced(key: Key, id: string, item: Json)
    | Ignored

  datatype Turn = Turn(items: seq<(string, Json)>, completed: bool)

  type Table = seq<(Key, Turn)>

  // ---------- reading a notification ----------

  function Text(fields: seq<(string, Json)>, name: string): Option<string> {
    var v := Get(fields, name);
    if v.Some? && v.value.Str? then Some(v.value.s) else None
  }

  function Member(fields: seq<(string, Json)>, name: string): Option<seq<(string, Json)>> {
    var v := Get(fields, name);
    if v.Some? && v.value.Obj? then Some(v.value.fields) else None
  }

  function Recognize(message: seq<(string, Json)>): Event {
    var method_ := Text(message, "method");
    var params := Member(message, "params");
    if params.None? || Text(params.value, "threadId").None? || method_.None? then Ignored
    else
      var thread := Text(params.value, "threadId").value;
      if method_.value == "turn/started" || method_.value == "turn/completed" then
        var turn := Member(params.value, "turn");
        if turn.None? || Text(turn.value, "id").None? then Ignored
        else
          var key := (thread, Text(turn.value, "id").value);
          if method_.value == "turn/started" then Started(key) else Completed(key)
      else if method_.value == "item/started" || method_.value == "item/completed" then
        var turn, item := Text(params.value, "turnId"), Member(params.value, "item");
        if turn.None? || item.None? || Text(item.value, "id").None? then Ignored
        else Announced((thread, turn.value), Text(item.value, "id").value, Obj(item.value))
      else Ignored
  }

  /** A notification about a turn, in full. */
  ghost predicate OfTurn(message: seq<(string, Json)>, name: string, key: Key) {
    && Get(message, "method") == Some(Str(name))
    && exists params, turn ::
      && Get(message, "params") == Some(Obj(params)) && Get(params, "threadId") == Some(Str(key.0))
      && Get(params, "turn") == Some(Obj(turn)) && Get(turn, "id") == Some(Str(key.1))
  }

  /** A notification about an item, in full. */
  ghost predicate OfItem(message: seq<(string, Json)>, name: string, key: Key, id: string, item: Json) {
    && Get(message, "method") == Some(Str(name))
    && exists params, fields ::
      && Get(message, "params") == Some(Obj(params)) && Get(params, "threadId") == Some(Str(key.0))
      && Get(params, "turnId") == Some(Str(key.1))
      && item == Obj(fields) && Get(params, "item") == Some(item) && Get(fields, "id") == Some(Str(id))
  }

  /** What is recognized are exactly the complete notifications of the four kinds. */
  lemma {:induction false} TurnsRecognized(message: seq<(string, Json)>, key: Key)
    ensures Recognize(message) == Started(key) <==> OfTurn(message, "turn/started", key)
    ensures Recognize(message) == Completed(key) <==> OfTurn(message, "turn/completed", key)
  {
  }

  lemma {:induction false} ItemsRecognized(message: seq<(string, Json)>, key: Key, id: string, item: Json)
    ensures Recognize(message) == Announced(key, id, item)
       <==> OfItem(message, "item/started", key, id, item) || OfItem(message, "item/completed", key, id, item)
  {
  }

  // ---------- what one notification does ----------

  function Add(items: seq<(string, Json)>, id: string, item: Json): seq<(string, Json)> {
    if id !in Keys(items) && |items| >= MAX_ITEMS then items else Put(items, id, Bounded(item, 0))
  }

  function Trim(turns: Table): (r: Table)
    ensures |r| == if |turns| > MAX_TURNS then MAX_TURNS else |turns|
  {
    if |turns| > MAX_TURNS then turns[|turns| - MAX_TURNS..] else turns
  }

  function After(turns: Table, event: Event): Table {
    match event
    case Started(key) => Trim(Put(turns, key, Turn([], false)))
    case Completed(key) =>
      var live := Get(turns, key);
      if live.None? then turns else Put(turns, key, live.value.(completed := true))
    case Announced(key, id, item) =>
      var live := Get(turns, key);
      if live.None? then turns else Put(turns, key, live.value.(items := Add(live.value.items, id, item)))
    case Ignored => turns
  }

  function Initial(log: seq<Event>): seq<Event>
    requires log != []
  {
    log[..|log| - 1]
  }

  function Latest(log: seq<Event>): Event
    requires log != []
  {
    log[|log| - 1]
  }

  function TableOf(log: seq<Event>): Table {
    if log == [] then [] else After(TableOf(Initial(log)), Latest(log))
  }

  // ---------- the record, independently: which turns ----------

  /** The turns entered so far, oldest first: a start enters a turn unless it is among the last sixteen. */
  function Entered(log: seq<Event>): seq<Key> {
    if log == [] then []
    else
      var before := Entered(Initial(log));
      match Latest(log)
      case Started(key) => if key in Recent(before) then before else before + [key]
      case _ => before
  }

  function Recent(entered: seq<Key>): seq<Key> {
    if |entered| > MAX_TURNS then entered[|entered| - MAX_TURNS..] else entered
  }

  /** Keys in order. */
  function Order(turns: Table): (r: seq<Key>)
    ensures |r| == |turns| && forall i | 0 <= i < |r| :: r[i] == turns[i].0
  {
    seq(|turns|, i requires 0 <= i < |turns| => turns[i].0)
  }

  lemma {:induction false} OrderAfterPut(turns: Table, key: Key, turn: Turn)
    ensures Order(Put(turns, key, turn)) == if key in Keys(turns) then Order(turns) else Order(turns) + [key]
  {
    PutPlaces(turns, key, turn);
  }

  lemma {:induction false} InOrder(turns: Table, key: Key)
    ensures key in Order(turns) <==> key in Keys(turns)
  {
    KeysAt(turns, key);
    if key in Order(turns) {
      var i :| 0 <= i < |Order(turns)| && Order(turns)[i] == key;
      assert turns[i].0 == key;
    }
    if i :| 0 <= i < |turns| && turns[i].0 == key {
      assert Order(turns)[i] == key;
    }
  }

  lemma {:induction false} OthersKeepOrder(turns: Table, event: Event)
    requires !event.Started?
    ensures Order(After(turns, event)) == Order(turns)
  {
    match event {
      case Completed(key) =>
        if key in Keys(turns) {
          OrderAfterPut(turns, key, Get(turns, key).value.(completed := true));
        }
      case Announced(key, id, item) =>
        if key in Keys(turns) {
          var live := Get(turns, key).value;
          OrderAfterPut(turns, key, live.(items := Add(live.items, id, item)));
        }
      case Ignored =>
    }
  }

  /**
   Main result: the record holds exactly the last sixteen turns entered, in the order they were entered;
   starting a turn that is still held changes no place.
   */
  lemma {:induction false} HoldsTheLastEntered(log: seq<Event>)
    ensures Order(TableOf(log)) == Recent(Entered(log)) && |TableOf(log)| <= MAX_TURNS
  {
    if log != [] {
      HoldsTheLastEntered(Initial(log));
      if Latest(log).Started? {
        StartEnters(TableOf(Initial(log)), Entered(Initial(log)), Latest(log).key);
      } else {
        OthersKeepOrder(TableOf(Initial(log)), Latest(log));
      }
    }
  }

  lemma {:induction false} StartEnters(turns: Table, entered: seq<Key>, key: Key)
    requires Order(turns) == Recent(entered)
    ensures Order(After(turns, Started(key)))
         == Recent(if key in Recent(entered) then entered else entered + [key])
  {
    InOrder(turns, key);
    OrderAfterPut(turns, key, Turn([], false));
    RecentGrows(entered, key);
    assert Order(After(turns, Started(key))) == Recent(Order(Put(turns, key, Turn([], false))));
  }

  lemma {:induction false} RecentGrows(entered: seq<Key>, key: Key)
    ensures Recent(Recent(entered) + [key]) == Recent(entered + [key])
    ensures Recent(Recent(entered)) == Recent(entered)
  {
  }

  // ---------- the record, independently: which items ----------

  /** The announcements for a turn since it last started. */
  function Since(log: seq<Event>, key: Key): seq<(string, Json)> {
    if log == [] then []
    else
      var before := Since(Initial(log), key);
      match Latest(log)
      case Started(k) => if k == key then [] else before
      case Announced(k, id, item) => if k == key then before + [(id, item)] else before
      case _ => before
  }

  function FinishedSince(log: seq<Event>, key: Key): bool {
    log != [] &&
    match Latest(log)
    case Started(k) => k != key && FinishedSince(Initial(log), key)
    case Completed(k) => k == key || FinishedSince(Initial(log), key)
    case _ => FinishedSince(Initial(log), key)
  }

  /** The distinct identifiers in the order of their first announcement. */
  function FirstSeen(announced: seq<(string, Json)>): seq<string> {
    if announced == [] then []
    else
      var before := FirstSeen(announced[..|announced| - 1]);
      var id := announced[|announced| - 1].0;
      if id in before then before else before + [id]
  }

  /** The value of the last announcement of `id`. */
  function LastOf(announced: seq<(string, Json)>, id: string): Json {
    if announced == [] then Null
    else if announced[|announced| - 1].0 == id then announced[|announced| - 1].1
    else LastOf(announced[..|announced| - 1], id)
  }

  function First256(ids: seq<string>): seq<string> {
    if |ids| <= MAX_ITEMS then ids else ids[..MAX_ITEMS]
  }

  /** The first 256 identifiers, each with the bounded copy of its last value. */
  function Replay(announced: seq<(string, Json)>): (r: seq<(string, Json)>)
    ensures |r| == |First256(FirstSeen(announced))|
    ensures forall i | 0 <= i < |r| :: r[i].0 == First256(FirstSeen(announced))[i]
    ensures forall i | 0 <= i < |r| :: r[i].1 == Bounded(LastOf(announced, r[i].0), 0)
  {
    var ids := First256(FirstSeen(announced));
    seq(|ids|, i requires 0 <= i < |ids| => (ids[i], Bounded(LastOf(announced, ids[i]), 0)))
  }

  ghost predicate NoRepeat(ids: seq<string>) {
    forall i, j | 0 <= i < j < |ids| :: ids[i] != ids[j]
  }

  lemma {:induction false} FirstSeenDistinct(announced: seq<(string, Json)>)
    ensures NoRepeat(FirstSeen(announced))
  {
    if announced != [] {
      FirstSeenDistinct(announced[..|announced| - 1]);
    }
  }

  lemma {:induction false} OneMore(announced: seq<(string, Json)>, id: string, item: Json)
    ensures var longer, ids := announced + [(id, item)], FirstSeen(announced);
            && FirstSeen(longer) == (if id in ids then ids else ids + [id])
            && LastOf(longer, id) == item
            && forall q | q != id :: LastOf(longer, q) == LastOf(announced, q)
  {
    var longer := announced + [(id, item)];
    assert longer[..|longer| - 1] == announced;
  }

  ghost predicate Matches(stored: seq<(string, Json)>, ids: seq<string>, announced: seq<(string, Json)>) {
    && |stored| == |ids|
    && forall i | 0 <= i < |ids| :: stored[i] == (ids[i], Bounded(LastOf(announced, ids[i]), 0))
  }

  lemma {:induction false} MatchIsReplay(stored: seq<(string, Json)>, announced: seq<(string, Json)>)
    requires Matches(stored, First256(FirstSeen(announced)), announced)
    ensures stored == Replay(announced)
  {
    var replay := Replay(announced);
    forall i | 0 <= i < |stored| ensures stored[i] == replay[i] {
      assert replay[i] == (replay[i].0, replay[i].1);
    }
  }

  lemma {:induction false} ReplayMatches(announced: seq<(string, Json)>)
    ensures Matches(Replay(announced), First256(FirstSeen(announced)), announced)
  {
  }

  lemma {:induction false} MatchUpdated(stored: seq<(string, Json)>, ids: seq<string>, at: nat,
                                        announced: seq<(string, Json)>, longer: seq<(string, Json)>, item: Json)
    requires at < |ids| && NoRepeat(ids) && Matches(stored, ids, announced)
    requires LastOf(longer, ids[at]) == item
    requires forall q | q != ids[at] :: LastOf(longer, q) == LastOf(announced, q)
    ensures Matches(Put(stored, ids[at], Bounded(item, 0)), ids, longer)
  {
    PutAt(stored, ids[at], Bounded(item, 0), at);
    var updated := Put(stored, ids[at], Bounded(item, 0));
    forall i | 0 <= i < |ids| ensures updated[i] == (ids[i], Bounded(LastOf(longer, ids[i]), 0)) {
      assert i != at ==> ids[i] != ids[at];
    }
  }

  lemma {:induction false} MatchUntouched(stored: seq<(string, Json)>, ids: seq<string>, id: string,
                                          announced: seq<(string, Json)>, longer: seq<(string, Json)>)
    requires Matches(stored, ids, announced) && id !in ids
    requires forall q | q != id :: LastOf(longer, q) == LastOf(announced, q)
    ensures Matches(stored, ids, longer)
  {
    forall i | 0 <= i < |ids| ensures stored[i] == (ids[i], Bounded(LastOf(longer, ids[i]), 0)) {
      assert ids[i] in ids;
    }
  }

  lemma {:induction false} MatchExtended(stored: seq<(string, Json)>, ids: seq<string>, id: string,
                                         longer: seq<(string, Json)>, item: Json)
    requires Matches(stored, ids, longer) && id !in Keys(stored) && LastOf(longer, id) == item
    ensures Matches(Put(stored, id, Bounded(item, 0)), ids + [id], longer)
  {
    PutPlaces(stored, id, Bounded(item, 0));
  }

  lemma {:induction false} MatchKeys(stored: seq<(string, Json)>, ids: seq<string>, announced: seq<(string, Json)>,
                                     id: string)
    requires Matches(stored, ids, announced)
    ensures id in Keys(stored) <==> id in ids
  {
    KeysAt(stored, id);
    if id in ids {
      var i :| 0 <= i < |ids| && ids[i] == id;
      assert stored[i].0 == id;
    }
    if id in Keys(stored) {
      var i :| 0 <= i < |stored| && stored[i].0 == id;
      assert ids[i] == id;
    }
  }

  lemma {:induction false} AddMatches(stored: seq<(string, Json)>, announced: seq<(string, Json)>, id: string, item: Json)
    requires Matches(stored, First256(FirstSeen(announced)), announced)
    ensures var longer := announced + [(id, item)];
            Matches(Add(stored, id, item), First256(FirstSeen(longer)), longer)
  {
    OneMore(announced, id, item);
    FirstSeenDistinct(announced);
    var longer, all := announced + [(id, item)], FirstSeen(announced);
    var ids := First256(all);
    MatchKeys(stored, ids, announced, id);
    if id in ids {
      assert id in all;
      var at :| 0 <= at < |ids| && ids[at] == id;
      MatchUpdated(stored, ids, at, announced, longer, item);
    } else {
      MatchUntouched(stored, ids, id, announced, longer);
      if |stored| < MAX_ITEMS {
        assert ids == all;
        MatchExtended(stored, ids, id, longer, item);
      } else {
        assert First256(FirstSeen(longer)) == ids;
      }
    }
  }

  /** One more announcement does to the stored items what it does to the replay. */
  lemma {:induction false} AddReplays(announced: seq<(string, Json)>, id: string, item: Json)
    ensures Add(Replay(announced), id, item) == Replay(announced + [(id, item)])
  {
    ReplayMatches(announced);
    AddMatches(Replay(announced), announced, id, item);
    MatchIsReplay(Add(Replay(announced), id, item), announced + [(id, item)]);
  }

  lemma {:induction false} ReplayOfNothing()
    ensures Replay([]) == []
  {
  }

  ghost predicate Replays(log: seq<Event>, key: Key) {
    Get(TableOf(log), key) == Some(Turn(Replay(Since(log, key)), FinishedSince(log, key)))
  }

  lemma {:induction false} KeysUnique(turns: Table)
    requires Distinct(turns)
    ensures Distinct(Trim(turns)) && forall k | k in Keys(Trim(turns)) :: Get(Trim(turns), k) == Get(turns, k)
  {
    if |turns| > MAX_TURNS {
      var cut := |turns| - MAX_TURNS;
      var dropped, kept := turns[..cut], turns[cut..];
      assert turns == dropped + kept;
      DistinctConcat(dropped, kept);
      forall k | k in Keys(kept) ensures Get(kept, k) == Get(turns, k) {
        GetConcat(dropped, kept, k);
      }
    }
  }

  lemma {:induction false} TableDistinct(log: seq<Event>)
    ensures Distinct(TableOf(log))
  {
    if log != [] {
      TableDistinct(Initial(log));
      var before := TableOf(Initial(log));
      match Latest(log) {
        case Started(key) =>
          PutDistinct(before, key, Turn([], false));
          KeysUnique(Put(before, key, Turn([], false)));
        case Completed(key) =>
          if key in Keys(before) {
            PutDistinct(before, key, Get(before, key).value.(completed := true));
          }
        case Announced(key, id, item) =>
          if key in Keys(before) {
            var live := Get(before, key).value;
            PutDistinct(before, key, live.(items := Add(live.items, id, item)));
          }
        case Ignored =>
      }
    }
  }

  lemma {:induction false} StartKeeps(log: seq<Event>, started: Key, key: Key)
    requires log != [] && Latest(log) == Started(started) && key in Keys(TableOf(log))
    requires key in Keys(TableOf(Initial(log))) ==> Replays(Initial(log), key)
    ensures Replays(log, key)
  {
    var before := TableOf(Initial(log));
    TableDistinct(Initial(log));
    PutDistinct(before, started, Turn([], false));
    KeysUnique(Put(before, started, Turn([], false)));
    GetPut(before, started, Turn([], false), key);
    ReplayOfNothing();
  }

  /** What a turn's entry becomes when the turn, or another one, is completed. */
  lemma {:induction false} GetAfterCompleted(turns: Table, k: Key, key: Key)
    requires key in Keys(turns)
    ensures key in Keys(After(turns, Completed(k)))
    ensures var live := Get(turns, key).value;
            Get(After(turns, Completed(k)), key) == Some(if k == key then live.(completed := true) else live)
  {
    if k in Keys(turns) {
      GetPut(turns, k, Get(turns, k).value.(completed := true), key);
    }
  }

  lemma {:induction false} GetAfterAnnounced(turns: Table, k: Key, id: string, item: Json, key: Key)
    requires key in Keys(turns)
    ensures key in Keys(After(turns, Announced(k, id, item)))
    ensures var live := Get(turns, key).value;
            Get(After(turns, Announced(k, id, item)), key)
            == Some(if k == key then live.(items := Add(live.items, id, item)) else live)
  {
    if k in Keys(turns) {
      var live := Get(turns, k).value;
      GetPut(turns, k, live.(items := Add(live.items, id, item)), key);
    }
  }

  lemma {:induction false} CompletedKeeps(log: seq<Event>, k: Key, key: Key)
    requires log != [] && Latest(log) == Completed(k)
    requires key in Keys(TableOf(Initial(log))) && Replays(Initial(log), key)
    ensures Replays(log, key)
  {
    GetAfterCompleted(TableOf(Initial(log)), k, key);
  }

  lemma {:induction false} AnnouncedKeeps(log: seq<Event>, k: Key, id: string, item: Json, key: Key)
    requires log != [] && Latest(log) == Announced(k, id, item)
    requires key in Keys(TableOf(Initial(log))) && Replays(Initial(log), key)
    ensures Replays(log, key)
  {
    GetAfterAnnounced(TableOf(Initial(log)), k, id, item, key);
    if k == key {
      AddReplays(Since(Initial(log), key), id, item);
    }
  }

  /** Only a start enters a turn. */
  lemma {:induction false} HeldBefore(turns: Table, event: Event, key: Key)
    requires !event.Started? && key in Keys(After(turns, event))
    ensures key in Keys(turns)
  {
  }

  /**
   Main result: the stored items of every held turn are the replay of the notification log since the
   turn last started: the first 256 distinct identifiers in the order they were first announced, each
   with the bounded copy of its last value.
   */
  lemma {:induction false} ItemsAreReplay(log: seq<Event>, key: Key)
    requires key in Keys(TableOf(log))
    ensures Replays(log, key)
  {
    if log != [] {
      var past := Initial(log);
      if key in Keys(TableOf(past)) {
        ItemsAreReplay(past, key);
      }
      if Latest(log).Started? {
        StartKeeps(log, Latest(log).key, key);
      } else {
        HeldBefore(TableOf(past), Latest(log), key);
        match Latest(log) {
          case Completed(k) => CompletedKeeps(log, k, key);
          case Announced(k, id, item) => AnnouncedKeeps(log, k, id, item, key);
          case Ignored =>
        }
      }
    }
  }

  lemma {:induction false} OneMoreStart(log: seq<Event>, key: Key)
    ensures Entered(log + [Started(key)])
         == if key in Recent(Entered(log)) then Entered(log) else Entered(log) + [key]
  {
    assert Initial(log + [Started(key)]) == log;
  }

  /** No turn is held twice. */
  lemma {:induction false} HeldOnce(log: seq<Event>, oldest: Key)
    requires Recent(Entered(log)) != [] && Recent(Entered(log))[0] == oldest
    ensures oldest !in Recent(Entered(log))[1..]
  {
    HoldsTheLastEntered(log);
    TableDistinct(log);
    InOrder(TableOf(log)[1..], oldest);
    assert Order(TableOf(log)[1..]) == Recent(Entered(log))[1..];
  }

  lemma {:induction false} RecentShifts(entered: seq<Key>, newcomer: Key)
    requires |Recent(entered)| == MAX_TURNS
    ensures Recent(entered + [newcomer]) == Recent(entered)[1..] + [newcomer]
  {
  }

  lemma {:induction false} EnteredAfter(log: seq<Event>, oldest: Key, newcomer: Key)
    requires oldest in Recent(Entered(log)) && newcomer !in Recent(Entered(log))
    ensures Entered(log + [Started(oldest)] + [Started(newcomer)]) == Entered(log) + [newcomer]
  {
    OneMoreStart(log, oldest);
    OneMoreStart(log + [Started(oldest)], newcomer);
  }

  /** A restart is no refresh: the oldest of sixteen turns leaves with the next new turn even if it just restarted. */
  lemma {:induction false} RestartIsNoRefresh(log: seq<Event>, oldest: Key, newcomer: Key)
    requires |Recent(Entered(log))| == MAX_TURNS && Recent(Entered(log))[0] == oldest
    requires newcomer !in Recent(Entered(log))
    ensures oldest !in Keys(TableOf(log + [Started(oldest)] + [Started(newcomer)]))
  {
    var run := log + [Started(oldest)] + [Started(newcomer)];
    EnteredAfter(log, oldest, newcomer);
    RecentShifts(Entered(log), newcomer);
    HeldOnce(log, oldest);
    HoldsTheLastEntered(run);
    InOrder(TableOf(run), oldest);
  }

  // ---------- what a reader of the thread sees ----------

  function Values(items: seq<(string, Json)>): (r: seq<Json>)
    ensures |r| == |items| && forall i | 0 <= i < |r| :: r[i] == items[i].1
  {
    seq(|items|, i requires 0 <= i < |items| => items[i].1)
  }

  /** The stored items replace a turn's own only if the record is complete. */
  function Overlaid(turns: Table, thread: string, turn: Json): Json {
    if !turn.Obj? || Text(turn.fields, "id").None? then turn
    else
      var live := Get(turns, (thread, Text(turn.fields, "id").value));
      if live.None? || live.value.items == [] then turn
      else if Get(turn.fields, "status") != Some(Str("inProgress")) && !live.value.completed then turn
      else Obj(Put(turn.fields, "items", Arr(Values(live.value.items))))
  }

  ghost predicate Shown(log: seq<Event>, key: Key, running: bool) {
    && key in Recent(Entered(log)) && Since(log, key) != []
    && (running || FinishedSince(log, key))
  }

  lemma {:induction false} SomethingSeen(announced: seq<(string, Json)>)
    ensures FirstSeen(announced) == [] <==> announced == []
  {
  }

  /**
   Main result: reading a turn shows the replayed items exactly when the turn is held, something was
   announced since it started, and it still runs or its end was seen; every other field stays.
   */
  lemma {:induction false} OverlaidExactly(log: seq<Event>, thread: string, fields: seq<(string, Json)>, id: string,
                                           name: string)
    requires Get(fields, "id") == Some(Str(id))
    ensures var after := Overlaid(TableOf(log), thread, Obj(fields));
            && after.Obj?
            && Get(after.fields, name)
               == if name == "items" && Shown(log, (thread, id), Get(fields, "status") == Some(Str("inProgress")))
                  then Some(Arr(Values(Replay(Since(log, (thread, id))))))
                  else Get(fields, name)
  {
    var key := (thread, id);
    HoldsTheLastEntered(log);
    InOrder(TableOf(log), key);
    if key in Keys(TableOf(log)) {
      ItemsAreReplay(log, key);
      SomethingSeen(Since(log, key));
      GetPut(fields, "items", Arr(Values(Replay(Since(log, key)))), name);
    }
  }

  /** A turn without a string for its identifier is shown as it is. */
  lemma {:induction false} UnnamedStays(turns: Table, thread: string, turn: Json)
    requires turn.Obj? ==> Get(turn.fields, "id").None? || !Get(turn.fields, "id").value.Str?
    ensures Overlaid(turns, thread, turn) == turn
  {
  }

  lemma {:induction false} TrimRest(turns: Table)
    requires |turns| > MAX_TURNS
    ensures Trim(turns[1..]) == Trim(turns)
  {
    DropDrop(turns, 1, |turns| - 1 - MAX_TURNS);
    Whole(turns[1..]);
  }

  lemma {:induction false} TableGrows(log: seq<Event>, event: Event)
    ensures TableOf(log + [event]) == After(TableOf(log), event)
  {
    Snoc(log, event);
  }

  class LiveTurnItems {
    var turns: Table
    ghost var log: seq<Event>   // what was observed so far

    ghost predicate Valid()
      reads this
    {
      turns == TableOf(log)
    }

    constructor ()
      ensures Valid() && log == []
    {
      turns, log := [], [];
    }

    method Observe(message: seq<(string, Json)>)
      requires Valid()
      modifies this
      ensures Valid() && log == old(log) + [Recognize(message)]
    {
      var event := Recognize(message);
      TableGrows(log, event);
      match event {
        case Started(key) => Start(key);
        case Completed(key) => Complete(key);
        case Announced(key, id, item) => Announce(key, id, item);
        case Ignored =>
      }
      log := log + [event];
    }

    method Start(key: Key)
      modifies `turns
      ensures turns == After(old(turns), Started(key))
    {
      turns := Put(turns, key, Turn([], false));
      while |turns| > MAX_TURNS
        invariant Trim(turns) == After(old(turns), Started(key))
      {
        TrimRest(turns);
        turns := turns[1..];
      }
    }

    method Complete(key: Key)
      modifies `turns
      ensures turns == After(old(turns), Completed(key))
    {
      var live := Get(turns, key);
      if live.Some? {
        turns := Put(turns, key, live.value.(completed := true));
      }
    }

    method Announce(key: Key, id: string, item: Json)
      modifies `turns
      ensures turns == After(old(turns), Announced(key, id, item))
    {
      var live := Get(turns, key);
      if live.Some? {
        if id in Keys(live.value.items) || |live.value.items| < MAX_ITEMS {
          turns := Put(turns, key, live.value.(items := Put(live.value.items, id, Bounded(item, 0))));
        } else {
          PutSame(turns, key, live.value);
        }
      }
    }

    /** The thread with its turns overlaid one by one. */
    method Apply(threadId: string, thread: seq<(string, Json)>) returns (shown: seq<(string, Json)>)
      requires Valid()
      ensures Get(thread, "turns").None? || !Get(thread, "turns").value.Arr? ==> shown == thread
      ensures Get(thread, "turns").Some? && Get(thread, "turns").value.Arr? ==>
              exists after :: shown == Put(thread, "turns", Arr(after)) && OverlaidAll(after, threadId, Get(thread, "turns").value.items)
    {
      var field := Get(thread, "turns");
      if field.None? || !field.value.Arr? {
        return thread;
      }
      var listed, after, i := field.value.items, [], 0;
      while i < |listed|
        invariant 0 <= i <= |listed| && OverlaidAll(after, threadId, listed[..i])
      {
        after := after + [Overlaid(turns, threadId, listed[i])];
        i := i + 1;
      }
      Whole(listed);
      shown := Put(thread, "turns", Arr(after));
    }

    ghost predicate OverlaidAll(after: seq<Json>, threadId: string, before: seq<Json>)
      reads this
    {
      && |after| == |before|
      && forall i | 0 <= i < |before| :: after[i] == Overlaid(turns, threadId, before[i])
    }
  }
}
