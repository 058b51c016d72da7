/**
 Decoded JSON, and the bounded copy the controller keeps of a live item: long strings keep their tail,
 lists and objects their first 64 members, and below depth 8 only strings are left.
 */
module JsonValues {
  import opened Wrappers

  const MAX_STRING_CHARS: nat := 65536
  const MAX_MEMBERS: nat := 64
  const MAX_DEPTH: nat := 8

  datatype Json =
    | Null
    | Bool(b: bool)
    | Number(n: real)
    | Str(s: string)
    | Arr(items: seq<Json>)
    | Obj(fields: seq<(string, Json)>)   // in insertion order

  function Clip(s: string): (r: string)
    ensures |r| <= MAX_STRING_CHARS && (r == s <==> |s| <= MAX_STRING_CHARS)
    ensures |s| > MAX_STRING_CHARS ==> |r| == 65536 && r[0] == '\U{2026}' && r[1..] == s[|s| - 65535..]
  {
    if |s| <= MAX_STRING_CHARS then s else "\U{2026}" + s[|s| - (MAX_STRING_CHARS - 1)..]
  }

  function Fitting(n: nat): (r: nat)
    ensures r <= n && r <= MAX_MEMBERS && (r == n || r == MAX_MEMBERS)
  {
    if n <= MAX_MEMBERS then n else MAX_MEMBERS
  }

  function Bounded(v: Json, depth: nat): Json
    decreases v
  {
    match v
    case Str(s) => Str(Clip(s))
    case Arr(items) =>
      if depth >= MAX_DEPTH then Null
      else Arr(seq(Fitting(|items|), i requires 0 <= i < |items| => Bounded(items[i], depth + 1)))
    case Obj(fields) =>
      if depth >= MAX_DEPTH then Null
      else Obj(seq(Fitting(|fields|), i requires 0 <= i < |fields| => (fields[i].0, Bounded(fields[i].1, depth + 1))))
    case _ => if depth >= MAX_DEPTH then Null else v
  }

  /** The values small enough to be stored as they are, starting at `depth`. */
  ghost predicate Within(v: Json, depth: nat)
    decreases v
  {
    match v
    case Null => true
    case Str(s) => |s| <= MAX_STRING_CHARS
    case Arr(items) =>
      && depth < MAX_DEPTH && |items| <= MAX_MEMBERS
      && forall i | 0 <= i < |items| :: Within(items[i], depth + 1)
    case Obj(fields) =>
      && depth < MAX_DEPTH && |fields| <= MAX_MEMBERS
      && forall i | 0 <= i < |fields| :: Within(fields[i].1, depth + 1)
    case _ => depth < MAX_DEPTH
  }

  lemma {:induction false} BoundedWithin(v: Json, depth: nat)
    ensures Within(Bounded(v, depth), depth)
    decreases v
  {
    if depth < MAX_DEPTH {
      match v {
        case Arr(items) =>
          forall i | 0 <= i < Fitting(|items|) ensures Within(Bounded(items[i], depth + 1), depth + 1) {
            BoundedWithin(items[i], depth + 1);
          }
        case Obj(fields) =>
          forall i | 0 <= i < Fitting(|fields|) ensures Within(Bounded(fields[i].1, depth + 1), depth + 1) {
            BoundedWithin(fields[i].1, depth + 1);
          }
        case _ =>
      }
    }
  }

  /** Bounding leaves a value as it is exactly when the value already keeps every limit. */
  lemma {:induction false} BoundedFixes(v: Json, depth: nat)
    ensures Bounded(v, depth) == v <==> Within(v, depth)
    decreases v
  {
    BoundedWithin(v, depth);
    if Within(v, depth) {
      match v {
        case Arr(items) =>
          forall i | 0 <= i < |items| ensures Bounded(items[i], depth + 1) == items[i] {
            BoundedFixes(items[i], depth + 1);
          }
          assert Bounded(v, depth).items == items;
        case Obj(fields) =>
          forall i | 0 <= i < |fields| ensures Bounded(fields[i].1, depth + 1) == fields[i].1 {
            BoundedFixes(fields[i].1, depth + 1);
          }
          assert Bounded(v, depth).fields == fields;
        case _ =>
      }
    }
  }

  lemma {:induction false} BoundedTwice(v: Json, depth: nat)
    ensures Bounded(Bounded(v, depth), depth) == Bounded(v, depth)
  {
    BoundedWithin(v, depth);
    BoundedFixes(Bounded(v, depth), depth);
  }

  /** Below depth 8 everything but a string is forgotten; a long string keeps its end at every depth. */
  lemma {:induction false} DeepForgotten(v: Json, depth: nat)
    ensures depth >= 8 && !v.Str? ==> Bounded(v, depth) == Null
    ensures v.Str? && |v.s| <= 65536 ==> Bounded(v, depth) == v
    ensures v.Str? && |v.s| > 65536 ==> Bounded(v, depth) == Str("\U{2026}" + v.s[|v.s| - 65535..])
  {
  }

  // ---------- what survives, path by path ----------

  /** A value inside another, with the keys of the objects passed on the way. */
  datatype Place = Place(keys: seq<string>, value: Json)

  function Under(key: string, p: Option<Place>): Option<Place> {
    if p.None? then None else Some(Place([key] + p.value.keys, p.value.value))
  }

  /** What is reached by going to the given member at each level. */
  function At(v: Json, path: seq<nat>): Option<Place> {
    if path == [] then Some(Place([], v))
    else
      match v
      case Arr(items) => if path[0] < |items| then At(items[path[0]], path[1..]) else None
      case Obj(fields) =>
        if path[0] < |fields| then Under(fields[path[0]].0, At(fields[path[0]].1, path[1..])) else None
      case _ => None
  }

  ghost predicate Kept(path: seq<nat>, depth: nat) {
    path == [] || (depth + |path| <= MAX_DEPTH && forall k | 0 <= k < |path| :: path[k] < MAX_MEMBERS)
  }

  lemma {:induction false} KeptFurther(path: seq<nat>, depth: nat)
    requires path != [] && depth < MAX_DEPTH
    ensures Kept(path, depth) <==> path[0] < MAX_MEMBERS && Kept(path[1..], depth + 1)
  {
    var rest := path[1..];
    assert forall k | 0 <= k < |rest| :: rest[k] == path[k + 1];
    assert path[0] < MAX_MEMBERS && Kept(rest, depth + 1) ==>
        forall k | 0 <= k < |path| :: path[k] == (if k == 0 then path[0] else rest[k - 1]);
  }

  /** The copy a place should hold: under the same keys, the bounded original. */
  function Copied(p: Option<Place>, kept: bool, depth: nat): Option<Place> {
    if p.None? || !kept then None else Some(Place(p.value.keys, Bounded(p.value.value, depth)))
  }

  /**
   The copy holds, under the same keys, the bounded original along every short path of early members, and
   nothing else.
   */
  lemma {:induction false} BoundedAt(v: Json, depth: nat, path: seq<nat>)
    ensures At(Bounded(v, depth), path) == Copied(At(v, path), Kept(path, depth), depth + |path|)
  {
    if path != [] && depth < MAX_DEPTH {
      KeptFurther(path, depth);
      match v {
        case Arr(items) =>
          if path[0] < |items| {
            BoundedAt(items[path[0]], depth + 1, path[1..]);
          }
        case Obj(fields) =>
          if path[0] < |fields| {
            BoundedAt(fields[path[0]].1, depth + 1, path[1..]);
          }
        case _ =>
      }
    }
  }
}
