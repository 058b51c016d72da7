/** Python's insertion-ordered dictionary: a sequence of pairs with distinct keys. */
module OrderedDicts {
  import opened Wrappers

  function Keys<K, V>(d: seq<(K, V)>): set<K> {
    if d == [] then {} else {d[0].0} + Keys(d[1..])
  }

  ghost predicate Distinct<K, V>(d: seq<(K, V)>) {
    d == [] || (d[0].0 !in Keys(d[1..]) && Distinct(d[1..]))
  }

  function Get<K(==), V>(d: seq<(K, V)>, k: K): (v: Option<V>)
    ensures v.Some? <==> k in Keys(d)
  {
    if d == [] then None
    else if d[0].0 == k then Some(d[0].1)
    else Get(d[1..], k)
  }

  /** `d[k] = v`: an existing key keeps its place, a new one goes last. */
  function Put<K(==), V>(d: seq<(K, V)>, k: K, v: V): (r: seq<(K, V)>)
    ensures Keys(r) == Keys(d) + {k}
    ensures |r| == if k in Keys(d) then |d| else |d| + 1
  {
    if d == [] then [(k, v)]
    else if d[0].0 == k then [(k, v)] + d[1..]
    else [d[0]] + Put(d[1..], k, v)
  }

  /** `d.pop(k, None)`. */
  function Remove<K(==), V>(d: seq<(K, V)>, k: K): (r: seq<(K, V)>)
    ensures Keys(r) <= Keys(d) <= Keys(r) + {k}
    ensures |r| == if k in Keys(d) then |d| - 1 else |d|
    ensures k !in Keys(d) ==> r == d
  {
    if d == [] then []
    else if d[0].0 == k then d[1..]
    else [d[0]] + Remove(d[1..], k)
  }

  /** The entries behind the one with key `k`. */
  function Behind<K(==), V>(d: seq<(K, V)>, k: K): seq<(K, V)> {
    if d == [] then []
    else if d[0].0 == k then d[1..]
    else Behind(d[1..], k)
  }

  lemma {:induction false} KeysConcat<K, V>(a: seq<(K, V)>, b: seq<(K, V)>)
    ensures Keys(a + b) == Keys(a) + Keys(b)
  {
    if a == [] {
      assert a + b == b;
    } else {
      KeysConcat(a[1..], b);
      assert (a + b)[1..] == a[1..] + b;
    }
  }

  lemma {:induction false} DistinctConcat<K, V>(a: seq<(K, V)>, b: seq<(K, V)>)
    ensures Distinct(a + b) <==> Distinct(a) && Distinct(b) && Keys(a) !! Keys(b)
  {
    if a == [] {
      assert a + b == b;
    } else {
      DistinctConcat(a[1..], b);
      KeysConcat(a[1..], b);
      assert (a + b)[1..] == a[1..] + b;
    }
  }

  lemma {:induction false} KeysCount<K, V>(d: seq<(K, V)>)
    requires Distinct(d)
    ensures |Keys(d)| == |d|
  {
    if d != [] {
      KeysCount(d[1..]);
    }
  }

  lemma {:induction false} PutDistinct<K, V>(d: seq<(K, V)>, k: K, v: V)
    requires Distinct(d)
    ensures Distinct(Put(d, k, v))
  {
    if d != [] && d[0].0 != k {
      PutDistinct(d[1..], k, v);
    }
  }

  lemma {:induction false} RemoveDistinct<K, V>(d: seq<(K, V)>, k: K)
    requires Distinct(d)
    ensures Distinct(Remove(d, k)) && Keys(Remove(d, k)) == Keys(d) - {k}
  {
    if d != [] && d[0].0 != k {
      RemoveDistinct(d[1..], k);
    }
  }

  /** Looking up after an update: the new value at `k`, the old ones elsewhere. */
  lemma {:induction false} GetPut<K, V>(d: seq<(K, V)>, k: K, v: V, q: K)
    ensures Get(Put(d, k, v), q) == if q == k then Some(v) else Get(d, q)
  {
    if d != [] && d[0].0 != k {
      GetPut(d[1..], k, v, q);
    }
  }

  /** Looking up after a removal, in a dictionary. */
  lemma {:induction false} GetRemove<K, V>(d: seq<(K, V)>, k: K, q: K)
    requires Distinct(d)
    ensures Get(Remove(d, k), q) == if q == k then None else Get(d, q)
  {
    if d != [] && d[0].0 != k {
      GetRemove(d[1..], k, q);
    }
  }

  lemma {:induction false} GetConcat<K, V>(a: seq<(K, V)>, b: seq<(K, V)>, k: K)
    ensures Get(a + b, k) == if k in Keys(a) then Get(a, k) else Get(b, k)
  {
    if a == [] {
      assert a + b == b;
    } else {
      GetConcat(a[1..], b, k);
      assert (a + b)[1..] == a[1..] + b;
    }
  }

  lemma {:induction false} RemoveFromFront<K, V>(a: seq<(K, V)>, b: seq<(K, V)>, k: K)
    requires k in Keys(a)
    ensures Remove(a + b, k) == Remove(a, k) + b
  {
    assert (a + b)[1..] == a[1..] + b && (a + b)[0] == a[0];
    if a[0].0 != k {
      RemoveFromFront(a[1..], b, k);
      assert [a[0]] + (Remove(a[1..], k) + b) == ([a[0]] + Remove(a[1..], k)) + b;
    }
  }

  lemma {:induction false} RemoveFromBack<K, V>(a: seq<(K, V)>, b: seq<(K, V)>, k: K)
    requires k !in Keys(a)
    ensures Remove(a + b, k) == a + Remove(b, k)
  {
    if a == [] {
      assert a + b == b;
    } else {
      assert (a + b)[1..] == a[1..] + b && (a + b)[0] == a[0];
      RemoveFromBack(a[1..], b, k);
      assert [a[0]] + (a[1..] + Remove(b, k)) == a + Remove(b, k);
    }
  }

  lemma {:induction false} BehindConcat<K, V>(a: seq<(K, V)>, b: seq<(K, V)>, k: K)
    ensures Behind(a + b, k) == if k in Keys(a) then Behind(a, k) + b else Behind(b, k)
  {
    if a == [] {
      assert a + b == b;
    } else {
      BehindConcat(a[1..], b, k);
      assert (a + b)[1..] == a[1..] + b;
    }
  }

  /** Removing another key commutes with looking behind `k`. */
  lemma {:induction false} BehindRemove<K, V>(d: seq<(K, V)>, gone: K, k: K)
    requires Distinct(d) && gone != k
    ensures Behind(Remove(d, gone), k) == if k in Keys(d) then Remove(Behind(d, k), gone) else []
  {
    if d != [] {
      if d[0].0 == gone {
        BehindWithout(d[1..], k, gone);
      } else if d[0].0 != k {
        BehindRemove(d[1..], gone, k);
        assert Remove(d, gone)[1..] == Remove(d[1..], gone);
      } else {
        assert Remove(d, gone)[1..] == Remove(d[1..], gone);
      }
    }
  }

  lemma {:induction false} BehindWithout<K, V>(d: seq<(K, V)>, k: K, gone: K)
    requires gone !in Keys(d)
    ensures gone !in Keys(Behind(d, k)) && Remove(Behind(d, k), gone) == Behind(d, k)
    ensures k !in Keys(d) ==> Behind(d, k) == []
  {
    if d != [] && d[0].0 != k {
      BehindWithout(d[1..], k, gone);
    }
  }

  lemma {:induction false} BehindDistinct<K, V>(d: seq<(K, V)>, k: K)
    requires Distinct(d)
    ensures Distinct(Behind(d, k)) && Keys(Behind(d, k)) <= Keys(d)
  {
    if d != [] && d[0].0 != k {
      BehindDistinct(d[1..], k);
    }
  }

  // ---------- by position ----------

  lemma {:induction false} KeysAt<K, V>(d: seq<(K, V)>, k: K)
    ensures k in Keys(d) <==> exists i :: 0 <= i < |d| && d[i].0 == k
  {
    if d != [] {
      KeysAt(d[1..], k);
      assert forall i | 0 <= i < |d[1..]| :: d[1..][i] == d[i + 1];
      if i :| 0 <= i < |d| && d[i].0 == k {
        assert i == 0 || d[1..][i - 1].0 == k;
      }
    }
  }

  /** An update keeps every place, and a new key goes last. */
  lemma {:induction false} PutPlaces<K, V>(d: seq<(K, V)>, k: K, v: V)
    ensures forall i | 0 <= i < |d| :: Put(d, k, v)[i].0 == d[i].0
    ensures k !in Keys(d) ==> Put(d, k, v) == d + [(k, v)]
  {
    if d != [] && d[0].0 != k {
      PutPlaces(d[1..], k, v);
      assert k !in Keys(d) ==> [d[0]] + (d[1..] + [(k, v)]) == d + [(k, v)];
    }
  }

  /** Updating an existing key changes only its own place. */
  lemma {:induction false} PutAt<K, V>(d: seq<(K, V)>, k: K, v: V, at: nat)
    requires at < |d| && d[at].0 == k && forall i | 0 <= i < at :: d[i].0 != k
    ensures var r := Put(d, k, v);
            |r| == |d| && forall i | 0 <= i < |d| :: r[i] == (if i == at then (k, v) else d[i])
  {
    if at > 0 {
      var rest := d[1..];
      assert forall i | 0 <= i < |rest| :: rest[i] == d[i + 1];
      PutAt(rest, k, v, at - 1);
      assert d[0].0 != k;
      var r := Put(rest, k, v);
      assert Put(d, k, v) == [d[0]] + r;
    }
  }

  lemma {:induction false} PutSame<K, V>(d: seq<(K, V)>, k: K, v: V)
    requires Get(d, k) == Some(v)
    ensures Put(d, k, v) == d
  {
    if d[0].0 != k {
      PutSame(d[1..], k, v);
    }
  }

  /** Looking up a dictionary finds exactly its pairs. */
  lemma {:induction false} GetExactly<K, V>(d: seq<(K, V)>, k: K, v: V)
    requires Distinct(d)
    ensures Get(d, k) == Some(v) <==> (k, v) in d
  {
    if d != [] {
      GetExactly(d[1..], k, v);
      KeysAt(d[1..], k);
      assert d == [d[0]] + d[1..];
      assert d[0].0 == k ==> d[0] == (k, d[0].1);
    }
  }
}
