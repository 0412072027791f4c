/**
  The JavaScript `Map` that the relay uses for trackers, limiter buckets and replay memory:
  a finite map whose keys are enumerated in insertion order.

  `Set` on a present key keeps the old position; `Touch` is the delete-then-set idiom, which
  moves the key to the young end; `EvictTo` is the loop that deletes the first key until the
  size is within a cap.
*/
module OrderedMap {
  import opened Basics

  datatype RawMap<K(==,!new), V> = RawMap(order: seq<K>, data: map<K, V>) {
    ghost predicate Valid() {
      && Distinct(order)
      && data.Keys == Elements(order)
    }

    function Get(k: K): Option<V> {
      if k in data then Some(data[k]) else None
    }
  }

  type OMap<K(==,!new), V> = m: RawMap<K, V> | m.Valid() witness RawMap([], map[])

  ghost predicate Distinct<K>(s: seq<K>) {
    forall i, j :: 0 <= i < j < |s| ==> s[i] != s[j]
  }

  function Elements<K>(s: seq<K>): (r: set<K>) {
    set k | k in s
  }

  lemma DistinctCons<K>(x: K, r: seq<K>)
    ensures Distinct([x] + r) <==> Distinct(r) && x !in r
  {
    var s := [x] + r;
    assert forall i :: 0 <= i < |r| ==> s[i + 1] == r[i];
    if x in r {
      var i :| 0 <= i < |r| && r[i] == x;
      assert s[0] == s[i + 1] && !Distinct(s);
    }
    if Distinct(s) {
      forall i, j | 0 <= i < j < |r| ensures r[i] != r[j] {
        assert s[i + 1] == r[i] && s[j + 1] == r[j];
      }
    }
  }

  function Empty<K(!new), V>(): OMap<K, V> {
    RawMap([], map[])
  }

  // ----- sequences without one key -----

  function Without<K(==,!new)>(s: seq<K>, k: K): (r: seq<K>)
    ensures forall x :: x in r <==> x in s && x != k
    ensures |r| <= |s|
  {
    if s == [] then [] else if s[0] == k then Without(s[1..], k) else [s[0]] + Without(s[1..], k)
  }

  lemma {:induction false} WithoutDistinct<K(!new)>(s: seq<K>, k: K)
    requires Distinct(s)
    ensures Distinct(Without(s, k))
    ensures k !in s ==> Without(s, k) == s
    ensures k in s ==> |Without(s, k)| == |s| - 1
  {
    if s != [] {
      WithoutDistinct(s[1..], k);
      assert s == [s[0]] + s[1..];
      DistinctCons(s[0], s[1..]);
      DistinctCons(s[0], Without(s[1..], k));
    }
  }

  lemma NothingWithout<K(!new)>(k: K)
    ensures Without([], k) == []
  {
  }

  lemma WithoutCons<K(!new)>(s: seq<K>, k: K)
    requires s != []
    ensures Without(s, k) == (if s[0] == k then [] else [s[0]]) + Without(s[1..], k)
  {
  }

  lemma {:induction false} WithoutSplit<K(!new)>(a: seq<K>, b: seq<K>, k: K)
    ensures Without(a + b, k) == Without(a, k) + Without(b, k)
  {
    hide Without;
    if a == [] {
      assert a + b == b;
      NothingWithout(k);
    } else {
      WithoutSplit(a[1..], b, k);
      WithoutCons(a + b, k);
      WithoutCons(a, k);
      assert (a + b)[1..] == a[1..] + b;
    }
  }

  lemma {:induction false} DistinctCount<K(!new)>(s: seq<K>)
    requires Distinct(s)
    ensures |Elements(s)| == |s|
  {
    if s != [] {
      DistinctCount(s[1..]);
      assert s == [s[0]] + s[1..];
      assert Elements(s) == {s[0]} + Elements(s[1..]);
      assert s[0] !in s[1..];
    }
  }

  // ----- operations -----

  function Set<K(==,!new), V>(m: OMap<K, V>, k: K, v: V): (r: OMap<K, V>)
    ensures r.data == m.data[k := v]
  {
    var order := if k in m.data then m.order else m.order + [k];
    assert Elements(order) == m.data.Keys + {k};
    RawMap(order, m.data[k := v])
  }

  function Delete<K(==,!new), V>(m: OMap<K, V>, k: K): (r: OMap<K, V>)
    ensures r.data == m.data - {k}
  {
    WithoutDistinct(m.order, k);
    assert Elements(Without(m.order, k)) == Elements(m.order) - {k};
    RawMap(Without(m.order, k), m.data - {k})
  }

  /** `map.delete(k); map.set(k, v)`: the entry becomes the youngest. */
  function Touch<K(==,!new), V>(m: OMap<K, V>, k: K, v: V): (r: OMap<K, V>)
    ensures r.data == m.data[k := v]
    ensures r.order == Without(m.order, k) + [k]
  {
    Set(Delete(m, k), k, v)
  }

  /** `map.delete(map.keys().next().value)` */
  function DropOldest<K(==,!new), V>(m: OMap<K, V>): (r: OMap<K, V>)
    requires m.order != []
    ensures r.order == m.order[1..]
    ensures r.data == m.data - {m.order[0]}
  {
    assert m.order == [m.order[0]] + m.order[1..];
    RawMap(m.order[1..], m.data - {m.order[0]})
  }

  /** The eviction loop `while (map.size > cap) delete the first key`, as a function. */
  function EvictTo<K(==,!new), V>(m: OMap<K, V>, cap: nat): (r: OMap<K, V>)
    ensures r.order == if |m.order| <= cap then m.order else m.order[|m.order| - cap..]
    ensures forall k :: k in r.data ==> k in m.data && r.data[k] == m.data[k]
    decreases |m.order|
  {
    if |m.order| <= cap then m
    else
      var d := DropOldest(m);
      assert |d.order| == |m.order| - 1;
      EvictTo(d, cap)
  }

  /** The sweep loop `for (const [k, v] of map) if (!keep(v)) map.delete(k)`, as a function. */
  function Keep<K(==,!new), V>(m: OMap<K, V>, keep: V -> bool): (r: OMap<K, V>)
    ensures r.data == map k | k in m.data && keep(m.data[k]) :: m.data[k]
    ensures r.order == KeepOrder(m.order, m.data, keep)
  {
    KeepOrderFacts(m.order, m.data, keep);
    assert Elements(KeepOrder(m.order, m.data, keep)) == set k | k in m.data && keep(m.data[k]) by {
      assert forall k :: k in m.order <==> k in Elements(m.order);
    }
    RawMap(KeepOrder(m.order, m.data, keep), map k | k in m.data && keep(m.data[k]) :: m.data[k])
  }

  function KeepOrder<K(==,!new), V>(s: seq<K>, data: map<K, V>, keep: V -> bool): seq<K> {
    if s == [] then []
    else (if s[0] in data && keep(data[s[0]]) then [s[0]] else []) + KeepOrder(s[1..], data, keep)
  }

  lemma {:induction false} KeepOrderFacts<K(!new), V>(s: seq<K>, data: map<K, V>, keep: V -> bool)
    requires Distinct(s)
    ensures Distinct(KeepOrder(s, data, keep))
    ensures forall k :: k in KeepOrder(s, data, keep) <==> k in s && k in data && keep(data[k])
  {
    if s != [] {
      KeepOrderFacts(s[1..], data, keep);
      assert s == [s[0]] + s[1..];
      var r := KeepOrder(s[1..], data, keep);
      DistinctCons(s[0], s[1..]);
      DistinctCons(s[0], r);
    }
  }

  lemma {:induction false} KeepOrderSplit<K(!new), V>(a: seq<K>, b: seq<K>, data: map<K, V>, keep: V -> bool)
    ensures KeepOrder(a + b, data, keep) == KeepOrder(a, data, keep) + KeepOrder(b, data, keep)
  {
    if a == [] {
      assert a + b == b;
    } else {
      KeepOrderSplit(a[1..], b, data, keep);
      assert (a + b)[1..] == a[1..] + b && (a + b)[0] == a[0];
      var h := if a[0] in data && keep(data[a[0]]) then [a[0]] else [];
      assert h + (KeepOrder(a[1..], data, keep) + KeepOrder(b, data, keep))
          == (h + KeepOrder(a[1..], data, keep)) + KeepOrder(b, data, keep);
    }
  }

  // ----- recency: which keys are younger than a given one -----

  /** The keys enumerated after k. */
  function Younger<K(==,!new)>(s: seq<K>, k: K): (r: set<K>)
    ensures r <= Elements(s)
  {
    if s == [] then {} else if s[0] == k then Elements(s[1..]) else Younger(s[1..], k)
  }

  lemma {:induction false} YoungerAppend<K(!new)>(s: seq<K>, k: K, x: K)
    ensures Younger(s + [x], k) == if k in s then Younger(s, k) + {x} else {}
  {
    if s == [] {
    } else {
      assert (s + [x])[1..] == s[1..] + [x];
      YoungerAppend(s[1..], k, x);
    }
  }

  lemma {:induction false} YoungerWithout<K(!new)>(s: seq<K>, k: K, x: K)
    requires k != x
    ensures Younger(Without(s, x), k) == Younger(s, k) - {x}
  {
    if s != [] {
      YoungerWithout(s[1..], k, x);
      if s[0] != x {
        assert ([s[0]] + Without(s[1..], x))[1..] == Without(s[1..], x);
      }
    }
  }

  lemma YoungerCons<K(!new)>(x: K, r: seq<K>, k: K)
    ensures Younger([x] + r, k) == if x == k then Elements(r) else Younger(r, k)
  {
    assert ([x] + r)[1..] == r;
  }

  lemma {:induction false} YoungerKeep<K(!new), V>(s: seq<K>, data: map<K, V>, keep: V -> bool, k: K)
    requires k in s && Distinct(s) && k in data && keep(data[k])
    ensures Younger(KeepOrder(s, data, keep), k) <= Younger(s, k)
  {
    var r := KeepOrder(s[1..], data, keep);
    KeepOrderCons(s, data, keep);
    assert s == [s[0]] + s[1..];
    DistinctCons(s[0], s[1..]);
    KeepOrderFacts(s[1..], data, keep);
    assert Elements(r) <= Elements(s[1..]);
    YoungerCons(s[0], r, k);
    if s[0] != k {
      YoungerKeep(s[1..], data, keep, k);
    }
  }

  lemma KeepOrderCons<K(!new), V>(s: seq<K>, data: map<K, V>, keep: V -> bool)
    requires s != []
    ensures KeepOrder(s, data, keep) ==
            if s[0] in data && keep(data[s[0]]) then [s[0]] + KeepOrder(s[1..], data, keep) else KeepOrder(s[1..], data, keep)
  {
  }

  /** Touching x makes it the youngest, and it becomes younger than every other key. */
  lemma YoungerTouch<K(!new), V>(m: OMap<K, V>, x: K, v: V, k: K)
    requires k in m.data
    ensures Younger(Touch(m, x, v).order, k) == if k == x then {} else Younger(m.order, k) + {x}
  {
    var w := Without(m.order, x);
    YoungerAppend(w, k, x);
    assert k in Elements(m.order);
    assert k in Elements(w) <==> k != x;
    if k != x {
      YoungerWithout(m.order, k, x);
    }
  }

  /** A key with fewer than cap younger keys survives eviction down to cap, and only such a key does. */
  lemma {:induction false} EvictKeeps<K(!new), V>(m: OMap<K, V>, cap: nat, k: K)
    requires k in m.data
    ensures k in EvictTo(m, cap).data <==> |Younger(m.order, k)| < cap
    ensures k in EvictTo(m, cap).data ==> Younger(EvictTo(m, cap).order, k) == Younger(m.order, k)
    decreases |m.order|
  {
    assert k in Elements(m.order);
    if |m.order| <= cap {
      YoungerBound(m.order, k);
    } else {
      assert m.order == [m.order[0]] + m.order[1..];
      var d := DropOldest(m);
      if k == m.order[0] {
        DistinctCount(m.order[1..]);
        assert k !in EvictTo(d, cap).data;
      } else {
        EvictKeeps(d, cap, k);
      }
    }
  }

  lemma {:induction false} YoungerBound<K(!new)>(s: seq<K>, k: K)
    requires k in s && Distinct(s)
    ensures |Younger(s, k)| < |s|
  {
    assert s == [s[0]] + s[1..];
    if s[0] == k {
      DistinctCount(s[1..]);
    } else {
      YoungerBound(s[1..], k);
    }
  }

  /** Where keys stand depends on the keys alone. */
  lemma OrderIgnoresValues<K(!new), V, W>(a: OMap<K, V>, b: OMap<K, W>, cap: nat)
    requires a.order == b.order
    ensures EvictTo(a, cap).order == EvictTo(b, cap).order
    ensures |EvictTo(a, cap).order| <= cap
  {
    EvictOrder(a, cap);
    EvictOrder(b, cap);
  }

  lemma EvictOrder<K(!new), V>(m: OMap<K, V>, cap: nat)
    ensures EvictTo(m, cap).order == if |m.order| <= cap then m.order else m.order[|m.order| - cap..]
  {
  }

  // ----- the loops -----

  /** `while (m.size > cap) m.delete(m.keys().next().value)` */
  method Evict<K(==,!new), V>(m: OMap<K, V>, cap: nat) returns (r: OMap<K, V>)
    ensures r == EvictTo(m, cap)
  {
    r := m;
    while |r.order| > cap
      invariant EvictTo(r, cap) == EvictTo(m, cap)
      decreases |r.order|
    {
      r := DropOldest(r);
    }
  }

  /** `for (const [k, v] of m) if (!keep(v)) m.delete(k)` */
  method Sweep<K(==,!new), V>(m: OMap<K, V>, keep: V -> bool) returns (r: OMap<K, V>)
    ensures r == Keep(m, keep)
  {
    r := m;
    var i := 0;
    ghost var done := 0;
    while i < |r.order|
      invariant 0 <= i <= |r.order| && 0 <= done <= |m.order|
      invariant r.order[..i] == KeepOrder(m.order[..done], m.data, keep)
      invariant r.order[i..] == m.order[done..]
      invariant forall k :: k in r.data ==> k in m.data && r.data[k] == m.data[k]
      decreases |r.order| - i
    {
      var k := r.order[i];
      assert k in Elements(r.order);
      SweepStep(m, keep, done, r.order, i);
      if !keep(r.data[k]) {
        r := Delete(r, k);
      } else {
        i := i + 1;
      }
      done := done + 1;
    }
    assert r.order == r.order[..i] && m.order[..done] == m.order;
    SameOrderSameData(r, Keep(m, keep), m);
  }

  lemma SameOrderSameData<K(!new), V>(a: OMap<K, V>, b: OMap<K, V>, m: OMap<K, V>)
    requires a.order == b.order
    requires forall k :: k in a.data ==> k in m.data && a.data[k] == m.data[k]
    requires forall k :: k in b.data ==> k in m.data && b.data[k] == m.data[k]
    ensures a == b
  {
    assert a.data.Keys == b.data.Keys;
  }

  /** One turn of the sweep: the part before `i` is finished, the part from `i` on is untouched. */
  lemma SweepStep<K(!new), V>(m: OMap<K, V>, keep: V -> bool, done: nat, order: seq<K>, i: nat)
    requires done <= |m.order| && i < |order| && Distinct(order)
    requires order[..i] == KeepOrder(m.order[..done], m.data, keep)
    requires order[i..] == m.order[done..]
    ensures done < |m.order| && order[i] == m.order[done] && order[i] in m.data
    ensures keep(m.data[order[i]]) ==>
              order[..i + 1] == KeepOrder(m.order[..done + 1], m.data, keep) && order[i + 1..] == m.order[done + 1..]
    ensures !keep(m.data[order[i]]) ==>
              var w := Without(order, order[i]);
              |w| >= i && w[..i] == KeepOrder(m.order[..done + 1], m.data, keep) && w[i..] == m.order[done + 1..]
  {
    var k := order[i];
    assert k == order[i..][0] == m.order[done];
    assert k in Elements(m.order);
    assert m.order[..done + 1] == m.order[..done] + [k];
    KeepOrderSplit(m.order[..done], [k], m.data, keep);
    KeepOrderCons([k], m.data, keep);
    assert order[i..][1..] == m.order[done + 1..];
    WithoutAt(order, i);
  }

  lemma WithoutAt<K(!new)>(s: seq<K>, i: nat)
    requires i < |s| && Distinct(s)
    ensures Without(s, s[i]) == s[..i] + s[i + 1..]
  {
    assert s == s[..i] + ([s[i]] + s[i + 1..]);
    WithoutSplit(s[..i], [s[i]] + s[i + 1..], s[i]);
    assert ([s[i]] + s[i + 1..])[1..] == s[i + 1..];
    WithoutDistinct(s[..i], s[i]);
    WithoutDistinct(s[i + 1..], s[i]);
  }
}
