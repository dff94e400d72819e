/** Arithmetic, counting and collection facts shared by every component. */
module Prelude {

  const U64_MAX: nat := 0xFFFF_FFFF_FFFF_FFFF
  const U32_MAX: nat := 0xFFFF_FFFF

  datatype Option<+T> = None | Some(value: T)

  function Min(a: nat, b: nat): nat { if a <= b then a else b }

  /** `u64::saturating_add`. */
  function SatAdd(a: nat, b: nat): nat { Min(a + b, U64_MAX) }

  /** `u64::saturating_sub`. */
  function SatSub(a: nat, b: nat): nat { if a >= b then a - b else 0 }

  /** A missing row of a counter table reads as zero. */
  function Get<K>(m: map<K, nat>, k: K): nat { if k in m then m[k] else 0 }

  function Add<K>(m: map<K, nat>, k: K, n: nat): map<K, nat> { m[k := Get(m, k) + n] }

  /** The total of a finite table of naturals. */
  ghost function Sum<K>(m: map<K, nat>): nat
    decreases |m|
  {
    if m == map[] then 0
    else
      var k :| k in m;
      m[k] + Sum(m - {k})
  }

  lemma {:induction false} SumRemove<K>(m: map<K, nat>, k: K)
    requires k in m
    ensures Sum(m) == m[k] + Sum(m - {k})
    decreases |m|
  {
    var c :| c in m && Sum(m) == m[c] + Sum(m - {c});
    if c != k {
      SumRemove(m - {c}, k);
      SumRemove(m - {k}, c);
      assert m - {c} - {k} == m - {k} - {c};
    }
  }

  lemma SumUpdate<K>(m: map<K, nat>, k: K, v: nat)
    ensures Sum(m[k := v]) == Sum(m) - Get(m, k) + v
    ensures Get(m, k) <= Sum(m)
  {
    SumRemove(m[k := v], k);
    assert m[k := v] - {k} == m - {k};
    if k in m {
      SumRemove(m, k);
    } else {
      assert m - {k} == m;
    }
  }

  lemma {:induction false} SumMono<K>(a: map<K, nat>, b: map<K, nat>)
    requires forall k :: k in a ==> a[k] <= Get(b, k)
    ensures Sum(a) <= Sum(b)
    decreases |a|
  {
    if a != map[] {
      var k :| k in a && Sum(a) == a[k] + Sum(a - {k});
      SumMono(a - {k}, b - {k});
      if k in b {
        SumRemove(b, k);
      } else {
        assert b - {k} == b;
      }
    }
  }

  lemma SubsetCard<T>(a: set<T>, b: set<T>)
    requires a <= b
    ensures |a| <= |b|
    ensures a != b ==> |a| < |b|
  {
    assert b == a + (b - a);
    assert |b| == |a| + |b - a|;
    if a != b {
      var x :| x in b - a;
    }
  }

  /** The keys that `m` files under `e`. */
  ghost function Fiber<K(!new), E>(m: map<K, E>, e: E): set<K> { set k | k in m && m[k] == e }

  /** A table whose every class is within its quota is within the total quota. */
  lemma {:induction false} FibersWithinQuota<K(!new), E(!new)>(m: map<K, E>, quota: map<E, nat>)
    requires forall e :: |Fiber(m, e)| <= Get(quota, e)
    ensures |m| <= Sum(quota)
    decreases |m|
  {
    if m != map[] {
      var k :| k in m;
      var e := m[k];
      var s := Fiber(m, e);
      assert k in s;
      var rest := m - s;
      assert e in quota;
      assert rest.Keys == m.Keys - s && |rest| == |rest.Keys| && |m| == |m.Keys|;
      assert m.Keys == rest.Keys + s;
      forall e' ensures |Fiber(rest, e')| <= Get(quota - {e}, e') {
        if e' == e {
          assert Fiber(rest, e') == {};
        } else {
          assert Fiber(rest, e') == Fiber(m, e');
        }
      }
      FibersWithinQuota(rest, quota - {e});
      SumRemove(quota, e);
    }
  }

  lemma FiberInsert<K(!new), E>(m: map<K, E>, k: K, e: E)
    requires k !in m
    ensures Fiber(m[k := e], e) == Fiber(m, e) + {k}
    ensures |Fiber(m[k := e], e)| == |Fiber(m, e)| + 1
    ensures forall e' :: e' != e ==> Fiber(m[k := e], e') == Fiber(m, e')
  {
    assert Fiber(m[k := e], e) == Fiber(m, e) + {k};
  }

  lemma InsertCard<K, V>(m: map<K, V>, k: K, v: V)
    requires k !in m
    ensures |m[k := v]| == |m| + 1
  {
    assert m[k := v].Keys == m.Keys + {k};
    assert |m[k := v]| == |m[k := v].Keys| && |m| == |m.Keys|;
  }

  lemma Regroup<T>(x: seq<T>, y: seq<T>, z: seq<T>)
    ensures x + (y + z) == x + y + z
  {}

  lemma Distribute(b: nat, n: nat)
    ensures b * (n + 1) == b * n + b
  {}

  lemma {:induction false} SumBounded<K>(m: map<K, nat>, bound: nat)
    requires forall k :: k in m ==> m[k] <= bound
    ensures Sum(m) <= bound * |m|
    decreases |m|
  {
    if m != map[] {
      var k :| k in m && Sum(m) == m[k] + Sum(m - {k});
      var rest := m - {k};
      SumBounded(rest, bound);
      InsertCard(rest, k, m[k]);
      assert m == rest[k := m[k]];
      Distribute(bound, |rest|);
    }
  }
}
