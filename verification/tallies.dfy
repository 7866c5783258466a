/**
 Maps from keys to accumulated durations (nanoseconds), the shape shared by
 the profile's `times`, the report's `cum` and its `ways`, together with the
 sums the report takes over them.
 */
module Tallies {

  /** The value at `k`, or zero when `k` is absent. */
  function Get<K>(m: map<K, nat>, k: K): nat {
    if k in m then m[k] else 0
  }

  /** `after` is `before` with `d` added at `k` (from zero when `k` was absent)
      and every other key left alone. */
  ghost predicate Credited<K>(before: map<K, nat>, after: map<K, nat>, k: K, d: nat) {
    && after.Keys == before.Keys + {k}
    && after[k] == Get(before, k) + d
    && forall j :: j in before && j != k ==> after[j] == before[j]
  }

  /** `add_to_map`: add `d` to the entry for `k`, inserting `d` when the key is
      vacant. */
  function AddToMap<K>(m: map<K, nat>, k: K, d: nat): (r: map<K, nat>)
    ensures Credited(m, r, k, d)
  {
    if k in m then m[k := m[k] + d] else m[k := d]
  }

  /** Some key of a non-empty map, fixed once per map so that `SumMap` is a
      function. */
  ghost function Pick<K>(m: map<K, nat>): (k: K)
    requires |m| > 0
    ensures k in m
  {
    var k :| k in m; k
  }

  /** The sum of all values of a finite map, independent of any key order. */
  ghost function SumMap<K>(m: map<K, nat>): nat
    decreases |m|
  {
    if |m| == 0 then 0
    else
      var k := Pick(m);
      m[k] + SumMap(m - {k})
  }

  /** Any key may be taken out first. */
  lemma {:induction false} SumMapRemove<K>(m: map<K, nat>, k: K)
    requires k in m
    ensures SumMap(m) == m[k] + SumMap(m - {k})
    decreases |m|
  {
    var j := Pick(m);
    if j != k {
      var mj := m - {j};
      var mk := m - {k};
      SumMapRemove(mj, k);
      SumMapRemove(mk, j);
      assert mj - {k} == mk - {j};
    }
  }

  /** Adding `d` at one key adds `d` to the sum. */
  lemma SumMapAdd<K>(m: map<K, nat>, k: K, d: nat)
    ensures SumMap(AddToMap(m, k, d)) == SumMap(m) + d
  {
    var r := AddToMap(m, k, d);
    SumMapRemove(r, k);
    if k in m {
      SumMapRemove(m, k);
      assert r - {k} == m - {k};
    } else {
      assert r - {k} == m;
    }
  }

  /** Sums are monotone in the summand. */
  lemma {:induction false} SumMapMonotone<K>(f: map<K, nat>, g: map<K, nat>)
    requires f.Keys == g.Keys
    requires forall k :: k in f ==> f[k] <= g[k]
    ensures SumMap(f) <= SumMap(g)
    decreases |f|
  {
    if |f| > 0 {
      var k := Pick(f);
      SumMapRemove(f, k);
      SumMapRemove(g, k);
      SumMapMonotone(f - {k}, g - {k});
    }
  }

  /** The sum of `f` over the keys listed in `ks`, added up in list order. */
  function SumOver<K>(f: map<K, nat>, ks: seq<K>): nat
    requires forall k :: k in ks ==> k in f
  {
    if |ks| == 0 then 0
    else SumOver(f, ks[..|ks| - 1]) + f[ks[|ks| - 1]]
  }

  /** `ks` lists every key of `m` exactly once. */
  ghost predicate Enumerates<K(!new)>(ks: seq<K>, m: map<K, nat>) {
    && (forall k :: k in ks <==> k in m)
    && (forall i, j :: 0 <= i < j < |ks| ==> ks[i] != ks[j])
  }

  lemma {:induction false} SumOverAgree<K>(f: map<K, nat>, g: map<K, nat>, ks: seq<K>)
    requires forall k :: k in ks ==> k in f && k in g && f[k] == g[k]
    ensures SumOver(f, ks) == SumOver(g, ks)
  {
    if |ks| > 0 {
      SumOverAgree(f, g, ks[..|ks| - 1]);
    }
  }

  /** Summing along any enumeration of the keys gives the order-free sum. */
  lemma {:induction false} SumOverIsSumMap<K(!new)>(f: map<K, nat>, ks: seq<K>)
    requires Enumerates(ks, f)
    ensures SumOver(f, ks) == SumMap(f)
  {
    if |ks| == 0 {
      assert f.Keys == {};
    } else {
      var n := |ks| - 1;
      var x := ks[n];
      var init := ks[..n];
      var g := f - {x};
      forall k | k in init ensures k in f && k in g && f[k] == g[k] {
        var i :| 0 <= i < n && init[i] == k;
        assert ks[i] != ks[n];
      }
      SumOverAgree(f, g, init);
      forall k ensures k in init <==> k in g {
        if k in g {
          assert k in ks;
          var i :| 0 <= i < |ks| && ks[i] == k;
          assert i != n;
        }
      }
      SumOverIsSumMap(g, init);
      SumMapRemove(f, x);
    }
  }

  /** Sums are monotone in the summand. */
  lemma {:induction false} SumOverMonotone<K>(f: map<K, nat>, g: map<K, nat>, ks: seq<K>)
    requires forall k :: k in ks ==> k in f && k in g && f[k] <= g[k]
    ensures SumOver(f, ks) <= SumOver(g, ks)
  {
    if |ks| > 0 {
      SumOverMonotone(f, g, ks[..|ks| - 1]);
    }
  }
}
