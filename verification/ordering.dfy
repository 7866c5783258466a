/**
 Orders used by the report: the lexicographic order that Rust's `Ord` gives
 to `str` (by character) and to `Vec<&str>` (by label), and sorting a finite
 set of keys into a strictly increasing sequence, as `keys.sort()` does on
 the collected keys of a map.
 */
module Ordering {

  /** `lt` is irreflexive, transitive and connected on all of `T`. */
  ghost predicate StrictTotalOrder<T(!new)>(lt: (T, T) -> bool) {
    && (forall a :: !lt(a, a))
    && (forall a, b, c :: lt(a, b) && lt(b, c) ==> lt(a, c))
    && (forall a, b :: a != b ==> lt(a, b) || lt(b, a))
  }

  /** Lexicographic "strictly less": a proper prefix is smaller, otherwise the
      first differing element decides. */
  function LexLess<T(==)>(a: seq<T>, b: seq<T>, lt: (T, T) -> bool): bool
    decreases |a|
  {
    if |a| == 0 then |b| > 0
    else if |b| == 0 then false
    else if a[0] == b[0] then LexLess(a[1..], b[1..], lt)
    else lt(a[0], b[0])
  }

  lemma {:induction false} LexIrreflexive<T(!new)>(a: seq<T>, lt: (T, T) -> bool)
    requires StrictTotalOrder(lt)
    ensures !LexLess(a, a, lt)
    decreases |a|
  {
    if |a| > 0 {
      LexIrreflexive(a[1..], lt);
    }
  }

  lemma {:induction false} LexTransitive<T(!new)>(a: seq<T>, b: seq<T>, c: seq<T>, lt: (T, T) -> bool)
    requires StrictTotalOrder(lt)
    requires LexLess(a, b, lt) && LexLess(b, c, lt)
    ensures LexLess(a, c, lt)
    decreases |a|
  {
    if |a| > 0 && a[0] == b[0] && b[0] == c[0] {
      LexTransitive(a[1..], b[1..], c[1..], lt);
    }
  }

  lemma {:induction false} LexConnected<T(!new)>(a: seq<T>, b: seq<T>, lt: (T, T) -> bool)
    requires StrictTotalOrder(lt)
    requires a != b
    ensures LexLess(a, b, lt) || LexLess(b, a, lt)
    decreases |a|
  {
    if |a| > 0 && |b| > 0 && a[0] == b[0] {
      assert a == [a[0]] + a[1..] && b == [b[0]] + b[1..];
      LexConnected(a[1..], b[1..], lt);
    }
  }

  /** The lexicographic extension of a strict total order is one. */
  lemma LexStrictTotal<T(!new)>(lt: (T, T) -> bool)
    requires StrictTotalOrder(lt)
    ensures forall a: seq<T> :: !LexLess(a, a, lt)
    ensures forall a: seq<T>, b: seq<T>, c: seq<T> ::
              LexLess(a, b, lt) && LexLess(b, c, lt) ==> LexLess(a, c, lt)
    ensures forall a: seq<T>, b: seq<T> :: a != b ==> LexLess(a, b, lt) || LexLess(b, a, lt)
  {
    forall a: seq<T> ensures !LexLess(a, a, lt) {
      LexIrreflexive(a, lt);
    }
    forall a: seq<T>, b: seq<T>, c: seq<T> | LexLess(a, b, lt) && LexLess(b, c, lt)
      ensures LexLess(a, c, lt)
    {
      LexTransitive(a, b, c, lt);
    }
    forall a: seq<T>, b: seq<T> | a != b
      ensures LexLess(a, b, lt) || LexLess(b, a, lt)
    {
      LexConnected(a, b, lt);
    }
  }

  /** `m` is below every other element of `s`. */
  predicate IsLeast<T(==)>(m: T, s: set<T>, lt: (T, T) -> bool) {
    m in s && forall y :: y in s && y != m ==> lt(m, y)
  }

  lemma {:induction false} LeastExists<T(!new)>(s: set<T>, lt: (T, T) -> bool)
    requires StrictTotalOrder(lt)
    requires s != {}
    ensures exists m :: IsLeast(m, s, lt)
    decreases |s|
  {
    var x :| x in s;
    if s != {x} {
      var rest := s - {x};
      LeastExists(rest, lt);
      var m :| IsLeast(m, rest, lt);
      if lt(x, m) {
        forall y | y in s && y != x ensures lt(x, y) {
          if y != m {
            assert lt(m, y);
          }
        }
        assert IsLeast(x, s, lt);
      } else {
        assert IsLeast(m, s, lt);
      }
    } else {
      assert IsLeast(x, s, lt);
    }
  }

  /** Strictly increasing under `lt`. */
  ghost predicate Increasing<T>(r: seq<T>, lt: (T, T) -> bool) {
    forall i, j {:trigger lt(r[i], r[j])} :: 0 <= i < j < |r| ==> lt(r[i], r[j])
  }

  /** The elements of `s`, each once, in strictly increasing order. */
  function SortSet<T(==,!new)>(s: set<T>, lt: (T, T) -> bool): (r: seq<T>)
    requires StrictTotalOrder(lt)
    ensures |r| == |s|
    ensures forall x :: x in r <==> x in s
    ensures forall i, j :: 0 <= i < j < |r| ==> r[i] != r[j]
    ensures Increasing(r, lt)
    decreases |s|
  {
    if s == {} then []
    else
      LeastExists(s, lt);
      var m :| IsLeast(m, s, lt);
      [m] + SortSet(s - {m}, lt)
  }
}
