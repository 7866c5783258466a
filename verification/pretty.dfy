/**
 Positions in sequences, and `pretty_stack`, which renders a stack of labels
 as text with a `:` after every label.
 */
module Pretty {

  /** The position of the first occurrence of `x` in `xs`. */
  function FirstIndex<T(==)>(xs: seq<T>, x: T): (i: nat)
    requires x in xs
    ensures i < |xs| && xs[i] == x && x !in xs[..i]
  {
    if xs[0] == x then 0
    else
      var i := 1 + FirstIndex(xs[1..], x);
      assert xs[..i] == [xs[0]] + xs[1..][..i - 1];
      i
  }

  /** The total number of characters in the labels of `v`. */
  function LabelChars(v: seq<string>): nat {
    if |v| == 0 then 0 else |v[0]| + LabelChars(v[1..])
  }

  /** `pretty_stack`: every label followed by `":"`, so `["hello", "world"]`
      becomes `"hello:world:"`. */
  function PrettyStack(v: seq<string>): (r: string)
    ensures |r| == LabelChars(v) + |v|
    ensures |v| > 0 ==> r[|r| - 1] == ':'
  {
    if |v| == 0 then "" else v[0] + ":" + PrettyStack(v[1..])
  }

  /** A single label renders as itself followed by `:`, whatever characters
      it holds; with `PrettyStackAppend` this fixes the rendering of every
      stack. */
  lemma PrettyStackSingle(x: string)
    ensures PrettyStack([x]) == x + ":"
  {
    assert [x][1..] == [];
  }

  /** Rendering a concatenation concatenates the renderings. */
  lemma {:induction false} PrettyStackAppend(a: seq<string>, b: seq<string>)
    ensures PrettyStack(a + b) == PrettyStack(a) + PrettyStack(b)
  {
    if |a| > 0 {
      assert (a + b)[0] == a[0] && (a + b)[1..] == a[1..] + b;
      PrettyStackAppend(a[1..], b);
    } else {
      assert a + b == b;
    }
  }

  /** No label contains the separator. */
  predicate ColonFree(v: seq<string>) {
    forall i :: 0 <= i < |v| ==> ':' !in v[i]
  }

  /** Cuts a rendering back into labels: each `:`-terminated segment is one
      label; text after the last `:` is not a label. */
  function Unpretty(s: string): seq<string>
    decreases |s|
  {
    if ':' !in s then []
    else
      var i := FirstIndex(s, ':');
      [s[..i]] + Unpretty(s[i + 1..])
  }

  /** When no label contains `:`, the rendering determines the stack. */
  lemma {:induction false} UnprettyPrettyStack(v: seq<string>)
    requires ColonFree(v)
    ensures Unpretty(PrettyStack(v)) == v
  {
    if |v| > 0 {
      var head := v[0];
      var tail := v[1..];
      assert ':' !in head;
      assert ColonFree(tail) by {
        forall i | 0 <= i < |tail| ensures ':' !in tail[i] {
          assert tail[i] == v[i + 1];
        }
      }
      var rest := PrettyStack(tail);
      var s := PrettyStack(v);
      assert s == head + [':'] + rest;
      SplitAtFirst(head, ':', rest);
      assert Unpretty(s) == [head] + Unpretty(rest);
      assert v == [head] + tail;
      UnprettyPrettyStack(tail);
    }
  }

  /** The first `c` of `a + [c] + rest`, when `a` has none, is right after `a`. */
  lemma SplitAtFirst<T>(a: seq<T>, c: T, rest: seq<T>)
    requires c !in a
    ensures var s := a + [c] + rest;
      && c in s
      && FirstIndex(s, c) == |a|
      && s[..|a|] == a && s[|a| + 1..] == rest
  {
    var s := a + [c] + rest;
    assert s[|a|] == c;
  }

  /** Hence distinct colon-free stacks render to distinct text. */
  lemma PrettyStackInjective(v: seq<string>, w: seq<string>)
    requires ColonFree(v) && ColonFree(w)
    requires PrettyStack(v) == PrettyStack(w)
    ensures v == w
  {
    UnprettyPrettyStack(v);
    UnprettyPrettyStack(w);
  }

  /** With a `:` inside a label, two different stacks render alike. */
  lemma PrettyStackAmbiguous()
    ensures PrettyStack(["a:b"]) == PrettyStack(["a", "b"]) == "a:b:"
    ensures ["a:b"] != ["a", "b"]
  {
  }
}
