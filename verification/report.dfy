/**
 The integer aggregation and line structure of `report` in src/lib.rs: the
 total of all credited time, the per-label cumulative time `cum`, and the
 "ways" of each label, that is its credited time grouped by the part of each
 stack up to and including the label's first occurrence. Percentages and the
 rendering of seconds are floating point and are not modelled; a line keeps
 the label or stack and the integer duration it is printed with.
 */
module Report {
  import opened Ordering
  import opened Tallies
  import opened Pretty
  import opened Profiles

  // ---------------------------------------------------------------- orders

  function CharLess(x: char, y: char): bool {
    x < y
  }

  /** `Ord` on `str`: lexicographic by character. */
  function LabelLess(a: Label, b: Label): bool {
    LexLess(a, b, CharLess)
  }

  /** `Ord` on `Vec<&str>`: lexicographic by label. */
  function PathLess(a: Path, b: Path): bool {
    LexLess(a, b, LabelLess)
  }

  lemma LabelOrder()
    ensures StrictTotalOrder(LabelLess)
  {
    LexStrictTotal(CharLess);
  }

  lemma PathOrder()
    ensures StrictTotalOrder(PathLess)
  {
    LabelOrder();
    LexStrictTotal(LabelLess);
  }

  /** `keys.sort()` on the keys of `times`. */
  function SortedKeys(m: Times): (ks: seq<Path>)
    ensures Enumerates(ks, m)
    ensures Increasing(ks, PathLess)
  {
    PathOrder();
    SortSet(m.Keys, PathLess)
  }

  // ----------------------------------------------------------------- total

  /** `total_time`: the sum of every credited duration, the empty stack's
      included. */
  function Total(m: Times): (t: nat)
    ensures t == SumMap(m)
  {
    var ks := SortedKeys(m);
    SumOverIsSumMap(m, ks);
    SumOver(m, ks)
  }

  // ------------------------------------------------------------------- cum

  /** Each stack's time, counted once for every occurrence of `s` in it. */
  function Weighted(m: Times, s: Label): (w: Times)
    ensures w.Keys == m.Keys
  {
    map k | k in m :: m[k] * multiset(k)[s]
  }

  /** Each stack's time if it mentions `s`, zero otherwise. */
  function Containing(m: Times, s: Label): (w: Times)
    ensures w.Keys == m.Keys
  {
    map k | k in m :: if s in k then m[k] else 0
  }

  lemma MulSucc(d: nat, n: nat)
    ensures d * (n + 1) == d * n + d
  {
  }

  lemma MulAtLeast(a: nat, n: nat)
    requires n >= 1
    ensures a <= a * n
  {
  }

  /** The inner loop of the `cum` computation: `d` added at every label of
      `k`, in order. */
  function AddLabels(c: map<Label, nat>, k: Path, d: nat): (r: map<Label, nat>)
    ensures r.Keys == c.Keys + Elements(k)
    ensures forall s :: Get(r, s) == Get(c, s) + d * multiset(k)[s]
  {
    if |k| == 0 then c
    else
      var init := k[..|k| - 1];
      var x := k[|k| - 1];
      var prev := AddLabels(c, init, d);
      assert k == init + [x];
      assert Elements(k) == Elements(init) + {x};
      forall s ensures Get(AddToMap(prev, x, d), s) == Get(c, s) + d * multiset(k)[s] {
        AddLabelStep(c, prev, init, x, d, s);
      }
      AddToMap(prev, x, d)
  }

  /** One step of the inner loop keeps the count of every label. */
  lemma AddLabelStep(c: map<Label, nat>, prev: map<Label, nat>, init: Path, x: Label, d: nat, s: Label)
    requires Get(prev, s) == Get(c, s) + d * multiset(init)[s]
    ensures Get(AddToMap(prev, x, d), s) == Get(c, s) + d * multiset(init + [x])[s]
  {
    var n := multiset(init)[s];
    assert multiset(init + [x]) == multiset(init) + multiset{x};
    if s == x {
      MulSucc(d, n);
    }
  }

  /** The labels that occur in some stack of `m`. */
  function Mentioned(m: Times): set<Label> {
    set k, s | k in m && s in k :: s
  }

  /** The labels of one stack. */
  function Elements(k: Path): (r: set<Label>)
    ensures forall s :: s in r <==> s in k
  {
    set i | 0 <= i < |k| :: k[i]
  }

  /** The labels that occur in some stack of `ks`. */
  function LabelsOf(ks: seq<Path>): set<Label> {
    if |ks| == 0 then {} else LabelsOf(ks[..|ks| - 1]) + Elements(ks[|ks| - 1])
  }

  lemma {:induction false} InLabelsOf(ks: seq<Path>, s: Label)
    ensures s in LabelsOf(ks) <==> exists i :: 0 <= i < |ks| && s in ks[i]
  {
    if |ks| > 0 {
      var init := ks[..|ks| - 1];
      InLabelsOf(init, s);
      assert forall i :: 0 <= i < |init| ==> init[i] == ks[i];
    }
  }

  /** Over an enumeration of the keys, the labels collected are those of `m`. */
  lemma LabelsOfEnumeration(m: Times, ks: seq<Path>)
    requires Enumerates(ks, m)
    ensures LabelsOf(ks) == Mentioned(m)
  {
    forall s ensures s in LabelsOf(ks) <==> s in Mentioned(m) {
      InLabelsOf(ks, s);
      if s in Mentioned(m) {
        var k :| k in m && s in k;
        var i :| 0 <= i < |ks| && ks[i] == k;
      }
    }
  }

  /** The outer loop of the `cum` computation over the keys `ks`, in order. */
  function CumOver(m: Times, ks: seq<Path>): (c: map<Label, nat>)
    requires forall k :: k in ks ==> k in m
    ensures c.Keys == LabelsOf(ks)
    ensures forall s :: Get(c, s) == SumOver(Weighted(m, s), ks)
  {
    if |ks| == 0 then map[]
    else
      var init := ks[..|ks| - 1];
      var k := ks[|ks| - 1];
      AddLabels(CumOver(m, init), k, m[k])
  }

  /** `cum`: for every label mentioned by some stack, the time of the stacks
      that mention it, once per mention. */
  function Cum(m: Times): (c: map<Label, nat>)
    ensures c.Keys == Mentioned(m)
    ensures forall s :: Get(c, s) == SumMap(Weighted(m, s))
  {
    var ks := SortedKeys(m);
    forall s ensures SumOver(Weighted(m, s), ks) == SumMap(Weighted(m, s)) {
      SumOverIsSumMap(Weighted(m, s), ks);
    }
    LabelsOfEnumeration(m, ks);
    CumOver(m, ks)
  }

  /** `shortkeys.sort()` on the labels of `cum`. */
  function SortedLabels(m: Times): (ls: seq<Label>)
    ensures forall s :: s in ls <==> s in Mentioned(m)
    ensures Increasing(ls, LabelLess)
  {
    LabelOrder();
    SortSet(Cum(m).Keys, LabelLess)
  }

  // ------------------------------------------------------------------ ways

  /** The way of stack `k` through `s`: the labels before the first `s`,
      then `s`. */
  function WayKey(k: Path, s: Label): (w: Path)
    requires s in k
    ensures 0 < |w| <= |k| && w == k[..|w|]
    ensures w[|w| - 1] == s && multiset(w)[s] == 1
  {
    var i := FirstIndex(k, s);
    assert k[..i + 1] == k[..i] + [s];
    k[..i] + [s]
  }

  /** The ways of the stacks of `m` that mention `s`. */
  function WayKeys(m: Times, s: Label): set<Path> {
    set k | k in m && s in k :: WayKey(k, s)
  }

  /** The ways of the stacks of `ks` that mention `s`. */
  function WayKeysOf(ks: seq<Path>, s: Label): set<Path> {
    if |ks| == 0 then {}
    else
      var k := ks[|ks| - 1];
      WayKeysOf(ks[..|ks| - 1], s) + (if s in k then {WayKey(k, s)} else {})
  }

  lemma {:induction false} InWayKeysOf(ks: seq<Path>, s: Label, p: Path)
    ensures p in WayKeysOf(ks, s) <==> exists i :: 0 <= i < |ks| && s in ks[i] && p == WayKey(ks[i], s)
  {
    if |ks| > 0 {
      var init := ks[..|ks| - 1];
      InWayKeysOf(init, s, p);
      assert forall i :: 0 <= i < |init| ==> init[i] == ks[i];
    }
  }

  /** Over an enumeration of the keys, the ways collected are those of `m`. */
  lemma WayKeysOfEnumeration(m: Times, ks: seq<Path>, s: Label)
    requires Enumerates(ks, m)
    ensures WayKeysOf(ks, s) == WayKeys(m, s)
  {
    forall p ensures p in WayKeysOf(ks, s) <==> p in WayKeys(m, s) {
      InWayKeysOf(ks, s, p);
      if p in WayKeys(m, s) {
        var k :| k in m && s in k && p == WayKey(k, s);
        var i :| 0 <= i < |ks| && ks[i] == k;
      }
    }
  }

  /** Each stack's time if its way through `s` is `p`, zero otherwise. */
  function WayShare(m: Times, s: Label, p: Path): (w: Times)
    ensures w.Keys == m.Keys
  {
    map k | k in m :: if s in k && WayKey(k, s) == p then m[k] else 0
  }

  /** The `ways` loop for label `s` over the keys `ks`, in order. */
  function WaysOver(m: Times, ks: seq<Path>, s: Label): (w: map<Path, nat>)
    requires forall k :: k in ks ==> k in m
    ensures w.Keys == WayKeysOf(ks, s)
    ensures SumMap(w) == SumOver(Containing(m, s), ks)
    ensures forall p :: Get(w, p) == SumOver(WayShare(m, s, p), ks)
  {
    if |ks| == 0 then map[]
    else
      var init := ks[..|ks| - 1];
      var k := ks[|ks| - 1];
      var w := WaysOver(m, init, s);
      var r := if s in k then AddToMap(w, WayKey(k, s), m[k]) else w;
      forall p ensures Get(r, p) == SumOver(WayShare(m, s, p), ks) {
        WaysStep(m, ks, s, w, p);
      }
      if s in k then
        SumMapAdd(w, WayKey(k, s), m[k]);
        r
      else r
  }

  /** One step of the `ways` loop keeps the time of every way. */
  lemma WaysStep(m: Times, ks: seq<Path>, s: Label, w: map<Path, nat>, p: Path)
    requires |ks| > 0 && forall k :: k in ks ==> k in m
    requires Get(w, p) == SumOver(WayShare(m, s, p), ks[..|ks| - 1])
    ensures var k := ks[|ks| - 1];
      Get(if s in k then AddToMap(w, WayKey(k, s), m[k]) else w, p) == SumOver(WayShare(m, s, p), ks)
  {
    var k := ks[|ks| - 1];
    var f := WayShare(m, s, p);
    assert k in m;
    assert SumOver(f, ks) == SumOver(f, ks[..|ks| - 1]) + f[k];
    if s in k {
      var r := AddToMap(w, WayKey(k, s), m[k]);
      if WayKey(k, s) == p {
        assert f[k] == m[k];
        assert Get(r, p) == Get(w, p) + m[k];
      } else {
        assert f[k] == 0;
        assert Get(r, p) == Get(w, p);
      }
    } else {
      assert f[k] == 0;
    }
  }

  /** `ways` for label `s`: the time of each way is the time of the stacks
      whose way through `s` it is. */
  function Ways(m: Times, s: Label): (w: map<Path, nat>)
    ensures w.Keys == WayKeys(m, s)
    ensures SumMap(w) == SumMap(Containing(m, s))
    ensures forall p :: Get(w, p) == SumMap(WayShare(m, s, p))
  {
    var ks := SortedKeys(m);
    SumOverIsSumMap(Containing(m, s), ks);
    WayKeysOfEnumeration(m, ks, s);
    forall p ensures SumOver(WayShare(m, s, p), ks) == SumMap(WayShare(m, s, p)) {
      SumOverIsSumMap(WayShare(m, s, p), ks);
    }
    WaysOver(m, ks, s)
  }

  /** Every way key of `s` ends with `s`, mentions it once, and is the prefix
      of some stack that mentions `s`. */
  lemma WayKeysShape(m: Times, s: Label, p: Path)
    requires p in WayKeys(m, s)
    ensures 0 < |p| && p[|p| - 1] == s && multiset(p)[s] == 1
    ensures exists k :: k in m && |p| <= |k| && p == k[..|p|]
  {
    var k :| k in m && s in k && p == WayKey(k, s);
  }

  /** The ways of `s` add up to the time of the stacks that mention `s`,
      which is at most `cum[s]`. */
  lemma WaysBoundedByCum(m: Times, s: Label)
    ensures SumMap(Ways(m, s)) == SumMap(Containing(m, s)) <= Get(Cum(m), s)
  {
    var ks := SortedKeys(m);
    var f := Containing(m, s);
    var g := Weighted(m, s);
    forall k | k in ks ensures k in f && k in g && f[k] <= g[k] {
      if s in k {
        MulAtLeast(m[k], multiset(k)[s]);
      }
    }
    SumOverMonotone(f, g, ks);
    SumOverIsSumMap(f, ks);
    SumOverIsSumMap(g, ks);
  }

  /** For a label that no stack repeats, `cum` is the time of the stacks that
      mention it, and so at most the total: its percentage is at most 100. */
  lemma CumWithinTotal(m: Times, s: Label)
    requires forall k :: k in m ==> multiset(k)[s] <= 1
    ensures Get(Cum(m), s) == SumMap(Containing(m, s)) <= Total(m)
  {
    SingleMentions(m, s);
    assert Get(Cum(m), s) == SumMap(Weighted(m, s));
    assert Total(m) == SumMap(m);
    SumMapMonotone(Containing(m, s), m);
  }

  lemma SingleMentions(m: Times, s: Label)
    requires forall k :: k in m ==> multiset(k)[s] <= 1
    ensures Containing(m, s) == Weighted(m, s)
  {
    var f := Containing(m, s);
    forall k | k in m ensures f[k] == m[k] * multiset(k)[s] {
      assert multiset(k)[s] == 0 || multiset(k)[s] == 1;
    }
  }

  /** A recursive stack counts its time once per mention, so `cum` can exceed
      the total. */
  lemma RecursionExceedsTotal()
    ensures Total(map[["a", "a"] := 1]) == 1
    ensures Get(Cum(map[["a", "a"] := 1]), "a") == 2
  {
    var k: Path := ["a", "a"];
    var m := map[k := 1];
    SumMapRemove(m, k);
    assert m - {k} == map[];
    assert multiset(k)["a"] == 2;
    var w := Weighted(m, "a");
    assert w == map[k := 2];
    SumMapRemove(w, k);
    assert w - {k} == map[];
  }

  /** A label mentioned by some stack has at least one way. */
  lemma MentionedHasWay(m: Times, s: Label)
    requires s in Mentioned(m)
    ensures |Ways(m, s)| >= 1
  {
    var k :| k in m && s in k;
    assert WayKey(k, s) in Ways(m, s);
  }

  // ----------------------------------------------------------------- lines

  /** One line of the report, without its percentage and seconds. */
  datatype Line =
    | Header(name: Label, time: nat)   // "{percent}% {label}: {seconds}"
    | Way(path: Path, time: nat)        // "    {percent}% {pretty_stack(path)} {seconds}"
    | Blank                             // the empty line after a way list
    | Single(path: Path, time: nat)     // one line for a label with one way

  /** The stack a line prints through `pretty_stack`, if any. */
  predicate ShowsPath(l: Line, p: Path) {
    (l.Way? || l.Single?) && l.path == p
  }

  /** The indented way lines, one per key of `wk`, in that order. */
  function WayLines(w: map<Path, nat>, wk: seq<Path>): (r: seq<Line>)
    requires forall p :: p in wk ==> p in w
    ensures |r| == |wk|
    ensures forall i :: 0 <= i < |wk| ==> r[i] == Way(wk[i], w[wk[i]])
  {
    seq(|wk|, i requires 0 <= i < |wk| => Way(wk[i], w[wk[i]]))
  }

  /** `waykeys.sort()` on the keys of `ways`. */
  function SortedWays(w: map<Path, nat>): (wk: seq<Path>)
    ensures Enumerates(wk, w) && |wk| == |w|
    ensures Increasing(wk, PathLess)
  {
    PathOrder();
    SortSet(w.Keys, PathLess)
  }

  /** The lines emitted for label `s` with cumulative time `cum` and ways `w`:
      always a header with `cum`; then, only when there is more than one way,
      one line per way in key order and an empty line. */
  function LabelBlock(s: Label, cum: nat, w: map<Path, nat>): (b: seq<Line>)
    ensures |b| >= 1 && b[0] == Header(s, cum)
    ensures |w| <= 1 ==> |b| == 1
    ensures |w| > 1 ==> |b| == |w| + 2 && b[|b| - 1] == Blank
    ensures |w| > 1 ==> forall p :: p in w ==> Way(p, w[p]) in b
    ensures forall i :: 0 < i < |b| - 1 ==> b[i].Way? && b[i].path in w && b[i].time == w[b[i].path]
    ensures forall i :: 0 < i < |b| ==> !b[i].Header?
  {
    var wk := SortedWays(w);
    if |wk| > 1 then
      var b := [Header(s, cum)] + WayLines(w, wk) + [Blank];
      WayListShape(Header(s, cum), w, wk);
      b
    else [Header(s, cum)]
  }

  /** The way lines of a block are in increasing key order. */
  lemma LabelBlockSorted(s: Label, cum: nat, w: map<Path, nat>)
    ensures var b := LabelBlock(s, cum, w);
      forall i, j :: 0 < i < j < |b| - 1 ==> PathLess(b[i].path, b[j].path)
  {
    var wk := SortedWays(w);
    if |wk| > 1 {
      WayListShape(Header(s, cum), w, wk);
    }
  }

  /** A header, the way lines of a sorted enumeration of `w`, and a blank
      line: every way once, in increasing key order. */
  lemma WayListShape(header: Line, w: map<Path, nat>, wk: seq<Path>)
    requires Enumerates(wk, w) && Increasing(wk, PathLess)
    ensures var b := [header] + WayLines(w, wk) + [Blank];
      && (forall i :: 0 < i < |b| - 1 ==> b[i] == Way(wk[i - 1], w[wk[i - 1]]))
      && (forall p :: p in w ==> Way(p, w[p]) in b)
  {
    var lines := WayLines(w, wk);
    var b := [header] + lines + [Blank];
    assert forall i :: 0 < i < |b| - 1 ==> b[i] == lines[i - 1];
    forall p | p in w ensures Way(p, w[p]) in b {
      var i :| 0 <= i < |wk| && wk[i] == p;
      assert b[i + 1] == lines[i];
    }
  }

  /** The lines for label `s` laid out as the accounting evidently intends:
      a label with exactly one way gets one line that names the whole way;
      otherwise a header, the ways in key order and an empty line. */
  function LabelBlockFixed(s: Label, cum: nat, w: map<Path, nat>): (b: seq<Line>)
    ensures forall p :: p in w ==> Single(p, w[p]) in b || Way(p, w[p]) in b
    ensures |w| == 1 ==> |b| == 1 && b[0].Single? && b[0].path in w && b[0].time == w[b[0].path]
    ensures |w| != 1 ==> b == LabelBlock(s, cum, w)
  {
    var wk := SortedWays(w);
    if |wk| == 1 then
      assert forall p :: p in w ==> p == wk[0];
      [Single(wk[0], w[wk[0]])]
    else LabelBlock(s, cum, w)
  }

  /** Which block layout a report uses. */
  datatype Layout = AsWritten | OneLineForOneWay

  /** The aggregates the blocks are printed from: `cum`, and the ways of
      each label. */
  datatype Aggregates = Aggregates(cum: map<Label, nat>, ways: Label -> map<Path, nat>)

  /** The ways of `s`. */
  function WaysOf(a: Aggregates, s: Label): map<Path, nat> {
    a.ways(s)
  }

  /** The block of label `s`. */
  function Block(a: Aggregates, s: Label, layout: Layout): seq<Line> {
    match layout
    case AsWritten => LabelBlock(s, Get(a.cum, s), WaysOf(a, s))
    case OneLineForOneWay => LabelBlockFixed(s, Get(a.cum, s), WaysOf(a, s))
  }

  /** The blocks of `labels`, one after another. */
  function Blocks(a: Aggregates, labels: seq<Label>, layout: Layout): seq<Line> {
    if |labels| == 0 then []
    else Block(a, labels[0], layout) + Blocks(a, labels[1..], layout)
  }

  lemma {:induction false} InBlocks(a: Aggregates, labels: seq<Label>, layout: Layout, l: Line)
    ensures l in Blocks(a, labels, layout) <==> exists s :: s in labels && l in Block(a, s, layout)
  {
    if |labels| > 0 {
      var rest := labels[1..];
      InBlocks(a, rest, layout, l);
      assert forall s :: s in labels <==> s == labels[0] || s in rest;
    }
  }

  /** The labels of the header lines, in order. */
  function HeaderLabels(lines: seq<Line>): (r: seq<Label>)
    ensures |r| <= |lines|
  {
    if |lines| == 0 then []
    else (if lines[0].Header? then [lines[0].name] else []) + HeaderLabels(lines[1..])
  }

  lemma {:induction false} HeaderLabelsAppend(a: seq<Line>, b: seq<Line>)
    ensures HeaderLabels(a + b) == HeaderLabels(a) + HeaderLabels(b)
  {
    if |a| > 0 {
      assert (a + b)[0] == a[0] && (a + b)[1..] == a[1..] + b;
      HeaderLabelsAppend(a[1..], b);
    } else {
      assert a + b == b;
    }
  }

  lemma {:induction false} HeaderLabelsNone(a: seq<Line>)
    requires forall i :: 0 <= i < |a| ==> !a[i].Header?
    ensures HeaderLabels(a) == []
  {
    if |a| > 0 {
      HeaderLabelsNone(a[1..]);
    }
  }

  /** An as-written block has exactly one header line, its label's. */
  lemma LabelBlockHeader(s: Label, cum: nat, w: map<Path, nat>)
    ensures HeaderLabels(LabelBlock(s, cum, w)) == [s]
  {
    var b := LabelBlock(s, cum, w);
    HeaderLabelsNone(b[1..]);
    assert b == [b[0]] + b[1..];
    HeaderLabelsAppend([b[0]], b[1..]);
  }

  /** In the as-written layout each block contributes exactly its header. */
  lemma {:induction false} BlocksHeaders(a: Aggregates, labels: seq<Label>)
    ensures HeaderLabels(Blocks(a, labels, AsWritten)) == labels
  {
    if |labels| > 0 {
      var s := labels[0];
      LabelBlockHeader(s, Get(a.cum, s), WaysOf(a, s));
      HeaderLabelsAppend(Block(a, s, AsWritten), Blocks(a, labels[1..], AsWritten));
      BlocksHeaders(a, labels[1..]);
    }
  }

  /** A header line of the blocks belongs to one of the labels and carries
      that label's cumulative time. */
  lemma BlocksHeaderTime(a: Aggregates, labels: seq<Label>, l: Line)
    requires l in Blocks(a, labels, AsWritten) && l.Header?
    ensures l.name in labels && l.time == Get(a.cum, l.name)
  {
    InBlocks(a, labels, AsWritten, l);
    var s :| s in labels && l in Block(a, s, AsWritten);
    var b := Block(a, s, AsWritten);
    var i :| 0 <= i < |b| && b[i] == l;
    assert i == 0;
  }

  /** The as-written blocks show a stack only as a way of a label with more
      than one way, and then with that way's time. */
  lemma BlocksShowOnlyWays(a: Aggregates, labels: seq<Label>, l: Line, p: Path)
    requires l in Blocks(a, labels, AsWritten) && ShowsPath(l, p)
    ensures exists s :: s in labels && p in WaysOf(a, s) && |WaysOf(a, s)| > 1 && l.time == WaysOf(a, s)[p]
  {
    InBlocks(a, labels, AsWritten, l);
    var s :| s in labels && l in Block(a, s, AsWritten);
    LabelBlockShows(s, Get(a.cum, s), WaysOf(a, s), l, p);
  }

  /** A line of an as-written block that shows a stack is one of more than
      one way, with that way's time. */
  lemma LabelBlockShows(s: Label, cum: nat, w: map<Path, nat>, l: Line, p: Path)
    requires l in LabelBlock(s, cum, w) && ShowsPath(l, p)
    ensures p in w && |w| > 1 && l.time == w[p]
  {
    var b := LabelBlock(s, cum, w);
    var i :| 0 <= i < |b| && b[i] == l;
    assert i != 0;
    assert |b| > 1;
    assert i != |b| - 1;
  }

  /** The as-written blocks show every way of every label that has more than
      one way. */
  lemma BlocksShowWays(a: Aggregates, labels: seq<Label>, s: Label, p: Path)
    requires s in labels && p in WaysOf(a, s) && |WaysOf(a, s)| > 1
    ensures Way(p, WaysOf(a, s)[p]) in Blocks(a, labels, AsWritten)
  {
    assert Way(p, WaysOf(a, s)[p]) in Block(a, s, AsWritten);
    InBlocks(a, labels, AsWritten, Way(p, WaysOf(a, s)[p]));
  }

  /** With the one-line layout every way of every label is shown, with its
      time. */
  lemma BlocksFixedShowWays(a: Aggregates, labels: seq<Label>, s: Label, p: Path)
    requires s in labels && p in WaysOf(a, s)
    ensures exists l :: l in Blocks(a, labels, OneLineForOneWay) && ShowsPath(l, p) && l.time == WaysOf(a, s)[p]
  {
    var w := WaysOf(a, s);
    var b := Block(a, s, OneLineForOneWay);
    assert b == LabelBlockFixed(s, Get(a.cum, s), w);
    var l := if Single(p, w[p]) in b then Single(p, w[p]) else Way(p, w[p]);
    assert l in b;
    InBlocks(a, labels, OneLineForOneWay, l);
  }

  /** The one-line layout shows a stack only as a way of one of the labels,
      with that way's time. */
  lemma BlocksFixedShowOnlyWays(a: Aggregates, labels: seq<Label>, l: Line, p: Path)
    requires l in Blocks(a, labels, OneLineForOneWay) && ShowsPath(l, p)
    ensures exists s :: s in labels && p in WaysOf(a, s) && l.time == WaysOf(a, s)[p]
  {
    InBlocks(a, labels, OneLineForOneWay, l);
    var s :| s in labels && l in Block(a, s, OneLineForOneWay);
    var w := WaysOf(a, s);
    var b := LabelBlockFixed(s, Get(a.cum, s), w);
    if |w| == 1 {
      assert l == b[0];
    } else {
      LabelBlockShows(s, Get(a.cum, s), w, l, p);
    }
  }

  /** With the one-line layout a label whose only way is `p` contributes the
      line naming `p` with its time. */
  lemma BlocksFixedSingle(a: Aggregates, labels: seq<Label>, s: Label, p: Path)
    requires s in labels && WaysOf(a, s).Keys == {p}
    ensures Single(p, WaysOf(a, s)[p]) in Blocks(a, labels, OneLineForOneWay)
  {
    var w := WaysOf(a, s);
    assert |w| == 1 by { assert |w.Keys| == 1; }
    var b := Block(a, s, OneLineForOneWay);
    assert b == LabelBlockFixed(s, Get(a.cum, s), w);
    assert b[0] == Single(p, w[p]);
    InBlocks(a, labels, OneLineForOneWay, b[0]);
  }

  /** In the as-written layout, labels with at most one way contribute their
      header lines alone. */
  lemma {:induction false} BlocksOnlyHeaders(a: Aggregates, labels: seq<Label>)
    requires forall s :: s in labels ==> |WaysOf(a, s)| <= 1
    ensures forall l :: l in Blocks(a, labels, AsWritten) ==> l.Header?
  {
    if |labels| > 0 {
      var s := labels[0];
      assert |Block(a, s, AsWritten)| == 1;
      BlocksOnlyHeaders(a, labels[1..]);
    }
  }

  // ---------------------------------------------------------------- report

  /** `cum` and the ways of every label of `cum`, computed from `m`. */
  function Aggregate(m: Times): (a: Aggregates)
    ensures a.cum == Cum(m)
    ensures forall s :: WaysOf(a, s) == Ways(m, s)
  {
    Aggregates(Cum(m), s => Ways(m, s))
  }

  /** The lines of `report` for the credited times `m`, as written. */
  function ReportLines(m: Times): seq<Line> {
    Blocks(Aggregate(m), SortedLabels(m), AsWritten)
  }

  /** The same report with the one-line layout for labels with one way. */
  function ReportLinesFixed(m: Times): seq<Line> {
    Blocks(Aggregate(m), SortedLabels(m), OneLineForOneWay)
  }

  /** The header lines name every mentioned label once, in increasing label
      order. */
  lemma ReportHeaders(m: Times)
    ensures HeaderLabels(ReportLines(m)) == SortedLabels(m)
    ensures Increasing(HeaderLabels(ReportLines(m)), LabelLess)
    ensures forall s :: s in HeaderLabels(ReportLines(m)) <==> s in Mentioned(m)
  {
    BlocksHeaders(Aggregate(m), SortedLabels(m));
  }

  /** Each header carries its label's cumulative time: the time of every stack,
      once per occurrence of the label in it. */
  lemma ReportHeaderTime(m: Times, l: Line)
    requires l in ReportLines(m) && l.Header?
    ensures l.name in Mentioned(m)
    ensures l.time == SumMap(Weighted(m, l.name))
  {
    BlocksHeaderTime(Aggregate(m), SortedLabels(m), l);
  }

  /** Way lines appear for exactly the labels with more than one way: every
      way of such a label is printed with its time, and nothing else is. */
  lemma ReportWays(m: Times, s: Label, p: Path)
    ensures s in Mentioned(m) && p in Ways(m, s) && |Ways(m, s)| > 1 ==>
              Way(p, Ways(m, s)[p]) in ReportLines(m)
    ensures (exists l :: l in ReportLines(m) && ShowsPath(l, p)) ==>
              exists s' :: s' in Mentioned(m) && p in Ways(m, s') && |Ways(m, s')| > 1
  {
    var a := Aggregate(m);
    var labels := SortedLabels(m);
    if s in Mentioned(m) && p in Ways(m, s) && |Ways(m, s)| > 1 {
      BlocksShowWays(a, labels, s, p);
    }
    if l :| l in ReportLines(m) && ShowsPath(l, p) {
      ReportShowsOnlyWays(m, l, p);
    }
  }

  /** A line of the report that shows a stack shows a way of a label with more
      than one way, with that way's time. */
  lemma ReportShowsOnlyWays(m: Times, l: Line, p: Path)
    requires l in ReportLines(m) && ShowsPath(l, p)
    ensures exists s :: s in Mentioned(m) && p in Ways(m, s) && |Ways(m, s)| > 1 && l.time == Ways(m, s)[p]
  {
    BlocksShowOnlyWays(Aggregate(m), SortedLabels(m), l, p);
  }

  /** A stack is a way of one label only, its last; so a printed way of `s`
      is printed because `s` has more than one way. */
  lemma ShownWayOf(m: Times, l: Line, p: Path, s: Label)
    requires l in ReportLines(m) && ShowsPath(l, p) && p in Ways(m, s)
    ensures |Ways(m, s)| > 1 && l.time == Ways(m, s)[p]
  {
    ReportShowsOnlyWays(m, l, p);
    var s' :| s' in Mentioned(m) && p in Ways(m, s') && |Ways(m, s')| > 1 && l.time == Ways(m, s')[p];
    WayKeysShape(m, s, p);
    WayKeysShape(m, s', p);
  }

  /** As written, a label whose stacks all share one way never has that way
      printed: no line of the report shows its path. */
  lemma SingleWayHidden(m: Times, s: Label, p: Path)
    requires p in Ways(m, s) && |Ways(m, s)| == 1
    ensures forall l :: l in ReportLines(m) ==> !ShowsPath(l, p)
  {
    forall l | l in ReportLines(m) && ShowsPath(l, p) ensures false {
      ShownWayOf(m, l, p, s);
    }
  }

  /** Every stack the report prints is a prefix of a credited stack. */
  lemma ShownPathIsPrefix(m: Times, l: Line, p: Path)
    requires l in ReportLines(m) && ShowsPath(l, p)
    ensures exists k :: k in m && |p| <= |k| && p == k[..|p|]
  {
    ReportShowsOnlyWays(m, l, p);
    var s :| s in Mentioned(m) && p in Ways(m, s) && |Ways(m, s)| > 1 && l.time == Ways(m, s)[p];
    WayKeysShape(m, s, p);
  }

  /** With the intended layout every way of every mentioned label is printed
      with its time. */
  lemma FixedShowsEveryWay(m: Times, s: Label, p: Path)
    requires s in Mentioned(m) && p in Ways(m, s)
    ensures exists l :: l in ReportLinesFixed(m) && ShowsPath(l, p) && l.time == Ways(m, s)[p]
  {
    BlocksFixedShowWays(Aggregate(m), SortedLabels(m), s, p);
  }

  /** With the intended layout a label whose only way is `p` gets the one
      line that names `p` with its time. */
  lemma FixedSingleLine(m: Times, s: Label, p: Path)
    requires s in Mentioned(m) && Ways(m, s).Keys == {p}
    ensures Single(p, Ways(m, s)[p]) in ReportLinesFixed(m)
  {
    BlocksFixedSingle(Aggregate(m), SortedLabels(m), s, p);
  }

  /** With the intended layout, too, every stack the report prints is a prefix
      of a credited stack. */
  lemma FixedShownPathIsPrefix(m: Times, l: Line, p: Path)
    requires l in ReportLinesFixed(m) && ShowsPath(l, p)
    ensures exists k :: k in m && |p| <= |k| && p == k[..|p|]
  {
    BlocksFixedShowOnlyWays(Aggregate(m), SortedLabels(m), l, p);
    var s :| s in SortedLabels(m) && p in Ways(m, s);
    WayKeysShape(m, s, p);
  }

  /** As written, the report is header lines alone exactly when every
      mentioned label has a single way. */
  lemma ReportOnlyHeaders(m: Times)
    ensures (forall l :: l in ReportLines(m) ==> l.Header?) <==>
            (forall s :: s in Mentioned(m) ==> |Ways(m, s)| == 1)
  {
    if forall s :: s in Mentioned(m) ==> |Ways(m, s)| == 1 {
      BlocksOnlyHeaders(Aggregate(m), SortedLabels(m));
    } else {
      var s :| s in Mentioned(m) && |Ways(m, s)| != 1;
      ManyWaysShown(m, s);
    }
  }

  /** A mentioned label without exactly one way has more than one, and they
      are printed on lines that are not headers. */
  lemma ManyWaysShown(m: Times, s: Label)
    requires s in Mentioned(m) && |Ways(m, s)| != 1
    ensures exists l :: l in ReportLines(m) && !l.Header?
  {
    var w := Ways(m, s);
    MentionedHasWay(m, s);
    assert w != map[];
    var p :| p in w;
    ReportWays(m, s, p);
    assert Way(p, w[p]) in ReportLines(m);
  }

  /** What `report` returns, with the state it leaves behind. */
  datatype Outcome = Outcome(lines: seq<Line>, state: Profile)

  /** `report`: commit the pending time (which, as with every commit, does not
      advance `started`), then lay out the aggregates of the committed times. */
  function Report(p: Profile, now: nat): (r: Outcome)
    ensures CommittedTo(p, now, p.stack, r.state.times)
    ensures r.state.stack == p.stack && r.state.started == p.started
    ensures SumMap(r.state.times) == SumMap(p.times) + Elapsed(p.started, now)
    ensures r.lines == ReportLines(r.state.times)
    ensures Increasing(HeaderLabels(r.lines), LabelLess)
  {
    var q := AddTime(p, now);
    ReportHeaders(q.times);
    Outcome(ReportLines(q.times), q)
  }

  /** As written, two reports at the same instant are not one: the second
      credits the time since `started` again. */
  lemma ReportRepeatCredits(p: Profile, now: nat)
    requires now > p.started
    ensures var r1 := Report(p, now); var r2 := Report(r1.state, now);
      SumMap(r2.state.times) == SumMap(p.times) + 2 * (now - p.started) > SumMap(r1.state.times)
  {
  }

  /** A report right after a clear, with nothing pushed in between, prints
      nothing: at most the empty stack is credited, so no label is mentioned. */
  lemma ReportAfterClear(p: Profile, t0: nat, t1: nat)
    ensures Report(Clear(p, t0), t1).lines == []
  {
    var m := Report(Clear(p, t0), t1).state.times;
    assert m.Keys <= {[]};
    assert Mentioned(m) == {};
    assert SortedLabels(m) == [];
  }

  /** The state `report` leaves behind is the one its step in a run of calls
      leaves. */
  lemma ReportStep(p: Profile, now: nat)
    ensures Report(p, now).state == Step(p, ReportE(now))
  {
    var q := AddTime(p, now);
    assert Step(p, ReportE(now)) == q;
    assert Report(p, now).state == q;
  }
}
