/**
 The three usage stories of the crate's unit tests (src/lib.rs:144-175), run
 through the model with symbolic clock readings: `t0` for the clear, `t1` and
 `t2` for the calls in between, `t3` for the report.
 */
module Scenarios {
  import opened Pretty
  import opened Profiles
  import opened Report

  // -------------------------------------------------------------- it_works

  /** `it_works`: clear, push a task whose guard is dropped at once. */
  function ItWorksState(p: Profile, t0: nat, t1: nat, t2: nat): Profile {
    Drop(Push(Clear(p, t0), "hello world", t1), t2)
  }

  /** ... and the report that follows. */
  function ItWorksRun(p: Profile, t0: nat, t1: nat, t2: nat, t3: nat): Outcome {
    Report.Report(ItWorksState(p, t0, t1, t2), t3)
  }

  lemma ItWorksKeys(p: Profile, t0: nat, t1: nat, t2: nat)
    ensures t0 < t2 ==> ["hello world"] in ItWorksState(p, t0, t1, t2).times
    ensures ItWorksState(p, t0, t1, t2).times.Keys <= {[], ["hello world"]}
    ensures ItWorksState(p, t0, t1, t2).stack == []
  {
    var a := Clear(p, t0);
    assert a.times == map[] && a.stack == [] && a.started == t0;
    var b := Push(a, "hello world", t1);
    assert b.stack == ["hello world"] && b.started == t0;
  }

  /** Once any time has passed before the guard is dropped, the report has a
      header for the task. */
  lemma ItWorks(p: Profile, t0: nat, t1: nat, t2: nat, t3: nat)
    requires t0 < t2
    ensures "hello world" in HeaderLabels(ItWorksRun(p, t0, t1, t2, t3).lines)
  {
    var r := ItWorksRun(p, t0, t1, t2, t3);
    var m := r.state.times;
    ItWorksKeys(p, t0, t1, t2);
    assert ["hello world"] in m;
    assert "hello world" in Mentioned(m) by { assert "hello world" in ["hello world"]; }
    ReportHeaders(m);
  }

  /** With the one-line layout for a label with one way, the same calls print
      the stack ["hello world"], rendered "hello world:", so the text the
      test looks for is still there. */
  lemma ItWorksFixed(p: Profile, t0: nat, t1: nat, t2: nat, t3: nat)
    requires t0 < t2
    ensures exists d :: Single(["hello world"], d) in ReportLinesFixed(ItWorksRun(p, t0, t1, t2, t3).state.times)
  {
    var m := ItWorksRun(p, t0, t1, t2, t3).state.times;
    ItWorksReportKeys(p, t0, t1, t2, t3);
    OnlyAlone(m, "hello world");
    LoneWayFixed(m, "hello world");
  }

  /** The stacks credited by the time of the report. */
  lemma ItWorksReportKeys(p: Profile, t0: nat, t1: nat, t2: nat, t3: nat)
    ensures ItWorksRun(p, t0, t1, t2, t3).state.times.Keys <= {[], ["hello world"]}
    ensures t0 < t2 ==> ["hello world"] in ItWorksRun(p, t0, t1, t2, t3).state.times
  {
    ItWorksKeys(p, t0, t1, t2);
  }

  /** When the only stacks are the empty one and `[s]`, `s` occurs only alone. */
  lemma OnlyAlone(m: Times, s: Label)
    requires m.Keys <= {[], [s]}
    ensures forall k :: k in m && s in k ==> k == [s]
  {
    forall k | k in m && s in k ensures k == [s] {
      assert k != [];
    }
  }

  /** With the one-line layout, such a label's stack is printed on a line of
      its own. */
  lemma LoneWayFixed(m: Times, s: Label)
    requires forall k :: k in m && s in k ==> k == [s]
    requires [s] in m
    ensures exists d :: Single([s], d) in ReportLinesFixed(m)
  {
    LoneWay(m, s);
    FixedSingleLine(m, s, [s]);
  }

  /** A label that occurs only in the stack holding it alone has that stack as
      its single way. */
  lemma LoneWay(m: Times, s: Label)
    requires forall k :: k in m && s in k ==> k == [s]
    requires [s] in m
    ensures s in Mentioned(m) && Ways(m, s).Keys == {[s]}
  {
    assert s in [s];
    assert WayKey([s], s) == [s] by {
      assert FirstIndex([s], s) == 0;
    }
    assert WayKeys(m, s) == {[s]};
  }

  // --------------------------------------------------------------- nesting

  /** `nesting`: clear, push "hello", push "world" inside it. */
  function NestingState(p: Profile, t0: nat, t1: nat, t2: nat): Profile {
    Push(Push(Clear(p, t0), "hello", t1), "world", t2)
  }

  /** ... and the report that follows. */
  function NestingRun(p: Profile, t0: nat, t1: nat, t2: nat, t3: nat): Outcome {
    Report.Report(NestingState(p, t0, t1, t2), t3)
  }

  lemma NestingStateShape(p: Profile, t0: nat, t1: nat, t2: nat)
    ensures NestingState(p, t0, t1, t2).stack == ["hello", "world"]
    ensures NestingState(p, t0, t1, t2).started == t0
    ensures NestingState(p, t0, t1, t2).times.Keys <= {[], ["hello"]}
  {
    var a := Clear(p, t0);
    assert a.times == map[] && a.stack == [] && a.started == t0;
    var b := Push(a, "hello", t1);
    assert b.stack == ["hello"] && b.started == t0;
    assert b.times.Keys <= {[]};
  }

  /** The stacks credited by the time of the report. */
  lemma NestingKeys(p: Profile, t0: nat, t1: nat, t2: nat, t3: nat)
    ensures NestingRun(p, t0, t1, t2, t3).state.times.Keys <= {[], ["hello"], ["hello", "world"]}
    ensures t0 < t3 ==> ["hello", "world"] in NestingRun(p, t0, t1, t2, t3).state.times
  {
    NestingStateShape(p, t0, t1, t2);
  }

  /** In a map of those keys, "world" has the single way ["hello", "world"]. */
  lemma NestingWays(m: Times)
    requires m.Keys <= {[], ["hello"], ["hello", "world"]}
    requires ["hello", "world"] in m
    ensures Ways(m, "world").Keys == {["hello", "world"]}
  {
    var hw: Path := ["hello", "world"];
    assert "hello" != "world" by { assert "hello"[0] != "world"[0]; }
    assert WayKey(hw, "world") == hw by {
      assert FirstIndex(hw, "world") == 1;
    }
    forall k | k in m && "world" in k ensures k == hw {
      assert k != [] && k != ["hello"];
    }
    assert WayKeys(m, "world") == {hw};
  }

  /** In such a map, "hello" has the single way ["hello"]. */
  lemma NestingHelloWay(m: Times)
    requires m.Keys <= {[], ["hello"], ["hello", "world"]}
    requires ["hello", "world"] in m
    ensures Ways(m, "hello").Keys == {["hello"]}
  {
    var hw: Path := ["hello", "world"];
    assert WayKey(hw, "hello") == ["hello"] by {
      assert FirstIndex(hw, "hello") == 0;
    }
    assert WayKey(["hello"], "hello") == ["hello"] by {
      assert FirstIndex(["hello"], "hello") == 0;
    }
    forall k | k in m && "hello" in k ensures WayKey(k, "hello") == ["hello"] {
      assert k == ["hello"] || k == hw;
    }
    assert "hello" in hw;
    assert WayKeys(m, "hello") == {["hello"]};
  }

  /** In such a map no label other than "hello" and "world" occurs. */
  lemma NestingMentioned(m: Times)
    requires m.Keys <= {[], ["hello"], ["hello", "world"]}
    ensures forall s :: s in Mentioned(m) ==> s == "hello" || s == "world"
  {
    forall s | s in Mentioned(m) ensures s == "hello" || s == "world" {
      var k :| k in m && s in k;
      assert k == [] || k == ["hello"] || k == ["hello", "world"];
    }
  }

  /** Both labels of such a map have one way, so the report as written is
      header lines alone. */
  lemma NestingOnlyHeaders(m: Times)
    requires m.Keys <= {[], ["hello"], ["hello", "world"]}
    requires ["hello", "world"] in m
    ensures forall l :: l in ReportLines(m) ==> l.Header?
  {
    NestingWays(m);
    NestingHelloWay(m);
    NestingMentioned(m);
    forall s | s in Mentioned(m) ensures |Ways(m, s)| == 1 {
      OneWay(Ways(m, s), if s == "hello" then ["hello"] else ["hello", "world"]);
    }
    ReportOnlyHeaders(m);
  }

  lemma OneWay(w: map<Path, nat>, p: Path)
    requires w.Keys == {p}
    ensures |w| == 1
  {
    assert |w.Keys| == 1;
  }

  /** As written, `nesting` run on its own (no other test sharing the
      profile at the same time) cannot find "hello:world" in the report: the
      only way of "world" is ["hello", "world"], a single way, so no line
      shows that stack. Indeed every line is a header, and a header prints a
      percentage, its one label, a colon, a space and the seconds
      (src/lib.rs:122), so no line's text holds "hello:world". */
  lemma NestingHidesPath(p: Profile, t0: nat, t1: nat, t2: nat, t3: nat)
    requires t0 < t3
    ensures Ways(NestingRun(p, t0, t1, t2, t3).state.times, "world").Keys == {["hello", "world"]}
    ensures forall l :: l in NestingRun(p, t0, t1, t2, t3).lines ==> !ShowsPath(l, ["hello", "world"])
    ensures forall l :: l in NestingRun(p, t0, t1, t2, t3).lines ==> l.Header?
  {
    var m := NestingRun(p, t0, t1, t2, t3).state.times;
    NestingKeys(p, t0, t1, t2, t3);
    NestingWays(m);
    SingleWayHidden(m, "world", ["hello", "world"]);
    NestingOnlyHeaders(m);
  }

  /** With one line for a label with one way, the same calls print the stack
      ["hello", "world"]. */
  lemma NestingFixedShowsPath(p: Profile, t0: nat, t1: nat, t2: nat, t3: nat)
    requires t0 < t3
    ensures exists l :: l in ReportLinesFixed(NestingRun(p, t0, t1, t2, t3).state.times) && ShowsPath(l, ["hello", "world"])
  {
    var m := NestingRun(p, t0, t1, t2, t3).state.times;
    var hw: Path := ["hello", "world"];
    NestingKeys(p, t0, t1, t2, t3);
    NestingWays(m);
    assert hw in Ways(m, "world");
    assert "world" in Mentioned(m) by {
      assert "world" in hw;
    }
    FixedShowsEveryWay(m, "world", hw);
  }

  /** The text `nesting` looks for is the rendering of that stack. */
  lemma NestingRendering()
    ensures PrettyStack(["hello", "world"]) == "hello:world:"
  {
    var v: seq<string> := ["hello", "world"];
    assert v[1..] == ["world"] && v[1..][1..] == [];
  }

  // ---------------------------------------------------------- replace_works

  /** `replace_works`: clear, push "hello", replace it with "world". */
  function ReplaceState(p: Profile, t0: nat, t1: nat, t2: nat): Profile {
    Replace(Push(Clear(p, t0), "hello", t1), "world", t2)
  }

  /** ... and the report that follows. */
  function ReplaceRun(p: Profile, t0: nat, t1: nat, t2: nat, t3: nat): Outcome {
    Report.Report(ReplaceState(p, t0, t1, t2), t3)
  }

  lemma ReplaceStateShape(p: Profile, t0: nat, t1: nat, t2: nat)
    ensures ReplaceState(p, t0, t1, t2).stack == ["world"]
    ensures ReplaceState(p, t0, t1, t2).started == t0
    ensures ReplaceState(p, t0, t1, t2).times.Keys <= {[], ["hello"]}
    ensures t0 < t2 ==> ["hello"] in ReplaceState(p, t0, t1, t2).times
  {
    var a := Clear(p, t0);
    assert a.times == map[] && a.stack == [] && a.started == t0;
    var b := Push(a, "hello", t1);
    assert b.stack == ["hello"] && b.started == t0;
    assert b.times.Keys <= {[]};
  }

  /** The stacks credited by the time of the report. */
  lemma ReplaceKeys(p: Profile, t0: nat, t1: nat, t2: nat, t3: nat)
    ensures ReplaceRun(p, t0, t1, t2, t3).state.times.Keys <= {[], ["hello"], ["world"]}
    ensures t0 < t2 ==> ["hello"] in ReplaceRun(p, t0, t1, t2, t3).state.times
    ensures t0 < t3 ==> ["world"] in ReplaceRun(p, t0, t1, t2, t3).state.times
  {
    ReplaceStateShape(p, t0, t1, t2);
  }

  /** None of those keys holds both labels. */
  lemma SeparateKeys(m: Times)
    requires m.Keys <= {[], ["hello"], ["world"]}
    ensures forall k :: k in m ==> !("hello" in k && "world" in k)
  {
    assert "hello" != "world" by { assert "hello"[0] != "world"[0]; }
    forall k | k in m ensures !("hello" in k && "world" in k) {
      assert k == [] || k == ["hello"] || k == ["world"];
    }
  }

  /** When no stack holds both "hello" and "world", no line of the report
      shows a stack holding both. */
  lemma NoLineNests(m: Times)
    requires forall k :: k in m ==> !("hello" in k && "world" in k)
    ensures forall l, q :: l in ReportLines(m) && ShowsPath(l, q) ==> !("hello" in q && "world" in q)
  {
    forall l, q | l in ReportLines(m) && ShowsPath(l, q) ensures !("hello" in q && "world" in q) {
      ShownPathIsPrefix(m, l, q);
      var k :| k in m && |q| <= |k| && q == k[..|q|];
      assert forall x :: x in q ==> x in k;
    }
  }

  /** After `replace_works`'s calls the report has headers for "hello" and
      "world", yet no stack, and so no printed way, holds both labels. */
  lemma ReplaceWorks(p: Profile, t0: nat, t1: nat, t2: nat, t3: nat)
    requires t0 < t2 && t0 < t3
    ensures "hello" in HeaderLabels(ReplaceRun(p, t0, t1, t2, t3).lines)
    ensures "world" in HeaderLabels(ReplaceRun(p, t0, t1, t2, t3).lines)
    ensures forall k :: k in ReplaceRun(p, t0, t1, t2, t3).state.times ==> !("hello" in k && "world" in k)
    ensures forall l, q :: l in ReplaceRun(p, t0, t1, t2, t3).lines && ShowsPath(l, q) ==>
              !("hello" in q && "world" in q)
  {
    var m := ReplaceRun(p, t0, t1, t2, t3).state.times;
    ReplaceKeys(p, t0, t1, t2, t3);
    SeparateKeys(m);
    assert "hello" in Mentioned(m) by { assert "hello" in ["hello"]; }
    assert "world" in Mentioned(m) by { assert "world" in ["world"]; }
    ReportHeaders(m);
    NoLineNests(m);
  }

  /** With the one-line layout for a label with one way, `replace_works`'s
      calls print the stacks ["hello"] and ["world"], one line each, and
      still no printed stack holds both labels. */
  lemma ReplaceWorksFixed(p: Profile, t0: nat, t1: nat, t2: nat, t3: nat)
    requires t0 < t2 && t0 < t3
    ensures exists d :: Single(["hello"], d) in ReportLinesFixed(ReplaceRun(p, t0, t1, t2, t3).state.times)
    ensures exists d :: Single(["world"], d) in ReportLinesFixed(ReplaceRun(p, t0, t1, t2, t3).state.times)
    ensures forall l, q :: l in ReportLinesFixed(ReplaceRun(p, t0, t1, t2, t3).state.times) && ShowsPath(l, q) ==>
              !("hello" in q && "world" in q)
  {
    var m := ReplaceRun(p, t0, t1, t2, t3).state.times;
    ReplaceKeys(p, t0, t1, t2, t3);
    SeparateKeys(m);
    LoneLabels(m);
    LoneWayFixed(m, "hello");
    LoneWayFixed(m, "world");
    FixedNoLineNests(m);
  }

  /** In a map of those keys, each label occurs only in the stack holding it
      alone. */
  lemma LoneLabels(m: Times)
    requires m.Keys <= {[], ["hello"], ["world"]}
    ensures forall k :: k in m && "hello" in k ==> k == ["hello"]
    ensures forall k :: k in m && "world" in k ==> k == ["world"]
  {
    assert "hello" != "world" by { assert "hello"[0] != "world"[0]; }
    forall k | k in m && ("hello" in k || "world" in k) ensures k == ["hello"] || k == ["world"] {
      assert k == [] || k == ["hello"] || k == ["world"];
    }
  }

  /** With the one-line layout too, when no stack holds both "hello" and
      "world", no line shows a stack holding both. */
  lemma FixedNoLineNests(m: Times)
    requires forall k :: k in m ==> !("hello" in k && "world" in k)
    ensures forall l, q :: l in ReportLinesFixed(m) && ShowsPath(l, q) ==> !("hello" in q && "world" in q)
  {
    forall l, q | l in ReportLinesFixed(m) && ShowsPath(l, q) ensures !("hello" in q && "world" in q) {
      FixedShownPathIsPrefix(m, l, q);
      var k :| k in m && |q| <= |k| && q == k[..|q|];
      assert forall x :: x in q ==> x in k;
    }
  }
}
