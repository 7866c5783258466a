# crude-profiler, modelled in Dafny

This project models the core of the Rust crate `crude-profiler` (src/lib.rs).
The crate is a manual profiler. A caller `push`es a named task and gets a
`Guard`; dropping the guard pops the top task. `replace` makes the stack of
tasks exactly the one new task, whatever was on it. `push`, `replace` and the
guard's drop each first *commit*: they credit the time since `started` to the
current stack of task names. `clear` commits nothing: it forgets all timings,
empties the stack and restarts the clock.

`report` commits too, then prints three things:
- every label's cumulative time `cum`;
- for a label reached along more than one stack prefix, its *ways*: the time
  grouped by the stack up to and including the label's first occurrence;
- each way rendered by `pretty_stack` as `a:b:c:`.

The model is pure. The process-wide state becomes an explicit `Profile` value.
The clock reading becomes a `now: nat` argument in nanoseconds. Each call
becomes a function from state to state.

Modules, one file each:

- `Ordering` (ordering.dfy): lexicographic order on sequences, as Rust's `Ord`
  on `str` and `Vec`, and sorting a finite set into an increasing sequence.
- `Tallies` (tallies.dfy): maps from keys to durations. Holds `add_to_map` and
  order-free sums over a map.
- `Profiles` (profiles.dfy): the `Profile` state machine (`new`, `add_time`,
  `push`, `replace`, guard drop, `clear`), runs of several calls, and the
  corrected commit.
- `Pretty` (pretty.dfy): `pretty_stack`, and that its rendering can be read
  back.
- `Report` (report.dfy): the total, `cum`, the ways, the sorted line structure
  of `report`, and the one-line layout for labels with one way.
- `Scenarios` (scenarios.dfy): the crate's three unit tests run through the
  model, with symbolic clock readings.

In these points the code behaves in ways a reader might not expect, and the
model follows the code:

- `add_time` never advances `started`. Every commit credits the whole time
  since the last `clear`, or since the profile was created when there was
  none (src/lib.rs:30).
- `replace` makes the stack exactly `[task]`, whatever its depth was, though
  its doc comment (src/lib.rs:69) speaks of replacing the last task pushed.
- No commit counts are kept.
- `report` always prints a header line for every label. It prints way lines
  only for a label with more than one way, though the `nesting` test
  (src/lib.rs:162) looks for a way of a label that has only one.
- Labels and ways are printed in sorted key order, not by duration.
- `report` commits like `push`, `replace` and the guard's drop. Two reports
  at one instant past `started` therefore credit the pending time twice, and
  the second sees larger totals (`Report.ReportRepeatCredits`).

## Model

| member | source | states |
|---|---|---|
| `Tallies.AddToMap` | src/lib.rs:14-24 | the entry for `k` grows by `d`, starting from zero when vacant; every other entry is untouched and no other key appears |
| `Tallies.SumMapAdd` | src/lib.rs:14-24 | adding `d` at one key adds exactly `d` to the sum of all entries |
| `Profiles.New` | src/lib.rs:27-33 | a new profile has no timings and an empty stack, and was started now |
| `Profiles.AddTime` | src/lib.rs:34-39 | when the clock is past `started`, the current stack is credited with the time since `started`, otherwise nothing changes; stack and `started` are kept; the total grows by exactly the elapsed time |
| `Profiles.Push` | src/lib.rs:61-67 | the time so far goes to the stack before the push; the task is appended on top |
| `Profiles.Replace` | src/lib.rs:70-76 | the time so far goes to the stack before the call; the stack becomes the single task, whatever its depth was |
| `Profiles.Drop` | src/lib.rs:50-57 | dropping a guard credits the stack including its top label, then removes exactly the top label; an empty stack stays empty |
| `Profiles.PushThenDrop` | src/lib.rs:50-67 | a push followed by its guard's drop restores the stack |
| `Profiles.Clear` | src/lib.rs:79-84 | clearing yields exactly a new profile started at that instant |
| `Profiles.ClearIdempotent` | src/lib.rs:79-84 | clearing twice at one instant is clearing once, and leaves nothing credited |
| `Profiles.RunAccounting` | src/lib.rs:34-39 | over any calls without a clear, `started` never moves, and the total grows by the time since `started` at every call, so intervals overlap |
| `Profiles.AddTimeDoubleCounts` | src/lib.rs:34-39 | a clear at 0, a push at 1 and its drop at 2 credit 3 in all |
| `Profiles.Commit` | src/lib.rs:34-39 | the corrected commit credits like `add_time` and then moves `started` to `now` |
| `Profiles.CommitIdempotent` | src/lib.rs:34-39 | with the corrected commit, committing twice at one instant is committing once |
| `Profiles.CommitBalanced` | src/lib.rs:34-39 | with the corrected commit, the total since a clear equals the time from the clear to the last commit, which is the wall-clock time elapsed when the clock has not gone back |
| `Pretty.PrettyStack` | src/lib.rs:86-93 | the rendering has one character per label character plus one `:` per label, and ends in `:` for a non-empty stack |
| `Pretty.PrettyStackSingle` | src/lib.rs:86-93 | a single label, whatever its characters, renders as itself followed by `:`; with the append lemma this fixes the text of every stack |
| `Pretty.PrettyStackAppend` | src/lib.rs:86-93 | rendering a concatenation concatenates the renderings |
| `Pretty.UnprettyPrettyStack` | src/lib.rs:86-93 | when no label contains `:`, cutting the rendering at each `:` gives back the stack |
| `Pretty.PrettyStackInjective` | src/lib.rs:86-93 | distinct colon-free stacks render to distinct text |
| `Pretty.PrettyStackAmbiguous` | src/lib.rs:86-93 | with a `:` inside a label, the distinct stacks `["a:b"]` and `["a", "b"]` render alike |
| `Ordering.LexStrictTotal` | src/lib.rs:109-110 | lexicographic order over a strict total order on elements is itself irreflexive, transitive and total |
| `Ordering.SortSet` | src/lib.rs:109-110 | sorting lists each element of the set exactly once, in strictly increasing order |
| `Report.LabelOrder` | src/lib.rs:117-118 | the order `shortkeys.sort()` uses on labels is a strict total order |
| `Report.PathOrder` | src/lib.rs:109-110 | the order `keys.sort()` uses on stacks is a strict total order |
| `Report.SortedKeys` | src/lib.rs:109-110 | the sorted keys list every credited stack once, in increasing order |
| `Report.Total` | src/lib.rs:105-108 | the total is the order-free sum of all credited time, the empty stack's included |
| `Report.AddLabels` | src/lib.rs:113-115 | the inner `cum` loop adds the stack's time once per occurrence of each label, and adds every label of the stack as a key |
| `Report.CumOver` | src/lib.rs:112-116 | after the outer `cum` loop, the keys are the labels of the stacks visited, and each holds its weighted sum over them |
| `Report.Cum` | src/lib.rs:111-116 | `cum` has a key for exactly the labels of credited stacks, and holds each stack's time once per mention of the label |
| `Report.CumWithinTotal` | src/lib.rs:105-122 | for a label that no stack repeats, `cum` is the time of the stacks containing it, at most the total |
| `Report.RecursionExceedsTotal` | src/lib.rs:105-122 | for the single stack `["a", "a"]` with time 1, `cum` of "a" is 2 and the total is 1 |
| `Report.SortedLabels` | src/lib.rs:117-118 | the labels are listed exactly when mentioned by some credited stack, in increasing order |
| `Report.WayKey` | src/lib.rs:125-126 | a way is a non-empty prefix of the stack that ends with the label and holds it only once |
| `Report.WaysOver` | src/lib.rs:123-128 | the ways loop over the visited stacks has one key per way found; each way holds the time of the visited stacks whose way it is, and all ways add up to the time of the visited stacks containing the label |
| `Report.Ways` | src/lib.rs:123-128 | the ways of `s` are exactly the ways of the stacks containing `s`; each way holds the time of the credited stacks whose way through `s` it is, and they add up to the time of the stacks containing `s` |
| `Report.WayKeysShape` | src/lib.rs:123-132 | every way ends with its label, holds it once and is a prefix of a credited stack, so the filter at line 132 drops nothing |
| `Report.WaysBoundedByCum` | src/lib.rs:111-128 | the ways of a label add up to the time of the stacks containing it, which is at most its `cum` |
| `Report.MentionedHasWay` | src/lib.rs:117-128 | every label in `cum` has at least one way |
| `Report.SortedWays` | src/lib.rs:129-130 | the sorted ways list every way once, in increasing order |
| `Report.LabelBlock` | src/lib.rs:120-139 | a label's lines are a header with its `cum`; with more than one way, they go on with each way and its time and end in a blank line; with one way, the header is all |
| `Report.LabelBlockSorted` | src/lib.rs:129-137 | the way lines of a label are in increasing stack order |
| `Report.LabelBlockFixed` | src/lib.rs:131-139 | with the corrected layout, every way of a label is printed with its time; a label with a single way gets exactly one line, naming that way with its time, and a label with several ways gets the block `report` prints as written |
| `Report.ReportHeaders` | src/lib.rs:117-122 | the headers name each mentioned label exactly once, in increasing order, and no other label |
| `Report.ReportHeaderTime` | src/lib.rs:120-122 | each header's label is mentioned, and the header carries the label's cumulative time |
| `Report.ReportWays` | src/lib.rs:131-139 | every way of a label with more than one way is printed with its time; a printed stack is always such a way |
| `Report.ShownPathIsPrefix` | src/lib.rs:123-137 | every printed stack is a prefix of a credited stack |
| `Report.SingleWayHidden` | src/lib.rs:131-139 | the only way of a label with one way is printed by no line of the report |
| `Report.FixedShowsEveryWay` | src/lib.rs:131-139 | with the corrected layout, every way of every mentioned label is printed with its time |
| `Report.FixedSingleLine` | src/lib.rs:131-139 | with the corrected layout, a label whose only way is `p` gets a one-line entry naming `p` with its time |
| `Report.FixedShownPathIsPrefix` | src/lib.rs:123-139 | with the corrected layout too, every printed stack is a prefix of a credited stack |
| `Report.ReportOnlyHeaders` | src/lib.rs:117-139 | as written, the report is header lines alone exactly when every mentioned label has a single way |
| `Report.Report` | src/lib.rs:100-142 | `report` commits like `add_time` and keeps stack and `started`; its lines describe the committed times, headers in increasing label order |
| `Report.ReportRepeatCredits` | src/lib.rs:100-103 | two reports at one instant past `started` credit the pending time twice, so the second changes the totals |
| `Report.ReportAfterClear` | src/lib.rs:100-141 | a report right after a clear, with nothing pushed in between, prints no line: only the empty stack can be credited, so no label is mentioned |
| `Report.ReportStep` | src/lib.rs:100-103 | the state `report` leaves behind is the commit its step in a run of calls makes, which ties `Profiles.RunAccounting` to the report |
| `Scenarios.ItWorks` | src/lib.rs:148-154 | after clear, push and drop with time passing, the report has a header for the task |
| `Scenarios.NestingHidesPath` | src/lib.rs:156-163 | when the calls of `nesting` run on their own (clear, push "hello", push "world", report), "world" has the single way `["hello", "world"]`, no line prints it, and every line is a header, whose text `label: seconds` cannot hold `hello:world` |
| `Scenarios.ItWorksFixed` | src/lib.rs:148-154 | with the corrected layout, `it_works`'s calls print the stack `["hello world"]` on a line of its own, so the text the test looks for is still there |
| `Scenarios.NestingFixedShowsPath` | src/lib.rs:156-163 | with the corrected layout, the same calls print the stack `["hello", "world"]` |
| `Scenarios.NestingRendering` | src/lib.rs:86-93 | that stack renders as `hello:world:`, the text `nesting` looks for |
| `Scenarios.ReplaceWorks` | src/lib.rs:165-174 | after clear, push "hello", replace "world", report, both labels have headers, and no credited or printed stack holds both |
| `Scenarios.ReplaceWorksFixed` | src/lib.rs:165-174 | with the corrected layout, `replace_works`'s calls print `["hello"]` and `["world"]` on a line each, and no printed stack holds both labels |

## Left out

- Percentages and seconds are not modelled: `duration_to_f64` (src/lib.rs:95-97) and the percentage arithmetic at lines 119-122 and 133-136 are floating point. A line keeps its label or stack and its integer duration. The NaN percentage of a zero total goes with them.
- The text of each line is not modelled: `format!` and `String` building (lines 104, 122, 134-138). A line is the `Report.Line` value it prints; only `pretty_stack` is modelled down to characters.
- The `Mutex`, `lazy_static!` and `unwrap` on the lock are left out (lines 42-44 and the start of every call). The state is passed explicitly, so lock poisoning and concurrent callers are not modelled. The crate's tests share that one profile and may run on parallel threads; `Scenarios` models each test running on its own.
- `Instant::now()` is left out: every call takes its clock reading as an argument, in nanoseconds.
- `Guard` (lines 47-48) carries no data. When Rust drops it is scoping, not program logic, so the order of `Push`/`Drop` calls in `Scenarios` stands for it.
- `HashMap` iteration order is left out. The sums loop over the keys in sorted order, and `Tallies.SumOverIsSumMap` shows the order does not matter.
- Label ordering compares characters. Rust's `str` comparison compares UTF-8 bytes, and the two orders agree.
- `Tallies.AddToMap`: durations are unbounded naturals. The overflow panic of `Duration` addition is not modelled.
- benches/bench.rs is not part of this model.

## Findings

| source | as written | input that shows it | evidently intended | confidence | as-written member | corrected member |
|---|---|---|---|---|---|---|
| src/lib.rs:131-139, 156-163 | a way is printed only for a label with more than one way, yet the `nesting` test expects "hello:world" in the report | with no other test touching the shared profile meanwhile: clear at t0; push "hello" at t1; push "world" at t2; report at t3 > t0. Each label then has exactly one way, so no line prints a stack | a label with a single way gets one line naming its whole way, so `nesting` finds `hello:world:` | not executed | `Scenarios.NestingHidesPath` | `Report.LabelBlockFixed` |
| src/lib.rs:34-39 | `add_time` credits `now - started` but never advances `started`, so every commit re-credits the whole time since the last `clear` | clear at 0; push "a" at 1; drop its guard at 2. This credits 1 to `[]` and 2 to `["a"]`: 3 in all after 2 ns | each commit credits only the time since the previous commit, and then moves `started` to `now` | not executed | `Profiles.AddTimeDoubleCounts` | `Profiles.Commit` |
