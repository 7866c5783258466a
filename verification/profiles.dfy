/**
 The profile state machine of src/lib.rs: a map from label stacks to the time
 credited to them, the current stack of labels, and the instant the
 accounting was last started. Instants and durations are nanoseconds; the
 clock reading `now` is an argument of every transition instead of a call to
 `Instant::now()`, and the process-wide mutex around the state is replaced by
 passing the state explicitly.
 */
module Profiles {
  import opened Tallies

  /** A task name. */
  type Label = string

  /** A stack of task names, outermost first. */
  type Path = seq<Label>

  /** Time credited to each exact stack. */
  type Times = map<Path, nat>

  datatype Profile = Profile(times: Times, stack: Path, started: nat)

  /** `Profile::new`: no timings, empty stack, started now. */
  function New(now: nat): (p: Profile)
    ensures p.times == map[] && p.stack == [] && p.started == now
  {
    Profile(map[], [], now)
  }

  /** The time a commit at `now` credits: the time since `started`, or nothing
      when the clock has not moved past it. */
  function Elapsed(started: nat, now: nat): nat {
    if now > started then now - started else 0
  }

  /** `times'` is `p.times` after a commit at `now` to `path`: credited with the
      time since `p.started` when `now` is later, unchanged otherwise. */
  ghost predicate CommittedTo(p: Profile, now: nat, path: Path, times': Times) {
    if now > p.started then Credited(p.times, times', path, now - p.started)
    else times' == p.times
  }

  /** `add_time`: credit the current stack with the time since `started`.
      `started` itself is never advanced. */
  function AddTime(p: Profile, now: nat): (r: Profile)
    ensures CommittedTo(p, now, p.stack, r.times)
    ensures r.stack == p.stack && r.started == p.started
    ensures SumMap(r.times) == SumMap(p.times) + Elapsed(p.started, now)
  {
    if now > p.started then
      SumMapAdd(p.times, p.stack, now - p.started);
      p.(times := AddToMap(p.times, p.stack, now - p.started))
    else p
  }

  /** `push`: commit to the stack as it was, then append `task`. */
  function Push(p: Profile, task: Label, now: nat): (r: Profile)
    ensures CommittedTo(p, now, p.stack, r.times)
    ensures r.stack == p.stack + [task]
    ensures r.started == p.started
  {
    var q := AddTime(p, now);
    q.(stack := q.stack + [task])
  }

  /** `replace`: commit to the stack as it was, then make the stack exactly
      `[task]`, whatever its depth was. */
  function Replace(p: Profile, task: Label, now: nat): (r: Profile)
    ensures CommittedTo(p, now, p.stack, r.times)
    ensures r.stack == [task]
    ensures r.started == p.started
  {
    var q := AddTime(p, now);
    q.(stack := [task])
  }

  /** Dropping a `Guard`: commit to the stack including its top label, then pop
      one label; `Vec::pop` on an empty stack leaves it empty. */
  function Drop(p: Profile, now: nat): (r: Profile)
    ensures CommittedTo(p, now, p.stack, r.times)
    ensures |p.stack| > 0 ==> r.stack == p.stack[..|p.stack| - 1]
    ensures |p.stack| == 0 ==> r.stack == []
    ensures r.started == p.started
  {
    var q := AddTime(p, now);
    if |q.stack| == 0 then q else q.(stack := q.stack[..|q.stack| - 1])
  }

  /** `clear`: forget all timings and the stack, restart the clock at `now`. */
  function Clear(p: Profile, now: nat): (r: Profile)
    ensures r == New(now)
  {
    Profile(map[], [], now)
  }

  /** Clearing twice at the same instant is clearing once. */
  lemma ClearIdempotent(p: Profile, now: nat)
    ensures Clear(Clear(p, now), now) == Clear(p, now)
    ensures SumMap(Clear(p, now).times) == 0
  {
  }

  /** A push undone by a guard drop restores the stack, whatever time passed. */
  lemma PushThenDrop(p: Profile, task: Label, t1: nat, t2: nat)
    ensures Drop(Push(p, task, t1), t2).stack == p.stack
  {
    var q := Push(p, task, t1);
    assert q.stack[..|q.stack| - 1] == p.stack;
  }

  /** One call of the public interface, with the clock reading it takes. */
  datatype Event =
    | PushE(task: Label, now: nat)
    | ReplaceE(task: Label, now: nat)
    | DropE(now: nat)
    | ReportE(now: nat)
    | ClearE(now: nat)

  /** The state change of one call; a report commits like the others. */
  function Step(p: Profile, e: Event): Profile {
    match e
    case PushE(task, now) => Push(p, task, now)
    case ReplaceE(task, now) => Replace(p, task, now)
    case DropE(now) => Drop(p, now)
    case ReportE(now) => AddTime(p, now)
    case ClearE(now) => Clear(p, now)
  }

  /** The state after a sequence of calls, in order. */
  function Run(p: Profile, es: seq<Event>): Profile {
    if |es| == 0 then p else Step(Run(p, es[..|es| - 1]), es[|es| - 1])
  }

  /** Every commit of `es` credits the time since `started`. */
  function CreditedSince(started: nat, es: seq<Event>): nat {
    if |es| == 0 then 0
    else CreditedSince(started, es[..|es| - 1]) + Elapsed(started, es[|es| - 1].now)
  }

  /** Between two clears, `started` never moves and every call adds the time
      since that clear to the total: intervals overlap, they are not
      partitioned. */
  lemma {:induction false} RunAccounting(p: Profile, es: seq<Event>)
    requires forall i :: 0 <= i < |es| ==> !es[i].ClearE?
    ensures Run(p, es).started == p.started
    ensures SumMap(Run(p, es).times) == SumMap(p.times) + CreditedSince(p.started, es)
  {
    if |es| > 0 {
      var init := es[..|es| - 1];
      RunAccounting(p, init);
      var q := Run(p, init);
      var e := es[|es| - 1];
      assert Step(q, e).times == AddTime(q, e.now).times;
    }
  }

  /** The commit as the accounting evidently intends it: credit the time since
      the last commit and advance `started` to `now`. */
  function Commit(p: Profile, now: nat): (r: Profile)
    ensures CommittedTo(p, now, p.stack, r.times)
    ensures r.stack == p.stack
    ensures r.started == if now > p.started then now else p.started
  {
    if now > p.started then
      Profile(AddToMap(p.times, p.stack, now - p.started), p.stack, now)
    else p
  }

  /** A second commit at the same instant credits nothing more. */
  lemma CommitIdempotent(p: Profile, now: nat)
    ensures Commit(Commit(p, now), now) == Commit(p, now)
  {
  }

  /** With `Commit`, the total credited since a clear at `epoch` is exactly the
      time from `epoch` to the last commit: the wall-clock time elapsed, when
      the clock has not gone back. */
  lemma CommitBalanced(p: Profile, now: nat, epoch: nat)
    requires epoch <= p.started
    requires SumMap(p.times) == p.started - epoch
    ensures epoch <= Commit(p, now).started
    ensures SumMap(Commit(p, now).times) == Commit(p, now).started - epoch
    ensures now >= p.started ==> SumMap(Commit(p, now).times) == now - epoch
  {
    if now > p.started {
      SumMapAdd(p.times, p.stack, now - p.started);
    }
  }

  /** As written, a clear at 0, a push at 1 and its guard dropped at 2 credit
      3 nanoseconds in all, more than the 2 that elapsed. */
  lemma AddTimeDoubleCounts()
    ensures SumMap(Run(New(0), [PushE("a", 1), DropE(2)]).times) == 3
  {
    var es := [PushE("a", 1), DropE(2)];
    RunAccounting(New(0), es);
    assert es[..1] == [PushE("a", 1)];
    assert es[..1][..0] == [];
  }
}
