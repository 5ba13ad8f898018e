/**
 * One line every arrival waits in (`cli/src/arrivalQueue.ts`, and `serializeReconfigure` of the
 * browser's `IndexerState.ts`, the same machine): a chain of promises, each work started by the
 * settling of the one before. A work reads the shared state when it starts and leaves its own when
 * it settles, with any other step in between.
 */
module ArrivalQueue {
  import opened Options

  datatype Outcome = Fulfilled(value: int) | Rejected(error: int)

  /** What a work makes of the state it found, and how it ends. */
  type Work<!S> = S -> (S, Outcome)

  datatype Stage<S> = Waiting | Running(found: S) | Settled(outcome: Outcome)

  /** One submission: its work, the promise it was chained to, and how far it is. */
  datatype Job<!S> = Job(work: Work<S>, after: Option<nat>, stage: Stage<S>)

  datatype Line<!S> = Line(jobs: seq<Job<S>>, queue: Option<nat>, shared: S)

  // ------------------------------------------------------------------- the machine

  datatype Step<!S> = Submit(work: Work<S>) | Start(i: nat) | Settle(i: nat)

  /** A settled promise runs what was chained to it, fulfilled or rejected alike: `queue.then(work, work)`. */
  ghost predicate Possible<S>(l: Line<S>, step: Step<S>) {
    match step
    case Submit(_) => l.queue.Some? ==> l.queue.value < |l.jobs|
    case Start(i) => i < |l.jobs| && l.jobs[i].stage.Waiting? && (l.jobs[i].after.Some? ==> HasSettled(l, l.jobs[i].after.value))
    case Settle(i) => i < |l.jobs| && l.jobs[i].stage.Running?
  }

  predicate HasSettled<S>(l: Line<S>, i: nat) { i < |l.jobs| && l.jobs[i].stage.Settled? }

  function After<S>(l: Line<S>, step: Step<S>): Line<S>
    requires Possible(l, step)
  {
    match step
    case Submit(work) => l.(jobs := l.jobs + [Job(work, l.queue, Waiting)], queue := Some(|l.jobs|))
    case Start(i) => l.(jobs := l.jobs[i := l.jobs[i].(stage := Running(l.shared))])
    case Settle(i) =>
      var (left, outcome) := l.jobs[i].work(l.jobs[i].stage.found);
      l.(jobs := l.jobs[i := l.jobs[i].(stage := Settled(outcome))], shared := left)
  }

  class Arrivals<!S> {
    var jobs: seq<Job<S>>
    var queue: Option<nat>
    var shared: S

    ghost function State(): Line<S>
      reads this
    {
      Line(jobs, queue, shared)
    }

    constructor (shared: S)
      ensures State() == Line([], None, shared)
    {
      jobs, queue, this.shared := [], None, shared;
    }

    /** `arrivalQueue`: chain after what is queued, and queue what was chained. */
    method Arrive(work: Work<S>) returns (next: nat)
      requires Possible(State(), Submit(work))
      modifies this
      ensures State() == After(old(State()), Submit(work)) && next == old(|jobs|)
    {
      next := |jobs|;
      jobs := jobs + [Job(work, queue, Waiting)];
      queue := Some(next);
    }

    method Run(i: nat)
      requires Possible(State(), Start(i))
      modifies this
      ensures State() == After(old(State()), Start(i))
    {
      jobs := jobs[i := jobs[i].(stage := Running(shared))];
    }

    method Finish(i: nat) returns (outcome: Outcome)
      requires Possible(State(), Settle(i))
      modifies this
      ensures State() == After(old(State()), Settle(i)) && State().jobs[i].stage == Settled(outcome)
    {
      var (left, ended) := jobs[i].work(jobs[i].stage.found);
      jobs := jobs[i := jobs[i].(stage := Settled(ended))];
      shared := left;
      outcome := ended;
    }
  }

  // -------------------------------------------------------------------- what it keeps

  /** The state after the first `n` works one at a time. */
  function InTurn<S>(jobs: seq<Job<S>>, first: S, n: nat): S
    requires n <= |jobs|
  {
    if n == 0 then first else jobs[n - 1].work(InTurn(jobs, first, n - 1)).0
  }

  /** Where job `i` is when `done` works have settled. */
  ghost predicate InPlace<S>(jobs: seq<Job<S>>, first: S, done: nat, i: nat)
    requires i < |jobs|
  {
    && jobs[i].after == (if i == 0 then None else Some(i - 1))
    && (i < done ==> jobs[i].stage == Settled(jobs[i].work(InTurn(jobs, first, i)).1))
    && (i == done ==> jobs[i].stage == Waiting || jobs[i].stage == Running(InTurn(jobs, first, i)))
    && (i > done ==> jobs[i].stage == Waiting)
  }

  /** `done` works have settled, in arrival order; at most the next one runs; the rest wait. */
  ghost predicate Serial<S>(l: Line<S>, first: S, done: nat) {
    && done <= |l.jobs|
    && l.queue == (if l.jobs == [] then None else Some(|l.jobs| - 1))
    && l.shared == InTurn(l.jobs, first, done)
    && forall i :: 0 <= i < |l.jobs| ==> InPlace(l.jobs, first, done, i)
  }

  lemma {:induction false} InTurnSame<S>(jobs: seq<Job<S>>, others: seq<Job<S>>, first: S, n: nat)
    requires n <= |jobs| && n <= |others|
    requires forall i :: 0 <= i < n ==> jobs[i].work == others[i].work
    ensures InTurn(jobs, first, n) == InTurn(others, first, n)
  {
    if n > 0 { InTurnSame(jobs, others, first, n - 1); }
  }

  /** Only the next work can start, and only it can settle. */
  lemma OnlyTheNext<S>(l: Line<S>, step: Step<S>, first: S, done: nat)
    requires Serial(l, first, done) && Possible(l, step) && !step.Submit?
    ensures step.i == done && done < |l.jobs|
    ensures step.Settle? ==> l.jobs[done].stage == Running(l.shared)
    ensures step.Start? ==> forall j :: 0 <= j < |l.jobs| ==> !l.jobs[j].stage.Running?
  {
    hide InTurn;
    assert InPlace(l.jobs, first, done, step.i);
    if step.i > 0 { assert InPlace(l.jobs, first, done, step.i - 1); }
    forall j | 0 <= j < |l.jobs| && step.Start? ensures !l.jobs[j].stage.Running? { assert InPlace(l.jobs, first, done, j); }
  }

  lemma StepKeepsSerial<S>(l: Line<S>, step: Step<S>, first: S, done: nat) returns (done': nat)
    requires Serial(l, first, done) && Possible(l, step)
    ensures Serial(After(l, step), first, done')
    ensures done' == if step.Settle? then done + 1 else done
  {
    var l' := After(l, step);
    done' := if step.Settle? then done + 1 else done;
    if !step.Submit? { OnlyTheNext(l, step, first, done); }
    assert l'.shared == InTurn(l'.jobs, first, done') by {
      InTurnSame(l'.jobs, l.jobs, first, done);
    }
    forall i | 0 <= i < |l'.jobs| ensures InPlace(l'.jobs, first, done', i) {
      if i < |l.jobs| { assert InPlace(l.jobs, first, done, i); }
      hide InTurn;
      if i < |l.jobs| { InTurnSame(l'.jobs, l.jobs, first, i); }
    }
  }

  ghost predicate Run<S>(first: S, steps: seq<Step<S>>, lines: seq<Line<S>>) {
    && |lines| == |steps| + 1 && lines[0] == Line([], None, first)
    && forall k :: 0 <= k < |steps| ==> Possible(lines[k], steps[k]) && lines[k + 1] == After(lines[k], steps[k])
  }

  function Settles<S>(steps: seq<Step<S>>, k: nat): nat
    requires k <= |steps|
  {
    if k == 0 then 0 else Settles(steps, k - 1) + if steps[k - 1].Settle? then 1 else 0
  }

  /** However submissions, starts and settlings interleave. */
  lemma {:induction false} EveryRunIsSerial<S>(first: S, steps: seq<Step<S>>, lines: seq<Line<S>>, k: nat)
    requires Run(first, steps, lines) && k <= |steps|
    ensures Serial(lines[k], first, Settles(steps, k))
  {
    if k > 0 {
      EveryRunIsSerial(first, steps, lines, k - 1);
      var done := StepKeepsSerial(lines[k - 1], steps[k - 1], first, Settles(steps, k - 1));
    }
  }

  /**
   * Works run in arrival order and never two at once, whatever came before failed or not; the state
   * is what running them one at a time leaves, and each caller gets its own work's outcome on it.
   */
  lemma WorksRunInTurn<S>(first: S, steps: seq<Step<S>>, lines: seq<Line<S>>, k: nat)
    requires Run(first, steps, lines) && k < |steps|
    ensures steps[k].Start? ==> steps[k].i == Settles(steps, k)
    ensures steps[k].Start? ==> forall j :: 0 <= j < |lines[k].jobs| ==> !lines[k].jobs[j].stage.Running?
    ensures steps[k].Settle? ==>
              var i := steps[k].i;
              && i == Settles(steps, k) && lines[k].jobs[i].stage.found == lines[k].shared
              && lines[k].shared == InTurn(lines[k].jobs, first, i)
              && lines[k + 1].jobs[i].stage == Settled(lines[k].jobs[i].work(lines[k].shared).1)
              && lines[k + 1].shared == InTurn(lines[k + 1].jobs, first, i + 1)
  {
    EveryRunIsSerial(first, steps, lines, k);
    EveryRunIsSerial(first, steps, lines, k + 1);
    if !steps[k].Submit? { OnlyTheNext(lines[k], steps[k], first, Settles(steps, k)); }
    hide InTurn, InPlace;
  }

  /** Nothing is left waiting: while a work has not settled, one can start or one is running. */
  lemma NeverStuck<S>(l: Line<S>, first: S, done: nat)
    requires Serial(l, first, done) && done < |l.jobs|
    ensures Possible(l, Start(done)) || Possible(l, Settle(done))
  {
    assert InPlace(l.jobs, first, done, done);
    if done > 0 { assert InPlace(l.jobs, first, done, done - 1) && HasSettled(l, done - 1); }
  }

  function Left<S>(l: Line<S>): nat { LeftIn(l.jobs) }

  function LeftIn<S>(jobs: seq<Job<S>>): nat {
    if jobs == [] then 0
    else LeftIn(jobs[..|jobs| - 1]) + match jobs[|jobs| - 1].stage { case Waiting => 2 case Running(_) => 1 case Settled(_) => 0 }
  }

  lemma {:induction false} LeftInOne<S>(jobs: seq<Job<S>>, i: nat, job: Job<S>)
    requires i < |jobs|
    requires (jobs[i].stage.Waiting? && job.stage.Running?) || (jobs[i].stage.Running? && job.stage.Settled?)
    ensures LeftIn(jobs[i := job]) < LeftIn(jobs)
  {
    if i < |jobs| - 1 {
      LeftInOne(jobs[..|jobs| - 1], i, job);
      assert jobs[i := job][..|jobs| - 1] == jobs[..|jobs| - 1][i := job];
    } else {
      assert jobs[i := job][..i] == jobs[..i];
    }
  }

  /** And every start and every settling leaves less to do. */
  lemma StepsLower<S>(l: Line<S>, step: Step<S>)
    requires Possible(l, step) && !step.Submit?
    ensures Left(After(l, step)) < Left(l)
  {
    LeftInOne(l.jobs, step.i, After(l, step).jobs[step.i]);
  }
}
