/**
 * `watchForBackgroundedLeader`: take the lease once the handover condition has held, without a
 * break, for the settle time. The clock, the firing of timers and what the host sees of its own
 * tab and of the leader are the environment's.
 */
module SettleTimer {
  import opened Options

  datatype Visibility = Visible | Hidden

  /** A leader's last report, as far as the takeover reads it: its tab's visibility, if it gives one. */
  datatype Report = Report(visibility: Option<Visibility>)

  /** What the host's `eligible` reads (`IndexerState.ts`). */
  datatype View = View(reading: bool, readerSeat: bool, own: Option<Visibility>, leader: Option<Report>)

  predicate LeaderIsDisplaceable(leader: Option<Report>) {
    if leader.None? then true else leader.value.visibility == Some(Hidden)
  }

  predicate Eligible(v: View) {
    v.reading && v.readerSeat && v.own == Some(Visible) && LeaderIsDisplaceable(v.leader)
  }

  /** The closure's two variables; `armed` is when `setTimeout` was called. */
  datatype Timer = Timer(armed: Option<nat>, stopped: bool)

  function Reconsidered(t: Timer, now: nat, eligible: bool): Timer {
    if t.stopped then t
    else if !eligible then t.(armed := None)
    else if t.armed.Some? then t
    else t.(armed := Some(now))
  }

  class Watch {
    var timer: Option<nat>
    var stopped: bool

    function State(): Timer
      reads this
    {
      Timer(timer, stopped)
    }

    constructor ()
      ensures State() == Timer(None, false)
    {
      timer, stopped := None, false;
    }

    method Disarm()
      modifies this
      ensures State() == old(State()).(armed := None)
    {
      timer := None;
    }

    method Reconsider(now: nat, eligible: bool)
      modifies this
      ensures State() == Reconsidered(old(State()), now, eligible)
    {
      if stopped { return; }
      if !eligible {
        Disarm();
        return;
      }
      if timer.Some? { return; }
      timer := Some(now);
    }

    /** The timeout's callback. */
    method Fire(eligible: bool) returns (takes: bool)
      modifies this
      ensures takes == (!old(stopped) && eligible) && State() == old(State()).(armed := None)
    {
      timer := None;
      return !stopped && eligible;
    }

    method Stop()
      modifies this
      ensures State() == Timer(None, true)
    {
      stopped := true;
      Disarm();
    }
  }

  // ---------------------------------------------------------------------------- runs

  datatype Event =
    | Changed(at: nat, view: View, reconsidered: bool) // something `eligible` reads moved
    | Fired(at: nat)
    | Stopped(at: nat)

  function ViewAfter(run: seq<Event>, i: nat): View
    requires i <= |run|
  {
    if i == 0 then View(false, false, None, None)
    else if run[i - 1].Changed? then run[i - 1].view
    else ViewAfter(run, i - 1)
  }

  function TimerAfter(run: seq<Event>, i: nat): (t: Timer)
    requires i <= |run|
    ensures t.stopped ==> t.armed.None?
  {
    if i == 0 then Timer(None, false)
    else
      var t := TimerAfter(run, i - 1);
      match run[i - 1]
      case Changed(at, view, reconsidered) => if reconsidered then Reconsidered(t, at, Eligible(view)) else t
      case Fired(_) => t.(armed := None)
      case Stopped(_) => Timer(None, true)
  }

  /** Time does not run backwards, and a timeout fires no earlier than it was asked to. */
  ghost predicate Timed(settleMs: nat, run: seq<Event>) {
    && (forall i :: 0 < i < |run| ==> run[i - 1].at <= run[i].at)
    && (forall i :: 0 <= i < |run| && run[i].Fired? ==>
          TimerAfter(run, i).armed.Some? && TimerAfter(run, i).armed.value + settleMs <= run[i].at)
  }

  /** The firing at `k` calls `take`. */
  predicate Takes(run: seq<Event>, k: nat)
    requires k < |run|
  {
    run[k].Fired? && !TimerAfter(run, k).stopped && Eligible(ViewAfter(run, k))
  }

  /**
   * From event `from` on, every change that breaks eligibility under an armed timer is reconsidered:
   * less than what the source asks of its host, which is to reconsider at every change.
   */
  ghost predicate BreaksReconsidered(run: seq<Event>, from: nat) {
    forall i :: from <= i < |run| && run[i].Changed? && !Eligible(run[i].view) && TimerAfter(run, i).armed.Some? ==>
      run[i].reconsidered
  }

  ghost predicate EligibleThroughout(run: seq<Event>, j: nat, k: nat)
    requires k <= |run|
  {
    forall m :: j < m <= k ==> Eligible(ViewAfter(run, m))
  }

  /** The take at `k` was earned: eligibility has held, unbroken, from some event `settleMs` ago or more. */
  ghost predicate Earned(settleMs: nat, run: seq<Event>, k: nat)
    requires k < |run|
  {
    exists j :: 0 <= j < k && run[j].at + settleMs <= run[k].at && EligibleThroughout(run, j, k)
  }

  /** An armed timer was armed by an event since which eligibility has not broken. */
  lemma {:induction false} ArmedSince(run: seq<Event>, k: nat) returns (j: nat)
    requires k <= |run| && BreaksReconsidered(run, 0) && TimerAfter(run, k).armed.Some?
    ensures j < k && run[j].at == TimerAfter(run, k).armed.value && EligibleThroughout(run, j, k)
  {
    var before := TimerAfter(run, k - 1);
    assert run[k - 1].Changed? && ViewAfter(run, k) == run[k - 1].view;
    j := k - 1;
    if before.armed.Some? {
      j := ArmedSince(run, k - 1);
    }
  }

  lemma {:induction false} StoppedStays(run: seq<Event>, i: nat, k: nat)
    requires i < k <= |run| && run[i].Stopped?
    ensures TimerAfter(run, k).stopped
  {
    if i < k - 1 { StoppedStays(run, i, k - 1); }
  }

  /**
   * A take is earned: this tab was visible and reading, and the leader last heard hidden or never
   * heard, from some event at least `settleMs` ago without a break; and the watch was never stopped.
   */
  lemma TakeIsEarned(settleMs: nat, run: seq<Event>, k: nat) returns (j: nat)
    requires Timed(settleMs, run) && BreaksReconsidered(run, 0) && k < |run| && Takes(run, k)
    ensures j < k && run[j].at + settleMs <= run[k].at
    ensures forall m :: j < m <= k ==>
      var v := ViewAfter(run, m);
      v.reading && v.readerSeat && v.own == Some(Visible) && (v.leader == None || v.leader == Some(Report(Some(Hidden))))
    ensures forall i :: 0 <= i < k ==> !run[i].Stopped?
  {
    j := ArmedSince(run, k);
    forall i | 0 <= i < k ensures !run[i].Stopped? {
      if run[i].Stopped? { StoppedStays(run, i, k); }
    }
    assert forall m :: j < m <= k ==> Eligible(ViewAfter(run, m));
  }

  // -------------------------------------------------------------- exactly when it is so

  ghost predicate GoesOn(settleMs: nat, past: seq<Event>, run: seq<Event>) {
    past <= run && Timed(settleMs, run) && BreaksReconsidered(run, |past|)
  }

  /** However the history goes on, the host reconsidering at breaks from here, every take is earned. */
  ghost predicate Safe(settleMs: nat, past: seq<Event>) {
    forall run: seq<Event>, k: nat :: GoesOn(settleMs, past, run) && |past| <= k < |run| && Takes(run, k) ==>
      Earned(settleMs, run, k)
  }

  lemma {:induction false} SamePast(past: seq<Event>, run: seq<Event>, i: nat)
    requires past <= run && i <= |past|
    ensures TimerAfter(past, i) == TimerAfter(run, i) && ViewAfter(past, i) == ViewAfter(run, i)
  {
    if i > 0 { SamePast(past, run, i - 1); }
  }

  lemma SafeAfterReconsidering(settleMs: nat, past: seq<Event>)
    requires BreaksReconsidered(past, 0)
    ensures Safe(settleMs, past)
  {
    forall run: seq<Event>, k: nat | GoesOn(settleMs, past, run) && |past| <= k < |run| && Takes(run, k)
      ensures Earned(settleMs, run, k)
    {
      forall i | 0 <= i < |past| ensures TimerAfter(run, i) == TimerAfter(past, i) { SamePast(past, run, i); }
      var j := ArmedSince(run, k);
      assert run[j].at + settleMs <= run[k].at;
    }
  }

  /** With no time to settle, the event that made the tab eligible is long enough ago. */
  lemma {:induction false} EligibleSince(run: seq<Event>, k: nat) returns (j: nat)
    requires k <= |run| && Eligible(ViewAfter(run, k))
    ensures j < k && EligibleThroughout(run, j, k)
  {
    j := k - 1;
    if !run[k - 1].Changed? { j := EligibleSince(run, k - 1); }
  }

  lemma {:induction false} NoEarlier(settleMs: nat, run: seq<Event>, j: nat, k: nat)
    requires Timed(settleMs, run) && j <= k < |run|
    ensures run[j].at <= run[k].at
  {
    if j < k { NoEarlier(settleMs, run, j, k - 1); }
  }

  lemma SafeAtOnce(past: seq<Event>)
    ensures Safe(0, past)
  {
    forall run: seq<Event>, k: nat | GoesOn(0, past, run) && |past| <= k < |run| && Takes(run, k)
      ensures Earned(0, run, k)
    {
      var j := EligibleSince(run, k);
      NoEarlier(0, run, j, k);
      assert run[j].at + 0 <= run[k].at;
    }
  }

  /** An armed timer was armed no later than now. */
  lemma {:induction false} ArmedBefore(settleMs: nat, run: seq<Event>, k: nat)
    requires Timed(settleMs, run) && 0 < k <= |run| && TimerAfter(run, k).armed.Some?
    ensures TimerAfter(run, k).armed.value <= run[k - 1].at
  {
    if k > 1 && TimerAfter(run, k - 1).armed.Some? { ArmedBefore(settleMs, run, k - 1); }
  }

  const ELIGIBLE := View(true, true, Some(Visible), None)

  /** A break that is not reconsidered, the tab made eligible again, and the old timer's firing. */
  lemma UnreconsideredBreakTakes(settleMs: nat, past: seq<Event>)
    requires settleMs > 0 && Timed(settleMs, past) && past != []
    requires
      var i := |past| - 1;
      past[i].Changed? && !past[i].reconsidered && !Eligible(past[i].view) && TimerAfter(past, i).armed.Some?
    ensures !Safe(settleMs, past)
  {
    var n := |past|;
    var armed := TimerAfter(past, n - 1).armed.value;
    var t := past[n - 1].at + 1;
    var fires := if armed + settleMs > t then armed + settleMs else t;
    var run := past + [Changed(t, ELIGIBLE, true), Fired(fires)];
    assert TimerAfter(past, n) == TimerAfter(past, n - 1);
    ArmedBefore(settleMs, past, n);
    forall i | 0 <= i <= n ensures TimerAfter(run, i) == TimerAfter(past, i) && ViewAfter(run, i) == ViewAfter(past, i) {
      SamePast(past, run, i);
    }
    assert ViewAfter(run, n) == past[n - 1].view;
    assert TimerAfter(run, n + 1) == TimerAfter(run, n) && ViewAfter(run, n + 1) == ELIGIBLE;
    assert Timed(settleMs, run);
    assert Takes(run, n + 1);
    forall j | 0 <= j < n + 1 && run[j].at + settleMs <= run[n + 1].at ensures !EligibleThroughout(run, j, n + 1) {
      assert j < n;
    }
    assert !Earned(settleMs, run, n + 1);
    assert GoesOn(settleMs, past, run);
  }

  lemma TimedPrefix(settleMs: nat, run: seq<Event>, n: nat)
    requires Timed(settleMs, run) && n <= |run|
    ensures Timed(settleMs, run[..n])
  {
    forall i | 0 <= i < n ensures TimerAfter(run[..n], i) == TimerAfter(run, i) { SamePast(run[..n], run, i); }
  }

  lemma BreaksOfPrefix(run: seq<Event>, n: nat)
    requires BreaksReconsidered(run, 0) && n <= |run|
    ensures BreaksReconsidered(run[..n], 0)
  {
    forall i | 0 <= i < n ensures TimerAfter(run[..n], i) == TimerAfter(run, i) { SamePast(run[..n], run, i); }
  }

  lemma UnsafePrefix(settleMs: nat, run: seq<Event>) returns (n: nat)
    requires settleMs > 0 && Timed(settleMs, run) && !BreaksReconsidered(run, 0)
    ensures n <= |run| && !Safe(settleMs, run[..n])
  {
    var i :| 0 <= i < |run| && run[i].Changed? && !Eligible(run[i].view) && TimerAfter(run, i).armed.Some? && !run[i].reconsidered;
    n := i + 1;
    SamePast(run[..n], run, i);
    TimedPrefix(settleMs, run, n);
    UnreconsideredBreakTakes(settleMs, run[..n]);
  }

  /**
   * At every moment of a history all takes to come are earned if and only if each break of
   * eligibility under an armed timer was reconsidered, or there is no time to settle.
   */
  lemma TakesAreEarnedExactly(settleMs: nat, run: seq<Event>)
    requires Timed(settleMs, run)
    ensures (forall n: nat :: 0 <= n <= |run| ==> Safe(settleMs, run[..n])) <==> settleMs == 0 || BreaksReconsidered(run, 0)
  {
    hide Safe, BreaksReconsidered, Timed;
    if settleMs == 0 {
      forall n: nat | 0 <= n <= |run| ensures Safe(settleMs, run[..n]) { SafeAtOnce(run[..n]); }
    } else if BreaksReconsidered(run, 0) {
      forall n: nat | 0 <= n <= |run| ensures Safe(settleMs, run[..n]) {
        BreaksOfPrefix(run, n);
        SafeAfterReconsidering(settleMs, run[..n]);
      }
    } else {
      var n := UnsafePrefix(settleMs, run);
    }
  }

  /**
   * `takeOver` reconsiders before it sets the writer's seat, so that change alone disarms nothing:
   * a timer armed before a tenure can fire after it.
   */
  lemma UnreconsideredChangeCounts(settleMs: nat) returns (run: seq<Event>)
    requires settleMs >= 2
    ensures Timed(settleMs, run) && |run| == 4 && run[3].at == run[0].at + settleMs
    ensures Takes(run, 3) && !Eligible(ViewAfter(run, 2)) && !Earned(settleMs, run, 3)
    ensures forall i :: 0 <= i < 3 ==> run[i].Changed? && run[i].reconsidered == (i != 1)
  {
    run := [Changed(0, ELIGIBLE, true), Changed(1, ELIGIBLE.(readerSeat := false), false),
            Changed(2, ELIGIBLE, true), Fired(settleMs)];
    assert TimerAfter(run, 1) == Timer(Some(0), false);
    assert TimerAfter(run, 2) == Timer(Some(0), false);
    assert TimerAfter(run, 3) == Timer(Some(0), false);
    assert ViewAfter(run, 3) == ELIGIBLE;
    forall j | 0 <= j < 3 && run[j].at + settleMs <= run[3].at ensures !EligibleThroughout(run, j, 3) {
      assert j == 0 && !Eligible(ViewAfter(run, 2));
    }
  }
}
