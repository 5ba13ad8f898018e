/** What holds in every world the election can reach, and what it settles into. */
module TabElectionResults {
  import opened Options
  import opened TabElection
  import opened TabElectionSafety

  predicate Live(w: World, k: nat) {
    k < |w.tabs| && w.tabs[k].alive && !w.tabs[k].resigned
  }

  predicate Leads(w: World, k: nat) {
    Live(w, k) && w.tabs[k].holding
  }

  /** `k` still thinks it holds the lock; the rejection that will tell it otherwise is on its way. */
  predicate OwedARejection(w: World, k: nat) {
    Live(w, k) && w.tabs[k].current < |w.reqs| && w.reqs[w.tabs[k].current].stage == Stolen
  }

  /** Every reachable world satisfies the invariant. */
  lemma Reached(run: seq<Action>)
    requires Possible(NOBODY, run)
    ensures Inv(After(NOBODY, run))
  {
    RunKeeps(NOBODY, run);
  }

  // ------------------------------------------------------------------------ safety

  /** A tab that holds is the manager's holder, or is owed the rejection of the steal it lost to. */
  lemma LeaderIsHolder(run: seq<Action>, k: nat)
    requires Possible(NOBODY, run) && Leads(After(NOBODY, run), k)
    ensures var w := After(NOBODY, run);
      OwedARejection(w, k) <==> w.holder != Some(w.tabs[k].current)
  {
    Reached(run);
    var w := After(NOBODY, run);
    assert TabInv(w, k);
  }

  /** With no rejection outstanding, one tab leads at most. */
  lemma OneLeader(run: seq<Action>, j: nat, k: nat)
    requires Possible(NOBODY, run)
    requires Leads(After(NOBODY, run), j) && Leads(After(NOBODY, run), k)
    requires !OwedARejection(After(NOBODY, run), j) && !OwedARejection(After(NOBODY, run), k)
    ensures j == k
  {
    LeaderIsHolder(run, j);
    LeaderIsHolder(run, k);
    Reached(run);
    var w := After(NOBODY, run);
    assert TabInv(w, j) && TabInv(w, k);
  }

  // --------------------------------------------------------------- nobody is lost

  /** `r` can still bring its tab the lock: on its way, in the queue, or granted and undelivered. */
  ghost predicate Pending(w: World, r: nat) {
    r < |w.reqs| &&
    match w.reqs[r].stage
    case Waiting => r in w.queue
    case Granted => w.holder == Some(r)
    case Sent => true
    case GrantStolen => true
    case _ => false
  }

  /**
   * No candidate is lost: a live, unresigned candidacy whose first ask settled holds the lock,
   * is in the queue, or is stealing, and in the last two has a request that can still bring it
   * the lock and is not being aborted.
   */
  lemma NoCandidateIsLost(run: seq<Action>, k: nat)
    requires Possible(NOBODY, run) && Live(After(NOBODY, run), k)
    requires !After(NOBODY, run).tabs[k].asking
    ensures var w := After(NOBODY, run); var c := w.tabs[k];
      || (c.holding && !c.stealing && c.queued.None? && (w.holder == Some(c.current) || OwedARejection(w, k)))
      || (!c.holding && !c.stealing && c.queued == Some(c.current) && Pending(w, c.current) && !w.reqs[c.current].aborting)
      || (!c.holding && c.stealing && c.queued.None? && Pending(w, c.current) && w.reqs[c.current].kind == Steal)
  {
    Reached(run);
    var w := After(NOBODY, run);
    assert TabInv(w, k) && RequestInv(w, w.tabs[k].current);
  }

  /** The rejection a displaced leader is owed puts it back in line, told once. */
  lemma RejectionRequeues(w: World, k: nat)
    requires Inv(w) && Leads(w, k) && OwedARejection(w, k)
    ensures Enabled(w, Reject(w.tabs[k].current))
    ensures var v := Step(w, Reject(w.tabs[k].current));
      && Live(v, k) && !v.tabs[k].holding && v.tabs[k].log == w.tabs[k].log + [Displaced]
      && v.tabs[k].queued == Some(v.tabs[k].current) && Pending(v, v.tabs[k].current)
  {
    assert TabInv(w, k);
  }

  /**
   * A crash hands the lock on: when the holder's tab goes away and any other tab waits, the
   * first of them in the queue is granted it, and nobody else's place is lost.
   */
  lemma CrashHandsOver(w: World, k: nat, first: nat)
    requires Inv(w) && Enabled(w, Die(k))
    requires w.holder.Some? && w.reqs[w.holder.value].owner == k
    requires first < |w.queue| && w.reqs[w.queue[first]].owner != k
    requires forall i :: 0 <= i < first ==> w.reqs[w.queue[i]].owner == k
    ensures var v := Step(w, Die(k));
      && v.holder == Some(w.queue[first]) && v.reqs[w.queue[first]].stage == Granted
      && v.queue == Keep(w.queue[first + 1..], w.reqs, k)
  {
    KeepSkips(w.queue, w.reqs, k, first);
  }

  lemma {:induction false} KeepSkips(q: seq<nat>, reqs: seq<Request>, k: nat, first: nat)
    requires first < |q| && q[first] < |reqs| && reqs[q[first]].owner != k
    requires forall i :: 0 <= i < first ==> q[i] < |reqs| && reqs[q[i]].owner == k
    ensures Keep(q, reqs, k) == [q[first]] + Keep(q[first + 1..], reqs, k)
  {
    if first > 0 {
      KeepSkips(q[1..], reqs, k, first - 1);
      assert q[1..][first..] == q[first + 1..];
    }
  }

  /**
   * A resignation hands it on too: the release it asks for grants the lock to the first in line, which is
   * another tab's request, or one of the tab's own that is being aborted and can only let go.
   */
  lemma ResignHandsOver(w: World, k: nat)
    requires Inv(w) && Leads(w, k) && !OwedARejection(w, k) && w.queue != []
    ensures Enabled(w, Resign(k)) && Enabled(Step(w, Resign(k)), Finish(w.tabs[k].current))
    ensures
      var v := Step(Step(w, Resign(k)), Finish(w.tabs[k].current));
      && v.holder == Some(w.queue[0]) && w.queue[0] < |v.reqs| && v.reqs[w.queue[0]].stage == Granted
      && (v.reqs[w.queue[0]].owner == k ==> v.reqs[w.queue[0]].aborting)
      && v.queue == w.queue[1..]
  {
    assert TabInv(w, k) && RequestInv(w, w.queue[0]);
    var u := Step(w, Resign(k));
    assert u.reqs == WithStage(w.reqs, w.tabs[k].current, Releasing) && u.holder == Some(w.tabs[k].current);
    assert u.queue == w.queue && u.reqs[w.queue[0]] == w.reqs[w.queue[0]];
    ReleaseHandsOver(u, w.tabs[k].current);
  }

  lemma ReleaseHandsOver(w: World, r: nat)
    requires w.holder == Some(r) && Enabled(w, Finish(r)) && w.queue != [] && w.queue[0] < |w.reqs|
    ensures
      var v := Step(w, Finish(r));
      && v.holder == Some(w.queue[0]) && v.queue == w.queue[1..] && |v.reqs| == |w.reqs|
      && (r != w.queue[0] ==> v.reqs[w.queue[0]] == w.reqs[w.queue[0]].(stage := Granted))
  {
  }

  /** The lock is never stuck: whoever holds it is alive, and either leads or is about to be asked. */
  lemma NoLockLeaks(run: seq<Action>)
    requires Possible(NOBODY, run) && After(NOBODY, run).holder.Some?
    ensures var w := After(NOBODY, run); var r := w.holder.value;
      && r < |w.reqs| && OwnerAlive(w, r)
      && ((Leads(w, w.reqs[r].owner) && w.tabs[w.reqs[r].owner].current == r && w.reqs[r].stage == Held)
          || Enabled(w, Callback(r)) || Enabled(w, Finish(r)))
  {
    Reached(run);
    var w := After(NOBODY, run);
    assert RequestInv(w, w.holder.value);
    assert TabInv(w, w.reqs[w.holder.value].owner);
  }

  // ------------------------------------------------------------- what the host hears

  /** Gains and displacements alternate, a gain first, in every reachable world. */
  lemma EventsAlternate(run: seq<Action>, k: nat, i: nat)
    requires Possible(NOBODY, run) && k < |After(NOBODY, run).tabs| && i < |After(NOBODY, run).tabs[k].log|
    ensures After(NOBODY, run).tabs[k].log[i].Displaced? <==> i % 2 == 1
  {
    Reached(run);
    assert TabInv(After(NOBODY, run), k);
  }

  lemma StepHears(w: World, a: Action, k: nat)
    requires Enabled(w, a) && k < |w.tabs|
    ensures k < |Step(w, a).tabs|
    ensures w.tabs[k].log <= Step(w, a).tabs[k].log && |Step(w, a).tabs[k].log| <= |w.tabs[k].log| + 1
    ensures w.tabs[k].resigned ==> Step(w, a).tabs[k].resigned && Step(w, a).tabs[k].log == w.tabs[k].log
  {
  }

  /** Nothing fires after `resign`, whatever was in flight. */
  lemma {:induction false} SilentAfterResign(w: World, run: seq<Action>, k: nat)
    requires Possible(w, run) && k < |w.tabs| && w.tabs[k].resigned
    ensures k < |After(w, run).tabs| && After(w, run).tabs[k].resigned
    ensures After(w, run).tabs[k].log == w.tabs[k].log
    decreases run
  {
    if run != [] {
      StepHears(w, run[0], k);
      SilentAfterResign(Step(w, run[0]), run[1..], k);
    }
  }

  // --------------------------------------------------------------- what it settles to

  /** How much processing and delivery one request can still cause, with what it displaces. */
  function Weight(q: Request): nat {
    (if q.aborting then 1 else 0) +
    match q.stage
    case Done => 0
    case Held => 0
    case Releasing => 1
    case Granted => 3
    case Waiting => 4
    case Stolen => 6
    case GrantStolen => 7
    case Settling => 6
    case Denied => 7
    case Sent => match q.kind { case Queue => 5 case Ask => 8 case Steal => 11 }
  }

  function Load(reqs: seq<Request>): nat {
    if reqs == [] then 0 else Load(reqs[..|reqs| - 1]) + Weight(reqs[|reqs| - 1])
  }

  lemma {:induction false} LoadUpdate(reqs: seq<Request>, i: nat, q: Request)
    requires i < |reqs|
    ensures Load(reqs[i := q]) == Load(reqs) - Weight(reqs[i]) + Weight(q)
  {
    var last := |reqs| - 1;
    if i == last {
      assert reqs[i := q][..last] == reqs[..last];
    } else {
      assert reqs[i := q][..last] == reqs[..last][i := q];
      LoadUpdate(reqs[..last], i, q);
    }
  }

  lemma LoadAppend(reqs: seq<Request>, q: Request)
    ensures Load(reqs + [q]) == Load(reqs) + Weight(q)
  {
    assert (reqs + [q])[..|reqs|] == reqs;
  }

  lemma ProcessLowers(w: World, r: nat)
    requires HolderHolds(w) && Enabled(w, Process(r))
    ensures Load(Step(w, Process(r)).reqs) < Load(w.reqs)
  {
    hide Load, Dead, Release, TakeFrom, OnLock, OnStolen;
    var q := w.reqs[r];
    if q.kind == Steal && w.holder.Some? {
      var h := w.holder.value;
      var reqs := WithStage(w.reqs, h, StolenFrom(w.reqs[h].stage));
      LoadUpdate(w.reqs, h, reqs[h]);
      LoadUpdate(reqs, r, q.(stage := Granted));
    } else {
      LoadUpdate(w.reqs, r, Step(w, Process(r)).reqs[r]);
    }
  }

  lemma FinishLowers(w: World, r: nat)
    requires Enabled(w, Finish(r)) && (w.queue != [] ==> w.queue[0] < |w.reqs| && w.reqs[w.queue[0]].stage == Waiting)
    ensures Load(Step(w, Finish(r)).reqs) < Load(w.reqs)
  {
    var reqs := WithStage(w.reqs, r, Done);
    LoadUpdate(w.reqs, r, reqs[r]);
    if |w.queue| > 0 {
      LoadUpdate(reqs, w.queue[0], reqs[w.queue[0]].(stage := Granted));
    }
  }

  /** A step that moves one request on. */
  lemma MoveLowers(w: World, a: Action, r: nat)
    requires (a == AbortLands(r) || a == Callback(r) || a == Deny(r)) && Enabled(w, a)
    ensures Load(Step(w, a).reqs) < Load(w.reqs)
  {
    var v := Step(w, a);
    LoadUpdate(w.reqs, r, v.reqs[r]);
    assert v.reqs == w.reqs[r := v.reqs[r]];
  }

  /** A step that ends one request and perhaps queues its tab again. */
  lemma RequeueLowers(w: World, a: Action, r: nat)
    requires (a == Settle(r) || a == Reject(r)) && Enabled(w, a)
    ensures Load(Step(w, a).reqs) < Load(w.reqs)
  {
    var reqs := WithStage(w.reqs, r, Done);
    LoadUpdate(w.reqs, r, reqs[r]);
    LoadAppend(reqs, Request(w.reqs[r].owner, Queue, Sent, false));
  }

  /** Every step nobody decided on uses up some of the load. */
  lemma InternalLowers(w: World, a: Action)
    requires Inv(w) && Internal(a) && Enabled(w, a)
    ensures Load(Step(w, a).reqs) < Load(w.reqs)
  {
    match a
    case Process(r) => ProcessLowers(w, r);
    case Finish(r) => FinishLowers(w, r);
    case AbortLands(r) => MoveLowers(w, a, r);
    case Callback(r) => MoveLowers(w, a, r);
    case Deny(r) => MoveLowers(w, a, r);
    case Settle(r) => RequeueLowers(w, a, r);
    case Reject(r) => RequeueLowers(w, a, r);
  }

  /** However deliveries interleave, they come to an end: no ping-pong of displacements. */
  lemma {:induction false} Settles(w: World, run: seq<Action>)
    requires Inv(w) && Possible(w, run) && forall i :: 0 <= i < |run| ==> Internal(run[i])
    ensures |run| + Load(After(w, run).reqs) <= Load(w.reqs)
    decreases run
  {
    if run != [] {
      InternalLowers(w, run[0]);
      StepKeeps(w, run[0]);
      Settles(Step(w, run[0]), run[1..]);
    }
  }

  ghost predicate Quiet(w: World) {
    forall a :: Internal(a) ==> !Enabled(w, a)
  }

  /**
   * Once nothing is in flight, if anybody stands then exactly one tab leads, it is the
   * manager's holder, and every other candidate waits in the manager's queue.
   */
  lemma QuietMeansOneLeader(run: seq<Action>, k: nat) returns (leader: nat)
    requires Possible(NOBODY, run) && Quiet(After(NOBODY, run)) && Live(After(NOBODY, run), k)
    ensures var w := After(NOBODY, run);
      && Leads(w, leader) && w.holder == Some(w.tabs[leader].current)
      && forall j: nat :: Live(w, j) && j != leader ==>
           !w.tabs[j].holding && w.tabs[j].queued == Some(w.tabs[j].current) && w.tabs[j].current in w.queue
  {
    Reached(run);
    leader := QuietWorld(After(NOBODY, run), k);
  }

  lemma QuietWorld(w: World, k: nat) returns (leader: nat)
    requires Inv(w) && Quiet(w) && Live(w, k)
    ensures Leads(w, leader) && w.holder == Some(w.tabs[leader].current)
    ensures forall j: nat :: Live(w, j) && j != leader ==>
              !w.tabs[j].holding && w.tabs[j].queued == Some(w.tabs[j].current) && w.tabs[j].current in w.queue
  {
    forall j: nat | Live(w, j)
      ensures w.tabs[j].current < |w.reqs| && w.reqs[w.tabs[j].current].owner == j
      ensures w.tabs[j].holding ==> w.holder == Some(w.tabs[j].current)
      ensures !w.tabs[j].holding ==> w.tabs[j].queued == Some(w.tabs[j].current) && w.tabs[j].current in w.queue
    {
      QuietTab(w, j);
    }
    if w.tabs[k].holding {
      leader := k;
    } else {
      var h := w.holder.value;
      leader := w.reqs[h].owner;
      assert RequestInv(w, h) && TabInv(w, leader);
      assert !Enabled(w, Callback(h)) && !Enabled(w, Finish(h));
    }
  }

  lemma QuietTab(w: World, j: nat)
    requires Inv(w) && Quiet(w) && Live(w, j)
    ensures w.tabs[j].current < |w.reqs| && w.reqs[w.tabs[j].current].owner == j
    ensures w.tabs[j].holding ==> w.holder == Some(w.tabs[j].current)
    ensures !w.tabs[j].holding ==> w.tabs[j].queued == Some(w.tabs[j].current) && w.tabs[j].current in w.queue
  {
    assert TabInv(w, j);
    var r := w.tabs[j].current;
    assert !Enabled(w, Process(r)) && !Enabled(w, Callback(r)) && !Enabled(w, Deny(r));
    assert !Enabled(w, Settle(r)) && !Enabled(w, Reject(r)) && !Enabled(w, Finish(r));
  }
}
