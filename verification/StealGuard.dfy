/**
 * When a steal may be sent: exactly once the first ask has settled. In every reachable world a take by
 * a tab still asking can go on to two gains in a row, and a take by any other never does.
 */
module StealGuard {
  import opened Options
  import opened TabElection
  import opened TabElectionSafety
  import opened TabElectionResults
  import opened EarlySteal

  // ------------------------------------------------------ a tab that asks has asked once

  ghost predicate AskedOnceBy(w: World, k: nat) {
    Live(w, k) && w.tabs[k].asking ==>
      forall x :: 0 <= x < |w.reqs| && w.reqs[x].owner == k ==> x == w.tabs[k].current
  }

  ghost predicate AskedOnce(w: World) { forall k: nat :: AskedOnceBy(w, k) }

  predicate Sends(a: Action) { a.Stand? || a.Take? || a.Settle? || a.Reject? }

  /** Any other step leaves every request its owner, and starts nobody's ask. */
  lemma SendsNothing(w: World, a: Action)
    requires Enabled(w, a) && !Sends(a)
    ensures |Step(w, a).reqs| == |w.reqs| && |Step(w, a).tabs| == |w.tabs|
    ensures forall x :: 0 <= x < |w.reqs| ==> Step(w, a).reqs[x].owner == w.reqs[x].owner
  {
  }

  lemma AsksNothing(w: World, a: Action, k: nat)
    requires Enabled(w, a) && !Sends(a) && k < |w.tabs| && |Step(w, a).tabs| == |w.tabs|
    requires Live(Step(w, a), k) && Step(w, a).tabs[k].asking && AskedOnceBy(w, k) && TabInv(w, k)
    ensures Live(w, k) && w.tabs[k].asking && w.tabs[k].current == Step(w, a).tabs[k].current
  {
  }

  lemma TabAskedOnce(w: World, a: Action, k: nat)
    requires Enabled(w, a) && AskedOnceBy(w, k) && (k < |w.tabs| ==> TabInv(w, k))
    requires forall x :: 0 <= x < |w.reqs| ==> w.reqs[x].owner < |w.tabs|
    ensures AskedOnceBy(Step(w, a), k)
  {
    if !Sends(a) {
      SendsNothing(w, a);
      if Live(Step(w, a), k) && Step(w, a).tabs[k].asking { AsksNothing(w, a, k); }
      hide Step;
    }
  }

  lemma StepAskedOnce(w: World, a: Action)
    requires Inv(w) && AskedOnce(w) && Enabled(w, a)
    ensures AskedOnce(Step(w, a))
  {
    forall x | 0 <= x < |w.reqs| ensures w.reqs[x].owner < |w.tabs| { assert RequestInv(w, x); }
    forall k: nat ensures AskedOnceBy(Step(w, a), k) {
      assert AskedOnceBy(w, k);
      TabAskedOnce(w, a, k);
    }
  }

  lemma {:induction false} RunAskedOnce(w: World, run: seq<Action>)
    requires Inv(w) && AskedOnce(w) && Possible(w, run)
    ensures AskedOnce(After(w, run))
    decreases run
  {
    if run != [] {
      StepKeeps(w, run[0]);
      StepAskedOnce(w, run[0]);
      RunAskedOnce(Step(w, run[0]), run[1..]);
    }
  }

  // -------------------------------------------------------- the world an early take makes

  predicate AskStage(s: Stage) { s == Sent || s == Granted || s == GrantStolen || s == Denied || s == Settling }

  /** Tab `k` has sent the steal `s` with its ask `r` unsettled, and made no other request. */
  ghost predicate Early(w: World, k: nat, r: nat, s: nat) {
    && ManagerInv(w)
    && Live(w, k) && r < s < |w.reqs|
    && (var c := w.tabs[k]; c.asking && c.stealing && !c.holding && c.queued.None? && c.log == [])
    && w.reqs[r].owner == k && w.reqs[r].kind == Ask && AskStage(w.reqs[r].stage)
    && w.reqs[s] == Request(k, Steal, Sent, false)
    && (forall x :: 0 <= x < |w.reqs| && w.reqs[x].owner == k ==> x == r || x == s)
    && (forall x :: 0 <= x < |w.reqs| ==> w.reqs[x].owner < |w.tabs|)
    && (forall x :: 0 <= x < |w.reqs| && !OwnerAlive(w, x) ==> w.reqs[x].stage == Done)
  }

  lemma TakenEarly(w: World, k: nat)
    requires Inv(w) && AskedOnce(w) && Live(w, k) && w.tabs[k].asking
    ensures MayTake(w.tabs[k]) && Early(TakeFrom(w, k), k, w.tabs[k].current, |w.reqs|)
  {
    assert TabInv(w, k) && AskedOnceBy(w, k);
    var v := TakeFrom(w, k);
    assert v.reqs == w.reqs + [Request(k, Steal, Sent, false)];
    ManagerFrame(w, v);
    forall x | 0 <= x < |w.reqs| ensures w.reqs[x].owner < |w.tabs| && (!OwnerAlive(v, x) ==> v.reqs[x].stage == Done) {
      assert RequestInv(w, x);
    }
  }

  /** The books with the lock perhaps free and somebody waiting: the middle of a release. */
  ghost predicate MidRelease(w: World) {
    && (w.holder.Some? ==> w.holder.value < |w.reqs| && Holds(w.reqs[w.holder.value].stage))
    && (forall r :: 0 <= r < |w.reqs| && Holds(w.reqs[r].stage) ==> w.holder == Some(r))
    && (forall i :: 0 <= i < |w.queue| ==> w.queue[i] < |w.reqs| && w.reqs[w.queue[i]].stage == Waiting)
    && (forall i, j :: 0 <= i < j < |w.queue| ==> w.queue[i] != w.queue[j])
    && (forall r :: 0 <= r < |w.reqs| && w.reqs[r].stage == Waiting ==> r in w.queue)
  }

  lemma GrantNextManager(w: World)
    requires MidRelease(w)
    ensures ManagerInv(GrantNext(w))
  {
  }

  lemma EndedMidRelease(w: World, j: nat, u: World)
    requires ManagerInv(w) && u.reqs == Ended(w.reqs, j) && u.queue == Keep(w.queue, w.reqs, j)
    requires
      var mine := w.holder.Some? && w.holder.value < |w.reqs| && w.reqs[w.holder.value].owner == j;
      u.holder == if mine then None else w.holder
    ensures MidRelease(u)
  {
    KeepFacts(w.queue, w.reqs, j);
    forall i | 0 <= i < |u.queue| ensures u.queue[i] < |u.reqs| && u.reqs[u.queue[i]].stage == Waiting {
      assert u.queue[i] in u.queue;
      assert u.queue[i] in w.queue;
    }
  }

  /** A tab's going away leaves the manager's books in order. */
  lemma DeadManager(w: World, j: nat)
    requires ManagerInv(w) && j < |w.tabs|
    ensures ManagerInv(Dead(w, j))
  {
    var mine := w.holder.Some? && w.holder.value < |w.reqs| && w.reqs[w.holder.value].owner == j;
    var u := World(Ended(w.reqs, j), if mine then None else w.holder, Keep(w.queue, w.reqs, j),
                   w.tabs[j := w.tabs[j].(alive := false)]);
    EndedMidRelease(w, j, u);
    GrantNextManager(u);
  }

  /** What a tab's going away does to the other tabs' requests: the first in line may be granted. */
  lemma DeadRequest(w: World, j: nat, x: nat)
    requires ManagerInv(w) && j < |w.tabs| && x < |w.reqs|
    ensures SameBut(w, Dead(w, j), j, x)
  {
    KeepFacts(w.queue, w.reqs, j);
    var kept := Keep(w.queue, w.reqs, j);
    if kept != [] {
      assert kept[0] in kept;
      assert kept[0] in w.queue;
    }
  }

  lemma DeadEarly(w: World, k: nat, r: nat, s: nat, j: nat)
    requires Early(w, k, r, s) && j < |w.tabs| && j != k
    ensures Early(Dead(w, j), k, r, s) && |Dead(w, j).tabs| == |w.tabs|
    ensures !Dead(w, j).tabs[j].alive
    ensures forall i :: 0 <= i < |w.tabs| && !w.tabs[i].alive ==> !Dead(w, j).tabs[i].alive
  {
    DeadManager(w, j);
    var v := Dead(w, j);
    assert v.tabs == w.tabs[j := w.tabs[j].(alive := false)];
    forall x | 0 <= x < |w.reqs| ensures SameBut(w, v, j, x) { DeadRequest(w, j, x); }
    assert SameBut(w, v, j, r) && SameBut(w, v, j, s);
    SameButEarly(w, v, k, r, s, j);
  }

  predicate SameBut(w: World, v: World, j: nat, x: nat) {
    && |v.reqs| == |w.reqs| && x < |w.reqs| && v.reqs[x].owner == w.reqs[x].owner
    && (w.reqs[x].owner == j ==> v.reqs[x].stage == Done)
    && (w.reqs[x].owner != j && w.reqs[x].stage != Waiting ==> v.reqs[x] == w.reqs[x])
  }

  lemma SameButEarly(w: World, v: World, k: nat, r: nat, s: nat, j: nat)
    requires Early(w, k, r, s) && j < |w.tabs| && j != k && ManagerInv(v)
    requires v.tabs == w.tabs[j := w.tabs[j].(alive := false)]
    requires forall x :: 0 <= x < |w.reqs| ==> SameBut(w, v, j, x)
    ensures Early(v, k, r, s)
  {
    assert SameBut(w, v, j, r) && SameBut(w, v, j, s);
    forall x | 0 <= x < |v.reqs|
      ensures v.reqs[x].owner == w.reqs[x].owner < |v.tabs| && (!OwnerAlive(v, x) ==> v.reqs[x].stage == Done)
    {
      assert SameBut(w, v, j, x);
    }
  }

  ghost predicate OthersGone(w: World, k: nat, n: nat) {
    forall i :: 0 <= i < n && i < |w.tabs| && i != k ==> !w.tabs[i].alive
  }

  /** Every other tab goes away. */
  lemma {:induction false} OthersGo(w: World, k: nat, r: nat, s: nat, n: nat) returns (run: seq<Action>)
    requires Early(w, k, r, s) && n <= |w.tabs| && OthersGone(w, k, n)
    ensures Possible(w, run) && Early(After(w, run), k, r, s)
    ensures OthersGone(After(w, run), k, |After(w, run).tabs|)
    decreases |w.tabs| - n
  {
    if n == |w.tabs| {
      run := [];
    } else if n == k || !w.tabs[n].alive {
      run := OthersGo(w, k, r, s, n + 1);
    } else {
      DeadEarly(w, k, r, s, n);
      var rest := OthersGo(Step(w, Die(n)), k, r, s, n + 1);
      OneMore(w, Die(n), rest);
      run := [Die(n)] + rest;
    }
  }

  /** Alone, the tab has the lock to itself: nobody waits, and nothing holds but its own ask. */
  lemma AloneIsFree(w: World, k: nat, r: nat, s: nat)
    requires Early(w, k, r, s) && OthersGone(w, k, |w.tabs|)
    ensures w.queue == [] && (w.holder.None? || (w.holder == Some(r) && w.reqs[r].stage == Granted))
  {
    if w.queue != [] { assert w.reqs[w.queue[0]].stage == Waiting && OwnerAlive(w, w.queue[0]); }
    if w.holder.Some? { assert OwnerAlive(w, w.holder.value); }
  }

  // -------------------------------------------------------------------- two gains in a row

  ghost predicate GainedTwice(w: World, k: nat) {
    k < |w.tabs| && |w.tabs[k].log| == 2 && !w.tabs[k].log[0].Displaced? && !w.tabs[k].log[1].Displaced?
  }

  /** The tab holds by request `r`, told once, with its steal still to be processed. */
  ghost predicate HoldsEarly(w: World, k: nat, r: nat, s: nat) {
    && Live(w, k) && r != s && r < |w.reqs| && s < |w.reqs| && w.reqs[s] == Request(k, Steal, Sent, false)
    && |w.tabs[k].log| == 1 && !w.tabs[k].log[0].Displaced?
    && (w.holder.None? || w.holder == Some(r))
  }

  lemma StealsFromItself(w: World, k: nat, r: nat, s: nat)
    requires HoldsEarly(w, k, r, s)
    ensures Possible(w, [Process(s), Callback(s)]) && GainedTwice(After(w, [Process(s), Callback(s)]), k)
  {
    hide Possible, After;
    var w1 := Step(w, Process(s));
    assert w1.reqs[s] == Request(k, Steal, Granted, false) && w1.tabs == w.tabs;
    NoMore(Step(w1, Callback(s)));
    var r1 := [Callback(s)] + [];
    OneMore(w1, Callback(s), []);
    OneMore(w, Process(s), r1);
    assert [Process(s)] + r1 == [Process(s), Callback(s)];
  }

  lemma AskHolds(w: World, k: nat, r: nat, s: nat)
    requires Early(w, k, r, s) && OthersGone(w, k, |w.tabs|) && (w.reqs[r].stage == Granted || w.reqs[r].stage == GrantStolen)
    ensures Enabled(w, Callback(r)) && HoldsEarly(Step(w, Callback(r)), k, r, s)
  {
    AloneIsFree(w, k, r, s);
  }

  lemma AskGranted(w: World, k: nat, r: nat, s: nat)
    requires Early(w, k, r, s) && OthersGone(w, k, |w.tabs|) && w.reqs[r].stage == Sent
    ensures Enabled(w, Process(r)) && Early(Step(w, Process(r)), k, r, s)
    ensures Step(w, Process(r)).tabs == w.tabs && Step(w, Process(r)).reqs[r].stage == Granted
  {
    AloneIsFree(w, k, r, s);
  }

  lemma AskDenied(w: World, k: nat, r: nat, s: nat)
    requires Early(w, k, r, s) && w.reqs[r].stage == Denied
    ensures Enabled(w, Deny(r)) && Early(Step(w, Deny(r)), k, r, s)
    ensures Step(w, Deny(r)).tabs == w.tabs && Step(w, Deny(r)).reqs[r].stage == Settling
  {
    ManagerFrame(w, Step(w, Deny(r)));
  }

  lemma SettledQueues(w: World, k: nat, r: nat, s: nat) returns (run: seq<Action>)
    requires Early(w, k, r, s) && OthersGone(w, k, |w.tabs|) && w.reqs[r].stage == Settling
    ensures Possible(w, run) && HoldsEarly(After(w, run), k, |w.reqs|, s)
  {
    AloneIsFree(w, k, r, s);
    hide Possible, After;
    var q := |w.reqs|;
    var w1 := Step(w, Settle(r));
    assert w1.reqs[q] == Request(k, Queue, Sent, false) && w1.tabs[k].queued == Some(q) && w1.reqs[s] == w.reqs[s];
    var w2 := Step(w1, Process(q));
    assert w2.reqs[q].stage == Granted && w2.holder == Some(q) && w2.tabs == w1.tabs && w2.reqs[s] == w.reqs[s];
    var w3 := Step(w2, Callback(q));
    assert HoldsEarly(w3, k, q, s);
    NoMore(w3);
    var r1 := [Callback(q)] + [];
    OneMore(w2, Callback(q), []);
    OneMore(w1, Process(q), r1);
    var r2 := [Process(q)] + r1;
    OneMore(w, Settle(r), r2);
    run := [Settle(r)] + r2;
  }

  /** However far the ask has got, it ends with the tab holding beside its steal. */
  lemma ComesToHold(w: World, k: nat, r: nat, s: nat) returns (run: seq<Action>, via: nat)
    requires Early(w, k, r, s) && OthersGone(w, k, |w.tabs|)
    ensures Possible(w, run) && HoldsEarly(After(w, run), k, via, s)
  {
    if w.reqs[r].stage == Settling {
      run := SettledQueues(w, k, r, s);
      via := |w.reqs|;
    } else if w.reqs[r].stage == Denied {
      AskDenied(w, k, r, s);
      var rest := SettledQueues(Step(w, Deny(r)), k, r, s);
      OneMore(w, Deny(r), rest);
      run, via := [Deny(r)] + rest, |w.reqs|;
    } else if w.reqs[r].stage == Sent {
      AskGranted(w, k, r, s);
      var granted := Step(w, Process(r));
      AskHolds(granted, k, r, s);
      NoMore(Step(granted, Callback(r)));
      OneMore(granted, Callback(r), []);
      OneMore(w, Process(r), [Callback(r)] + []);
      run, via := [Process(r)] + ([Callback(r)] + []), r;
    } else {
      AskHolds(w, k, r, s);
      NoMore(Step(w, Callback(r)));
      OneMore(w, Callback(r), []);
      run, via := [Callback(r)] + [], r;
    }
  }

  /** In every reachable world, a take by a tab still asking can go on to two gains in a row. */
  lemma EarlyTakeGainsTwice(before: seq<Action>, k: nat) returns (run: seq<Action>)
    requires Possible(NOBODY, before) && Live(After(NOBODY, before), k) && After(NOBODY, before).tabs[k].asking
    ensures MayTake(After(NOBODY, before).tabs[k])
    ensures Possible(TakeFrom(After(NOBODY, before), k), run)
    ensures GainedTwice(After(TakeFrom(After(NOBODY, before), k), run), k)
  {
    Reached(before);
    RunAskedOnce(NOBODY, before);
    var w := After(NOBODY, before);
    TakenEarly(w, k);
    var taken, r, s := TakeFrom(w, k), w.tabs[k].current, |w.reqs|;
    var alone := OthersGo(taken, k, r, s, 0);
    var held, via := ComesToHold(After(taken, alone), k, r, s);
    StealsFromItself(After(After(taken, alone), held), k, via, s);
    Chained(After(taken, alone), held, [Process(s), Callback(s)]);
    Chained(taken, alone, held + [Process(s), Callback(s)]);
    run := alone + (held + [Process(s), Callback(s)]);
  }

  /** What `k` is told alternates in every continuation of `w`. */
  ghost predicate AlternatesFrom(w: World, k: nat) {
    forall run :: Possible(w, run) && k < |After(w, run).tabs| ==> Alternating(After(w, run).tabs[k].log)
  }

  /** The guard is exact: what the host hears goes on alternating after a take if and only if the first ask had settled. */
  lemma TakeExactlyWhenSettled(before: seq<Action>, k: nat)
    requires Possible(NOBODY, before) && Live(After(NOBODY, before), k) && MayTake(After(NOBODY, before).tabs[k])
    ensures AlternatesFrom(TakeFrom(After(NOBODY, before), k), k) <==> !After(NOBODY, before).tabs[k].asking
  {
    var w := After(NOBODY, before);
    Reached(before);
    if w.tabs[k].asking {
      var run := EarlyTakeGainsTwice(before, k);
      var log := After(TakeFrom(w, k), run).tabs[k].log;
      assert !log[1].Displaced? && 1 % 2 == 1;
    } else {
      StepKeeps(w, Take(k));
      forall run | Possible(TakeFrom(w, k), run) && k < |After(TakeFrom(w, k), run).tabs|
        ensures Alternating(After(TakeFrom(w, k), run).tabs[k].log)
      {
        RunKeeps(TakeFrom(w, k), run);
        assert TabInv(After(TakeFrom(w, k), run), k);
      }
    }
  }
}
