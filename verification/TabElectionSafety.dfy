/** What every step of the election keeps, and what that says of every reachable world. */
module TabElectionSafety {
  import opened Options
  import opened TabElection

  // ------------------------------------------------------------------ the invariant

  /** The manager's own books: one holder, a queue of exactly the waiting requests. */
  ghost predicate ManagerInv(w: World) {
    && (w.holder.Some? ==> w.holder.value < |w.reqs| && Holds(w.reqs[w.holder.value].stage))
    && (forall r :: 0 <= r < |w.reqs| && Holds(w.reqs[r].stage) ==> w.holder == Some(r))
    && (forall i :: 0 <= i < |w.queue| ==> w.queue[i] < |w.reqs| && w.reqs[w.queue[i]].stage == Waiting)
    && (forall i, j :: 0 <= i < j < |w.queue| ==> w.queue[i] != w.queue[j])
    && (forall r :: 0 <= r < |w.reqs| && w.reqs[r].stage == Waiting ==> r in w.queue)
    && (w.holder.None? ==> w.queue == [])
  }

  predicate InLine(s: Stage) { s == Sent || s == Waiting || s == Granted || s == GrantStolen }

  /** A request of tab `c` which is not the one `c` waits on or holds: it can only let go. */
  ghost predicate Stale(q: Request) {
    q.kind == Queue && InLine(q.stage) && (q.stage == Sent || q.stage == Waiting ==> q.aborting)
  }

  ghost predicate RequestInv(w: World, r: nat)
    requires r < |w.reqs|
  {
    var q := w.reqs[r];
    && q.owner < |w.tabs|
    && (q.stage == Waiting ==> q.kind == Queue)
    && (q.stage == Denied || q.stage == Settling ==> q.kind == Ask)
    && (q.aborting ==> q.kind == Queue)
    && var c := w.tabs[q.owner];
    && (!c.alive ==> q.stage == Done && !q.aborting)
    && (c.alive && c.resigned ==> q.stage != Held && (q.kind == Queue && (q.stage == Sent || q.stage == Waiting) ==> q.aborting))
    && (c.alive && !c.resigned && c.current != r ==> q.stage == Done || q.stage == Releasing || Stale(q))
  }

  /** The tab waits on its first ask, on a steal, or in the queue; or it holds. */
  ghost predicate WaitsOrHolds(c: Candidate, q: Request) {
    if c.holding then
      && c.giveBack == Some(c.current) && c.queued == None && !c.stealing && !c.asking
      && (q.stage == Held || q.stage == Stolen)
    else
      && c.giveBack == None
      && (if c.asking then
            && c.queued == None && !c.stealing && q.kind == Ask && c.log == []
            && (q.stage == Sent || q.stage == Granted || q.stage == GrantStolen || q.stage == Denied || q.stage == Settling)
          else if c.stealing then
            && c.queued == None && q.kind == Steal
            && (q.stage == Sent || q.stage == Granted || q.stage == GrantStolen)
          else
            c.queued == Some(c.current) && q.kind == Queue && InLine(q.stage) && !q.aborting)
  }

  /** Gains at even places, displacements at odd ones: the two alternate, a gain first. */
  ghost predicate Alternating(log: seq<HostEvent>) {
    forall i :: 0 <= i < |log| ==> (log[i].Displaced? <==> i % 2 == 1)
  }

  ghost predicate TabInv(w: World, k: nat)
    requires k < |w.tabs|
  {
    var c := w.tabs[k];
    && Alternating(c.log)
    && (c.resigned ==> !c.holding && c.queued == None && c.giveBack == None)
    && (c.alive && !c.resigned ==>
          && (c.holding <==> |c.log| % 2 == 1)
          && c.current < |w.reqs| && w.reqs[c.current].owner == k && WaitsOrHolds(c, w.reqs[c.current]))
  }

  ghost predicate Inv(w: World) {
    && ManagerInv(w)
    && (forall r :: 0 <= r < |w.reqs| ==> RequestInv(w, r))
    && (forall k :: 0 <= k < |w.tabs| ==> TabInv(w, k))
  }

  // ------------------------------------------------------- every step keeps it

  /** The books are unchanged by a step that moves no request into or out of them. */
  lemma ManagerFrame(w: World, v: World)
    requires ManagerInv(w) && v.holder == w.holder && v.queue == w.queue && |w.reqs| <= |v.reqs|
    requires forall i :: 0 <= i < |w.reqs| ==> Holds(v.reqs[i].stage) == Holds(w.reqs[i].stage)
    requires forall i :: 0 <= i < |w.reqs| ==> (v.reqs[i].stage == Waiting <==> w.reqs[i].stage == Waiting)
    requires forall i :: |w.reqs| <= i < |v.reqs| ==> v.reqs[i].stage == Sent
    ensures ManagerInv(v)
  {
  }

  lemma StandKeeps(w: World)
    requires Inv(w)
    ensures Inv(Step(w, Stand))
  {
    var v := Step(w, Stand);
    forall r | 0 <= r < |v.reqs| ensures RequestInv(v, r) { if r < |w.reqs| { assert RequestInv(w, r); } }
    forall k | 0 <= k < |v.tabs| ensures TabInv(v, k) { if k < |w.tabs| { assert TabInv(w, k); } }
  }

  lemma TakeKeeps(w: World, k: nat)
    requires Inv(w) && Enabled(w, Take(k))
    ensures Inv(Step(w, Take(k)))
  {
    var v := Step(w, Take(k));
    assert TabInv(w, k);
    forall r | 0 <= r < |v.reqs| ensures RequestInv(v, r) { if r < |w.reqs| { assert RequestInv(w, r); } }
    forall j | 0 <= j < |v.tabs| ensures TabInv(v, j) { assert TabInv(w, j); }
  }

  lemma ResignKeeps(w: World, k: nat)
    requires Inv(w) && Enabled(w, Resign(k))
    ensures Inv(Step(w, Resign(k)))
  {
    var v := Step(w, Resign(k));
    assert TabInv(w, k);
    forall r | 0 <= r < |v.reqs| ensures RequestInv(v, r) { assert RequestInv(w, r); }
    forall j | 0 <= j < |v.tabs| ensures TabInv(v, j) { assert TabInv(w, j); }
  }

  lemma CallbackRequest(w: World, r: nat, i: nat)
    requires Enabled(w, Callback(r)) && RequestInv(w, r) && TabInv(w, w.reqs[r].owner)
    requires i < |Step(w, Callback(r)).reqs| && (i < |w.reqs| ==> RequestInv(w, i))
    ensures RequestInv(Step(w, Callback(r)), i)
  {
  }

  lemma CallbackTab(w: World, r: nat, j: nat)
    requires Enabled(w, Callback(r)) && RequestInv(w, r) && TabInv(w, w.reqs[r].owner)
    requires j < |w.tabs| && TabInv(w, j)
    ensures |Step(w, Callback(r)).tabs| == |w.tabs| && TabInv(Step(w, Callback(r)), j)
  {
    hide Processed, GrantNext, Release, Dead, TakeFrom, WithAbort, Remove, Resigned;
  }

  lemma CallbackManager(w: World, r: nat)
    requires Enabled(w, Callback(r)) && ManagerInv(w) && RequestInv(w, r) && TabInv(w, w.reqs[r].owner)
    ensures ManagerInv(Step(w, Callback(r)))
  {
    ManagerFrame(w, Step(w, Callback(r)));
  }

  lemma CallbackKeeps(w: World, r: nat)
    requires Inv(w) && Enabled(w, Callback(r))
    ensures Inv(Step(w, Callback(r)))
  {
    var v := Step(w, Callback(r));
    assert RequestInv(w, r) && TabInv(w, w.reqs[r].owner);
    CallbackManager(w, r);
    forall i | 0 <= i < |v.reqs| ensures RequestInv(v, i) { if i < |w.reqs| { assert RequestInv(w, i); } CallbackRequest(w, r, i); }
    forall j | 0 <= j < |v.tabs| ensures TabInv(v, j) { assert j < |w.tabs| && TabInv(w, j); CallbackTab(w, r, j); }
  }

  lemma DenyKeeps(w: World, r: nat)
    requires Inv(w) && Enabled(w, Deny(r))
    ensures Inv(Step(w, Deny(r)))
  {
    var v := Step(w, Deny(r));
    assert RequestInv(w, r) && TabInv(w, w.reqs[r].owner);
    forall i | 0 <= i < |v.reqs| ensures RequestInv(v, i) { assert RequestInv(w, i); }
    forall j | 0 <= j < |v.tabs| ensures TabInv(v, j) { assert TabInv(w, j); }
  }

  lemma SettleRequest(w: World, r: nat, i: nat)
    requires Enabled(w, Settle(r)) && RequestInv(w, r) && TabInv(w, w.reqs[r].owner)
    requires i < |Step(w, Settle(r)).reqs| && (i < |w.reqs| ==> RequestInv(w, i))
    ensures RequestInv(Step(w, Settle(r)), i)
  {
  }

  lemma SettleTab(w: World, r: nat, j: nat)
    requires Enabled(w, Settle(r)) && RequestInv(w, r) && TabInv(w, w.reqs[r].owner)
    requires j < |w.tabs| && TabInv(w, j)
    ensures |Step(w, Settle(r)).tabs| == |w.tabs| && TabInv(Step(w, Settle(r)), j)
  {
  }

  lemma SettleManager(w: World, r: nat)
    requires Enabled(w, Settle(r)) && ManagerInv(w) && RequestInv(w, r) && TabInv(w, w.reqs[r].owner)
    ensures ManagerInv(Step(w, Settle(r)))
  {
    ManagerFrame(w, Step(w, Settle(r)));
  }

  lemma SettleKeeps(w: World, r: nat)
    requires Inv(w) && Enabled(w, Settle(r))
    ensures Inv(Step(w, Settle(r)))
  {
    var v := Step(w, Settle(r));
    assert RequestInv(w, r) && TabInv(w, w.reqs[r].owner);
    SettleManager(w, r);
    forall i | 0 <= i < |v.reqs| ensures RequestInv(v, i) { if i < |w.reqs| { assert RequestInv(w, i); } SettleRequest(w, r, i); }
    forall j | 0 <= j < |v.tabs| ensures TabInv(v, j) { assert j < |w.tabs| && TabInv(w, j); SettleTab(w, r, j); }
  }

  lemma RejectRequest(w: World, r: nat, i: nat)
    requires Enabled(w, Reject(r)) && RequestInv(w, r) && TabInv(w, w.reqs[r].owner)
    requires i < |Step(w, Reject(r)).reqs| && (i < |w.reqs| ==> RequestInv(w, i))
    ensures RequestInv(Step(w, Reject(r)), i)
  {
  }

  lemma RejectTab(w: World, r: nat, j: nat)
    requires Enabled(w, Reject(r)) && RequestInv(w, r) && TabInv(w, w.reqs[r].owner)
    requires j < |w.tabs| && TabInv(w, j)
    ensures |Step(w, Reject(r)).tabs| == |w.tabs| && TabInv(Step(w, Reject(r)), j)
  {
    hide Processed, GrantNext, Release, Dead, TakeFrom, WithAbort, Remove, Resigned;
  }

  lemma RejectManager(w: World, r: nat)
    requires Enabled(w, Reject(r)) && ManagerInv(w) && RequestInv(w, r) && TabInv(w, w.reqs[r].owner)
    ensures ManagerInv(Step(w, Reject(r)))
  {
    ManagerFrame(w, Step(w, Reject(r)));
  }

  lemma RejectKeeps(w: World, r: nat)
    requires Inv(w) && Enabled(w, Reject(r))
    ensures Inv(Step(w, Reject(r)))
  {
    var v := Step(w, Reject(r));
    assert RequestInv(w, r) && TabInv(w, w.reqs[r].owner);
    RejectManager(w, r);
    forall i | 0 <= i < |v.reqs| ensures RequestInv(v, i) { if i < |w.reqs| { assert RequestInv(w, i); } RejectRequest(w, r, i); }
    forall j | 0 <= j < |v.tabs| ensures TabInv(v, j) { assert j < |w.tabs| && TabInv(w, j); RejectTab(w, r, j); }
  }

  predicate HolderHolds(w: World) {
    w.holder.Some? ==> w.holder.value < |w.reqs| && Holds(w.reqs[w.holder.value].stage)
  }

  lemma ProcessRequest(w: World, r: nat, i: nat)
    requires Enabled(w, Process(r)) && HolderHolds(w) && i < |w.reqs| && RequestInv(w, i)
    ensures |Step(w, Process(r)).reqs| == |w.reqs| && RequestInv(Step(w, Process(r)), i)
  {
  }

  lemma ProcessTab(w: World, r: nat, j: nat)
    requires Enabled(w, Process(r)) && HolderHolds(w) && j < |w.tabs| && TabInv(w, j)
    ensures Step(w, Process(r)).tabs == w.tabs && TabInv(Step(w, Process(r)), j)
  {
  }

  lemma ProcessPlain(w: World, r: nat)
    requires Enabled(w, Process(r)) && ManagerInv(w) && w.reqs[r].kind != Steal
    ensures ManagerInv(Step(w, Process(r)))
  {
    var v := Step(w, Process(r));
    if w.holder.None? {
      assert v.queue == [];
    } else if w.reqs[r].kind == Ask {
      ManagerFrame(w, v);
    } else {
      assert r !in w.queue;
      assert v.queue == w.queue + [r];
    }
  }

  lemma ProcessSteal(w: World, r: nat)
    requires Enabled(w, Process(r)) && ManagerInv(w) && w.reqs[r].kind == Steal
    ensures ManagerInv(Step(w, Process(r)))
  {
    hide GrantNext, Release, Dead, TakeFrom, WithAbort, Remove, Resigned, OnLock, OnStolen;
    var v := Step(w, Process(r));
    assert forall x :: 0 <= x < |w.reqs| && w.reqs[x].stage != Waiting ==> v.reqs[x].stage != Waiting;
    assert forall x :: 0 <= x < |w.reqs| && w.reqs[x].stage == Waiting ==> v.reqs[x] == w.reqs[x];
  }

  lemma ProcessKeeps(w: World, r: nat)
    requires Inv(w) && Enabled(w, Process(r))
    ensures Inv(Step(w, Process(r)))
  {
    var v := Step(w, Process(r));
    if w.reqs[r].kind == Steal { ProcessSteal(w, r); } else { ProcessPlain(w, r); }
    forall i | 0 <= i < |v.reqs| ensures RequestInv(v, i) { assert RequestInv(w, i); ProcessRequest(w, r, i); }
    forall j | 0 <= j < |v.tabs| ensures TabInv(v, j) { assert TabInv(w, j); ProcessTab(w, r, j); }
  }

  lemma {:induction false} RemoveFacts(q: seq<nat>, r: nat)
    requires forall i, j :: 0 <= i < j < |q| ==> q[i] != q[j]
    ensures forall x :: x in Remove(q, r) <==> x in q && x != r
    ensures forall i, j :: 0 <= i < j < |Remove(q, r)| ==> Remove(q, r)[i] != Remove(q, r)[j]
  {
    if q != [] {
      RemoveFacts(q[1..], r);
      assert q == [q[0]] + q[1..];
      assert q[0] !in Remove(q[1..], r);
    }
  }

  lemma AbortRequest(w: World, r: nat, i: nat)
    requires Enabled(w, AbortLands(r)) && RequestInv(w, r) && TabInv(w, w.reqs[r].owner)
    requires i < |w.reqs| && RequestInv(w, i)
    ensures |Step(w, AbortLands(r)).reqs| == |w.reqs| && RequestInv(Step(w, AbortLands(r)), i)
  {
  }

  lemma AbortTab(w: World, r: nat, j: nat)
    requires Enabled(w, AbortLands(r)) && RequestInv(w, r) && j < |w.tabs| && TabInv(w, j)
    ensures Step(w, AbortLands(r)).tabs == w.tabs && TabInv(Step(w, AbortLands(r)), j)
  {
  }

  lemma AbortManager(w: World, r: nat)
    requires Enabled(w, AbortLands(r)) && ManagerInv(w)
    ensures ManagerInv(Step(w, AbortLands(r)))
  {
    var v := Step(w, AbortLands(r));
    RemoveFacts(w.queue, r);
    forall i | 0 <= i < |v.queue| ensures v.queue[i] < |v.reqs| && v.reqs[v.queue[i]].stage == Waiting {
      assert v.queue[i] in v.queue;
      assert v.queue[i] in w.queue;
    }
  }

  lemma AbortKeeps(w: World, r: nat)
    requires Inv(w) && Enabled(w, AbortLands(r))
    ensures Inv(Step(w, AbortLands(r)))
  {
    var v := Step(w, AbortLands(r));
    assert RequestInv(w, r) && TabInv(w, w.reqs[r].owner);
    AbortManager(w, r);
    forall i | 0 <= i < |v.reqs| ensures RequestInv(v, i) { assert RequestInv(w, i); AbortRequest(w, r, i); }
    forall j | 0 <= j < |v.tabs| ensures TabInv(v, j) { assert TabInv(w, j); AbortTab(w, r, j); }
  }

  /** Everything but a free lock with a line behind it: the books in the middle of a release. */
  ghost predicate Unsettled(w: World) {
    && (w.holder.Some? ==> w.holder.value < |w.reqs| && Holds(w.reqs[w.holder.value].stage))
    && (forall r :: 0 <= r < |w.reqs| && Holds(w.reqs[r].stage) ==> w.holder == Some(r))
    && (forall i :: 0 <= i < |w.queue| ==> w.queue[i] < |w.reqs| && w.reqs[w.queue[i]].stage == Waiting)
    && (forall i, j :: 0 <= i < j < |w.queue| ==> w.queue[i] != w.queue[j])
    && (forall r :: 0 <= r < |w.reqs| && w.reqs[r].stage == Waiting ==> r in w.queue)
    && (forall r :: 0 <= r < |w.reqs| ==> RequestInv(w, r))
    && (forall k :: 0 <= k < |w.tabs| ==> TabInv(w, k))
  }

  lemma GrantNextSettles(w: World)
    requires Unsettled(w)
    ensures Inv(GrantNext(w))
  {
    var v := GrantNext(w);
    forall i | 0 <= i < |v.reqs| ensures RequestInv(v, i) { assert RequestInv(w, i); }
    forall j | 0 <= j < |v.tabs| ensures TabInv(v, j) { assert TabInv(w, j); }
  }

  lemma FinishKeeps(w: World, r: nat)
    requires Inv(w) && Enabled(w, Finish(r))
    ensures Inv(Step(w, Finish(r)))
  {
    var u := w.(reqs := WithStage(w.reqs, r, Done), holder := None);
    assert RequestInv(w, r) && TabInv(w, w.reqs[r].owner);
    forall i | 0 <= i < |u.reqs| ensures RequestInv(u, i) { assert RequestInv(w, i); }
    forall j | 0 <= j < |u.tabs| ensures TabInv(u, j) { assert TabInv(w, j); }
    GrantNextSettles(u);
  }

  lemma {:induction false} KeepFacts(q: seq<nat>, reqs: seq<Request>, k: nat)
    requires forall i, j :: 0 <= i < j < |q| ==> q[i] != q[j]
    ensures forall x :: x in Keep(q, reqs, k) <==> x in q && !(x < |reqs| && reqs[x].owner == k)
    ensures forall i, j :: 0 <= i < j < |Keep(q, reqs, k)| ==> Keep(q, reqs, k)[i] != Keep(q, reqs, k)[j]
  {
    if q != [] {
      KeepFacts(q[1..], reqs, k);
      assert q == [q[0]] + q[1..];
      assert q[0] !in Keep(q[1..], reqs, k);
    }
  }

  lemma DieKeeps(w: World, k: nat)
    requires Inv(w) && Enabled(w, Die(k))
    ensures Inv(Step(w, Die(k)))
  {
    var mine := w.holder.Some? && w.holder.value < |w.reqs| && w.reqs[w.holder.value].owner == k;
    var u := World(Ended(w.reqs, k), if mine then None else w.holder, Keep(w.queue, w.reqs, k),
                   w.tabs[k := w.tabs[k].(alive := false)]);
    KeepFacts(w.queue, w.reqs, k);
    forall i | 0 <= i < |u.reqs| ensures RequestInv(u, i) { assert RequestInv(w, i); }
    forall j | 0 <= j < |u.tabs| ensures TabInv(u, j) { assert TabInv(w, j); }
    forall i | 0 <= i < |u.queue| ensures u.queue[i] < |u.reqs| && u.reqs[u.queue[i]].stage == Waiting {
      assert u.queue[i] in u.queue;
      assert u.queue[i] in w.queue;
    }
    GrantNextSettles(u);
  }

  lemma StepKeeps(w: World, a: Action)
    requires Inv(w) && Enabled(w, a)
    ensures Inv(Step(w, a))
  {
    match a
    case Stand => StandKeeps(w);
    case Take(k) => TakeKeeps(w, k);
    case Resign(k) => ResignKeeps(w, k);
    case Die(k) => DieKeeps(w, k);
    case Process(r) => ProcessKeeps(w, r);
    case AbortLands(r) => AbortKeeps(w, r);
    case Callback(r) => CallbackKeeps(w, r);
    case Deny(r) => DenyKeeps(w, r);
    case Settle(r) => SettleKeeps(w, r);
    case Reject(r) => RejectKeeps(w, r);
    case Finish(r) => FinishKeeps(w, r);
  }

  lemma {:induction false} RunKeeps(w: World, run: seq<Action>)
    requires Inv(w) && Possible(w, run)
    ensures Inv(After(w, run))
    decreases run
  {
    if run != [] {
      StepKeeps(w, run[0]);
      RunKeeps(Step(w, run[0]), run[1..]);
    }
  }
}
