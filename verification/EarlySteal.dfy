/**
 * Why a steal must wait for the first ask to settle. `takeFromBackgroundedLeader` itself does
 * not test it; called earlier, it leaves the candidacy with a queued request beside its tenure,
 * which can then be granted a second time with no displacement in between.
 */
module EarlySteal {
  import opened Options
  import opened TabElection

  lemma OneMore(w: World, a: Action, rest: seq<Action>)
    requires Enabled(w, a) && Possible(Step(w, a), rest)
    ensures Possible(w, [a] + rest) && After(w, [a] + rest) == After(Step(w, a), rest)
  {
    assert ([a] + rest)[1..] == rest;
  }

  lemma NoMore(w: World)
    ensures Possible(w, []) && After(w, []) == w
  {
  }

  /** Tab 0 leads from the start; tab 1's ask was refused and its promise has not settled. */
  function Leader(): Candidate { Candidate(true, false, true, false, None, Some(0), false, 0, [LedFromStart]) }
  const ASK_REFUSED := World([Request(0, Ask, Held, false), Request(1, Ask, Settling, false)], Some(0), [], [Leader(), Fresh(1)])

  lemma AskRefusedIsReached()
    ensures var run := [Stand, Process(0), Callback(0), Stand, Process(1), Deny(1)];
      Possible(NOBODY, run) && After(NOBODY, run) == ASK_REFUSED
  {
    hide Possible, After;
    var w1 := Step(NOBODY, Stand);
    var w2 := Step(w1, Process(0));
    var w3 := Step(w2, Callback(0));
    assert w3.tabs[0].log == [LedFromStart];
    assert w3.tabs == [Leader()] && w3.reqs == [Request(0, Ask, Held, false)];
    var w4 := Step(w3, Stand);
    var w5 := Step(w4, Process(1));
    assert w5.tabs == ASK_REFUSED.tabs && w5.reqs == [Request(0, Ask, Held, false), Request(1, Ask, Denied, false)];
    assert Step(w5, Deny(1)).reqs == ASK_REFUSED.reqs;
    NoMore(Step(w5, Deny(1)));
    var r1 := [Deny(1)] + [];
    OneMore(w5, Deny(1), []);
    OneMore(w4, Process(1), r1);
    var r2 := [Process(1)] + r1;
    OneMore(w3, Stand, r2);
    var r3 := [Stand] + r2;
    OneMore(w2, Callback(0), r3);
    var r4 := [Callback(0)] + r3;
    OneMore(w1, Process(0), r4);
    var r5 := [Process(0)] + r4;
    OneMore(NOBODY, Stand, r5);
    var r6 := [Stand] + r5;
    assert r6 == [Stand, Process(0), Callback(0), Stand, Process(1), Deny(1)];
  }

  lemma {:induction false} Chained(w: World, first: seq<Action>, rest: seq<Action>)
    requires Possible(w, first) && Possible(After(w, first), rest)
    ensures Possible(w, first + rest) && After(w, first + rest) == After(After(w, first), rest)
    decreases first
  {
    if first == [] {
      assert first + rest == rest;
    } else {
      var next := Step(w, first[0]);
      Chained(next, first[1..], rest);
      OneMore(w, first[0], first[1..] + rest);
      assert [first[0]] + (first[1..] + rest) == first + rest;
    }
  }

  /** Tab 1 has stolen the lock with request 2 and is still queued with request 3. */
  ghost predicate QueuedBesideItsTenure(w: World) {
    && w.holder == Some(2) && w.queue == [3] && |w.reqs| == 4 && |w.tabs| == 2
    && w.reqs[0] == Request(0, Ask, Stolen, false)
    && w.reqs[2] == Request(1, Steal, Held, false) && w.reqs[3] == Request(1, Queue, Waiting, false)
    && w.tabs[0] == Leader()
    && w.tabs[1].queued == Some(3) && !w.tabs[1].resigned && w.tabs[1].alive
    && w.tabs[1].log == [TookOver(LeaderBackgrounded)]
  }

  const DOUBLED := [Settle(1), Process(3), Process(2), Callback(2)]

  lemma StealsBesideItsQueue(w0: World)
    requires w0 == TakeFrom(ASK_REFUSED, 1)
    ensures Possible(w0, DOUBLED) && QueuedBesideItsTenure(After(w0, DOUBLED))
  {
    hide Possible, After, Dead, Release, Remove, Resigned;
    var w1 := Step(w0, Settle(1));
    assert w1.queue == [] && |w1.reqs| == 4 && w1.reqs[3] == Request(1, Queue, Sent, false);
    var w2 := Step(w1, Process(3));
    assert w2.queue == [3] && w2.reqs[2] == Request(1, Steal, Sent, false) && w2.holder == Some(0);
    var w3 := Step(w2, Process(2));
    assert QueuedBesideItsTenure(Step(w3, Callback(2)));
    NoMore(Step(w3, Callback(2)));
    var r1 := [Callback(2)] + [];
    OneMore(w3, Callback(2), []);
    OneMore(w2, Process(2), r1);
    var r2 := [Process(2)] + r1;
    OneMore(w1, Process(3), r2);
    var r3 := [Process(3)] + r2;
    OneMore(w0, Settle(1), r3);
    var r4 := [Settle(1)] + r3;
    assert r4 == DOUBLED;
  }

  /** Tab 0 has stolen the lock back with request 5; tab 1 does not know yet. */
  ghost predicate StolenBack(w: World) {
    && w.holder == Some(5) && w.queue == [3] && |w.reqs| == 6 && |w.tabs| == 2
    && w.reqs[5] == Request(0, Steal, Granted, false) && w.reqs[3] == Request(1, Queue, Waiting, false)
    && w.tabs[0].alive && !w.tabs[0].resigned && w.tabs[0].queued == None
    && w.tabs[1].queued == Some(3) && !w.tabs[1].resigned && w.tabs[1].alive
    && w.tabs[1].log == [TookOver(LeaderBackgrounded)]
  }

  const BACK := [Reject(0), Take(0), Process(5)]

  lemma StealsBack(w0: World)
    requires QueuedBesideItsTenure(w0)
    ensures Possible(w0, BACK) && StolenBack(After(w0, BACK))
  {
    hide Possible, After;
    var w1 := Step(w0, Reject(0));
    assert |w1.reqs| == 5 && w1.tabs[0].queued == Some(4) && w1.tabs[1] == w0.tabs[1] && w1.reqs[3] == w0.reqs[3];
    var w2 := Step(w1, Take(0));
    assert w2.reqs[5] == Request(0, Steal, Sent, false) && w2.holder == Some(2) && w2.tabs[1] == w0.tabs[1];
    assert StolenBack(Step(w2, Process(5)));
    NoMore(Step(w2, Process(5)));
    var r1 := [Process(5)] + [];
    OneMore(w2, Process(5), []);
    OneMore(w1, Take(0), r1);
    var r2 := [Take(0)] + r1;
    OneMore(w0, Reject(0), r2);
    var r3 := [Reject(0)] + r2;
    assert r3 == BACK;
  }

  const FREED := [Callback(5), Resign(0), Finish(5), Callback(3)]

  lemma GainsTwice(w0: World)
    requires StolenBack(w0)
    ensures Possible(w0, FREED) && |After(w0, FREED).tabs| == 2
    ensures After(w0, FREED).tabs[1].log == [TookOver(LeaderBackgrounded), TookOver(LeaderGone)]
  {
    hide Possible, After;
    var w1 := Step(w0, Callback(5));
    assert w1.tabs[0].giveBack == Some(5) && w1.reqs[5].stage == Held && w1.reqs[3] == w0.reqs[3];
    var w2 := Step(w1, Resign(0));
    assert w2.reqs[5].stage == Releasing && w2.reqs[3] == w0.reqs[3] && w2.tabs[1] == w0.tabs[1];
    var w3 := Step(w2, Finish(5));
    assert w3.holder == Some(3) && w3.reqs[3] == Request(1, Queue, Granted, false) && w3.tabs[1] == w0.tabs[1];
    NoMore(Step(w3, Callback(3)));
    var r1 := [Callback(3)] + [];
    OneMore(w3, Callback(3), []);
    OneMore(w2, Finish(5), r1);
    var r2 := [Finish(5)] + r1;
    OneMore(w1, Resign(0), r2);
    var r3 := [Resign(0)] + r2;
    OneMore(w0, Callback(5), r3);
    var r4 := [Callback(5)] + r3;
    assert r4 == FREED;
  }

  /** After one steal before the ask settled, ordinary steps tell the host of two gains in a row. */
  lemma StealBeforeTheAskSettles()
    ensures MayTake(ASK_REFUSED.tabs[1]) && ASK_REFUSED.tabs[1].asking
    ensures exists run ::
              (&& Possible(TakeFrom(ASK_REFUSED, 1), run)
               && |After(TakeFrom(ASK_REFUSED, 1), run).tabs| == 2
               && After(TakeFrom(ASK_REFUSED, 1), run).tabs[1].log
                    == [TookOver(LeaderBackgrounded), TookOver(LeaderGone)])
  {
    var w := TakeFrom(ASK_REFUSED, 1);
    StealsBesideItsQueue(w);
    var w1 := After(w, DOUBLED);
    StealsBack(w1);
    GainsTwice(After(w1, BACK));
    Chained(w1, BACK, FREED);
    Chained(w, DOUBLED, BACK + FREED);
  }
}
