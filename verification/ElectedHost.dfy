/**
 * What the election tells a host is what the host's step system takes: in whatever order a reachable
 * candidacy was told of gains and displacements, each is a step its host can take next.
 */
module ElectedHost {
  import opened TabElection
  import opened TabElectionSafety
  import opened TabElectionResults
  import Takeover

  // --------------------------------------------------------- who leads from the start

  /** A tab leads from the start once, and hears it first. */
  ghost predicate LedFirst(log: seq<HostEvent>) { forall i :: 0 < i < |log| ==> !log[i].LedFromStart? }

  lemma StepLedFirst(w: World, a: Action, k: nat)
    requires Inv(w) && Enabled(w, a) && k < |Step(w, a).tabs|
    requires k < |w.tabs| ==> LedFirst(w.tabs[k].log)
    ensures LedFirst(Step(w, a).tabs[k].log)
  {
    if k < |w.tabs| { StepHears(w, a, k); }
    if a.Callback? {
      var r := a.req;
      assert RequestInv(w, r) && TabInv(w, w.reqs[r].owner);
    }
  }

  lemma {:induction false} RunLedFirst(w: World, run: seq<Action>)
    requires Inv(w) && Possible(w, run) && forall k :: 0 <= k < |w.tabs| ==> LedFirst(w.tabs[k].log)
    ensures forall k :: 0 <= k < |After(w, run).tabs| ==> LedFirst(After(w, run).tabs[k].log)
    decreases run
  {
    if run != [] {
      forall k | 0 <= k < |Step(w, run[0]).tabs| ensures LedFirst(Step(w, run[0]).tabs[k].log) { StepLedFirst(w, run[0], k); }
      StepKeeps(w, run[0]);
      RunLedFirst(Step(w, run[0]), run[1..]);
    }
  }

  // ----------------------------------------------------------------- told, and taken

  /** The world a host starts in, by what its candidacy heard first. */
  function StartOf(log: seq<HostEvent>): Takeover.World {
    if log != [] && log[0].LedFromStart? then Takeover.AS_WRITER else Takeover.AS_READER
  }

  /** The steps a log of events asks of the host. */
  function AskedOf(log: seq<HostEvent>): seq<Takeover.Action> {
    if log == [] then []
    else
      AskedOf(log[..|log| - 1]) + match log[|log| - 1]
                                  case LedFromStart => []
                                  case TookOver(_) => [Takeover.Gain]
                                  case Displaced => [Takeover.Lose]
  }

  predicate IsTold(a: Takeover.Action) { a.Gain? || a.Lose? }

  /** The gains and losses among a host's steps. */
  function ToldIn(run: seq<Takeover.Action>): seq<Takeover.Action> {
    if run == [] then [] else (if IsTold(run[0]) then [run[0]] else []) + ToldIn(run[1..])
  }

  function LeadsAfter(first: bool, told: seq<Takeover.Action>): bool {
    if told == [] then first else told[|told| - 1].Gain?
  }

  lemma LeadsAfterNext(first: bool, a: Takeover.Action, rest: seq<Takeover.Action>)
    ensures LeadsAfter(first, [a] + rest) == LeadsAfter(a.Gain?, rest)
  {
    if rest != [] { assert ([a] + rest)[|rest|] == rest[|rest| - 1]; }
  }

  /** Whether a host leads is what it was told last, and a host that ever lost has a seat. */
  lemma {:induction false} LeadingIsWhatWasTold(w: Takeover.World, run: seq<Takeover.Action>)
    requires Takeover.Possible(w, run)
    ensures Takeover.After(w, run).leading == LeadsAfter(w.leading, ToldIn(run))
    ensures w.seats != [] || (w.leading && !Takeover.After(w, run).leading) ==> Takeover.After(w, run).seats != []
    decreases run
  {
    if run != [] {
      var a, next := run[0], Takeover.Step(w, run[0]);
      LeadingIsWhatWasTold(next, run[1..]);
      if IsTold(a) { LeadsAfterNext(w.leading, a, ToldIn(run[1..])); } else { assert [] + ToldIn(run[1..]) == ToldIn(run[1..]); }
    }
  }

  lemma {:induction false} AskedLast(log: seq<HostEvent>)
    requires Alternating(log) && LedFirst(log)
    ensures LeadsAfter(StartOf(log).leading, AskedOf(log)) == (log != [] && !log[|log| - 1].Displaced?)
  {
    if log != [] {
      var front := log[..|log| - 1];
      if front != [] { AskedLast(front); }
    }
  }

  /** The step the next event of a log asks. */
  lemma NextEventCanBeTaken(log: seq<HostEvent>, i: nat, run: seq<Takeover.Action>)
    requires Alternating(log) && LedFirst(log) && i < |log|
    requires Takeover.Possible(StartOf(log), run) && ToldIn(run) == AskedOf(log[..i])
    ensures log[i].LedFromStart? ==> i == 0
    ensures log[i].TookOver? ==> Takeover.Enabled(Takeover.After(StartOf(log), run), Takeover.Gain)
    ensures log[i].Displaced? ==> Takeover.Enabled(Takeover.After(StartOf(log), run), Takeover.Lose)
  {
    var front := log[..i];
    LeadingIsWhatWasTold(StartOf(log), run);
    if i > 0 {
      AskedLast(front);
      assert front[0] == log[0] && front[i - 1] == log[i - 1];
      assert log[i - 1].Displaced? <==> (i - 1) % 2 == 1;
    }
    assert log[i].Displaced? <==> i % 2 == 1;
  }

  /**
   * For every reachable candidacy and each event it was told: however the host's own steps came between
   * the events before it, the step this one asks is one the host can take.
   */
  lemma EveryEventCanBeTaken(election: seq<Action>, k: nat, i: nat, run: seq<Takeover.Action>)
    requires Possible(NOBODY, election) && k < |After(NOBODY, election).tabs| && i < |After(NOBODY, election).tabs[k].log|
    requires
      var log := After(NOBODY, election).tabs[k].log;
      Takeover.Possible(StartOf(log), run) && ToldIn(run) == AskedOf(log[..i])
    ensures
      var log := After(NOBODY, election).tabs[k].log;
      && (log[i].LedFromStart? ==> i == 0)
      && (log[i].TookOver? ==> Takeover.Enabled(Takeover.After(StartOf(log), run), Takeover.Gain))
      && (log[i].Displaced? ==> Takeover.Enabled(Takeover.After(StartOf(log), run), Takeover.Lose))
  {
    Reached(election);
    RunLedFirst(NOBODY, election);
    var w := After(NOBODY, election);
    assert TabInv(w, k);
    NextEventCanBeTaken(w.tabs[k].log, i, run);
  }
}
