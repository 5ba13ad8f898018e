/**
 * The returning tab's one switch (`publishedStart.ts`): a catch-up the node refuses, or that is
 * estimated over its budget, is abandoned once for the published snapshot. Times are exact reals;
 * the clock, the container and what its reopening does are the host's.
 */
module PublishedStart {
  import opened Options

  datatype Budget = Always | Seconds(s: real)

  datatype Given = Unset | AlwaysGiven | Finite(s: real) | NotFinite

  const DEFAULT_CATCH_UP_WITHIN_SECONDS := 30.0

  /** `catchUpBudgetOf`: none is the refusal. */
  function CatchUpBudgetOf(value: Given): (b: Option<Budget>)
    ensures b.None? <==> value.NotFinite? || (value.Finite? && value.s < 0.0)
    ensures b.Some? && b.value.Seconds? ==> b.value.s >= 0.0
    ensures value.Unset? ==> b == Some(Seconds(30.0))
    ensures value.AlwaysGiven? ==> b == Some(Always)
    ensures value.Finite? && b.Some? ==> b == Some(Seconds(value.s))
  {
    match value
    case Unset => Some(Seconds(DEFAULT_CATCH_UP_WITHIN_SECONDS))
    case AlwaysGiven => Some(Always)
    case Finite(s) => if s < 0.0 then None else Some(Seconds(s))
    case NotFinite => None
  }

  /** Where an advance left the canonical generation. */
  datatype Cursor = Cursor(lastToBlock: nat, latestBlock: nat)

  /** What the host answers when the switch asks: its container, by its generations and its cursor. */
  datatype View = View(container: bool, demoted: bool, generations: nat, left: Option<nat>)

  /** A reopening: whether a container was opened, the snapshot then chosen, the cursor loaded unless it threw. */
  datatype Reopening = Reopening(opens: bool, snapshot: Option<nat>, loaded: Option<nat>)

  datatype Indexed = Folded(cursor: Cursor) | ArchiveRefused | Failed

  /** One call of `advance`, by everything it reads from outside. */
  datatype Advance = Advance(before: Option<nat>, indexed: Indexed, elapsedMs: real, pointerMoved: bool,
                             view: View, reopening: Reopening)

  datatype Answer = LastSync(cursor: Cursor) | Switched(at: nat) | ArchiveRefusal | Failure

  /** What is held: the snapshot's block, what the catch-up measured, and whether the switch was tried. */
  datatype Held = Held(snapshot: Option<nat>, blocks: nat, ms: real, tried: bool)

  const NOTHING: Held := Held(None, 0, 0.0, false)

  // --------------------------------------------------------------------------- the switch

  predicate CanSwitch(h: Held, v: View) {
    && h.snapshot.Some? && v.container && !h.tried && !v.demoted && v.generations == 1
    && v.left.Some? && v.left.value < h.snapshot.value
  }

  function ContainerOpened(h: Held): Held { h.(blocks := 0, ms := 0.0) }

  function Reopened(h: Held, r: Reopening): Held {
    var chosen := h.(snapshot := r.snapshot);
    if r.opens then ContainerOpened(chosen) else chosen
  }

  datatype Switch = Nothing | Took(at: nat) | Threw

  function SwitchAnswer(h: Held, v: View, r: Reopening): Switch {
    if !CanSwitch(h, v) then Nothing
    else if r.loaded.None? then Threw
    else if r.loaded.value <= v.left.value then Nothing
    else Took(r.loaded.value)
  }

  function AfterSwitch(h: Held, v: View, r: Reopening): Held {
    if CanSwitch(h, v) then Reopened(h.(tried := true), r) else h
  }

  // -------------------------------------------------------------------------- the measure

  predicate Measures(budget: Budget, h: Held, before: Option<nat>, after: Cursor) {
    budget.Seconds? && h.snapshot.Some? && !h.tried && before.Some? && after.lastToBlock < h.snapshot.value
  }

  function Positive(x: real): real { if x > 0.0 then x else 0.0 }

  function Covered(before: nat, after: nat): nat { if after > before then after - before else 0 }

  function Measured(budget: Budget, h: Held, before: Option<nat>, after: Cursor, elapsedMs: real): Held {
    if Measures(budget, h, before, after)
    then h.(blocks := h.blocks + Covered(before.value, after.lastToBlock), ms := h.ms + Positive(elapsedMs))
    else h
  }

  /** `remaining` blocks at `ms` for `blocks` take longer than the budget, multiplied out. */
  predicate Slower(remaining: nat, ms: real, blocks: nat, budgetSeconds: real) {
    remaining as real * ms > budgetSeconds * 1000.0 * blocks as real
  }

  /** The rest of the gap, at the pace measured, is over the budget. */
  predicate Over(budget: Budget, h: Held, after: Cursor) {
    && budget.Seconds? && after.latestBlock > after.lastToBlock && h.blocks > 0
    && Slower(after.latestBlock - after.lastToBlock, h.ms, h.blocks, budget.s)
  }

  // -------------------------------------------------------------------------- the advance

  /** Whether an advance asks for the switch. */
  predicate Asks(budget: Budget, h: Held, a: Advance) {
    match a.indexed
    case Folded(c) =>
      !a.pointerMoved && Measures(budget, h, a.before, c) && Over(budget, Measured(budget, h, a.before, c, a.elapsedMs), c)
    case ArchiveRefused => true
    case Failed => false
  }

  function BeforeSwitch(budget: Budget, h: Held, a: Advance): Held {
    if a.indexed.Folded? && !a.pointerMoved then Measured(budget, h, a.before, a.indexed.cursor, a.elapsedMs) else h
  }

  function Advanced(budget: Budget, h: Held, a: Advance): Held {
    var m := BeforeSwitch(budget, h, a);
    if Asks(budget, h, a) then AfterSwitch(m, a.view, a.reopening) else m
  }

  function AnswerOf(budget: Budget, h: Held, a: Advance): Answer {
    var s := if Asks(budget, h, a) then SwitchAnswer(BeforeSwitch(budget, h, a), a.view, a.reopening) else Nothing;
    match s
    case Took(at) => Switched(at)
    case Threw => Failure
    case Nothing =>
      match a.indexed
      case Folded(c) => LastSync(c)
      case ArchiveRefused => ArchiveRefusal
      case Failed => Failure
  }

  // ------------------------------------------------------------------- as it is written

  function EstimateSeconds(remaining: nat, ms: real, blocks: nat): real
    requires blocks > 0
  {
    remaining as real * ms / blocks as real / 1000.0
  }

  lemma EstimateIsOver(remaining: nat, ms: real, blocks: nat, budget: real)
    requires blocks > 0
    ensures EstimateSeconds(remaining, ms, blocks) > budget <==> Slower(remaining, ms, blocks, budget)
  {
    var q := remaining as real * ms / blocks as real;
    assert q * blocks as real == remaining as real * ms;
    Scales(q, budget * 1000.0, blocks as real);
  }

  lemma Scales(x: real, y: real, k: real)
    requires k > 0.0
    ensures x > y <==> x * k > y * k
  {
    if x > y { Product(x - y, k, (x - y) * k); }
    if x < y { Product(y - x, k, (y - x) * k); }
  }

  lemma Product(x: real, y: real, xy: real)
    requires x > 0.0 && y > 0.0 && xy == x * y
    ensures xy > 0.0
  {
  }

  class Start {
    const budget: Budget
    var bootSnapshot: Option<nat>
    var blocks: nat
    var ms: real
    var tried: bool

    function State(): Held
      reads this
    {
      Held(bootSnapshot, blocks, ms, tried)
    }

    constructor (budget: Budget)
      ensures this.budget == budget && State() == NOTHING
    {
      this.budget := budget;
      bootSnapshot, blocks, ms, tried := None, 0, 0.0, false;
    }

    method SwitchTo(v: View, r: Reopening) returns (s: Switch, letGo: bool)
      modifies this
      ensures State() == AfterSwitch(old(State()), v, r)
      ensures s == SwitchAnswer(old(State()), v, r) && letGo == CanSwitch(old(State()), v)
    {
      letGo := false;
      if bootSnapshot.None? || !v.container || tried || v.demoted || v.generations != 1 { return Nothing, letGo; }
      if v.left.None? || v.left.value >= bootSnapshot.value { return Nothing, letGo; }
      tried := true;
      letGo := true;
      bootSnapshot := r.snapshot;
      if r.opens { OnContainerOpened(); }
      if r.loaded.None? { return Threw, letGo; }
      if r.loaded.value <= v.left.value { return Nothing, letGo; }
      return Took(r.loaded.value), letGo;
    }

    method OnContainerOpened()
      modifies this
      ensures State() == ContainerOpened(old(State()))
    {
      blocks, ms := 0, 0.0;
    }

    method Measure(before: Option<nat>, after: Cursor, elapsedMs: real) returns (over: bool)
      modifies this
      ensures State() == Measured(budget, old(State()), before, after, elapsedMs)
      ensures over == (Measures(budget, old(State()), before, after) && Over(budget, State(), after))
    {
      if budget.Always? || bootSnapshot.None? || tried || before.None? { return false; }
      if after.lastToBlock >= bootSnapshot.value { return false; }
      blocks := blocks + if after.lastToBlock > before.value then after.lastToBlock - before.value else 0;
      ms := ms + if elapsedMs > 0.0 then elapsedMs else 0.0;
      var remaining := after.latestBlock - after.lastToBlock;
      if remaining <= 0 || blocks == 0 { return false; }
      EstimateIsOver(remaining, ms, blocks, budget.s);
      return EstimateSeconds(remaining, ms, blocks) > budget.s;
    }

    method AdvanceOnce(a: Advance) returns (answer: Answer)
      modifies this
      ensures State() == Advanced(budget, old(State()), a)
      ensures answer == AnswerOf(budget, old(State()), a)
    {
      var switch, letGo;
      match a.indexed
      case Failed => return Failure;
      case ArchiveRefused =>
        switch, letGo := SwitchTo(a.view, a.reopening);
        match switch {
          case Took(at) => return Switched(at);
          case Threw => return Failure;
          case Nothing => return ArchiveRefusal;
        }
      case Folded(lastSync) =>
        if !a.pointerMoved {
          var overBudget := Measure(a.before, lastSync, a.elapsedMs);
          if overBudget {
            switch, letGo := SwitchTo(a.view, a.reopening);
            match switch {
              case Took(at) => return Switched(at);
              case Threw => return Failure;
              case Nothing =>
            }
          }
        }
        return LastSync(lastSync);
    }

    method Reset()
      modifies this
      ensures State() == NOTHING
    {
      bootSnapshot, blocks, ms, tried := None, 0, 0.0, false;
    }
  }

  // ------------------------------------------------------------------------------- runs

  /** What happens to a start: `snapshotFor` chose, a container was opened, an advance, a switch asked directly, a reset. */
  datatype Step =
    | Chose(snapshot: Option<nat>)
    | Opened
    | Advances(a: Advance)
    | Asked(view: View, reopening: Reopening)
    | Reset

  function After(budget: Budget, h: Held, step: Step): Held {
    match step
    case Chose(s) => h.(snapshot := s)
    case Opened => ContainerOpened(h)
    case Advances(a) => Advanced(budget, h, a)
    case Asked(v, r) => AfterSwitch(h, v, r)
    case Reset => NOTHING
  }

  ghost predicate Run(budget: Budget, steps: seq<Step>, states: seq<Held>) {
    && |states| == |steps| + 1 && states[0] == NOTHING
    && forall i :: 0 <= i < |steps| ==> states[i + 1] == After(budget, states[i], steps[i])
  }

  /** The view the host showed a step that may switch. */
  function Shown(step: Step): Option<View> {
    match step
    case Advances(a) => Some(a.view)
    case Asked(v, _) => Some(v)
    case _ => None
  }

  /** The step let go of the container and reopened it. */
  predicate LetsGo(budget: Budget, h: Held, step: Step) {
    match step
    case Advances(a) => Asks(budget, h, a) && CanSwitch(BeforeSwitch(budget, h, a), a.view)
    case Asked(v, _) => CanSwitch(h, v)
    case _ => false
  }

  lemma {:induction false} TriedUntilReset(budget: Budget, steps: seq<Step>, states: seq<Held>, from: nat, to: nat)
    requires Run(budget, steps, states) && from <= to < |states| && states[from].tried
    requires forall k :: from <= k < to ==> !steps[k].Reset?
    ensures states[to].tried
  {
    if to > from { TriedUntilReset(budget, steps, states, from, to - 1); }
  }

  /** Between resets the container is let go and reopened at most once, whatever failed in between. */
  lemma LetsGoOnce(budget: Budget, steps: seq<Step>, states: seq<Held>, i: nat, j: nat)
    requires Run(budget, steps, states) && i < j < |steps|
    requires LetsGo(budget, states[i], steps[i]) && LetsGo(budget, states[j], steps[j])
    ensures exists k :: i < k < j && steps[k].Reset?
  {
    if forall k :: i < k < j ==> !steps[k].Reset? {
      TriedUntilReset(budget, steps, states, i + 1, j);
      assert false;
    }
  }

  /** No reset and no let-go among the steps `[from, to)`. */
  ghost predicate Unbroken(budget: Budget, steps: seq<Step>, states: seq<Held>, from: nat, to: nat)
    requires to <= |steps| <= |states|
  {
    forall k :: from <= k < to ==> !steps[k].Reset? && !LetsGo(budget, states[k], steps[k])
  }

  /** Until it is tried, the snapshot held is the one last chosen since the reset. */
  lemma {:induction false} SnapshotWasChosen(budget: Budget, steps: seq<Step>, states: seq<Held>, j: nat) returns (i: nat)
    requires Run(budget, steps, states) && j <= |steps| && states[j].snapshot.Some? && !states[j].tried
    ensures i < j && steps[i] == Chose(states[j].snapshot) && Unbroken(budget, steps, states, i, j)
    ensures forall k :: i < k < j ==> !steps[k].Chose?
  {
    i := j - 1;
    assert states[j] == After(budget, states[j - 1], steps[j - 1]);
    if !steps[i].Chose? { i := SnapshotWasChosen(budget, steps, states, j - 1); }
  }

  /**
   * A let-go is only from an undemoted container of one generation, with a cursor strictly below the
   * snapshot last chosen, with no reset, no other choice and no other let-go since it was.
   */
  lemma LetsGoOnlyBelow(budget: Budget, steps: seq<Step>, states: seq<Held>, j: nat) returns (i: nat)
    requires Run(budget, steps, states) && j < |steps| && LetsGo(budget, states[j], steps[j])
    ensures i < j && steps[i].Chose? && steps[i].snapshot.Some? && Unbroken(budget, steps, states, i, j)
    ensures forall k :: i < k < j ==> !steps[k].Chose?
    ensures Shown(steps[j]).Some?
    ensures
      var v := Shown(steps[j]).value;
      v.container && !v.demoted && v.generations == 1 && v.left.Some? && v.left.value < steps[i].snapshot.value
  {
    i := SnapshotWasChosen(budget, steps, states, j);
  }

  /**
   * `switched` is answered with a cursor strictly above the abandoned one, which is strictly below the
   * snapshot last chosen; and until a reset no later advance answers it, whatever it finds.
   */
  lemma SwitchedIsAhead(budget: Budget, steps: seq<Step>, states: seq<Held>, j: nat) returns (i: nat)
    requires Run(budget, steps, states) && j < |steps| && steps[j].Advances? && AnswerOf(budget, states[j], steps[j].a).Switched?
    ensures i < j && steps[i].Chose? && steps[i].snapshot.Some? && steps[j].a.view.left.Some?
    ensures steps[j].a.view.left.value < steps[i].snapshot.value
    ensures AnswerOf(budget, states[j], steps[j].a).at > steps[j].a.view.left.value
    ensures forall k :: j < k < |steps| && steps[k].Advances? && (forall m :: j < m < k ==> !steps[m].Reset?) ==>
              !AnswerOf(budget, states[k], steps[k].a).Switched?
  {
    i := LetsGoOnlyBelow(budget, steps, states, j);
    forall k | j < k < |steps| && steps[k].Advances? && forall m :: j < m < k ==> !steps[m].Reset?
      ensures !AnswerOf(budget, states[k], steps[k].a).Switched?
    {
      TriedUntilReset(budget, steps, states, j + 1, k);
    }
  }

  /**
   * Once the switch was tried, and until a reset, every refusal is thrown on, every failure is, and
   * every advance that folded answers its own cursor; none changes what is held.
   */
  lemma RefusalsAreRethrown(budget: Budget, steps: seq<Step>, states: seq<Held>, i: nat, j: nat)
    requires Run(budget, steps, states) && i < j < |steps| && LetsGo(budget, states[i], steps[i])
    requires (forall k :: i < k < j ==> !steps[k].Reset?) && steps[j].Advances?
    ensures states[j + 1] == states[j]
    ensures AnswerOf(budget, states[j], steps[j].a)
            == match steps[j].a.indexed { case Folded(c) => LastSync(c) case ArchiveRefused => ArchiveRefusal case Failed => Failure }
  {
    TriedUntilReset(budget, steps, states, i + 1, j);
    assert states[j + 1] == After(budget, states[j], steps[j]);
  }

  /** Whatever kept a switch from being tried, a refusal is thrown on and a folded advance is not lost. */
  lemma NothingSwitched(budget: Budget, h: Held, a: Advance)
    requires !LetsGo(budget, h, Advances(a))
    ensures a.indexed.ArchiveRefused? ==> AnswerOf(budget, h, a) == ArchiveRefusal && Advanced(budget, h, a) == h
    ensures a.indexed.Failed? ==> AnswerOf(budget, h, a) == Failure && Advanced(budget, h, a) == h
    ensures a.indexed.Folded? ==> AnswerOf(budget, h, a) == LastSync(a.indexed.cursor)
  {
  }

  /** And with no snapshot chosen since a reset, a refusal is thrown on too. */
  lemma RefusedWithNothingChosen(budget: Budget, steps: seq<Step>, states: seq<Held>, j: nat)
    requires Run(budget, steps, states) && j < |steps| && steps[j].Advances? && steps[j].a.indexed.ArchiveRefused?
    requires forall i :: 0 <= i < j && steps[i].Chose? && steps[i].snapshot.Some? ==> exists k :: i < k < j && steps[k].Reset?
    ensures AnswerOf(budget, states[j], steps[j].a) == ArchiveRefusal && states[j + 1] == states[j]
  {
    if LetsGo(budget, states[j], steps[j]) {
      var i := LetsGoOnlyBelow(budget, steps, states, j);
      assert false;
    }
    assert states[j + 1] == After(budget, states[j], steps[j]);
  }

  // ---------------------------------------------------------------- what is measured

  /** A container opens at this step, and measuring starts afresh. */
  predicate Afresh(budget: Budget, h: Held, step: Step) {
    match step
    case Opened => true
    case Reset => true
    case Advances(a) => LetsGo(budget, h, step) && a.reopening.opens
    case Asked(_, r) => LetsGo(budget, h, step) && r.opens
    case Chose(_) => false
  }

  /** An advance whose figures count. */
  predicate Counts(budget: Budget, h: Held, step: Step) {
    step.Advances? && step.a.indexed.Folded? && !step.a.pointerMoved && Measures(budget, h, step.a.before, step.a.indexed.cursor)
  }

  /** The blocks, and the milliseconds, of the advances that count among the steps `[from, to)`. */
  function BlocksOf(budget: Budget, steps: seq<Step>, states: seq<Held>, from: nat, to: nat): nat
    requires from <= to <= |steps| <= |states|
  {
    if to == from then 0
    else
      BlocksOf(budget, steps, states, from, to - 1)
      + if Counts(budget, states[to - 1], steps[to - 1])
        then Covered(steps[to - 1].a.before.value, steps[to - 1].a.indexed.cursor.lastToBlock) else 0
  }

  function MsOf(budget: Budget, steps: seq<Step>, states: seq<Held>, from: nat, to: nat): real
    requires from <= to <= |steps| <= |states|
  {
    if to == from then 0.0
    else
      MsOf(budget, steps, states, from, to - 1)
      + if Counts(budget, states[to - 1], steps[to - 1]) then Positive(steps[to - 1].a.elapsedMs) else 0.0
  }

  /** What is held as measured is the sum over the advances that count since the container opened. */
  lemma {:induction false} MeasuredSinceOpened(budget: Budget, steps: seq<Step>, states: seq<Held>, from: nat, to: nat)
    requires Run(budget, steps, states) && 0 < from <= to <= |steps|
    requires Afresh(budget, states[from - 1], steps[from - 1])
    requires forall k :: from <= k < to ==> !Afresh(budget, states[k], steps[k])
    ensures states[to].blocks == BlocksOf(budget, steps, states, from, to)
    ensures states[to].ms == MsOf(budget, steps, states, from, to)
  {
    if to > from {
      MeasuredSinceOpened(budget, steps, states, from, to - 1);
      assert states[to] == After(budget, states[to - 1], steps[to - 1]);
    } else {
      assert states[from] == After(budget, states[from - 1], steps[from - 1]);
    }
  }

  /** The advances of `[from, to)` all count, each going on from where the one before it left off. */
  ghost predicate Consecutive(budget: Budget, steps: seq<Step>, states: seq<Held>, from: nat, to: nat)
    requires from < to <= |steps| <= |states|
  {
    && (forall k :: from <= k < to ==> Counts(budget, states[k], steps[k]))
    && (forall k :: from < k < to ==> steps[k].a.before.value == steps[k - 1].a.indexed.cursor.lastToBlock)
  }

  /** Measured blocks are the distance covered, and more only if some advance went backwards. */
  lemma {:induction false} BlocksAreTheDistance(budget: Budget, steps: seq<Step>, states: seq<Held>, from: nat, to: nat)
    requires from < to <= |steps| <= |states| && Consecutive(budget, steps, states, from, to)
    ensures
      var distance := steps[to - 1].a.indexed.cursor.lastToBlock - steps[from].a.before.value;
      && BlocksOf(budget, steps, states, from, to) >= distance
      && (BlocksOf(budget, steps, states, from, to) == distance
          <==> forall k :: from <= k < to ==> steps[k].a.before.value <= steps[k].a.indexed.cursor.lastToBlock)
  {
    if to > from + 1 { BlocksAreTheDistance(budget, steps, states, from, to - 1); }
  }

  /**
   * Over budget is exactly this: an advance that counts, with a gap still ahead, whose remaining
   * blocks at the pace of every counting advance since the container opened take longer than the
   * budget. With no budget it never is.
   */
  lemma OverBudgetExactly(budget: Budget, steps: seq<Step>, states: seq<Held>, from: nat, j: nat)
    requires Run(budget, steps, states) && 0 < from <= j < |steps|
    requires Afresh(budget, states[from - 1], steps[from - 1])
    requires forall k :: from <= k < j ==> !Afresh(budget, states[k], steps[k])
    requires steps[j].Advances? && steps[j].a.indexed.Folded?
    ensures Asks(budget, states[j], steps[j].a) <==>
      var c := steps[j].a.indexed.cursor;
      var blocks, ms := BlocksOf(budget, steps, states, from, j + 1), MsOf(budget, steps, states, from, j + 1);
      && Counts(budget, states[j], steps[j]) && c.latestBlock > c.lastToBlock && blocks > 0
      && Slower(c.latestBlock - c.lastToBlock, ms, blocks, budget.s)
    ensures budget.Always? ==> !Asks(budget, states[j], steps[j].a)
  {
    hide Slower;
    MeasuredSinceOpened(budget, steps, states, from, j);
  }
}
