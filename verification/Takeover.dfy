/**
 * The host around a candidacy (`IndexerState.ts`): a takeover is a coroutine that
 * awaits its seat and its container, and a displacement can land while it does. The `tenure` counter is what
 * lets a stale continuation know it is stale.
 */
module Takeover {
  import opened Options

  datatype Role = NoSeat | Reader | Writer

  /** What the host itself holds: `indexer` and `reading` by the takeover or seat they came from. */
  datatype Core = Core(tenure: nat, indexer: Option<nat>, reading: Option<nat>, role: Role)

  // ------------------------------------------------- what each continuation does to it

  function Begun(c: Core): Core { c.(tenure := c.tenure + 1) }

  predicate MayStart(c: Core, mine: nat) { c.indexer.None? && c.tenure == mine }

  function Seated(c: Core, seat: nat): Core { c.(reading := Some(seat), role := Reader) }

  function SteppedDown(c: Core): Core { c.(tenure := c.tenure + 1, role := Reader, indexer := None) }

  /** After `initAsWriter`: a stale fresh start lets go of what it built, another drops the reader seat. */
  function Finished(c: Core, mine: nat): Core {
    if c.tenure != mine then c.(indexer := None) else c.(reading := None)
  }

  /** The same, as the object the source has. */
  class Host {
    var tenure: nat
    var indexer: Option<nat>
    var reading: Option<nat>
    var role: Role

    function Held(): Core
      reads this
    {
      Core(tenure, indexer, reading, role)
    }

    constructor ()
      ensures Held() == Core(0, None, None, NoSeat)
    {
      tenure, indexer, reading, role := 0, None, None, NoSeat;
    }

    /** `takeOver` up to its first await. */
    method TakeOver() returns (mine: nat)
      modifies this
      ensures Held() == Begun(old(Held())) && mine == Held().tenure
    {
      tenure := tenure + 1;
      mine := tenure;
    }

    /** `takeOver` once the seat it waited for is there. */
    method Resume(mine: nat) returns (starts: bool)
      modifies this
      ensures starts == MayStart(old(Held()), mine)
      ensures Held() == if starts then old(Held()).(role := Writer) else old(Held())
    {
      if indexer.Some? || tenure != mine { return false; }
      role := Writer;
      return true;
    }

    method ContainerOpened(id: nat)
      modifies this
      ensures Held() == old(Held()).(indexer := Some(id))
    {
      indexer := Some(id);
    }

    /** `takeOver` after `initAsWriter`. */
    method Finish(mine: nat)
      modifies this
      ensures Held() == Finished(old(Held()), mine)
    {
      if tenure != mine {
        LetGoOfTheWriter();
        return;
      }
      reading := None;
    }

    method LetGoOfTheWriter()
      modifies this
      ensures Held() == old(Held()).(indexer := None)
    {
      indexer := None;
    }

    method StepDown()
      modifies this
      ensures Held() == SteppedDown(old(Held()))
    {
      tenure := tenure + 1;
      role := Reader;
      if indexer.Some? { LetGoOfTheWriter(); }
    }

    method SeatOpened(seat: nat)
      modifies this
      ensures Held() == Seated(old(Held()), seat)
    {
      reading := Some(seat);
      if role != Reader { role := Reader; }
    }
  }

  // ------------------------------------------------------------------ the step system

  datatype Seat = Building | Built | Failed

  /** How far one takeover has got: `Awaiting` names the seat it waits for. */
  datatype Phase =
    | Awaiting(seat: nat)
    | Starting     // its fresh start is in progress
    | Succeeded
    | FailedEarly  // the fresh start threw before its container was there
    | FailedLate   // it threw after
    | Blocked      // it was current and found a container already there
    | Stale        // it found its tenure over, before its fresh start or after

  datatype Takeover = Takeover(mine: nat, phase: Phase)

  /**
   * `leading` is what the candidacy last said: a takeover, and no displacement since. `switching` names
   * the containers the returning-tab switch is opening again; whatever container is held can be one, as
   * often as `PublishedStart` allows and oftener.
   */
  datatype World = World(core: Core, seats: seq<Seat>, takes: seq<Takeover>, leading: bool, switching: set<nat>)

  /**
   * The tasks of the event loop. A container opening and the rest of its fresh start are one task:
   * the source awaits nothing between them but promises that are settled already.
   */
  datatype Action =
    | Gain                          // onTakeover
    | Lose                          // onDisplaced
    | SeatEnds(seat: nat, ok: bool) // `openReader` settled
    | Resumes(take: nat)
    | Opens(take: nat)              // `openIndexer` resolved, and the fresh start ended
    | FailsToOpen(take: nat)        // it threw before its container was there
    | FailsLate(take: nat)          // `openIndexer` resolved, and what followed threw
    | Switches(take: nat)           // an advance over its container begins to open it again
    | Reopens(take: nat)            // that opening resolved: `openContainer` makes no tenure test
    | FailsToReopen(take: nat)

  /** A tab that found the lock held: a reader whose first seat is being built. */
  const AS_READER := World(Core(0, None, None, NoSeat), [Building], [], false, {})

  /** A tab that found it free and has finished its `init`. */
  const AS_WRITER := World(Core(1, Some(0), None, Writer), [], [Takeover(1, Succeeded)], true, {})

  predicate Start(w: World) { w == AS_READER || w == AS_WRITER }

  predicate Enabled(w: World, a: Action) {
    match a
    case Gain => !w.leading && w.seats != []
    case Lose => w.leading
    case SeatEnds(s, _) => s < |w.seats| && w.seats[s] == Building
    case Resumes(i) =>
      i < |w.takes| && w.takes[i].phase.Awaiting? && w.takes[i].phase.seat < |w.seats|
      && w.seats[w.takes[i].phase.seat] != Building
    case Opens(i) => i < |w.takes| && w.takes[i].phase == Starting
    case FailsToOpen(i) => i < |w.takes| && w.takes[i].phase == Starting
    case FailsLate(i) => i < |w.takes| && w.takes[i].phase == Starting
    case Switches(i) => w.core.indexer == Some(i) && i !in w.switching
    case Reopens(i) => i in w.switching
    case FailsToReopen(i) => i in w.switching
  }

  function Moved(w: World, i: nat, phase: Phase): seq<Takeover>
    requires i < |w.takes|
  {
    w.takes[i := w.takes[i].(phase := phase)]
  }

  function Step(w: World, a: Action): World
    requires Enabled(w, a)
  {
    match a
    case Gain =>
      var c := Begun(w.core);
      w.(core := c, leading := true, takes := w.takes + [Takeover(c.tenure, Awaiting(|w.seats| - 1))])
    case Lose => w.(core := SteppedDown(w.core), leading := false, seats := w.seats + [Building])
    case SeatEnds(s, ok) =>
      w.(core := if ok then Seated(w.core, s) else w.core, seats := w.seats[s := if ok then Built else Failed])
    case Resumes(i) =>
      if MayStart(w.core, w.takes[i].mine)
      then w.(core := w.core.(role := Writer), takes := Moved(w, i, Starting))
      else w.(takes := Moved(w, i, if w.core.tenure == w.takes[i].mine then Blocked else Stale))
    case Opens(i) =>
      w.(core := Finished(w.core.(indexer := Some(i)), w.takes[i].mine),
         takes := Moved(w, i, if w.core.tenure == w.takes[i].mine then Succeeded else Stale))
    case FailsToOpen(i) => w.(takes := Moved(w, i, FailedEarly))
    case FailsLate(i) => w.(core := w.core.(indexer := Some(i)), takes := Moved(w, i, FailedLate))
    case Switches(i) => w.(switching := w.switching + {i})
    case Reopens(i) => w.(core := w.core.(indexer := Some(i)), switching := w.switching - {i})
    case FailsToReopen(i) => w.(switching := w.switching - {i})
  }

  ghost predicate Possible(w: World, run: seq<Action>)
    decreases run
  {
    run == [] || (Enabled(w, run[0]) && Possible(Step(w, run[0]), run[1..]))
  }

  ghost function After(w: World, run: seq<Action>): World
    requires Possible(w, run)
    decreases run
  {
    if run == [] then w else After(Step(w, run[0]), run[1..])
  }

  // ----------------------------------------------------------- what every step keeps

  predicate Current(w: World, i: nat) { w.leading && i + 1 == |w.takes| }

  /** The fresh start opened a container of its own and kept it. */
  predicate HadContainer(w: World, i: nat) {
    i < |w.takes| && (w.takes[i].phase == Succeeded || w.takes[i].phase == FailedLate)
  }

  ghost predicate ContainerInv(w: World) {
    && (w.core.indexer.Some? ==> HadContainer(w, w.core.indexer.value))
    && (forall i :: i in w.switching ==> HadContainer(w, i))
  }

  /** Only the takeover that leads has the tenure; a tab that lost the lock reads. */
  ghost predicate TenureInv(w: World) {
    && (w.leading ==> w.takes != [])
    && (forall i :: 0 <= i < |w.takes| ==> w.takes[i].mine <= w.core.tenure)
    && (forall i :: 0 <= i < |w.takes| ==> (w.takes[i].mine == w.core.tenure <==> Current(w, i)))
    && (!w.leading && w.takes != [] ==> w.core.role == Reader && w.seats != [])
    && (w.seats != [] && w.seats[|w.seats| - 1] == Built && !(w.leading && w.takes[|w.takes| - 1].phase == Succeeded)
        ==> w.core.reading.Some?)
  }

  ghost predicate Inv(w: World) { TenureInv(w) && ContainerInv(w) }

  lemma StepKeepsTenure(w: World, a: Action)
    requires TenureInv(w) && Enabled(w, a)
    ensures TenureInv(Step(w, a))
  {
  }

  lemma StepKeepsContainer(w: World, a: Action)
    requires TenureInv(w) && ContainerInv(w) && Enabled(w, a)
    ensures ContainerInv(Step(w, a))
  {
  }

  lemma StepKeeps(w: World, a: Action)
    requires Inv(w) && Enabled(w, a)
    ensures Inv(Step(w, a))
  {
    hide TenureInv, ContainerInv, Step;
    StepKeepsTenure(w, a);
    StepKeepsContainer(w, a);
  }

  lemma {:induction false} RunKeeps(w: World, run: seq<Action>)
    requires Inv(w) && Possible(w, run)
    ensures Inv(After(w, run))
    decreases run
  {
    if run != [] {
      StepKeeps(w, run[0]);
      RunKeeps(Step(w, run[0]), run[1..]);
    }
  }

  // ------------------------------------------------------------------- the displaced tab

  /** No takeover that leads has begun its fresh start. */
  predicate Idle(w: World) { !w.leading || (w.takes != [] && w.takes[|w.takes| - 1].phase.Awaiting?) }

  predicate LetsGo(a: Action) { a.Lose? || a.Opens? }

  /** Nothing from the run's action `from` on lets go of a container. */
  ghost predicate Undisturbed(run: seq<Action>, from: nat) {
    forall k :: from <= k < |run| ==> !LetsGo(run[k])
  }

  /** A container is set with no test of the tenure: by a late failure, or by a switch opening again. */
  predicate Leaves(a: Action) { a.FailsLate? || a.Reopens? }

  /** The run leaves a container so, and nothing after it lets go of one. */
  ghost predicate LeftOpen(run: seq<Action>) {
    exists j :: 0 <= j < |run| && Leaves(run[j]) && Undisturbed(run, j + 1)
  }

  lemma UndisturbedNext(run: seq<Action>, j: nat)
    requires run != []
    ensures Undisturbed(run, j + 1) <==> Undisturbed(run[1..], j)
  {
    assert forall k :: j <= k < |run| - 1 ==> run[1..][k] == run[k + 1];
    if Undisturbed(run[1..], j) {
      forall k | j + 1 <= k < |run| ensures !LetsGo(run[k]) { assert run[k] == run[1..][k - 1]; }
    }
  }

  lemma LeftOpenNext(run: seq<Action>)
    requires run != []
    ensures LeftOpen(run) <==> LeftOpen(run[1..]) || (Leaves(run[0]) && Undisturbed(run[1..], 0))
  {
    var rest := run[1..];
    if LeftOpen(rest) {
      var j :| 0 <= j < |rest| && Leaves(rest[j]) && Undisturbed(rest, j + 1);
      UndisturbedNext(run, j + 1);
      assert Leaves(run[j + 1]);
    }
    if LeftOpen(run) {
      var j :| 0 <= j < |run| && Leaves(run[j]) && Undisturbed(run, j + 1);
      UndisturbedNext(run, j);
      if j > 0 { assert Leaves(rest[j - 1]) && Undisturbed(rest, j - 1 + 1); }
    }
    UndisturbedNext(run, 0);
  }

  /** A fresh start that leads ends its lead by a loss and not otherwise. */
  lemma {:induction false} BegunUntilLost(w: World, run: seq<Action>)
    requires Inv(w) && Possible(w, run) && !Idle(w) && Idle(After(w, run))
    ensures !Undisturbed(run, 0)
    decreases run
  {
    if run != [] && !run[0].Lose? {
      StepKeeps(w, run[0]);
      BegunUntilLost(Step(w, run[0]), run[1..]);
      UndisturbedNext(run, 0);
    }
  }

  /** Where no leading takeover has begun, a container is there only because the run left it. */
  lemma {:induction false} ContainerIsLeftOpen(w: World, run: seq<Action>)
    requires Inv(w) && Possible(w, run) && Idle(After(w, run))
    ensures After(w, run).core.indexer.Some? <==> LeftOpen(run) || (w.core.indexer.Some? && Undisturbed(run, 0))
    decreases run
  {
    if run != [] {
      var a, rest, next := run[0], run[1..], Step(w, run[0]);
      StepKeeps(w, a);
      ContainerIsLeftOpen(next, rest);
      LeftOpenNext(run);
      UndisturbedNext(run, 0);
      if a.Opens? && !Idle(next) { BegunUntilLost(next, rest); }
    }
  }

  /**
   * A tab that lost the lock, at whatever point of whichever takeovers, has the reader's seat from
   * then on, and its reader store once the last seat it asked for could be opened. A container is
   * with it if and only if a fresh start threw late, or a switch opened one again, and nothing after let go of one.
   */
  lemma DisplacedEndsAsReader(start: World, run: seq<Action>)
    requires Start(start) && Possible(start, run)
    requires !After(start, run).leading && After(start, run).takes != []
    ensures
      var w := After(start, run);
      && w.core.role == Reader && w.seats != []
      && (w.seats[|w.seats| - 1] == Built ==> w.core.reading.Some?)
      && (w.core.indexer.None? <==> !LeftOpen(run))
  {
    RunKeeps(start, run);
    ContainerIsLeftOpen(start, run);
    if start == AS_WRITER { BegunUntilLost(start, run); }
  }

  /** A takeover that still leads when its seat is there goes no further exactly when such a container is. */
  lemma BlockedExactly(start: World, run: seq<Action>, i: nat)
    requires Start(start) && Possible(start, run) && Enabled(After(start, run), Resumes(i))
    requires After(start, run).takes[i].mine == After(start, run).core.tenure
    ensures Step(After(start, run), Resumes(i)).takes[i].phase == Blocked <==> LeftOpen(run)
    ensures Step(After(start, run), Resumes(i)).takes[i].phase == Starting <==> !LeftOpen(run)
  {
    RunKeeps(start, run);
    ContainerIsLeftOpen(start, run);
    if start == AS_WRITER { BegunUntilLost(start, run); }
  }

  // --------------------------------------------------------------------- the leading tab

  ghost predicate NoneInProgress(w: World) { forall j :: 0 <= j < |w.takes| ==> w.takes[j].phase != Starting }

  /** Nothing asked for before is still to come: no reader seat, and no container a switch is opening again. */
  ghost predicate NothingToCome(w: World) {
    (forall s :: 0 <= s < |w.seats| ==> w.seats[s] != Building) && w.switching == {}
  }

  /** Takeover `i` leads; once its fresh start began it has the writer's seat to itself. */
  ghost predicate Settling(w: World, i: nat) {
    && Current(w, i) && w.takes[i].phase in {Starting, Succeeded, FailedEarly, FailedLate}
    && (forall j :: 0 <= j < |w.takes| && j != i ==> w.takes[j].phase != Starting)
    && (forall s :: 0 <= s < |w.seats| ==> w.seats[s] != Building) && w.switching <= {i} && w.core.role == Writer
    && match w.takes[i].phase
       case Succeeded => w.core.indexer == Some(i) && w.core.reading.None?
       case FailedLate => w.core.indexer == Some(i)
       case _ => w.core.indexer.None?
  }

  lemma SettlingStep(w: World, a: Action, i: nat)
    requires Inv(w) && Settling(w, i) && Enabled(w, a)
    ensures Inv(Step(w, a)) && (Settling(Step(w, a), i) || !Current(Step(w, a), i))
  {
    StepKeeps(w, a);
  }

  /** Once it is not the current one, a takeover never is again. */
  lemma {:induction false} NeverAgain(w: World, run: seq<Action>, i: nat)
    requires Possible(w, run) && i < |w.takes| && !Current(w, i)
    ensures !Current(After(w, run), i)
    decreases run
  {
    if run != [] { NeverAgain(Step(w, run[0]), run[1..], i); }
  }

  lemma {:induction false} SettlesWhileCurrent(w: World, run: seq<Action>, i: nat)
    requires Inv(w) && Settling(w, i) && Possible(w, run) && Current(After(w, run), i)
    ensures Settling(After(w, run), i)
    decreases run
  {
    if run != [] {
      SettlingStep(w, run[0], i);
      var next := Step(w, run[0]);
      if !Current(next, i) { NeverAgain(next, run[1..], i); }
      SettlesWhileCurrent(next, run[1..], i);
    }
  }

  /** In every continuation of `w`, takeover `i` has the writer's seat whenever it leads and has succeeded. */
  ghost predicate KeepsTheWriter(w: World, i: nat) {
    forall run :: Possible(w, run) && Current(After(w, run), i) && After(w, run).takes[i].phase == Succeeded ==>
      After(w, run).core == Core(w.core.tenure, Some(i), None, Writer)
  }

  /**
   * With no other fresh start in progress, one that begins keeps the writer's seat in every
   * continuation, its own container and no reader seat once it has succeeded, if and only if no
   * reader seat is still being built when it begins, and no earlier switch still opening its container again.
   */
  lemma WriterExactly(start: World, before: seq<Action>, i: nat)
    requires Start(start) && Possible(start, before) && NoneInProgress(After(start, before))
    requires Enabled(After(start, before), Resumes(i))
    requires MayStart(After(start, before).core, After(start, before).takes[i].mine)
    ensures KeepsTheWriter(Step(After(start, before), Resumes(i)), i) <==> NothingToCome(After(start, before))
  {
    RunKeeps(start, before);
    var w := After(start, before);
    var began := Step(w, Resumes(i));
    StepKeeps(w, Resumes(i));
    if NothingToCome(w) {
      forall run | Possible(began, run) && Current(After(began, run), i) && After(began, run).takes[i].phase == Succeeded
        ensures After(began, run).core == Core(began.core.tenure, Some(i), None, Writer)
      {
        SettlesWhileCurrent(began, run, i);
        TenureWhileCurrent(began, run, i);
      }
    } else if s :| 0 <= s < |w.seats| && w.seats[s] == Building {
      SeatArrivesLate(began, i, s);
    } else {
      var earlier :| earlier in w.switching;
      ReopeningArrivesLate(began, i, earlier);
    }
  }

  lemma SeatArrivesLate(began: World, i: nat, s: nat)
    requires Inv(began) && Current(began, i) && began.takes[i].phase == Starting
    requires s < |began.seats| && began.seats[s] == Building
    ensures !KeepsTheWriter(began, i)
  {
    var open := Step(began, Opens(i));
    var seated := Step(open, SeatEnds(s, true));
    NoMore(seated);
    OneMore(open, SeatEnds(s, true), []);
    OneMore(began, Opens(i), [SeatEnds(s, true)] + []);
    var run := [Opens(i)] + ([SeatEnds(s, true)] + []);
    assert After(began, run).core.role == Reader;
  }

  lemma ReopeningArrivesLate(began: World, i: nat, earlier: nat)
    requires Inv(began) && Current(began, i) && began.takes[i].phase == Starting && earlier in began.switching
    ensures !KeepsTheWriter(began, i)
  {
    var open := Step(began, Opens(i));
    var reopened := Step(open, Reopens(earlier));
    NoMore(reopened);
    OneMore(open, Reopens(earlier), []);
    OneMore(began, Opens(i), [Reopens(earlier)] + []);
    var run := [Opens(i)] + ([Reopens(earlier)] + []);
    assert HadContainer(began, earlier) && After(began, run).core.indexer == Some(earlier);
  }

  /** The tenure is the takeover's own as long as it leads. */
  lemma TenureWhileCurrent(w: World, run: seq<Action>, i: nat)
    requires Inv(w) && Current(w, i) && Possible(w, run) && Current(After(w, run), i)
    ensures After(w, run).core.tenure == w.core.tenure
  {
    RunKeeps(w, run);
    MineStays(w, run, i);
  }

  lemma {:induction false} MineStays(w: World, run: seq<Action>, i: nat)
    requires Possible(w, run) && i < |w.takes|
    ensures i < |After(w, run).takes| && After(w, run).takes[i].mine == w.takes[i].mine
    decreases run
  {
    if run != [] { MineStays(Step(w, run[0]), run[1..], i); }
  }

  /** What a fresh start needs to begin in order: no other in progress, and nothing still to come. */
  predicate Orderly(w: World, a: Action)
    requires Enabled(w, a)
  {
    a.Resumes? && MayStart(w.core, w.takes[a.take].mine) ==>
      && (forall j :: 0 <= j < |w.takes| ==> w.takes[j].phase != Starting)
      && (forall s :: 0 <= s < |w.seats| ==> w.seats[s] != Building)
      && w.switching == {}
  }

  ghost predicate PossibleOrderly(w: World, run: seq<Action>)
    decreases run
  {
    run == [] || (Enabled(w, run[0]) && Orderly(w, run[0]) && PossibleOrderly(Step(w, run[0]), run[1..]))
  }

  lemma {:induction false} OrderlyIsPossible(w: World, run: seq<Action>)
    requires PossibleOrderly(w, run)
    ensures Possible(w, run)
    decreases run
  {
    if run != [] { OrderlyIsPossible(Step(w, run[0]), run[1..]); }
  }

  /** The takeover that leads has not begun, or has settled or is settling as the writer. */
  ghost predicate LeaderInv(w: World) {
    w.leading && w.takes != [] ==>
      var i := |w.takes| - 1;
      w.takes[i].phase.Awaiting? || w.takes[i].phase == Blocked || Settling(w, i)
  }

  lemma {:induction false} OrderlyKeeps(w: World, run: seq<Action>)
    requires Inv(w) && LeaderInv(w) && PossibleOrderly(w, run) && Possible(w, run)
    ensures LeaderInv(After(w, run))
    decreases run
  {
    if run != [] {
      StepKeeps(w, run[0]);
      if w.leading && Settling(w, |w.takes| - 1) { SettlingStep(w, run[0], |w.takes| - 1); }
      OrderlyKeeps(Step(w, run[0]), run[1..]);
    }
  }

  /**
   * With every fresh start beginning in order, a tab that leads by one that succeeded has its own
   * container, the writer's seat and no reader seat; by one that threw, the container it opened or
   * none. One that never began was blocked, or still waits.
   */
  lemma LeaderEndsAsWriter(start: World, run: seq<Action>)
    requires Start(start) && PossibleOrderly(start, run)
    ensures Possible(start, run)
    ensures After(start, run).leading ==>
      var w := After(start, run);
      && w.takes != []
      && var last := |w.takes| - 1;
         match w.takes[last].phase
         case Succeeded => w.core == Core(w.takes[last].mine, Some(last), None, Writer)
         case FailedEarly => w.core.indexer.None? && w.core.role == Writer
         case FailedLate => w.core.indexer == Some(last) && w.core.role == Writer
         case Starting => w.core.indexer.None? && w.core.role == Writer
         case Stale => false
         case _ => true
  {
    OrderlyIsPossible(start, run);
    RunKeeps(start, run);
    OrderlyKeeps(start, run);
  }

  // ------------------------------------------------------- the conditions do fail

  lemma OneMore(w: World, a: Action, rest: seq<Action>)
    requires Enabled(w, a) && Possible(Step(w, a), rest)
    ensures Possible(w, [a] + rest) && After(w, [a] + rest) == After(Step(w, a), rest)
  {
    assert ([a] + rest)[1..] == rest;
  }

  lemma NoMore(w: World)
    ensures Possible(w, []) && After(w, []) == w
  {
  }

  /** Every continuation has run. */
  predicate Settled(w: World) {
    && (forall s :: 0 <= s < |w.seats| ==> w.seats[s] != Building)
    && (forall i :: 0 <= i < |w.takes| ==> !w.takes[i].phase.Awaiting? && w.takes[i].phase != Starting)
    && w.switching == {}
  }

  /** Two seats being built, the newer one awaited by the takeover that leads. */
  const TWO_BUILDING := World(
    Core(3, None, None, Reader), [Building, Building], [Takeover(1, Awaiting(0)), Takeover(3, Awaiting(1))], true, {})

  /** A seat older than the one a takeover waited for, opened after it, seats the new writer as a reader. */
  lemma OlderSeatUnseatsTheWriter() returns (run: seq<Action>)
    ensures Possible(AS_READER, run)
    ensures
      var w := After(AS_READER, run);
      && Settled(w) && w.leading && |w.takes| == 2 && w.takes[1].phase == Succeeded
      && w.core.role == Reader && w.core.reading.Some? && w.core.indexer.Some?
  {
    hide Possible, After;
    var w1 := Step(AS_READER, Gain);
    var w2 := Step(w1, Lose);
    var w3 := Step(w2, Gain);
    assert w3 == TWO_BUILDING;
    var tail := OlderSeatArrives(w3);
    OneMore(w2, Gain, tail);
    OneMore(w1, Lose, [Gain] + tail);
    OneMore(AS_READER, Gain, [Lose] + ([Gain] + tail));
    run := [Gain] + ([Lose] + ([Gain] + tail));
  }

  lemma OlderSeatArrives(w3: World) returns (run: seq<Action>)
    requires w3 == TWO_BUILDING
    ensures Possible(w3, run)
    ensures
      var w := After(w3, run);
      && Settled(w) && w.leading && |w.takes| == 2 && w.takes[1].phase == Succeeded
      && w.core.role == Reader && w.core.reading.Some? && w.core.indexer.Some?
  {
    hide Possible, After;
    var w4 := Step(w3, SeatEnds(1, true));
    var w5 := Step(w4, Resumes(1));
    assert w5.core.indexer.None? && w5.takes[1].phase == Starting;
    var w6 := Step(w5, Opens(1));
    assert w6.seats == [Building, Built] && w6.takes == [Takeover(1, Awaiting(0)), Takeover(3, Succeeded)];
    var w7 := Step(w6, SeatEnds(0, true));
    NoMore(Step(w7, Resumes(0)));
    var r1 := [Resumes(0)] + [];
    OneMore(w7, Resumes(0), []);
    OneMore(w6, SeatEnds(0, true), r1);
    var r2 := [SeatEnds(0, true)] + r1;
    OneMore(w5, Opens(1), r2);
    var r3 := [Opens(1)] + r2;
    OneMore(w4, Resumes(1), r3);
    var r4 := [Resumes(1)] + r3;
    OneMore(w3, SeatEnds(1, true), r4);
    run := [SeatEnds(1, true)] + r4;
  }

  /** A displaced fresh start that throws after its container opened never reaches the tenure test. */
  lemma LateFailureLeavesAContainer() returns (run: seq<Action>)
    ensures Possible(AS_READER, run)
    ensures
      var w := After(AS_READER, run);
      Settled(w) && !w.leading && w.core.role == Reader && w.core.indexer.Some?
  {
    hide Possible, After;
    var w1 := Step(AS_READER, Gain);
    var w2 := Step(w1, SeatEnds(0, true));
    var w3 := Step(w2, Resumes(0));
    assert w3 == World(Core(1, None, Some(0), Writer), [Built], [Takeover(1, Starting)], true, {});
    var w4 := Step(w3, Lose);
    assert w4.seats == [Built, Building];
    var w5 := Step(w4, SeatEnds(1, true));
    assert w5.seats == [Built, Built];
    NoMore(Step(w5, FailsLate(0)));
    var r1 := [FailsLate(0)] + [];
    OneMore(w5, FailsLate(0), []);
    OneMore(w4, SeatEnds(1, true), r1);
    var r2 := [SeatEnds(1, true)] + r1;
    OneMore(w3, Lose, r2);
    var r3 := [Lose] + r2;
    OneMore(w2, Resumes(0), r3);
    var r4 := [Resumes(0)] + r3;
    OneMore(w1, SeatEnds(0, true), r4);
    var r5 := [SeatEnds(0, true)] + r4;
    OneMore(AS_READER, Gain, r5);
    run := [Gain] + r5;
  }

  /** A writer displaced while its switch opens the container again, its reader seat built since. */
  const DISPLACED := World(Core(2, None, Some(0), Reader), [Built], [Takeover(1, Succeeded)], false, {0})

  lemma DisplacedWhileSwitching(rest: seq<Action>)
    requires Possible(DISPLACED, rest)
    ensures Possible(AS_WRITER, [Switches(0), Lose, SeatEnds(0, true)] + rest)
    ensures After(AS_WRITER, [Switches(0), Lose, SeatEnds(0, true)] + rest) == After(DISPLACED, rest)
  {
    hide Possible, After;
    var w1 := Step(AS_WRITER, Switches(0));
    var w2 := Step(w1, Lose);
    assert w2 == World(Core(2, None, None, Reader), [Building], [Takeover(1, Succeeded)], false, {0});
    assert Step(w2, SeatEnds(0, true)) == DISPLACED;
    OneMore(w2, SeatEnds(0, true), rest);
    OneMore(w1, Lose, [SeatEnds(0, true)] + rest);
    OneMore(AS_WRITER, Switches(0), [Lose] + ([SeatEnds(0, true)] + rest));
    assert [Switches(0)] + ([Lose] + ([SeatEnds(0, true)] + rest)) == [Switches(0), Lose, SeatEnds(0, true)] + rest;
  }

  /** A tab displaced while its switch opens the container again is left with it, and blocked by it later. */
  lemma ReopeningLeavesAContainer() returns (run: seq<Action>)
    ensures Possible(AS_WRITER, run) && forall j :: 0 <= j < |run| ==> !run[j].FailsLate?
    ensures
      var w := After(AS_WRITER, run);
      Settled(w) && w.leading && |w.takes| == 2 && w.takes[1].phase == Blocked && w.core.indexer == Some(0)
  {
    hide Possible, After;
    var w1 := Step(DISPLACED, Reopens(0));
    assert w1 == World(Core(2, Some(0), Some(0), Reader), [Built], [Takeover(1, Succeeded)], false, {});
    var w2 := Step(w1, Gain);
    NoMore(Step(w2, Resumes(1)));
    OneMore(w2, Resumes(1), []);
    OneMore(w1, Gain, [Resumes(1)] + []);
    OneMore(DISPLACED, Reopens(0), [Gain] + ([Resumes(1)] + []));
    var rest := [Reopens(0)] + ([Gain] + ([Resumes(1)] + []));
    DisplacedWhileSwitching(rest);
    run := [Switches(0), Lose, SeatEnds(0, true)] + rest;
  }

  /** Landing later still, the reopened container takes the place of the new writer's own. */
  lemma ReopeningReplacesTheWriters() returns (run: seq<Action>)
    ensures Possible(AS_WRITER, run)
    ensures
      var w := After(AS_WRITER, run);
      Settled(w) && w.leading && |w.takes| == 2 && w.takes[1].phase == Succeeded && w.core.indexer == Some(0)
  {
    hide Possible, After;
    var w1 := Step(DISPLACED, Gain);
    assert w1 == World(Core(3, None, Some(0), Reader), [Built], [Takeover(1, Succeeded), Takeover(3, Awaiting(0))], true, {0});
    var w2 := Step(w1, Resumes(1));
    var w3 := Step(w2, Opens(1));
    assert w3 == World(Core(3, Some(1), None, Writer), [Built], [Takeover(1, Succeeded), Takeover(3, Succeeded)], true, {0});
    NoMore(Step(w3, Reopens(0)));
    OneMore(w3, Reopens(0), []);
    OneMore(w2, Opens(1), [Reopens(0)] + []);
    OneMore(w1, Resumes(1), [Opens(1)] + ([Reopens(0)] + []));
    OneMore(DISPLACED, Gain, [Resumes(1)] + ([Opens(1)] + ([Reopens(0)] + [])));
    var rest := [Gain] + ([Resumes(1)] + ([Opens(1)] + ([Reopens(0)] + [])));
    DisplacedWhileSwitching(rest);
    run := [Switches(0), Lose, SeatEnds(0, true)] + rest;
  }
}
