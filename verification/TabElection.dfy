/**
 * One Web Lock, any number of tabs: the candidacy of `tabElection.ts` and the lock
 * manager it talks to, as one asynchronous step system.
 *
 * Every request a candidacy makes is a record with a stage of its own. What the tab
 * does, what the lock manager does, and the delivery of each answer are separate
 * steps, in any order; only the order within one request is fixed (a grant is
 * delivered before the steal rejection that follows it), as in the W3C Web Locks API.
 */
module TabElection {
  import opened Options

  /** `ifAvailable`, plain (with an abort signal), and `steal`. */
  datatype Kind = Ask | Queue | Steal

  /** Where one lock request stands, between the tab and the lock manager. */
  datatype Stage =
    | Sent         // made by the tab, not yet processed by the manager
    | Waiting      // in the manager's queue
    | Granted      // the manager's holder; its callback has not run
    | GrantStolen  // stolen before its callback ran
    | Held         // the callback holds the lock open
    | Stolen       // the callback holds it open, the lock is gone, the rejection is undelivered
    | Denied       // an `ifAvailable` ask answered with no lock; its callback has not run
    | Settling     // that callback has run; the promise has not settled yet
    | Releasing    // the callback has returned; the manager has not released the lock yet
    | Done

  datatype Request = Request(owner: nat, kind: Kind, stage: Stage, aborting: bool)

  datatype Reason = LeaderGone | LeaderBackgrounded

  /** What the host is told, in order. `LedFromStart` is `atOnce` answered with true. */
  datatype HostEvent = LedFromStart | TookOver(reason: Reason) | Displaced

  /**
   * The captured variables of one `standForElection`. `giveBack` names the request whose
   * callback it would resolve. `asking` (the first ask has not settled) and `current` (the
   * one request this candidacy waits on or holds) are bookkeeping of the model.
   */
  datatype Candidate = Candidate(
    alive: bool,
    resigned: bool,
    holding: bool,
    stealing: bool,
    queued: Option<nat>,
    giveBack: Option<nat>,
    asking: bool,
    current: nat,
    log: seq<HostEvent>)

  datatype World = World(reqs: seq<Request>, holder: Option<nat>, queue: seq<nat>, tabs: seq<Candidate>)

  // ------------------------------------------------------------------ the candidacy

  function Fresh(ask: nat): Candidate {
    Candidate(true, false, false, false, None, None, true, ask, [])
  }

  function Hold(c: Candidate, r: nat, event: HostEvent): Candidate {
    c.(holding := true, giveBack := Some(r), current := r, log := c.log + [event])
  }

  /** A request's callback runs with the lock: the candidate after it, and whether it holds on. */
  function OnLock(c: Candidate, kind: Kind, r: nat): (Candidate, bool) {
    match kind
    case Ask =>
      var c := c.(asking := false);
      if c.resigned then (c, false) else (Hold(c, r, LedFromStart), true)
    case Queue =>
      if c.resigned || c.queued != Some(r) then (c, false)
      else (Hold(c.(queued := None), r, TookOver(LeaderGone)), true)
    case Steal =>
      var c := c.(stealing := false);
      if c.resigned then (c, false) else (Hold(c, r, TookOver(LeaderBackgrounded)), true)
  }

  /** The rejection of a request that held the lock: the candidate, and whether it queues again. */
  function OnStolen(c: Candidate, kind: Kind): (Candidate, bool) {
    var c := if kind == Steal then c.(stealing := false) else c;
    if c.resigned || (kind == Ask && !c.holding) then (c, false)
    else (c.(holding := false, giveBack := None, log := c.log + [Displaced]), true)
  }

  function Enqueued(c: Candidate, r: nat): Candidate {
    c.(queued := Some(r), current := r)
  }

  /** `takeFromBackgroundedLeader`, where it is not a no-op; `r` is the steal it sends. */
  function Taking(c: Candidate, r: nat): Candidate {
    c.(stealing := true, queued := None, current := r)
  }

  predicate MayTake(c: Candidate) {
    !c.resigned && !c.holding && !c.stealing
  }

  function Resigned(c: Candidate): Candidate {
    c.(resigned := true, queued := None, holding := false, giveBack := None)
  }

  // --------------------------------------------------------------- the lock manager

  predicate Holds(s: Stage) {
    s == Granted || s == Held || s == Releasing
  }

  function WithStage(reqs: seq<Request>, r: nat, s: Stage): (out: seq<Request>)
    requires r < |reqs|
    ensures |out| == |reqs|
  {
    reqs[r := reqs[r].(stage := s)]
  }

  function WithAbort(reqs: seq<Request>, r: Option<nat>): seq<Request> {
    if r.Some? && r.value < |reqs| then reqs[r.value := reqs[r.value].(aborting := true)] else reqs
  }

  /** Section 4.4: the first waiting request is granted when nothing holds the lock. */
  function GrantNext(w: World): (v: World)
    ensures v.tabs == w.tabs && |v.reqs| == |w.reqs|
  {
    if w.holder.None? && |w.queue| > 0 && w.queue[0] < |w.reqs| then
      w.(holder := Some(w.queue[0]), queue := w.queue[1..], reqs := WithStage(w.reqs, w.queue[0], Granted))
    else w
  }

  /** Section 4.2: releasing a lock that is not held is nothing. */
  function Release(w: World, r: nat): (v: World)
    ensures v.tabs == w.tabs && |v.reqs| == |w.reqs|
  {
    if w.holder == Some(r) then GrantNext(w.(holder := None)) else w
  }

  function StolenFrom(s: Stage): Stage {
    match s
    case Granted => GrantStolen
    case Held => Stolen
    case _ => Done
  }

  function Remove(q: seq<nat>, r: nat): (out: seq<nat>)
  {
    if q == [] then [] else if q[0] == r then Remove(q[1..], r) else [q[0]] + Remove(q[1..], r)
  }

  /** Section 4.1, the manager's half: grant, queue or refuse a request that was sent. */
  function Processed(w: World, r: nat): (v: World)
    requires r < |w.reqs|
    ensures v.tabs == w.tabs && |v.reqs| == |w.reqs|
  {
    match w.reqs[r].kind
    case Ask =>
      if w.holder.None? && w.queue == [] then
        w.(holder := Some(r), reqs := WithStage(w.reqs, r, Granted))
      else w.(reqs := WithStage(w.reqs, r, Denied))
    case Queue =>
      if w.holder.None? && w.queue == [] then
        w.(holder := Some(r), reqs := WithStage(w.reqs, r, Granted))
      else w.(queue := w.queue + [r], reqs := WithStage(w.reqs, r, Waiting))
    case Steal =>
      var reqs :=
        if w.holder.Some? && w.holder.value < |w.reqs| then
          WithStage(w.reqs, w.holder.value, StolenFrom(w.reqs[w.holder.value].stage))
        else w.reqs;
      w.(holder := Some(r), reqs := WithStage(reqs, r, Granted))
  }

  // ------------------------------------------------------------------------ the steps

  datatype Action =
    | Stand               // a new tab stands for election
    | Take(tab: nat)      // `takeFromBackgroundedLeader`
    | Resign(tab: nat)    // `resign`
    | Die(tab: nat)       // the tab or worker goes away
    | Process(req: nat)   // the manager processes a request
    | AbortLands(req: nat)
    | Callback(req: nat)  // a granted request's callback runs
    | Deny(req: nat)      // a refused ask's callback runs
    | Settle(req: nat)    // a refused ask's promise settles
    | Reject(req: nat)    // a steal rejection is delivered
    | Finish(req: nat)    // a returned callback's lock is released

  /** What happens without anybody deciding anything: processing and delivery. */
  predicate Internal(a: Action) {
    !a.Stand? && !a.Take? && !a.Resign? && !a.Die?
  }

  predicate OwnerAlive(w: World, r: nat)
    requires r < |w.reqs|
  {
    w.reqs[r].owner < |w.tabs| && w.tabs[w.reqs[r].owner].alive
  }

  predicate Enabled(w: World, a: Action) {
    match a
    case Stand => true
    case Take(k) =>
      // Only once the first ask has settled: the settle timer is armed from the reader
      // seat, which is taken after that answer.
      k < |w.tabs| && w.tabs[k].alive && MayTake(w.tabs[k]) && !w.tabs[k].asking
    case Resign(k) => k < |w.tabs| && w.tabs[k].alive && !w.tabs[k].resigned
    case Die(k) => k < |w.tabs| && w.tabs[k].alive
    case Process(r) => r < |w.reqs| && w.reqs[r].stage == Sent
    case AbortLands(r) => r < |w.reqs| && w.reqs[r].aborting && w.reqs[r].stage != Sent
    case Callback(r) =>
      r < |w.reqs| && (w.reqs[r].stage == Granted || w.reqs[r].stage == GrantStolen) && OwnerAlive(w, r)
    case Deny(r) => r < |w.reqs| && w.reqs[r].stage == Denied && OwnerAlive(w, r)
    case Settle(r) => r < |w.reqs| && w.reqs[r].stage == Settling && OwnerAlive(w, r)
    case Reject(r) => r < |w.reqs| && w.reqs[r].stage == Stolen && OwnerAlive(w, r)
    case Finish(r) => r < |w.reqs| && w.reqs[r].stage == Releasing
  }

  /** The tab `k` queues for the lock: `queue()` past its `resigned` test. */
  function QueueUp(w: World, k: nat, c: Candidate): World
    requires k < |w.tabs|
  {
    if c.resigned then w.(tabs := w.tabs[k := c])
    else w.(reqs := w.reqs + [Request(k, Queue, Sent, false)], tabs := w.tabs[k := Enqueued(c, |w.reqs|)])
  }

  /** `takeFromBackgroundedLeader`, called where it is not a no-op. */
  function TakeFrom(w: World, k: nat): World
    requires k < |w.tabs| && MayTake(w.tabs[k])
  {
    var c := w.tabs[k];
    w.(reqs := WithAbort(w.reqs, c.queued) + [Request(k, Steal, Sent, false)],
       tabs := w.tabs[k := Taking(c, |w.reqs|)])
  }

  function Step(w: World, a: Action): World
    requires Enabled(w, a)
  {
    match a
    case Stand =>
      w.(reqs := w.reqs + [Request(|w.tabs|, Ask, Sent, false)], tabs := w.tabs + [Fresh(|w.reqs|)])
    case Take(k) => TakeFrom(w, k)
    case Resign(k) =>
      var c := w.tabs[k];
      var reqs := WithAbort(w.reqs, c.queued);
      var reqs := if c.giveBack.Some? && c.giveBack.value < |reqs| && reqs[c.giveBack.value].stage == Held
                  then WithStage(reqs, c.giveBack.value, Releasing) else reqs;
      w.(reqs := reqs, tabs := w.tabs[k := Resigned(c)])
    case Die(k) => Dead(w, k)
    case Process(r) => Processed(w, r)
    case AbortLands(r) =>
      var reqs := w.reqs[r := w.reqs[r].(aborting := false)];
      if w.reqs[r].stage == Waiting then
        w.(queue := Remove(w.queue, r), reqs := WithStage(reqs, r, Done))
      else w.(reqs := reqs)
    case Callback(r) =>
      var k := w.reqs[r].owner;
      var (c, keeps) := OnLock(w.tabs[k], w.reqs[r].kind, r);
      var next := if w.reqs[r].stage == Granted then (if keeps then Held else Releasing)
                  else if keeps then Stolen else Done;
      w.(reqs := WithStage(w.reqs, r, next), tabs := w.tabs[k := c])
    case Deny(r) => w.(reqs := WithStage(w.reqs, r, Settling))
    case Settle(r) =>
      var k := w.reqs[r].owner;
      var c := w.tabs[k].(asking := false);
      var w := w.(reqs := WithStage(w.reqs, r, Done));
      if c.holding then w.(tabs := w.tabs[k := c]) else QueueUp(w, k, c)
    case Reject(r) =>
      var k := w.reqs[r].owner;
      var (c, again) := OnStolen(w.tabs[k], w.reqs[r].kind);
      var w := w.(reqs := WithStage(w.reqs, r, Done));
      if again then QueueUp(w, k, c) else w.(tabs := w.tabs[k := c])
    case Finish(r) => Release(w.(reqs := WithStage(w.reqs, r, Done)), r)
  }

  function Ended(reqs: seq<Request>, k: nat): (out: seq<Request>)
    ensures |out| == |reqs|
  {
    seq(|reqs|, i requires 0 <= i < |reqs| =>
      if reqs[i].owner == k then reqs[i].(stage := Done, aborting := false) else reqs[i])
  }

  function Keep(q: seq<nat>, reqs: seq<Request>, k: nat): seq<nat> {
    if q == [] then []
    else if q[0] < |reqs| && reqs[q[0]].owner == k then Keep(q[1..], reqs, k)
    else [q[0]] + Keep(q[1..], reqs, k)
  }

  /** A tab goes away: its requests leave the queue and its lock is released (section 4.2, 4.3). */
  function Dead(w: World, k: nat): World
    requires k < |w.tabs|
  {
    var mine := w.holder.Some? && w.holder.value < |w.reqs| && w.reqs[w.holder.value].owner == k;
    var w' := World(Ended(w.reqs, k), if mine then None else w.holder, Keep(w.queue, w.reqs, k),
                    w.tabs[k := w.tabs[k].(alive := false)]);
    GrantNext(w')
  }

  const NOBODY: World := World([], None, [], [])

  /** A sequence of steps, each enabled where it is taken. */
  ghost predicate Possible(w: World, run: seq<Action>)
    decreases run
  {
    run == [] || (Enabled(w, run[0]) && Possible(Step(w, run[0]), run[1..]))
  }

  ghost function After(w: World, run: seq<Action>): World
    requires Possible(w, run)
    decreases run
  {
    if run == [] then w else After(Step(w, run[0]), run[1..])
  }
}
