/**
 * The object `standForElection` returns, with the variables its callbacks share, in the
 * form the source has it: each callback and each method changes the fields in place, and is
 * proved to be the candidate function the step system in `TabElection` is built from.
 */
module CandidacyObject {
  import opened Options
  import opened TabElection

  class Candidacy {
    var resigned: bool
    var holding: bool
    var stealing: bool
    var asking: bool
    /** The queued request, by the abort controller that leaves the queue. */
    var queued: Option<nat>
    /** The request whose callback `giveBack` resolves. */
    var giveBack: Option<nat>
    ghost var current: nat
    /** What `onTakeover`, `onDisplaced` and a true `atOnce` have told the host. */
    var log: seq<HostEvent>

    ghost function Local(): Candidate
      reads this
    {
      Candidate(true, resigned, holding, stealing, queued, giveBack, asking, current, log)
    }

    constructor (ask: nat)
      ensures Local() == Fresh(ask)
    {
      resigned, holding, stealing, asking := false, false, false, true;
      queued, giveBack, log := None, None, [];
      current := ask;
    }

    method Hold(r: nat, event: HostEvent)
      modifies this
      ensures Local() == TabElection.Hold(old(Local()), r, event)
    {
      holding := true;
      giveBack := Some(r);
      current := r;
      log := log + [event];
    }

    /** The callback of the `ifAvailable` ask; `keeps` says whether it goes on holding the lock. */
    method AskCallback(r: nat, lock: bool) returns (keeps: bool)
      modifies this
      ensures lock ==> (Local(), keeps) == OnLock(old(Local()), Ask, r)
      ensures !lock ==> !keeps && Local() == old(Local())
    {
      if !lock || resigned {
        if lock { asking := false; }
        return false;
      }
      asking := false;
      Hold(r, LedFromStart);
      return true;
    }

    /** The callback of a queued request. */
    method QueuedCallback(r: nat) returns (keeps: bool)
      modifies this
      ensures (Local(), keeps) == OnLock(old(Local()), Queue, r)
    {
      if resigned || queued != Some(r) { return false; }
      queued := None;
      Hold(r, TookOver(LeaderGone));
      return true;
    }

    /** The callback of a steal. */
    method StealCallback(r: nat) returns (keeps: bool)
      modifies this
      ensures (Local(), keeps) == OnLock(old(Local()), Steal, r)
    {
      stealing := false;
      if resigned { return false; }
      Hold(r, TookOver(LeaderBackgrounded));
      return true;
    }

    /** `queue()`: `r` names the request it sends, when it sends one. */
    method EnterQueue(r: nat) returns (sent: bool)
      modifies this
      ensures sent == !old(resigned)
      ensures Local() == if sent then Enqueued(old(Local()), r) else old(Local())
    {
      if resigned { return false; }
      queued := Some(r);
      current := r;
      return true;
    }

    /** A refused ask has settled. */
    method AskSettled(r: nat) returns (sent: bool)
      modifies this
      ensures sent == (!old(holding) && !old(resigned))
      ensures var c := old(Local()).(asking := false); Local() == if sent then Enqueued(c, r) else c
    {
      asking := false;
      sent := false;
      if !holding { sent := EnterQueue(r); }
    }

    /** The rejection of a request of this kind that held the lock. */
    method TenureRejected(kind: Kind, r: nat) returns (sent: bool)
      modifies this
      ensures var (c, again) := OnStolen(old(Local()), kind);
        sent == again && Local() == if again then Enqueued(c, r) else c
    {
      sent := false;
      if kind == Steal { stealing := false; }
      if kind == Ask && !holding { return; }
      if resigned { return; }
      holding := false;
      giveBack := None;
      log := log + [Displaced];
      sent := EnterQueue(r);
    }

    /** Leave the queue and ask with `steal`, or do nothing. */
    method TakeFromBackgroundedLeader(r: nat) returns (aborted: Option<nat>, sent: bool)
      modifies this
      ensures sent == MayTake(old(Local()))
      ensures sent ==> aborted == old(queued) && Local() == Taking(old(Local()), r)
      ensures !sent ==> aborted == None && Local() == old(Local())
    {
      if resigned || holding || stealing { return None, false; }
      stealing := true;
      aborted := queued;
      queued := None;
      current := r;
      sent := true;
    }

    /** Leave the election: which request it aborts, and which tenure it gives back. */
    method Resign() returns (aborted: Option<nat>, gaveBack: Option<nat>)
      modifies this
      ensures old(resigned) ==> aborted == None && gaveBack == None && Local() == old(Local())
      ensures !old(resigned) ==> aborted == old(queued) && gaveBack == old(giveBack) && Local() == Resigned(old(Local()))
    {
      if resigned { return None, None; }
      resigned := true;
      aborted := queued;
      queued := None;
      holding := false;
      gaveBack := giveBack;
      giveBack := None;
    }
  }
}
