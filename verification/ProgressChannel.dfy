/**
 * The progress half of the cross-tab channel (`stateMovedAcrossTabs.ts`): each tab's end of it, and
 * the ends together over a broadcast channel that delivers each end's mail in order, never back to
 * its sender (HTML Living Standard, section 9.5).
 */
module ProgressChannel {
  import opened Options

  /** `shown` is what `sameProgress` compares, `unseen` the rest: a failure's stack, a serialisation. */
  datatype Report = Report(shown: int, unseen: int)

  predicate Same(a: Report, b: Report) { a.shown == b.shown }

  datatype Message = Progress(report: Report) | Ask

  /** A listener was told a report: handed it on attaching, or because it was news. */
  datatype Told = Told(listener: nat, report: Report, handed: bool)

  /** One tab's end. `log` and `said` are the history: what its listeners were told, what its own host said. */
  datatype End = End(joined: bool, closed: bool, listeners: seq<nat>, lastHeard: Option<Report>,
                     lastPublished: Option<Report>, log: seq<Told>, said: seq<Report>)

  const UNOPENED: End := End(false, false, [], None, None, [], [])

  function Published(e: End, r: Report): End {
    if e.closed then e else e.(lastPublished := Some(r), said := e.said + [r])
  }

  function Without(listeners: seq<nat>, l: nat): seq<nat> {
    if listeners == [] then []
    else if listeners[0] == l then listeners[1..]
    else [listeners[0]] + Without(listeners[1..], l)
  }

  /** A `Set` keeps the order of its first additions. */
  function Attached(e: End, l: nat): End {
    var added := e.(listeners := if l in e.listeners then e.listeners else e.listeners + [l]);
    if e.lastHeard.Some? then added.(log := e.log + [Told(l, e.lastHeard.value, true)]) else added
  }

  function Detached(e: End, l: nat): End { e.(listeners := Without(e.listeners, l)) }

  predicate IsNews(e: End, r: Report) { e.lastHeard.None? || !Same(e.lastHeard.value, r) }

  function Tolds(listeners: seq<nat>, r: Report): (s: seq<Told>)
    ensures |s| == |listeners| && forall i :: 0 <= i < |s| ==> s[i] == Told(listeners[i], r, false)
  {
    seq(|listeners|, i requires 0 <= i < |listeners| => Told(listeners[i], r, false))
  }

  function Heard(e: End, m: Message): End {
    if m.Progress? && IsNews(e, m.report)
    then e.(lastHeard := Some(m.report), log := e.log + Tolds(e.listeners, m.report))
    else e
  }

  /** What hearing a message makes the end post. */
  function Answer(e: End, m: Message): Option<Message> {
    if m.Ask? && !e.closed && e.lastPublished.Some? then Some(Progress(e.lastPublished.value)) else None
  }

  function Closed(e: End): End {
    e.(closed := true, listeners := [], lastHeard := None, lastPublished := None)
  }

  // ------------------------------------------------------------------- as it is written

  class ChannelEnd {
    var progressListeners: seq<nat>
    var lastHeard: Option<Report>
    var lastPublished: Option<Report>
    var closed: bool
    var log: seq<Told>
    ghost var said: seq<Report>

    ghost function State(): End
      reads this
    {
      End(true, closed, progressListeners, lastHeard, lastPublished, log, said)
    }

    constructor ()
      ensures State() == UNOPENED.(joined := true)
    {
      progressListeners, lastHeard, lastPublished, closed, log, said := [], None, None, false, [], [];
    }

    method PublishProgress(r: Report) returns (post: Option<Message>)
      modifies this
      ensures State() == Published(old(State()), r)
      ensures post == if old(closed) then None else Some(Progress(r))
    {
      if closed { return None; }
      lastPublished := Some(r);
      said := said + [r];
      return Some(Progress(r));
    }

    method OnProgress(listener: nat) returns (post: Option<Message>)
      modifies this
      ensures State() == Attached(old(State()), listener)
      ensures post == if old(lastHeard).None? && !old(closed) then Some(Ask) else None
    {
      if listener !in progressListeners { progressListeners := progressListeners + [listener]; }
      post := None;
      if lastHeard.Some? {
        log := log + [Told(listener, lastHeard.value, true)];
      } else if !closed {
        post := Some(Ask);
      }
    }

    method Detach(listener: nat)
      modifies this
      ensures State() == Detached(old(State()), listener)
    {
      for i := 0 to |progressListeners|
        invariant progressListeners == old(progressListeners) && State() == old(State())
        invariant listener !in progressListeners[..i]
      {
        if progressListeners[i] == listener {
          WithoutAt(progressListeners, listener, i);
          progressListeners := progressListeners[..i] + progressListeners[i + 1..];
          return;
        }
      }
      WithoutNone(progressListeners, listener);
    }

    method OnMessage(m: Message) returns (post: Option<Message>)
      modifies this
      ensures State() == Heard(old(State()), m)
      ensures post == Answer(old(State()), m)
    {
      post := None;
      match m
      case Progress(progress) =>
        if lastHeard.Some? && Same(lastHeard.value, progress) { return; }
        lastHeard := Some(progress);
        var listeners := progressListeners;
        for i := 0 to |listeners|
          invariant log == old(log) + Tolds(listeners, progress)[..i]
          invariant State() == old(State()).(lastHeard := Some(progress), log := log)
        {
          log := log + [Told(listeners[i], progress, false)];
        }
      case Ask =>
        if closed || lastPublished.None? { return; }
        post := Some(Progress(lastPublished.value));
    }

    method Close()
      modifies this
      ensures State() == if old(closed) then old(State()) else Closed(old(State()))
    {
      if closed { return; }
      closed := true;
      progressListeners := [];
      lastHeard := None;
      lastPublished := None;
    }
  }

  lemma {:induction false} WithoutAt(s: seq<nat>, l: nat, i: nat)
    requires i < |s| && s[i] == l && l !in s[..i]
    ensures Without(s, l) == s[..i] + s[i + 1..]
  {
    if i > 0 {
      assert s[0] == s[..i][0] && s[1..][..i - 1] == s[..i][1..];
      WithoutAt(s[1..], l, i - 1);
    }
  }

  lemma {:induction false} WithoutNone(s: seq<nat>, l: nat)
    requires l !in s
    ensures Without(s, l) == s
  {
    if s != [] { WithoutNone(s[1..], l); }
  }

  lemma {:induction false} WithoutIs(s: seq<nat>, l: nat)
    ensures forall x :: x in Without(s, l) ==> x in s
    ensures |Without(s, l)| == |s| - if l in s then 1 else 0
    ensures NoRepeat(s) ==> NoRepeat(Without(s, l)) && l !in Without(s, l) && forall x :: x in s && x != l ==> x in Without(s, l)
  {
    if s != [] && s[0] != l {
      WithoutIs(s[1..], l);
      assert s == [s[0]] + s[1..];
      assert NoRepeat(s) ==> s[0] !in s[1..];
    }
  }

  ghost predicate NoRepeat(s: seq<nat>) { forall i, j :: 0 <= i < j < |s| ==> s[i] != s[j] }

  // ------------------------------------------------------------------- the ends together

  /** What is on its way to an end, and who posted it. */
  datatype Mail = Mail(from: nat, message: Message)

  datatype World = World(ends: seq<End>, inboxes: seq<seq<Mail>>) {
    predicate Sized() { |ends| == |inboxes| }
    predicate Listening(i: nat) { i < |ends| && ends[i].joined && !ends[i].closed }
  }

  function Start(n: nat): World { World(seq(n, _ => UNOPENED), seq(n, _ => [])) }

  datatype Action =
    | Open(i: nat)
    | Publish(i: nat, report: Report)
    | Attach(i: nat, listener: nat)
    | Detach(i: nat, listener: nat)
    | Deliver(i: nat)
    | Close(i: nat)

  predicate Possible(w: World, a: Action) {
    && w.Sized() && a.i < |w.ends|
    && (a.Open? <==> !w.ends[a.i].joined)
    && (a.Deliver? ==> w.inboxes[a.i] != [])
  }

  /** A post reaches every end open at the time but its own. */
  function Posted(w: World, from: nat, m: Option<Message>): World
    requires w.Sized()
  {
    if m.None? then w
    else
      w.(inboxes := seq(|w.ends|, k requires 0 <= k < |w.ends| =>
        if k != from && w.Listening(k) then w.inboxes[k] + [Mail(from, m.value)] else w.inboxes[k]))
  }

  function Posts(w: World, a: Action): Option<Message>
    requires Possible(w, a)
  {
    var e := w.ends[a.i];
    match a
    case Publish(_, r) => if e.closed then None else Some(Progress(r))
    case Attach(_, _) => if e.lastHeard.None? && !e.closed then Some(Ask) else None
    case Deliver(_) => Answer(e, w.inboxes[a.i][0].message)
    case _ => None
  }

  function EndAfter(w: World, a: Action): End
    requires Possible(w, a)
  {
    var e := w.ends[a.i];
    match a
    case Open(_) => e.(joined := true)
    case Publish(_, r) => Published(e, r)
    case Attach(_, l) => Attached(e, l)
    case Detach(_, l) => Detached(e, l)
    case Deliver(_) => Heard(e, w.inboxes[a.i][0].message)
    case Close(_) => if e.closed then e else Closed(e)
  }

  /** A closed channel hears no more. */
  function InboxAfter(w: World, a: Action): seq<Mail>
    requires Possible(w, a)
  {
    match a
    case Deliver(_) => w.inboxes[a.i][1..]
    case Close(_) => []
    case _ => w.inboxes[a.i]
  }

  function After(w: World, a: Action): World
    requires Possible(w, a)
  {
    Posted(World(w.ends[a.i := EndAfter(w, a)], w.inboxes[a.i := InboxAfter(w, a)]), a.i, Posts(w, a))
  }

  ghost predicate Run(n: nat, actions: seq<Action>, worlds: seq<World>) {
    && |worlds| == |actions| + 1 && worlds[0] == Start(n)
    && forall j :: 0 <= j < |actions| ==> Possible(worlds[j], actions[j]) && worlds[j + 1] == After(worlds[j], actions[j])
  }

  predicate Drained(w: World) { forall i :: 0 <= i < |w.inboxes| ==> w.inboxes[i] == [] }
}
