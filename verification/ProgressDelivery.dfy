/**
 * What the channel promises over whole runs: a drained channel leaves every end that matters with
 * the last report published, no listener hears the same thing twice running, and nobody gossips.
 */
module ProgressDelivery {
  import opened Options
  import opened ProgressChannel

  // ------------------------------------------------------- nothing but the host's own

  ghost predicate EndHonest(e: End) {
    && (e.lastPublished.Some? ==> e.said != [] && e.lastPublished.value == e.said[|e.said| - 1])
    && (e.joined && !e.closed && e.said != [] ==> e.lastPublished.Some?)
    && (!e.joined ==> e == UNOPENED)
    && (e.closed ==> e.lastHeard.None? && e.lastPublished.None?)
  }

  ghost predicate InboxHonest(w: World, i: nat)
    requires i < |w.inboxes|
  {
    && (w.inboxes[i] != [] ==> w.Listening(i))
    && forall k :: 0 <= k < |w.inboxes[i]| && w.inboxes[i][k].message.Progress? ==>
         var mail := w.inboxes[i][k];
         mail.from < |w.ends| && mail.message.report in w.ends[mail.from].said
  }

  ghost predicate Honest(w: World) {
    && w.Sized()
    && (forall i :: 0 <= i < |w.ends| ==> EndHonest(w.ends[i]))
    && (forall i :: 0 <= i < |w.inboxes| ==> InboxHonest(w, i))
  }

  lemma EndStaysHonest(w: World, a: Action)
    requires Possible(w, a) && EndHonest(w.ends[a.i]) && (w.inboxes[a.i] != [] ==> w.Listening(a.i))
    ensures EndHonest(EndAfter(w, a))
  {
  }

  /** What is said stays said, and what is posted has been. */
  lemma SaidGrows(w: World, a: Action, k: nat, r: Report)
    requires Possible(w, a) && k < |w.ends| && EndHonest(w.ends[a.i])
    ensures r in w.ends[k].said ==> r in After(w, a).ends[k].said
    ensures Posts(w, a) == Some(Progress(r)) ==> r in After(w, a).ends[a.i].said
  {
  }

  lemma InboxStaysHonest(w: World, a: Action, i: nat)
    requires Possible(w, a) && EndHonest(w.ends[a.i]) && i < |w.ends| && InboxHonest(w, i)
    ensures InboxHonest(After(w, a), i)
  {
    var w' := After(w, a);
    forall k | 0 <= k < |w'.inboxes[i]| && w'.inboxes[i][k].message.Progress?
      ensures
        var mail := w'.inboxes[i][k];
        mail.from < |w'.ends| && mail.message.report in w'.ends[mail.from].said
    {
      var mail := w'.inboxes[i][k];
      SaidGrows(w, a, if mail.from < |w.ends| then mail.from else 0, mail.message.report);
      assert mail == Mail(a.i, Progress(mail.message.report)) || mail in w.inboxes[i];
    }
  }

  lemma StepKeepsHonest(w: World, a: Action)
    requires Honest(w) && Possible(w, a)
    ensures Honest(After(w, a))
  {
    assert EndHonest(w.ends[a.i]) && InboxHonest(w, a.i);
    EndStaysHonest(w, a);
    forall i | 0 <= i < |w.ends| ensures InboxHonest(After(w, a), i) {
      assert InboxHonest(w, i);
      InboxStaysHonest(w, a, i);
    }
  }

  lemma {:induction false} RunIsHonest(n: nat, actions: seq<Action>, worlds: seq<World>, j: nat)
    requires Run(n, actions, worlds) && j < |worlds|
    ensures Honest(worlds[j]) && |worlds[j].ends| == n
  {
    if j > 0 {
      RunIsHonest(n, actions, worlds, j - 1);
      StepKeepsHonest(worlds[j - 1], actions[j - 1]);
    }
  }

  /** A report is only ever posted by a tab whose own host made it. */
  lemma NobodyGossips(n: nat, actions: seq<Action>, worlds: seq<World>, j: nat, r: Report)
    requires Run(n, actions, worlds) && j < |actions| && Posts(worlds[j], actions[j]) == Some(Progress(r))
    ensures r in worlds[j + 1].ends[actions[j].i].said
    ensures actions[j].Publish? || (actions[j].Deliver? && r in worlds[j].ends[actions[j].i].said)
  {
    RunIsHonest(n, actions, worlds, j);
    assert EndHonest(worlds[j].ends[actions[j].i]);
  }

  // ---------------------------------------------------------------- one tab publishes

  /** What an end will hold once its inbox is read, up to sameness. */
  function Will(held: Option<Report>, inbox: seq<Mail>): Option<Report> {
    if inbox == [] then held
    else
      var last := inbox[|inbox| - 1].message;
      if last.Progress? then Some(last.report) else Will(held, inbox[..|inbox| - 1])
  }

  predicate Alike(a: Option<Report>, b: Option<Report>) {
    (a.None? <==> b.None?) && (a.Some? && b.Some? ==> Same(a.value, b.value))
  }

  lemma WillPosted(held: Option<Report>, inbox: seq<Mail>, m: Mail)
    ensures Will(held, inbox + [m]) == if m.message.Progress? then Some(m.message.report) else Will(held, inbox)
  {
    assert (inbox + [m])[..|inbox|] == inbox;
  }

  lemma {:induction false} WillHeard(e: End, inbox: seq<Mail>)
    requires inbox != []
    ensures Alike(Will(Heard(e, inbox[0].message).lastHeard, inbox[1..]), Will(e.lastHeard, inbox))
  {
    if |inbox| > 1 && !inbox[|inbox| - 1].message.Progress? {
      WillHeard(e, inbox[..|inbox| - 1]);
      assert inbox[..|inbox| - 1][1..] == inbox[1..][..|inbox| - 2];
    }
  }

  /** What end `i` will hold. */
  function Holds(w: World, i: nat): Option<Report>
    requires w.Sized() && i < |w.ends|
  {
    Will(w.ends[i].lastHeard, w.inboxes[i])
  }

  /** The last report the publishing tab's host made. */
  function Final(w: World, p: nat): Option<Report>
    requires p < |w.ends|
  {
    var said := w.ends[p].said;
    if said == [] then None else Some(said[|said| - 1])
  }

  /** Only `p` has published, and whatever any other end will hold is the last it said. */
  ghost predicate OneVoice(w: World, p: nat) {
    && w.Sized() && p < |w.ends|
    && (forall i :: 0 <= i < |w.ends| && i != p ==> w.ends[i].said == [])
    && (forall i :: 0 <= i < |w.ends| && i != p && w.Listening(i) && Holds(w, i).Some? ==> Alike(Holds(w, i), Final(w, p)))
  }

  /** How one step changes what end `i` will hold. */
  lemma HoldsAfter(w: World, a: Action, i: nat)
    requires Honest(w) && Possible(w, a) && i < |w.ends|
    requires w.Listening(i) && After(w, a).Listening(i)
    ensures
      var post := Posts(w, a);
      if i != a.i && post.Some? && post.value.Progress? then Holds(After(w, a), i) == Some(post.value.report)
      else Alike(Holds(After(w, a), i), Holds(w, i))
  {
    var post := Posts(w, a);
    if i != a.i && post.Some? {
      WillPosted(w.ends[i].lastHeard, w.inboxes[i], Mail(a.i, post.value));
    }
    if i == a.i && a.Deliver? { WillHeard(w.ends[i], w.inboxes[i]); }
  }

  lemma StepKeepsOneVoice(w: World, a: Action, p: nat)
    requires Honest(w) && OneVoice(w, p) && Possible(w, a) && (a.Publish? ==> a.i == p)
    ensures OneVoice(After(w, a), p)
  {
    var w' := After(w, a);
    assert EndHonest(w.ends[a.i]) && EndHonest(w.ends[p]);
    forall i | 0 <= i < |w.ends| && i != p && w'.Listening(i) && Holds(w', i).Some?
      ensures Alike(Holds(w', i), Final(w', p))
    {
      assert EndHonest(w.ends[i]) && InboxHonest(w, i);
      if w.Listening(i) { HoldsAfter(w, a, i); }
    }
  }

  lemma {:induction false} RunIsOneVoice(n: nat, actions: seq<Action>, worlds: seq<World>, p: nat, j: nat)
    requires Run(n, actions, worlds) && j < |worlds| && p < n
    requires forall k :: 0 <= k < |actions| && actions[k].Publish? ==> actions[k].i == p
    ensures Honest(worlds[j]) && |worlds[j].ends| == n && OneVoice(worlds[j], p)
  {
    RunIsHonest(n, actions, worlds, j);
    if j > 0 {
      RunIsOneVoice(n, actions, worlds, p, j - 1);
      StepKeepsOneVoice(worlds[j - 1], actions[j - 1], p);
    }
  }

  // ----------------------------------------------------------------- the drained channel

  /** An end holds a report, or will, or has an ask on its way to a tab that can answer it. */
  ghost predicate Assured(w: World, p: nat, i: nat) {
    && w.Sized() && p < |w.ends| && i < |w.ends| && i != p && w.Listening(i)
    && (Holds(w, i).Some? || (CanAnswer(w, p) && exists k :: 0 <= k < |w.inboxes[p]| && w.inboxes[p][k].message.Ask?))
  }

  predicate CanAnswer(w: World, p: nat)
    requires p < |w.ends|
  {
    w.Listening(p) && w.ends[p].lastPublished.Some?
  }

  lemma StepKeepsAssured(w: World, a: Action, p: nat, i: nat)
    requires Honest(w) && Possible(w, a) && Assured(w, p, i)
    requires After(w, a).Listening(i) && (Holds(w, i).Some? || After(w, a).Listening(p))
    ensures Assured(After(w, a), p, i)
  {
    var w' := After(w, a);
    HoldsAfter(w, a, i);
    if Holds(w, i).None? && Holds(w', i).None? {
      var k :| 0 <= k < |w.inboxes[p]| && w.inboxes[p][k].message.Ask?;
      assert EndHonest(w.ends[p]);
      if a == Deliver(p) {
        assert k > 0;
        assert w'.inboxes[p][k - 1] == w.inboxes[p][k];
      } else {
        assert w'.inboxes[p][k] == w.inboxes[p][k];
      }
    }
  }

  /** From when an end is assured, it stays so while it is open, and so is the tab it asked. */
  lemma {:induction false} StaysAssured(n: nat, actions: seq<Action>, worlds: seq<World>, p: nat, i: nat, from: nat, j: nat)
    requires Run(n, actions, worlds) && from <= j < |worlds| && p < n && i < n
    requires Assured(worlds[from], p, i) && worlds[j].Listening(i)
    requires Holds(worlds[from], i).Some? || worlds[j].Listening(p)
    ensures Assured(worlds[j], p, i)
    ensures worlds[from].Sized() && Holds(worlds[from], i).Some? ==> Holds(worlds[j], i).Some?
  {
    if j > from {
      var w, a := worlds[j - 1], actions[j - 1];
      RunIsHonest(n, actions, worlds, j - 1);
      OpenBefore(n, actions, worlds, i, from, j);
      if Holds(worlds[from], i).None? { OpenBefore(n, actions, worlds, p, from, j); }
      StaysAssured(n, actions, worlds, p, i, from, j - 1);
      StepKeepsAssured(w, a, p, i);
      HoldsAfter(w, a, i);
    }
  }

  lemma OpenBefore(n: nat, actions: seq<Action>, worlds: seq<World>, i: nat, from: nat, j: nat)
    requires Run(n, actions, worlds) && from < j < |worlds| && i < n
    requires worlds[from].Listening(i) && worlds[j].Listening(i)
    ensures worlds[j - 1].Listening(i)
  {
    NotBackToUnopened(n, actions, worlds, i, from, j - 1);
    OnceClosed(worlds[j - 1], actions[j - 1], i);
  }

  lemma OnceClosed(w: World, a: Action, i: nat)
    requires Possible(w, a) && i < |w.ends|
    ensures After(w, a).Listening(i) && w.ends[i].joined ==> w.Listening(i)
  {
  }

  lemma {:induction false} NotBackToUnopened(n: nat, actions: seq<Action>, worlds: seq<World>, i: nat, from: nat, j: nat)
    requires Run(n, actions, worlds) && from <= j < |worlds| && i < n
    requires i < |worlds[from].ends| && worlds[from].ends[i].joined
    ensures i < |worlds[j].ends| && worlds[j].ends[i].joined
  {
    if j > from { NotBackToUnopened(n, actions, worlds, i, from, j - 1); }
  }

  lemma {:induction false} NothingSaidSince(n: nat, actions: seq<Action>, worlds: seq<World>, p: nat, from: nat, j: nat)
    requires Run(n, actions, worlds) && from <= j < |worlds| && p < n
    requires forall k :: from <= k < |actions| ==> !actions[k].Publish?
    ensures |worlds[from].ends| == |worlds[j].ends| == n && Final(worlds[j], p) == Final(worlds[from], p)
  {
    RunIsHonest(n, actions, worlds, from);
    if j > from { NothingSaidSince(n, actions, worlds, p, from, j - 1); }
  }

  /**
   * One tab publishes. Once the channel drains, an end that was open at the last publish, and still
   * is, holds a report like the one published, whatever has become of the tab that published it.
   */
  lemma OpenAtTheLastPublish(n: nat, actions: seq<Action>, worlds: seq<World>, p: nat, i: nat, at: nat)
    requires Run(n, actions, worlds) && p < n && i < n && i != p && at < |actions|
    requires forall k :: 0 <= k < |actions| && actions[k].Publish? ==> actions[k].i == p
    requires actions[at].Publish? && (forall k :: at < k < |actions| ==> !actions[k].Publish?)
    requires worlds[at].Listening(p) && worlds[at].Listening(i)
    requires Drained(worlds[|actions|]) && worlds[|actions|].Listening(i)
    ensures Alike(worlds[|actions|].ends[i].lastHeard, Some(actions[at].report))
  {
    var last := |actions|;
    RunIsOneVoice(n, actions, worlds, p, at);
    HoldsAfter(worlds[at], actions[at], i);
    StaysAssured(n, actions, worlds, p, i, at + 1, last);
    RunIsOneVoice(n, actions, worlds, p, last);
    NothingSaidSince(n, actions, worlds, p, at + 1, last);
  }

  /**
   * And an end that attached a listener with the publishing tab open, and having published, holds a
   * report like its last once the channel drains, if that tab is still open to answer.
   */
  lemma AttachedSince(n: nat, actions: seq<Action>, worlds: seq<World>, p: nat, i: nat, at: nat)
    requires Run(n, actions, worlds) && p < n && i < n && i != p && at < |actions|
    requires forall k :: 0 <= k < |actions| && actions[k].Publish? ==> actions[k].i == p
    requires actions[at].Attach? && actions[at].i == i
    requires p < |worlds[at].ends| && CanAnswer(worlds[at], p)
    requires Drained(worlds[|actions|]) && worlds[|actions|].Listening(i) && worlds[|actions|].Listening(p)
    ensures worlds[|actions|].ends[i].lastHeard.Some?
    ensures p < |worlds[|actions|].ends| && Alike(worlds[|actions|].ends[i].lastHeard, worlds[|actions|].ends[p].lastPublished)
  {
    var last := |actions|;
    RunIsOneVoice(n, actions, worlds, p, at);
    RunIsOneVoice(n, actions, worlds, p, last);
    NotBackToUnopened(n, actions, worlds, i, at, at);
    StaysOpenUntil(n, actions, worlds, i, at, last);
    var w, w' := worlds[at], worlds[at + 1];
    if w.ends[i].lastHeard.None? {
      assert w'.inboxes[p][|w.inboxes[p]|].message.Ask?;
    }
    HoldsAfter(w, actions[at], i);
    HeldIsHeld(w.ends[i].lastHeard, w.inboxes[i]);
    assert Assured(w', p, i);
    StaysAssured(n, actions, worlds, p, i, at + 1, last);
    assert EndHonest(worlds[last].ends[p]);
  }

  lemma {:induction false} HeldIsHeld(held: Option<Report>, inbox: seq<Mail>)
    ensures held.Some? ==> Will(held, inbox).Some?
  {
    if inbox != [] { HeldIsHeld(held, inbox[..|inbox| - 1]); }
  }

  /** An end that is open later was open all along, from when it opened. */
  lemma {:induction false} StaysOpenUntil(n: nat, actions: seq<Action>, worlds: seq<World>, i: nat, from: nat, j: nat)
    requires Run(n, actions, worlds) && from <= j < |worlds| && i < n
    requires i < |worlds[from].ends| && worlds[from].ends[i].joined && worlds[j].Listening(i)
    ensures forall k :: from <= k <= j ==> worlds[k].Listening(i)
  {
    if j > from {
      NotBackToUnopened(n, actions, worlds, i, from, j - 1);
      OnceClosed(worlds[j - 1], actions[j - 1], i);
      StaysOpenUntil(n, actions, worlds, i, from, j - 1);
    }
  }

  // ------------------------------------------------------------------ no repeat is told

  /** What a listener was told last, if anything. */
  function LastTold(log: seq<Told>, l: nat): Option<Report> {
    if log == [] then None
    else if log[|log| - 1].listener == l then Some(log[|log| - 1].report)
    else LastTold(log[..|log| - 1], l)
  }

  /** Whatever was told as news was news to its listener. */
  ghost predicate NoRepeats(log: seq<Told>) {
    forall k :: 0 <= k < |log| && !log[k].handed ==> !Alike(LastTold(log[..k], log[k].listener), Some(log[k].report))
  }

  /** An attached listener was last told what the end last heard, if it has heard anything. */
  ghost predicate EndTells(e: End) {
    && NoRepeats(e.log) && NoRepeat(e.listeners)
    && (e.lastHeard.None? && !e.closed ==> e.log == [])
    && (e.lastHeard.Some? ==> forall l :: l in e.listeners ==> Alike(LastTold(e.log, l), e.lastHeard))
  }

  lemma LastToldNext(log: seq<Told>, t: Told, l: nat)
    ensures LastTold(log + [t], l) == if l == t.listener then Some(t.report) else LastTold(log, l)
  {
    assert (log + [t])[..|log|] == log;
  }

  lemma NoRepeatsNext(log: seq<Told>, t: Told)
    requires NoRepeats(log) && (t.handed || !Alike(LastTold(log, t.listener), Some(t.report)))
    ensures NoRepeats(log + [t])
  {
    assert forall k :: 0 <= k <= |log| ==> (log + [t])[..k] == log[..k];
    assert log[..|log|] == log;
  }

  lemma ToldsSplit(log: seq<Told>, listeners: seq<nat>, r: Report)
    requires listeners != []
    ensures log + Tolds(listeners, r)
         == log + Tolds(listeners[..|listeners| - 1], r) + [Told(listeners[|listeners| - 1], r, false)]
  {
  }

  lemma {:induction false} LastToldAll(log: seq<Told>, listeners: seq<nat>, r: Report, l: nat)
    ensures LastTold(log + Tolds(listeners, r), l) == if l in listeners then Some(r) else LastTold(log, l)
  {
    if listeners == [] {
      assert log + Tolds(listeners, r) == log;
    } else {
      var front, last := listeners[..|listeners| - 1], listeners[|listeners| - 1];
      LastToldAll(log, front, r, l);
      ToldsSplit(log, listeners, r);
      LastToldNext(log + Tolds(front, r), Told(last, r, false), l);
      assert l in listeners <==> l in front || l == last;
    }
  }

  /** Telling every listener some news. */
  lemma {:induction false} TellingAll(log: seq<Told>, listeners: seq<nat>, r: Report)
    requires NoRepeats(log) && NoRepeat(listeners)
    requires forall l :: l in listeners ==> !Alike(LastTold(log, l), Some(r))
    ensures NoRepeats(log + Tolds(listeners, r))
  {
    if listeners == [] {
      assert log + Tolds(listeners, r) == log;
    } else {
      var front, last := listeners[..|listeners| - 1], listeners[|listeners| - 1];
      TellingAll(log, front, r);
      ToldsSplit(log, listeners, r);
      LastToldAll(log, front, r, last);
      NoRepeatsNext(log + Tolds(front, r), Told(last, r, false));
    }
  }

  lemma EndKeepsTelling(w: World, a: Action)
    requires Possible(w, a) && EndTells(w.ends[a.i]) && EndHonest(w.ends[a.i])
    requires w.inboxes[a.i] != [] ==> w.Listening(a.i)
    ensures EndTells(EndAfter(w, a))
  {
    var e := w.ends[a.i];
    match a
    case Attach(_, l) =>
      if e.lastHeard.Some? {
        var t := Told(l, e.lastHeard.value, true);
        NoRepeatsNext(e.log, t);
        forall x ensures LastTold(e.log + [t], x) == if x == l then e.lastHeard else LastTold(e.log, x) { LastToldNext(e.log, t, x); }
      }
    case Detach(_, l) => WithoutIs(e.listeners, l);
    case Deliver(_) =>
      var m := w.inboxes[a.i][0].message;
      if m.Progress? && IsNews(e, m.report) {
        TellingAll(e.log, e.listeners, m.report);
        forall x | x in e.listeners ensures LastTold(e.log + Tolds(e.listeners, m.report), x) == Some(m.report) {
          LastToldAll(e.log, e.listeners, m.report, x);
        }
      }
    case _ =>
  }

  lemma {:induction false} RunTells(n: nat, actions: seq<Action>, worlds: seq<World>, j: nat)
    requires Run(n, actions, worlds) && j < |worlds|
    ensures |worlds[j].ends| == n && forall i :: 0 <= i < n ==> EndTells(worlds[j].ends[i])
  {
    RunIsHonest(n, actions, worlds, j);
    if j > 0 {
      RunTells(n, actions, worlds, j - 1);
      RunIsHonest(n, actions, worlds, j - 1);
      var w, a := worlds[j - 1], actions[j - 1];
      assert EndHonest(w.ends[a.i]) && InboxHonest(w, a.i);
      EndKeepsTelling(w, a);
    }
  }

  /** Some listener is told, after `before`, what it was last told already. */
  ghost predicate RepeatsSince(before: seq<Told>, log: seq<Told>) {
    exists k :: |before| <= k < |log| && Alike(LastTold(log[..k], log[k].listener), Some(log[k].report))
  }

  /** What an attach repeats: the report held, to a listener last told one like it. */
  predicate AttachRepeats(e: End, l: nat) { e.lastHeard.Some? && Alike(LastTold(e.log, l), e.lastHeard) }

  lemma AttachRepeatsExactly(e: End, l: nat)
    ensures RepeatsSince(e.log, Attached(e, l).log) <==> AttachRepeats(e, l)
  {
    var log := Attached(e, l).log;
    if e.lastHeard.Some? { assert log[..|e.log|] == e.log && log[|e.log|] == Told(l, e.lastHeard.value, true); }
    if AttachRepeats(e, l) { assert |e.log| <= |e.log| < |log|; }
  }

  lemma NewsNeverRepeats(e: End, m: Message)
    requires EndTells(e) && !e.closed
    ensures !RepeatsSince(e.log, Heard(e, m).log)
  {
    if m.Progress? && IsNews(e, m.report) { TellingAll(e.log, e.listeners, m.report); }
  }

  /**
   * A step tells a listener what it was last told already if and only if it attaches one to an end
   * that holds a report like the last it was told. No other step does, by any number of publishers.
   */
  lemma RepeatsExactly(n: nat, actions: seq<Action>, worlds: seq<World>, j: nat, i: nat)
    requires Run(n, actions, worlds) && j < |actions| && i < n
    ensures i < |worlds[j].ends| == |worlds[j + 1].ends|
    ensures RepeatsSince(worlds[j].ends[i].log, worlds[j + 1].ends[i].log)
            <==> actions[j].Attach? && actions[j].i == i && AttachRepeats(worlds[j].ends[i], actions[j].listener)
  {
    RunTells(n, actions, worlds, j);
    RunTells(n, actions, worlds, j + 1);
    var w, a := worlds[j], actions[j];
    RunIsHonest(n, actions, worlds, j);
    assert InboxHonest(w, i);
    if a.i == i {
      match a
      case Attach(_, l) => AttachRepeatsExactly(w.ends[i], l);
      case Deliver(_) => NewsNeverRepeats(w.ends[i], w.inboxes[i][0].message);
      case _ =>
    }
  }

  /** So attaching a listener that is still attached repeats what the end has heard, if it has heard anything. */
  lemma AttachingAgainRepeats(n: nat, actions: seq<Action>, worlds: seq<World>, j: nat)
    requires Run(n, actions, worlds) && j < |actions| && actions[j].Attach? && actions[j].i < |worlds[j].ends|
    requires actions[j].listener in worlds[j].ends[actions[j].i].listeners
    ensures actions[j].i < |worlds[j + 1].ends|
    ensures RepeatsSince(worlds[j].ends[actions[j].i].log, worlds[j + 1].ends[actions[j].i].log)
            <==> worlds[j].ends[actions[j].i].lastHeard.Some?
  {
    RunTells(n, actions, worlds, j);
    RepeatsExactly(n, actions, worlds, j, actions[j].i);
  }

  /** And a listener attached for the first time is repeated nothing. */
  lemma AttachingFirstNeverRepeats(n: nat, actions: seq<Action>, worlds: seq<World>, j: nat)
    requires Run(n, actions, worlds) && j < |actions| && actions[j].Attach? && actions[j].i < |worlds[j].ends|
    requires forall k :: 0 <= k < j ==> !(actions[k].Attach? && actions[k].i == actions[j].i && actions[k].listener == actions[j].listener)
    ensures actions[j].i < |worlds[j + 1].ends|
    ensures !RepeatsSince(worlds[j].ends[actions[j].i].log, worlds[j + 1].ends[actions[j].i].log)
  {
    RunTells(n, actions, worlds, j);
    NeverAttachedNeverTold(n, actions, worlds, actions[j].i, actions[j].listener, j);
    RepeatsExactly(n, actions, worlds, j, actions[j].i);
  }

  lemma {:induction false} NeverAttachedNeverTold(n: nat, actions: seq<Action>, worlds: seq<World>, i: nat, l: nat, j: nat)
    requires Run(n, actions, worlds) && j < |worlds| && i < n
    requires forall k :: 0 <= k < j ==> !(actions[k].Attach? && actions[k].i == i && actions[k].listener == l)
    ensures |worlds[j].ends| == n && l !in worlds[j].ends[i].listeners && LastTold(worlds[j].ends[i].log, l).None?
  {
    RunIsHonest(n, actions, worlds, j);
    if j > 0 {
      NeverAttachedNeverTold(n, actions, worlds, i, l, j - 1);
      RunIsHonest(n, actions, worlds, j - 1);
      if actions[j - 1].i == i { NotAttachedNotTold(worlds[j - 1], actions[j - 1], l); }
    }
  }

  lemma NotAttachedNotTold(w: World, a: Action, l: nat)
    requires Possible(w, a) && !(a.Attach? && a.listener == l)
    requires l !in w.ends[a.i].listeners && LastTold(w.ends[a.i].log, l).None?
    ensures l !in EndAfter(w, a).listeners && LastTold(EndAfter(w, a).log, l).None?
  {
    var e := w.ends[a.i];
    match a
    case Attach(_, x) => if e.lastHeard.Some? { LastToldNext(e.log, Told(x, e.lastHeard.value, true), l); }
    case Detach(_, x) => WithoutIs(e.listeners, x);
    case Deliver(_) =>
      var m := w.inboxes[a.i][0].message;
      if m.Progress? && IsNews(e, m.report) { LastToldAll(e.log, e.listeners, m.report, l); }
    case _ =>
  }

  // --------------------------------------------------------------------------- draining

  /** An ask may be answered to every other end, a report is only heard. */
  function Weight(n: nat, inbox: seq<Mail>): nat {
    if inbox == [] then 0
    else Weight(n, inbox[..|inbox| - 1]) + if inbox[|inbox| - 1].message.Ask? then n + 1 else 1
  }

  function Load(n: nat, inboxes: seq<seq<Mail>>): nat {
    if inboxes == [] then 0 else Load(n, inboxes[..|inboxes| - 1]) + Weight(n, inboxes[|inboxes| - 1])
  }

  lemma {:induction false} WeightOfFirst(n: nat, inbox: seq<Mail>)
    requires inbox != []
    ensures Weight(n, inbox) == Weight(n, inbox[1..]) + if inbox[0].message.Ask? then n + 1 else 1
  {
    if |inbox| > 1 {
      WeightOfFirst(n, inbox[..|inbox| - 1]);
      assert inbox[..|inbox| - 1][1..] == inbox[1..][..|inbox| - 2];
    } else {
      assert inbox[1..] == inbox[..0];
    }
  }

  lemma {:induction false} LoadOfOne(n: nat, inboxes: seq<seq<Mail>>, i: nat, inbox: seq<Mail>)
    requires i < |inboxes|
    ensures Load(n, inboxes[i := inbox]) == Load(n, inboxes) - Weight(n, inboxes[i]) + Weight(n, inbox)
  {
    if i < |inboxes| - 1 {
      LoadOfOne(n, inboxes[..|inboxes| - 1], i, inbox);
      assert inboxes[i := inbox][..|inboxes| - 1] == inboxes[..|inboxes| - 1][i := inbox];
    } else {
      assert inboxes[i := inbox][..i] == inboxes[..i];
    }
  }

  /** One report more in some of the inboxes. */
  lemma {:induction false} LoadOfAnswer(n: nat, before: seq<seq<Mail>>, after: seq<seq<Mail>>, mail: Mail)
    requires |before| == |after| && mail.message.Progress?
    requires forall i :: 0 <= i < |before| ==> after[i] == before[i] || after[i] == before[i] + [mail]
    ensures Load(n, after) <= Load(n, before) + |before|
  {
    if before != [] {
      var i := |before| - 1;
      LoadOfAnswer(n, before[..i], after[..i], mail);
      assert (before[i] + [mail])[..|before[i]|] == before[i];
    }
  }

  /** Each delivery lowers the load, so with nothing else happening the channel drains. */
  lemma DeliveriesDrain(w: World, i: nat)
    requires Possible(w, Deliver(i))
    ensures Load(|w.ends|, After(w, Deliver(i)).inboxes) < Load(|w.ends|, w.inboxes)
  {
    var n, rest := |w.ends|, w.inboxes[i := w.inboxes[i][1..]];
    LoadOfOne(n, w.inboxes, i, w.inboxes[i][1..]);
    WeightOfFirst(n, w.inboxes[i]);
    var post := Posts(w, Deliver(i));
    if post.Some? { LoadOfAnswer(n, rest, After(w, Deliver(i)).inboxes, Mail(i, post.value)); }
  }
}
