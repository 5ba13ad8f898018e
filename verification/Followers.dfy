/**
 * Which followers are worth a word (`cli/src/followers.ts`): a generation whose rebuild cannot
 * advance is reported once, until it can again; and the one-shot's bounded rebuild loop.
 */
module Followers {
  import opened Options

  /** `RebuildStop` (`core/src/generation/rebuild.ts`). */
  datatype Stop = StreamConsumed | Budget | NothingStored | DoesNotReachBack(startBlock: nat) | Undecodable | Inconsistent

  predicate RetryCanAdvance(s: Stop) { s.Budget? || s.NothingStored? || s.StreamConsumed? }

  datatype Report = Report(id: nat, stopped: Stop)

  // ------------------------------------------------------------------ over all reports

  /** The last report of generation `id` among the first `end`, if there is one. */
  function Previous(h: seq<Report>, end: nat, id: nat): Option<Stop>
    requires end <= |h|
  {
    if end == 0 then None
    else if h[end - 1].id == id then Some(h[end - 1].stopped)
    else Previous(h, end - 1, id)
  }

  predicate Stuck(h: seq<Report>, id: nat) {
    var last := Previous(h, |h|, id);
    last.Some? && !RetryCanAdvance(last.value)
  }

  /** A report worth a word: it cannot advance, and its generation's report before it was absent or could. */
  predicate IsNews(h: seq<Report>, i: nat)
    requires i < |h|
  {
    !RetryCanAdvance(h[i].stopped)
    && (Previous(h, i, h[i].id).None? || RetryCanAdvance(Previous(h, i, h[i].id).value))
  }

  /** The news among the reports `[from, to)`, in order. */
  function News(h: seq<Report>, from: nat, to: nat): seq<Report>
    requires from <= to <= |h|
  {
    if to == from then [] else News(h, from, to - 1) + if IsNews(h, to - 1) then [h[to - 1]] else []
  }

  lemma {:induction false} PreviousOfPrefix(h: seq<Report>, more: seq<Report>, end: nat, id: nat)
    requires end <= |h|
    ensures Previous(h + more, end, id) == Previous(h, end, id)
  {
    if end > 0 { PreviousOfPrefix(h, more, end - 1, id); }
  }

  lemma {:induction false} NewsOfPrefix(h: seq<Report>, more: seq<Report>, from: nat, to: nat)
    requires from <= to <= |h|
    ensures News(h + more, from, to) == News(h, from, to)
  {
    if to > from {
      NewsOfPrefix(h, more, from, to - 1);
      PreviousOfPrefix(h, more, to - 1, h[to - 1].id);
    }
  }

  lemma {:induction false} NewsInTurn(h: seq<Report>, from: nat, mid: nat, to: nat)
    requires from <= mid <= to <= |h|
    ensures News(h, from, to) == News(h, from, mid) + News(h, mid, to)
  {
    if to == mid {
      assert News(h, from, mid) + [] == News(h, from, mid);
    } else {
      NewsInTurn(h, from, mid, to - 1);
    }
  }

  // ------------------------------------------------------------------- as it is written

  /** The caller's memory across cycles. */
  class Reported {
    var ids: set<nat>

    /** What was reported and has not recovered, by the reports so far. */
    ghost predicate Remembers(h: seq<Report>)
      reads this
    {
      forall id :: id in ids <==> Stuck(h, id)
    }

    constructor ()
      ensures Remembers([])
    {
      ids := {};
    }

    /** One cycle's reports, after those of `h`: exactly the news is answered, however many cycles came before. */
    method StalledIn(reports: seq<Report>, ghost h: seq<Report>) returns (newly: seq<Report>)
      requires Remembers(h)
      modifies this
      ensures Remembers(h + reports)
      ensures newly == News(h + reports, |h|, |h| + |reports|)
    {
      newly := [];
      assert h + reports[..0] == h;
      for i := 0 to |reports|
        invariant Remembers(h + reports[..i])
        invariant newly == News(h + reports[..i], |h|, |h| + i)
      {
        ghost var before, after := h + reports[..i], h + reports[..i + 1];
        assert after == before + [reports[i]];
        NewsOfPrefix(before, [reports[i]], |h|, |h| + i);
        forall id
          ensures Stuck(after, id) <==> if id == reports[i].id then !RetryCanAdvance(reports[i].stopped) else Stuck(before, id)
        {
          PreviousOfPrefix(before, [reports[i]], |before|, id);
        }
        PreviousOfPrefix(before, [reports[i]], |before|, reports[i].id);
        var report := reports[i];
        if RetryCanAdvance(report.stopped) {
          ids := ids - {report.id};
        } else if report.id !in ids {
          ids := ids + {report.id};
          newly := newly + [report];
        }
      }
      assert reports[..|reports|] == reports;
    }
  }

  predicate OnBudget(reports: seq<Report>) { exists i :: 0 <= i < |reports| && reports[i].stopped.Budget? }

  /** The reports of the first `n` passes, in order. */
  function Passes(rebuildMore: nat -> seq<Report>, n: nat): seq<Report> {
    if n == 0 then [] else Passes(rebuildMore, n - 1) + rebuildMore(n - 1)
  }

  lemma NewsOfNone(h: seq<Report>)
    ensures News(h, |h|, |h|) == []
  {
  }

  lemma NewsOfPass(h: seq<Report>, rebuildMore: nat -> seq<Report>, pass: nat)
    ensures
      var all, next := h + Passes(rebuildMore, pass), h + Passes(rebuildMore, pass + 1);
      && next == all + rebuildMore(pass)
      && News(next, |h|, |next|) == News(all, |h|, |all|) + News(next, |all|, |next|)
  {
    var all, reports := h + Passes(rebuildMore, pass), rebuildMore(pass);
    assert all + reports == h + Passes(rebuildMore, pass + 1);
    NewsOfPrefix(all, reports, |h|, |all|);
    NewsInTurn(all + reports, |h|, |all|, |all| + |reports|);
  }

  /**
   * `rebuildMore` answers pass by pass; `unread` is how much of the stream is left before each. The
   * loop ends on the stream's own length, after the first pass in which nothing stopped on its budget,
   * and has reported exactly the news of all its passes.
   */
  method RebuildUntilLevel(rebuildMore: nat -> seq<Report>, ghost unread: nat -> nat, reported: Reported, ghost h: seq<Report>)
    returns (stalled: seq<Report>, ghost passes: nat)
    requires reported.Remembers(h)
    requires forall k: nat :: OnBudget(rebuildMore(k)) ==> unread(k + 1) < unread(k)
    modifies reported
    ensures 0 < passes <= unread(0) + 1
    ensures !OnBudget(rebuildMore(passes - 1)) && forall k :: 0 <= k < passes - 1 ==> OnBudget(rebuildMore(k))
    ensures reported.Remembers(h + Passes(rebuildMore, passes))
    ensures stalled == News(h + Passes(rebuildMore, passes), |h|, |h| + |Passes(rebuildMore, passes)|)
  {
    hide News;
    stalled := [];
    NewsOfNone(h);
    var pass: nat := 0;
    var more := true;
    assert h + Passes(rebuildMore, 0) == h;
    while more
      invariant reported.Remembers(h + Passes(rebuildMore, pass))
      invariant stalled == News(h + Passes(rebuildMore, pass), |h|, |h| + |Passes(rebuildMore, pass)|)
      invariant forall k :: 0 <= k < pass - 1 ==> OnBudget(rebuildMore(k))
      invariant more ==> pass + unread(pass) <= unread(0) && (pass > 0 ==> OnBudget(rebuildMore(pass - 1)))
      invariant !more ==> 0 < pass <= unread(0) + 1 && !OnBudget(rebuildMore(pass - 1))
      decreases more, unread(pass)
    {
      var reports := rebuildMore(pass);
      ghost var all := h + Passes(rebuildMore, pass);
      var newly := reported.StalledIn(reports, all);
      stalled := stalled + newly;
      NewsOfPass(h, rebuildMore, pass);
      more := OnBudget(reports);
      pass := pass + 1;
    }
    passes := pass;
  }
}
