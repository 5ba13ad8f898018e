/**
 * From a handler's writes to what a reader sees: blocks staged, coalesced, flushed into versioned
 * rows and read back as of a height.
 */
module WriteHistory {
  import opened Options
  import opened RowStore
  import opened RowHistory
  import opened StagedBlock

  type RowWrite = Write<Key, Row>

  function AsMutations(ws: seq<RowWrite>): seq<Mutation> {
    seq(|ws|, i requires 0 <= i < |ws| => match ws[i] { case Put(k, row) => Upsert(k, row) case Drop(k) => Delete(k) })
  }

  /** Each block of `h` holds what the staging area flushed of one block's writes. */
  ghost predicate Flushed(h: seq<Block>, wrote: seq<seq<RowWrite>>) {
    |wrote| == |h| && forall j :: 0 <= j < |h| ==> h[j].mutations == AsMutations(CoalescedAll(wrote[j]))
  }

  function AllWrites(wrote: seq<seq<RowWrite>>): seq<RowWrite> {
    if wrote == [] then [] else AllWrites(wrote[..|wrote| - 1]) + wrote[|wrote| - 1]
  }

  lemma {:induction false} ReplayedIsWritten(p: Plain, ws: seq<RowWrite>)
    ensures ReplayedAll(p, AsMutations(ws)) == AllWritten(p, ws)
  {
    if ws != [] {
      ReplayedIsWritten(p, ws[..|ws| - 1]);
      assert AsMutations(ws)[..|ws| - 1] == AsMutations(ws[..|ws| - 1]);
    }
  }

  /** Replaying what was flushed is replaying what was written. */
  lemma {:induction false} ReplayIsEveryWrite(h: seq<Block>, wrote: seq<seq<RowWrite>>)
    requires Flushed(h, wrote)
    ensures Replay(h) == AllWritten(map[], AllWrites(wrote))
  {
    if h != [] {
      var before, last := wrote[..|wrote| - 1], wrote[|wrote| - 1];
      ReplayIsEveryWrite(h[..|h| - 1], before);
      ReplayedIsWritten(Replay(h[..|h| - 1]), CoalescedAll(last));
      FlushMeansWhatWasWritten(Replay(h[..|h| - 1]), last);
      WrittenInTurn(map[], AllWrites(before), last);
    }
  }

  /** A read as of any block answers what every write of the handlers up to it, one after another, left. */
  lemma ReadsSeeTheWrites(h: seq<Block>, wrote: seq<seq<RowWrite>>, k: Key, b: nat)
    requires Ascending(h) && Flushed(h, wrote)
    ensures
      var rows := AllWritten(map[], AllWrites(wrote[..|UpTo(h, b)|]));
      AsOf(Built(h), k, b) == if k in rows then Some(rows[k]) else None
  {
    var n := |UpTo(h, b)|;
    AsOfIsReplay(h, k, b);
    assert UpTo(h, b) == h[..n];
    ReplayIsEveryWrite(h[..n], wrote[..n]);
  }
}
