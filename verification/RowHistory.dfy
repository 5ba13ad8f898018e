/**
 * The versioned store against the thing it stands for: replaying the mutations on a plain map.
 * Every as-of read, every revert and every run of the two is what the surviving blocks say.
 */
module RowHistory {
  import opened Options
  import opened RowStore

  type Plain = map<Key, Row>

  function Replayed(p: Plain, m: Mutation): Plain {
    match m
    case Upsert(k, row) => p[k := row]
    case Delete(k) => p - {k}
  }

  function ReplayedAll(p: Plain, ms: seq<Mutation>): Plain {
    if ms == [] then p else Replayed(ReplayedAll(p, ms[..|ms| - 1]), ms[|ms| - 1])
  }

  /** The plain state after a history of blocks. */
  function Replay(h: seq<Block>): Plain {
    if h == [] then map[] else ReplayedAll(Replay(h[..|h| - 1]), h[|h| - 1].mutations)
  }

  ghost predicate Ascending(h: seq<Block>) {
    forall i, j :: 0 <= i < j < |h| ==> h[i].number < h[j].number
  }

  /** The blocks of an ascending history up to block `b`. */
  function UpTo(h: seq<Block>, b: nat): (p: seq<Block>)
    ensures p <= h
  {
    if h == [] then [] else if h[|h| - 1].number <= b then h else UpTo(h[..|h| - 1], b)
  }

  function Tip(h: seq<Block>): nat { if h == [] then 0 else h[|h| - 1].number }

  // ---------------------------------------------------------------------- soundness

  /** The version of `k` from `l` is the row at block `b`. */
  predicate LiveAt(s: Store, k: Key, l: nat, b: nat) {
    (k, l) in s.versions && l <= b && (s.versions[(k, l)].upper.None? || b < s.versions[(k, l)].upper.value)
  }

  /** `current` is the plain state and holds exactly the open versions. */
  ghost predicate CurrentSound(s: Store, p: Plain) {
    && s.current.Keys == p.Keys
    && (forall k :: k in s.current ==> s.current[k].row == p[k])
    && (forall k :: k in s.current ==> (k, s.current[k].lower) in s.versions
                                       && s.versions[(k, s.current[k].lower)] == Version(None, p[k]))
    && (forall k, l :: (k, l) in s.versions && s.versions[(k, l)].upper.None? ==> k in s.current && s.current[k].lower == l)
  }

  /** A key's ranges are in order: one is closed before the next opens, and none reaches past `n`. */
  ghost predicate RangesSound(s: Store, n: nat) {
    && (forall k, l :: (k, l) in s.versions ==> l <= n)
    && (forall k, l :: (k, l) in s.versions && s.versions[(k, l)].upper.Some? ==> l <= s.versions[(k, l)].upper.value <= n)
    && (forall k, l, l' :: (k, l) in s.versions && (k, l') in s.versions && l < l' ==>
          s.versions[(k, l)].upper.Some? && s.versions[(k, l)].upper.value <= l')
  }

  /** Blocks below `n` read alike in both stores. */
  ghost predicate SameBelow(s: Store, t: Store, n: nat) {
    forall k, l, b: nat :: b < n ==>
      && (LiveAt(s, k, l, b) <==> LiveAt(t, k, l, b))
      && (LiveAt(s, k, l, b) ==> s.versions[(k, l)].row == t.versions[(k, l)].row)
  }

  lemma MutatedCurrent(s: Store, p: Plain, n: nat, m: Mutation)
    requires CurrentSound(s, p)
    ensures CurrentSound(Mutated(s, n, m), Replayed(p, m))
  {
  }

  lemma MutatedRanges(s: Store, p: Plain, n: nat, m: Mutation)
    requires CurrentSound(s, p) && RangesSound(s, n)
    ensures RangesSound(Mutated(s, n, m), n)
  {
  }

  lemma MutatedFrame(s: Store, p: Plain, n: nat, m: Mutation)
    requires CurrentSound(s, p) && RangesSound(s, n)
    ensures SameBelow(s, Mutated(s, n, m), n)
  {
  }

  lemma {:induction false} AllMutatedSound(s: Store, p: Plain, n: nat, ms: seq<Mutation>)
    requires CurrentSound(s, p) && RangesSound(s, n)
    ensures CurrentSound(AllMutated(s, n, ms), ReplayedAll(p, ms)) && RangesSound(AllMutated(s, n, ms), n)
    ensures SameBelow(s, AllMutated(s, n, ms), n)
  {
    if ms != [] {
      var before := ms[..|ms| - 1];
      AllMutatedSound(s, p, n, before);
      MutatedCurrent(AllMutated(s, n, before), ReplayedAll(p, before), n, ms[|ms| - 1]);
      MutatedRanges(AllMutated(s, n, before), ReplayedAll(p, before), n, ms[|ms| - 1]);
      MutatedFrame(AllMutated(s, n, before), ReplayedAll(p, before), n, ms[|ms| - 1]);
    }
  }

  lemma {:induction false} BuiltSound(h: seq<Block>)
    requires Ascending(h)
    ensures CurrentSound(Built(h), Replay(h)) && RangesSound(Built(h), Tip(h))
    ensures h != [] ==> SameBelow(Built(h[..|h| - 1]), Built(h), Tip(h))
  {
    if h != [] {
      var before, b := h[..|h| - 1], h[|h| - 1];
      BuiltSound(before);
      AllMutatedSound(Built(before), Replay(before), b.number, b.mutations);
    }
  }

  // ------------------------------------------------------------------------- results

  /** An as-of read answers the one version whose range contains the block. */
  lemma AsOfIsTheLiveVersion(s: Store, n: nat, k: Key, b: nat)
    requires RangesSound(s, n)
    ensures match AsOf(s, k, b)
      case Some(row) => exists l :: LiveAt(s, k, l, b) && s.versions[(k, l)].row == row
      case None => forall l :: !LiveAt(s, k, l, b)
    ensures forall l, l' :: LiveAt(s, k, l, b) && LiveAt(s, k, l', b) ==> l == l'
  {
    var newest := Newest(s, k, b);
    forall l | LiveAt(s, k, l, b) ensures newest == Some(l) {
      assert newest.Some? && l <= newest.value;
    }
  }

  /** Read as of any block, the store answers what replaying the blocks up to it answers. */
  lemma {:induction false} AsOfIsReplay(h: seq<Block>, k: Key, b: nat)
    requires Ascending(h)
    ensures AsOf(Built(h), k, b) == if k in Replay(UpTo(h, b)) then Some(Replay(UpTo(h, b))[k]) else None
  {
    BuiltSound(h);
    AsOfIsTheLiveVersion(Built(h), Tip(h), k, b);
    if h == [] {
    } else if Tip(h) <= b {
      assert forall l :: LiveAt(Built(h), k, l, b) <==> k in Built(h).current && Built(h).current[k].lower == l;
    } else {
      var before := h[..|h| - 1];
      AsOfIsReplay(before, k, b);
      BuiltSound(before);
      AsOfIsTheLiveVersion(Built(before), Tip(before), k, b);
    }
  }

  /** The tip read is the replay of everything, and the open versions are exactly the live rows. */
  lemma CurrentIsReplay(h: seq<Block>, k: Key)
    requires Ascending(h)
    ensures Current(Built(h), k) == if k in Replay(h) then Some(Replay(h)[k]) else None
    ensures forall l :: (k, l) in Built(h).versions && Built(h).versions[(k, l)].upper.None?
              <==> k in Built(h).current && Built(h).current[k].lower == l
  {
    BuiltSound(h);
  }

  /** However blocks are packed into transactions, the store is the one they build one by one. */
  lemma {:induction false} PackingDoesNotMatter(s: Store, first: seq<Block>, rest: seq<Block>)
    ensures AllApplied(AllApplied(s, first), rest) == AllApplied(s, first + rest)
  {
    if rest == [] {
      assert first + rest == first;
    } else {
      PackingDoesNotMatter(s, first, rest[..|rest| - 1]);
      assert (first + rest)[..|first + rest| - 1] == first + rest[..|rest| - 1];
    }
  }

  // ------------------------------------------------------------------------ reverting

  /** What the blocks after `t` may do to a store: open versions above it, and close open ones above it. */
  ghost predicate Extends(p: Store, s: Store, t: nat) {
    && (forall k, l :: l <= t ==> ((k, l) in p.versions <==> (k, l) in s.versions))
    && (forall k, l :: l <= t && (k, l) in p.versions ==>
          && p.versions[(k, l)].row == s.versions[(k, l)].row
          && (p.versions[(k, l)].upper.Some? ==> s.versions[(k, l)].upper == p.versions[(k, l)].upper)
          && (p.versions[(k, l)].upper.None? && s.versions[(k, l)].upper.Some? ==> s.versions[(k, l)].upper.value > t))
  }

  lemma MutatedExtends(p: Store, s: Store, plain: Plain, t: nat, n: nat, m: Mutation)
    requires Extends(p, s, t) && t < n && CurrentSound(s, plain)
    ensures Extends(p, Mutated(s, n, m), t)
  {
  }

  lemma {:induction false} AllMutatedExtends(p: Store, s: Store, plain: Plain, t: nat, n: nat, ms: seq<Mutation>)
    requires Extends(p, s, t) && t < n && CurrentSound(s, plain) && RangesSound(s, n)
    ensures Extends(p, AllMutated(s, n, ms), t)
  {
    if ms != [] {
      var before := ms[..|ms| - 1];
      AllMutatedExtends(p, s, plain, t, n, before);
      AllMutatedSound(s, plain, n, before);
      MutatedExtends(p, AllMutated(s, n, before), ReplayedAll(plain, before), t, n, ms[|ms| - 1]);
    }
  }

  lemma {:induction false} BuiltExtends(h: seq<Block>, t: nat)
    requires Ascending(h)
    ensures Extends(Built(UpTo(h, t)), Built(h), t)
  {
    if h != [] && h[|h| - 1].number > t {
      var before, b := h[..|h| - 1], h[|h| - 1];
      BuiltExtends(before, t);
      BuiltSound(before);
      RangesWiden(Built(before), Tip(before), b.number);
      AllMutatedExtends(Built(UpTo(h, t)), Built(before), Replay(before), t, b.number, b.mutations);
    }
  }

  lemma RangesWiden(s: Store, n: nat, n': nat)
    requires RangesSound(s, n) && n <= n'
    ensures RangesSound(s, n')
  {
  }

  lemma {:induction false} BlocksUpTo(h: seq<Block>, t: nat)
    requires Ascending(h)
    ensures Built(UpTo(h, t)).blocks == map n | n in Built(h).blocks && n <= t :: Built(h).blocks[n]
  {
    NumbersRecorded(h);
    if h != [] && h[|h| - 1].number > t {
      var before, b := h[..|h| - 1], h[|h| - 1];
      BlocksUpTo(before, t);
      AllMutatedBlocks(Built(before), b.number, b.mutations);
      assert Built(h).blocks == Built(before).blocks[b.number := b.hash];
    }
  }

  lemma {:induction false} AllMutatedBlocks(s: Store, n: nat, ms: seq<Mutation>)
    ensures AllMutated(s, n, ms).blocks == s.blocks
  {
    if ms != [] { AllMutatedBlocks(s, n, ms[..|ms| - 1]); }
  }

  lemma {:induction false} NumbersRecorded(h: seq<Block>)
    requires Ascending(h)
    ensures forall n :: n in Built(h).blocks <==> exists i :: 0 <= i < |h| && h[i].number == n
    ensures forall n :: n in Built(h).blocks ==> n <= Tip(h)
  {
    if h != [] {
      var before, b := h[..|h| - 1], h[|h| - 1];
      NumbersRecorded(before);
      AllMutatedBlocks(Built(before), b.number, b.mutations);
      assert Built(h).blocks == Built(before).blocks[b.number := b.hash];
      forall n | n in Built(h).blocks ensures exists i :: 0 <= i < |h| && h[i].number == n {
        if n == b.number { assert h[|h| - 1].number == n; } else { assert n in Built(before).blocks; }
      }
    }
  }

  lemma {:induction false} UpToFacts(h: seq<Block>, t: nat)
    requires Ascending(h)
    ensures Ascending(UpTo(h, t)) && Tip(UpTo(h, t)) <= t
    ensures forall i :: 0 <= i < |h| ==> (i < |UpTo(h, t)| <==> h[i].number <= t)
  {
    if h != [] && h[|h| - 1].number > t { UpToFacts(h[..|h| - 1], t); }
  }

  /** A version of the prefix reopens when the prefix holds it open and the store does not. */
  lemma ReopensOpen(s: Store, p: Store, t: nat, k: Key, l: nat)
    requires Extends(p, s, t) && RangesSound(p, t)
    requires ReopensAt(s, k, l, t)
    ensures (k, l) in p.versions && p.versions[(k, l)].upper.None? && p.versions[(k, l)].row == s.versions[(k, l)].row
  {
    assert (k, l) in p.versions;
  }

  /** One key's live row after the revert is its live row in the prefix's store. */
  lemma RevertedLiveRow(s: Store, plain: Plain, n: nat, p: Store, plainP: Plain, t: nat, out: Store, k: Key)
    requires Reverted(s, t, out) && Extends(p, s, t)
    requires CurrentSound(s, plain) && CurrentSound(p, plainP) && RangesSound(p, t) && RangesSound(s, n)
    ensures k in out.current <==> k in p.current
    ensures k in p.current ==> out.current[k] == p.current[k]
  {
    if l: nat :| ReopensAt(s, k, l, t) {
      assert ReopensAt(s, k, out.current[k].lower, t);
      ReopensOpen(s, p, t, k, out.current[k].lower);
    } else {
      NothingReopens(s, plain, n, p, plainP, t, k);
    }
  }

  /** With nothing of `k` to reopen, its live row is old enough to stand, or it had none. */
  lemma NothingReopens(s: Store, plain: Plain, n: nat, p: Store, plainP: Plain, t: nat, k: Key)
    requires Extends(p, s, t) && forall l: nat :: !ReopensAt(s, k, l, t)
    requires CurrentSound(s, plain) && CurrentSound(p, plainP) && RangesSound(p, t) && RangesSound(s, n)
    ensures OpenedAbove(s, k, t) ==> k !in p.current
    ensures !OpenedAbove(s, k, t) ==> (k in p.current <==> k in s.current) && (k in s.current ==> p.current[k] == s.current[k])
  {
    if k in p.current {
      var l := p.current[k].lower;
      assert (k, l) in p.versions && (k, l) in s.versions && !ReopensAt(s, k, l, t);
    }
    if k in s.current { assert (k, s.current[k].lower) in s.versions; }
  }

  lemma RevertedCurrent(s: Store, plain: Plain, n: nat, p: Store, plainP: Plain, t: nat, out: Store)
    requires Reverted(s, t, out) && Extends(p, s, t)
    requires CurrentSound(s, plain) && CurrentSound(p, plainP) && RangesSound(p, t) && RangesSound(s, n)
    ensures out.current == p.current
  {
    forall k ensures (k in out.current <==> k in p.current) && (k in p.current ==> out.current[k] == p.current[k]) {
      RevertedLiveRow(s, plain, n, p, plainP, t, out, k);
    }
  }

  lemma RevertedVersions(s: Store, p: Store, t: nat, out: Store)
    requires Reverted(s, t, out) && Extends(p, s, t) && RangesSound(p, t)
    ensures out.versions == p.versions
  {
    forall v ensures v in out.versions <==> v in p.versions { assert (v.0, v.1) == v; }
    forall v | v in p.versions ensures out.versions[v] == p.versions[v] { assert (v.0, v.1) == v && v in s.versions; }
  }

  /** The revert restores exactly the store that applying only the blocks up to its target builds. */
  lemma RevertRestoresThePrefix(h: seq<Block>, t: nat, out: Store)
    requires Ascending(h) && Reverted(Built(h), t, out)
    ensures out == Built(UpTo(h, t))
  {
    var s, p := Built(h), Built(UpTo(h, t));
    UpToFacts(h, t);
    BuiltSound(h);
    BuiltSound(UpTo(h, t));
    RangesWiden(p, Tip(UpTo(h, t)), t);
    BuiltExtends(h, t);
    BlocksUpTo(h, t);
    RevertedVersions(s, p, t, out);
    RevertedCurrent(s, Replay(h), Tip(h), p, Replay(UpTo(h, t)), t, out);
  }

  // ----------------------------------------------------------------------------- runs

  datatype Op = Apply(block: Block) | Revert(to: nat)

  /** The store after one operation: what `ApplyBlock` and `RevertTo` promise. */
  ghost predicate Does(s: Store, op: Op, out: Store) {
    match op
    case Apply(b) => out == if Refuses(s, b) then s else Applied(s, b)
    case Revert(t) => Reverted(s, t, out)
  }

  /** The blocks that survive a run: those applied and not refused, less those reverted. */
  function Surviving(ops: seq<Op>): seq<Block> {
    if ops == [] then []
    else
      var h := Surviving(ops[..|ops| - 1]);
      match ops[|ops| - 1]
      case Apply(b) => if Refuses(Built(h), b) then h else h + [b]
      case Revert(t) => UpTo(h, t)
  }

  lemma ApplySurvives(h: seq<Block>, b: Block, out: Store)
    requires Ascending(h) && Does(Built(h), Apply(b), out)
    ensures !Refuses(Built(h), b) ==> Ascending(h + [b]) && out == Built(h + [b])
  {
    NumbersRecorded(h);
    if !Refuses(Built(h), b) {
      forall i | 0 <= i < |h| ensures h[i].number < b.number { assert h[i].number in Built(h).blocks; }
      assert (h + [b])[..|h|] == h;
    }
  }

  /**
   * Whatever is applied, refused and reverted, in whatever order, the store is the one the
   * surviving blocks build, and they ascend; so every read is a replay of those.
   */
  lemma {:induction false} EveryRunIsItsSurvivors(ops: seq<Op>, stores: seq<Store>)
    requires |stores| == |ops| + 1 && stores[0] == EMPTY
    requires forall i :: 0 <= i < |ops| ==> Does(stores[i], ops[i], stores[i + 1])
    ensures Ascending(Surviving(ops)) && stores[|ops|] == Built(Surviving(ops))
  {
    if ops != [] {
      var last := |ops| - 1;
      EveryRunIsItsSurvivors(ops[..last], stores[..|stores| - 1]);
      var h := Surviving(ops[..last]);
      match ops[last]
      case Apply(b) => ApplySurvives(h, b, stores[|ops|]);
      case Revert(t) =>
        UpToFacts(h, t);
        RevertRestoresThePrefix(h, t, stores[|ops|]);
    }
  }

  // -------------------------------------------------------------- current plus the delta

  /** The rows a scan of `current` keeps as of `b`, and the ones it takes from the closed versions. */
  predicate InCurrent(s: Store, k: Key, l: nat, b: nat) { k in s.current && s.current[k].lower == l && l <= b }
  predicate InDelta(s: Store, k: Key, l: nat, b: nat) {
    (k, l) in s.versions && ClosedAbove(s.versions[(k, l)], b) && l <= b
  }

  /**
   * The accessor's as-of scan (`accessor.ts`): the live rows opened by then plus the versions closed
   * since are exactly the versions live at the block, and no key comes twice.
   */
  lemma CurrentPlusDelta(h: seq<Block>, k: Key, b: nat)
    requires Ascending(h)
    ensures forall l :: LiveAt(Built(h), k, l, b) <==> InCurrent(Built(h), k, l, b) || InDelta(Built(h), k, l, b)
    ensures forall l, l' :: InCurrent(Built(h), k, l, b) ==> !InDelta(Built(h), k, l', b)
    ensures forall l, l' :: InDelta(Built(h), k, l, b) && InDelta(Built(h), k, l', b) ==> l == l'
  {
    BuiltSound(h);
    AsOfIsTheLiveVersion(Built(h), Tip(h), k, b);
    forall l ensures LiveAt(Built(h), k, l, b) <==> InCurrent(Built(h), k, l, b) || InDelta(Built(h), k, l, b) {}
    forall l, l' | InCurrent(Built(h), k, l, b) ensures !InDelta(Built(h), k, l', b) {
      assert LiveAt(Built(h), k, l, b) && (LiveAt(Built(h), k, l', b) ==> l == l');
    }
  }
}
