/**
 * The counters a replay keeps beside the store (`predictorTracker` and `revertCounts` of the
 * spike's `measure.ts`), against the store they are meant to describe.
 */
module RowCounters {
  import opened Options
  import opened RowStore
  import opened RowHistory
  import SB = StagedBlock
  import opened WriteHistory

  datatype Predictors = Predictors(mutations: nat, upserts: nat, closes: nat, versionsBefore: nat)

  /** The versions a block's mutations open, one for each upsert, in order. */
  function Opens(n: nat, ms: seq<Mutation>): seq<(Key, nat)> {
    if ms == [] then []
    else
      var m := ms[|ms| - 1];
      Opens(n, ms[..|ms| - 1]) + if m.Upsert? then [(m.key, n)] else []
  }

  function Upserts(h: seq<Block>): seq<(Key, nat)> {
    if h == [] then []
    else Upserts(h[..|h| - 1]) + Opens(h[|h| - 1].number, h[|h| - 1].mutations)
  }

  ghost predicate UpsertsEachOnce(ms: seq<Mutation>) {
    forall i, j :: 0 <= i < j < |ms| && ms[i].Upsert? && ms[j].Upsert? ==> ms[i].key != ms[j].key
  }

  ghost predicate OncePerBlock(h: seq<Block>) {
    forall i :: 0 <= i < |h| ==> UpsertsEachOnce(h[i].mutations)
  }

  // -------------------------------------------------------------------- counting

  ghost predicate Distinct<T>(s: seq<T>) { forall i, j :: 0 <= i < j < |s| ==> s[i] != s[j] }

  /** A list has as many members as entries exactly when none repeats. */
  lemma {:induction false} MembersOf<T>(s: seq<T>, members: set<T>)
    requires forall x :: x in members <==> x in s
    ensures |members| <= |s|
    ensures |members| == |s| <==> Distinct(s)
  {
    if s != [] {
      var front, x := s[..|s| - 1], s[|s| - 1];
      assert s == front + [x];
      if x in front {
        MembersOf(front, members);
      } else {
        MembersOf(front, members - {x});
        assert Distinct(s) ==> Distinct(front);
      }
    } else {
      assert members == {};
    }
  }

  /** One range a key: as many ranges as keys. */
  lemma {:induction false} OneEach<K, L>(ranges: set<(K, L)>, keys: set<K>)
    requires forall k: K, l: L :: (k, l) in ranges ==> k in keys
    requires forall k :: k in keys ==> exists l: L :: (k, l) in ranges
    requires forall k: K, l: L, l': L :: (k, l) in ranges && (k, l') in ranges ==> l == l'
    ensures |ranges| == |keys|
    decreases keys
  {
    if ranges == {} {
      assert keys == {};
    } else {
      var v :| v in ranges;
      var (k, l) := v;
      assert (k, l) in ranges;
      forall k' | k' in keys - {k} ensures exists l': L :: (k', l') in ranges - {(k, l)} {
        var l': L :| (k', l') in ranges;
        assert (k', l') in ranges - {(k, l)};
      }
      OneEach(ranges - {(k, l)}, keys - {k});
    }
  }

  // ------------------------------------------------------- the versions there are

  lemma {:induction false} OpensMember(n: nat, ms: seq<Mutation>, v: (Key, nat))
    ensures v in Opens(n, ms) <==> exists j :: 0 <= j < |ms| && ms[j].Upsert? && v == (ms[j].key, n)
  {
    if ms != [] {
      OpensMember(n, ms[..|ms| - 1], v);
      if j :| 0 <= j < |ms| && ms[j].Upsert? && v == (ms[j].key, n) {
        assert j < |ms| - 1 ==> ms[..|ms| - 1][j] == ms[j];
      }
    }
  }

  lemma {:induction false} UpsertsMember(h: seq<Block>, v: (Key, nat)) returns (i: nat)
    requires v in Upserts(h)
    ensures i < |h| && v in Opens(h[i].number, h[i].mutations)
  {
    i := |h| - 1;
    if v !in Opens(h[i].number, h[i].mutations) { i := UpsertsMember(h[..|h| - 1], v); }
  }

  lemma {:induction false} UpsertsHasMember(h: seq<Block>, v: (Key, nat), i: nat)
    requires i < |h| && v in Opens(h[i].number, h[i].mutations)
    ensures v in Upserts(h)
  {
    if i < |h| - 1 { UpsertsHasMember(h[..|h| - 1], v, i); }
  }

  /** The versions stored are those some upsert opened, whether or not it opened them twice. */
  lemma {:induction false} AllMutatedVersions(s: Store, plain: Plain, n: nat, ms: seq<Mutation>, v: (Key, nat))
    requires CurrentSound(s, plain) && RangesSound(s, n)
    ensures v in AllMutated(s, n, ms).versions <==> v in s.versions || v in Opens(n, ms)
  {
    if ms != [] {
      var before := ms[..|ms| - 1];
      AllMutatedVersions(s, plain, n, before, v);
      AllMutatedSound(s, plain, n, before);
    }
  }

  lemma {:induction false} BuiltVersions(h: seq<Block>, v: (Key, nat))
    requires Ascending(h)
    ensures v in Built(h).versions <==> v in Upserts(h)
  {
    if h != [] {
      var before, b := h[..|h| - 1], h[|h| - 1];
      BuiltVersions(before, v);
      BuiltSound(before);
      RangesWiden(Built(before), Tip(before), b.number);
      AllMutatedVersions(Built(before), Replay(before), b.number, b.mutations, v);
    }
  }

  // ------------------------------------------------- when an upsert opens one of its own

  lemma {:induction false} OpensDistinct(n: nat, ms: seq<Mutation>)
    ensures Distinct(Opens(n, ms)) <==> UpsertsEachOnce(ms)
  {
    if ms != [] {
      var before, m := ms[..|ms| - 1], ms[|ms| - 1];
      OpensDistinct(n, before);
      OpensMember(n, before, (m.key, n));
      if m.Upsert? {
        DistinctSum(Opens(n, before), [(m.key, n)]);
        assert (forall v :: v in Opens(n, before) ==> v !in [(m.key, n)]) <==> (m.key, n) !in Opens(n, before);
        assert (m.key, n) in Opens(n, before) <==> exists j :: 0 <= j < |before| && before[j].Upsert? && before[j].key == m.key;
      }
      assert Opens(n, ms) == if m.Upsert? then Opens(n, before) + [(m.key, n)] else Opens(n, before);
      assert ms == before + [m];
      assert UpsertsEachOnce(ms) <==> UpsertsEachOnce(before) && (m.Upsert? ==>
        forall j :: 0 <= j < |before| && before[j].Upsert? ==> before[j].key != m.key);
    }
  }

  lemma DistinctSum<T>(a: seq<T>, b: seq<T>)
    ensures Distinct(a + b) <==> Distinct(a) && Distinct(b) && forall x :: x in a ==> x !in b
  {
    var s := a + b;
    if Distinct(s) {
      forall i, j | 0 <= i < j < |a| ensures a[i] != a[j] { assert s[i] != s[j]; }
      forall i, j | 0 <= i < j < |b| ensures b[i] != b[j] { assert s[|a| + i] != s[|a| + j]; }
      forall i, j | 0 <= i < |a| && 0 <= j < |b| ensures a[i] != b[j] { assert s[i] != s[|a| + j]; }
    } else {
      var i, j :| 0 <= i < j < |s| && s[i] == s[j];
      if i < |a| <= j { assert a[i] in a && b[j - |a|] in b; }
    }
  }

  lemma OpensApart(before: seq<Block>, b: Block, v: (Key, nat))
    requires v in Upserts(before) && forall i :: 0 <= i < |before| ==> before[i].number < b.number
    ensures v !in Opens(b.number, b.mutations)
  {
    var i := UpsertsMember(before, v);
    OpensMember(before[i].number, before[i].mutations, v);
    OpensMember(b.number, b.mutations, v);
  }

  lemma {:induction false} UpsertsDistinct(h: seq<Block>)
    requires Ascending(h)
    ensures Distinct(Upserts(h)) <==> OncePerBlock(h)
  {
    if h != [] {
      var before, b := h[..|h| - 1], h[|h| - 1];
      UpsertsDistinct(before);
      OpensDistinct(b.number, b.mutations);
      DistinctSum(Upserts(before), Opens(b.number, b.mutations));
      forall v | v in Upserts(before) ensures v !in Opens(b.number, b.mutations) { OpensApart(before, b, v); }
      OnceSplit(h);
    }
  }

  lemma OnceSplit(h: seq<Block>)
    requires h != []
    ensures OncePerBlock(h) <==> OncePerBlock(h[..|h| - 1]) && UpsertsEachOnce(h[|h| - 1].mutations)
  {
    hide UpsertsEachOnce;
    assert h == h[..|h| - 1] + [h[|h| - 1]];
  }

  // ---------------------------------------------------------------- what a revert touches

  /** The versions a revert to `t` reopens. */
  function ReopenedBy(s: Store, t: nat): set<(Key, nat)> {
    set v | v in s.versions && v.1 <= t && ClosedAbove(s.versions[v], t)
  }

  ghost predicate KeysReopened(s: Store, t: nat, keys: set<Key>) {
    forall k :: k in keys <==> exists l :: ReopensAt(s, k, l, t)
  }

  /** A mutation above the target reopens its key's version when that was open at the target. */
  function AlsoReopens(s: Store, t: nat, n: nat, m: Mutation): bool {
    n > t && m.key in s.current && s.current[m.key].lower <= t
  }

  lemma MutatedReopensAt(s: Store, plain: Plain, n: nat, m: Mutation, t: nat, k: Key, l: nat)
    requires CurrentSound(s, plain) && RangesSound(s, n)
    ensures ReopensAt(Mutated(s, n, m), k, l, t)
            <==> ReopensAt(s, k, l, t) || (k == m.key && AlsoReopens(s, t, n, m) && l == s.current[k].lower)
  {
  }

  lemma MutatedReopens(s: Store, plain: Plain, n: nat, m: Mutation, t: nat, keys: set<Key>)
    requires CurrentSound(s, plain) && RangesSound(s, n) && KeysReopened(s, t, keys)
    ensures KeysReopened(Mutated(s, n, m), t, if AlsoReopens(s, t, n, m) then keys + {m.key} else keys)
  {
    var after := Mutated(s, n, m);
    forall k, l ensures ReopensAt(after, k, l, t)
                        <==> ReopensAt(s, k, l, t) || (k == m.key && AlsoReopens(s, t, n, m) && l == s.current[k].lower) {
      MutatedReopensAt(s, plain, n, m, t, k, l);
    }
    if AlsoReopens(s, t, n, m) { assert ReopensAt(after, m.key, s.current[m.key].lower, t); }
  }

  lemma BuiltReopens(h: seq<Block>, t: nat, keys: set<Key>)
    requires Ascending(h) && KeysReopened(Built(h), t, keys)
    ensures |keys| == |ReopenedBy(Built(h), t)|
  {
    var s := Built(h);
    BuiltSound(h);
    AllLiveOnce(s, Tip(h), t);
    var ranges := ReopenedBy(s, t);
    forall k, l: nat ensures (k, l) in ranges <==> ReopensAt(s, k, l, t) {}
    OneEach(ranges, keys);
  }

  lemma AllLiveOnce(s: Store, n: nat, t: nat)
    requires RangesSound(s, n)
    ensures forall k, l, l' :: ReopensAt(s, k, l, t) && ReopensAt(s, k, l', t) ==> l == l'
  {
    forall k, l, l' | ReopensAt(s, k, l, t) && ReopensAt(s, k, l', t) ensures l == l' {
      AsOfIsTheLiveVersion(s, n, k, t);
      assert LiveAt(s, k, l, t) && LiveAt(s, k, l', t);
    }
  }

  /** `openedAt` says of each live key which block opened its live version. */
  ghost predicate OpenedAtIs(openedAt: map<Key, nat>, s: Store, h: seq<Block>) {
    && openedAt.Keys == s.current.Keys
    && forall k :: k in openedAt ==> openedAt[k] < |h| && h[openedAt[k]].number == s.current[k].lower
  }

  /** What the walk knows at a store: where each live version was opened, and which keys the revert reopens. */
  ghost predicate Tally(h: seq<Block>, toBlockIndex: int, s: Store, openedAt: map<Key, nat>, reopened: set<Key>)
    requires toBlockIndex < |h|
  {
    && OpenedAtIs(openedAt, s, h)
    && if toBlockIndex < 0 then reopened == {} else KeysReopened(s, h[toBlockIndex].number, reopened)
  }

  /** The store after the first `index` blocks and the first `j` mutations of the next. */
  function StoreAt(h: seq<Block>, index: nat, j: nat): Store
    requires index < |h| && j <= |h[index].mutations|
  {
    AllMutated(Built(h[..index]), h[index].number, h[index].mutations[..j])
  }

  /** How many upserts the walk has met there. */
  function UpsertsAt(h: seq<Block>, index: nat, j: nat): nat
    requires index < |h| && j <= |h[index].mutations|
  {
    |Upserts(h[..index])| + |Opens(h[index].number, h[index].mutations[..j])|
  }

  lemma UpsertsAtNext(h: seq<Block>, index: nat, j: nat)
    requires index < |h| && j < |h[index].mutations|
    ensures UpsertsAt(h, index, j + 1) == UpsertsAt(h, index, j) + if h[index].mutations[j].Upsert? then 1 else 0
  {
    assert h[index].mutations[..j + 1][..j] == h[index].mutations[..j];
  }

  lemma StoreAtSound(h: seq<Block>, index: nat, j: nat) returns (plain: Plain)
    requires Ascending(h) && index < |h| && j <= |h[index].mutations|
    ensures CurrentSound(StoreAt(h, index, j), plain) && RangesSound(StoreAt(h, index, j), h[index].number)
  {
    BuiltSound(h[..index]);
    RangesWiden(Built(h[..index]), Tip(h[..index]), h[index].number);
    AllMutatedSound(Built(h[..index]), Replay(h[..index]), h[index].number, h[index].mutations[..j]);
    plain := ReplayedAll(Replay(h[..index]), h[index].mutations[..j]);
  }

  function OpenedAtAfter(openedAt: map<Key, nat>, index: nat, m: Mutation): map<Key, nat> {
    if m.Upsert? then openedAt[m.key := index] else openedAt - {m.key}
  }

  lemma OpenedAtOne(openedAt: map<Key, nat>, s: Store, h: seq<Block>, index: nat, m: Mutation)
    requires index < |h| && OpenedAtIs(openedAt, s, h)
    ensures OpenedAtIs(OpenedAtAfter(openedAt, index, m), Mutated(s, h[index].number, m), h)
  {
  }

  /** Told by block index, as the walk does, and told by block number. */
  lemma AlsoReopensByIndex(openedAt: map<Key, nat>, s: Store, h: seq<Block>, toBlockIndex: nat, index: nat, m: Mutation)
    requires Ascending(h) && toBlockIndex < |h| && index < |h| && OpenedAtIs(openedAt, s, h)
    ensures AlsoReopens(s, h[toBlockIndex].number, h[index].number, m)
            <==> index > toBlockIndex && m.key in openedAt && openedAt[m.key] <= toBlockIndex
  {
  }

  lemma TallyOne(h: seq<Block>, toBlockIndex: int, openedAt: map<Key, nat>, reopened: set<Key>, index: nat, j: nat)
    requires Ascending(h) && toBlockIndex < |h| && index < |h| && j < |h[index].mutations|
    requires Tally(h, toBlockIndex, StoreAt(h, index, j), openedAt, reopened)
    ensures
      var m := h[index].mutations[j];
      Tally(h, toBlockIndex, StoreAt(h, index, j + 1), OpenedAtAfter(openedAt, index, m),
            if index > toBlockIndex && m.key in openedAt && openedAt[m.key] <= toBlockIndex
            then reopened + {m.key} else reopened)
  {
    var s, ms, m := StoreAt(h, index, j), h[index].mutations, h[index].mutations[j];
    assert StoreAt(h, index, j + 1) == Mutated(s, h[index].number, m) by { assert ms[..j + 1][..j] == ms[..j]; }
    OpenedAtOne(openedAt, s, h, index, m);
    if toBlockIndex >= 0 {
      AlsoReopensByIndex(openedAt, s, h, toBlockIndex, index, m);
      ReopensOne(h, index, j, h[toBlockIndex].number, reopened);
    }
  }

  lemma ReopensOne(h: seq<Block>, index: nat, j: nat, t: nat, keys: set<Key>)
    requires Ascending(h) && index < |h| && j < |h[index].mutations| && KeysReopened(StoreAt(h, index, j), t, keys)
    ensures
      var s, m := StoreAt(h, index, j), h[index].mutations[j];
      KeysReopened(Mutated(s, h[index].number, m), t, if AlsoReopens(s, t, h[index].number, m) then keys + {m.key} else keys)
  {
    var plain := StoreAtSound(h, index, j);
    MutatedReopens(StoreAt(h, index, j), plain, h[index].number, h[index].mutations[j], t, keys);
  }

  lemma SameVersions(s: Store, s': Store, t: nat, keys: set<Key>)
    requires KeysReopened(s, t, keys) && s.versions == s'.versions
    ensures KeysReopened(s', t, keys)
  {
    forall k, l ensures ReopensAt(s', k, l, t) <==> ReopensAt(s, k, l, t) {}
  }

  lemma TallyBlock(h: seq<Block>, toBlockIndex: int, openedAt: map<Key, nat>, reopened: set<Key>, index: nat)
    requires toBlockIndex < |h| && index < |h|
    requires Tally(h, toBlockIndex, StoreAt(h, index, |h[index].mutations|), openedAt, reopened)
    ensures Tally(h, toBlockIndex, Built(h[..index + 1]), openedAt, reopened)
    ensures |Upserts(h[..index + 1])| == UpsertsAt(h, index, |h[index].mutations|)
  {
    var ms := h[index].mutations;
    var s := StoreAt(h, index, |ms|);
    assert ms[..|ms|] == ms && h[..index + 1][..index] == h[..index];
    assert Built(h[..index + 1]) == s.(blocks := Built(h[..index]).blocks[h[index].number := h[index].hash]);
    if toBlockIndex >= 0 { SameVersions(s, Built(h[..index + 1]), h[toBlockIndex].number, reopened); }
  }

  lemma TallyStart(h: seq<Block>, toBlockIndex: int, openedAt: map<Key, nat>, reopened: set<Key>, index: nat)
    requires toBlockIndex < |h| && index < |h| && Tally(h, toBlockIndex, Built(h[..index]), openedAt, reopened)
    ensures Tally(h, toBlockIndex, StoreAt(h, index, 0), openedAt, reopened)
    ensures UpsertsAt(h, index, 0) == |Upserts(h[..index])|
  {
  }

  lemma TallyNothing(h: seq<Block>, toBlockIndex: int)
    requires toBlockIndex < |h|
    ensures Tally(h, toBlockIndex, Built(h[..0]), map[], {}) && |Upserts(h[..0])| == 0
  {
  }

  lemma TallyDone(h: seq<Block>, toBlockIndex: int, openedAt: map<Key, nat>, reopened: set<Key>)
    requires Ascending(h) && toBlockIndex < |h| && Tally(h, toBlockIndex, Built(h), openedAt, reopened)
    ensures |reopened| == if toBlockIndex < 0 then 0 else |ReopenedBy(Built(h), h[toBlockIndex].number)|
  {
    if toBlockIndex >= 0 { BuiltReopens(h, h[toBlockIndex].number, reopened); }
  }

  method RevertCounts(h: seq<Block>, toBlockIndex: int)
    returns (versionsDeleted: nat, versionsReopened: nat, versionsBefore: nat)
    requires Ascending(h) && -1 <= toBlockIndex < |h|
    ensures versionsBefore == |Upserts(h)|
    ensures versionsDeleted == |Upserts(h)| - |Upserts(h[..toBlockIndex + 1])|
    ensures versionsReopened == if toBlockIndex < 0 then 0 else |ReopenedBy(Built(h), h[toBlockIndex].number)|
  {
    hide Tally, StoreAt, Built, Upserts, UpsertsAt;
    var openedAt: map<Key, nat> := map[];
    var reopened: set<Key> := {};
    TallyNothing(h, toBlockIndex);
    versionsDeleted, versionsBefore := 0, 0;
    ghost var kept := |Upserts(h[..toBlockIndex + 1])|;
    for index := 0 to |h|
      invariant versionsBefore == |Upserts(h[..index])|
      invariant versionsDeleted == if index <= toBlockIndex + 1 then 0 else versionsBefore - kept
      invariant Tally(h, toBlockIndex, Built(h[..index]), openedAt, reopened)
    {
      var mutations := h[index].mutations;
      TallyStart(h, toBlockIndex, openedAt, reopened, index);
      for j := 0 to |mutations|
        invariant versionsBefore == UpsertsAt(h, index, j)
        invariant versionsDeleted == if index <= toBlockIndex then 0 else versionsBefore - kept
        invariant Tally(h, toBlockIndex, StoreAt(h, index, j), openedAt, reopened)
      {
        var m := mutations[j];
        UpsertsAtNext(h, index, j);
        TallyOne(h, toBlockIndex, openedAt, reopened, index, j);
        if index > toBlockIndex && m.key in openedAt && openedAt[m.key] <= toBlockIndex {
          reopened := reopened + {m.key};
        }
        if m.Upsert? {
          openedAt := openedAt[m.key := index];
          versionsBefore := versionsBefore + 1;
          if index > toBlockIndex { versionsDeleted := versionsDeleted + 1; }
        } else {
          openedAt := openedAt - {m.key};
        }
      }
      TallyBlock(h, toBlockIndex, openedAt, reopened, index);
    }
    assert h[..|h|] == h;
    TallyDone(h, toBlockIndex, openedAt, reopened);
    versionsReopened := |reopened|;
  }

  // ---------------------------------------------------------------------- exactness

  lemma PrefixOnce(h: seq<Block>, i: nat)
    requires i <= |h|
    ensures OncePerBlock(h) <==> OncePerBlock(h[..i]) && OncePerBlock(h[i..])
  {
    assert h == h[..i] + h[i..];
  }

  /** The version count is right exactly when no block upserts a key twice, and never short. */
  lemma VersionsBeforeIsExactly(h: seq<Block>)
    requires Ascending(h)
    ensures |Built(h).versions| <= |Upserts(h)|
    ensures |Built(h).versions| == |Upserts(h)| <==> OncePerBlock(h)
  {
    forall v ensures v in Built(h).versions.Keys <==> v in Upserts(h) { BuiltVersions(h, v); }
    MembersOf(Upserts(h), Built(h).versions.Keys);
    UpsertsDistinct(h);
  }

  /** One block writing one key twice: two upserts counted, one version stored. */
  lemma TwiceInABlockCountsTwo(k: Key, row: Row, hash: string)
    ensures
      var h := [Block(1, hash, [Upsert(k, row), Upsert(k, row)])];
      |Built(h).versions| == 1 && |Upserts(h)| == 2
  {
    var ms := [Upsert(k, row), Upsert(k, row)];
    var h := [Block(1, hash, ms)];
    assert ms[..1] == [Upsert(k, row)] && ms[..1][..0] == [] && h[..0] == [];
    assert Opens(1, ms) == Opens(1, ms[..1]) + [(k, 1)];
    assert AllMutated(EMPTY, 1, ms) == Mutated(AllMutated(EMPTY, 1, ms[..1]), 1, ms[1]);
    assert AllMutated(EMPTY, 1, ms[..1]) == Mutated(AllMutated(EMPTY, 1, []), 1, ms[0]);
    assert AllMutated(EMPTY, 1, ms).versions == map[(k, 1) := Version(None, row)];
    assert AllApplied(EMPTY, h[..0]) == EMPTY;
    assert Built(h) == Applied(EMPTY, h[0]);
    assert |Upserts(h)| == |Upserts([])| + |Opens(1, ms)|;
    assert |Opens(1, ms[..1])| == |Opens(1, [])| + 1;
  }

  lemma UpsertsNext(h: seq<Block>, b: Block)
    ensures Upserts(h + [b]) == Upserts(h) + Opens(b.number, b.mutations)
  {
    assert (h + [b])[..|h|] == h;
  }

  lemma {:induction false} UpsertsSum(a: seq<Block>, b: seq<Block>)
    ensures |Upserts(a + b)| == |Upserts(a)| + |Upserts(b)|
  {
    if b == [] {
      assert a + b == a;
    } else {
      UpsertsSum(a, b[..|b| - 1]);
      assert (a + b)[..|a + b| - 1] == a + b[..|b| - 1];
    }
  }

  /** The versions opened above the target: the deleted ones. */
  lemma OpenedAboveTarget(h: seq<Block>, i: nat, v: (Key, nat))
    requires Ascending(h) && i < |h|
    ensures v in Built(h).versions && v.1 > h[i].number <==> v in Upserts(h[i + 1..])
  {
    BuiltVersions(h, v);
    if v in Upserts(h) && v.1 > h[i].number {
      var k := UpsertsMember(h, v);
      OpensMember(h[k].number, h[k].mutations, v);
      assert h[i + 1..][k - i - 1] == h[k];
      UpsertsHasMember(h[i + 1..], v, k - i - 1);
    }
    if v in Upserts(h[i + 1..]) {
      var k := UpsertsMember(h[i + 1..], v);
      OpensMember(h[i + 1 + k].number, h[i + 1 + k].mutations, v);
      UpsertsHasMember(h, v, i + 1 + k);
    }
  }

  lemma DeletedIsExactly(h: seq<Block>, i: nat, gone: set<(Key, nat)>)
    requires Ascending(h) && i < |h|
    requires forall v :: v in gone <==> v in Built(h).versions && v.1 > h[i].number
    ensures |gone| <= |Upserts(h)| - |Upserts(h[..i + 1])|
    ensures |gone| == |Upserts(h)| - |Upserts(h[..i + 1])| <==> OncePerBlock(h[i + 1..])
  {
    forall v ensures v in gone <==> v in Upserts(h[i + 1..]) { OpenedAboveTarget(h, i, v); }
    UpsertsSum(h[..i + 1], h[i + 1..]);
    assert h == h[..i + 1] + h[i + 1..];
    UpsertsDistinct(h[i + 1..]);
    MembersOf(Upserts(h[i + 1..]), gone);
  }

  lemma RevertedChanges(s: Store, t: nat, out: Store)
    requires Reverted(s, t, out)
    ensures forall v :: v in s.versions.Keys - out.versions.Keys <==> v in s.versions && v.1 > t
    ensures ReopenedBy(s, t) == set v | v in out.versions && out.versions[v] != s.versions[v]
  {
  }

  lemma Difference<T>(a: set<T>, b: set<T>)
    requires b <= a
    ensures |a - b| == |a| - |b|
  {
    assert a == (a - b) + b;
  }

  /**
   * Against the revert itself, `out`: the deleted count is the number of versions that are gone
   * exactly when no block above the target upserts a key twice; the reopened count always is the
   * number of versions that changed.
   */
  lemma RevertCountsAreExactly(h: seq<Block>, i: nat, out: Store)
    requires Ascending(h) && i < |h| && Reverted(Built(h), h[i].number, out)
    ensures out.versions.Keys <= Built(h).versions.Keys
    ensures |Built(h).versions| - |out.versions| <= |Upserts(h)| - |Upserts(h[..i + 1])|
    ensures |Built(h).versions| - |out.versions| == |Upserts(h)| - |Upserts(h[..i + 1])| <==> OncePerBlock(h[i + 1..])
    ensures ReopenedBy(Built(h), h[i].number) == set v | v in out.versions && out.versions[v] != Built(h).versions[v]
  {
    RevertedChanges(Built(h), h[i].number, out);
    Difference(Built(h).versions.Keys, out.versions.Keys);
    DeletedIsExactly(h, i, Built(h).versions.Keys - out.versions.Keys);
  }

  // ---------------------------------------------------- blocks flushed by a staging area

  /** Blocks flushed from a staging area are counted right, whatever their handlers wrote. */
  lemma FlushedBlocksCountExactly(h: seq<Block>, wrote: seq<seq<RowWrite>>, i: nat, out: Store)
    requires Ascending(h) && Flushed(h, wrote)
    requires i < |h| && Reverted(Built(h), h[i].number, out)
    ensures |Built(h).versions| == |Upserts(h)|
    ensures |Built(h).versions| - |out.versions| == |Upserts(h)| - |Upserts(h[..i + 1])|
  {
    forall j | 0 <= j < |h| ensures UpsertsEachOnce(h[j].mutations) {
      SB.FlushMeansWhatWasWritten(map[], wrote[j]);
      var ws := SB.CoalescedAll(wrote[j]);
      assert forall k :: 0 <= k < |ws| ==> h[j].mutations[k].key == ws[k].key;
    }
    PrefixOnce(h, i + 1);
    VersionsBeforeIsExactly(h);
    RevertCountsAreExactly(h, i, out);
  }

  // ------------------------------------------------------------------- the predictors

  /** A mutation closes a version when its key is live, and the live rows stay in balance. */
  lemma LiveBalance(s: Store, n: nat, ms: seq<Mutation>, i: nat)
    requires i < |ms|
    ensures
      var live, next := AllMutated(s, n, ms[..i]).current.Keys, AllMutated(s, n, ms[..i + 1]).current.Keys;
      && next == (if ms[i].Upsert? then live + {ms[i].key} else live - {ms[i].key})
      && |next| == |live| + (if ms[i].Upsert? then 1 else 0) - (if ms[i].key in live then 1 else 0)
      && |Opens(n, ms[..i + 1])| == |Opens(n, ms[..i])| + (if ms[i].Upsert? then 1 else 0)
  {
    assert ms[..i + 1][..i] == ms[..i];
    var live := AllMutated(s, n, ms[..i]).current.Keys;
    assert ms[i].key in live ==> live == (live - {ms[i].key}) + {ms[i].key};
    assert ms[i].key !in live ==> live == live - {ms[i].key};
  }

  lemma BlockNext(h: seq<Block>, b: Block)
    ensures Built(h + [b]).current == AllMutated(Built(h), b.number, b.mutations[..|b.mutations|]).current
    ensures |Upserts(h + [b])| == |Upserts(h)| + |Opens(b.number, b.mutations[..|b.mutations|])|
  {
    UpsertsNext(h, b);
    assert b.mutations[..|b.mutations|] == b.mutations && (h + [b])[..|h|] == h;
  }

  class PredictorTracker {
    var live: set<Key>
    var versions: nat

    /** The tracker after the blocks of `h`. */
    ghost predicate Follows(h: seq<Block>)
      reads this
    {
      live == Built(h).current.Keys && versions == |Upserts(h)|
    }

    constructor ()
      ensures Follows([])
    {
      live, versions := {}, 0;
    }

    /** `closes` is what keeps the live rows in balance: each upsert adds one unless it, like a delete, closes one. */
    method Track(ghost h: seq<Block>, b: Block) returns (p: Predictors)
      requires Follows(h)
      modifies this
      ensures Follows(h + [b])
      ensures p.mutations == |b.mutations| && p.upserts == |Upserts(h + [b])| - |Upserts(h)|
      ensures p.versionsBefore == old(versions) == |Upserts(h)|
      ensures p.closes == |Built(h).current| + p.upserts - |Built(h + [b]).current|
    {
      var versionsBefore, closes, upserts := versions, 0, 0;
      ghost var s := Built(h);
      for i := 0 to |b.mutations|
        invariant versions == versionsBefore
        invariant live == AllMutated(s, b.number, b.mutations[..i]).current.Keys
        invariant upserts == |Opens(b.number, b.mutations[..i])|
        invariant closes == |s.current.Keys| + upserts - |live|
      {
        var mutation := b.mutations[i];
        LiveBalance(s, b.number, b.mutations, i);
        if mutation.key in live { closes := closes + 1; }
        if mutation.Upsert? {
          upserts := upserts + 1;
          live := live + {mutation.key};
        } else {
          live := live - {mutation.key};
        }
      }
      BlockNext(h, b);
      versions := versions + upserts;
      p := Predictors(|b.mutations|, upserts, closes, versionsBefore);
    }
  }
}
