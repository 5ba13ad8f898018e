/**
 * Entity state as versioned rows (`state-store-indexeddb/src/store.ts`, whose `applyBlock` body
 * the spike's `packedApply` copies): a live row per key, and every version of every row with the
 * half-open range of blocks it is valid in.
 */
module RowStore {
  import opened Options

  datatype Key = Key(entity: string, id: seq<string>)

  /** A complete row: its columns, by name. */
  type Row = map<string, string>

  datatype Mutation = Upsert(key: Key, row: Row) | Delete(key: Key)

  datatype Block = Block(number: nat, hash: string, mutations: seq<Mutation>)

  datatype Live = Live(lower: nat, row: Row)

  /** `upper` is exclusive; none means live. */
  datatype Version = Version(upper: Option<nat>, row: Row)

  /** The object stores `current`, `versions` (by key and `lower`) and `blocks` (the hash by number). */
  datatype Store = Store(current: map<Key, Live>, versions: map<(Key, nat), Version>, blocks: map<nat, string>)

  const EMPTY: Store := Store(map[], map[], map[])

  // ------------------------------------------------------------------------- applying

  /** Close the live version at block `n`, then open the new one, or none. */
  function Mutated(s: Store, n: nat, m: Mutation): Store {
    var k := m.key;
    var versions := if k in s.current
                    then s.versions[(k, s.current[k].lower) := Version(Some(n), s.current[k].row)]
                    else s.versions;
    match m
    case Upsert(_, row) => s.(current := s.current[k := Live(n, row)], versions := versions[(k, n) := Version(None, row)])
    case Delete(_) => s.(current := s.current - {k}, versions := versions)
  }

  function AllMutated(s: Store, n: nat, ms: seq<Mutation>): Store {
    if ms == [] then s else Mutated(AllMutated(s, n, ms[..|ms| - 1]), n, ms[|ms| - 1])
  }

  function Applied(s: Store, b: Block): Store {
    AllMutated(s, b.number, b.mutations).(blocks := s.blocks[b.number := b.hash])
  }

  function AllApplied(s: Store, blocks: seq<Block>): Store {
    if blocks == [] then s else Applied(AllApplied(s, blocks[..|blocks| - 1]), blocks[|blocks| - 1])
  }

  /** The store a history of blocks leaves behind. */
  function Built(h: seq<Block>): Store { AllApplied(EMPTY, h) }

  /** What `applyBlock` refuses: a recorded height or hash, and a height not above the tip. */
  predicate Refuses(s: Store, b: Block) {
    b.hash in s.blocks.Values || exists n :: n in s.blocks && b.number <= n
  }

  // ------------------------------------------------------------------------ reverting

  /** The version of `k` from `l` was open at `t` and has been closed since. */
  ghost predicate ReopensAt(s: Store, k: Key, l: nat, t: nat) {
    (k, l) in s.versions && l <= t && ClosedAbove(s.versions[(k, l)], t)
  }

  ghost predicate OpenedAbove(s: Store, k: Key, t: nat) { exists l :: (k, l) in s.versions && l > t }

  /** Versions opened above `t` are gone, those closed above it are open again, and the live rows follow. */
  ghost predicate Reverted(s: Store, t: nat, out: Store) {
    && (forall v :: v in out.versions <==> v in s.versions && v.1 <= t)
    && (forall v :: v in out.versions ==> out.versions[v] == Reopened(s.versions[v], t))
    && (forall k, l :: ReopensAt(s, k, l, t) ==>
          k in out.current && ReopensAt(s, k, out.current[k].lower, t)
          && out.current[k].row == s.versions[(k, out.current[k].lower)].row)
    && (forall k :: (forall l :: !ReopensAt(s, k, l, t)) ==>
          if OpenedAbove(s, k, t) then k !in out.current
          else (k in out.current <==> k in s.current) && (k in s.current ==> out.current[k] == s.current[k]))
    && out.blocks == map n | n in s.blocks && n <= t :: s.blocks[n]
  }

  predicate ClosedAbove(v: Version, t: nat) { v.upper.Some? && v.upper.value > t }

  function Reopened(v: Version, t: nat): Version { if ClosedAbove(v, t) then v.(upper := None) else v }

  // -------------------------------------------------------------------------- reading

  /** The newest version of `k` opened at or before `at`: the as-of cursor, walked backwards. */
  function Newest(s: Store, k: Key, at: nat): (l: Option<nat>)
    ensures l.Some? ==> l.value <= at && (k, l.value) in s.versions
    ensures forall i :: (if l.Some? then l.value + 1 else 0) <= i <= at ==> (k, i) !in s.versions
  {
    if (k, at) in s.versions then Some(at) else if at == 0 then None else Newest(s, k, at - 1)
  }

  /** `getAsOf`: the newest version at the block, unless it had been closed by then. */
  function AsOf(s: Store, k: Key, at: nat): Option<Row> {
    var l := Newest(s, k, at);
    if l.None? then None
    else
      var v := s.versions[(k, l.value)];
      if v.upper.Some? && v.upper.value <= at then None else Some(v.row)
  }

  function Current(s: Store, k: Key): Option<Row> { if k in s.current then Some(s.current[k].row) else None }

  // ------------------------------------------------------------------- as it is written

  /** The live rows of `s`, but those of `put` replaced by their version closed above `t`. */
  ghost predicate PutBack(s: Store, t: nat, current: map<Key, Live>, put: map<Key, nat>) {
    && (forall k :: k in put ==> (k, put[k]) in s.versions && ClosedAbove(s.versions[(k, put[k])], t))
    && (forall k :: k in put ==> k in current && current[k] == Live(put[k], s.versions[(k, put[k])].row))
    && (forall k :: k !in put ==> (k in current <==> k in s.current) && (k in current ==> current[k] == s.current[k]))
  }

  lemma PutBackNone(s: Store, t: nat)
    ensures PutBack(s, t, s.current, map[])
  {
  }

  lemma PutBackOne(s: Store, t: nat, current: map<Key, Live>, put: map<Key, nat>, k: Key, l: nat)
    requires PutBack(s, t, current, put) && (k, l) in s.versions && ClosedAbove(s.versions[(k, l)], t)
    ensures PutBack(s, t, current[k := Live(l, s.versions[(k, l)].row)], put[k := l])
  {
  }

  /** Every version closed above `t` is open again, and its key's live row is one of those. */
  ghost predicate Reopens(s: Store, t: nat, out: Store) {
    && out.versions.Keys == s.versions.Keys
    && (forall v :: v in s.versions ==> out.versions[v] == Reopened(s.versions[v], t))
    && exists put :: PutBack(s, t, out.current, put)
         && forall v :: v in s.versions && ClosedAbove(s.versions[v], t) ==> v.0 in put
  }

  class VersionedStore {
    var current: map<Key, Live>
    var versions: map<(Key, nat), Version>
    var blocks: map<nat, string>

    function State(): Store
      reads this
    {
      Store(current, versions, blocks)
    }

    constructor ()
      ensures State() == EMPTY
    {
      current, versions, blocks := map[], map[], map[];
    }

    method Mutate(n: nat, m: Mutation)
      modifies this
      ensures State() == Mutated(old(State()), n, m)
    {
      var key := m.key;
      var live := key in current;
      if live {
        versions := versions[(key, current[key].lower) := Version(Some(n), current[key].row)];
      }
      if m.Upsert? {
        current := current[key := Live(n, m.row)];
        versions := versions[(key, n) := Version(None, m.row)];
      } else {
        if live { current := current - {key}; }
        assert current == old(current) - {key};
      }
    }

    method MutateAll(block: Block)
      modifies this
      ensures State() == Applied(old(State()), block)
    {
      ghost var before := State();
      for j := 0 to |block.mutations|
        invariant State() == AllMutated(before, block.number, block.mutations[..j])
        invariant blocks == before.blocks
      {
        Mutate(block.number, block.mutations[j]);
        assert block.mutations[..j + 1][..j] == block.mutations[..j];
      }
      assert block.mutations[..|block.mutations|] == block.mutations;
      blocks := blocks[block.number := block.hash];
    }

    /** Several blocks in one transaction, as the spike packs them. */
    method PackedApply(updates: seq<Block>)
      modifies this
      ensures State() == AllApplied(old(State()), updates)
    {
      for i := 0 to |updates|
        invariant State() == AllApplied(old(State()), updates[..i])
      {
        MutateAll(updates[i]);
        assert updates[..i + 1][..i] == updates[..i];
      }
      assert updates[..|updates|] == updates;
    }

    /** One block in one transaction, refused or applied whole. */
    method ApplyBlock(block: Block) returns (applied: bool)
      modifies this
      ensures applied == !Refuses(old(State()), block)
      ensures State() == if applied then Applied(old(State()), block) else old(State())
    {
      if block.hash in blocks.Values || exists n :: n in blocks && block.number <= n { return false; }
      MutateAll(block);
      return true;
    }

    /** Two index walks: drop what opened above `t`, then reopen what closed above it. */
    method RevertTo(t: nat)
      modifies this
      ensures Reverted(old(State()), t, State())
    {
      ghost var s := State();
      DropAbove(t);
      ghost var dropped := State();
      ReopenAbove(t);
      blocks := map n | n in blocks && n <= t :: blocks[n];
      forall k: Key, l: nat | ReopensAt(s, k, l, t)
        ensures k in current && ReopensAt(s, k, current[k].lower, t) && current[k].row == s.versions[(k, current[k].lower)].row
      {
        assert (k, l) in dropped.versions && ClosedAbove(dropped.versions[(k, l)], t);
      }
      forall k | forall l: nat :: !ReopensAt(s, k, l, t)
        ensures k in current <==> k in dropped.current
        ensures k in current ==> current[k] == dropped.current[k]
      {
        forall l | (k, l) in dropped.versions ensures !ClosedAbove(dropped.versions[(k, l)], t) {
          assert !ReopensAt(s, k, l, t);
        }
      }
    }

    /** The walk of the `lower` index above `t`. */
    method DropAbove(t: nat)
      modifies this
      ensures blocks == old(blocks)
      ensures forall v :: v in versions <==> v in old(versions) && v.1 <= t
      ensures forall v :: v in versions ==> versions[v] == old(versions)[v]
      ensures forall k :: k in current <==> k in old(current) && !OpenedAbove(old(State()), k, t)
      ensures forall k :: k in current ==> current[k] == old(current)[k]
    {
      ghost var s := State();
      var cursor := set v | v in versions.Keys && v.1 > t;
      while cursor != {}
        invariant blocks == s.blocks
        invariant forall v :: v in cursor ==> v in versions && v.1 > t
        invariant forall v :: v in versions <==> v in s.versions && (v.1 <= t || v in cursor)
        invariant forall v :: v in versions ==> versions[v] == s.versions[v]
        invariant forall k :: k in current ==> k in s.current && current[k] == s.current[k]
        invariant forall k :: k in s.current && k !in current ==> OpenedAbove(s, k, t)
        invariant forall v :: v in s.versions && v.1 > t && v !in cursor ==> v.0 !in current
        decreases cursor
      {
        var v :| v in cursor;
        assert (v.0, v.1) == v;
        assert OpenedAbove(s, v.0, t);
        current := current - {v.0};
        versions := versions - {v};
        cursor := cursor - {v};
      }
      forall k | k in current ensures !OpenedAbove(s, k, t) {
        assert forall l :: (k, l) in s.versions && l > t ==> (k, l).0 !in current;
      }
    }

    /** The walk of the `upper` index above `t`. */
    method ReopenAbove(t: nat)
      modifies this
      ensures blocks == old(blocks)
      ensures Reopens(old(State()), t, State())
    {
      ghost var s := State();
      ghost var put: map<Key, nat> := map[];
      hide PutBack;
      PutBackNone(s, t);
      var cursor := set v | v in versions.Keys && ClosedAbove(versions[v], t);
      while cursor != {}
        invariant blocks == s.blocks && versions.Keys == s.versions.Keys
        invariant forall v :: v in cursor ==> v in s.versions && ClosedAbove(s.versions[v], t)
        invariant forall v :: v in s.versions ==> versions[v] == if v in cursor then s.versions[v] else Reopened(s.versions[v], t)
        invariant forall v :: v in s.versions && v !in cursor && ClosedAbove(s.versions[v], t) ==> v.0 in put
        invariant PutBack(s, t, current, put)
        decreases cursor
      {
        var v :| v in cursor;
        assert (v.0, v.1) == v;
        PutBackOne(s, t, current, put, v.0, v.1);
        put := put[v.0 := v.1];
        current := current[v.0 := Live(v.1, versions[v].row)];
        versions := versions[v := versions[v].(upper := None)];
        cursor := cursor - {v};
      }
    }
  }
}
