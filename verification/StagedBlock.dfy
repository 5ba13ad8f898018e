/**
 * The write surface a handler gets for one block (`state-store/src/mutation-context.ts`): writes
 * are staged and coalesced by key, reads see them, and what is flushed means what was written.
 */
module StagedBlock {
  import opened Options

  datatype Write<K, V> = Put(key: K, row: V) | Drop(key: K)

  function Written<K(==), V>(rows: map<K, V>, w: Write<K, V>): map<K, V> {
    match w
    case Put(k, row) => rows[k := row]
    case Drop(k) => rows - {k}
  }

  function AllWritten<K(==), V>(rows: map<K, V>, ws: seq<Write<K, V>>): map<K, V> {
    if ws == [] then rows else Written(AllWritten(rows, ws[..|ws| - 1]), ws[|ws| - 1])
  }

  ghost predicate OnePerKey<K, V>(ws: seq<Write<K, V>>) {
    forall i, j :: 0 <= i < j < |ws| ==> ws[i].key != ws[j].key
  }

  /** The staged write of a key, if there is one: there is at most one. */
  function Staged<K(==), V>(ws: seq<Write<K, V>>, k: K): (i: Option<nat>)
    ensures i.Some? ==> i.value < |ws| && ws[i.value].key == k
    ensures i.None? ==> forall j :: 0 <= j < |ws| ==> ws[j].key != k
  {
    if ws == [] then None
    else if ws[|ws| - 1].key == k then Some(|ws| - 1)
    else Staged(ws[..|ws| - 1], k)
  }

  /** A `Map` keeps a key where it was first set. */
  function Coalesced<K(==), V>(ws: seq<Write<K, V>>, w: Write<K, V>): seq<Write<K, V>> {
    var i := Staged(ws, w.key);
    if i.Some? then ws[i.value := w] else ws + [w]
  }

  function CoalescedAll<K(==), V>(ws: seq<Write<K, V>>): seq<Write<K, V>> {
    if ws == [] then [] else Coalesced(CoalescedAll(ws[..|ws| - 1]), ws[|ws| - 1])
  }

  // ------------------------------------------------------------------ what is meant

  /** With one write a key, the staged write alone decides the key's row. */
  lemma {:induction false} RowAfter<K, V>(rows: map<K, V>, ws: seq<Write<K, V>>, k: K)
    requires OnePerKey(ws)
    ensures
      var after, i := AllWritten(rows, ws), Staged(ws, k);
      if i.None? then (k in after <==> k in rows) && (k in rows ==> after[k] == rows[k])
      else (k in after <==> ws[i.value].Put?) && (ws[i.value].Put? ==> after[k] == ws[i.value].row)
  {
    if ws != [] { RowAfter(rows, ws[..|ws| - 1], k); }
  }

  lemma CoalescedKeys<K, V>(ws: seq<Write<K, V>>, w: Write<K, V>)
    requires OnePerKey(ws)
    ensures OnePerKey(Coalesced(ws, w))
  {
  }

  lemma SameKeyOverrides<K, V>(rows: map<K, V>, v: Write<K, V>, w: Write<K, V>)
    requires v.key == w.key
    ensures Written(Written(rows, v), w) == Written(rows, w)
  {
  }

  lemma OtherKeysCommute<K, V>(rows: map<K, V>, v: Write<K, V>, w: Write<K, V>)
    requires v.key != w.key
    ensures Written(Written(rows, v), w) == Written(Written(rows, w), v)
  {
  }

  lemma AppendedMeans<K, V>(rows: map<K, V>, ws: seq<Write<K, V>>, w: Write<K, V>)
    ensures AllWritten(rows, ws + [w]) == Written(AllWritten(rows, ws), w)
  {
    assert (ws + [w])[..|ws|] == ws;
  }

  /** Staging one write more is writing it last, wherever its key was first staged. */
  lemma {:induction false} CoalescedMeans<K, V>(rows: map<K, V>, ws: seq<Write<K, V>>, w: Write<K, V>)
    requires OnePerKey(ws)
    ensures AllWritten(rows, Coalesced(ws, w)) == Written(AllWritten(rows, ws), w)
  {
    hide Written;
    if Staged(ws, w.key).None? {
      AppendedMeans(rows, ws, w);
    } else {
      var front, last := ws[..|ws| - 1], ws[|ws| - 1];
      assert ws == front + [last];
      AppendedMeans(rows, front, last);
      if last.key == w.key {
        assert Coalesced(ws, w) == front + [w];
        AppendedMeans(rows, front, w);
        SameKeyOverrides(AllWritten(rows, front), last, w);
      } else {
        CoalescedMeans(rows, front, w);
        assert Coalesced(ws, w) == Coalesced(front, w) + [last];
        AppendedMeans(rows, Coalesced(front, w), last);
        OtherKeysCommute(AllWritten(rows, front), last, w);
      }
    }
  }

  /** Whatever a handler writes, the flushed mutations leave the rows those writes leave, one mutation a key. */
  lemma {:induction false} FlushMeansWhatWasWritten<K, V>(rows: map<K, V>, ws: seq<Write<K, V>>)
    ensures OnePerKey(CoalescedAll(ws))
    ensures AllWritten(rows, CoalescedAll(ws)) == AllWritten(rows, ws)
  {
    if ws != [] {
      FlushMeansWhatWasWritten(rows, ws[..|ws| - 1]);
      CoalescedKeys(CoalescedAll(ws[..|ws| - 1]), ws[|ws| - 1]);
      CoalescedMeans(rows, CoalescedAll(ws[..|ws| - 1]), ws[|ws| - 1]);
    }
  }

  /** Where a key was first touched, and what was written to it last. */
  function FirstTouch<K(==), V>(ws: seq<Write<K, V>>, k: K): (i: Option<nat>)
    ensures i.Some? ==> i.value < |ws|
  {
    if ws == [] then None
    else
      var before := FirstTouch(ws[..|ws| - 1], k);
      if before.Some? then before else if ws[|ws| - 1].key == k then Some(|ws| - 1) else None
  }

  function LastWrite<K(==), V>(ws: seq<Write<K, V>>, k: K): Option<Write<K, V>> {
    if ws == [] then None else if ws[|ws| - 1].key == k then Some(ws[|ws| - 1]) else LastWrite(ws[..|ws| - 1], k)
  }

  /** The flushed mutations are the last write of every key touched, in first-touch order. */
  ghost predicate InFirstTouchOrder<K, V(!new)>(ws: seq<Write<K, V>>, out: seq<Write<K, V>>) {
    && (forall i :: 0 <= i < |out| ==> FirstTouch(ws, out[i].key).Some? && LastWrite(ws, out[i].key) == Some(out[i]))
    && (forall j :: 0 <= j < |ws| ==> Staged(out, ws[j].key).Some?)
    && (forall i, j :: 0 <= i < j < |out| ==> FirstTouch(ws, out[i].key).value < FirstTouch(ws, out[j].key).value)
  }

  lemma {:induction false} TouchedIsWritten<K, V>(ws: seq<Write<K, V>>, k: K)
    ensures FirstTouch(ws, k).Some? <==> LastWrite(ws, k).Some?
    ensures FirstTouch(ws, k).Some? <==> exists j :: 0 <= j < |ws| && ws[j].key == k
  {
    if ws != [] {
      TouchedIsWritten(ws[..|ws| - 1], k);
      if j :| 0 <= j < |ws| && ws[j].key == k { assert j < |ws| - 1 ==> ws[..|ws| - 1][j].key == k; }
    }
  }

  lemma TouchesAfter<K, V>(ws: seq<Write<K, V>>, w: Write<K, V>, k: K)
    ensures LastWrite(ws + [w], k) == if w.key == k then Some(w) else LastWrite(ws, k)
    ensures
      var before := FirstTouch(ws, k);
      FirstTouch(ws + [w], k) == if before.Some? then before else if w.key == k then Some(|ws|) else None
  {
    assert (ws + [w])[..|ws|] == ws;
  }

  lemma {:induction false} FlushedInFirstTouchOrder<K, V(!new)>(ws: seq<Write<K, V>>)
    ensures InFirstTouchOrder(ws, CoalescedAll(ws))
  {
    if ws != [] {
      hide InFirstTouchOrder, Coalesced, OnePerKey, AllWritten, FirstTouch, LastWrite, Staged;
      var front, w := ws[..|ws| - 1], ws[|ws| - 1];
      FlushedInFirstTouchOrder(front);
      FlushMeansWhatWasWritten(map[], front);
      CoalescedInFirstTouchOrder(front, CoalescedAll(front), w);
      assert ws == front + [w];
    }
  }

  lemma CoalescedInFirstTouchOrder<K, V(!new)>(ws: seq<Write<K, V>>, out: seq<Write<K, V>>, w: Write<K, V>)
    requires OnePerKey(out) && InFirstTouchOrder(ws, out)
    ensures InFirstTouchOrder(ws + [w], Coalesced(out, w))
  {
    hide FirstTouch, LastWrite;
    var more, next := ws + [w], Coalesced(out, w);
    TouchedIsWritten(ws, w.key);
    forall i | 0 <= i < |next|
      ensures FirstTouch(more, next[i].key).Some? && LastWrite(more, next[i].key) == Some(next[i])
      ensures FirstTouch(more, next[i].key).value == if i < |out| then FirstTouch(ws, out[i].key).value else |ws|
    {
      TouchesAfter(ws, w, next[i].key);
    }
    TouchedAreStaged(ws, out, w);
  }

  /** A coalesced write keeps every key staged that was. */
  lemma TouchedAreStaged<K, V>(ws: seq<Write<K, V>>, out: seq<Write<K, V>>, w: Write<K, V>)
    requires forall j :: 0 <= j < |ws| ==> Staged(out, ws[j].key).Some?
    ensures forall j :: 0 <= j < |ws + [w]| ==> Staged(Coalesced(out, w), (ws + [w])[j].key).Some?
  {
    var more, next := ws + [w], Coalesced(out, w);
    forall j | 0 <= j < |more| ensures Staged(next, more[j].key).Some? {
      var i := Staged(out, more[j].key);
      assert next[if i.Some? then i.value else |out|].key == more[j].key;
    }
  }

  lemma {:induction false} WrittenInTurn<K, V>(rows: map<K, V>, first: seq<Write<K, V>>, rest: seq<Write<K, V>>)
    ensures AllWritten(AllWritten(rows, first), rest) == AllWritten(rows, first + rest)
  {
    if rest == [] {
      assert first + rest == first;
    } else {
      WrittenInTurn(rows, first, rest[..|rest| - 1]);
      assert (first + rest)[..|first + rest| - 1] == first + rest[..|rest| - 1];
    }
  }

  // ------------------------------------------------------------------- as it is written

  class MutationContext<K(==), V> {
    const store: map<K, V>
    var pending: seq<Write<K, V>>

    ghost predicate Valid()
      reads this
    {
      OnePerKey(pending)
    }

    /** The rows as a handler sees them. */
    ghost function View(): map<K, V>
      reads this
    {
      AllWritten(store, pending)
    }

    constructor (store: map<K, V>)
      ensures this.store == store && Valid() && View() == store
    {
      this.store := store;
      pending := [];
    }

    method Get(k: K) returns (row: Option<V>)
      requires Valid()
      ensures row == if k in View() then Some(View()[k]) else None
    {
      RowAfter(store, pending, k);
      var staged := Staged(pending, k);
      if staged.Some? {
        var mutation := pending[staged.value];
        return if mutation.Drop? then None else Some(mutation.row);
      }
      return if k in store then Some(store[k]) else None;
    }

    method Stage(w: Write<K, V>)
      requires Valid()
      modifies this
      ensures Valid() && View() == Written(old(View()), w)
    {
      CoalescedKeys(pending, w);
      CoalescedMeans(store, pending, w);
      pending := Coalesced(pending, w);
    }

    method Set(k: K, row: V)
      requires Valid()
      modifies this
      ensures Valid() && View() == old(View())[k := row]
    {
      Stage(Put(k, row));
    }

    method Delete(k: K)
      requires Valid()
      modifies this
      ensures Valid() && View() == old(View()) - {k}
    {
      Stage(Drop(k));
    }

    /** One mutation a key, and together they make the store what the handler saw. */
    method Mutations() returns (ws: seq<Write<K, V>>)
      requires Valid()
      ensures OnePerKey(ws) && AllWritten(store, ws) == View()
    {
      return pending;
    }
  }
}
