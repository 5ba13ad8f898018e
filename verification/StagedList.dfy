/**
 * `list` of the staging area (`state-store/src/mutation-context.ts`): the store's bounded scan with
 * the block's own writes merged in. An id is its prefix and its place in the store's order.
 */
module StagedList {
  import opened Options
  import opened StagedBlock

  datatype Id = Id(prefix: nat, place: int)

  datatype Listing<V> = Listing(rows: seq<(int, V)>, truncated: bool)

  // ------------------------------------------------------------------------- ascending

  lemma MemberOf<T>(s: set<T>) returns (x: T)
    requires s != {}
    ensures x in s
  {
    x :| x in s;
  }

  lemma {:induction false} LeastExists(s: set<int>)
    requires s != {}
    ensures exists least :: least in s && forall x :: x in s ==> least <= x
    decreases s
  {
    var y := MemberOf(s);
    assert forall x :: x in s ==> x == y || x in s - {y};
    if s - {y} == {} {
      assert y in s && forall x :: x in s ==> y <= x;
    } else {
      LeastExists(s - {y});
      var rest :| rest in s - {y} && forall x :: x in s - {y} ==> rest <= x;
      var least := if y < rest then y else rest;
      assert least in s && forall x :: x in s ==> least <= x;
    }
  }

  function Least(s: set<int>): (least: int)
    requires s != {}
    ensures least in s && forall x :: x in s ==> least <= x
  {
    LeastExists(s);
    var least :| least in s && forall x :: x in s ==> least <= x;
    least
  }

  function Ascending(s: set<int>): (a: seq<int>)
    ensures |a| == |s|
  {
    if s == {} then [] else [Least(s)] + Ascending(s - {Least(s)})
  }

  function First(s: set<int>, limit: nat): seq<int> { if |s| <= limit then Ascending(s) else Ascending(s)[..limit] }

  function Below(s: set<int>, x: int): set<int> { set y | y in s && y < x }

  /** The members among the first `limit`. */
  function FirstSet(s: set<int>, limit: nat): set<int> { set x | x in s && |Below(s, x)| < limit }

  /** Taking the least member out moves every other one place down. */
  lemma FirstSetRest(s: set<int>, limit: nat)
    requires s != {} && limit > 0
    ensures FirstSet(s, limit) == {Least(s)} + FirstSet(s - {Least(s)}, limit - 1)
  {
    var least, rest := Least(s), s - {Least(s)};
    assert Below(s, least) == {};
    forall x | x in rest ensures |Below(s, x)| == |Below(rest, x)| + 1 {
      assert Below(s, x) == Below(rest, x) + {least};
    }
    forall x | x in s ensures x in FirstSet(s, limit) <==> x == least || x in FirstSet(rest, limit - 1) {
      if x != least { assert x in rest; }
    }
  }

  lemma FirstNext(s: set<int>, limit: nat)
    requires s != {} && limit > 0
    ensures First(s, limit) == [Least(s)] + First(s - {Least(s)}, limit - 1)
  {
    var rest := Ascending(s - {Least(s)});
    assert Ascending(s) == [Least(s)] + rest;
    if |s| > limit { assert ([Least(s)] + rest)[..limit] == [Least(s)] + rest[..limit - 1]; }
  }

  /** The first `limit` members, in order, are all there is to know of a bounded scan. */
  lemma {:induction false} FirstIsFirstSet(s: set<int>, limit: nat)
    ensures First(s, limit) == Ascending(FirstSet(s, limit))
    decreases |s|
  {
    if s == {} || limit == 0 {
      assert FirstSet(s, limit) == {};
    } else {
      FirstIsFirstSet(s - {Least(s)}, limit - 1);
      FirstStep(s, limit);
    }
  }

  lemma FirstStep(s: set<int>, limit: nat)
    requires s != {} && limit > 0
    requires First(s - {Least(s)}, limit - 1) == Ascending(FirstSet(s - {Least(s)}, limit - 1))
    ensures First(s, limit) == Ascending(FirstSet(s, limit))
  {
    hide First, FirstSet, Ascending;
    var least, others := Least(s), FirstSet(s - {Least(s)}, limit - 1);
    FirstNext(s, limit);
    FirstSetRest(s, limit);
    FirstSetSubset(s, limit);
    FirstSetSubset(s - {least}, limit - 1);
    AscendingNext(s, FirstSet(s, limit));
    assert {least} + others - {least} == others;
  }

  lemma FirstSetSubset(s: set<int>, limit: nat)
    ensures FirstSet(s, limit) <= s
  {
  }

  lemma AscendingNext(s: set<int>, some: set<int>)
    requires s != {} && some <= s && Least(s) in some
    ensures Ascending(some) == [Least(s)] + Ascending(some - {Least(s)})
  {
    assert Least(some) == Least(s);
  }

  lemma {:induction false} Smaller<T>(a: set<T>, b: set<T>)
    requires a <= b
    ensures |a| <= |b| && (|a| == |b| ==> a == b)
    decreases b
  {
    if x :| x in a {
      Smaller(a - {x}, b - {x});
      assert |a - {x}| == |b - {x}| ==> a == b by { assert a == (a - {x}) + {x} && b == (b - {x}) + {x}; }
    } else {
      assert a == {};
    }
  }

  /** What is missing comes after `limit` members that are there, so the first `limit` are the same. */
  lemma MissingFromTheEnd(some: set<int>, all: set<int>, limit: nat)
    requires some <= all
    requires forall x :: x in all && x !in some ==> |Below(some, x)| >= limit
    ensures FirstSet(some, limit) == FirstSet(all, limit)
  {
    forall x | x in all ensures x in FirstSet(some, limit) <==> x in FirstSet(all, limit) {
      assert Below(some, x) <= Below(all, x);
      Smaller(Below(some, x), Below(all, x));
      if x in some && |Below(some, x)| < limit {
        forall y | y in Below(all, x) ensures y in Below(some, x) {
          assert Below(some, y) <= Below(some, x);
          Smaller(Below(some, y), Below(some, x));
        }
        assert Below(all, x) == Below(some, x);
      }
    }
  }

  // --------------------------------------------------------------------------- a listing

  function Places<V>(rows: map<Id, V>, prefix: nat): set<int> { set id | id in rows.Keys && id.prefix == prefix :: id.place }

  /** The first `limit` rows under a prefix, and whether there are more. */
  function Listed<V>(rows: map<Id, V>, prefix: nat, limit: nat): Listing<V> {
    var places := FirstPlaces(rows, prefix, limit);
    Listing(seq(|places|, i requires 0 <= i < |places| => (places[i], rows[Id(prefix, places[i])])),
            |Places(rows, prefix)| > limit)
  }

  function FirstPlaces<V>(rows: map<Id, V>, prefix: nat, limit: nat): (places: seq<int>)
    ensures forall i :: 0 <= i < |places| ==> Id(prefix, places[i]) in rows
  {
    var all := Places(rows, prefix);
    AscendingMembers(all);
    assert forall i :: 0 <= i < |First(all, limit)| ==> First(all, limit)[i] in Ascending(all);
    First(all, limit)
  }

  lemma {:induction false} AscendingMembers(s: set<int>)
    ensures forall x :: x in Ascending(s) <==> x in s
    decreases s
  {
    if s != {} { AscendingMembers(s - {Least(s)}); }
  }

  /** What the block staged under a prefix: a row, or none where it deleted. */
  ghost predicate IsStaged<V>(pending: seq<Write<Id, V>>, prefix: nat, staged: map<int, Option<V>>) {
    forall p :: Staged(pending, Id(prefix, p)).Some? == (p in staged)
      && (p in staged ==> staged[p] == RowOf(pending[Staged(pending, Id(prefix, p)).value]))
  }

  function RowOf<K, V>(w: Write<K, V>): Option<V> { if w.Put? then Some(w.row) else None }

  /** What the block's rows make of a store's, under a prefix. */
  function Overlaid<V>(rows: set<int>, staged: map<int, Option<V>>): set<int> {
    (rows - staged.Keys) + set p | p in staged && staged[p].Some?
  }

  lemma PlacesMember<V>(rows: map<Id, V>, prefix: nat, p: int)
    ensures p in Places(rows, prefix) <==> Id(prefix, p) in rows
  {
  }

  lemma ViewIsOverlaid<V>(store: map<Id, V>, pending: seq<Write<Id, V>>, prefix: nat, staged: map<int, Option<V>>)
    requires OnePerKey(pending) && IsStaged(pending, prefix, staged)
    ensures Places(AllWritten(store, pending), prefix) == Overlaid(Places(store, prefix), staged)
    ensures forall p :: p in Places(AllWritten(store, pending), prefix) ==>
              && Id(prefix, p) in AllWritten(store, pending)
              && (p in staged ==> staged[p] == Some(AllWritten(store, pending)[Id(prefix, p)]))
              && (p !in staged ==> Id(prefix, p) in store && store[Id(prefix, p)] == AllWritten(store, pending)[Id(prefix, p)])
  {
    var view := AllWritten(store, pending);
    forall p ensures p in Places(view, prefix) <==> p in Overlaid(Places(store, prefix), staged) {
      RowAfter(store, pending, Id(prefix, p));
      PlacesMember(view, prefix, p);
      PlacesMember(store, prefix, p);
    }
    forall p | p in Places(view, prefix)
      ensures Id(prefix, p) in view
      ensures p in staged ==> staged[p] == Some(view[Id(prefix, p)])
      ensures p !in staged ==> Id(prefix, p) in store && store[Id(prefix, p)] == view[Id(prefix, p)]
    {
      RowAfter(store, pending, Id(prefix, p));
    }
  }

  lemma AllFetched(stored: set<int>, n: nat)
    requires |stored| <= n
    ensures FirstSet(stored, n) == stored
  {
    forall x | x in stored ensures x in FirstSet(stored, n) {
      assert Below(stored, x) <= stored - {x};
      Smaller(Below(stored, x), stored - {x});
    }
  }

  /** A row the scan left behind comes after `limit` rows of the block's view. */
  lemma LeftBehind<V>(stored: set<int>, staged: map<int, Option<V>>, limit: nat, x: int)
    requires |stored| > limit + |staged|
    requires x in stored && x !in FirstSet(stored, limit + |staged|)
    ensures |Below(Overlaid(FirstSet(stored, limit + |staged|), staged), x)| >= limit
  {
    var fetched := FirstSet(stored, limit + |staged|);
    var some := Overlaid(fetched, staged);
    FetchedSize(stored, limit + |staged|);
    Kept(fetched, staged.Keys);
    EarlierFetched(stored, limit + |staged|, x);
    assert fetched - staged.Keys <= Below(some, x);
    Smaller(fetched - staged.Keys, Below(some, x));
  }

  /** The fetch budget: what the block deletes cannot leave the answer short. */
  lemma BudgetSuffices<V>(stored: set<int>, staged: map<int, Option<V>>, limit: nat)
    ensures FirstSet(Overlaid(FirstSet(stored, limit + |staged|), staged), limit) == FirstSet(Overlaid(stored, staged), limit)
  {
    var n := limit + |staged|;
    if |stored| <= n {
      AllFetched(stored, n);
    } else {
      var some, all := Overlaid(FirstSet(stored, n), staged), Overlaid(stored, staged);
      FirstSetSubset(stored, n);
      forall x | x in all && x !in some ensures |Below(some, x)| >= limit { LeftBehind(stored, staged, limit, x); }
      MissingFromTheEnd(some, all, limit);
    }
  }

  /** And the store's own flag says the rest: more than the budget stored is more than the limit seen. */
  lemma TruncationIsExact<V>(stored: set<int>, staged: map<int, Option<V>>, limit: nat)
    ensures |Overlaid(FirstSet(stored, limit + |staged|), staged)| > limit || |stored| > limit + |staged|
            <==> |Overlaid(stored, staged)| > limit
  {
    if |stored| <= limit + |staged| {
      AllFetched(stored, limit + |staged|);
    } else {
      Kept(stored, staged.Keys);
      Smaller(stored - staged.Keys, Overlaid(stored, staged));
    }
  }

  lemma Kept<T>(a: set<T>, b: set<T>)
    ensures |a - b| >= |a| - |b|
  {
    assert a == (a - b) + (a * b);
    Smaller(a * b, b);
  }

  /** All that was fetched comes before what was not. */
  lemma EarlierFetched(stored: set<int>, n: nat, x: int)
    requires x in stored && x !in FirstSet(stored, n)
    ensures forall y :: y in FirstSet(stored, n) ==> y < x
  {
    forall y | y in FirstSet(stored, n) ensures y < x {
      if x <= y {
        assert Below(stored, x) <= Below(stored, y);
        Smaller(Below(stored, x), Below(stored, y));
      }
    }
  }

  lemma FetchedSize(stored: set<int>, n: nat)
    requires |stored| > n
    ensures |FirstSet(stored, n)| == n
  {
    FirstIsFirstSet(stored, n);
  }

  // ------------------------------------------------------------------- as it is written

  lemma ListedHas<V>(store: map<Id, V>, prefix: nat, limit: nat, p: int)
    ensures (exists k :: 0 <= k < |Listed(store, prefix, limit).rows| && Listed(store, prefix, limit).rows[k].0 == p)
            <==> p in FirstSet(Places(store, prefix), limit)
  {
    var places, rows := FirstPlaces(store, prefix, limit), Listed(store, prefix, limit).rows;
    FirstIsFirstSet(Places(store, prefix), limit);
    AscendingMembers(FirstSet(Places(store, prefix), limit));
    if k :| 0 <= k < |places| && places[k] == p { assert rows[k].0 == p; }
  }

  /** The fetched rows the block left alone, and the rows it wrote. */
  method Merge<V>(store: map<Id, V>, stored: Listing<V>, staged: map<int, Option<V>>, prefix: nat, ghost limit: nat)
    returns (merged: map<int, V>)
    requires stored == Listed(store, prefix, limit)
    ensures merged.Keys == Overlaid(FirstSet(Places(store, prefix), limit), staged)
    ensures forall p :: p in merged ==> if p in staged then staged[p] == Some(merged[p])
                                        else Id(prefix, p) in store && merged[p] == store[Id(prefix, p)]
  {
    merged := map[];
    for i := 0 to |stored.rows|
      invariant forall p :: p in merged <==> p !in staged && exists k :: 0 <= k < i && stored.rows[k].0 == p
      invariant forall p :: p in merged ==> Id(prefix, p) in store && merged[p] == store[Id(prefix, p)]
    {
      var (place, row) := stored.rows[i];
      if place !in staged { merged := merged[place := row]; }
    }
    forall p ensures p in merged <==> p in FirstSet(Places(store, prefix), limit) - staged.Keys {
      ListedHas(store, prefix, limit, p);
    }
    merged := merged + map p | p in staged && staged[p].Some? :: staged[p].value;
  }

  /** The listing of a block in progress is the listing of what its handler sees, cut and all. */
  method List<V>(store: map<Id, V>, pending: seq<Write<Id, V>>, prefix: nat, limit: nat) returns (listing: Listing<V>)
    requires OnePerKey(pending)
    ensures listing == Listed(AllWritten(store, pending), prefix, limit)
  {
    hide Overlaid, FirstSet, IsStaged, First, FirstPlaces, Places, AllWritten;
    var staged := StagedUnder(pending, prefix);
    var stored := Listed(store, prefix, limit + |staged|);
    var merged := Merge(store, stored, staged, prefix, limit + |staged|);
    var places := First(merged.Keys, limit);
    FirstMembers(merged.Keys, limit);
    listing := Listing(seq(|places|, i requires 0 <= i < |places| => (places[i], merged[places[i]])),
                       |merged| > limit || stored.truncated);
    SameListing(store, pending, prefix, limit, staged, merged);
  }

  lemma FirstMembers(s: set<int>, limit: nat)
    ensures forall i :: 0 <= i < |First(s, limit)| ==> First(s, limit)[i] in s
  {
    AscendingMembers(s);
    assert forall i :: 0 <= i < |First(s, limit)| ==> First(s, limit)[i] == Ascending(s)[i];
  }

  lemma SameListing<V>(store: map<Id, V>, pending: seq<Write<Id, V>>, prefix: nat, limit: nat,
                       staged: map<int, Option<V>>, merged: map<int, V>)
    requires OnePerKey(pending) && IsStaged(pending, prefix, staged)
    requires merged.Keys == Overlaid(FirstSet(Places(store, prefix), limit + |staged|), staged)
    requires forall p :: p in merged ==> if p in staged then staged[p] == Some(merged[p])
                                         else Id(prefix, p) in store && merged[p] == store[Id(prefix, p)]
    ensures
      var view := AllWritten(store, pending);
      && First(merged.Keys, limit) == FirstPlaces(view, prefix, limit)
      && (|merged.Keys| > limit || |Places(store, prefix)| > limit + |staged| <==> |Places(view, prefix)| > limit)
      && forall p :: p in FirstPlaces(view, prefix, limit) ==> p in merged && merged[p] == view[Id(prefix, p)]
  {
    hide Overlaid, FirstSet, IsStaged, First, Places, Ascending, AllWritten;
    var view := AllWritten(store, pending);
    ViewIsOverlaid(store, pending, prefix, staged);
    BudgetSuffices(Places(store, prefix), staged, limit);
    TruncationIsExact(Places(store, prefix), staged, limit);
    FirstIsFirstSet(merged.Keys, limit);
    FirstIsFirstSet(Places(view, prefix), limit);
    FirstMembers(merged.Keys, limit);
    FirstMembers(Places(view, prefix), limit);
  }

  method StagedUnder<V>(pending: seq<Write<Id, V>>, prefix: nat) returns (staged: map<int, Option<V>>)
    requires OnePerKey(pending)
    ensures IsStaged(pending, prefix, staged)
  {
    staged := map[];
    for i := 0 to |pending|
      invariant IsStaged(pending[..i], prefix, staged)
    {
      assert pending[..i + 1][..i] == pending[..i];
      var mutation := pending[i];
      if mutation.key.prefix == prefix { staged := staged[mutation.key.place := RowOf(mutation)]; }
    }
    assert pending[..|pending|] == pending;
  }
}
