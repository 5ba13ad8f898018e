/**
 * The decode loops of the replay-decode spike (`decode-breakdown.ts`): events grouped by contract,
 * decoded group by group and scattered back; and a selector map instead of a search of the whole ABI.
 * The decoder, viem's, is a function of the member it decodes with.
 */
module Decode {
  import opened Options

  /** An address as spelled, and what lower-casing makes of it. */
  datatype Address = Address(value: nat, checksummed: bool)

  type Topic = nat

  datatype Event = Event(address: Address, topic: Topic, data: nat)

  function LowerCased(a: Address): nat { a.value }

  // ------------------------------------------------------------------ group and scatter

  datatype Group = Group(indices: seq<nat>, events: seq<Event>)

  /** A fetcher's `reparse` answers event by event. */
  function Reparsed<T>(fetcher: Event -> T, events: seq<Event>): seq<T> {
    seq(|events|, i requires 0 <= i < |events| => fetcher(events[i]))
  }

  /** `groups` holds the first `n` events, each in the group of its address, at a saved index. */
  ghost predicate Grouped(list: seq<Event>, n: nat, order: seq<nat>, groups: map<nat, Group>)
    requires n <= |list|
  {
    && (forall k :: 0 <= k < |order| ==> order[k] in groups)
    && (forall a :: a in groups ==> a in order && |groups[a].indices| == |groups[a].events| > 0)
    && (forall a, j :: a in groups && 0 <= j < |groups[a].indices| ==>
          && groups[a].indices[j] < n && groups[a].events[j] == list[groups[a].indices[j]]
          && LowerCased(groups[a].events[j].address) == a)
    && (forall i :: 0 <= i < n ==> LowerCased(list[i].address) in groups && i in groups[LowerCased(list[i].address)].indices)
  }

  /** A `Map` iterates in the order its keys were first set. */
  method GroupByAddress(list: seq<Event>) returns (order: seq<nat>, groups: map<nat, Group>)
    ensures Grouped(list, |list|, order, groups)
  {
    order, groups := [], map[];
    for i := 0 to |list|
      invariant Grouped(list, i, order, groups)
    {
      var address := LowerCased(list[i].address);
      if address !in groups {
        order := order + [address];
        groups := groups[address := Group([i], [list[i]])];
      } else {
        groups := groups[address := Group(groups[address].indices + [i], groups[address].events + [list[i]])];
      }
    }
  }

  /** The fetchers know every address the list has. */
  predicate Known<T>(pool: map<nat, Event -> T>, list: seq<Event>) {
    forall i :: 0 <= i < |list| ==> LowerCased(list[i].address) in pool
  }

  /**
   * Each event as its own contract's fetcher would parse it alone, where it stood; or none, where a
   * contract has no fetcher and the loop throws.
   */
  method ReparseThrough<T>(pool: map<nat, Event -> T>, list: seq<Event>) returns (out: Option<seq<T>>)
    ensures out.Some? <==> Known(pool, list)
    ensures out.Some? ==> |out.value| == |list|
    ensures out.Some? ==> forall i :: 0 <= i < |list| ==> out.value[i] == pool[LowerCased(list[i].address)](list[i])
  {
    var slots := new Option<T>[|list|](_ => None);
    var order, groups := GroupByAddress(list);
    for k := 0 to |order|
      invariant forall m :: 0 <= m < k ==> order[m] in pool
      invariant forall i :: 0 <= i < |list| && LowerCased(list[i].address) in order[..k] ==> Placed(pool, list, slots[..], i)
    {
      var address := order[k];
      if address !in pool {
        ghost var first := groups[address].indices[0];
        assert LowerCased(list[first].address) == address;
        return None;
      }
      Scatter(pool, list, address, groups[address], slots);
      assert order[..k + 1] == order[..k] + [address];
    }
    assert order[..|order|] == order;
    forall i | 0 <= i < |list| ensures Placed(pool, list, slots[..], i) { assert LowerCased(list[i].address) in order; }
    out := Some(seq(|list|, i requires 0 <= i < |list| && Placed(pool, list, slots[..], i) reads slots => slots[i].value));
  }

  /** Slot `i` holds what event `i`'s own fetcher makes of it. */
  ghost predicate Placed<T>(pool: map<nat, Event -> T>, list: seq<Event>, slots: seq<Option<T>>, i: nat)
    requires |slots| == |list| && i < |list|
  {
    LowerCased(list[i].address) in pool && slots[i] == Some(pool[LowerCased(list[i].address)](list[i]))
  }

  method Scatter<T>(pool: map<nat, Event -> T>, list: seq<Event>, address: nat, group: Group, slots: array<Option<T>>)
    requires address in pool && slots.Length == |list| && |group.indices| == |group.events|
    requires forall j :: 0 <= j < |group.indices| ==>
      group.indices[j] < |list| && group.events[j] == list[group.indices[j]] && LowerCased(group.events[j].address) == address
    modifies slots
    ensures forall i :: 0 <= i < |list| && (i in group.indices || Placed(pool, list, old(slots[..]), i)) ==>
              Placed(pool, list, slots[..], i)
  {
    var reparsed := Reparsed(pool[address], group.events);
    for j := 0 to |reparsed|
      invariant forall i :: 0 <= i < |list| && (i in group.indices[..j] || Placed(pool, list, old(slots[..]), i)) ==>
                  Placed(pool, list, slots[..], i)
    {
      slots[group.indices[j]] := Some(reparsed[j]);
      assert group.indices[..j + 1] == group.indices[..j] + [group.indices[j]];
    }
    assert group.indices[..|reparsed|] == group.indices;
  }

  // ---------------------------------------------------------------------- the selector map

  /** An event member of an ABI; members that differ in what they index share a selector. */
  datatype Member = Member(selector: Topic, anonymous: bool, indexed: nat)

  datatype Decoded = Named(name: nat, args: nat) | Unknown

  /** viem's decoder over one member; none where it throws. */
  type Decoder = (Member, Event) -> Option<Decoded>

  /** viem takes the first member with the event's selector. */
  function FirstWith(abi: seq<Member>, topic: Topic): Option<Member> {
    if abi == [] then None else if abi[0].selector == topic then Some(abi[0]) else FirstWith(abi[1..], topic)
  }

  /** The map keeps the last one set, and anonymous members never are. */
  function LastNamed(abi: seq<Member>, topic: Topic): Option<Member> {
    if abi == [] then None
    else
      var m := abi[|abi| - 1];
      if !m.anonymous && m.selector == topic then Some(m) else LastNamed(abi[..|abi| - 1], topic)
  }

  function AbiOf(abis: map<nat, seq<Member>>, a: nat): seq<Member> { if a in abis then abis[a] else [] }

  /** The map has, for each address and selector, the member the map building keeps. */
  ghost predicate IsMapOf(selectors: map<(nat, Topic), Member>, abis: map<nat, seq<Member>>) {
    && (forall a: nat, t: Topic :: (a, t) in selectors <==> LastNamed(AbiOf(abis, a), t).Some?)
    && (forall a: nat, t: Topic :: (a, t) in selectors ==> LastNamed(AbiOf(abis, a), t) == Some(selectors[(a, t)]))
  }

  method BuildSelectorMap(abis: map<nat, seq<Member>>) returns (selectors: map<(nat, Topic), Member>)
    ensures IsMapOf(selectors, abis)
  {
    selectors := map[];
    var addresses := abis.Keys;
    while addresses != {}
      invariant addresses <= abis.Keys
      invariant forall a: nat, t: Topic :: (a, t) in selectors <==> a !in addresses && LastNamed(AbiOf(abis, a), t).Some?
      invariant forall a: nat, t: Topic :: (a, t) in selectors ==> LastNamed(AbiOf(abis, a), t) == Some(selectors[(a, t)])
      decreases addresses
    {
      var address :| address in addresses;
      selectors := AddMembers(selectors, address, abis[address]);
      addresses := addresses - {address};
    }
  }

  ghost predicate SameElsewhere(before: map<(nat, Topic), Member>, after: map<(nat, Topic), Member>, address: nat) {
    forall a: nat, t: Topic :: a != address ==>
      && ((a, t) in after <==> (a, t) in before)
      && ((a, t) in before ==> after[(a, t)] == before[(a, t)])
  }

  method AddMembers(before: map<(nat, Topic), Member>, address: nat, abi: seq<Member>) returns (selectors: map<(nat, Topic), Member>)
    requires forall t: Topic :: (address, t) !in before
    ensures SameElsewhere(before, selectors, address)
    ensures forall t: Topic :: (address, t) in selectors <==> LastNamed(abi, t).Some?
    ensures forall t: Topic :: (address, t) in selectors ==> LastNamed(abi, t) == Some(selectors[(address, t)])
  {
    selectors := before;
    for i := 0 to |abi|
      invariant SameElsewhere(before, selectors, address)
      invariant forall t: Topic :: (address, t) in selectors <==> LastNamed(abi[..i], t).Some?
      invariant forall t: Topic :: (address, t) in selectors ==> LastNamed(abi[..i], t) == Some(selectors[(address, t)])
    {
      assert abi[..i + 1][..i] == abi[..i];
      var member := abi[i];
      if !member.anonymous { selectors := selectors[(address, member.selector) := member]; }
    }
    assert abi[..|abi|] == abi;
  }

  /** Decoding with the whole ABI; none is a throw. */
  function Whole(abis: map<nat, seq<Member>>, decode: Decoder, e: Event): Option<Decoded> {
    var member := FirstWith(AbiOf(abis, LowerCased(e.address)), e.topic);
    if member.None? then None else decode(member.value, e)
  }

  /** Decoding with the member preselected; what the map does not have is unknown. */
  function Preselected(selectors: map<(nat, Topic), Member>, decode: Decoder, e: Event): Option<Decoded> {
    var k := (LowerCased(e.address), e.topic);
    if k in selectors then decode(selectors[k], e) else Some(Unknown)
  }

  method DecodeWholeAbi(abis: map<nat, seq<Member>>, decode: Decoder, list: seq<Event>) returns (out: Option<seq<Decoded>>)
    ensures out.Some? <==> forall i :: 0 <= i < |list| ==> Whole(abis, decode, list[i]).Some?
    ensures out.Some? ==> |out.value| == |list|
    ensures out.Some? ==> forall i :: 0 <= i < |list| ==> Whole(abis, decode, list[i]) == Some(out.value[i])
  {
    var decoded := [];
    for i := 0 to |list|
      invariant |decoded| == i && forall j :: 0 <= j < i ==> Whole(abis, decode, list[j]) == Some(decoded[j])
    {
      var d := Whole(abis, decode, list[i]);
      if d.None? { return None; }
      decoded := decoded + [d.value];
    }
    return Some(decoded);
  }

  method DecodePreselected(selectors: map<(nat, Topic), Member>, decode: Decoder, list: seq<Event>) returns (out: Option<seq<Decoded>>)
    ensures out.Some? <==> forall i :: 0 <= i < |list| ==> Preselected(selectors, decode, list[i]).Some?
    ensures out.Some? ==> |out.value| == |list|
    ensures out.Some? ==> forall i :: 0 <= i < |list| ==> Preselected(selectors, decode, list[i]) == Some(out.value[i])
  {
    var decoded := [];
    for i := 0 to |list|
      invariant |decoded| == i && forall j :: 0 <= j < i ==> Preselected(selectors, decode, list[j]) == Some(decoded[j])
    {
      var d := Preselected(selectors, decode, list[i]);
      if d.None? { return None; }
      decoded := decoded + [d.value];
    }
    return Some(decoded);
  }

  // ----------------------------------------------------------------------------- agreement

  ghost predicate DistinctSelectors(abi: seq<Member>) {
    forall i, j :: 0 <= i < j < |abi| ==> abi[i].selector != abi[j].selector
  }

  lemma {:induction false} FirstIsOne(abi: seq<Member>, topic: Topic)
    ensures match FirstWith(abi, topic)
            case Some(m) => exists i :: 0 <= i < |abi| && abi[i] == m && m.selector == topic
            case None => forall i :: 0 <= i < |abi| ==> abi[i].selector != topic
  {
    if abi != [] && abi[0].selector != topic {
      FirstIsOne(abi[1..], topic);
      if i :| 0 <= i < |abi[1..]| && Some(abi[1..][i]) == FirstWith(abi, topic) && abi[1..][i].selector == topic {
        assert abi[i + 1] == abi[1..][i];
      }
    }
  }

  lemma {:induction false} LastIsOne(abi: seq<Member>, topic: Topic)
    ensures match LastNamed(abi, topic)
            case Some(m) => !m.anonymous && m.selector == topic && exists i :: 0 <= i < |abi| && abi[i] == m
            case None => forall i :: 0 <= i < |abi| && !abi[i].anonymous ==> abi[i].selector != topic
  {
    if abi != [] { LastIsOne(abi[..|abi| - 1], topic); }
  }

  /** With distinct selectors an ABI has one member to choose, and both choose it. */
  lemma DistinctChooseAlike(abi: seq<Member>, topic: Topic)
    requires DistinctSelectors(abi) && LastNamed(abi, topic).Some?
    ensures FirstWith(abi, topic) == LastNamed(abi, topic)
  {
    FirstIsOne(abi, topic);
    LastIsOne(abi, topic);
  }

  /** An event the map matches decodes alike with every decoder exactly when both choose one member. */
  lemma AgreeExactly(abis: map<nat, seq<Member>>, selectors: map<(nat, Topic), Member>, e: Event)
    requires IsMapOf(selectors, abis) && (LowerCased(e.address), e.topic) in selectors
    ensures (forall decode: Decoder :: Preselected(selectors, decode, e) == Whole(abis, decode, e))
            <==> FirstWith(AbiOf(abis, LowerCased(e.address)), e.topic) == LastNamed(AbiOf(abis, LowerCased(e.address)), e.topic)
  {
    var abi := AbiOf(abis, LowerCased(e.address));
    FirstIsOne(abi, e.topic);
    LastIsOne(abi, e.topic);
    var last := selectors[(LowerCased(e.address), e.topic)];
    if forall decode: Decoder :: Preselected(selectors, decode, e) == Whole(abis, decode, e) {
      var tells: Decoder := (m: Member, _: Event) => if m == last then None else Some(Unknown);
      assert Preselected(selectors, tells, e) == Whole(abis, tells, e);
    }
  }

  /** So a list the map matches throughout decodes alike through either, throws included. */
  lemma MatchedListsDecodeAlike(abis: map<nat, seq<Member>>, selectors: map<(nat, Topic), Member>, decode: Decoder, list: seq<Event>)
    requires IsMapOf(selectors, abis) && forall a :: a in abis ==> DistinctSelectors(abis[a])
    requires forall i :: 0 <= i < |list| ==> (LowerCased(list[i].address), list[i].topic) in selectors
    ensures forall i :: 0 <= i < |list| ==> Preselected(selectors, decode, list[i]) == Whole(abis, decode, list[i])
  {
    forall i | 0 <= i < |list| ensures Preselected(selectors, decode, list[i]) == Whole(abis, decode, list[i]) {
      DistinctChooseAlike(AbiOf(abis, LowerCased(list[i].address)), list[i].topic);
    }
  }

  /** Two members of one selector, a fungible transfer and a token's, are chosen between differently. */
  lemma SharedSelectorsChooseApart(topic: Topic)
    ensures
      var abi := [Member(topic, false, 2), Member(topic, false, 3)];
      FirstWith(abi, topic) == Some(abi[0]) && LastNamed(abi, topic) == Some(abi[1]) && abi[0] != abi[1]
  {
  }
}
