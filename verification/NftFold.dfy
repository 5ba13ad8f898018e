/**
 * The NFT processor of `examples/event-processor-nfts` (`entities.ts`): who owns a token, and its
 * inverse, which tokens an owner has, kept row by row. Addresses are told apart as lower-cased.
 */
module NftFold {
  import opened Options
  import opened StagedBlock

  type Address = nat
  const ZERO_ADDRESS: Address := 0

  datatype Token = Token(collection: Address, id: nat)

  datatype Counter = Transfers | Undecodable

  datatype Key = Nft(token: Token) | Ownership(owner: Address, token: Token) | CounterOf(name: Counter)

  datatype Row = Owner(owner: Address) | NoFields | Value(value: nat)

  type Rows = map<Key, Row>

  /** A decoded transfer, or an event whose decoding failed. `from` is carried and never read. */
  datatype Event = Transfer(token: Token, from: Address, to: Address) | Unparsed

  /** The row of an `nft` or `counter` key, by the fields its entity declares. */
  ghost predicate Typed(rows: Rows) {
    forall k :: k in rows ==>
      match k
      case Nft(_) => rows[k].Owner?
      case Ownership(_, _) => rows[k].NoFields?
      case CounterOf(_) => rows[k].Value?
  }

  // -------------------------------------------------------------------- what it does

  function Count(rows: Rows, name: Counter): nat {
    if CounterOf(name) in rows && rows[CounterOf(name)].Value? then rows[CounterOf(name)].value else 0
  }

  function Counted(rows: Rows, name: Counter): Rows { rows[CounterOf(name) := Value(Count(rows, name) + 1)] }

  function Moved(rows: Rows, token: Token, to: Address): Rows {
    var closed := if Nft(token) in rows && rows[Nft(token)].Owner?
                  then rows - {Ownership(rows[Nft(token)].owner, token)} else rows;
    if to == ZERO_ADDRESS then closed - {Nft(token)}
    else closed[Nft(token) := Owner(to)][Ownership(to, token) := NoFields]
  }

  function Folded(rows: Rows, e: Event): Rows {
    match e
    case Transfer(token, _, to) => Counted(Moved(rows, token, to), Transfers)
    case Unparsed => Counted(rows, Undecodable)
  }

  function FoldedAll(rows: Rows, events: seq<Event>): Rows {
    if events == [] then rows else Folded(FoldedAll(rows, events[..|events| - 1]), events[|events| - 1])
  }

  method Increment(state: MutationContext<Key, Row>, name: Counter)
    requires state.Valid() && Typed(state.View())
    modifies state
    ensures state.Valid() && state.View() == Counted(old(state.View()), name)
  {
    var counter := state.Get(CounterOf(name));
    state.Set(CounterOf(name), Value((if counter.Some? then counter.value.value else 0) + 1));
  }

  method OnTransfer(state: MutationContext<Key, Row>, token: Token, from: Address, to: Address)
    requires state.Valid() && Typed(state.View())
    modifies state
    ensures state.Valid() && Typed(state.View())
    ensures state.View() == Folded(old(state.View()), Transfer(token, from, to))
  {
    var previous := state.Get(Nft(token));
    if previous.Some? { state.Delete(Ownership(previous.value.owner, token)); }
    if to == ZERO_ADDRESS {
      state.Delete(Nft(token));
    } else {
      state.Set(Nft(token), Owner(to));
      state.Set(Ownership(to, token), NoFields);
    }
    assert state.View() == Moved(old(state.View()), token, to);
    Increment(state, Transfers);
  }

  method HandleUnparsedEvent(state: MutationContext<Key, Row>)
    requires state.Valid() && Typed(state.View())
    modifies state
    ensures state.Valid() && Typed(state.View())
    ensures state.View() == Folded(old(state.View()), Unparsed)
  {
    Increment(state, Undecodable);
  }

  function Flat(blocks: seq<seq<Event>>): seq<Event> {
    if blocks == [] then [] else Flat(blocks[..|blocks| - 1]) + blocks[|blocks| - 1]
  }

  lemma {:induction false} FoldedInTurn(rows: Rows, first: seq<Event>, rest: seq<Event>)
    ensures FoldedAll(FoldedAll(rows, first), rest) == FoldedAll(rows, first + rest)
  {
    if rest == [] {
      assert first + rest == first;
    } else {
      FoldedInTurn(rows, first, rest[..|rest| - 1]);
      assert (first + rest)[..|first + rest| - 1] == first + rest[..|rest| - 1];
    }
  }

  /** Block by block, each in a staging area flushed before the next: the rows depend on the events alone. */
  method FoldBlocks(blocks: seq<seq<Event>>) returns (rows: Rows)
    ensures rows == FoldedAll(map[], Flat(blocks)) && Typed(rows)
  {
    rows := map[];
    for i := 0 to |blocks|
      invariant rows == FoldedAll(map[], Flat(blocks[..i])) && Typed(rows)
    {
      var state := new MutationContext(rows);
      for j := 0 to |blocks[i]|
        invariant state.Valid() && fresh(state) && Typed(state.View())
        invariant state.View() == FoldedAll(rows, blocks[i][..j])
      {
        assert blocks[i][..j + 1][..j] == blocks[i][..j];
        match blocks[i][j]
        case Transfer(token, from, to) => OnTransfer(state, token, from, to);
        case Unparsed => HandleUnparsedEvent(state);
      }
      var mutations := state.Mutations();
      FoldedInTurn(map[], Flat(blocks[..i]), blocks[i]);
      assert blocks[i][..|blocks[i]|] == blocks[i] && blocks[..i + 1][..i] == blocks[..i];
      rows := AllWritten(rows, mutations);
    }
    assert blocks[..|blocks|] == blocks;
  }

  // ------------------------------------------------------------------- what it keeps

  /** The index is the inverse of ownership, and nobody is the zero address. */
  ghost predicate Agrees(rows: Rows) {
    && Typed(rows)
    && (forall o, t :: Ownership(o, t) in rows <==> Nft(t) in rows && rows[Nft(t)] == Owner(o))
    && (forall t :: Nft(t) in rows ==> rows[Nft(t)] != Owner(ZERO_ADDRESS))
  }

  lemma FoldedAgrees(rows: Rows, e: Event)
    requires Agrees(rows)
    ensures Agrees(Folded(rows, e))
  {
  }

  function TransfersIn(events: seq<Event>): nat {
    if events == [] then 0 else TransfersIn(events[..|events| - 1]) + if events[|events| - 1].Transfer? then 1 else 0
  }

  /** Who the last transfer of a token went to. */
  function LastTo(events: seq<Event>, t: Token): Option<Address> {
    if events == [] then None
    else
      var e := events[|events| - 1];
      if e.Transfer? && e.token == t then Some(e.to) else LastTo(events[..|events| - 1], t)
  }

  /**
   * Over every stream whatsoever: the two entities agree and name no zero address, a token's owner is
   * whoever its last transfer went to, and the counters are the events there were.
   */
  lemma {:induction false} EveryStreamAgrees(events: seq<Event>)
    ensures
      var rows := FoldedAll(map[], events);
      && Agrees(rows)
      && (forall t :: Nft(t) in rows <==> LastTo(events, t).Some? && LastTo(events, t) != Some(ZERO_ADDRESS))
      && (forall t :: Nft(t) in rows ==> rows[Nft(t)] == Owner(LastTo(events, t).value))
      && Count(rows, Transfers) == TransfersIn(events)
      && Count(rows, Undecodable) == |events| - TransfersIn(events)
  {
    if events != [] {
      EveryStreamAgrees(events[..|events| - 1]);
      FoldedAgrees(FoldedAll(map[], events[..|events| - 1]), events[|events| - 1]);
    }
  }
}
