/**
 * The reference processor of `examples/browser-reference` (`processor.ts`): tokens, the accounts
 * that hold them, a stored count per account and a row per holding, all kept by one handler.
 */
module TokenFold {
  import opened Options
  import opened StagedBlock

  type Address = nat
  const ZERO_ADDRESS: Address := 0

  datatype Key = TokenRow(id: nat) | TransferCount | Account(address: Address) | Holding(address: Address, id: nat)

  datatype Row = Owner(owner: Address) | Value(value: int) | Holds(holds: int) | NoFields

  type Rows = map<Key, Row>

  datatype Transfer = Transfer(from: Address, to: Address, id: nat)

  ghost predicate Typed(rows: Rows) {
    forall k :: k in rows ==>
      match k
      case TokenRow(_) => rows[k].Owner?
      case TransferCount => rows[k].Value?
      case Account(_) => rows[k].Holds?
      case Holding(_, _) => rows[k].NoFields?
  }

  // -------------------------------------------------------------------- what it does

  /** `row?.holds ?? otherwise`. */
  function HoldsOr(rows: Rows, a: Address, otherwise: int): int {
    if Account(a) in rows && rows[Account(a)].Holds? then rows[Account(a)].holds else otherwise
  }

  function Count(rows: Rows): int {
    if TransferCount in rows && rows[TransferCount].Value? then rows[TransferCount].value else 0
  }

  function Named(rows: Rows, t: Transfer): Rows {
    rows[TokenRow(t.id) := Owner(t.to)][TransferCount := Value(Count(rows) + 1)]
  }

  function Sent(rows: Rows, t: Transfer): Rows {
    if t.from == ZERO_ADDRESS then rows
    else (rows - {Holding(t.from, t.id)})[Account(t.from) := Holds(HoldsOr(rows, t.from, 1) - 1)]
  }

  function Received(rows: Rows, t: Transfer): Rows {
    rows[Holding(t.to, t.id) := NoFields][Account(t.to) := Holds(HoldsOr(rows, t.to, 0) + 1)]
  }

  function Folded(rows: Rows, t: Transfer): Rows { Received(Sent(Named(rows, t), t), t) }

  /** The rows some transfers leave, folded over others. */
  function FoldedOn(rows: Rows, transfers: seq<Transfer>): Rows {
    if transfers == [] then rows else Folded(FoldedOn(rows, transfers[..|transfers| - 1]), transfers[|transfers| - 1])
  }

  function FoldedAll(transfers: seq<Transfer>): Rows { FoldedOn(map[], transfers) }

  method Name(state: MutationContext<Key, Row>, t: Transfer)
    requires state.Valid() && Typed(state.View())
    modifies state
    ensures state.Valid() && Typed(state.View()) && state.View() == Named(old(state.View()), t)
  {
    state.Set(TokenRow(t.id), Owner(t.to));
    var counter := state.Get(TransferCount);
    state.Set(TransferCount, Value((if counter.Some? then counter.value.value else 0) + 1));
  }

  method Send(state: MutationContext<Key, Row>, t: Transfer)
    requires state.Valid() && Typed(state.View())
    modifies state
    ensures state.Valid() && Typed(state.View()) && state.View() == Sent(old(state.View()), t)
  {
    if t.from != ZERO_ADDRESS {
      state.Delete(Holding(t.from, t.id));
      var sender := state.Get(Account(t.from));
      state.Set(Account(t.from), Holds((if sender.Some? then sender.value.holds else 1) - 1));
    }
  }

  method Receive(state: MutationContext<Key, Row>, t: Transfer)
    requires state.Valid() && Typed(state.View())
    modifies state
    ensures state.Valid() && Typed(state.View()) && state.View() == Received(old(state.View()), t)
  {
    state.Set(Holding(t.to, t.id), NoFields);
    var receiver := state.Get(Account(t.to));
    state.Set(Account(t.to), Holds((if receiver.Some? then receiver.value.holds else 0) + 1));
  }

  /** The handler, reading its own earlier writes: a self-transfer's receiver is read after its sender is written. */
  method OnTransfer(state: MutationContext<Key, Row>, t: Transfer)
    requires state.Valid() && Typed(state.View())
    modifies state
    ensures state.Valid() && Typed(state.View())
    ensures state.View() == Folded(old(state.View()), t)
  {
    Name(state, t);
    Send(state, t);
    Receive(state, t);
  }

  function Flat(blocks: seq<seq<Transfer>>): seq<Transfer> {
    if blocks == [] then [] else Flat(blocks[..|blocks| - 1]) + blocks[|blocks| - 1]
  }

  lemma {:induction false} FoldedInTurn(rows: Rows, first: seq<Transfer>, rest: seq<Transfer>)
    ensures FoldedOn(FoldedOn(rows, first), rest) == FoldedOn(rows, first + rest)
  {
    hide Folded;
    if rest == [] {
      assert first + rest == first;
    } else {
      FoldedInTurn(rows, first, rest[..|rest| - 1]);
      assert (first + rest)[..|first + rest| - 1] == first + rest[..|rest| - 1];
    }
  }

  /** One block's transfers, in a staging area over the rows so far. */
  method FoldBlock(rows: Rows, block: seq<Transfer>) returns (after: Rows)
    requires Typed(rows)
    ensures after == FoldedOn(rows, block) && Typed(after)
  {
    hide Folded;
    var state := new MutationContext(rows);
    for j := 0 to |block|
      invariant state.Valid() && fresh(state) && Typed(state.View())
      invariant state.View() == FoldedOn(rows, block[..j])
    {
      assert block[..j + 1][..j] == block[..j];
      OnTransfer(state, block[j]);
    }
    assert block[..|block|] == block;
    var mutations := state.Mutations();
    after := AllWritten(rows, mutations);
  }

  /** However the transfers are grouped into blocks, each staged and flushed, the rows are those of the transfers in order. */
  method FoldBlocks(blocks: seq<seq<Transfer>>) returns (rows: Rows)
    ensures rows == FoldedAll(Flat(blocks)) && Typed(rows)
  {
    rows := map[];
    for i := 0 to |blocks|
      invariant rows == FoldedAll(Flat(blocks[..i])) && Typed(rows)
    {
      FoldedInTurn(map[], Flat(blocks[..i]), blocks[i]);
      assert blocks[..i + 1][..i] == blocks[..i];
      rows := FoldBlock(rows, blocks[i]);
    }
    assert blocks[..|blocks|] == blocks;
  }

  // ------------------------------------------------------------------- what it keeps

  /** Who a token belongs to; an unowned one belongs to the zero address. */
  function OwnerOf(rows: Rows, id: nat): Address {
    if TokenRow(id) in rows && rows[TokenRow(id)].Owner? then rows[TokenRow(id)].owner else ZERO_ADDRESS
  }

  function Holdings(rows: Rows, a: Address): set<Key> { set k | k in rows.Keys && k.Holding? && k.address == a }

  /** One account's rows agree with the tokens: its holdings are the tokens it owns, its count is how many. */
  ghost predicate AccountAgrees(rows: Rows, a: Address) {
    && (forall id :: Holding(a, id) in rows <==> OwnerOf(rows, id) == a)
    && HoldsOr(rows, a, 0) == |Holdings(rows, a)|
  }

  ghost predicate Agrees(rows: Rows) {
    Typed(rows) && forall a :: a != ZERO_ADDRESS ==> AccountAgrees(rows, a)
  }

  /** What a valid ERC-721 transfer names as its sender. */
  predicate FromOwner(rows: Rows, t: Transfer) { t.from == OwnerOf(rows, t.id) }

  /** The one other transfer the rows survive: of an unowned token, from an account that has no row yet. */
  predicate FromStranger(rows: Rows, t: Transfer) {
    OwnerOf(rows, t.id) == ZERO_ADDRESS && t.from != ZERO_ADDRESS && Account(t.from) !in rows
  }

  /** The holdings of an account after a transfer. */
  lemma HoldingsAfter(rows: Rows, t: Transfer, a: Address)
    ensures
      var kept := if a == t.from && a != ZERO_ADDRESS then Holdings(rows, a) - {Holding(a, t.id)} else Holdings(rows, a);
      Holdings(Folded(rows, t), a) == if a == t.to then kept + {Holding(a, t.id)} else kept
  {
  }

  /** The stored count after a transfer. */
  lemma HoldsAfter(rows: Rows, t: Transfer, a: Address)
    requires Typed(rows)
    ensures
      var sent := if a == t.from && a != ZERO_ADDRESS then HoldsOr(rows, a, 1) - 1 else HoldsOr(rows, a, 0);
      HoldsOr(Folded(rows, t), a, 0) == if a == t.to then sent + 1 else sent
  {
  }

  lemma OwnerAfter(rows: Rows, t: Transfer, id: nat)
    ensures OwnerOf(Folded(rows, t), id) == if id == t.id then t.to else OwnerOf(rows, id)
  {
  }

  lemma HoldingIsOne(rows: Rows, a: Address, id: nat)
    ensures Holding(a, id) in rows <==> Holding(a, id) in Holdings(rows, a)
  {
  }

  lemma FoldedKeepsAccount(rows: Rows, t: Transfer, a: Address)
    requires Agrees(rows) && a != ZERO_ADDRESS && (FromOwner(rows, t) || FromStranger(rows, t))
    ensures AccountAgrees(Folded(rows, t), a)
  {
    hide Folded, Holdings, OwnerOf, Typed;
    HoldingsAfter(rows, t, a);
    HoldsAfter(rows, t, a);
    assert AccountAgrees(rows, a);
    HoldingIsOne(rows, a, t.id);
    var after := Folded(rows, t);
    forall id ensures Holding(a, id) in after <==> OwnerOf(after, id) == a {
      HoldingIsOne(rows, a, id);
      HoldingIsOne(after, a, id);
      OwnerAfter(rows, t, id);
    }
  }

  lemma FoldedBreaksAccount(rows: Rows, t: Transfer)
    requires Agrees(rows) && !FromOwner(rows, t) && !FromStranger(rows, t)
    ensures !Agrees(Folded(rows, t))
  {
    var owner := OwnerOf(rows, t.id);
    var a := if owner != ZERO_ADDRESS then owner else t.from;
    HoldingsAfter(rows, t, a);
    HoldsAfter(rows, t, a);
    assert AccountAgrees(rows, a);
    assert Holding(a, t.id) in Holdings(rows, a) <==> owner == a;
    assert !AccountAgrees(Folded(rows, t), a);
  }

  /** One transfer keeps the rows in agreement exactly when it is valid, or is that one other. */
  lemma KeptExactly(rows: Rows, t: Transfer)
    requires Agrees(rows)
    ensures Agrees(Folded(rows, t)) <==> FromOwner(rows, t) || FromStranger(rows, t)
  {
    if FromOwner(rows, t) || FromStranger(rows, t) {
      forall a | a != ZERO_ADDRESS ensures AccountAgrees(Folded(rows, t), a) { FoldedKeepsAccount(rows, t, a); }
    } else {
      FoldedBreaksAccount(rows, t);
    }
  }

  // ------------------------------------------------------------------ over every stream

  function LastTo(transfers: seq<Transfer>, id: nat): Address {
    if transfers == [] then ZERO_ADDRESS
    else if transfers[|transfers| - 1].id == id then transfers[|transfers| - 1].to
    else LastTo(transfers[..|transfers| - 1], id)
  }

  /** Each `from` is whoever the token went to last, or zero for one that went nowhere. */
  ghost predicate ValidStream(transfers: seq<Transfer>) {
    forall i :: 0 <= i < |transfers| ==> transfers[i].from == LastTo(transfers[..i], transfers[i].id)
  }

  lemma {:induction false} OwnersAreLast(transfers: seq<Transfer>, id: nat)
    ensures OwnerOf(FoldedAll(transfers), id) == LastTo(transfers, id)
    ensures Count(FoldedAll(transfers)) == |transfers|
  {
    if transfers != [] { OwnersAreLast(transfers[..|transfers| - 1], id); }
  }

  /** Over every valid stream, self-transfers and burns included, every account but the zero one agrees. */
  lemma {:induction false} ValidStreamsAgree(transfers: seq<Transfer>)
    requires ValidStream(transfers)
    ensures Agrees(FoldedAll(transfers))
    ensures forall a, id :: a != ZERO_ADDRESS ==> (Holding(a, id) in FoldedAll(transfers) <==> LastTo(transfers, id) == a)
  {
    var rows := FoldedAll(transfers);
    if transfers == [] {
      forall a | a != ZERO_ADDRESS ensures AccountAgrees(rows, a) { assert Holdings(rows, a) == {}; }
    } else {
      var before, t := transfers[..|transfers| - 1], transfers[|transfers| - 1];
      assert forall i :: 0 <= i < |before| ==> before[..i] == transfers[..i];
      ValidStreamsAgree(before);
      OwnersAreLast(before, t.id);
      KeptExactly(FoldedAll(before), t);
    }
    forall a, id | a != ZERO_ADDRESS ensures Holding(a, id) in rows <==> LastTo(transfers, id) == a {
      assert AccountAgrees(rows, a);
      OwnersAreLast(transfers, id);
    }
  }

  // ------------------------------------------------------------------------- the totals

  function Holders(rows: Rows): set<Address> {
    set k | k in rows.Keys && k.Account? && k.address != ZERO_ADDRESS :: k.address
  }

  function OwnedTokens(rows: Rows): set<nat> {
    set k | k in rows.Keys && k.TokenRow? && OwnerOf(rows, k.id) != ZERO_ADDRESS :: k.id
  }

  /** The stored counts of some accounts, summed. */
  ghost function TotalHolds(rows: Rows, accounts: set<Address>): int {
    if accounts == {} then 0
    else
      var a :| a in accounts;
      HoldsOr(rows, a, 0) + TotalHolds(rows, accounts - {a})
  }

  function OwnedBy(rows: Rows, accounts: set<Address>): set<nat> {
    set k | k in rows.Keys && k.TokenRow? && OwnerOf(rows, k.id) in accounts :: k.id
  }

  lemma {:induction false} SameSize<A, B>(from: set<A>, to: set<B>, f: A -> B)
    requires forall x :: x in from ==> f(x) in to
    requires forall x, y :: x in from && y in from && f(x) == f(y) ==> x == y
    requires forall y :: y in to ==> exists x :: x in from && f(x) == y
    ensures |from| == |to|
    decreases from
  {
    if from == {} {
      assert to == {};
    } else {
      var x :| x in from;
      SameSize(from - {x}, to - {f(x)}, f);
    }
  }

  lemma HoldsAreTokens(rows: Rows, a: Address)
    requires Agrees(rows) && a != ZERO_ADDRESS
    ensures HoldsOr(rows, a, 0) == |OwnedBy(rows, {a})|
  {
    assert AccountAgrees(rows, a);
    var holdings, tokens := Holdings(rows, a), OwnedBy(rows, {a});
    forall id | id in tokens ensures exists k :: k in holdings && IdOf(k) == id { assert Holding(a, id) in holdings; }
    forall k | k in holdings ensures IdOf(k) in tokens { assert TokenRow(k.id) in rows; }
    SameSize(holdings, tokens, IdOf);
  }

  function IdOf(k: Key): nat { if k.Holding? then k.id else 0 }

  lemma {:induction false} TotalIsOwned(rows: Rows, accounts: set<Address>)
    requires Agrees(rows) && ZERO_ADDRESS !in accounts
    ensures TotalHolds(rows, accounts) == |OwnedBy(rows, accounts)|
    decreases accounts
  {
    if accounts == {} {
      assert OwnedBy(rows, accounts) == {};
    } else {
      var a :| a in accounts && TotalHolds(rows, accounts) == HoldsOr(rows, a, 0) + TotalHolds(rows, accounts - {a});
      TotalIsOwned(rows, accounts - {a});
      HoldsAreTokens(rows, a);
      assert OwnedBy(rows, accounts) == OwnedBy(rows, accounts - {a}) + OwnedBy(rows, {a});
      assert OwnedBy(rows, accounts - {a}) !! OwnedBy(rows, {a});
    }
  }

  /** Over every valid stream, what the accounts say they hold adds up to the tokens that have an owner. */
  lemma HoldsAddUp(transfers: seq<Transfer>)
    requires ValidStream(transfers)
    ensures TotalHolds(FoldedAll(transfers), Holders(FoldedAll(transfers))) == |OwnedTokens(FoldedAll(transfers))|
  {
    var rows := FoldedAll(transfers);
    ValidStreamsAgree(transfers);
    TotalIsOwned(rows, Holders(rows));
    forall id | id in OwnedTokens(rows) ensures OwnerOf(rows, id) in Holders(rows) {
      var a := OwnerOf(rows, id);
      assert AccountAgrees(rows, a) && Holding(a, id) in Holdings(rows, a);
      assert |Holdings(rows, a)| > 0;
      assert Account(a) in rows.Keys;
    }
    assert OwnedBy(rows, Holders(rows)) == OwnedTokens(rows);
  }

  // ------------------------------------------------------------------ the zero address

  ghost predicate Burnt(transfers: seq<Transfer>, id: nat) {
    exists i :: 0 <= i < |transfers| && transfers[i].to == ZERO_ADDRESS && transfers[i].id == id
  }

  function Burns(transfers: seq<Transfer>): nat {
    if transfers == [] then 0
    else Burns(transfers[..|transfers| - 1]) + if transfers[|transfers| - 1].to == ZERO_ADDRESS then 1 else 0
  }

  /** Over any stream the zero address holds exactly the tokens ever burnt, and counts every burning. */
  lemma {:induction false} ZeroHoldsTheBurnt(transfers: seq<Transfer>)
    ensures forall id :: Holding(ZERO_ADDRESS, id) in FoldedAll(transfers) <==> Burnt(transfers, id)
    ensures HoldsOr(FoldedAll(transfers), ZERO_ADDRESS, 0) == Burns(transfers)
    ensures Typed(FoldedAll(transfers))
  {
    if transfers != [] {
      var before, t := transfers[..|transfers| - 1], transfers[|transfers| - 1];
      ZeroHoldsTheBurnt(before);
      forall id ensures Holding(ZERO_ADDRESS, id) in FoldedAll(transfers) <==> Burnt(transfers, id) {
        BurntNext(before, t, id);
        assert transfers == before + [t];
        ZeroHoldingNext(FoldedAll(before), t, id);
      }
      HoldsAfter(FoldedAll(before), t, ZERO_ADDRESS);
    }
  }

  lemma BurntNext(before: seq<Transfer>, t: Transfer, id: nat)
    ensures Burnt(before + [t], id) <==> Burnt(before, id) || (t.to == ZERO_ADDRESS && t.id == id)
  {
    var all := before + [t];
    if i :| 0 <= i < |before| && before[i].to == ZERO_ADDRESS && before[i].id == id { assert all[i] == before[i]; }
    if t.to == ZERO_ADDRESS && t.id == id { assert all[|before|] == t; }
  }

  lemma ZeroHoldingNext(rows: Rows, t: Transfer, id: nat)
    ensures Holding(ZERO_ADDRESS, id) in Folded(rows, t)
            <==> Holding(ZERO_ADDRESS, id) in rows || (t.to == ZERO_ADDRESS && t.id == id)
  {
  }

  /** The zero address's rows agree with the tokens that have been burnt, as any account's do with its own. */
  ghost predicate ZeroAgrees(rows: Rows) {
    && (forall id :: Holding(ZERO_ADDRESS, id) in rows ==> OwnerOf(rows, id) == ZERO_ADDRESS)
    && (forall id :: TokenRow(id) in rows && OwnerOf(rows, id) == ZERO_ADDRESS ==> Holding(ZERO_ADDRESS, id) in rows)
    && HoldsOr(rows, ZERO_ADDRESS, 0) == |Holdings(rows, ZERO_ADDRESS)|
  }

  /** Some token moved again after it was burnt. */
  ghost predicate MovedAfterBurning(transfers: seq<Transfer>) {
    exists i, j :: 0 <= i < j < |transfers| && transfers[i].to == ZERO_ADDRESS && transfers[j].id == transfers[i].id
  }

  ghost predicate BurntTwice(transfers: seq<Transfer>) {
    exists i, j :: 0 <= i < j < |transfers| && transfers[i].to == transfers[j].to == ZERO_ADDRESS && transfers[j].id == transfers[i].id
  }

  lemma BurntTwiceNext(before: seq<Transfer>, t: Transfer)
    ensures BurntTwice(before + [t]) <==> BurntTwice(before) || (t.to == ZERO_ADDRESS && Burnt(before, t.id))
  {
    var all := before + [t];
    if BurntTwice(before) {
      var i, j :| 0 <= i < j < |before| && before[i].to == before[j].to == ZERO_ADDRESS && before[j].id == before[i].id;
      assert all[i] == before[i] && all[j] == before[j];
    }
    if t.to == ZERO_ADDRESS && Burnt(before, t.id) {
      var i :| 0 <= i < |before| && before[i].to == ZERO_ADDRESS && before[i].id == t.id;
      assert all[i] == before[i] && all[|before|] == t;
    }
    if BurntTwice(all) {
      var i, j :| 0 <= i < j < |all| && all[i].to == all[j].to == ZERO_ADDRESS && all[j].id == all[i].id;
      assert before[i] == all[i];
      if j < |before| { assert before[j] == all[j]; }
    }
  }

  /** The zero address's count exceeds its holdings exactly when a token was burnt twice. */
  lemma {:induction false} ZeroCount(transfers: seq<Transfer>)
    ensures |Holdings(FoldedAll(transfers), ZERO_ADDRESS)| <= Burns(transfers)
    ensures |Holdings(FoldedAll(transfers), ZERO_ADDRESS)| == Burns(transfers) <==> !BurntTwice(transfers)
  {
    if transfers == [] {
      assert Holdings(FoldedAll(transfers), ZERO_ADDRESS) == {};
    } else {
      var before, t := transfers[..|transfers| - 1], transfers[|transfers| - 1];
      assert transfers == before + [t];
      ZeroCount(before);
      BurntTwiceNext(before, t);
      ZeroHoldsTheBurnt(before);
      HoldingsAfter(FoldedAll(before), t, ZERO_ADDRESS);
      assert Burnt(before, t.id) <==> Holding(ZERO_ADDRESS, t.id) in Holdings(FoldedAll(before), ZERO_ADDRESS);
    }
  }

  /** A token's last transfer. */
  lemma {:induction false} LastIsSome(transfers: seq<Transfer>, id: nat) returns (last: nat)
    requires exists i :: 0 <= i < |transfers| && transfers[i].id == id
    ensures last < |transfers| && transfers[last].id == id && transfers[last].to == LastTo(transfers, id)
    ensures forall i :: last < i < |transfers| ==> transfers[i].id != id
  {
    last := |transfers| - 1;
    if transfers[last].id != id {
      var i :| 0 <= i < |transfers| && transfers[i].id == id;
      assert transfers[..last][i].id == id;
      last := LastIsSome(transfers[..last], id);
    }
  }

  lemma MovedAfterExactly(transfers: seq<Transfer>)
    ensures MovedAfterBurning(transfers)
            <==> BurntTwice(transfers) || exists id :: Burnt(transfers, id) && LastTo(transfers, id) != ZERO_ADDRESS
  {
    if MovedAfterBurning(transfers) {
      var i, j :| 0 <= i < j < |transfers| && transfers[i].to == ZERO_ADDRESS && transfers[j].id == transfers[i].id;
      var last := LastIsSome(transfers, transfers[i].id);
      assert j <= last;
      assert Burnt(transfers, transfers[i].id);
    }
    if id :| Burnt(transfers, id) && LastTo(transfers, id) != ZERO_ADDRESS {
      var i :| 0 <= i < |transfers| && transfers[i].to == ZERO_ADDRESS && transfers[i].id == id;
      var last := LastIsSome(transfers, id);
      assert i < last;
    }
  }

  lemma {:induction false} RowIsMoved(transfers: seq<Transfer>, id: nat)
    ensures TokenRow(id) in FoldedAll(transfers) <==> exists i :: 0 <= i < |transfers| && transfers[i].id == id
  {
    if transfers != [] {
      RowIsMoved(transfers[..|transfers| - 1], id);
      if i :| 0 <= i < |transfers| && transfers[i].id == id && i < |transfers| - 1 {
        assert transfers[..|transfers| - 1][i].id == id;
      }
    }
  }

  /** Over every stream, the zero address's rows agree if and only if no token moved again after it was burnt. */
  lemma ZeroAgreesExactly(transfers: seq<Transfer>)
    ensures ZeroAgrees(FoldedAll(transfers)) <==> !MovedAfterBurning(transfers)
  {
    var rows := FoldedAll(transfers);
    ZeroHoldsTheBurnt(transfers);
    ZeroCount(transfers);
    MovedAfterExactly(transfers);
    forall id ensures OwnerOf(rows, id) == LastTo(transfers, id) { OwnersAreLast(transfers, id); }
    forall id | TokenRow(id) in rows && OwnerOf(rows, id) == ZERO_ADDRESS ensures Burnt(transfers, id) {
      RowIsMoved(transfers, id);
      var last := LastIsSome(transfers, id);
      assert transfers[last].to == ZERO_ADDRESS;
    }
  }
}
