/**
 * Order and bound: the planned selection ordered by one column with the id as tie break, and
 * cut to its limit, is one page whichever backend sorts it.
 */
module QueryPage {
  import opened Options
  import opened Bytes
  import opened Text
  import opened QueryPlan

  datatype OrderBy = OrderBy(column: Name, descending: bool)

  /** What a caller asks; the limit is any number JavaScript may hand over. */
  datatype Selection = Selection(where: Option<Where>, orderBy: Option<OrderBy>, limit: real)

  datatype Planned = Planned(where: Option<Plan>, orderBy: Option<OrderBy>, limit: nat)

  datatype Refusal = BadLimit | BadPredicate(why: QueryPlan.Refusal) | BadOrder(column: Name)

  datatype Planning = Plans(selection: Planned) | Refuses(why: Refusal)

  /** `planSelection`, without the block height. */
  function PlanSelection(spell: real -> Str, e: Entity, query: Selection): Planning {
    if query.limit != query.limit.Floor as real || query.limit < 1.0 then Refuses(BadLimit)
    else
      var where := if query.where.None? then Ok(None)
                   else match PlanWhere(spell, e, query.where.value)
                        case Ok(p) => Ok(Some(p))
                        case Refused(why) => Refused(why);
      if where.Refused? then Refuses(BadPredicate(where.why))
      else if query.orderBy.Some? && KindOf(e, query.orderBy.value.column).None? then
        Refuses(BadOrder(query.orderBy.value.column))
      else Plans(Planned(where.value, query.orderBy, query.limit.Floor))
  }

  // ---------------------------------------------------------------------- row order

  /** Stored values in the order of one backend: SQLite's collation, or the in-memory one. */
  function CompareOn(sql: bool, a: Stored, b: Stored): int { if sql then SqlCompare(a, b) else CompareStored(a, b) }

  /** Null is the smallest value: first ascending, last descending. */
  function CompareNulls(sql: bool, a: Stored, b: Stored): int {
    if a == SNull then (if b == SNull then 0 else -1) else if b == SNull then 1 else CompareOn(sql, a, b)
  }

  function Cell(row: Row, column: Name): Stored { StoredForm(At(row, column)) }

  function Then(first: int, rest: int): int { if first != 0 then first else rest }

  function CompareIds(sql: bool, ids: seq<Name>, a: Row, b: Row): int {
    if ids == [] then 0
    else Then(CompareOn(sql, Cell(a, ids[0]), Cell(b, ids[0])), CompareIds(sql, ids[1..], a, b))
  }

  function CompareRows(sql: bool, e: Entity, orderBy: Option<OrderBy>, a: Row, b: Row): int {
    var byColumn :=
      if orderBy.None? then 0
      else
        var c := CompareNulls(sql, Cell(a, orderBy.value.column), Cell(b, orderBy.value.column));
        if orderBy.value.descending then -c else c;
    Then(byColumn, CompareIds(sql, e.id, a, b))
  }

  /** A table: rows of the entity, their text well-formed, one row to an id. */
  ghost predicate Table(e: Entity, rows: seq<Row>) {
    && (forall r :: r in rows ==> RowOf(e, r) && ClearRow(r))
    && (forall a, b :: a in rows && b in rows && (forall c :: c in e.id ==> At(a, c) == At(b, c)) ==> a == b)
  }

  ghost predicate Declares(e: Entity, orderBy: Option<OrderBy>) {
    orderBy.Some? ==> KindOf(e, orderBy.value.column).Some?
  }

  // ------------------------------------------------------- it is one order on one table

  /** Three comparisons of a chain a, b, c fit one order, read either way. */
  predicate Chain(ab: int, bc: int, ac: int) {
    && (ab <= 0 && bc <= 0 ==> ac <= 0 && (ac == 0 ==> ab == 0 && bc == 0))
    && (ab >= 0 && bc >= 0 ==> ac >= 0 && (ac == 0 ==> ab == 0 && bc == 0))
  }

  lemma {:induction false} BytesChain(a: seq<nat>, b: seq<nat>, c: seq<nat>)
    ensures Chain(Sign(Bytes.Compare(a, b)), Sign(Bytes.Compare(b, c)), Sign(Bytes.Compare(a, c)))
  {
    if a != [] && b != [] && c != [] && a[0] == b[0] == c[0] { BytesChain(a[1..], b[1..], c[1..]); }
  }

  /** Null, or of one kind: what the cells of one column are. */
  predicate Alike(a: Stored, b: Stored) {
    a == SNull || b == SNull || (a.SText? && b.SText?) || (a.SNumber? && b.SNumber?) || (a.SBytes? && b.SBytes?)
  }

  lemma CellsChain(a: Stored, b: Stored, c: Stored)
    requires Alike(a, b) && Alike(b, c) && Alike(a, c)
    ensures Chain(CompareNulls(true, a, b), CompareNulls(true, b, c), CompareNulls(true, a, c))
    ensures CompareNulls(true, b, a) == -CompareNulls(true, a, b)
  {
    match (a, b, c) {
      case (SText(s), SText(t), SText(u)) => BytesChain(Utf8(s), Utf8(t), Utf8(u));
      case (SBytes(s), SBytes(t), SBytes(u)) => BytesChain(s, t, u);
      case _ =>
    }
    match (a, b) {
      case (SText(s), SText(t)) => CompareFlips(Utf8(s), Utf8(t));
      case (SBytes(s), SBytes(t)) => CompareFlips(s, t);
      case _ =>
    }
  }

  lemma CellsAlike(e: Entity, a: Row, b: Row, column: Name)
    requires RowOf(e, a) && RowOf(e, b) && KindOf(e, column).Some?
    ensures Alike(Cell(a, column), Cell(b, column))
    ensures column in e.id ==> Cell(a, column).SText? && Cell(b, column).SText?
  {
    assert HoldsKind(KindOf(e, column).value, At(a, column)) && HoldsKind(KindOf(e, column).value, At(b, column));
  }

  lemma {:induction false} IdsChain(e: Entity, ids: seq<Name>, a: Row, b: Row, c: Row)
    requires RowOf(e, a) && RowOf(e, b) && RowOf(e, c) && forall i :: 0 <= i < |ids| ==> ids[i] in e.id
    ensures Chain(CompareIds(true, ids, a, b), CompareIds(true, ids, b, c), CompareIds(true, ids, a, c))
    ensures CompareIds(true, ids, b, a) == -CompareIds(true, ids, a, b)
  {
    if ids != [] {
      CellsAlike(e, a, b, ids[0]);
      CellsAlike(e, b, c, ids[0]);
      CellsChain(Cell(a, ids[0]), Cell(b, ids[0]), Cell(c, ids[0]));
      IdsChain(e, ids[1..], a, b, c);
    }
  }

  lemma RowsChain(e: Entity, orderBy: Option<OrderBy>, a: Row, b: Row, c: Row)
    requires RowOf(e, a) && RowOf(e, b) && RowOf(e, c) && Declares(e, orderBy)
    ensures Chain(CompareRows(true, e, orderBy, a, b), CompareRows(true, e, orderBy, b, c), CompareRows(true, e, orderBy, a, c))
    ensures CompareRows(true, e, orderBy, b, a) == -CompareRows(true, e, orderBy, a, b)
  {
    IdsChain(e, e.id, a, b, c);
    if orderBy.Some? {
      var column := orderBy.value.column;
      CellsAlike(e, a, b, column);
      CellsAlike(e, b, c, column);
      CellsAlike(e, a, c, column);
      CellsChain(Cell(a, column), Cell(b, column), Cell(c, column));
    }
  }

  lemma {:induction false} SameUnits(s: Str, t: Str)
    requires CompareUnits(s, t) == 0
    ensures s == t
  {
    if s != [] && t != [] && s[0] == t[0] {
      SameUnits(s[1..], t[1..]);
      assert s == [s[0]] + s[1..] && t == [t[0]] + t[1..];
    }
  }

  lemma {:induction false} TiedIdsAreEqual(e: Entity, ids: seq<Name>, a: Row, b: Row)
    requires RowOf(e, a) && RowOf(e, b) && ClearRow(a) && ClearRow(b) && forall i :: 0 <= i < |ids| ==> ids[i] in e.id
    requires CompareIds(true, ids, a, b) == 0
    ensures forall c :: c in ids ==> At(a, c) == At(b, c)
  {
    if ids != [] {
      CellsAlike(e, a, b, ids[0]);
      var s, t := Cell(a, ids[0]).text, Cell(b, ids[0]).text;
      assert At(a, ids[0]) == TextValue(s) && At(b, ids[0]) == TextValue(t);
      CompareUtf8IsByteOrder(s, t);
      SameUnits(s, t);
      TiedIdsAreEqual(e, ids[1..], a, b);
    }
  }

  /** Both backends compare rows alike. */
  lemma {:induction false} IdsCompareAlike(e: Entity, ids: seq<Name>, a: Row, b: Row)
    requires RowOf(e, a) && RowOf(e, b) && ClearRow(a) && ClearRow(b) && forall i :: 0 <= i < |ids| ==> ids[i] in e.id
    ensures CompareIds(true, ids, a, b) == CompareIds(false, ids, a, b)
  {
    if ids != [] {
      CellsCompareAlike(a, b, ids[0]);
      IdsCompareAlike(e, ids[1..], a, b);
    }
  }

  lemma CellsCompareAlike(a: Row, b: Row, column: Name)
    requires ClearRow(a) && ClearRow(b)
    ensures CompareOn(true, Cell(a, column), Cell(b, column)) == CompareOn(false, Cell(a, column), Cell(b, column))
  {
    if Cell(a, column).SText? && Cell(b, column).SText? {
      CompareUtf8IsByteOrder(Cell(a, column).text, Cell(b, column).text);
    }
  }

  lemma RowsCompareAlike(e: Entity, orderBy: Option<OrderBy>, a: Row, b: Row)
    requires RowOf(e, a) && RowOf(e, b) && ClearRow(a) && ClearRow(b)
    ensures CompareRows(true, e, orderBy, a, b) == CompareRows(false, e, orderBy, a, b)
  {
    IdsCompareAlike(e, e.id, a, b);
    if orderBy.Some? { CellsCompareAlike(a, b, orderBy.value.column); }
  }

  // --------------------------------------------------------------------------- pages

  ghost predicate Sorted(sql: bool, e: Entity, orderBy: Option<OrderBy>, rows: seq<Row>) {
    forall i :: 0 < i < |rows| ==> CompareRows(sql, e, orderBy, rows[i - 1], rows[i]) <= 0
  }

  ghost predicate Before(e: Entity, orderBy: Option<OrderBy>, a: Row, b: Row) { CompareRows(true, e, orderBy, a, b) <= 0 }

  lemma {:induction false} FirstIsLeast(e: Entity, orderBy: Option<OrderBy>, rows: seq<Row>, i: nat)
    requires i < |rows| && (forall j :: 0 < j < |rows| ==> Before(e, orderBy, rows[j - 1], rows[j]))
    requires Before(e, orderBy, rows[0], rows[0])
    requires forall a, b, c :: a in rows && b in rows && c in rows && Before(e, orderBy, a, b) && Before(e, orderBy, b, c)
               ==> Before(e, orderBy, a, c)
    ensures Before(e, orderBy, rows[0], rows[i])
  {
    if i > 0 {
      FirstIsLeast(e, orderBy, rows, i - 1);
      assert rows[0] in rows && rows[i - 1] in rows && rows[i] in rows;
    }
  }

  lemma LeastOfTable(e: Entity, orderBy: Option<OrderBy>, table: seq<Row>, rows: seq<Row>, i: nat)
    requires Table(e, table) && Within(rows, table) && Declares(e, orderBy) && Sorted(true, e, orderBy, rows) && i < |rows|
    ensures CompareRows(true, e, orderBy, rows[0], rows[i]) <= 0
  {
    forall j | 0 < j < |rows| ensures Before(e, orderBy, rows[j - 1], rows[j]) {}
    forall a, b, c | a in rows && b in rows && c in rows && Before(e, orderBy, a, b) && Before(e, orderBy, b, c)
      ensures Before(e, orderBy, a, c)
    {
      RowsChain(e, orderBy, a, b, c);
    }
    assert rows[0] in rows;
    RowsChain(e, orderBy, rows[0], rows[0], rows[0]);
    FirstIsLeast(e, orderBy, rows, i);
  }

  lemma SameElements<T>(s: seq<T>, t: seq<T>)
    requires multiset(s) == multiset(t)
    ensures |s| == |t| && forall x :: x in s <==> x in t
  {
    assert |multiset(s)| == |s| && |multiset(t)| == |t|;
    forall x ensures x in s <==> x in t { assert x in s <==> x in multiset(s); assert x in t <==> x in multiset(t); }
  }

  ghost predicate Within(rows: seq<Row>, table: seq<Row>) { forall r :: r in rows ==> r in table }

  lemma HeadsMeet(e: Entity, orderBy: Option<OrderBy>, table: seq<Row>, s: seq<Row>, t: seq<Row>)
    requires Table(e, table) && Within(s, table) && Within(t, table) && Declares(e, orderBy)
    requires s != [] && t != [] && forall x :: x in s <==> x in t
    requires Sorted(true, e, orderBy, s) && Sorted(true, e, orderBy, t)
    ensures s[0] == t[0]
  {
    assert s[0] in t && t[0] in s && s[0] in table && t[0] in table;
    var i :| 0 <= i < |s| && s[i] == t[0];
    var j :| 0 <= j < |t| && t[j] == s[0];
    LeastOfTable(e, orderBy, table, s, i);
    LeastOfTable(e, orderBy, table, t, j);
    RowsChain(e, orderBy, s[0], t[0], s[0]);
    TiedIdsAreEqual(e, e.id, s[0], t[0]);
  }

  lemma TailSorted(e: Entity, orderBy: Option<OrderBy>, s: seq<Row>)
    requires s != [] && Sorted(true, e, orderBy, s)
    ensures Sorted(true, e, orderBy, s[1..])
  {
    var t := s[1..];
    forall i | 0 < i < |t| ensures CompareRows(true, e, orderBy, t[i - 1], t[i]) <= 0 {
      assert t[i - 1] == s[i] && t[i] == s[i + 1];
    }
  }

  /** A table's rows can be sorted one way only. */
  lemma {:induction false} OneSorting(e: Entity, orderBy: Option<OrderBy>, table: seq<Row>, s: seq<Row>, t: seq<Row>)
    requires Table(e, table) && Within(s, table) && Within(t, table) && Declares(e, orderBy) && multiset(s) == multiset(t)
    requires Sorted(true, e, orderBy, s) && Sorted(true, e, orderBy, t)
    ensures s == t
  {
    SameElements(s, t);
    if s != [] {
      HeadsMeet(e, orderBy, table, s, t);
      TailSorted(e, orderBy, s);
      TailSorted(e, orderBy, t);
      assert s == [s[0]] + s[1..] && t == [t[0]] + t[1..];
      assert multiset(s[1..]) == multiset(s) - multiset{s[0]} == multiset(t) - multiset{t[0]} == multiset(t[1..]);
      OneSorting(e, orderBy, table, s[1..], t[1..]);
    }
  }

  datatype Page = Page(rows: seq<Row>, truncated: bool)

  function Upto(rows: seq<Row>, n: nat): seq<Row> { if |rows| <= n then rows else rows[..n] }

  /** `boundedListing` over at most `limit + 1` fetched rows. */
  function BoundedListing(fetched: seq<Row>, limit: nat): Page { Page(Upto(fetched, limit), |fetched| > limit) }

  /** Fetching one row more than the limit is enough to know whether there were more. */
  lemma OneRowMore(rows: seq<Row>, limit: nat)
    ensures BoundedListing(Upto(rows, limit + 1), limit) == Page(Upto(rows, limit), |rows| > limit)
  {
  }

  function Filtered(sql: bool, plan: Option<Plan>, rows: seq<Row>): seq<Row> {
    if rows == [] then []
    else
      var rest := Filtered(sql, plan, rows[1..]);
      if plan.None? || (if sql then Sql(plan.value, rows[0]) == True else Matches(plan.value, rows[0]))
      then [rows[0]] + rest else rest
  }

  lemma {:induction false} FilteredIn(sql: bool, plan: Option<Plan>, rows: seq<Row>)
    ensures forall r :: r in Filtered(sql, plan, rows) ==> r in rows
  {
    if rows != [] { FilteredIn(sql, plan, rows[1..]); }
  }

  lemma {:induction false} FilteredAlike(spell: real -> Str, e: Entity, where: Where, rows: seq<Row>)
    requires PlanWhere(spell, e, where).Ok? && Clear(where) && ClearSpelling(spell)
    requires forall r :: r in rows ==> RowOf(e, r) && ClearRow(r)
    ensures Filtered(true, Some(PlanWhere(spell, e, where).value), rows)
              == Filtered(false, Some(PlanWhere(spell, e, where).value), rows)
  {
    if rows != [] {
      PlanMeansTheSame(spell, e, where, rows[0]);
      FilteredAlike(spell, e, where, rows[1..]);
    }
  }

  lemma {:induction false} UnfilteredAlike(rows: seq<Row>)
    ensures Filtered(true, None, rows) == Filtered(false, None, rows)
  {
    if rows != [] { UnfilteredAlike(rows[1..]); }
  }

  /**
   * `find` answers one page: however the in-memory backend and SQL order the rows they select,
   * as long as each sorts by its own comparison, they cut the same rows in the same order.
   */
  lemma FindAnswersOnePage(spell: real -> Str, e: Entity, query: Selection, table: seq<Row>, inMemory: seq<Row>, inSql: seq<Row>)
    requires PlanSelection(spell, e, query).Plans? && Table(e, table)
    requires ClearSpelling(spell) && (query.where.Some? ==> Clear(query.where.value))
    requires var p := PlanSelection(spell, e, query).selection;
      && multiset(inMemory) == multiset(Filtered(false, p.where, table)) && Sorted(false, e, p.orderBy, inMemory)
      && multiset(inSql) == multiset(Filtered(true, p.where, table)) && Sorted(true, e, p.orderBy, inSql)
    ensures var limit := PlanSelection(spell, e, query).selection.limit;
      && BoundedListing(Upto(inMemory, limit + 1), limit) == BoundedListing(Upto(inSql, limit + 1), limit)
      && BoundedListing(Upto(inSql, limit + 1), limit) == Page(Upto(inSql, limit), |inSql| > limit)
  {
    var p := PlanSelection(spell, e, query).selection;
    if query.where.Some? { FilteredAlike(spell, e, query.where.value, table); } else { UnfilteredAlike(table); }
    FilteredIn(true, p.where, table);
    SameElements(inMemory, Filtered(true, p.where, table));
    SameElements(inSql, Filtered(true, p.where, table));
    SortedAlike(e, p.orderBy, table, inMemory);
    OneSorting(e, p.orderBy, table, inMemory, inSql);
    OneRowMore(inSql, p.limit);
  }

  lemma SortedAlike(e: Entity, orderBy: Option<OrderBy>, table: seq<Row>, rows: seq<Row>)
    requires Table(e, table) && Within(rows, table) && Sorted(false, e, orderBy, rows)
    ensures Sorted(true, e, orderBy, rows)
  {
    forall i | 0 < i < |rows| ensures CompareRows(true, e, orderBy, rows[i - 1], rows[i]) <= 0 {
      assert rows[i - 1] in table && rows[i] in table;
      RowsCompareAlike(e, orderBy, rows[i - 1], rows[i]);
    }
  }

  // ------------------------------------------------------------------ children's parents

  /** A key's first place in `keys`. */
  function FirstAt(keys: seq<seq<Str>>, key: seq<Str>): nat {
    if keys == [] || keys[0] == key then 0 else 1 + FirstAt(keys[1..], key)
  }

  /** Each key once, in the order first seen. */
  ghost predicate FirstSeen(keys: seq<seq<Str>>, distinct: seq<seq<Str>>) {
    && (forall k :: k in distinct <==> k in keys)
    && (forall i, j :: 0 <= i < j < |distinct| ==> FirstAt(keys, distinct[i]) < FirstAt(keys, distinct[j]))
  }

  lemma {:induction false} FirstAtPrefix(keys: seq<seq<Str>>, i: nat, key: seq<Str>)
    requires i <= |keys|
    ensures key in keys[..i] <==> FirstAt(keys, key) < i
    ensures i < |keys| && keys[i] == key && key !in keys[..i] ==> FirstAt(keys, key) == i
  {
    if i > 0 {
      assert keys[..i] == [keys[0]] + keys[1..][..i - 1];
      if keys[0] != key {
        FirstAtPrefix(keys[1..], i - 1, key);
        assert i < |keys| ==> keys[1..][i - 1] == keys[i];
      }
    }
  }

  /** The `distinctParents` filter of `planChildren`, with the set it fills. */
  method DistinctParents(keys: seq<seq<Str>>) returns (distinct: seq<seq<Str>>)
    ensures FirstSeen(keys, distinct)
  {
    var seen: set<seq<Str>> := {};
    distinct := [];
    var i := 0;
    while i < |keys|
      invariant 0 <= i <= |keys|
      invariant forall k :: k in seen <==> k in keys[..i]
      invariant forall k :: k in distinct <==> k in keys[..i]
      invariant forall a, b :: 0 <= a < b < |distinct| ==> FirstAt(keys, distinct[a]) < FirstAt(keys, distinct[b])
    {
      var key := keys[i];
      assert keys[..i + 1] == keys[..i] + [key];
      if key !in seen {
        FirstAtPrefix(keys, i, key);
        forall a | 0 <= a < |distinct| ensures FirstAt(keys, distinct[a]) < i {
          assert distinct[a] in distinct;
          FirstAtPrefix(keys, i, distinct[a]);
        }
        seen := seen + {key};
        distinct := distinct + [key];
      }
      i := i + 1;
    }
    assert keys[..i] == keys;
  }

  lemma {:induction false} FirstSeenPrefix(keys: seq<seq<Str>>, a: seq<seq<Str>>, b: seq<seq<Str>>, n: nat)
    requires FirstSeen(keys, a) && FirstSeen(keys, b) && n <= |a| && n <= |b|
    ensures a[..n] == b[..n]
  {
    if n > 0 {
      FirstSeenPrefix(keys, a, b, n - 1);
      assert a[n - 1] in a && b[n - 1] in b;
      assert a[n - 1] in b && b[n - 1] in a;
      var j :| 0 <= j < |b| && b[j] == a[n - 1];
      var i :| 0 <= i < |a| && a[i] == b[n - 1];
      assert forall m :: 0 <= m < n - 1 ==> a[m] == a[..n - 1][m] == b[..n - 1][m] == b[m];
      assert a[..n] == a[..n - 1] + [a[n - 1]] && b[..n] == b[..n - 1] + [b[n - 1]];
    }
  }

  lemma NoLonger(keys: seq<seq<Str>>, a: seq<seq<Str>>, b: seq<seq<Str>>)
    requires FirstSeen(keys, a) && FirstSeen(keys, b)
    ensures |b| <= |a|
  {
    if |a| < |b| {
      var extra := b[|a|];
      assert extra in b;
      assert extra in a;
      FirstSeenPrefix(keys, a, b, |a|);
      assert false;
    }
  }

  /** The keys alone decide which list a backend reads. */
  lemma FirstSeenIsUnique(keys: seq<seq<Str>>, a: seq<seq<Str>>, b: seq<seq<Str>>)
    requires FirstSeen(keys, a) && FirstSeen(keys, b)
    ensures a == b
  {
    NoLonger(keys, a, b);
    NoLonger(keys, b, a);
    FirstSeenPrefix(keys, a, b, |a|);
    assert a == a[..|a|] && b == b[..|b|];
  }
}
