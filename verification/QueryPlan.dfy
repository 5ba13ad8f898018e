/**
 * The one planner every backend calls (`plan.ts`), as a compiler from predicates over an
 * entity's declared columns to predicates over the forms those columns store.
 */
module QueryPlan {
  import opened Options
  import opened Bytes
  import opened Text

  type Name = string

  // ------------------------------------------------------------------- declarations

  datatype FieldType = TextField | IntegerField | RealField | BlobField

  /** A bare storage class, an enum over text, or a `u256` over a blob. */
  datatype Field = Bare(storage: FieldType) | EnumOfText | U256

  datatype Entity = Entity(name: Name, id: seq<Name>, fields: map<Name, Field>)

  datatype ColumnKind = Id | Declared(field: Field)

  // ----------------------------------------------------------------- what is asked

  /** An operand as the caller hands it over; `NonFinite` is NaN or an infinity, `Other` no operand at all. */
  datatype Operand =
    | ONull | OText(text: Str) | ONumber(x: real) | NonFinite | OBig(n: int) | OBytes(bytes: seq<nat>) | Other

  datatype Operator = Eq | Ne | Lt | Lte | Gt | Gte

  /** A predicate, with the shapes the planner refuses. */
  datatype Where =
    | And(of: seq<Where>)
    | Or(of: seq<Where>)
    | Compare(field: Name, op: Operator, value: Operand)
    | In(field: Name, values: seq<Operand>)
    | IsNull(field: Name, yes: bool)
    | NotAnObject
    | CombinatorBesideOthers
    | UnknownOperator(field: Name)
    | InWithoutArray(field: Name)
    | IsNullWithoutBoolean(field: Name)

  datatype Refusal =
    | NotAPredicate | CombinatorShape | Undeclared(column: Name) | OperatorUnknown(column: Name)
    | InShape(column: Name) | IsNullShape(column: Name) | WrongKind(column: Name, operand: Operand)

  datatype Result<+T> = Ok(value: T) | Refused(why: Refusal)

  // -------------------------------------------------------------------- what is planned

  /** A value as a backend stores it. An operand is never `SNull`. */
  datatype Stored = SNull | SText(text: Str) | SNumber(x: real) | SBytes(bytes: seq<nat>)

  datatype Plan =
    | PAnd(of: seq<Plan>)
    | POr(of: seq<Plan>)
    | PCompare(column: Name, op: Operator, operand: Stored)
    | PIn(column: Name, operands: seq<Stored>)
    | PIsNull(column: Name, isNull: bool)

  /** Matches nothing. */
  const NOTHING: Plan := POr([])

  function KindOf(e: Entity, column: Name): Option<ColumnKind> {
    if column in e.id then Some(Id)
    else if column in e.fields then Some(Declared(e.fields[column]))
    else None
  }

  /** An operand as the column stores it. `spell` is how JavaScript spells a finite number. */
  function StoredOperand(spell: real -> Str, column: Name, kind: ColumnKind, value: Operand): Result<Stored> {
    match kind
    case Id =>
      (match value
       case OText(s) => Ok(SText(s))
       case ONumber(x) => Ok(SText(spell(x)))
       case _ => Refused(WrongKind(column, value)))
    case Declared(U256) =>
      if value.OBig? && IsU256(value.n) then Ok(SBytes(BigEndian(value.n, U256_BYTES))) else Refused(WrongKind(column, value))
    case Declared(EnumOfText) => if value.OText? then Ok(SText(value.text)) else Refused(WrongKind(column, value))
    case Declared(Bare(storage)) =>
      match storage
      case TextField => if value.OText? then Ok(SText(value.text)) else Refused(WrongKind(column, value))
      case IntegerField => if value.ONumber? then Ok(SNumber(value.x)) else Refused(WrongKind(column, value))
      case RealField => if value.ONumber? then Ok(SNumber(value.x)) else Refused(WrongKind(column, value))
      case BlobField => if value.OBytes? then Ok(SBytes(value.bytes)) else Refused(WrongKind(column, value))
  }

  /** The non-null values of an `in`, each as stored, or the first refusal. */
  function StoredOperands(spell: real -> Str, column: Name, kind: ColumnKind, values: seq<Operand>): Result<seq<Stored>> {
    if values == [] then Ok([])
    else if values[0] == ONull then StoredOperands(spell, column, kind, values[1..])
    else
      match StoredOperand(spell, column, kind, values[0])
      case Refused(why) => Refused(why)
      case Ok(first) =>
        match StoredOperands(spell, column, kind, values[1..])
        case Refused(why) => Refused(why)
        case Ok(rest) => Ok([first] + rest)
  }

  function PlanWhere(spell: real -> Str, e: Entity, where: Where): Result<Plan>
    decreases where, 1
  {
    match where
    case NotAnObject => Refused(NotAPredicate)
    case CombinatorBesideOthers => Refused(CombinatorShape)
    case And(of) => (match PlanEach(spell, e, of) case Refused(why) => Refused(why) case Ok(ps) => Ok(PAnd(ps)))
    case Or(of) => (match PlanEach(spell, e, of) case Refused(why) => Refused(why) case Ok(ps) => Ok(POr(ps)))
    case _ =>
      var column := where.field;
      var kind := KindOf(e, column);
      if kind.None? then Refused(Undeclared(column))
      else
        match where
        case IsNull(_, yes) => Ok(PIsNull(column, yes))
        case IsNullWithoutBoolean(_) => Refused(IsNullShape(column))
        case InWithoutArray(_) => Refused(InShape(column))
        case UnknownOperator(_) => Refused(OperatorUnknown(column))
        case In(_, values) =>
          (match StoredOperands(spell, column, kind.value, values)
           case Refused(why) => Refused(why)
           case Ok(operands) => Ok(if operands == [] then NOTHING else PIn(column, operands)))
        case Compare(_, op, value) =>
          if value == ONull then Ok(NOTHING)
          else
            match StoredOperand(spell, column, kind.value, value)
            case Refused(why) => Refused(why)
            case Ok(operand) => Ok(PCompare(column, op, operand))
  }

  function PlanEach(spell: real -> Str, e: Entity, wheres: seq<Where>): (r: Result<seq<Plan>>)
    ensures r.Ok? ==> |r.value| == |wheres|
    decreases wheres, 0
  {
    if wheres == [] then Ok([])
    else
      match PlanWhere(spell, e, wheres[0])
      case Refused(why) => Refused(why)
      case Ok(first) =>
        match PlanEach(spell, e, wheres[1..])
        case Refused(why) => Refused(why)
        case Ok(rest) => Ok([first] + rest)
  }

  // ----------------------------------------------------------------------------- rows

  /** A field's value as the store seam answers it. */
  datatype Value = Null | TextValue(text: Str) | NumberValue(x: real) | BigValue(n: int) | BlobValue(bytes: seq<nat>)

  type Row = map<Name, Value>

  function At(row: Row, column: Name): Value { if column in row then row[column] else Null }

  predicate HoldsKind(kind: ColumnKind, v: Value) {
    match kind
    case Id => v.TextValue?
    case Declared(U256) => v == Null || (v.BigValue? && IsU256(v.n))
    case Declared(EnumOfText) => v == Null || v.TextValue?
    case Declared(Bare(TextField)) => v == Null || v.TextValue?
    case Declared(Bare(BlobField)) => v == Null || v.BlobValue?
    case Declared(Bare(_)) => v == Null || v.NumberValue?
  }

  /** A row of the entity: every column null or of its declared kind, an id never null. */
  ghost predicate RowOf(e: Entity, row: Row) {
    forall column :: KindOf(e, column).Some? ==> HoldsKind(KindOf(e, column).value, At(row, column))
  }

  function StoredForm(v: Value): Stored {
    match v
    case Null => SNull
    case TextValue(s) => SText(s)
    case NumberValue(x) => SNumber(x)
    case BlobValue(b) => SBytes(b)
    case BigValue(n) => if IsU256(n) then SBytes(BigEndian(n, U256_BYTES)) else SNull
  }

  // ----------------------------------------------- the meaning of a predicate on a row

  function SignOf(x: real): int { if x < 0.0 then -1 else if x > 0.0 then 1 else 0 }

  /** A value against an operand of its own kind: numbers as numbers, text as its UTF-8 bytes. */
  function Order(spell: real -> Str, v: Value, o: Operand): Option<int> {
    match (v, o)
    case (TextValue(s), OText(t)) => Some(Sign(Bytes.Compare(Utf8(s), Utf8(t))))
    case (TextValue(s), ONumber(x)) => Some(Sign(Bytes.Compare(Utf8(s), Utf8(spell(x)))))
    case (NumberValue(x), ONumber(y)) => Some(SignOf(x - y))
    case (BigValue(n), OBig(m)) => Some(Sign(n - m))
    case (BlobValue(b), OBytes(c)) => Some(Sign(Bytes.Compare(b, c)))
    case _ => None
  }

  predicate Test(op: Operator, sign: int) {
    match op
    case Eq => sign == 0
    case Ne => sign != 0
    case Lt => sign < 0
    case Lte => sign <= 0
    case Gt => sign > 0
    case Gte => sign >= 0
  }

  /** A comparison with null, on either side, is false; `isNull` alone sees one. */
  predicate Compares(spell: real -> Str, v: Value, op: Operator, o: Operand) {
    v != Null && o != ONull && Order(spell, v, o).Some? && Test(op, Order(spell, v, o).value)
  }

  predicate Selects(spell: real -> Str, where: Where, row: Row) {
    match where
    case And(of) => forall i :: 0 <= i < |of| ==> Selects(spell, of[i], row)
    case Or(of) => exists i :: 0 <= i < |of| && Selects(spell, of[i], row)
    case Compare(f, op, value) => Compares(spell, At(row, f), op, value)
    case In(f, values) => exists i :: 0 <= i < |values| && Compares(spell, At(row, f), Eq, values[i])
    case IsNull(f, yes) => (At(row, f) == Null) == yes
    case _ => false
  }

  // --------------------------------------------------------- the plan, filtered in memory

  /** `compareStored`: text by its code units, bytes bytewise. Two kinds never meet. */
  function CompareStored(a: Stored, b: Stored): int {
    match (a, b)
    case (SText(s), SText(t)) => Sign(CompareUnits(s, t))
    case (SNumber(x), SNumber(y)) => SignOf(x - y)
    case (SBytes(s), SBytes(t)) => Sign(Bytes.Compare(s, t))
    case _ => 0
  }

  predicate Matches(plan: Plan, row: Row) {
    match plan
    case PAnd(of) => forall i :: 0 <= i < |of| ==> Matches(of[i], row)
    case POr(of) => exists i :: 0 <= i < |of| && Matches(of[i], row)
    case PIsNull(column, isNull) => if StoredForm(At(row, column)) == SNull then isNull else !isNull
    case PIn(column, operands) =>
      var value := StoredForm(At(row, column));
      value != SNull && exists i :: 0 <= i < |operands| && CompareStored(value, operands[i]) == 0
    case PCompare(column, op, operand) =>
      var value := StoredForm(At(row, column));
      value != SNull && Test(op, CompareStored(value, operand))
  }

  // -------------------------------------------------------- the plan, as SQL evaluates it

  datatype Truth = True | False | Unknown

  function Both(a: Truth, b: Truth): Truth {
    if a == False || b == False then False else if a == True && b == True then True else Unknown
  }

  function Either(a: Truth, b: Truth): Truth {
    if a == True || b == True then True else if a == False && b == False then False else Unknown
  }

  function Known(b: bool): Truth { if b then True else False }

  /** SQLite's BINARY collation: memcmp of the UTF-8 bytes. */
  function SqlCompare(a: Stored, b: Stored): int {
    match (a, b)
    case (SText(s), SText(t)) => Sign(Bytes.Compare(Utf8(s), Utf8(t)))
    case (SNumber(x), SNumber(y)) => SignOf(x - y)
    case (SBytes(s), SBytes(t)) => Sign(Bytes.Compare(s, t))
    case _ => 0
  }

  function Sql(plan: Plan, row: Row): Truth
    decreases plan, 1
  {
    match plan
    case PAnd(of) => SqlAll(of, row)
    case POr(of) => SqlAny(of, row)
    case PIsNull(column, isNull) => Known((StoredForm(At(row, column)) == SNull) == isNull)
    case PIn(column, operands) =>
      var value := StoredForm(At(row, column));
      if value == SNull then Unknown
      else Known(exists i :: 0 <= i < |operands| && SqlCompare(value, operands[i]) == 0)
    case PCompare(column, op, operand) =>
      var value := StoredForm(At(row, column));
      if value == SNull then Unknown else Known(Test(op, SqlCompare(value, operand)))
  }

  /** An empty AND is written `1`, an empty OR `0`. */
  function SqlAll(of: seq<Plan>, row: Row): Truth
    decreases of, 0
  {
    if of == [] then True else Both(Sql(of[0], row), SqlAll(of[1..], row))
  }

  function SqlAny(of: seq<Plan>, row: Row): Truth
    decreases of, 0
  {
    if of == [] then False else Either(Sql(of[0], row), SqlAny(of[1..], row))
  }

  // -------------------------------------------------------------- what is accepted

  predicate Fits(kind: ColumnKind, o: Operand) {
    match kind
    case Id => o.OText? || o.ONumber?
    case Declared(U256) => o.OBig? && IsU256(o.n)
    case Declared(EnumOfText) => o.OText?
    case Declared(Bare(TextField)) => o.OText?
    case Declared(Bare(BlobField)) => o.OBytes?
    case Declared(Bare(_)) => o.ONumber?
  }

  /** A predicate that means the same on every backend: declared columns, operands of their kind. */
  predicate Meaningful(e: Entity, where: Where) {
    match where
    case And(of) => forall i :: 0 <= i < |of| ==> Meaningful(e, of[i])
    case Or(of) => forall i :: 0 <= i < |of| ==> Meaningful(e, of[i])
    case Compare(f, _, value) =>
      KindOf(e, f).Some? && (value == ONull || Fits(KindOf(e, f).value, value))
    case In(f, values) =>
      KindOf(e, f).Some? && forall i :: 0 <= i < |values| ==> values[i] == ONull || Fits(KindOf(e, f).value, values[i])
    case IsNull(f, _) => KindOf(e, f).Some?
    case _ => false
  }

  lemma {:induction false} OperandsAccepted(spell: real -> Str, column: Name, kind: ColumnKind, values: seq<Operand>)
    ensures StoredOperands(spell, column, kind, values).Ok? <==>
            (forall i :: 0 <= i < |values| ==> values[i] == ONull || Fits(kind, values[i]))
  {
    if values != [] {
      OperandsAccepted(spell, column, kind, values[1..]);
      assert forall i :: 1 <= i < |values| ==> values[i] == values[1..][i - 1];
    }
  }

  /** The planner accepts exactly the meaningful predicates. */
  lemma {:induction false} AcceptsTheMeaningful(spell: real -> Str, e: Entity, where: Where)
    ensures PlanWhere(spell, e, where).Ok? <==> Meaningful(e, where)
    decreases where, 1
  {
    match where
    case And(of) => EachAccepted(spell, e, of);
    case Or(of) => EachAccepted(spell, e, of);
    case In(f, values) => if KindOf(e, f).Some? { OperandsAccepted(spell, f, KindOf(e, f).value, values); }
    case _ =>
  }

  lemma {:induction false} EachAccepted(spell: real -> Str, e: Entity, wheres: seq<Where>)
    ensures PlanEach(spell, e, wheres).Ok? <==> forall i :: 0 <= i < |wheres| ==> Meaningful(e, wheres[i])
    decreases wheres, 0
  {
    if wheres != [] {
      AcceptsTheMeaningful(spell, e, wheres[0]);
      EachAccepted(spell, e, wheres[1..]);
      assert forall i :: 1 <= i < |wheres| ==> wheres[i] == wheres[1..][i - 1];
    }
  }

  // ----------------------------------------------------------- the plan means the same

  predicate ClearOperand(o: Operand) { o.OText? ==> WellFormed(o.text) }

  /** Every text the predicate mentions is well-formed UTF-16. */
  predicate Clear(where: Where) {
    match where
    case And(of) => forall i :: 0 <= i < |of| ==> Clear(of[i])
    case Or(of) => forall i :: 0 <= i < |of| ==> Clear(of[i])
    case Compare(_, _, value) => ClearOperand(value)
    case In(_, values) => forall i :: 0 <= i < |values| ==> ClearOperand(values[i])
    case _ => true
  }

  ghost predicate ClearRow(row: Row) {
    forall column :: column in row && row[column].TextValue? ==> WellFormed(row[column].text)
  }

  ghost predicate ClearSpelling(spell: real -> Str) { forall x :: WellFormed(spell(x)) }

  predicate ClearValue(v: Value) { v.TextValue? ==> WellFormed(v.text) }

  /** A stored value and a stored operand compare in SQL as the value and the operand do. */
  ghost predicate SqlComparesAlike(spell: real -> Str, column: Name, kind: ColumnKind, v: Value, o: Operand) {
    && Order(spell, v, o).Some? && StoredForm(v) != SNull
    && match StoredOperand(spell, column, kind, o)
       case Refused(_) => false
       case Ok(operand) => SqlCompare(StoredForm(v), operand) == Order(spell, v, o).value
  }

  /** And in memory. */
  ghost predicate ComparesAlike(spell: real -> Str, column: Name, kind: ColumnKind, v: Value, o: Operand) {
    match StoredOperand(spell, column, kind, o)
    case Refused(_) => false
    case Ok(operand) => CompareStored(StoredForm(v), operand) == SqlCompare(StoredForm(v), operand)
  }

  lemma TextComparesAlike(spell: real -> Str, column: Name, kind: ColumnKind, v: Value, o: Operand)
    requires v.TextValue? && HoldsKind(kind, v) && Fits(kind, o)
    ensures SqlComparesAlike(spell, column, kind, v, o)
    ensures ClearValue(v) && ClearOperand(o) && ClearSpelling(spell) ==> ComparesAlike(spell, column, kind, v, o)
  {
    var t := if o.OText? then o.text else spell(o.x);
    assert StoredOperand(spell, column, kind, o) == Ok(SText(t));
    if ClearValue(v) && ClearOperand(o) && ClearSpelling(spell) { CompareUtf8IsByteOrder(v.text, t); }
  }

  lemma BigComparesAlike(spell: real -> Str, column: Name, kind: ColumnKind, v: Value, o: Operand)
    requires v.BigValue? && HoldsKind(kind, v) && Fits(kind, o)
    ensures SqlComparesAlike(spell, column, kind, v, o) && ComparesAlike(spell, column, kind, v, o)
  {
    hide Pow256, BigEndian, Bytes.Compare;
    BigEndianOrders(v.n, o.n, U256_BYTES);
  }

  /** One comparison, on the stored forms: in SQL always, in memory on well-formed text. */
  lemma StoredOrderIsOrder(spell: real -> Str, column: Name, kind: ColumnKind, v: Value, o: Operand)
    requires HoldsKind(kind, v) && v != Null && Fits(kind, o)
    ensures SqlComparesAlike(spell, column, kind, v, o)
    ensures ClearValue(v) && ClearOperand(o) && ClearSpelling(spell) ==> ComparesAlike(spell, column, kind, v, o)
  {
    match v
    case TextValue(_) => TextComparesAlike(spell, column, kind, v, o);
    case BigValue(_) => BigComparesAlike(spell, column, kind, v, o);
    case _ =>
  }

  /** The planned `in` has in SQL exactly the hits of the asked one, null members dropped. */
  lemma {:induction false} InMeansTheSame(spell: real -> Str, column: Name, kind: ColumnKind, v: Value, values: seq<Operand>)
    requires HoldsKind(kind, v) && v != Null && StoredOperands(spell, column, kind, values).Ok?
    ensures
      var operands := StoredOperands(spell, column, kind, values).value;
      (exists i :: 0 <= i < |values| && Compares(spell, v, Eq, values[i]))
        <==> (exists i :: 0 <= i < |operands| && SqlCompare(StoredForm(v), operands[i]) == 0)
  {
    if values != [] {
      var rest := values[1..];
      InMeansTheSame(spell, column, kind, v, rest);
      var operands := StoredOperands(spell, column, kind, values).value;
      var others := StoredOperands(spell, column, kind, rest).value;
      if values[0] != ONull {
        OperandsAccepted(spell, column, kind, values);
        StoredOrderIsOrder(spell, column, kind, v, values[0]);
        assert operands[1..] == others;
      }
      InShifts(spell, v, values);
      HitsShift(v, operands, others);
    }
  }

  /** And in memory the same hits, on well-formed text. */
  lemma {:induction false} InFiltersAlike(spell: real -> Str, column: Name, kind: ColumnKind, v: Value, values: seq<Operand>)
    requires HoldsKind(kind, v) && v != Null && StoredOperands(spell, column, kind, values).Ok?
    requires ClearValue(v) && ClearSpelling(spell) && forall i :: 0 <= i < |values| ==> ClearOperand(values[i])
    ensures
      var operands := StoredOperands(spell, column, kind, values).value;
      forall i :: 0 <= i < |operands| ==> CompareStored(StoredForm(v), operands[i]) == SqlCompare(StoredForm(v), operands[i])
  {
    if values != [] {
      InFiltersAlike(spell, column, kind, v, values[1..]);
      if values[0] != ONull {
        OperandsAccepted(spell, column, kind, values);
        StoredOrderIsOrder(spell, column, kind, v, values[0]);
      }
    }
  }

  lemma InShifts(spell: real -> Str, v: Value, values: seq<Operand>)
    requires values != []
    ensures (exists i :: 0 <= i < |values| && Compares(spell, v, Eq, values[i]))
              <==> Compares(spell, v, Eq, values[0]) || exists i :: 0 <= i < |values[1..]| && Compares(spell, v, Eq, values[1..][i])
  {
    if i :| 1 <= i < |values| && Compares(spell, v, Eq, values[i]) { assert values[1..][i - 1] == values[i]; }
    if i :| 0 <= i < |values[1..]| && Compares(spell, v, Eq, values[1..][i]) { assert values[i + 1] == values[1..][i]; }
  }

  lemma HitsShift(v: Value, operands: seq<Stored>, others: seq<Stored>)
    requires operands == others || (operands != [] && operands[1..] == others)
    ensures (exists i :: 0 <= i < |operands| && SqlCompare(StoredForm(v), operands[i]) == 0)
              <==> (operands != others && SqlCompare(StoredForm(v), operands[0]) == 0)
                   || exists i :: 0 <= i < |others| && SqlCompare(StoredForm(v), others[i]) == 0
  {
    if operands != others {
      if i :| 1 <= i < |operands| && SqlCompare(StoredForm(v), operands[i]) == 0 { assert others[i - 1] == operands[i]; }
      if i :| 0 <= i < |others| && SqlCompare(StoredForm(v), others[i]) == 0 { assert operands[i + 1] == others[i]; }
    }
  }

  /**
   * SQL selects what the predicate selects, whatever is unknown beside it and whatever text there is:
   * the plan over stored forms is TRUE on exactly those rows.
   */
  lemma {:induction false} SqlMeansTheSame(spell: real -> Str, e: Entity, where: Where, row: Row)
    requires PlanWhere(spell, e, where).Ok? && RowOf(e, row)
    ensures Sql(PlanWhere(spell, e, where).value, row) == True <==> Selects(spell, where, row)
    decreases where, 1
  {
    AcceptsTheMeaningful(spell, e, where);
    match where
    case And(of) => SqlEach(spell, e, of, row); AllTrue(PlanEach(spell, e, of).value, row);
    case Or(of) => SqlEach(spell, e, of, row); AnyTrue(PlanEach(spell, e, of).value, row);
    case Compare(f, op, value) => SqlCompares(spell, e, f, op, value, row);
    case In(f, values) => SqlContains(spell, e, f, values, row);
    case IsNull(f, _) => assert HoldsKind(KindOf(e, f).value, At(row, f));
  }

  lemma SqlCompares(spell: real -> Str, e: Entity, f: Name, op: Operator, value: Operand, row: Row)
    requires PlanWhere(spell, e, Where.Compare(f, op, value)).Ok? && Meaningful(e, Where.Compare(f, op, value)) && RowOf(e, row)
    ensures Sql(PlanWhere(spell, e, Where.Compare(f, op, value)).value, row) == True <==> Compares(spell, At(row, f), op, value)
  {
    hide Order, StoredOperand, SqlCompare;
    var kind := KindOf(e, f).value;
    assert HoldsKind(kind, At(row, f));
    if value != ONull && At(row, f) != Null { StoredOrderIsOrder(spell, f, kind, At(row, f), value); }
  }

  lemma SqlContains(spell: real -> Str, e: Entity, f: Name, values: seq<Operand>, row: Row)
    requires PlanWhere(spell, e, Where.In(f, values)).Ok? && RowOf(e, row)
    ensures Sql(PlanWhere(spell, e, Where.In(f, values)).value, row) == True <==> Selects(spell, Where.In(f, values), row)
  {
    hide Order, StoredOperand, SqlCompare, StoredOperands;
    var kind := KindOf(e, f).value;
    assert HoldsKind(kind, At(row, f));
    if At(row, f) != Null { InMeansTheSame(spell, f, kind, At(row, f), values); }
  }

  lemma {:induction false} SqlEach(spell: real -> Str, e: Entity, wheres: seq<Where>, row: Row)
    requires PlanEach(spell, e, wheres).Ok? && RowOf(e, row)
    ensures
      var plans := PlanEach(spell, e, wheres).value;
      forall i :: 0 <= i < |wheres| ==> (Sql(plans[i], row) == True <==> Selects(spell, wheres[i], row))
    decreases wheres, 0
  {
    if wheres != [] {
      SqlMeansTheSame(spell, e, wheres[0], row);
      SqlEach(spell, e, wheres[1..], row);
    }
  }

  /** Filtered in memory over the stored forms, the plan selects on well-formed text what it selects in SQL. */
  lemma {:induction false} FilterMeansTheSame(spell: real -> Str, e: Entity, where: Where, row: Row)
    requires PlanWhere(spell, e, where).Ok? && RowOf(e, row) && ClearRow(row) && Clear(where) && ClearSpelling(spell)
    ensures Matches(PlanWhere(spell, e, where).value, row) <==> Sql(PlanWhere(spell, e, where).value, row) == True
    decreases where, 1
  {
    AcceptsTheMeaningful(spell, e, where);
    match where
    case And(of) => FilterEach(spell, e, of, row); AllTrue(PlanEach(spell, e, of).value, row);
    case Or(of) => FilterEach(spell, e, of, row); AnyTrue(PlanEach(spell, e, of).value, row);
    case Compare(f, op, value) =>
      var kind := KindOf(e, f).value;
      assert HoldsKind(kind, At(row, f));
      if value != ONull && At(row, f) != Null { StoredOrderIsOrder(spell, f, kind, At(row, f), value); }
    case In(f, values) =>
      var kind := KindOf(e, f).value;
      assert HoldsKind(kind, At(row, f));
      if At(row, f) != Null { InFiltersAlike(spell, f, kind, At(row, f), values); }
    case IsNull(f, _) => assert HoldsKind(KindOf(e, f).value, At(row, f));
  }

  lemma {:induction false} FilterEach(spell: real -> Str, e: Entity, wheres: seq<Where>, row: Row)
    requires PlanEach(spell, e, wheres).Ok? && RowOf(e, row) && ClearRow(row) && ClearSpelling(spell)
    requires forall i :: 0 <= i < |wheres| ==> Clear(wheres[i])
    ensures
      var plans := PlanEach(spell, e, wheres).value;
      forall i :: 0 <= i < |wheres| ==> (Matches(plans[i], row) <==> Sql(plans[i], row) == True)
    decreases wheres, 0
  {
    if wheres != [] {
      FilterMeansTheSame(spell, e, wheres[0], row);
      FilterEach(spell, e, wheres[1..], row);
    }
  }

  /** The plan means what the predicate does: in SQL on every row, in memory on every row of well-formed text. */
  lemma PlanMeansTheSame(spell: real -> Str, e: Entity, where: Where, row: Row)
    requires PlanWhere(spell, e, where).Ok? && RowOf(e, row)
    ensures
      var plan := PlanWhere(spell, e, where).value;
      && (Sql(plan, row) == True <==> Selects(spell, where, row))
      && (ClearRow(row) && Clear(where) && ClearSpelling(spell) ==> (Matches(plan, row) <==> Selects(spell, where, row)))
  {
    SqlMeansTheSame(spell, e, where, row);
    if ClearRow(row) && Clear(where) && ClearSpelling(spell) { FilterMeansTheSame(spell, e, where, row); }
  }

  lemma {:induction false} AllTrue(of: seq<Plan>, row: Row)
    ensures SqlAll(of, row) == True <==> forall i :: 0 <= i < |of| ==> Sql(of[i], row) == True
  {
    if of != [] {
      AllTrue(of[1..], row);
      assert forall i :: 1 <= i < |of| ==> of[i] == of[1..][i - 1];
    }
  }

  lemma {:induction false} AnyTrue(of: seq<Plan>, row: Row)
    ensures SqlAny(of, row) == True <==> exists i :: 0 <= i < |of| && Sql(of[i], row) == True
  {
    if of != [] {
      AnyTrue(of[1..], row);
      if i :| 1 <= i < |of| && Sql(of[i], row) == True { assert of[1..][i - 1] == of[i]; }
      if i :| 0 <= i < |of[1..]| && Sql(of[1..][i], row) == True { assert of[i + 1] == of[1..][i]; }
    }
  }

  // ------------------------------------------------- where the two backends come apart

  /** One backend selects the row and the other does not. */
  predicate Splits(plan: Plan, row: Row) { Matches(plan, row) != (Sql(plan, row) == True) }

  predicate TextColumn(e: Entity, column: Name) { KindOf(e, column).Some? && Fits(KindOf(e, column).value, OText([])) }

  /** Two texts on which the two orders answer `op` differently. */
  predicate TestsApart(op: Operator, s: Str, t: Str) {
    Test(op, CompareStored(SText(s), SText(t))) != Test(op, SqlCompare(SText(s), SText(t)))
  }

  /** The row of the entity with `s` in one text column. */
  function RowWith(e: Entity, column: Name, s: Str): (row: Row)
    requires TextColumn(e, column)
    ensures RowOf(e, row)
    ensures At(row, column) == TextValue(s)
    ensures WellFormed(s) ==> ClearRow(row)
  {
    (map id | id in e.id :: TextValue([]))[column := TextValue(s)]
  }

  lemma OperandTestsApart(op: Operator, t: Str) returns (s: Str)
    requires !WellFormed(t)
    ensures WellFormed(s) && TestsApart(op, s, t)
  {
    if op.Eq? || op.Ne? {
      s := Repaired(t);
      RepairedReads(t);
      RepairedReads(s);
      SameText(s, t);
    } else {
      s := LoneSurrogateMisorders(t);
      CompareUnitsFlips(t, s);
      CompareFlips(Utf8(t), Utf8(s));
      Utf8Orders(t, s);
    }
  }

  lemma ValueTestsApart(op: Operator, s: Str) returns (t: Str)
    requires !WellFormed(s)
    ensures WellFormed(t) && TestsApart(op, s, t)
  {
    if op.Eq? || op.Ne? {
      t := Repaired(s);
      RepairedReads(s);
      RepairedReads(t);
      SameText(s, t);
    } else {
      t := LoneSurrogateMisorders(s);
      Utf8Orders(s, t);
    }
  }

  /** In memory only equal texts compare equal, in SQL those repaired to the same text. */
  lemma SameText(s: Str, t: Str)
    ensures CompareStored(SText(s), SText(t)) == 0 <==> s == t
    ensures SqlCompare(SText(s), SText(t)) == 0 <==> Repaired(s) == Repaired(t)
  {
    ZeroOnlyOnEquals(s, t);
    SameBytesExactly(s, t);
  }

  /** One comparison of a text column splits the backends on exactly the rows whose text tests apart. */
  lemma ComparisonSplits(spell: real -> Str, e: Entity, column: Name, op: Operator, t: Str, row: Row)
    requires TextColumn(e, column) && RowOf(e, row)
    ensures PlanWhere(spell, e, Where.Compare(column, op, OText(t))).Ok?
    ensures
      var plan := PlanWhere(spell, e, Where.Compare(column, op, OText(t))).value;
      Splits(plan, row) <==> (At(row, column).TextValue? && TestsApart(op, At(row, column).text, t))
  {
    assert HoldsKind(KindOf(e, column).value, At(row, column));
  }

  /** An operand is read alike by both backends, on all rows of well-formed text, exactly if it is well-formed. */
  lemma OperandsExactly(spell: real -> Str, e: Entity, column: Name, op: Operator, t: Str)
    requires TextColumn(e, column)
    ensures PlanWhere(spell, e, Where.Compare(column, op, OText(t))).Ok?
    ensures
      var plan := PlanWhere(spell, e, Where.Compare(column, op, OText(t))).value;
      WellFormed(t) <==> forall row :: RowOf(e, row) && ClearRow(row) ==> !Splits(plan, row)
  {
    if WellFormed(t) {
      forall row | RowOf(e, row) && ClearRow(row)
        ensures !Splits(PlanWhere(spell, e, Where.Compare(column, op, OText(t))).value, row)
      {
        ComparisonSplits(spell, e, column, op, t, row);
        if At(row, column).TextValue? { CompareUtf8IsByteOrder(At(row, column).text, t); }
      }
    } else {
      var s := OperandTestsApart(op, t);
      ComparisonSplits(spell, e, column, op, t, RowWith(e, column, s));
    }
  }

  /** And a stored text, against all well-formed operands. */
  lemma ValuesExactly(spell: real -> Str, e: Entity, column: Name, op: Operator, row: Row)
    requires TextColumn(e, column) && RowOf(e, row) && At(row, column).TextValue?
    ensures forall t :: PlanWhere(spell, e, Where.Compare(column, op, OText(t))).Ok?
    ensures WellFormed(At(row, column).text) <==>
            forall t :: WellFormed(t) ==> !Splits(PlanWhere(spell, e, Where.Compare(column, op, OText(t))).value, row)
  {
    var s := At(row, column).text;
    forall t
      ensures PlanWhere(spell, e, Where.Compare(column, op, OText(t))).Ok?
      ensures Splits(PlanWhere(spell, e, Where.Compare(column, op, OText(t))).value, row) <==> TestsApart(op, s, t)
      ensures WellFormed(s) && WellFormed(t) ==> !TestsApart(op, s, t)
    {
      ComparisonSplits(spell, e, column, op, t, row);
      if WellFormed(s) && WellFormed(t) { CompareUtf8IsByteOrder(s, t); }
    }
    if !WellFormed(s) { var t := ValueTestsApart(op, s); }
  }

  function Texts(texts: seq<Str>): (os: seq<Operand>)
    ensures |os| == |texts| && forall i :: 0 <= i < |os| ==> os[i] == OText(texts[i])
  {
    if texts == [] then [] else [OText(texts[0])] + Texts(texts[1..])
  }

  function StoredTexts(texts: seq<Str>): (os: seq<Stored>)
    ensures |os| == |texts| && forall i :: 0 <= i < |os| ==> os[i] == SText(texts[i])
  {
    if texts == [] then [] else [SText(texts[0])] + StoredTexts(texts[1..])
  }

  lemma {:induction false} TextsStored(spell: real -> Str, column: Name, kind: ColumnKind, texts: seq<Str>)
    requires Fits(kind, OText([]))
    ensures StoredOperands(spell, column, kind, Texts(texts)) == Ok(StoredTexts(texts))
  {
    if texts != [] {
      TextsStored(spell, column, kind, texts[1..]);
      assert Texts(texts)[1..] == Texts(texts[1..]);
    }
  }

  lemma InPlanned(spell: real -> Str, e: Entity, column: Name, texts: seq<Str>)
    requires TextColumn(e, column)
    ensures PlanWhere(spell, e, Where.In(column, Texts(texts)))
         == Ok(if texts == [] then NOTHING else PIn(column, StoredTexts(texts)))
  {
    TextsStored(spell, column, KindOf(e, column).value, texts);
  }

  /** No member, but repaired to what one is. */
  predicate OnlyRepairedIn(s: Str, texts: seq<Str>) { s !in texts && exists t :: t in texts && Repaired(t) == Repaired(s) }

  lemma MemberTests(s: Str, texts: seq<Str>)
    ensures (exists i :: 0 <= i < |texts| && CompareStored(SText(s), StoredTexts(texts)[i]) == 0) <==> s in texts
    ensures (exists i :: 0 <= i < |texts| && SqlCompare(SText(s), StoredTexts(texts)[i]) == 0)
              <==> exists t :: t in texts && Repaired(t) == Repaired(s)
  {
    hide CompareStored, SqlCompare, Repaired, StoredTexts;
    forall i | 0 <= i < |texts|
      ensures CompareStored(SText(s), StoredTexts(texts)[i]) == 0 <==> s == texts[i]
      ensures SqlCompare(SText(s), StoredTexts(texts)[i]) == 0 <==> Repaired(s) == Repaired(texts[i])
    {
      SameText(s, texts[i]);
    }
    if t :| t in texts && Repaired(t) == Repaired(s) {
      var i :| 0 <= i < |texts| && texts[i] == t;
      assert SqlCompare(SText(s), StoredTexts(texts)[i]) == 0;
    }
  }

  /** An `in` over texts splits the backends on exactly the rows whose text is no member but is repaired to what one is. */
  lemma InSplits(spell: real -> Str, e: Entity, column: Name, texts: seq<Str>, row: Row)
    requires TextColumn(e, column) && RowOf(e, row)
    ensures PlanWhere(spell, e, Where.In(column, Texts(texts))).Ok?
    ensures
      var plan := PlanWhere(spell, e, Where.In(column, Texts(texts))).value;
      Splits(plan, row) <==> (At(row, column).TextValue? && OnlyRepairedIn(At(row, column).text, texts))
  {
    hide CompareStored, SqlCompare, Repaired;
    InPlanned(spell, e, column, texts);
    assert HoldsKind(KindOf(e, column).value, At(row, column));
    if At(row, column).TextValue? { MemberTests(At(row, column).text, texts); }
  }

  /** So it is read alike on all rows of well-formed text exactly if it has each of its members' repaired form. */
  lemma MembersExactly(spell: real -> Str, e: Entity, column: Name, texts: seq<Str>)
    requires TextColumn(e, column)
    ensures PlanWhere(spell, e, Where.In(column, Texts(texts))).Ok?
    ensures
      var plan := PlanWhere(spell, e, Where.In(column, Texts(texts))).value;
      (forall t :: t in texts ==> Repaired(t) in texts) <==> (forall row :: RowOf(e, row) && ClearRow(row) ==> !Splits(plan, row))
  {
    hide Repaired, Splits;
    InPlanned(spell, e, column, texts);
    if t :| t in texts && Repaired(t) !in texts {
      RepairedReads(t);
      RepairedReads(Repaired(t));
      InSplits(spell, e, column, texts, RowWith(e, column, Repaired(t)));
    } else {
      forall row | RowOf(e, row) && ClearRow(row)
        ensures !Splits(PlanWhere(spell, e, Where.In(column, Texts(texts))).value, row)
      {
        InSplits(spell, e, column, texts, row);
        if At(row, column).TextValue? { RepairedReads(At(row, column).text); }
      }
    }
  }

  lemma {:induction false} CompareUnitsFlips(a: Str, b: Str)
    ensures CompareUnits(b, a) == -CompareUnits(a, b)
  {
    if a != [] && b != [] && a[0] == b[0] { CompareUnitsFlips(a[1..], b[1..]); }
  }

  lemma {:induction false} CompareFlips(a: seq<nat>, b: seq<nat>)
    ensures Bytes.Compare(b, a) == -Bytes.Compare(a, b)
  {
    if a != [] && b != [] && a[0] == b[0] { CompareFlips(a[1..], b[1..]); }
  }
}
