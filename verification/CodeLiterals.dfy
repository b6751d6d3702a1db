/**
 * `codeLiterals` and the value probe behind it.  The analysis claims that no row can satisfy the
 * WHERE clause; the claim is stated against a three-valued semantics in which every construct the
 * analysis does not look into may mean anything.
 */
module CodeLiterals {
  import opened Text

  // ----- catalog and syntax -----

  datatype Column = Column(name: string, dbType: Option<string>)

  datatype Table = Table(
    schema: Option<string>, name: string, kind: Option<string>, columns: seq<Column>,
    primaryKey: seq<string>, foreignKeys: seq<seq<string>>)

  type Catalog = seq<Table>

  datatype Operator = And | Or | Equals | OtherOperator(name: string)

  /** Unary, CASE, IN, functions and so on are `Other`: the analysis looks into none of them. */
  datatype Expr =
    | Col(table: Option<string>, column: string)
    | Num(value: real)
    | Binary(op: Operator, left: Expr, right: Expr)
    | Other(tag: nat)

  /**
   * A FROM item.  A derived table has no name of its own; a join may merge columns with what stands
   * before it, those of USING or, if NATURAL, all they have in common.
   */
  datatype Item = Item(
    schema: Option<string>, table: Option<string>, alias: Option<string>, merged: set<string>, natural: bool)

  datatype Select = Select(ctes: set<string>, from: seq<Item>, where: Expr)

  datatype CodeLiteral = CodeLiteral(schema: Option<string>, table: string, column: string, literal: int)

  /** The name patterns of the analysis, as predicates. */
  datatype Patterns = Patterns(
    id: string -> bool, measure: string -> bool, integer: string -> bool, moment: (string, string) -> bool)

  // ----- the analysis -----

  predicate HasColumn(t: Table, column: string) {
    exists i :: 0 <= i < |t.columns| && Low(t.columns[i].name) == Low(column)
  }

  function FindTable(c: Catalog, name: string): Option<Table> {
    if c == [] then None else if Low(c[0].name) == Low(name) then Some(c[0]) else FindTable(c[1..], name)
  }

  function OwnerNamed(c: Catalog, name: string, column: string): Option<Table> {
    var found := FindTable(c, name);
    if found.Some? && HasColumn(found.value, column) then found else None
  }

  /** The tables of `names` that have the column. */
  function Owners(c: Catalog, names: set<string>, column: string): seq<Table> {
    if c == [] then []
    else (if Low(c[0].name) in names && HasColumn(c[0], column) then [c[0]] else []) + Owners(c[1..], names, column)
  }

  function LowNames(c: Catalog): set<string> { set t | t in c :: Low(t.name) }

  /** With no named table in scope the whole catalog is the pool. */
  function OwnerOf(c: Catalog, inScope: map<string, string>, column: string): Option<Table> {
    var names := if |inScope| > 0 then set k | k in inScope :: Low(inScope[k]) else LowNames(c);
    var owners := Owners(c, names, column);
    if |owners| == 1 then Some(owners[0]) else None
  }

  function InScope(from: seq<Item>): map<string, string> {
    if from == [] then map[]
    else
      var rest, item := InScope(from[..|from| - 1]), from[|from| - 1];
      if item.table.None? then rest
      else
        var alias := if item.alias.Some? then item.alias.value else item.table.value;
        (if alias != "" then rest[Low(alias) := item.table.value] else rest)[Low(item.table.value) := item.table.value]
  }

  /** Every declared type of a column of this name. */
  function DbTypes(c: Catalog, column: string): seq<string> {
    if c == [] then [] else TypesIn(c[0].columns, column) + DbTypes(c[1..], column)
  }

  function TypesIn(cs: seq<Column>, column: string): seq<string> {
    if cs == [] then []
    else
      (if Low(cs[0].name) == Low(column) && cs[0].dbType.Some? then [cs[0].dbType.value] else [])
      + TypesIn(cs[1..], column)
  }

  function DbTypeOf(c: Catalog, column: string): Option<string> {
    var types := DbTypes(c, column);
    if types != [] && forall i :: 0 <= i < |types| ==> Low(types[i]) == Low(types[0]) then Some(types[0]) else None
  }

  predicate IntegerColumn(p: Patterns, c: Catalog, column: string) {
    var dbType := DbTypeOf(c, column);
    dbType.Some? && dbType.value != "" && p.integer(TrimSpace(dbType.value))
  }

  predicate CodedName(p: Patterns, c: Catalog, column: string) {
    && column != "" && !p.id(column) && !p.measure(column)
    && IntegerColumn(p, c, column) && !p.moment(column, DbTypeOf(c, column).value)
  }

  predicate Keyed(t: Table, column: string) {
    || (exists i :: 0 <= i < |t.primaryKey| && Low(t.primaryKey[i]) == Low(column))
    || (exists i, j :: 0 <= i < |t.foreignKeys| && 0 <= j < |t.foreignKeys[i]| && Low(t.foreignKeys[i][j]) == Low(column))
  }

  predicate Qualified(e: Expr) { e.Col? && e.table.Some? && e.table.value != "" }

  function Owner(c: Catalog, inScope: map<string, string>, e: Expr): Option<Table>
    requires e.Col?
  {
    if Qualified(e) then
      var q := Low(e.table.value);
      OwnerNamed(c, if q in inScope then inScope[q] else q, e.column)
    else OwnerOf(c, inScope, e.column)
  }

  /** A column against a whole number: what it would report. */
  function Consider(p: Patterns, c: Catalog, inScope: map<string, string>, column: Expr, value: Expr): Option<CodeLiteral> {
    if !column.Col? || !CodedName(p, c, column.column) then None
    else
      var owner := Owner(c, inScope, column);
      if owner.None? || (owner.value.kind.Some? && owner.value.kind.value != "" && owner.value.kind.value != "table")
         || Keyed(owner.value, column.column)
      then None
      else if !value.Num? || value.value.Floor as real != value.value then None
      else Some(CodeLiteral(owner.value.schema, owner.value.name, column.column, value.value.Floor))
  }

  function Key(l: CodeLiteral): string { Low(l.table + "." + l.column + "=" + IntText(l.literal)) }

  datatype Found = Found(list: seq<CodeLiteral>, seen: set<string>)

  function Push(f: Found, l: Option<CodeLiteral>): Found {
    if l.None? || Key(l.value) in f.seen then f else Found(f.list + [l.value], f.seen + {Key(l.value)})
  }

  const MAX_DEPTH := 40

  /** Follows AND only. */
  function WalkConjunction(p: Patterns, c: Catalog, inScope: map<string, string>, e: Expr, depth: nat, f: Found): Found {
    if depth > MAX_DEPTH || !e.Binary? then f
    else
      match e.op
      case And => WalkConjunction(p, c, inScope, e.right, depth + 1, WalkConjunction(p, c, inScope, e.left, depth + 1, f))
      case Equals => Push(Push(f, Consider(p, c, inScope, e.left, e.right)), Consider(p, c, inScope, e.right, e.left))
      case _ => f
  }

  function WalkStatements(p: Patterns, c: Catalog, sts: seq<Select>, f: Found): Found
    decreases |sts|
  {
    if sts == [] then f
    else WalkStatements(p, c, sts[1..], WalkConjunction(p, c, InScope(sts[0].from), sts[0].where, 0, f))
  }

  function Analyse(p: Patterns, c: Catalog, sts: seq<Select>): seq<CodeLiteral> {
    WalkStatements(p, c, sts, Found([], {})).list
  }

  // ----- what WHERE means -----

  datatype Value = Null | Number(n: real) | Text(t: string)

  datatype Truth = True | False | Unknown

  type Row = map<string, Value>

  /** One joined row: a row of every FROM item, keyed by lower-case column name. */
  type Joined = seq<Row>

  /** The meaning of everything the analysis does not interpret. */
  datatype Oracle = Oracle(value: (Expr, Joined) -> Value, truth: (Expr, Joined) -> Truth, equal: (Value, Value) -> Truth)

  function Exposed(item: Item): Option<string> {
    if item.alias.Some? then Some(Low(item.alias.value)) else if item.table.Some? then Some(Low(item.table.value)) else None
  }

  ghost predicate Names(from: seq<Item>, i: int, q: string) { 0 <= i < |from| && Exposed(from[i]) == Some(q) }

  /** The qualifier names item `i` and no other. */
  ghost predicate Only(from: seq<Item>, i: int, q: string) { Names(from, i, q) && forall k :: Names(from, k, q) ==> k == i }

  ghost predicate Offers(j: Joined, i: int, column: string) { 0 <= i < |j| && Low(column) in j[i] }

  predicate Merges(item: Item, column: string) { item.natural || Low(column) in item.merged }

  /** Every item with the column but the first merges it; otherwise a bare reference is ambiguous. */
  ghost predicate Unambiguous(from: seq<Item>, j: Joined, column: string) {
    forall i, k :: Offers(j, i, column) && Offers(j, k, column) && i < k && k < |from| ==> Merges(from[k], column)
  }

  /** A column reference takes its value from item `i`: a merged one from the first item where it is not NULL. */
  ghost predicate Reads(from: seq<Item>, j: Joined, e: Expr, i: int)
    requires e.Col?
  {
    && Offers(j, i, e.column) && j[i][Low(e.column)] != Null
    && if Qualified(e) then Only(from, i, Low(e.table.value))
       else Unambiguous(from, j, e.column) && forall k :: Offers(j, k, e.column) && k < i ==> j[k][Low(e.column)] == Null
  }

  ghost function ColumnValue(from: seq<Item>, j: Joined, e: Expr): Value
    requires e.Col?
  {
    if i :| Reads(from, j, e, i) then j[i][Low(e.column)] else Null
  }

  lemma ReadsOne(from: seq<Item>, j: Joined, e: Expr, i: int)
    requires e.Col? && Reads(from, j, e, i)
    ensures ColumnValue(from, j, e) == j[i][Low(e.column)]
  {
    assert forall k :: Reads(from, j, e, k) ==> k == i;
  }

  ghost function ValueOf(o: Oracle, from: seq<Item>, j: Joined, e: Expr): Value {
    match e
    case Col(_, _) => ColumnValue(from, j, e)
    case Num(v) => Number(v)
    case _ => o.value(e, j)
  }

  function EqualTruth(o: Oracle, a: Value, b: Value): Truth {
    if a.Null? || b.Null? then Unknown
    else if a.Number? && b.Number? then (if a.n == b.n then True else False)
    else o.equal(a, b)
  }

  function AndTruth(a: Truth, b: Truth): Truth {
    if a == False || b == False then False else if a == True && b == True then True else Unknown
  }

  ghost function Holds(o: Oracle, from: seq<Item>, j: Joined, e: Expr): Truth {
    if e.Binary? && e.op == And then AndTruth(Holds(o, from, j, e.left), Holds(o, from, j, e.right))
    else if e.Binary? && e.op == Equals then EqualTruth(o, ValueOf(o, from, j, e.left), ValueOf(o, from, j, e.right))
    else o.truth(e, j)
  }

  // ----- which joined rows exist -----

  datatype Relation = Relation(schema: Option<string>, name: string)

  /** The stored rows of each relation. */
  type Database = map<Relation, seq<Row>>

  function RowsOf(db: Database, schema: Option<string>, name: string): seq<Row> {
    if Relation(schema, name) in db then db[Relation(schema, name)] else []
  }

  /** Not a stored table: a derived table or a common table expression. */
  predicate Foreign(st: Select, item: Item) {
    item.table.None? || (item.schema.None? && Low(item.table.value) in st.ctes)
  }

  /** What the database may resolve an item to: a table of that name, in that schema if one is given. */
  predicate CanBe(st: Select, c: Catalog, item: Item, t: Table) {
    && t in c && !Foreign(st, item) && Low(item.table.value) == Low(t.name)
    && (item.schema.Some? ==> t.schema.Some? && Low(t.schema.value) == Low(item.schema.value))
  }

  /** Nothing is known of its columns: a foreign item, or a table the catalog does not have. */
  predicate Open(st: Select, c: Catalog, item: Item) { forall t :: t in c ==> !CanBe(st, c, item, t) }

  /** What every item is, as the database resolves it. */
  type Resolution = seq<Option<Table>>

  ghost predicate Admissible(st: Select, c: Catalog, den: Resolution) {
    && |den| == |st.from|
    && forall i :: 0 <= i < |den| ==>
         if Open(st, c, st.from[i]) then den[i] == None else den[i].Some? && CanBe(st, c, st.from[i], den[i].value)
  }

  predicate AllNull(r: Row) { forall k :: k in r ==> r[k] == Null }

  predicate Typed(p: Patterns, c: Catalog, r: Row, column: string) {
    IntegerColumn(p, c, column) && Low(column) in r ==> !r[Low(column)].Text?
  }

  /** A stored row of `t`, or the NULL row of an outer join; integer columns hold numbers. */
  ghost predicate RowOf(p: Patterns, c: Catalog, db: Database, t: Table, r: Row) {
    && (forall column :: HasColumn(t, column) <==> Low(column) in r)
    && (AllNull(r) || r in RowsOf(db, t.schema, t.name))
    && (forall column :: Typed(p, c, r, column))
  }

  ghost predicate JoinedRow(p: Patterns, c: Catalog, db: Database, st: Select, den: Resolution, j: Joined) {
    && Admissible(st, c, den) && |j| == |st.from|
    && forall i :: 0 <= i < |j| && den[i].Some? ==> RowOf(p, c, db, den[i].value, j[i])
  }

  // ----- when a reference can only mean one table -----

  /** The item may have the column. */
  predicate MayOffer(st: Select, c: Catalog, i: int, column: string) {
    && 0 <= i < |st.from|
    && (Open(st, c, st.from[i]) || exists t :: t in c && CanBe(st, c, st.from[i], t) && HasColumn(t, column))
  }

  /** The item has the column, whatever it resolves to. */
  predicate MustOffer(st: Select, c: Catalog, i: int, column: string) {
    && 0 <= i < |st.from| && !Open(st, c, st.from[i])
    && forall t :: t in c && CanBe(st, c, st.from[i], t) ==> HasColumn(t, column)
  }

  /** Item `i` itself, or an item that has the column in any case. */
  predicate Present(st: Select, c: Catalog, i: int, k: int, column: string) { k == i || MustOffer(st, c, k, column) }

  /** The reference may take its value from item `i`. */
  ghost predicate MayRead(st: Select, c: Catalog, e: Expr, i: int)
    requires e.Col?
  {
    && MayOffer(st, c, i, e.column)
    && if Qualified(e) then Only(st.from, i, Low(e.table.value))
       else forall m, k :: Present(st, c, i, m, e.column) && Present(st, c, i, k, e.column) && m < k && 0 <= k < |st.from| ==>
              Merges(st.from[k], e.column)
  }

  /** If item `i` has the column, it is `t`. */
  predicate IsOnly(st: Select, c: Catalog, i: int, column: string, t: Table) {
    && 0 <= i < |st.from| && !Open(st, c, st.from[i])
    && forall u :: u in c && CanBe(st, c, st.from[i], u) && HasColumn(u, column) ==> u == t
  }

  /** Whatever the reference can take its value from is `t`: something to check before the call. */
  ghost predicate Certain(st: Select, c: Catalog, e: Expr, t: Table)
    requires e.Col?
  {
    forall i :: MayRead(st, c, e, i) ==> IsOnly(st, c, i, e.column, t)
  }

  /** On every joined row of every database, the reference's value is one of `t`. */
  ghost predicate Right(p: Patterns, c: Catalog, st: Select, e: Expr, t: Table)
    requires e.Col?
  {
    forall db, den, j, i :: JoinedRow(p, c, db, st, den, j) && Reads(st.from, j, e, i) && 0 <= i < |den| ==> den[i] == Some(t)
  }

  lemma OffersIsKnown(p: Patterns, c: Catalog, db: Database, st: Select, den: Resolution, j: Joined, i: int, column: string)
    requires JoinedRow(p, c, db, st, den, j) && 0 <= i < |st.from|
    ensures Offers(j, i, column) ==> MayOffer(st, c, i, column)
    ensures MustOffer(st, c, i, column) ==> Offers(j, i, column)
    ensures Offers(j, i, column) && den[i].Some? ==> HasColumn(den[i].value, column)
    ensures den[i].Some? ==> den[i].value in c && CanBe(st, c, st.from[i], den[i].value)
  {
    hide HasColumn, Low, Foreign;
  }

  lemma ReadsMay(p: Patterns, c: Catalog, db: Database, st: Select, den: Resolution, j: Joined, e: Expr, i: int)
    requires e.Col? && JoinedRow(p, c, db, st, den, j) && Reads(st.from, j, e, i)
    ensures 0 <= i < |st.from| && MayRead(st, c, e, i)
  {
    hide HasColumn, CanBe, MayOffer, MustOffer;
    OffersIsKnown(p, c, db, st, den, j, i, e.column);
    if !Qualified(e) {
      forall k | 0 <= k < |st.from| && MustOffer(st, c, k, e.column) ensures Offers(j, k, e.column) {
        OffersIsKnown(p, c, db, st, den, j, k, e.column);
      }
      MustInRange(st, c, e.column);
    }
  }

  lemma MustInRange(st: Select, c: Catalog, column: string)
    ensures forall k :: MustOffer(st, c, k, column) ==> 0 <= k < |st.from|
  {}

  lemma CertainIsRight(p: Patterns, c: Catalog, db: Database, st: Select, den: Resolution, j: Joined, e: Expr, i: int, t: Table)
    requires e.Col? && Certain(st, c, e, t) && JoinedRow(p, c, db, st, den, j) && Reads(st.from, j, e, i)
    ensures 0 <= i < |den| && den[i] == Some(t)
  {
    hide HasColumn, CanBe, MayRead;
    ReadsMay(p, c, db, st, den, j, e, i);
    assert IsOnly(st, c, i, e.column, t);
    OffersIsKnown(p, c, db, st, den, j, i, e.column);
  }

  // ----- and when it can mean another -----

  /** The lower-case column names of a table. */
  function Keys(t: Table): set<string> { set k | k in t.columns :: Low(k.name) }

  /** A row of `t` with the same value in every column. */
  function RowWith(t: Table, v: Value): Row { map k | k in Keys(t) :: v }

  lemma RowWithIs(p: Patterns, c: Catalog, db: Database, t: Table, v: Value)
    requires v == Null || (v.Number? && RowWith(t, v) in RowsOf(db, t.schema, t.name))
    ensures RowOf(p, c, db, t, RowWith(t, v))
  {
    hide Low, IntegerColumn;
    forall column ensures HasColumn(t, column) <==> Low(column) in RowWith(t, v) {
      if HasColumn(t, column) {
        var i :| 0 <= i < |t.columns| && Low(t.columns[i].name) == Low(column);
        assert t.columns[i] in t.columns;
      }
      if Low(column) in Keys(t) {
        var k :| k in t.columns && Low(k.name) == Low(column);
        var i :| 0 <= i < |t.columns| && t.columns[i] == k;
        assert Low(t.columns[i].name) == Low(column);
      }
    }
  }

  /** A table an item can be, one without the column if there is such. */
  ghost function Chosen(st: Select, c: Catalog, i: int, column: string): (r: Option<Table>)
    requires 0 <= i < |st.from|
    ensures if Open(st, c, st.from[i]) then r.None? else r.Some? && CanBe(st, c, st.from[i], r.value) && r.value in c
    ensures r.Some? && HasColumn(r.value, column) ==> MustOffer(st, c, i, column)
  {
    if Open(st, c, st.from[i]) then None
    else if t :| t in c && CanBe(st, c, st.from[i], t) && !HasColumn(t, column) then Some(t)
    else var t :| t in c && CanBe(st, c, st.from[i], t); Some(t)
  }

  /** Item `i` as `at`, with the value `v` in the column; every other item as chosen, a NULL row. */
  ghost function WitnessDen(st: Select, c: Catalog, i: int, column: string, at: Option<Table>): Resolution {
    seq(|st.from|, k requires 0 <= k < |st.from| => if k == i then at else Chosen(st, c, k, column))
  }

  ghost function WitnessRow(st: Select, c: Catalog, i: int, column: string, at: Option<Table>, v: Value): Joined {
    seq(|st.from|, k requires 0 <= k < |st.from| =>
      if k == i then (if at.Some? then RowWith(at.value, v) else map[Low(column) := v])
      else if Chosen(st, c, k, column).Some? then RowWith(Chosen(st, c, k, column).value, Null) else map[])
  }

  ghost function WitnessDb(at: Option<Table>, v: Value): Database {
    if at.Some? then map[Relation(at.value.schema, at.value.name) := [RowWith(at.value, v)]] else map[]
  }

  /** What item `i` can be when it is not known to be `t`. */
  ghost predicate Other(st: Select, c: Catalog, i: int, column: string, at: Option<Table>) {
    && 0 <= i < |st.from|
    && if Open(st, c, st.from[i]) then at.None? else at.Some? && CanBe(st, c, st.from[i], at.value) && HasColumn(at.value, column)
  }

  lemma WitnessJoined(p: Patterns, c: Catalog, st: Select, i: int, column: string, at: Option<Table>, v: Value)
    requires Other(st, c, i, column, at) && v.Number?
    ensures JoinedRow(p, c, WitnessDb(at, v), st, WitnessDen(st, c, i, column, at), WitnessRow(st, c, i, column, at, v))
  {
    hide CanBe, Open, Chosen, HasColumn, RowWith, RowOf;
    var db, den, j := WitnessDb(at, v), WitnessDen(st, c, i, column, at), WitnessRow(st, c, i, column, at, v);
    forall k | 0 <= k < |j| && den[k].Some? ensures RowOf(p, c, db, den[k].value, j[k]) {
      RowWithIs(p, c, db, den[k].value, if k == i then v else Null);
    }
  }

  /** In the witness, item `i` has the value, and of the others those that must have the column have NULL. */
  lemma WitnessOffers(st: Select, c: Catalog, i: int, column: string, at: Option<Table>, v: Value, k: int)
    requires Other(st, c, i, column, at)
    ensures var j := WitnessRow(st, c, i, column, at, v);
            && (Offers(j, k, column) ==> Present(st, c, i, k, column) && 0 <= k < |st.from|)
            && (Offers(j, k, column) && k != i ==> j[k][Low(column)] == Null)
            && Offers(j, i, column) && j[i][Low(column)] == v
  {
    hide CanBe, Open, Low, Chosen, HasColumn;
    var j := WitnessRow(st, c, i, column, at, v);
    if at.Some? {
      KeysOf(at.value, column);
      assert j[i] == RowWith(at.value, v);
    } else {
      assert j[i] == map[Low(column) := v];
    }
    if 0 <= k < |st.from| && k != i && Chosen(st, c, k, column).Some? { KeysOf(Chosen(st, c, k, column).value, column); }
  }

  lemma KeysOf(t: Table, column: string)
    ensures Low(column) in Keys(t) <==> HasColumn(t, column)
  {
    hide Low;
    if HasColumn(t, column) {
      var i :| 0 <= i < |t.columns| && Low(t.columns[i].name) == Low(column);
      assert t.columns[i] in t.columns;
    }
    if Low(column) in Keys(t) {
      var k :| k in t.columns && Low(k.name) == Low(column);
      var i :| 0 <= i < |t.columns| && t.columns[i] == k;
      assert Low(t.columns[i].name) == Low(column);
    }
  }

  lemma WitnessReads(st: Select, c: Catalog, e: Expr, i: int, at: Option<Table>, v: Value)
    requires e.Col? && MayRead(st, c, e, i) && Other(st, c, i, e.column, at) && v.Number?
    ensures Reads(st.from, WitnessRow(st, c, i, e.column, at, v), e, i)
  {
    hide CanBe, Open, Low, MustOffer, MayOffer, WitnessRow, HasColumn;
    var j := WitnessRow(st, c, i, e.column, at, v);
    forall k ensures (Offers(j, k, e.column) ==> Present(st, c, i, k, e.column) && 0 <= k < |st.from|)
                     && (Offers(j, k, e.column) && k != i ==> j[k][Low(e.column)] == Null)
                     && Offers(j, i, e.column) && j[i][Low(e.column)] == v
    {
      WitnessOffers(st, c, i, e.column, at, v, k);
    }
  }

  /** What the offending item can be instead of `t`. */
  lemma OtherThan(st: Select, c: Catalog, e: Expr, i: int, t: Table) returns (at: Option<Table>)
    requires e.Col? && MayRead(st, c, e, i) && !IsOnly(st, c, i, e.column, t)
    ensures Other(st, c, i, e.column, at) && at != Some(t)
  {
    hide CanBe, HasColumn, Low;
    if Open(st, c, st.from[i]) {
      at := None;
    } else {
      var u :| u in c && CanBe(st, c, st.from[i], u) && HasColumn(u, e.column) && u != t;
      at := Some(u);
    }
  }

  /** A reference is right about `t` on every joined row exactly when whatever it can be read from is `t`. */
  lemma AttributionIff(p: Patterns, c: Catalog, st: Select, e: Expr, t: Table)
    requires e.Col?
    ensures Right(p, c, st, e, t) <==> Certain(st, c, e, t)
  {
    hide MayRead, IsOnly, JoinedRow, Reads, Other;
    if Certain(st, c, e, t) {
      forall db, den, j, i | JoinedRow(p, c, db, st, den, j) && Reads(st.from, j, e, i) && 0 <= i < |den|
        ensures den[i] == Some(t)
      {
        CertainIsRight(p, c, db, st, den, j, e, i, t);
      }
    } else {
      var i :| MayRead(st, c, e, i) && !IsOnly(st, c, i, e.column, t);
      var at := OtherThan(st, c, e, i, t);
      WitnessJoined(p, c, st, i, e.column, at, Number(1.0));
      WitnessReads(st, c, e, i, at, Number(1.0));
      WitnessAt(st, c, i, e.column, at);
    }
  }

  lemma WitnessAt(st: Select, c: Catalog, i: int, column: string, at: Option<Table>)
    requires Other(st, c, i, column, at)
    ensures 0 <= i < |WitnessDen(st, c, i, column, at)| && WitnessDen(st, c, i, column, at)[i] == at
  {}

  // ----- what is reported -----

  /** `a = b` is an AND-conjunct of `e` no deeper than the walk goes. */
  predicate Conjunct(e: Expr, depth: nat, a: Expr, b: Expr) {
    depth <= MAX_DEPTH && e.Binary?
    && match e.op
       case And => Conjunct(e.left, depth + 1, a, b) || Conjunct(e.right, depth + 1, a, b)
       case Equals => (a == e.left && b == e.right) || (a == e.right && b == e.left)
       case _ => false
  }

  ghost predicate FoundInv(f: Found) {
    && (forall l :: l in f.list ==> Key(l) in f.seen)
    && (forall k :: k in f.seen ==> exists i :: 0 <= i < |f.list| && Key(f.list[i]) == k)
    && (forall i, k :: 0 <= i < k < |f.list| ==> Key(f.list[i]) != Key(f.list[k]))
  }

  lemma PushInv(f: Found, l: Option<CodeLiteral>)
    requires FoundInv(f)
    ensures FoundInv(Push(f, l)) && f.seen <= Push(f, l).seen
  {
    hide Key;
    var g := Push(f, l);
    forall k | k in g.seen ensures exists i :: 0 <= i < |g.list| && Key(g.list[i]) == k {
      if k in f.seen {
        var i :| 0 <= i < |f.list| && Key(f.list[i]) == k;
        assert Key(g.list[i]) == k;
      } else {
        assert Key(g.list[|f.list|]) == k;
      }
    }
  }

  /** The walk adds, up to its key, exactly what the conjuncts it reaches would report. */
  lemma {:induction false} WalkComplete(p: Patterns, c: Catalog, scope: map<string, string>, e: Expr, depth: nat, f: Found)
    requires FoundInv(f)
    ensures var g := WalkConjunction(p, c, scope, e, depth, f);
            && FoundInv(g) && f.seen <= g.seen
            && (forall a, b :: Conjunct(e, depth, a, b) && Consider(p, c, scope, a, b).Some? ==>
                  Key(Consider(p, c, scope, a, b).value) in g.seen)
            && (forall l :: l in g.list && l !in f.list ==>
                  exists a, b :: Conjunct(e, depth, a, b) && Consider(p, c, scope, a, b) == Some(l))
    decreases e
  {
    hide Consider, Key, FoundInv;
    if depth <= MAX_DEPTH && e.Binary? {
      if e.op == And {
        WalkComplete(p, c, scope, e.left, depth + 1, f);
        var h := WalkConjunction(p, c, scope, e.left, depth + 1, f);
        WalkComplete(p, c, scope, e.right, depth + 1, h);
        var g := WalkConjunction(p, c, scope, e, depth, f);
        forall l | l in g.list && l !in f.list
          ensures exists a, b :: Conjunct(e, depth, a, b) && Consider(p, c, scope, a, b) == Some(l)
        {
          if l in h.list {
            var a, b :| Conjunct(e.left, depth + 1, a, b) && Consider(p, c, scope, a, b) == Some(l);
            assert Conjunct(e, depth, a, b);
          } else {
            var a, b :| Conjunct(e.right, depth + 1, a, b) && Consider(p, c, scope, a, b) == Some(l);
            assert Conjunct(e, depth, a, b);
          }
        }
      } else if e.op == Equals {
        var x, y := Consider(p, c, scope, e.left, e.right), Consider(p, c, scope, e.right, e.left);
        PushInv(f, x);
        PushInv(Push(f, x), y);
        assert Conjunct(e, depth, e.left, e.right) && Conjunct(e, depth, e.right, e.left);
      }
    }
  }

  // ----- soundness -----

  /** Item `i` is the table the literal was reported for and holds it in that column. */
  ghost predicate Pins(den: Resolution, j: Joined, l: CodeLiteral, i: int) {
    && 0 <= i < |j| && i < |den| && den[i].Some? && den[i].value.schema == l.schema && den[i].value.name == l.table
    && Low(l.column) in j[i] && j[i][Low(l.column)] == Number(l.literal as real)
  }

  ghost predicate Pinned(den: Resolution, j: Joined, l: CodeLiteral) { exists i :: Pins(den, j, l, i) }

  /** The reference that reports `l` can only mean the table it is reported for. */
  ghost predicate CertainConjunct(p: Patterns, c: Catalog, st: Select, l: CodeLiteral, a: Expr, b: Expr) {
    && Conjunct(st.where, 0, a, b) && Consider(p, c, InScope(st.from), a, b) == Some(l)
    && a.Col? && Owner(c, InScope(st.from), a).Some? && Certain(st, c, a, Owner(c, InScope(st.from), a).value)
  }

  ghost predicate CertainLiteral(p: Patterns, c: Catalog, st: Select, l: CodeLiteral) {
    exists a, b :: CertainConjunct(p, c, st, l, a, b)
  }

  lemma {:induction false} ConjunctHolds(o: Oracle, from: seq<Item>, j: Joined, e: Expr, depth: nat, a: Expr, b: Expr)
    requires Holds(o, from, j, e) == True && Conjunct(e, depth, a, b)
    ensures var x, y := ValueOf(o, from, j, a), ValueOf(o, from, j, b); EqualTruth(o, x, y) == True || EqualTruth(o, y, x) == True
    decreases e
  {
    hide ValueOf;
    if e.op == And {
      if Conjunct(e.left, depth + 1, a, b) {
        ConjunctHolds(o, from, j, e.left, depth + 1, a, b);
      } else {
        ConjunctHolds(o, from, j, e.right, depth + 1, a, b);
      }
    }
  }

  lemma ConsiderSound(p: Patterns, c: Catalog, db: Database, st: Select, den: Resolution, j: Joined, o: Oracle, a: Expr, b: Expr,
                      l: CodeLiteral)
    requires JoinedRow(p, c, db, st, den, j) && CertainConjunct(p, c, st, l, a, b)
    requires var x, y := ValueOf(o, st.from, j, a), ValueOf(o, st.from, j, b);
             EqualTruth(o, x, y) == True || EqualTruth(o, y, x) == True
    ensures Pinned(den, j, l)
  {
    hide JoinedRow, HasColumn, CodedName, InScope, Owner, Keyed, Certain, Conjunct;
    var t := Owner(c, InScope(st.from), a).value;
    assert ColumnValue(st.from, j, a) != Null;
    var i :| Reads(st.from, j, a, i) && ColumnValue(st.from, j, a) == j[i][Low(a.column)];
    CertainIsRight(p, c, db, st, den, j, a, i, t);
    CodedIsInteger(p, c, a.column);
    RowTyped(p, c, db, st, den, j, i, a.column);
    assert Pins(den, j, l, i);
  }

  lemma CodedIsInteger(p: Patterns, c: Catalog, column: string)
    requires CodedName(p, c, column)
    ensures IntegerColumn(p, c, column)
  {}

  lemma RowTyped(p: Patterns, c: Catalog, db: Database, st: Select, den: Resolution, j: Joined, i: int, column: string)
    requires JoinedRow(p, c, db, st, den, j) && 0 <= i < |den| && den[i].Some?
    ensures i < |j| && RowOf(p, c, db, den[i].value, j[i]) && Typed(p, c, j[i], column)
  {
    assert RowOf(p, c, db, den[i].value, j[i]);
  }

  /**
   * A literal whose reference can only mean its table is pinned: on a joined row that satisfies
   * WHERE, a FROM item of that table holds the literal in that column.
   */
  lemma AnalysisSound(p: Patterns, c: Catalog, db: Database, st: Select, den: Resolution, j: Joined, o: Oracle, l: CodeLiteral)
    requires JoinedRow(p, c, db, st, den, j) && CertainLiteral(p, c, st, l) && Holds(o, st.from, j, st.where) == True
    ensures Pinned(den, j, l)
  {
    hide JoinedRow, ValueOf, Consider, Conjunct, Certain, Owner, InScope;
    var a, b :| CertainConjunct(p, c, st, l, a, b);
    ConjunctHolds(o, st.from, j, st.where, 0, a, b);
    ConsiderSound(p, c, db, st, den, j, o, a, b, l);
  }

  /** What is reported for a statement comes from one of its conjuncts. */
  lemma ReportedFrom(p: Patterns, c: Catalog, st: Select, l: CodeLiteral)
    requires l in Analyse(p, c, [st])
    ensures exists a, b :: Conjunct(st.where, 0, a, b) && Consider(p, c, InScope(st.from), a, b) == Some(l)
  {
    hide WalkConjunction, Consider, Conjunct, InScope;
    var f := Found([], {});
    OneStatement(p, c, st);
    WalkComplete(p, c, InScope(st.from), st.where, 0, f);
  }

  lemma OneStatement(p: Patterns, c: Catalog, st: Select)
    ensures Analyse(p, c, [st]) == WalkConjunction(p, c, InScope(st.from), st.where, 0, Found([], {})).list
  {
    hide WalkConjunction, InScope;
    var g := WalkConjunction(p, c, InScope(st.from), st.where, 0, Found([], {}));
    assert [st][1..] == [];
    assert WalkStatements(p, c, [], g) == g;
  }

  // ----- the probe -----

  const CODE_MAX_DISTINCT := 25

  /** The distinct values of a stored column. */
  ghost function Distinct(rows: seq<Row>, column: string): set<Value> {
    set r | r in rows && Low(column) in r :: r[Low(column)]
  }

  /** What SELECT DISTINCT with LIMIT 26 may return, in any order. */
  ghost predicate ProbeResult(probe: seq<Value>, values: set<Value>) {
    && (forall i, k :: 0 <= i < k < |probe| ==> probe[i] != probe[k])
    && (forall i :: 0 <= i < |probe| ==> probe[i] in values)
    && |probe| == if |values| > CODE_MAX_DISTINCT then CODE_MAX_DISTINCT + 1 else |values|
  }

  /** `codeValuesOf` followed by the membership test: the probe is conclusive and lacks the literal. */
  predicate Impossible(probe: seq<Value>, literal: int) {
    && 0 < |probe| <= CODE_MAX_DISTINCT
    && forall i :: 0 <= i < |probe| ==> probe[i] != Number(literal as real)
  }

  lemma {:induction false} SeqSetSize(s: seq<Value>)
    requires forall i, k :: 0 <= i < k < |s| ==> s[i] != s[k]
    ensures |set v | v in s| == |s|
  {
    if s != [] {
      var front, last := s[..|s| - 1], s[|s| - 1];
      SeqSetSize(front);
      assert (set v | v in s) == (set v | v in front) + {last};
    }
  }

  lemma ProbeComplete(probe: seq<Value>, values: set<Value>, v: Value)
    requires ProbeResult(probe, values) && |probe| <= CODE_MAX_DISTINCT && v in values
    ensures v in probe
  {
    var got := set x | x in probe;
    SeqSetSize(probe);
    SubsetSize(got, values, v);
  }

  lemma SubsetSize(a: set<Value>, b: set<Value>, v: Value)
    requires a <= b && |a| == |b| && v in b
    ensures v in a
  {
    if v !in a {
      assert a <= b - {v};
      SubsetCard(a, b - {v});
    }
  }

  lemma {:induction false} SubsetCard(a: set<Value>, b: set<Value>)
    requires a <= b
    ensures |a| <= |b|
    decreases a
  {
    if a != {} {
      var x :| x in a;
      SubsetCard(a - {x}, b - {x});
    }
  }

  /** The caveat is true: if such a literal is judged impossible, no joined row satisfies WHERE. */
  lemma NoRowQualifies(p: Patterns, c: Catalog, db: Database, st: Select, o: Oracle, l: CodeLiteral, probe: seq<Value>,
                       den: Resolution, j: Joined)
    requires CertainLiteral(p, c, st, l)
    requires ProbeResult(probe, Distinct(RowsOf(db, l.schema, l.table), l.column)) && Impossible(probe, l.literal)
    requires JoinedRow(p, c, db, st, den, j)
    ensures Holds(o, st.from, j, st.where) != True
  {
    hide CertainLiteral, Holds, JoinedRow;
    if Holds(o, st.from, j, st.where) == True {
      AnalysisSound(p, c, db, st, den, j, o, l);
      var i :| Pins(den, j, l, i);
      PinnedIsStored(p, c, db, st, den, j, l, i);
      ProbeComplete(probe, Distinct(RowsOf(db, l.schema, l.table), l.column), Number(l.literal as real));
    }
  }

  lemma PinnedIsStored(p: Patterns, c: Catalog, db: Database, st: Select, den: Resolution, j: Joined, l: CodeLiteral, i: int)
    requires JoinedRow(p, c, db, st, den, j) && Pins(den, j, l, i)
    ensures Number(l.literal as real) in Distinct(RowsOf(db, l.schema, l.table), l.column)
  {
    hide Low, HasColumn;
    assert RowOf(p, c, db, den[i].value, j[i]);
    assert !AllNull(j[i]);
  }

  // ----- what is reported, end to end -----

  ghost predicate Reports(p: Patterns, c: Catalog, st: Select, l: CodeLiteral, a: Expr, b: Expr) {
    Conjunct(st.where, 0, a, b) && Consider(p, c, InScope(st.from), a, b) == Some(l)
  }

  /** Every conjunct that reports `l` can only mean the table it is reported for. */
  ghost predicate CertainlyReported(p: Patterns, c: Catalog, st: Select, l: CodeLiteral) {
    forall a, b :: Reports(p, c, st, l, a, b) ==> CertainConjunct(p, c, st, l, a, b)
  }

  lemma ReportedIsCertain(p: Patterns, c: Catalog, st: Select, l: CodeLiteral)
    requires l in Analyse(p, c, [st]) && CertainlyReported(p, c, st, l)
    ensures CertainLiteral(p, c, st, l)
  {
    hide Analyse, Conjunct, Consider, InScope, CertainConjunct;
    ReportedFrom(p, c, st, l);
    var a, b :| Conjunct(st.where, 0, a, b) && Consider(p, c, InScope(st.from), a, b) == Some(l);
    assert Reports(p, c, st, l, a, b);
  }

  /** Whatever is reported, certainly, holds on every joined row that satisfies WHERE. */
  lemma ReportedHolds(p: Patterns, c: Catalog, db: Database, st: Select, den: Resolution, j: Joined, o: Oracle, l: CodeLiteral)
    requires l in Analyse(p, c, [st]) && CertainlyReported(p, c, st, l)
    requires JoinedRow(p, c, db, st, den, j) && Holds(o, st.from, j, st.where) == True
    ensures Pinned(den, j, l)
  {
    hide Analyse, CertainlyReported, CertainLiteral, JoinedRow, Holds;
    ReportedIsCertain(p, c, st, l);
    AnalysisSound(p, c, db, st, den, j, o, l);
  }

  /** And if the probe then lacks it, no joined row satisfies WHERE. */
  lemma ReportedNever(p: Patterns, c: Catalog, db: Database, st: Select, o: Oracle, l: CodeLiteral, probe: seq<Value>,
                      den: Resolution, j: Joined)
    requires l in Analyse(p, c, [st]) && CertainlyReported(p, c, st, l)
    requires ProbeResult(probe, Distinct(RowsOf(db, l.schema, l.table), l.column)) && Impossible(probe, l.literal)
    requires JoinedRow(p, c, db, st, den, j)
    ensures Holds(o, st.from, j, st.where) != True
  {
    hide Analyse, CertainlyReported, CertainLiteral, JoinedRow, Holds, ProbeResult, Impossible;
    ReportedIsCertain(p, c, st, l);
    NoRowQualifies(p, c, db, st, o, l, probe, den, j);
  }

  // ----- where the analysis reads names wrongly -----

  ghost predicate UniqueRelations(c: Catalog) {
    forall t, u :: t in c && u in c && t.schema == u.schema && t.name == u.name ==> t == u
  }

  /** The statement `... WHERE e = k`. */
  function Comparing(ctes: set<string>, from: seq<Item>, e: Expr, k: int): Select {
    Select(ctes, from, Binary(Equals, e, Num(k as real)))
  }

  /** Some joined row satisfies WHERE although the table reported for does not hold the literal there. */
  ghost predicate Refuted(p: Patterns, c: Catalog, o: Oracle, st: Select, l: CodeLiteral) {
    exists db, den, j ::
      JoinedRow(p, c, db, st, den, j) && Holds(o, st.from, j, st.where) == True && !Pinned(den, j, l)
  }

  lemma WitnessUnpinned(st: Select, c: Catalog, i: int, at: Option<Table>, t: Table, l: CodeLiteral)
    requires UniqueRelations(c) && Other(st, c, i, l.column, at) && at != Some(t) && t in c
    requires l.schema == t.schema && l.table == t.name
    ensures var v := Number(l.literal as real);
            !Pinned(WitnessDen(st, c, i, l.column, at), WitnessRow(st, c, i, l.column, at, v), l)
  {
    hide Open, Chosen, HasColumn, Low;
    var v := Number(l.literal as real);
    var den, j := WitnessDen(st, c, i, l.column, at), WitnessRow(st, c, i, l.column, at, v);
    forall k ensures !Pins(den, j, l, k) { WitnessOffers(st, c, i, l.column, at, v, k); }
  }

  lemma OwnerInCatalog(c: Catalog, scope: map<string, string>, e: Expr)
    requires e.Col? && Owner(c, scope, e).Some?
    ensures Owner(c, scope, e).value in c
  {
    hide HasColumn, Low;
    if Qualified(e) {
      var q := Low(e.table.value);
      FindTableFinds(c, if q in scope then scope[q] else q);
    } else {
      var names := if |scope| > 0 then set k | k in scope :: Low(scope[k]) else LowNames(c);
      OwnersOwn(c, names, e.column, Owner(c, scope, e).value);
    }
  }

  lemma {:induction false} FindTableFinds(c: Catalog, name: string)
    ensures var r := FindTable(c, name); r.Some? ==> r.value in c && Low(r.value.name) == Low(name)
  {
    if c != [] { FindTableFinds(c[1..], name); }
  }

  lemma {:induction false} OwnersOwn(c: Catalog, names: set<string>, column: string, t: Table)
    requires t in Owners(c, names, column)
    ensures t in c && Low(t.name) in names && HasColumn(t, column)
  {
    if t in Owners(c[1..], names, column) { OwnersOwn(c[1..], names, column, t); }
  }

  /** For a single comparison the report holds on every joined row exactly when its reference is certain. */
  lemma ComparisonIff(p: Patterns, c: Catalog, o: Oracle, ctes: set<string>, from: seq<Item>, e: Expr, k: int, l: CodeLiteral)
    requires UniqueRelations(c) && e.Col? && Consider(p, c, InScope(from), e, Num(k as real)) == Some(l)
    ensures var st := Comparing(ctes, from, e, k);
            && l in Analyse(p, c, [st]) && Owner(c, InScope(from), e).Some?
            && (!Refuted(p, c, o, st, l) <==> Certain(st, c, e, Owner(c, InScope(from), e).value))
  {
    hide JoinedRow, InScope, Certain, Owner, CodedName, Keyed, MayRead, IsOnly;
    var st, t := Comparing(ctes, from, e, k), Owner(c, InScope(from), e).value;
    SingleStatement(p, c, st, l);
    if Certain(st, c, e, t) {
      assert CertainConjunct(p, c, st, l, e, Num(k as real));
      forall db, den, j | JoinedRow(p, c, db, st, den, j) && Holds(o, st.from, j, st.where) == True ensures Pinned(den, j, l) {
        AnalysisSound(p, c, db, st, den, j, o, l);
      }
    } else {
      NotCertain(p, c, o, st, e, k, l, t);
    }
  }

  lemma NotCertain(p: Patterns, c: Catalog, o: Oracle, st: Select, e: Expr, k: int, l: CodeLiteral, t: Table)
    requires UniqueRelations(c) && e.Col? && st.where == Binary(Equals, e, Num(k as real)) && !Certain(st, c, e, t)
    requires Consider(p, c, InScope(st.from), e, Num(k as real)) == Some(l) && Owner(c, InScope(st.from), e) == Some(t)
    ensures Refuted(p, c, o, st, l)
  {
    hide JoinedRow, InScope, Owner, CodedName, Keyed, MayRead, IsOnly, Reads, Other, Pinned;
    OwnerInCatalog(c, InScope(st.from), e);
    var i :| MayRead(st, c, e, i) && !IsOnly(st, c, i, e.column, t);
    var at := OtherThan(st, c, e, i, t);
    var v := Number(k as real);
    var db, den, j := WitnessDb(at, v), WitnessDen(st, c, i, e.column, at), WitnessRow(st, c, i, e.column, at, v);
    WitnessJoined(p, c, st, i, e.column, at, v);
    WitnessReads(st, c, e, i, at, v);
    ReadsOne(st.from, j, e, i);
    WitnessOffers(st, c, i, e.column, at, v, i);
    assert l.literal == k && l.column == e.column;
    WitnessUnpinned(st, c, i, at, t, l);
    assert Holds(o, st.from, j, st.where) == True;
  }

  lemma SingleStatement(p: Patterns, c: Catalog, st: Select, l: CodeLiteral)
    requires st.where.Binary? && st.where.op == Equals
    requires Consider(p, c, InScope(st.from), st.where.left, st.where.right) == Some(l)
    ensures l in Analyse(p, c, [st])
  {
    hide Consider, InScope, Key;
    var f, e := Found([], {}), st.where;
    var a, b := Consider(p, c, InScope(st.from), e.left, e.right), Consider(p, c, InScope(st.from), e.right, e.left);
    OneStatement(p, c, st);
    assert Push(f, a).list == [l];
    assert WalkConjunction(p, c, InScope(st.from), e, 0, f) == Push(Push(f, a), b);
  }

  // ----- a comparison among other conditions -----

  /** Conditions the analysis does not interpret, joined by AND. */
  predicate Free(w: Expr) {
    if w.Binary? && w.op == And then Free(w.left) && Free(w.right) else !(w.Binary? && w.op == Equals)
  }

  /** `e = k` AND any such conditions, in any order, the comparison within the walk's depth. */
  predicate OneComparison(w: Expr, depth: nat, e: Expr, k: int) {
    && depth <= MAX_DEPTH
    && (|| w == Binary(Equals, e, Num(k as real))
        || (w.Binary? && w.op == And
            && ((OneComparison(w.left, depth + 1, e, k) && Free(w.right)) || (Free(w.left) && OneComparison(w.right, depth + 1, e, k)))))
  }

  lemma {:induction false} ComparisonIsConjunct(w: Expr, depth: nat, e: Expr, k: int)
    requires OneComparison(w, depth, e, k)
    ensures Conjunct(w, depth, e, Num(k as real))
    decreases w
  {
    if w != Binary(Equals, e, Num(k as real)) {
      if OneComparison(w.left, depth + 1, e, k) && Free(w.right) {
        ComparisonIsConjunct(w.left, depth + 1, e, k);
      } else {
        ComparisonIsConjunct(w.right, depth + 1, e, k);
      }
    }
  }

  lemma {:induction false} FreeHolds(o: Oracle, from: seq<Item>, j: Joined, w: Expr)
    requires Free(w) && forall x :: o.truth(x, j) == True
    ensures Holds(o, from, j, w) == True
    decreases w
  {
    if w.Binary? && w.op == And {
      FreeHolds(o, from, j, w.left);
      FreeHolds(o, from, j, w.right);
    }
  }

  lemma {:induction false} ComparisonDecides(o: Oracle, from: seq<Item>, j: Joined, w: Expr, depth: nat, e: Expr, k: int)
    requires OneComparison(w, depth, e, k) && (forall x :: o.truth(x, j) == True)
    requires Holds(o, from, j, Binary(Equals, e, Num(k as real))) == True
    ensures Holds(o, from, j, w) == True
    decreases w
  {
    hide ValueOf;
    if w != Binary(Equals, e, Num(k as real)) {
      if OneComparison(w.left, depth + 1, e, k) && Free(w.right) {
        ComparisonDecides(o, from, j, w.left, depth + 1, e, k);
        FreeHolds(o, from, j, w.right);
      } else {
        ComparisonDecides(o, from, j, w.right, depth + 1, e, k);
        FreeHolds(o, from, j, w.left);
      }
    }
  }

  /** The meaning under which every uninterpreted condition is true. */
  function Lenient(): Oracle { Oracle((x: Expr, j: Joined) => Null, (x: Expr, j: Joined) => True, (a: Value, b: Value) => True) }

  /**
   * Beside conditions the analysis does not interpret, what the comparison reports holds on every
   * joined row whatever they mean, exactly when its reference is certain.
   */
  lemma ConjunctionIff(p: Patterns, c: Catalog, st: Select, e: Expr, k: int, l: CodeLiteral)
    requires UniqueRelations(c) && e.Col? && OneComparison(st.where, 0, e, k)
    requires Consider(p, c, InScope(st.from), e, Num(k as real)) == Some(l)
    ensures Owner(c, InScope(st.from), e).Some?
    ensures (forall o :: !Refuted(p, c, o, st, l)) <==> Certain(st, c, e, Owner(c, InScope(st.from), e).value)
  {
    hide JoinedRow, InScope, Certain, Owner, CodedName, Keyed, OneComparison, Conjunct, Pinned, Holds;
    var t := Owner(c, InScope(st.from), e).value;
    ComparisonIsConjunct(st.where, 0, e, k);
    if Certain(st, c, e, t) {
      assert CertainConjunct(p, c, st, l, e, Num(k as real));
      forall o ensures !Refuted(p, c, o, st, l) {
        forall db, den, j | JoinedRow(p, c, db, st, den, j) && Holds(o, st.from, j, st.where) == True ensures Pinned(den, j, l) {
          AnalysisSound(p, c, db, st, den, j, o, l);
        }
      }
    } else {
      LooseRefuted(p, c, st, e, k, l, t);
    }
  }

  lemma LooseRefuted(p: Patterns, c: Catalog, st: Select, e: Expr, k: int, l: CodeLiteral, t: Table)
    requires UniqueRelations(c) && e.Col? && OneComparison(st.where, 0, e, k) && !Certain(st, c, e, t)
    requires Consider(p, c, InScope(st.from), e, Num(k as real)) == Some(l) && Owner(c, InScope(st.from), e) == Some(t)
    ensures Refuted(p, c, Lenient(), st, l)
  {
    hide JoinedRow, InScope, Owner, Consider, Holds, Pinned, OneComparison, Admissible;
    var o, plain := Lenient(), st.(where := Binary(Equals, e, Num(k as real)));
    SameCertain(st, plain, c, e, t);
    NotCertain(p, c, o, plain, e, k, l, t);
    var db, den, j :| JoinedRow(p, c, db, plain, den, j) && Holds(o, plain.from, j, plain.where) == True && !Pinned(den, j, l);
    SameJoined(p, c, db, st, plain, den, j);
    ComparisonDecides(o, st.from, j, st.where, 0, e, k);
  }

  lemma SameForeign(st: Select, u: Select, c: Catalog)
    requires st.ctes == u.ctes
    ensures forall item, t :: CanBe(st, c, item, t) == CanBe(u, c, item, t)
    ensures forall item :: Open(st, c, item) == Open(u, c, item)
  {}

  /** Which rows can be joined does not depend on WHERE. */
  lemma SameJoined(p: Patterns, c: Catalog, db: Database, st: Select, u: Select, den: Resolution, j: Joined)
    requires st.ctes == u.ctes && st.from == u.from && JoinedRow(p, c, db, u, den, j)
    ensures JoinedRow(p, c, db, st, den, j)
  {
    SameForeign(st, u, c);
    hide RowOf, CanBe, Open;
  }

  lemma SameCertain(st: Select, u: Select, c: Catalog, e: Expr, t: Table)
    requires st.ctes == u.ctes && st.from == u.from && e.Col?
    ensures Certain(st, c, e, t) == Certain(u, c, e, t)
  {
    SameForeign(st, u, c);
    hide CanBe, Open, HasColumn;
    assert forall i :: MustOffer(st, c, i, e.column) == MustOffer(u, c, i, e.column);
    assert forall i :: MayOffer(st, c, i, e.column) == MayOffer(u, c, i, e.column);
    assert forall i, k :: Present(st, c, i, k, e.column) == Present(u, c, i, k, e.column);
    hide MustOffer, MayOffer, Present;
    assert forall i :: MayRead(st, c, e, i) == MayRead(u, c, e, i);
    assert forall i :: IsOnly(st, c, i, e.column, t) == IsOnly(u, c, i, e.column, t);
  }
}
