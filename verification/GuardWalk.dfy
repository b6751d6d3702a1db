/**
 * The guard's deep walk over a parsed statement and the deny-set behind it.  The parser's output is
 * an arbitrary JSON-like value, so nothing is assumed about where a forbidden node may hide.
 */
module GuardWalk {
  import opened Text

  datatype Value =
    | Nothing
    | Flag(b: bool)
    | Num(n: real)
    | Str(s: string)
    | Arr(items: seq<Value>)
    | Obj(fields: seq<Field>)

  datatype Field = Field(key: string, value: Value)

  datatype Engine = Postgres | Mysql | Sqlite | Duckdb | Oracle | OtherEngine

  datatype Violation =
    | TooDeep
    | StatementNotAllowed(kind: string)
    | SelectInto
    | FileRelation
    | SequencePseudoColumn(column: string)
    | FunctionDenied(name: string)

  /** The constant lists, the two text tests and `String()`, as the walk uses them. */
  datatype Tables = Tables(
    writeTypes: set<string>,
    fileLike: string -> bool,
    pseudoColumns: set<string>,
    text: Value -> string)

  /** The walk's read-only context. */
  datatype Rules = Rules(
    tables: Tables,
    denySet: set<string>,
    denySuffixes: seq<string>,
    denyPrefixes: seq<string>,
    maxDepth: int,
    engine: Engine)

  // ----- reading a node -----

  function Get(fields: seq<Field>, key: string): Value {
    if fields == [] then Nothing else if fields[0].key == key then fields[0].value else Get(fields[1..], key)
  }

  function Member(v: Value, key: string): Value { if v.Obj? then Get(v.fields, key) else Nothing }

  predicate IsObject(v: Value) { v.Arr? || v.Obj? }

  function ColumnName(node: Value): Option<string> {
    var col := Member(node, "column");
    if col.Str? then Some(Low(col.s))
    else if !IsObject(col) then None
    else
      var inner := Member(Member(col, "expr"), "value");
      if IsObject(Member(col, "expr")) && inner.Str? then Some(Low(inner.s))
      else if Member(col, "value").Str? then Some(Low(Member(col, "value").s)) else None
  }

  /** `String(v ?? '')`. */
  function TextOr(t: Tables, v: Value): string { if v.Nothing? then "" else if v.Str? then v.s else t.text(v) }

  function PartText(t: Tables, v: Value): string {
    if IsObject(v) then TextOr(t, Member(v, "value")) else if v.Str? then v.s else t.text(v)
  }

  function Parts(t: Tables, items: seq<Value>): seq<string> {
    if items == [] then []
    else (if PartText(t, items[0]) == "" then [] else [PartText(t, items[0])]) + Parts(t, items[1..])
  }

  function Dotted(parts: seq<string>): string {
    if parts == [] then "" else if |parts| == 1 then parts[0] else parts[0] + "." + Dotted(parts[1..])
  }

  function FunctionName(t: Tables, node: Value): Option<string> {
    var raw := Member(node, "name");
    if raw.Str? then Some(Low(raw.s))
    else if !IsObject(raw) then None
    else
      var arr := Member(raw, "name");
      var parts := if arr.Arr? then Parts(t, arr.items) else [];
      if parts != [] then
        var schema := Member(raw, "schema");
        var qualifier := if IsObject(schema) then TextOr(t, Member(schema, "value")) else "";
        Some(Low(Dotted(if qualifier == "" then parts else [qualifier] + parts)))
      else if Member(raw, "value").Str? then Some(Low(Member(raw, "value").s)) else None
  }

  /** From the last dot on. */
  function LastSegment(name: string): string
    decreases |name|
  {
    if '.' !in name then name else LastSegment(AfterDot(name))
  }

  function AfterDot(name: string): (r: string)
    requires '.' in name
    ensures |r| < |name|
  {
    if name[0] == '.' then name[1..] else AfterDot(name[1..])
  }

  predicate StartsWith(s: string, p: string) { |p| <= |s| && s[..|p|] == p }

  predicate EndsWith(s: string, p: string) { |p| <= |s| && s[|s| - |p|..] == p }

  predicate Denied(r: Rules, name: string) {
    var last := LastSegment(name);
    || name in r.denySet || last in r.denySet
    || (exists i :: 0 <= i < |r.denySuffixes| && EndsWith(last, r.denySuffixes[i]))
    || (exists i :: 0 <= i < |r.denyPrefixes| && (StartsWith(name, r.denyPrefixes[i]) || StartsWith(last, r.denyPrefixes[i])))
  }

  function TypeOf(node: Value): string {
    var t := Member(node, "type");
    if t.Str? then Low(t.s) else ""
  }

  predicate IsCall(kind: string) { kind == "function" || kind == "aggr_func" || kind == "method" || kind == "tablefunc" }

  /** What is wrong with this node itself, whatever is below it. */
  function Local(r: Rules, node: Value): Option<Violation> {
    if !node.Obj? then None
    else
      var kind := TypeOf(node);
      var into, table := Member(node, "into"), Member(node, "table");
      var column, name := ColumnName(node), FunctionName(r.tables, node);
      if kind != "" && kind in r.tables.writeTypes then Some(StatementNotAllowed(kind))
      else if kind == "select" && IsObject(into) && !(Member(into, "position").Nothing? && Member(into, "expr").Nothing?)
      then Some(SelectInto)
      else if table.Str? && r.tables.fileLike(table.s) then Some(FileRelation)
      else if kind == "column_ref" && r.engine == Oracle && column.Some? && column.value != "" && !table.Nothing?
              && column.value in r.tables.pseudoColumns
      then Some(SequencePseudoColumn(column.value))
      else if IsCall(kind) && name.Some? && name.value != "" && Denied(r, name.value)
      then Some(FunctionDenied(LastSegment(name.value)))
      else None
  }

  // ----- the walk -----

  /** The first violation in walk order. */
  function Check(r: Rules, v: Value, depth: nat): Option<Violation>
    decreases v
  {
    if depth > r.maxDepth then Some(TooDeep)
    else
      match v
      case Arr(items) => CheckItems(r, items, depth + 1)
      case Obj(fields) => if Local(r, v).Some? then Local(r, v) else CheckFields(r, fields, depth + 1)
      case _ => None
  }

  function CheckItems(r: Rules, items: seq<Value>, depth: nat): Option<Violation>
    decreases items
  {
    if items == [] then None
    else
      var first := Check(r, items[0], depth);
      if first.Some? then first else CheckItems(r, items[1..], depth)
  }

  function CheckFields(r: Rules, fields: seq<Field>, depth: nat): Option<Violation>
    decreases fields
  {
    if fields == [] then None
    else
      var first := Check(r, fields[0].value, depth);
      if first.Some? then first else CheckFields(r, fields[1..], depth)
  }

  function First(a: Option<Violation>, b: Option<Violation>): Option<Violation> { if a.Some? then a else b }

  class WalkContext {
    const rules: Rules
    var violation: Option<Violation>

    constructor (rules: Rules)
      ensures this.rules == rules && violation == None
    {
      this.rules, violation := rules, None;
    }

    /** The walk keeps the first violation it meets and stops looking. */
    method Walk(v: Value, depth: nat)
      modifies this
      ensures violation == First(old(violation), Check(rules, v, depth))
      decreases v
    {
      hide Local;
      if violation.Some? { return; }
      if depth > rules.maxDepth {
        violation := Some(TooDeep);
        return;
      }
      match v
      case Arr(items) =>
        var i := 0;
        while i < |items|
          invariant 0 <= i <= |items|
          invariant First(violation, CheckItems(rules, items[i..], depth + 1)) == CheckItems(rules, items, depth + 1)
        {
          assert items[i..][1..] == items[i + 1..];
          Walk(items[i], depth + 1);
          i := i + 1;
        }
      case Obj(fields) =>
        var found := Local(rules, v);
        if found.Some? {
          violation := found;
          return;
        }
        var i := 0;
        while i < |fields|
          invariant 0 <= i <= |fields|
          invariant First(violation, CheckFields(rules, fields[i..], depth + 1)) == CheckFields(rules, fields, depth + 1)
        {
          assert fields[i..][1..] == fields[i + 1..];
          Walk(fields[i].value, depth + 1);
          if violation.Some? { return; }
          i := i + 1;
        }
      case _ =>
    }
  }

  // ----- what "no violation" means -----

  function Child(v: Value, i: nat): Option<Value> {
    match v
    case Arr(items) => if i < |items| then Some(items[i]) else None
    case Obj(fields) => if i < |fields| then Some(fields[i].value) else None
    case _ => None
  }

  /** The value at the end of a path of child indices. */
  function At(v: Value, path: seq<nat>): Option<Value>
    decreases |path|
  {
    if path == [] then Some(v)
    else
      var c := Child(v, path[0]);
      if c.None? then None else At(c.value, path[1..])
  }

  /** The value at this path, if there is one, is shallow enough and unobjectionable. */
  ghost predicate Fine(r: Rules, v: Value, depth: nat, path: seq<nat>) {
    var u := At(v, path);
    u.Some? ==> depth + |path| <= r.maxDepth && Local(r, u.value).None?
  }

  ghost predicate AllFine(r: Rules, v: Value, depth: nat) { forall path :: Fine(r, v, depth, path) }

  lemma AllFineStep(r: Rules, v: Value, depth: nat)
    ensures AllFine(r, v, depth) <==>
              && depth <= r.maxDepth && Local(r, v).None?
              && forall i: nat :: Child(v, i).Some? ==> AllFine(r, Child(v, i).value, depth + 1)
  {
    hide Local;
    if AllFine(r, v, depth) {
      assert Fine(r, v, depth, []);
      forall i: nat | Child(v, i).Some? ensures AllFine(r, Child(v, i).value, depth + 1) {
        var u, d := Child(v, i).value, depth + 1;
        forall path ensures Fine(r, u, d, path) {
          assert ([i] + path)[1..] == path;
          assert Fine(r, v, depth, [i] + path);
        }
      }
    }
    if depth <= r.maxDepth && Local(r, v).None? && forall i: nat :: Child(v, i).Some? ==> AllFine(r, Child(v, i).value, depth + 1) {
      forall path ensures Fine(r, v, depth, path) {
        if path != [] && Child(v, path[0]).Some? {
          assert AllFine(r, Child(v, path[0]).value, depth + 1);
          assert Fine(r, Child(v, path[0]).value, depth + 1, path[1..]);
        }
      }
    }
  }

  lemma {:induction false} CheckItemsIff(r: Rules, items: seq<Value>, depth: nat)
    ensures CheckItems(r, items, depth).None? <==> forall i :: 0 <= i < |items| ==> AllFine(r, items[i], depth)
    decreases items
  {
    if items != [] {
      hide AllFine;
      CheckIff(r, items[0], depth);
      CheckItemsIff(r, items[1..], depth);
      assert forall i :: 1 <= i < |items| ==> items[i] == items[1..][i - 1];
      assert forall i :: 0 <= i < |items| - 1 ==> items[1..][i] == items[i + 1];
    }
  }

  lemma {:induction false} CheckFieldsIff(r: Rules, fields: seq<Field>, depth: nat)
    ensures CheckFields(r, fields, depth).None? <==> forall i :: 0 <= i < |fields| ==> AllFine(r, fields[i].value, depth)
    decreases fields
  {
    if fields != [] {
      hide AllFine;
      CheckIff(r, fields[0].value, depth);
      CheckFieldsIff(r, fields[1..], depth);
      assert forall i :: 1 <= i < |fields| ==> fields[i] == fields[1..][i - 1];
      assert forall i :: 0 <= i < |fields| - 1 ==> fields[1..][i] == fields[i + 1];
    }
  }

  /** The walk accepts exactly when every value in the tree is within the depth and no node is disallowed. */
  lemma {:induction false} CheckIff(r: Rules, v: Value, depth: nat)
    ensures Check(r, v, depth).None? <==> AllFine(r, v, depth)
    decreases v
  {
    AllFineStep(r, v, depth);
    hide AllFine, Local;
    match v
    case Arr(items) =>
      CheckItemsIff(r, items, depth + 1);
      assert forall i: nat :: i < |items| ==> Child(v, i) == Some(items[i]);
      PlainLocal(r, v);
    case Obj(fields) =>
      CheckFieldsIff(r, fields, depth + 1);
      assert forall i: nat :: i < |fields| ==> Child(v, i) == Some(fields[i].value);
    case _ =>
      PlainLocal(r, v);
  }

  lemma PlainLocal(r: Rules, v: Value)
    requires !v.Obj?
    ensures Local(r, v).None?
  {}

  // ----- what is harmful about a node -----

  /** The node has this member, as text. */
  predicate Has(node: Value, key: string, text: string) { Member(node, key) == Str(text) }

  ghost predicate OfType(node: Value, kind: string) { exists s :: Has(node, "type", s) && Low(s) == kind }

  /** A write statement, wherever it hides. */
  ghost predicate Writes(r: Rules, node: Value) { exists k :: k in r.tables.writeTypes && k != "" && OfType(node, k) }

  /** `SELECT ... INTO`. */
  ghost predicate SelectsInto(node: Value) {
    var into := Member(node, "into");
    OfType(node, "select") && IsObject(into) && (Member(into, "position") != Nothing || Member(into, "expr") != Nothing)
  }

  /** A relation named like a file or URL. */
  ghost predicate ReadsFile(r: Rules, node: Value) { exists s :: Has(node, "table", s) && r.tables.fileLike(s) }

  /** The column's name, given as text, as an object with a value, or inside an expression. */
  ghost predicate NamesColumn(node: Value, name: string) {
    var col := Member(node, "column");
    exists s :: Low(s) == name &&
      (|| col == Str(s)
       || (IsObject(col) && IsObject(Member(col, "expr")) && Member(Member(col, "expr"), "value") == Str(s))
       || (IsObject(col) && !(IsObject(Member(col, "expr")) && Member(Member(col, "expr"), "value").Str?) && Member(col, "value") == Str(s)))
  }

  /** On Oracle, a qualified sequence pseudo-column. */
  ghost predicate ReadsSequence(r: Rules, node: Value) {
    && r.engine == Oracle && OfType(node, "column_ref") && Member(node, "table") != Nothing
    && exists c :: c in r.tables.pseudoColumns && c != "" && NamesColumn(node, c)
  }

  /** The text behind the last dot. */
  ghost predicate LastPart(name: string, last: string) {
    '.' !in last && (name == last || exists p :: name == p + "." + last)
  }

  /** A denied function: by name, by the last part of it, or by how it starts or ends. */
  ghost predicate IsDenied(r: Rules, name: string) {
    exists last :: LastPart(name, last) &&
      (|| name in r.denySet || last in r.denySet
       || (exists i :: 0 <= i < |r.denySuffixes| && EndsWith(last, r.denySuffixes[i]))
       || (exists i :: 0 <= i < |r.denyPrefixes| && (StartsWith(name, r.denyPrefixes[i]) || StartsWith(last, r.denyPrefixes[i]))))
  }

  /** A call of one, of any of the four kinds. */
  ghost predicate CallsDenied(r: Rules, node: Value) {
    && (OfType(node, "function") || OfType(node, "aggr_func") || OfType(node, "method") || OfType(node, "tablefunc"))
    && FunctionName(r.tables, node).Some? && FunctionName(r.tables, node).value != ""
    && IsDenied(r, FunctionName(r.tables, node).value)
  }

  lemma LastPartBehind(name: string, u: string, last: string)
    requires (exists q :: name == q + "." + u) && LastPart(u, last)
    ensures LastPart(name, last)
  {
    var q :| name == q + "." + u;
    if u != last {
      var p :| u == p + "." + last;
      assert name == (q + "." + p) + "." + last;
    }
  }

  lemma {:induction false} SegmentIsLast(name: string)
    ensures LastPart(name, LastSegment(name))
    decreases |name|
  {
    if '.' in name {
      var u := AfterDot(name);
      AfterDotIs(name);
      SegmentIsLast(u);
      LastPartBehind(name, u, LastSegment(u));
    }
  }

  lemma {:induction false} AfterDotIs(name: string)
    requires '.' in name
    ensures exists p :: name == p + "." + AfterDot(name)
    decreases |name|
  {
    if name[0] == '.' {
      assert name == "" + "." + name[1..];
    } else {
      AfterDotIs(name[1..]);
      var p :| name[1..] == p + "." + AfterDot(name[1..]);
      assert name == ([name[0]] + p) + "." + AfterDot(name);
    }
  }

  predicate Suffix(name: string, x: string) { |x| <= |name| && name[|name| - |x|..] == x }

  lemma LastPartEnds(name: string, x: string)
    requires LastPart(name, x)
    ensures Suffix(name, x) && (|x| < |name| ==> name[|name| - |x| - 1] == '.')
  {
    if name != x {
      var p :| name == p + "." + x;
      assert |name| == |p| + 1 + |x|;
    }
  }

  /** A longer end holds the dot. */
  lemma LongerHoldsDot(name: string, a: string, b: string)
    requires LastPart(name, a) && Suffix(name, b) && |a| < |b|
    ensures '.' in b
  {
    LastPartEnds(name, a);
    assert b[|b| - |a| - 1] == name[|name| - |a| - 1];
  }

  /** There is only one. */
  lemma LastPartOnce(name: string, a: string, b: string)
    requires LastPart(name, a) && LastPart(name, b)
    ensures a == b
  {
    LastPartEnds(name, a);
    LastPartEnds(name, b);
    if |a| < |b| { LongerHoldsDot(name, a, b); } else if |b| < |a| { LongerHoldsDot(name, b, a); }
  }

  lemma DeniedIff(r: Rules, name: string)
    ensures Denied(r, name) <==> IsDenied(r, name)
  {
    SegmentIsLast(name);
    hide EndsWith, StartsWith, LastPart;
    forall last | LastPart(name, last) ensures last == LastSegment(name) { LastPartOnce(name, last, LastSegment(name)); }
  }

  lemma TypeIff(node: Value, kind: string)
    requires kind != ""
    ensures TypeOf(node) == kind <==> OfType(node, kind)
  {
    LowOfNone();
    hide Low;
  }

  lemma LowOfNone()
    ensures Low("") == ""
  {}

  lemma ColumnIff(node: Value, c: string)
    ensures ColumnName(node) == Some(c) <==> NamesColumn(node, c)
  {
    hide Low;
  }

  /** A node is disallowed exactly when it is harmful in one of these five ways. */
  lemma LocalIff(r: Rules, node: Value)
    ensures Local(r, node).Some? <==>
              node.Obj? && (Writes(r, node) || SelectsInto(node) || ReadsFile(r, node) || ReadsSequence(r, node) || CallsDenied(r, node))
  {
    hide Low, Denied, IsDenied, ColumnName, NamesColumn, FunctionName, TypeOf, OfType;
    forall k | k != "" ensures TypeOf(node) == k <==> OfType(node, k) { TypeIff(node, k); }
    forall c ensures ColumnName(node) == Some(c) <==> NamesColumn(node, c) { ColumnIff(node, c); }
    if FunctionName(r.tables, node).Some? { DeniedIff(r, FunctionName(r.tables, node).value); }
  }

  // ----- the shapes a function's name comes in -----

  function One(key: string, v: Value): Value { Obj([Field(key, v)]) }

  /** Plain text. */
  lemma PlainNamed(t: Tables, s: string)
    ensures FunctionName(t, One("name", Str(s))) == Some(Low(s))
  {}

  lemma GetOther(key: string, v: Value, other: string)
    requires key != other
    ensures Get([Field(key, v)], other) == Nothing
  {
    assert [Field(key, v)][1..] == [];
  }

  /** An object with a value. */
  lemma ValueNamed(t: Tables, s: string)
    ensures FunctionName(t, One("name", One("value", Str(s)))) == Some(Low(s))
  {
    GetOther("value", Str(s), "name");
  }

  /** A list of parts, each text or an object with a value: joined by dots. */
  lemma PartsNamed(t: Tables, a: string, b: string)
    requires a != "" && b != ""
    ensures FunctionName(t, One("name", One("name", Arr([Str(a), One("value", Str(b))])))) == Some(Low(a + "." + b))
  {
    var items := [Str(a), One("value", Str(b))];
    assert items[1..] == [One("value", Str(b))] && [One("value", Str(b))][1..] == [];
    assert Parts(t, []) == [];
    assert Parts(t, items[1..]) == [b];
    assert Parts(t, items) == [a, b];
    assert [a, b][1..] == [b] && Dotted([b]) == b;
    assert Get([Field("name", Arr(items))][1..], "schema") == Nothing;
  }

  /** With a schema, that comes first. */
  lemma SchemaNamed(t: Tables, schema: string, a: string)
    requires schema != "" && a != ""
    ensures FunctionName(t, One("name", Obj([Field("schema", One("value", Str(schema))), Field("name", Arr([Str(a)]))]))) ==
              Some(Low(schema + "." + a))
  {
    var items: seq<Value> := [Str(a)];
    var fields := [Field("schema", One("value", Str(schema))), Field("name", Arr(items))];
    assert fields[1..] == [Field("name", Arr(items))] && items[1..] == [];
    assert "schema" != "name" by { assert "schema"[0] != "name"[0]; }
    assert Get(fields, "name") == Arr(items) && Get(fields, "schema") == One("value", Str(schema));
    assert Parts(t, []) == [];
    assert Parts(t, items) == [a];
    assert [schema] + [a] == [schema, a] && [schema, a][1..] == [a] && Dotted([a]) == a;
  }

  // ----- deny-sets -----

  datatype Lists = Lists(
    engineDeny: Engine -> seq<string>,
    fileFunctions: seq<string>,
    duckdbOnly: seq<string>,
    universalPrefixes: seq<string>,
    duckdbPrefixes: seq<string>,
    duckdbSuffixes: seq<string>)

  datatype Policy = Policy(denyFunctions: seq<string>, allowFileFunctions: bool, maxDepth: int)

  function NameSet(names: seq<string>): set<string> { set n | n in names }

  function LowSet(names: seq<string>): set<string> { set n | n in names :: Low(n) }

  /** Precomputed once per engine, without lowering the names. */
  function DefaultDeny(l: Lists, e: Engine): set<string> {
    NameSet(l.engineDeny(e) + (if e == Duckdb then l.fileFunctions + l.duckdbOnly else []))
  }

  function BuiltDeny(l: Lists, e: Engine, p: Policy): set<string> {
    LowSet(l.engineDeny(e)
           + (if e == Duckdb then l.duckdbOnly + (if p.allowFileFunctions then [] else l.fileFunctions) else [])
           + p.denyFunctions)
  }

  function DenySet(l: Lists, e: Engine, p: Policy): set<string> {
    if p.denyFunctions == [] && !p.allowFileFunctions then DefaultDeny(l, e) else BuiltDeny(l, e, p)
  }

  function RulesOf(t: Tables, l: Lists, e: Engine, p: Policy): Rules {
    Rules(t, DenySet(l, e, p), if e == Duckdb then l.duckdbSuffixes else [],
          if e == Duckdb && !p.allowFileFunctions then l.universalPrefixes + l.duckdbPrefixes else l.universalPrefixes,
          p.maxDepth, e)
  }

  /** The shortcut is right exactly when the lists are written in lower case. */
  lemma DefaultIsBuiltIff(l: Lists, e: Engine, p: Policy)
    requires p.denyFunctions == [] && !p.allowFileFunctions
    ensures DefaultDeny(l, e) == BuiltDeny(l, e, p) <==> forall n :: n in DefaultDeny(l, e) ==> Low(n) == n
  {
    var d, b := DefaultDeny(l, e), BuiltDeny(l, e, p);
    forall n ensures n in b <==> exists m :: m in d && Low(m) == n {}
    if d == b {
      forall n | n in d ensures Low(n) == n {
        var m :| m in d && Low(m) == n;
        LowLow(m);
      }
    }
    if forall n :: n in d ==> Low(n) == n {
      forall n ensures n in d <==> n in b {}
    }
  }

  /** Which functions a policy denies, for lists written in lower case. */
  lemma DenySetIff(l: Lists, e: Engine, p: Policy, n: string)
    requires LowerCaseLists(l, e)
    ensures n in DenySet(l, e, p) <==>
              || n in l.engineDeny(e)
              || (e == Duckdb && (n in l.duckdbOnly || (n in l.fileFunctions && !p.allowFileFunctions)))
              || exists m :: m in p.denyFunctions && Low(m) == n
  {
    if p.denyFunctions != [] || p.allowFileFunctions {
      forall m | m in l.engineDeny(e) || m in l.duckdbOnly || m in l.fileFunctions ensures Low(m) == m {}
      var names := l.engineDeny(e)
                   + (if e == Duckdb then l.duckdbOnly + (if p.allowFileFunctions then [] else l.fileFunctions) else [])
                   + p.denyFunctions;
      hide Low;
      assert n in BuiltDeny(l, e, p) <==> exists m :: m in names && Low(m) == n;
      if n in l.engineDeny(e) || (e == Duckdb && (n in l.duckdbOnly || (n in l.fileFunctions && !p.allowFileFunctions))) {
        assert n in names && Low(n) == n;
      }
    }
  }

  /** The suffixes and prefixes it denies: those of DuckDB on DuckDB only, its file prefixes unless allowed. */
  lemma PrefixesIff(t: Tables, l: Lists, e: Engine, p: Policy, x: string)
    ensures var r := RulesOf(t, l, e, p);
            && (x in r.denyPrefixes <==> x in l.universalPrefixes || (e == Duckdb && !p.allowFileFunctions && x in l.duckdbPrefixes))
            && (x in r.denySuffixes <==> e == Duckdb && x in l.duckdbSuffixes)
            && r.maxDepth == p.maxDepth && r.engine == e && r.tables == t && r.denySet == DenySet(l, e, p)
  {}

  lemma LowLow(s: string)
    ensures Low(Low(s)) == Low(s)
  {}

  /** The policy with more functions denied. */
  function Denying(p: Policy, more: seq<string>): Policy { p.(denyFunctions := p.denyFunctions + more) }

  /** For a name in lower case, a longer deny-list denies no less, shortcut or not. */
  lemma DenyGrows(l: Lists, e: Engine, p: Policy, more: seq<string>, n: string)
    requires n in DenySet(l, e, p) && Low(n) == n
    ensures n in DenySet(l, e, Denying(p, more))
  {
    var q := Denying(p, more);
    if p.denyFunctions + more == [] {
      assert q == p;
    } else if n in DefaultDeny(l, e) && p.denyFunctions == [] && !p.allowFileFunctions {
      assert n in BuiltDeny(l, e, q);
    }
  }

  lemma {:induction false} SegmentsLow(n: string)
    requires Low(n) == n
    ensures Low(LastSegment(n)) == LastSegment(n)
    decreases |n|
  {
    if '.' in n {
      AfterDotLow(n);
      SegmentsLow(AfterDot(n));
    }
  }

  lemma {:induction false} AfterDotLow(n: string)
    requires Low(n) == n && '.' in n
    ensures Low(AfterDot(n)) == AfterDot(n)
    decreases |n|
  {
    TailLow(n);
    if n[0] != '.' { AfterDotLow(n[1..]); }
  }

  lemma TailLow(n: string)
    requires Low(n) == n && n != ""
    ensures Low(n[1..]) == n[1..]
  {
    forall i | 0 <= i < |n| - 1 ensures Low(n[1..])[i] == n[1..][i] { assert Low(n)[i + 1] == LowChar(n[i + 1]); }
  }

  lemma FunctionNameLow(t: Tables, node: Value)
    ensures var n := FunctionName(t, node); n.Some? ==> Low(n.value) == n.value
  {
    hide Low;
    forall s ensures Low(Low(s)) == Low(s) { LowLow(s); }
  }

  lemma DeniedGrows(t: Tables, l: Lists, e: Engine, p: Policy, more: seq<string>, n: string)
    requires Low(n) == n && Denied(RulesOf(t, l, e, p), n)
    ensures Denied(RulesOf(t, l, e, Denying(p, more)), n)
  {
    hide DenySet, Low, StartsWith, EndsWith;
    SegmentsLow(n);
    if n in DenySet(l, e, p) { DenyGrows(l, e, p, more, n); }
    if LastSegment(n) in DenySet(l, e, p) { DenyGrows(l, e, p, more, LastSegment(n)); }
  }

  lemma LocalGrows(t: Tables, l: Lists, e: Engine, p: Policy, more: seq<string>, node: Value)
    requires Local(RulesOf(t, l, e, p), node).Some?
    ensures Local(RulesOf(t, l, e, Denying(p, more)), node).Some?
  {
    hide Denied, FunctionName, ColumnName, DenySet;
    var name := FunctionName(t, node);
    FunctionNameLow(t, node);
    if name.Some? && Denied(RulesOf(t, l, e, p), name.value) { DeniedGrows(t, l, e, p, more, name.value); }
  }

  /** Denying more functions can only turn an accepted statement into a rejected one. */
  lemma DenyingOnlyRejects(t: Tables, l: Lists, e: Engine, p: Policy, more: seq<string>, v: Value, depth: nat)
    requires Check(RulesOf(t, l, e, Denying(p, more)), v, depth).None?
    ensures Check(RulesOf(t, l, e, p), v, depth).None?
  {
    hide Local, Check;
    var r, q := RulesOf(t, l, e, p), RulesOf(t, l, e, Denying(p, more));
    CheckIff(q, v, depth);
    forall path ensures Fine(r, v, depth, path) {
      assert Fine(q, v, depth, path);
      var u := At(v, path);
      if u.Some? && Local(r, u.value).Some? { LocalGrows(t, l, e, p, more, u.value); }
    }
    CheckIff(r, v, depth);
  }

  ghost predicate LowerCaseLists(l: Lists, e: Engine) {
    forall n :: n in l.engineDeny(e) || n in l.duckdbOnly || n in l.fileFunctions ==> Low(n) == n
  }

  lemma AllowedSetShrinks(l: Lists, e: Engine, p: Policy)
    requires LowerCaseLists(l, e) && !p.allowFileFunctions
    ensures DenySet(l, e, p.(allowFileFunctions := true)) <= DenySet(l, e, p)
  {
    var q := p.(allowFileFunctions := true);
    forall n | n in BuiltDeny(l, e, q) ensures n in DenySet(l, e, p) {
      var m :| m in l.engineDeny(e) + (if e == Duckdb then l.duckdbOnly + [] else []) + q.denyFunctions && Low(m) == n;
      if p.denyFunctions == [] { assert m in DefaultDeny(l, e); } else { assert n in BuiltDeny(l, e, p); }
    }
  }

  lemma LocalShrinks(t: Tables, l: Lists, e: Engine, p: Policy, node: Value)
    requires LowerCaseLists(l, e) && !p.allowFileFunctions
    requires Local(RulesOf(t, l, e, p.(allowFileFunctions := true)), node).Some?
    ensures Local(RulesOf(t, l, e, p), node).Some?
  {
    hide FunctionName, ColumnName, DenySet, StartsWith, EndsWith, LastSegment;
    AllowedSetShrinks(l, e, p);
    var r, q := RulesOf(t, l, e, p), RulesOf(t, l, e, p.(allowFileFunctions := true));
    forall n | Denied(q, n) ensures Denied(r, n) {
      assert forall i :: 0 <= i < |q.denyPrefixes| ==> q.denyPrefixes[i] == r.denyPrefixes[i];
    }
    hide Denied;
  }

  /** Allowing file functions can only turn a rejected statement into an accepted one. */
  lemma AllowingOnlyAccepts(t: Tables, l: Lists, e: Engine, p: Policy, v: Value, depth: nat)
    requires LowerCaseLists(l, e) && !p.allowFileFunctions
    requires Check(RulesOf(t, l, e, p), v, depth).None?
    ensures Check(RulesOf(t, l, e, p.(allowFileFunctions := true)), v, depth).None?
  {
    hide Local, Check;
    var r, q := RulesOf(t, l, e, p), RulesOf(t, l, e, p.(allowFileFunctions := true));
    CheckIff(r, v, depth);
    forall path ensures Fine(q, v, depth, path) {
      assert Fine(r, v, depth, path);
      var u := At(v, path);
      if u.Some? && Local(q, u.value).Some? { LocalShrinks(t, l, e, p, u.value); }
    }
    CheckIff(q, v, depth);
  }
}
