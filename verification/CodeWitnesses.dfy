/** Statements on which `codeLiterals` reports a literal for a table that WHERE does not constrain. */
module CodeWitnesses {
  import opened Text
  import opened CodeLiterals

  const ANYTHING := Patterns((s: string) => false, (s: string) => false, (s: string) => true, (s: string, t: string) => false)

  /** A table with one coded column. */
  function CodeTable(schema: Option<string>, name: string): Table {
    Table(schema, name, None, [Column("status", Some("int"))], [], [])
  }

  function Named(schema: Option<string>, table: string, alias: Option<string>): Item {
    Item(schema, Some(table), alias, {}, false)
  }

  const DERIVED := Item(None, None, Some("d"), {}, false)

  lemma LowWords()
    ensures Low("orders") == "orders" && Low("users") == "users" && Low("status") == "status" && Low("int") == "int"
    ensures Low("d") == "d" && Low("u") == "u" && Low("a") == "a" && Low("b") == "b"
  {}

  lemma CodeTableFacts(schema: Option<string>, name: string)
    ensures var t := CodeTable(schema, name);
            HasColumn(t, "status") && TypesIn(t.columns, "status") == ["int"] && !Keyed(t, "status")
  {
    var t := CodeTable(schema, name);
    assert t.columns[0] == Column("status", Some("int"));
    assert t.columns[1..] == [];
    assert TypesIn([], "status") == [];
  }

  lemma OneTyped(t: Table)
    requires t == CodeTable(t.schema, t.name)
    ensures CodedName(ANYTHING, [t], "status")
  {
    CodeTableFacts(t.schema, t.name);
    LowWords();
    hide Low, TrimSpace, TypesIn;
    var c := [t];
    assert c[1..] == [];
    assert DbTypes(c, "status") == ["int"] by { assert DbTypes([], "status") == []; }
  }

  lemma TwoTyped(t: Table, u: Table)
    requires t == CodeTable(t.schema, t.name) && u == CodeTable(u.schema, u.name)
    ensures CodedName(ANYTHING, [t, u], "status")
  {
    CodeTableFacts(t.schema, t.name);
    CodeTableFacts(u.schema, u.name);
    LowWords();
    hide Low, TrimSpace, TypesIn;
    var c, d := [t, u], [u];
    assert c[1..] == d && d[1..] == [];
    assert DbTypes(d, "status") == ["int"] by { assert DbTypes([], "status") == []; }
    assert DbTypes(c, "status") == ["int", "int"];
  }

  /** Once the owner is known, the comparison with 2 is reported. */
  lemma Reported(c: Catalog, scope: map<string, string>, e: Expr, t: Table)
    requires e.Col? && e.column == "status" && CodedName(ANYTHING, c, "status")
    requires Owner(c, scope, e) == Some(t) && t == CodeTable(t.schema, t.name)
    ensures Consider(ANYTHING, c, scope, e, Num(2.0)) == Some(CodeLiteral(t.schema, t.name, "status", 2))
  {
    hide CodedName, Owner, Keyed;
    CodeTableFacts(t.schema, t.name);
    assert (2.0).Floor == 2;
  }

  /** A wrong report: the literal is reported, and a joined row refutes it. */
  ghost predicate Wrong(c: Catalog, o: Oracle, st: Select, l: CodeLiteral) {
    l in Analyse(ANYTHING, c, [st]) && Refuted(ANYTHING, c, o, st, l)
  }

  lemma WrongWhenUncertain(c: Catalog, o: Oracle, ctes: set<string>, from: seq<Item>, e: Expr, t: Table, i: int)
    requires UniqueRelations(c) && e.Col? && e.column == "status" && CodedName(ANYTHING, c, "status")
    requires Owner(c, InScope(from), e) == Some(t) && t == CodeTable(t.schema, t.name)
    requires var st := Comparing(ctes, from, e, 2); MayRead(st, c, e, i) && !IsOnly(st, c, i, "status", t)
    ensures Wrong(c, o, Comparing(ctes, from, e, 2), CodeLiteral(t.schema, t.name, "status", 2))
  {
    hide CodedName, Owner, InScope, MayRead, IsOnly, Refuted, Analyse, UniqueRelations, Consider;
    var l := CodeLiteral(t.schema, t.name, "status", 2);
    Reported(c, InScope(from), e, t);
    assert 2 as real == 2.0;
    assert !Certain(Comparing(ctes, from, e, 2), c, e, t);
    ComparisonIff(ANYTHING, c, o, ctes, from, e, 2, l);
  }

  lemma OwnersOfOne(t: Table)
    requires t == CodeTable(t.schema, t.name)
    ensures Owners([t], {Low(t.name)}, "status") == [t] && LowNames([t]) == {Low(t.name)} && UniqueRelations([t])
  {
    CodeTableFacts(t.schema, t.name);
    hide HasColumn, Low;
    var c := [t];
    assert c[1..] == [] && t in c;
    assert Owners([], {Low(t.name)}, "status") == [];
  }

  const ORDERS := CodeTable(None, "orders")
  const BARE := Col(None, "status")

  /** `SELECT * FROM (...) AS d WHERE status = 2` is reported against the stored table `orders`. */
  lemma DerivedOnlyFails(o: Oracle)
    ensures Wrong([ORDERS], o, Comparing({}, [DERIVED], BARE, 2), CodeLiteral(None, "orders", "status", 2))
  {
    OneTyped(ORDERS);
    OwnersOfOne(ORDERS);
    hide CodedName, HasColumn, Low, Owners, LowNames, Wrong, UniqueRelations;
    var from := [DERIVED];
    assert InScope(from) == map[] by { assert from[..0] == []; }
    WrongWhenUncertain([ORDERS], o, {}, from, BARE, ORDERS, 0);
  }

  lemma ScopeOfOne(item: Item)
    requires item.table.Some? && item.alias.None?
    ensures var scope := InScope([item]);
            scope == map[Low(item.table.value) := item.table.value]
            && |scope| > 0 && (set k | k in scope :: Low(scope[k])) == {Low(item.table.value)}
  {
    hide Low;
    assert [item][..0] == [] && InScope([]) == map[];
    var scope := InScope([item]);
    assert Low(item.table.value) in scope;
  }

  /** `WITH orders AS (...) SELECT * FROM orders WHERE status = 2` is, too. */
  lemma ShadowFails(o: Oracle)
    ensures Wrong([ORDERS], o, Comparing({"orders"}, [Named(None, "orders", None)], BARE, 2), CodeLiteral(None, "orders", "status", 2))
  {
    OneTyped(ORDERS);
    OwnersOfOne(ORDERS);
    ScopeOfOne(Named(None, "orders", None));
    LowWords();
    hide CodedName, HasColumn, Low, Owners, LowNames, Wrong, UniqueRelations, InScope;
    WrongWhenUncertain([ORDERS], o, {"orders"}, [Named(None, "orders", None)], BARE, ORDERS, 0);
  }

  const MERGING := Item(None, Some("orders"), None, {"status"}, false)

  lemma MergedScope()
    ensures var scope := InScope([DERIVED, MERGING]);
            |scope| > 0 && (set k | k in scope :: Low(scope[k])) == {"orders"}
  {
    LowWords();
    hide Low;
    var from := [DERIVED, MERGING];
    assert from[..1] == [DERIVED] && [DERIVED][..0] == [] && InScope([]) == map[];
    assert InScope([DERIVED]) == map[];
    var scope := InScope(from);
    assert scope == map["orders" := "orders"];
    assert "orders" in scope;
  }

  /**
   * `SELECT * FROM (SELECT 2 AS status) d LEFT JOIN orders USING (status) WHERE status = 2`: the
   * merged column takes its value from `d`.
   */
  lemma MergedFails(o: Oracle)
    ensures Wrong([ORDERS], o, Comparing({}, [DERIVED, MERGING], BARE, 2), CodeLiteral(None, "orders", "status", 2))
  {
    OneTyped(ORDERS);
    OwnersOfOne(ORDERS);
    MergedScope();
    LowWords();
    hide CodedName, HasColumn, Low, Owners, LowNames, Wrong, UniqueRelations, InScope;
    WrongWhenUncertain([ORDERS], o, {}, [DERIVED, MERGING], BARE, ORDERS, 0);
  }

  const USERS := CodeTable(None, "users")
  const CLASH := [Named(None, "orders", Some("users")), Named(None, "users", Some("u"))]
  const OF_USERS := Col(Some("users"), "status")

  lemma ClashScope()
    ensures "users" in InScope(CLASH) && InScope(CLASH)["users"] == "users"
  {
    LowWords();
    hide Low;
  }

  lemma ClashOwner()
    ensures Owner([ORDERS, USERS], InScope(CLASH), OF_USERS) == Some(USERS)
  {
    ClashScope();
    CodeTableFacts(None, "users");
    LowWords();
    hide Low, InScope, HasColumn;
    SecondFound(ORDERS, USERS);
  }

  lemma SecondFound(t: Table, u: Table)
    requires Low(t.name) != Low(u.name)
    ensures FindTable([t, u], u.name) == Some(u)
  {
    hide Low;
    assert [t, u][1..] == [u];
  }

  lemma ClashReads(st: Select)
    requires st.from == CLASH && st.ctes == {}
    ensures MayRead(st, [ORDERS, USERS], OF_USERS, 0) && !IsOnly(st, [ORDERS, USERS], 0, "status", USERS)
  {
    CodeTableFacts(None, "orders");
    LowWords();
    hide Low, HasColumn;
    var c := [ORDERS, USERS];
    assert ORDERS in c && CanBe(st, c, CLASH[0], ORDERS);
    assert Exposed(CLASH[0]) == Some("users") && Exposed(CLASH[1]) == Some("u");
    hide CanBe, Open, Exposed;
  }

  /** `FROM orders AS users, users AS u WHERE users.status = 2` is reported against `users`, which it does not read there. */
  lemma AliasClashFails(o: Oracle)
    ensures Wrong([ORDERS, USERS], o, Comparing({}, CLASH, OF_USERS, 2), CodeLiteral(None, "users", "status", 2))
  {
    TwoTyped(ORDERS, USERS);
    ClashOwner();
    ClashReads(Comparing({}, CLASH, OF_USERS, 2));
    hide CodedName, HasColumn, Low, Wrong, InScope, Owner, MayRead, IsOnly;
    WrongWhenUncertain([ORDERS, USERS], o, {}, CLASH, OF_USERS, USERS, 0);
  }

  const FIRST := CodeTable(Some("a"), "orders")
  const SECOND := CodeTable(Some("b"), "orders")
  const OF_ORDERS := Col(Some("orders"), "status")

  lemma FirstOwns()
    ensures Owner([FIRST, SECOND], InScope([Named(Some("b"), "orders", None)]), OF_ORDERS) == Some(FIRST)
  {
    CodeTableFacts(Some("a"), "orders");
    ScopeOfOne(Named(Some("b"), "orders", None));
    LowWords();
    hide Low, InScope, HasColumn;
    assert FindTable([FIRST, SECOND], "orders") == Some(FIRST);
  }

  lemma SecondIsRead(st: Select)
    requires st.from == [Named(Some("b"), "orders", None)] && st.ctes == {}
    ensures MayRead(st, [FIRST, SECOND], OF_ORDERS, 0) && !IsOnly(st, [FIRST, SECOND], 0, "status", FIRST)
  {
    CodeTableFacts(Some("b"), "orders");
    LowWords();
    hide Low, HasColumn;
    var c := [FIRST, SECOND];
    assert SECOND in c && CanBe(st, c, st.from[0], SECOND);
    assert SECOND != FIRST by { assert "a"[0] != "b"[0]; }
    hide CanBe, Open;
  }

  /** Two schemas with an `orders`: `FROM b.orders WHERE orders.status = 2` is reported against the first. */
  lemma DuplicateNameFails(o: Oracle)
    ensures Wrong([FIRST, SECOND], o, Comparing({}, [Named(Some("b"), "orders", None)], OF_ORDERS, 2),
                  CodeLiteral(Some("a"), "orders", "status", 2))
  {
    var from := [Named(Some("b"), "orders", None)];
    TwoTyped(FIRST, SECOND);
    FirstOwns();
    SecondIsRead(Comparing({}, from, OF_ORDERS, 2));
    hide CodedName, HasColumn, Low, Wrong, InScope, Owner, MayRead, IsOnly;
    WrongWhenUncertain([FIRST, SECOND], o, {}, from, OF_ORDERS, FIRST, 0);
  }
}
