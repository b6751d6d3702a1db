/**
 * What `codeLiterals` reports, in plain terms: which table a column reference is taken to read, which
 * type a column is taken to have, when a comparison is reported, which reports count as the same, and
 * when the probe condemns a literal.
 */
module CodeMeaning {
  import opened Text
  import opened CodeLiterals

  // ----- names in scope -----

  /** The FROM item answers to `k`, by its alias or by its table's own name. */
  predicate Called(item: Item, k: string) {
    && item.table.Some?
    && (Low(item.table.value) == k || (item.alias.Some? && item.alias.value != "" && Low(item.alias.value) == k))
  }

  /** The last item that answers to `k` names the table `t`. */
  ghost predicate LastCalled(from: seq<Item>, k: string, t: string) {
    exists i :: 0 <= i < |from| && Called(from[i], k) && from[i].table == Some(t)
                && forall m :: i < m < |from| ==> !Called(from[m], k)
  }

  lemma ScopeNext(front: seq<Item>, last: Item, k: string)
    ensures var m, n := InScope(front), InScope(front + [last]);
            && (k in n <==> Called(last, k) || k in m)
            && (k in n ==> n[k] == if Called(last, k) then last.table.value else m[k])
  {
    var from := front + [last];
    assert from[..|from| - 1] == front && from[|from| - 1] == last;
    hide Low;
  }

  lemma CalledNext(front: seq<Item>, last: Item, k: string, t: string)
    ensures (exists i :: 0 <= i < |front + [last]| && Called((front + [last])[i], k)) <==>
              Called(last, k) || exists i :: 0 <= i < |front| && Called(front[i], k)
    ensures Called(last, k) ==> LastCalled(front + [last], k, last.table.value)
    ensures !Called(last, k) && LastCalled(front, k, t) ==> LastCalled(front + [last], k, t)
  {
    hide Low;
    var from := front + [last];
    assert from[|front|] == last;
    hide Called;
    if i :| 0 <= i < |front| && Called(front[i], k) { assert from[i] == front[i]; }
    if !Called(last, k) && LastCalled(front, k, t) {
      var i :| 0 <= i < |front| && Called(front[i], k) && front[i].table == Some(t)
               && forall m :: i < m < |front| ==> !Called(front[m], k);
      assert from[i] == front[i];
    }
  }

  /** A name in scope is the alias or the table name of some item; it stands for the last such item's table. */
  lemma {:induction false} InScopeMeans(from: seq<Item>, k: string)
    ensures k in InScope(from) <==> exists i :: 0 <= i < |from| && Called(from[i], k)
    ensures k in InScope(from) ==> LastCalled(from, k, InScope(from)[k])
  {
    if from != [] {
      var front, last := from[..|from| - 1], from[|from| - 1];
      assert from == front + [last];
      InScopeMeans(front, k);
      ScopeNext(front, last, k);
      CalledNext(front, last, k, if k in InScope(front) then InScope(front)[k] else "");
      hide InScope, Called, LastCalled;
    }
  }

  // ----- the table a reference is taken to read -----

  /** The first table of the catalog with this name. */
  ghost predicate FirstNamed(c: Catalog, name: string, i: int) {
    0 <= i < |c| && Low(c[i].name) == Low(name) && forall k :: 0 <= k < i ==> Low(c[k].name) != Low(name)
  }

  lemma {:induction false} FindIsFirst(c: Catalog, name: string)
    ensures FindTable(c, name).None? <==> forall i :: 0 <= i < |c| ==> Low(c[i].name) != Low(name)
    ensures FindTable(c, name).Some? ==> exists i :: FirstNamed(c, name, i) && c[i] == FindTable(c, name).value
  {
    hide Low;
    if c != [] {
      if Low(c[0].name) == Low(name) {
        assert FirstNamed(c, name, 0);
      } else {
        FindIsFirst(c[1..], name);
        if i :| FirstNamed(c[1..], name, i) && c[1..][i] == FindTable(c[1..], name).value {
          assert FirstNamed(c, name, i + 1);
        }
        forall i | 0 <= i < |c| && FindTable(c, name).None? ensures Low(c[i].name) != Low(name) {
          if i > 0 { assert c[i] == c[1..][i - 1]; }
        }
      }
    }
  }

  /** A table in scope that has the column. */
  predicate Offering(c: Catalog, names: set<string>, column: string, i: int) {
    0 <= i < |c| && Low(c[i].name) in names && HasColumn(c[i], column)
  }

  ghost predicate OnlyOffering(c: Catalog, names: set<string>, column: string, i: int) {
    Offering(c, names, column, i) && forall k :: Offering(c, names, column, k) ==> k == i
  }

  lemma {:induction false} OneOwner(c: Catalog, names: set<string>, column: string)
    ensures Owners(c, names, column) == [] <==> forall i :: !Offering(c, names, column, i)
    ensures forall t :: Owners(c, names, column) == [t] <==> exists i :: OnlyOffering(c, names, column, i) && c[i] == t
  {
    hide Low, HasColumn;
    if c != [] {
      var rest := c[1..];
      OneOwner(rest, names, column);
      var os, ro := Owners(c, names, column), Owners(rest, names, column);
      OwnersNext(c, names, column);
      forall i | 0 < i ensures Offering(c, names, column, i) <==> Offering(rest, names, column, i - 1) {}
      hide Owners, Offering;
      forall i: int | Offering(c, names, column, i) ensures i >= 0 { Within(c, names, column, i); }
      forall i: int | Offering(rest, names, column, i) ensures 0 <= i < |rest| && Offering(c, names, column, i + 1) {
        Within(rest, names, column, i);
      }
      forall t ensures os == [t] <==> exists i :: OnlyOffering(c, names, column, i) && c[i] == t {
        Within(c, names, column, 0);
        if os == [t] && Offering(c, names, column, 0) {
          assert ro == [] && os[0] == c[0];
          assert OnlyOffering(c, names, column, 0) && c[0] == t;
        } else if os == [t] {
          assert ro == [t];
          var i :| OnlyOffering(rest, names, column, i) && rest[i] == t;
          assert OnlyOffering(c, names, column, i + 1) && c[i + 1] == t;
        }
        if i :| OnlyOffering(c, names, column, i) && c[i] == t {
          Within(c, names, column, i);
          if i == 0 {
            assert forall k :: !Offering(rest, names, column, k);
            assert os == [t];
          } else {
            assert OnlyOffering(rest, names, column, i - 1) && rest[i - 1] == t;
            assert os == [t];
          }
        }
      }
    }
  }

  lemma OwnersNext(c: Catalog, names: set<string>, column: string)
    requires c != []
    ensures Owners(c, names, column) == (if Offering(c, names, column, 0) then [c[0]] else []) + Owners(c[1..], names, column)
  {}

  lemma Within(c: Catalog, names: set<string>, column: string, i: int)
    ensures Offering(c, names, column, i) ==> 0 <= i < |c|
  {}

  // ----- the type a column is taken to have -----

  /** Where a type is declared for a column of this name. */
  predicate Declares(c: Catalog, i: int, j: int, column: string, t: string) {
    && 0 <= i < |c| && 0 <= j < |c[i].columns|
    && Low(c[i].columns[j].name) == Low(column) && c[i].columns[j].dbType == Some(t)
  }

  lemma {:induction false} TypesInMeans(cs: seq<Column>, column: string, t: string)
    ensures t in TypesIn(cs, column) <==>
              exists j :: 0 <= j < |cs| && Low(cs[j].name) == Low(column) && cs[j].dbType == Some(t)
  {
    hide Low;
    if cs != [] {
      TypesInMeans(cs[1..], column, t);
      forall j | 0 < j < |cs| ensures cs[j] == cs[1..][j - 1] {}
      if j :| 0 <= j < |cs[1..]| && Low(cs[1..][j].name) == Low(column) && cs[1..][j].dbType == Some(t) {
        assert cs[j + 1] == cs[1..][j];
      }
    }
  }

  lemma {:induction false} DbTypesMeans(c: Catalog, column: string, t: string)
    ensures t in DbTypes(c, column) <==> exists i, j :: Declares(c, i, j, column, t)
  {
    hide Low, TypesIn;
    if c != [] {
      DbTypesMeans(c[1..], column, t);
      TypesInMeans(c[0].columns, column, t);
      if i, j :| Declares(c, i, j, column, t) {
        if i > 0 { assert Declares(c[1..], i - 1, j, column, t); }
      }
      if i, j :| Declares(c[1..], i, j, column, t) { assert Declares(c, i + 1, j, column, t); }
      if t in TypesIn(c[0].columns, column) {
        var j :| 0 <= j < |c[0].columns| && Low(c[0].columns[j].name) == Low(column) && c[0].columns[j].dbType == Some(t);
        assert Declares(c, 0, j, column, t);
      }
    }
  }

  /** A column name has a type iff every declared type of every column of that name is the same up to case. */
  lemma DbTypeMeans(c: Catalog, column: string)
    ensures var ty := DbTypeOf(c, column);
            && (ty.Some? <==>
                  && (exists t, i, j :: Declares(c, i, j, column, t))
                  && forall t, i, j, u, k, l :: Declares(c, i, j, column, t) && Declares(c, k, l, column, u) ==> Low(t) == Low(u))
            && (ty.Some? ==> exists i, j :: Declares(c, i, j, column, ty.value))
  {
    var types := DbTypes(c, column);
    forall t ensures t in types <==> exists i, j :: Declares(c, i, j, column, t) { DbTypesMeans(c, column, t); }
    hide Low, DbTypes, Declares;
    if types != [] {
      var first := types[0];
      assert first in types;
      forall i | 0 <= i < |types| ensures types[i] in types {}
      if forall i :: 0 <= i < |types| ==> Low(types[i]) == Low(first) {
        forall t, i, j | Declares(c, i, j, column, t) ensures Low(t) == Low(first) { assert t in types; }
      }
    }
    forall t, i, j | Declares(c, i, j, column, t) ensures types != [] { assert t in types; }
  }

  // ----- what is reported -----

  /** Every column of this name that declares a type declares one and the same, and it is an integer type. */
  ghost predicate IntegerTyped(p: Patterns, c: Catalog, column: string, t: string) {
    && DbTypeOf(c, column) == Some(t) && t != "" && p.integer(TrimSpace(t))
  }

  /** An ordinary table in which the column is no key. */
  ghost predicate PlainColumn(t: Table, column: string) {
    && (t.kind == None || t.kind == Some("") || t.kind == Some("table"))
    && (forall k :: k in t.primaryKey ==> Low(k) != Low(column))
    && (forall f, k :: f in t.foreignKeys && k in f ==> Low(k) != Low(column))
  }

  lemma PlainIff(t: Table, column: string)
    ensures PlainColumn(t, column) <==>
              !(t.kind.Some? && t.kind.value != "" && t.kind.value != "table") && !Keyed(t, column)
  {
    hide Low;
    if !Keyed(t, column) {
      forall k | k in t.primaryKey ensures Low(k) != Low(column) {
        var i :| 0 <= i < |t.primaryKey| && t.primaryKey[i] == k;
      }
      forall f, k | f in t.foreignKeys && k in f ensures Low(k) != Low(column) {
        var i :| 0 <= i < |t.foreignKeys| && t.foreignKeys[i] == f;
        var j :| 0 <= j < |f| && f[j] == k;
        assert Low(t.foreignKeys[i][j]) == Low(k);
      }
    }
    if PlainColumn(t, column) {
      forall i | 0 <= i < |t.primaryKey| ensures Low(t.primaryKey[i]) != Low(column) { assert t.primaryKey[i] in t.primaryKey; }
      forall i, j | 0 <= i < |t.foreignKeys| && 0 <= j < |t.foreignKeys[i]| ensures Low(t.foreignKeys[i][j]) != Low(column) {
        assert t.foreignKeys[i] in t.foreignKeys && t.foreignKeys[i][j] in t.foreignKeys[i];
      }
    }
  }

  /** The table is the one the reference is taken to read. */
  ghost predicate TakenFrom(c: Catalog, scope: map<string, string>, e: Expr, t: Table)
    requires e.Col?
  {
    if e.table.Some? && e.table.value != "" then
      var q := Low(e.table.value);
      exists i :: FirstNamed(c, if q in scope then scope[q] else q, i) && c[i] == t && HasColumn(t, e.column)
    else
      exists i :: 0 <= i < |c| && c[i] == t && InPool(c, scope, e.column, i) && forall k :: InPool(c, scope, e.column, k) ==> k == i
  }

  /** A table in scope, or any table where nothing is in scope, that has the column. */
  ghost predicate InPool(c: Catalog, scope: map<string, string>, column: string, i: int) {
    && 0 <= i < |c| && HasColumn(c[i], column)
    && (scope != map[] ==> exists k :: k in scope && Low(scope[k]) == Low(c[i].name))
  }

  lemma PoolIs(c: Catalog, scope: map<string, string>, column: string, i: int)
    ensures var names := if |scope| > 0 then set k | k in scope :: Low(scope[k]) else LowNames(c);
            Offering(c, names, column, i) <==> InPool(c, scope, column, i)
  {
    hide Low, HasColumn;
    assert |scope| == 0 <==> scope == map[];
    if 0 <= i < |c| { assert c[i] in c; }
  }

  lemma NamedOwner(c: Catalog, scope: map<string, string>, e: Expr, t: Table)
    requires Qualified(e)
    ensures Owner(c, scope, e) == Some(t) <==> TakenFrom(c, scope, e, t)
  {
    hide Low, HasColumn, FindTable;
    var q := Low(e.table.value);
    var name := if q in scope then scope[q] else q;
    FindIsFirst(c, name);
    assert forall i, k :: FirstNamed(c, name, i) && FirstNamed(c, name, k) ==> i == k;
  }

  lemma BareOwner(c: Catalog, scope: map<string, string>, e: Expr, t: Table)
    requires e.Col? && !Qualified(e)
    ensures Owner(c, scope, e) == Some(t) <==> TakenFrom(c, scope, e, t)
  {
    hide Low, HasColumn;
    var names := if |scope| > 0 then set k | k in scope :: Low(scope[k]) else LowNames(c);
    OneOwner(c, names, e.column);
    forall i ensures Offering(c, names, e.column, i) <==> InPool(c, scope, e.column, i) { PoolIs(c, scope, e.column, i); }
    hide Owners, Offering, InPool, LowNames;
    var os := Owners(c, names, e.column);
    if |os| == 1 { assert os == [os[0]]; }
    if i :| 0 <= i < |c| && c[i] == t && InPool(c, scope, e.column, i) && forall k :: InPool(c, scope, e.column, k) ==> k == i {
      assert OnlyOffering(c, names, e.column, i);
      assert os == [t];
    }
    if os == [t] {
      var i :| OnlyOffering(c, names, e.column, i) && c[i] == t;
      Within(c, names, e.column, i);
      assert InPool(c, scope, e.column, i);
    }
  }

  /** A reference is taken to read the first table its qualifier names, or the only one in scope with the column. */
  lemma OwnerMeans(c: Catalog, scope: map<string, string>, e: Expr, t: Table)
    requires e.Col?
    ensures Owner(c, scope, e) == Some(t) <==> TakenFrom(c, scope, e, t)
  {
    if Qualified(e) { NamedOwner(c, scope, e, t); } else { BareOwner(c, scope, e, t); }
    hide Owner, TakenFrom;
  }

  /**
   * A comparison is reported iff it sets a column against a whole number, the column's name is that
   * of a code, its declared types agree on an integer, and the table it is taken to read is an
   * ordinary one in which it is no key; the report names that table, that column and that number.
   */
  lemma ReportedIff(p: Patterns, c: Catalog, scope: map<string, string>, column: Expr, value: Expr, l: CodeLiteral)
    ensures Consider(p, c, scope, column, value) == Some(l) <==>
              && column.Col? && column.column != "" && !p.id(column.column) && !p.measure(column.column)
              && value == Num(l.literal as real) && l.column == column.column
              && (exists ty :: IntegerTyped(p, c, column.column, ty) && !p.moment(column.column, ty))
              && exists t :: TakenFrom(c, scope, column, t) && PlainColumn(t, column.column) && l.schema == t.schema && l.table == t.name
  {
    hide DbTypeOf, Owner, TakenFrom, PlainColumn, Keyed, Low;
    if column.Col? {
      forall t ensures Owner(c, scope, column) == Some(t) <==> TakenFrom(c, scope, column, t) { OwnerMeans(c, scope, column, t); }
      forall t ensures PlainColumn(t, column.column) <==>
                         !(t.kind.Some? && t.kind.value != "" && t.kind.value != "table") && !Keyed(t, column.column)
      {
        PlainIff(t, column.column);
      }
      var ty := DbTypeOf(c, column.column);
      if IntegerColumn(p, c, column.column) { assert IntegerTyped(p, c, column.column, ty.value); }
    }
  }

  // ----- which reports are the same -----

  lemma NumeralInjective(m: nat, n: nat)
    ensures Numeral(m) == Numeral(n) <==> m == n
  {
    NumeralRoundTrip(m);
    NumeralRoundTrip(n);
  }

  lemma PlainDigits(s: string)
    requires AllDigits(s)
    ensures Low(s) == s && Low("-" + s) == "-" + s && '=' !in s && '-' !in s
  {}

  lemma IntTextInjective(m: int, n: int)
    ensures IntText(m) == IntText(n) <==> m == n
    ensures Low(IntText(n)) == IntText(n) && '=' !in IntText(n)
  {
    var a, b := Numeral(if m < 0 then -m else m), Numeral(if n < 0 then -n else n);
    NumeralInjective(if m < 0 then -m else m, if n < 0 then -n else n);
    PlainDigits(a);
    PlainDigits(b);
    hide Numeral, Low;
    assert ("-" + a)[1..] == a && ("-" + b)[1..] == b;
    assert a[0] in a && b[0] in b && ("-" + a)[0] == '-' == ("-" + b)[0];
  }

  lemma LastEquals(a: string, s: string, b: string, t: string)
    requires a + "=" + s == b + "=" + t && '=' !in s && '=' !in t
    ensures a == b && s == t
  {
    var x, y := a + "=" + s, b + "=" + t;
    assert x[|a|] == '=' && y[|b|] == '=';
    forall k | |a| < k < |x| ensures x[k] != '=' { assert x[k] == s[k - |a| - 1]; }
    forall k | |b| < k < |y| ensures y[k] != '=' { assert y[k] == t[k - |b| - 1]; }
    assert |a| == |b|;
    assert a == x[..|a|] == b && s == x[|a| + 1..] == t;
  }

  /** Two reports count as one iff their table and column read the same, up to case, and their numbers are equal. */
  lemma KeyMeans(l: CodeLiteral, m: CodeLiteral)
    ensures Key(l) == Key(m) <==> Low(l.table + "." + l.column) == Low(m.table + "." + m.column) && l.literal == m.literal
  {
    var a, b := l.table + "." + l.column, m.table + "." + m.column;
    KeyIs(l);
    KeyIs(m);
    IntTextInjective(l.literal, m.literal);
    IntTextInjective(m.literal, l.literal);
    hide Low, IntText, Key;
    if Key(l) == Key(m) { LastEquals(Low(a), IntText(l.literal), Low(b), IntText(m.literal)); }
  }

  lemma KeyIs(l: CodeLiteral)
    ensures Key(l) == Low(l.table + "." + l.column) + "=" + IntText(l.literal)
  {
    IntTextInjective(l.literal, l.literal);
    hide IntText;
    var a, t := l.table + "." + l.column, IntText(l.literal);
    assert l.table + "." + l.column + "=" + t == a + "=" + t;
    assert Low(a + "=" + t) == Low(a) + "=" + Low(t);
  }

  // ----- when the probe condemns a literal -----

  /** A literal is judged impossible iff the column holds between one and 25 distinct values and it is none of them. */
  lemma ImpossibleIff(probe: seq<Value>, values: set<Value>, literal: int)
    requires ProbeResult(probe, values)
    ensures Impossible(probe, literal) <==> 1 <= |values| <= 25 && Number(literal as real) !in values
  {
    var v := Number(literal as real);
    if |values| <= CODE_MAX_DISTINCT && v in values {
      ProbeComplete(probe, values, v);
    }
  }
}
