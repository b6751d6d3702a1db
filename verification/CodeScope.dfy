/** A condition a reader can check at a glance under which every reference the analysis attributes is certain. */
module CodeScope {
  import opened Text
  import opened CodeLiterals

  predicate UniqueTables(c: Catalog) { forall i, k :: 0 <= i < k < |c| ==> Low(c[i].name) != Low(c[k].name) }

  predicate SomeNamed(from: seq<Item>) { exists i :: 0 <= i < |from| && from[i].table.Some? }

  /** No derived table or CTE answers to the name of a catalog table. */
  predicate NoShadow(st: Select, c: Catalog) {
    forall i :: 0 <= i < |st.from| && Foreign(st, st.from[i]) ==>
      && (st.from[i].table.Some? ==> Low(st.from[i].table.value) !in LowNames(c))
      && (Exposed(st.from[i]).Some? ==> Exposed(st.from[i]).value !in LowNames(c))
  }

  /** No alias is the name of another table in scope. */
  predicate NoAliasClash(from: seq<Item>) {
    forall i, k :: 0 <= i < |from| && 0 <= k < |from| && from[i].table.Some? && from[k].table.Some?
                   && Exposed(from[i]) == Some(Low(from[k].table.value)) ==>
      Low(from[i].table.value) == Low(from[k].table.value)
  }

  /** A schema given in FROM is the catalog's schema for that table. */
  predicate SchemasAgree(st: Select, c: Catalog) {
    forall i, t :: 0 <= i < |st.from| && !Foreign(st, st.from[i]) && t in c && Low(st.from[i].table.value) == Low(t.name) ==>
      CanBe(st, c, st.from[i], t)
  }

  predicate Unmerged(from: seq<Item>) { forall i :: 0 <= i < |from| ==> from[i].merged == {} && !from[i].natural }

  predicate Scoped(st: Select, c: Catalog) {
    SomeNamed(st.from) && NoShadow(st, c) && NoAliasClash(st.from) && SchemasAgree(st, c) && Unmerged(st.from)
  }

  // ----- the scope map -----

  /** Item `i` put `name` into the scope under key `k`. */
  predicate PutBy(from: seq<Item>, i: int, k: string, name: string) {
    && 0 <= i < |from| && from[i].table == Some(name)
    && (Low(name) == k || Exposed(from[i]) == Some(k))
  }

  lemma {:induction false} InScopeFrom(from: seq<Item>, k: string)
    ensures k in InScope(from) ==> exists i :: PutBy(from, i, k, InScope(from)[k])
  {
    if from != [] {
      var front, last := from[..|from| - 1], |from| - 1;
      InScopeFrom(front, k);
      if k in InScope(from) && !PutBy(from, last, k, InScope(from)[k]) {
        assert k in InScope(front) && InScope(front)[k] == InScope(from)[k];
        var i :| PutBy(front, i, k, InScope(front)[k]);
        assert PutBy(from, i, k, InScope(from)[k]);
      }
    }
  }

  lemma {:induction false} InScopeHas(from: seq<Item>, i: nat, k: string)
    requires i < |from| && from[i].table.Some?
    requires k == Low(from[i].table.value) || (k != "" && Exposed(from[i]) == Some(k))
    ensures k in InScope(from)
  {
    if i < |from| - 1 { InScopeHas(from[..|from| - 1], i, k); } else { LowEmpty(); }
  }

  lemma LowEmpty()
    ensures Low("") == ""
  {}

  lemma LowTwice(s: string)
    ensures Low(Low(s)) == Low(s) && (s != "" ==> Low(s) != "")
  {
    if s != "" { assert |Low(s)| == |s|; }
  }

  lemma SameTable(c: Catalog, t: Table, u: Table)
    requires UniqueTables(c) && t in c && u in c && Low(t.name) == Low(u.name)
    ensures t == u
  {
    var i :| 0 <= i < |c| && c[i] == t;
    var k :| 0 <= k < |c| && c[k] == u;
  }

  lemma NameIn(c: Catalog, t: Table)
    requires t in c
    ensures Low(t.name) in LowNames(c)
  {}

  /** An item that names `t` is `t` and nothing else. */
  lemma NamesTable(st: Select, c: Catalog, i: int, t: Table)
    requires UniqueTables(c) && NoShadow(st, c) && SchemasAgree(st, c) && t in c
    requires 0 <= i < |st.from| && st.from[i].table.Some? && Low(st.from[i].table.value) == Low(t.name)
    ensures CanBe(st, c, st.from[i], t) && !Open(st, c, st.from[i])
    ensures forall u :: u in c && CanBe(st, c, st.from[i], u) ==> u == t
  {
    hide Low;
    NameIn(c, t);
    assert CanBe(st, c, st.from[i], t);
    forall u | u in c && CanBe(st, c, st.from[i], u) ensures u == t { SameTable(c, t, u); }
  }

  lemma PutByOwner(from: seq<Item>, i: int, k: int, q: string, name: string)
    requires PutBy(from, k, q, name) && Only(from, i, q)
    ensures Low(name) == q || from[i].table == Some(name)
  {
    assert Low(name) == q || Names(from, k, q);
  }

  lemma QualifiedNames(c: Catalog, st: Select, e: Expr, i: int, t: Table)
    requires NoShadow(st, c) && NoAliasClash(st.from) && Qualified(e)
    requires Owner(c, InScope(st.from), e) == Some(t) && Only(st.from, i, Low(e.table.value))
    ensures t in c && st.from[i].table.Some? && Low(st.from[i].table.value) == Low(t.name)
  {
    hide HasColumn, Low;
    var q, scope := Low(e.table.value), InScope(st.from);
    var name := if q in scope then scope[q] else q;
    FindTableFinds(c, name);
    NameIn(c, t);
    assert Low(q) == q && q != "" by { LowTwice(e.table.value); }
    InScopeFrom(st.from, q);
    if q in scope {
      var k :| PutBy(st.from, k, q, name);
      PutByOwner(st.from, i, k, q, name);
    }
    if st.from[i].table.Some? { InScopeHas(st.from, i, q); }
  }

  lemma BareNames(c: Catalog, st: Select, e: Expr, t: Table) returns (k: int)
    requires SomeNamed(st.from) && e.Col? && !Qualified(e) && Owner(c, InScope(st.from), e) == Some(t)
    ensures t in c && HasColumn(t, e.column)
    ensures 0 <= k < |st.from| && st.from[k].table.Some? && Low(st.from[k].table.value) == Low(t.name)
  {
    hide HasColumn, Low;
    var scope := InScope(st.from);
    var n :| 0 <= n < |st.from| && st.from[n].table.Some?;
    InScopeHas(st.from, n, Low(st.from[n].table.value));
    assert Low(st.from[n].table.value) in scope;
    var names := set x | x in scope :: Low(scope[x]);
    OwnersOwn(c, names, e.column, t);
    var key :| key in scope && Low(scope[key]) == Low(t.name);
    InScopeFrom(st.from, key);
    k :| PutBy(st.from, k, key, scope[key]);
  }

  /** In a scoped statement over a catalog of distinct names, whatever is attributed is certain. */
  lemma ScopedIsCertain(c: Catalog, st: Select, e: Expr, t: Table)
    requires UniqueTables(c) && Scoped(st, c) && e.Col? && Owner(c, InScope(st.from), e) == Some(t)
    ensures Certain(st, c, e, t)
  {
    hide HasColumn, Low, Owner, InScope, CanBe, Open, UniqueTables, NoAliasClash, SchemasAgree;
    if Qualified(e) {
      forall i | MayRead(st, c, e, i) ensures IsOnly(st, c, i, e.column, t) {
        QualifiedNames(c, st, e, i, t);
        NamesTable(st, c, i, t);
      }
    } else {
      var k := BareNames(c, st, e, t);
      NamesTable(st, c, k, t);
      assert MustOffer(st, c, k, e.column);
      forall i | MayRead(st, c, e, i) ensures IsOnly(st, c, i, e.column, t) {
        assert Present(st, c, i, i, e.column) && Present(st, c, i, k, e.column);
        assert i == k;
      }
    }
  }

  lemma ScopedReports(p: Patterns, c: Catalog, st: Select, l: CodeLiteral)
    requires UniqueTables(c) && Scoped(st, c)
    ensures CertainlyReported(p, c, st, l)
  {
    hide UniqueTables, Scoped, Conjunct, InScope, CodedName, Keyed, Owner, Certain;
    forall a, b | Reports(p, c, st, l, a, b) ensures CertainConjunct(p, c, st, l, a, b) {
      ScopedIsCertain(c, st, a, Owner(c, InScope(st.from), a).value);
    }
  }

  /**
   * In a scoped statement over a catalog of distinct names, every reported literal stands in its
   * column on every joined row that satisfies WHERE.
   */
  lemma ReportedSound(p: Patterns, c: Catalog, db: Database, st: Select, den: Resolution, j: Joined, o: Oracle, l: CodeLiteral)
    requires UniqueTables(c) && Scoped(st, c) && l in Analyse(p, c, [st])
    requires JoinedRow(p, c, db, st, den, j) && Holds(o, st.from, j, st.where) == True
    ensures Pinned(den, j, l)
  {
    hide UniqueTables, Scoped, Analyse, JoinedRow, Holds, CertainlyReported;
    ScopedReports(p, c, st, l);
    ReportedHolds(p, c, db, st, den, j, o, l);
  }

  /** And if the probe of that column lacks it, no joined row satisfies WHERE: the caveat is true. */
  lemma ReportedNone(p: Patterns, c: Catalog, db: Database, st: Select, o: Oracle, l: CodeLiteral, probe: seq<Value>,
                     den: Resolution, j: Joined)
    requires UniqueTables(c) && Scoped(st, c) && l in Analyse(p, c, [st])
    requires ProbeResult(probe, Distinct(RowsOf(db, l.schema, l.table), l.column)) && Impossible(probe, l.literal)
    requires JoinedRow(p, c, db, st, den, j)
    ensures Holds(o, st.from, j, st.where) != True
  {
    hide UniqueTables, Scoped, Analyse, JoinedRow, Holds, CertainlyReported, ProbeResult, Impossible;
    ScopedReports(p, c, st, l);
    ReportedNever(p, c, db, st, o, l, probe, den, j);
  }
}
