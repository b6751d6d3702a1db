/** The column-hint probes of an introspection: a global cap, shared fairly between tables. */
module ProbeBudget {
  import opened Text

  const MAX_HINT_PROBES := 200
  const MAX_HINT_PROBES_PER_TABLE := 4

  datatype Column = Column(name: string, comment: Option<string>, moment: bool, json: bool)

  datatype Table = Table(base: bool, columns: seq<Column>)

  /** What a probe of a column yields; None also when it fails. */
  type Prober = (int, int) -> Option<string>

  function Min(a: int, b: int): int { if a <= b then a else b }

  function Max(a: int, b: int): int { if a >= b then a else b }

  function HintProbesPerTable(tableCount: nat): nat {
    Max(1, Min(MAX_HINT_PROBES_PER_TABLE, MAX_HINT_PROBES / Max(1, tableCount)))
  }

  /** A column worth a probe: a comment the DBA wrote is never replaced. */
  predicate Candidate(c: Column) { !(c.comment.Some? && c.comment.value != "") && (c.moment || c.json) }

  /** The candidates among the first `n` columns. */
  function Candidates(cs: seq<Column>, n: nat): nat
    requires n <= |cs|
  {
    if n == 0 then 0 else Candidates(cs, n - 1) + (if Candidate(cs[n - 1]) then 1 else 0)
  }

  function Wanted(t: Table): nat { if t.base then Candidates(t.columns, |t.columns|) else 0 }

  function Hinted(c: Column, hint: Option<string>): Column { if hint.Some? then c.(comment := hint) else c }

  lemma NoCandidates(cs: seq<Column>)
    ensures Candidates(cs, 0) == 0
  {}

  lemma CandidatesStep(cs: seq<Column>, n: nat)
    requires n < |cs|
    ensures Candidates(cs, n + 1) == Candidates(cs, n) + (if Candidate(cs[n]) then 1 else 0)
  {
    hide Candidate;
  }

  /** One table: the first `budget` candidates are probed, in order, and nothing else changes. */
  method ProbeColumns(cs: seq<Column>, table: nat, share: nat, probe: Prober) returns (out: seq<Column>, spent: nat)
    ensures spent == Min(share, Candidates(cs, |cs|))
    ensures |out| == |cs|
    ensures forall j :: 0 <= j < |cs| ==>
              out[j] == if Candidate(cs[j]) && Candidates(cs, j) < share then Hinted(cs[j], probe(table, j)) else cs[j]
  {
    hide Candidate, Hinted, Candidates;
    assert Candidates(cs, 0) == 0 by { NoCandidates(cs); }
    var budget := share;
    out, spent := [], 0;
    for j := 0 to |cs|
      invariant 0 <= budget && spent == share - budget == Min(share, Candidates(cs, j))
      invariant |out| == j
      invariant forall k :: 0 <= k < j ==>
                  out[k] == if Candidate(cs[k]) && Candidates(cs, k) < share then Hinted(cs[k], probe(table, k)) else cs[k]
    {
      CandidatesStep(cs, j);
      if budget <= 0 || !Candidate(cs[j]) {
        out := out + [cs[j]];
        continue;
      }
      budget := budget - 1;
      spent := spent + 1;
      out := out + [Hinted(cs[j], probe(table, j))];
    }
  }

  function Sum(s: seq<nat>): nat { if s == [] then 0 else Sum(s[..|s| - 1]) + s[|s| - 1] }

  /** Table `i` got its share, as far as the global cap still allowed. */
  ghost predicate FairShare(tables: seq<Table>, probes: seq<nat>, i: nat)
    requires i < |tables| && i < |probes|
  {
    probes[i] == Min(Min(HintProbesPerTable(|tables|), Wanted(tables[i])), MAX_HINT_PROBES - Sum(probes[..i]))
  }

  /** The columns of table `i` after its probes. */
  ghost predicate Described(t: Table, u: Table, i: nat, probes: nat, probe: Prober) {
    && u.base == t.base && |u.columns| == |t.columns|
    && forall j :: 0 <= j < |t.columns| ==>
         u.columns[j] == if t.base && Candidate(t.columns[j]) && Candidates(t.columns, j) < probes
                         then Hinted(t.columns[j], probe(i, j)) else t.columns[j]
  }

  lemma SumPrefix(s: seq<nat>, x: nat)
    ensures Sum(s + [x]) == Sum(s) + x && forall i :: 0 <= i <= |s| ==> (s + [x])[..i] == s[..i]
  {
    assert (s + [x])[..|s|] == s;
  }

  lemma CandidatesBound(cs: seq<Column>, j: nat)
    requires j < |cs| && Candidate(cs[j])
    ensures Candidates(cs, j) < Candidates(cs, |cs|)
  {
    CandidatesGrow(cs, j + 1, |cs|);
  }

  lemma {:induction false} CandidatesGrow(cs: seq<Column>, m: nat, n: nat)
    requires m <= n <= |cs|
    ensures Candidates(cs, m) <= Candidates(cs, n)
  {
    if m < n { CandidatesGrow(cs, m, n - 1); }
  }

  /** A larger share than there are candidates probes the same columns. */
  lemma SpentDescribes(t: Table, u: Table, i: nat, share: nat, spent: nat, probe: Prober)
    requires t.base && u.base && |u.columns| == |t.columns| && spent == Min(share, Candidates(t.columns, |t.columns|))
    requires forall j :: 0 <= j < |t.columns| ==>
               u.columns[j] == if Candidate(t.columns[j]) && Candidates(t.columns, j) < share
                               then Hinted(t.columns[j], probe(i, j)) else t.columns[j]
    ensures Described(t, u, i, spent, probe)
  {
    forall j | 0 <= j < |t.columns| && Candidate(t.columns[j])
      ensures Candidates(t.columns, j) < share <==> Candidates(t.columns, j) < spent
    {
      CandidatesBound(t.columns, j);
    }
  }

  method WithColumnHints(tables: seq<Table>, probe: Prober) returns (out: seq<Table>, probes: seq<nat>)
    ensures |out| == |tables| == |probes|
    ensures Sum(probes) <= MAX_HINT_PROBES
    ensures forall i :: 0 <= i < |tables| ==> FairShare(tables, probes, i) && Described(tables[i], out[i], i, probes[i], probe)
  {
    hide Described, Candidates, Candidate, Hinted;
    var total: nat := MAX_HINT_PROBES;
    out, probes := [], [];
    var perTable := HintProbesPerTable(|tables|);
    for i := 0 to |tables|
      invariant |out| == |probes| == i && total == MAX_HINT_PROBES - Sum(probes)
      invariant forall k :: 0 <= k < i ==> FairShare(tables, probes, k) && Described(tables[k], out[k], k, probes[k], probe)
    {
      var t := tables[i];
      var u, spent := t, 0;
      if t.base && total > 0 {
        var columns;
        columns, spent := ProbeColumns(t.columns, i, Min(perTable, total), probe);
        u := t.(columns := columns);
        SpentDescribes(t, u, i, Min(perTable, total), spent, probe);
      } else {
        NoneDescribes(t, i, probe);
      }
      SumPrefix(probes, spent);
      ghost var before := probes;
      out, probes, total := out + [u], probes + [spent], total - spent;
      forall k | 0 <= k <= i ensures FairShare(tables, probes, k) {
        assert probes[..k] == before[..k];
        if k < i {
          assert FairShare(tables, before, k);
        } else {
          assert before[..k] == before;
        }
      }
    }
  }

  lemma NoneDescribes(t: Table, i: nat, probe: Prober)
    ensures Described(t, t, i, 0, probe)
  {}

  // ----- fairness -----

  lemma {:induction false} SumBound(tables: seq<Table>, probes: seq<nat>, n: nat)
    requires n <= |tables| == |probes| && forall i :: 0 <= i < |tables| ==> FairShare(tables, probes, i)
    ensures Sum(probes[..n]) <= n * HintProbesPerTable(|tables|)
  {
    if n > 0 {
      SumBound(tables, probes, n - 1);
      assert probes[..n][..n - 1] == probes[..n - 1];
      assert FairShare(tables, probes, n - 1);
      assert n * HintProbesPerTable(|tables|) == (n - 1) * HintProbesPerTable(|tables|) + HintProbesPerTable(|tables|);
    }
  }

  lemma ShareFits(n: nat)
    requires 0 < n <= MAX_HINT_PROBES
    ensures n * HintProbesPerTable(n) <= MAX_HINT_PROBES
  {
    var q := MAX_HINT_PROBES / n;
    assert n * q <= MAX_HINT_PROBES;
    assert q >= 1;
    assert HintProbesPerTable(n) <= q;
    assert n * HintProbesPerTable(n) <= n * q;
  }

  /** Up to 200 tables, no table can starve another: each gets its full share, whatever the others hold. */
  lemma NobodyStarves(tables: seq<Table>, probes: seq<nat>, i: nat)
    requires |tables| == |probes| && |tables| <= MAX_HINT_PROBES && i < |tables|
    requires forall k :: 0 <= k < |tables| ==> FairShare(tables, probes, k)
    ensures probes[i] == Min(HintProbesPerTable(|tables|), Wanted(tables[i]))
  {
    hide Wanted, Sum;
    SumBound(tables, probes, i);
    ShareFits(|tables|);
    assert FairShare(tables, probes, i);
    hide FairShare, HintProbesPerTable;
    OneMoreShare(i, |tables|, HintProbesPerTable(|tables|));
  }

  lemma OneMoreShare(i: nat, n: nat, share: nat)
    requires i < n
    ensures i * share + share <= n * share
  {
    assert (i + 1) * share <= n * share;
  }

  /** Beyond 200 tables every share is one, and only the tables after the cap is spent go without. */
  lemma OneEachUntilSpent(tables: seq<Table>, probes: seq<nat>, i: nat)
    requires |tables| == |probes| && |tables| > MAX_HINT_PROBES && i < |tables|
    requires forall k :: 0 <= k < |tables| ==> FairShare(tables, probes, k)
    ensures probes[i] == if Wanted(tables[i]) > 0 && Sum(probes[..i]) < MAX_HINT_PROBES then 1 else 0
  {
    assert MAX_HINT_PROBES / |tables| == 0;
    assert FairShare(tables, probes, i);
  }

  // ----- the numbers and the columns -----

  /** The share is the largest number up to four that all tables can have, and one when there are too many. */
  lemma ShareMeans(n: nat)
    ensures var share := HintProbesPerTable(n);
            && 1 <= share <= 4
            && (n <= 200 ==> share * n <= 200 && (share < 4 ==> (share + 1) * n > 200))
            && (n > 200 ==> share == 1)
  {
    if 0 < n <= 200 {
      ShareFits(n);
      var q := 200 / n;
      assert q >= 1 && (q + 1) * n > 200;
      if HintProbesPerTable(n) < 4 { assert HintProbesPerTable(n) == q; }
    }
  }

  /** Only comments change, only of base tables' undescribed moment and JSON columns, and only to what a probe said. */
  lemma OnlyUndescribed(t: Table, u: Table, i: nat, probes: nat, probe: Prober, j: nat)
    requires Described(t, u, i, probes, probe) && j < |t.columns|
    ensures var c, d := t.columns[j], u.columns[j];
            && d.(comment := None) == c.(comment := None)
            && (!t.base || (c.comment.Some? && c.comment.value != "") || (!c.moment && !c.json) ==> d == c)
            && (d != c ==> d.comment == probe(i, j) && probe(i, j).Some?)
  {}

  /** And a probed column whose probe says something gets that comment. */
  lemma ProbedIsDescribed(t: Table, u: Table, i: nat, probes: nat, probe: Prober, j: nat)
    requires Described(t, u, i, probes, probe) && j < |t.columns| && t.base && probes > Candidates(t.columns, j)
    requires var c := t.columns[j]; (c.comment.None? || c.comment.value == "") && (c.moment || c.json) && probe(i, j).Some?
    ensures u.columns[j].comment == probe(i, j)
  {}

  /** The candidates are counted one by one. */
  lemma {:induction false} CandidatesMeans(cs: seq<Column>, n: nat)
    requires n <= |cs|
    ensures Candidates(cs, n) ==
              |set j | 0 <= j < n && (cs[j].comment.None? || cs[j].comment.value == "") && (cs[j].moment || cs[j].json)|
  {
    var a := set j | 0 <= j < n && (cs[j].comment.None? || cs[j].comment.value == "") && (cs[j].moment || cs[j].json);
    if n > 0 {
      CandidatesMeans(cs, n - 1);
      var b := set j | 0 <= j < n - 1 && (cs[j].comment.None? || cs[j].comment.value == "") && (cs[j].moment || cs[j].json);
      assert a == if Candidate(cs[n - 1]) then b + {n - 1} else b;
    } else {
      assert a == {};
    }
  }
}
