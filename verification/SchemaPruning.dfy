/**
 * Which tables and columns reach the prompt: the foreign-key graph, its closure around the tables
 * that match the question, packing under the token budget, and trimming a wide table's columns.
 */
module SchemaPruning {
  import opened Text

  const FK_CLOSURE_HOPS := 2
  const MIN_COLUMNS_KEPT := 12

  // ----- the foreign-key graph -----

  datatype ForeignKey = ForeignKey(refSchema: Option<string>, refTable: string)

  datatype Table = Table(schema: Option<string>, name: string, foreignKeys: seq<ForeignKey>)

  function KeyOf(schema: Option<string>, name: string): string { (if schema.Some? then schema.value else "") + "." + name }

  function TableKey(t: Table): string { KeyOf(t.schema, t.name) }

  /** By qualified name and, as a fallback, by bare name; a later table wins. */
  function ByName(all: seq<Table>): map<string, Table> {
    if all == [] then map[]
    else
      var t := all[|all| - 1];
      ByName(all[..|all| - 1])[TableKey(t) := t]["." + t.name := t]
  }

  function Target(names: map<string, Table>, fk: ForeignKey): Option<Table> {
    var k := KeyOf(fk.refSchema, fk.refTable);
    if k in names then Some(names[k]) else if "." + fk.refTable in names then Some(names["." + fk.refTable]) else None
  }

  /** The `j`-th foreign key of the `i`-th table leads from `a` to `b`. */
  predicate Refers(all: seq<Table>, i: int, j: int, a: string, b: string) {
    && 0 <= i < |all| && 0 <= j < |all[i].foreignKeys| && TableKey(all[i]) == a
    && var t := Target(ByName(all), all[i].foreignKeys[j]); t.Some? && TableKey(t.value) == b
  }

  /** Some foreign key joins `a` and `b`, in either direction. */
  ghost predicate Linked(all: seq<Table>, a: string, b: string) {
    exists i, j :: Refers(all, i, j, a, b) || Refers(all, i, j, b, a)
  }

  type Graph = map<string, set<string>>

  function Adjacent(g: Graph, a: string): set<string> { if a in g then g[a] else {} }

  function WithEdge(g: Graph, a: string, b: string): Graph { g[a := Adjacent(g, a) + {b}] }

  lemma EdgeAdded(g: Graph, a: string, b: string, x: string, y: string)
    ensures y in Adjacent(WithEdge(WithEdge(g, a, b), b, a), x) <==>
              y in Adjacent(g, x) || (x == a && y == b) || (x == b && y == a)
  {}

  /** A link through a foreign key before the `m`-th of the `n`-th table. */
  ghost predicate LinkedBefore(all: seq<Table>, n: int, m: int, a: string, b: string) {
    exists i, j :: (i < n || (i == n && j < m)) && (Refers(all, i, j, a, b) || Refers(all, i, j, b, a))
  }

  lemma LinkedStep(all: seq<Table>, n: int, m: int, a: string, b: string)
    requires 0 <= n < |all| && 0 <= m < |all[n].foreignKeys|
    ensures LinkedBefore(all, n, m + 1, a, b) <==>
              LinkedBefore(all, n, m, a, b) || Refers(all, n, m, a, b) || Refers(all, n, m, b, a)
  {
    hide Refers;
  }

  lemma LinkedNext(all: seq<Table>, n: int, a: string, b: string)
    requires 0 <= n < |all|
    ensures LinkedBefore(all, n + 1, 0, a, b) <==> LinkedBefore(all, n, |all[n].foreignKeys|, a, b)
  {
    if LinkedBefore(all, n + 1, 0, a, b) {
      var i, j :| (i < n + 1 || (i == n + 1 && j < 0)) && (Refers(all, i, j, a, b) || Refers(all, i, j, b, a));
      assert i < n || (i == n && j < |all[n].foreignKeys|);
    }
    if LinkedBefore(all, n, |all[n].foreignKeys|, a, b) {
      var i, j :| (i < n || (i == n && j < |all[n].foreignKeys|)) && (Refers(all, i, j, a, b) || Refers(all, i, j, b, a));
      assert i < n + 1;
    }
  }

  lemma LinkedEnds(all: seq<Table>, a: string, b: string)
    ensures !LinkedBefore(all, 0, 0, a, b)
    ensures LinkedBefore(all, |all|, 0, a, b) <==> Linked(all, a, b)
  {
    if Linked(all, a, b) {
      var i, j :| Refers(all, i, j, a, b) || Refers(all, i, j, b, a);
      assert i < |all|;
    }
  }

  /** The graph has an edge exactly where a foreign key joins two tables, so it is undirected. */
  method BuildNeighbors(all: seq<Table>) returns (g: Graph)
    ensures forall a, b :: b in Adjacent(g, a) <==> Linked(all, a, b)
  {
    hide ByName, Linked, LinkedBefore;
    var byName := ByName(all);
    g := map[];
    forall a, b ensures !LinkedBefore(all, 0, 0, a, b) { LinkedEnds(all, a, b); }
    for i := 0 to |all|
      invariant forall a, b :: b in Adjacent(g, a) <==> LinkedBefore(all, i, 0, a, b)
    {
      var tk := TableKey(all[i]);
      for j := 0 to |all[i].foreignKeys|
        invariant forall a, b :: b in Adjacent(g, a) <==> LinkedBefore(all, i, j, a, b)
      {
        var ref := Target(byName, all[i].foreignKeys[j]);
        forall a, b ensures LinkedBefore(all, i, j + 1, a, b) <==>
                              LinkedBefore(all, i, j, a, b) || Refers(all, i, j, a, b) || Refers(all, i, j, b, a)
        {
          LinkedStep(all, i, j, a, b);
        }
        if ref.Some? {
          var rk := TableKey(ref.value);
          forall a, b ensures b in Adjacent(WithEdge(WithEdge(g, tk, rk), rk, tk), a) <==>
                                b in Adjacent(g, a) || Refers(all, i, j, a, b) || Refers(all, i, j, b, a)
          {
            EdgeAdded(g, tk, rk, a, b);
          }
          g := WithEdge(WithEdge(g, tk, rk), rk, tk);
        } else {
          assert forall a, b :: !Refers(all, i, j, a, b);
        }
      }
      forall a, b ensures LinkedBefore(all, i + 1, 0, a, b) <==> LinkedBefore(all, i, |all[i].foreignKeys|, a, b) {
        LinkedNext(all, i, a, b);
      }
    }
    forall a, b ensures LinkedBefore(all, |all|, 0, a, b) <==> Linked(all, a, b) { LinkedEnds(all, a, b); }
  }

  lemma LinkedSymmetric(all: seq<Table>, a: string, b: string)
    ensures Linked(all, a, b) ==> Linked(all, b, a)
  {
    hide Refers;
  }

  predicate Answers(t: Table, key: string) { TableKey(t) == key || "." + t.name == key }

  /** The last table that answers to `key`. */
  ghost predicate LastWith(all: seq<Table>, key: string, t: Table) {
    exists i :: 0 <= i < |all| && all[i] == t && Answers(t, key) && forall j :: i < j < |all| ==> !Answers(all[j], key)
  }

  lemma ByNameNext(front: seq<Table>, last: Table, key: string)
    ensures key in ByName(front + [last]) <==> Answers(last, key) || key in ByName(front)
    ensures key in ByName(front + [last]) ==>
              ByName(front + [last])[key] == if Answers(last, key) then last else ByName(front)[key]
  {
    var all := front + [last];
    assert all[..|all| - 1] == front && all[|all| - 1] == last;
  }

  lemma LastWithNext(front: seq<Table>, last: Table, key: string, t: Table)
    ensures Answers(last, key) ==> LastWith(front + [last], key, last)
    ensures !Answers(last, key) && LastWith(front, key, t) ==> LastWith(front + [last], key, t)
  {
    hide Answers;
    var all := front + [last];
    if Answers(last, key) {
      assert all[|front|] == last;
    } else if LastWith(front, key, t) {
      var i :| 0 <= i < |front| && front[i] == t && Answers(t, key) && forall j :: i < j < |front| ==> !Answers(front[j], key);
      assert all[i] == t;
    }
  }

  lemma {:induction false} ByNameIsLast(all: seq<Table>, key: string)
    ensures key in ByName(all) <==> exists i :: 0 <= i < |all| && Answers(all[i], key)
    ensures key in ByName(all) ==> LastWith(all, key, ByName(all)[key])
  {
    if all != [] {
      var front, last := all[..|all| - 1], all[|all| - 1];
      assert all == front + [last];
      ByNameIsLast(front, key);
      ByNameNext(front, last, key);
      LastWithNext(front, last, key, if key in ByName(front) then ByName(front)[key] else last);
      hide ByName, Answers, LastWith;
      if i :| 0 <= i < |front| && Answers(front[i], key) { assert all[i] == front[i]; }
    }
  }

  /**
   * Where a foreign key leads: to the last table of that schema and name, else to the last of that
   * bare name, else nowhere.
   */
  lemma TargetMeans(all: seq<Table>, fk: ForeignKey)
    ensures var t, full, bare := Target(ByName(all), fk), KeyOf(fk.refSchema, fk.refTable), "." + fk.refTable;
            && (t.None? <==> forall i :: 0 <= i < |all| ==> !Answers(all[i], full) && !Answers(all[i], bare))
            && (t.Some? ==>
                  if exists i :: 0 <= i < |all| && Answers(all[i], full) then LastWith(all, full, t.value)
                  else LastWith(all, bare, t.value))
  {
    ByNameIsLast(all, KeyOf(fk.refSchema, fk.refTable));
    ByNameIsLast(all, "." + fk.refTable);
    hide ByName, Answers, LastWith, KeyOf;
  }

  // ----- the closure -----

  /** Everything within `d` hops of the seeds. */
  function Ball(g: Graph, seeds: set<string>, d: nat): set<string> {
    if d == 0 then seeds else Grown(g, Ball(g, seeds, d - 1))
  }

  function Grown(g: Graph, s: set<string>): set<string> { s + Around(g, s) }

  /** Everything next to `s`. */
  function Around(g: Graph, s: set<string>): set<string> { set k, n | k in s && k in g && n in g[k] :: n }

  /** A walk of at most `d` hops from a seed to `k`. */
  ghost predicate Walk(g: Graph, seeds: set<string>, d: nat, p: seq<string>, k: string) {
    && 1 <= |p| <= d + 1 && p[0] in seeds && p[|p| - 1] == k
    && forall i :: 0 <= i < |p| - 1 ==> p[i + 1] in Adjacent(g, p[i])
  }

  lemma {:induction false} BallHasWalk(g: Graph, seeds: set<string>, d: nat, k: string) returns (p: seq<string>)
    requires k in Ball(g, seeds, d)
    ensures Walk(g, seeds, d, p, k)
    decreases d
  {
    if d == 0 {
      p := [k];
    } else if k in Ball(g, seeds, d - 1) {
      p := BallHasWalk(g, seeds, d - 1, k);
    } else {
      var m :| m in Ball(g, seeds, d - 1) && m in g && k in g[m];
      var q := BallHasWalk(g, seeds, d - 1, m);
      p := q + [k];
    }
  }

  lemma {:induction false} WalkInBall(g: Graph, seeds: set<string>, d: nat, p: seq<string>, k: string)
    requires Walk(g, seeds, d, p, k)
    ensures k in Ball(g, seeds, d)
    decreases d
  {
    if |p| == 1 {
      SeedsInBall(g, seeds, d);
    } else {
      var q, m := p[..|p| - 1], p[|p| - 2];
      assert p[|p| - 2 + 1] in Adjacent(g, p[|p| - 2]);
      assert Walk(g, seeds, d - 1, q, m);
      WalkInBall(g, seeds, d - 1, q, m);
    }
  }

  lemma {:induction false} SeedsInBall(g: Graph, seeds: set<string>, d: nat)
    ensures seeds <= Ball(g, seeds, d)
  {
    if d > 0 { SeedsInBall(g, seeds, d - 1); }
  }

  /** The ball of radius `d` is what can be reached in at most `d` hops. */
  lemma BallIsReach(g: Graph, seeds: set<string>, d: nat, k: string)
    ensures k in Ball(g, seeds, d) <==> exists p :: Walk(g, seeds, d, p, k)
  {
    if k in Ball(g, seeds, d) { var p := BallHasWalk(g, seeds, d, k); }
    if p :| Walk(g, seeds, d, p, k) { WalkInBall(g, seeds, d, p, k); }
  }

  /** No ball of a smaller radius fills the table cap. */
  ghost predicate Roomy(g: Graph, seeds: set<string>, maxTables: nat, h: nat) {
    h > 0 ==> Roomy(g, seeds, maxTables, h - 1) && |Ball(g, seeds, h - 1)| < maxTables
  }

  /** Where the closure stops: at the first radius whose ball fills the table cap, or at two hops. */
  ghost predicate StopsAt(g: Graph, seeds: set<string>, maxTables: nat, h: nat) {
    && h <= FK_CLOSURE_HOPS && Roomy(g, seeds, maxTables, h)
    && (h < FK_CLOSURE_HOPS ==> |Ball(g, seeds, h)| >= maxTables)
  }

  /** The names next to a frontier that are not in yet. */
  method NextFrontier(g: Graph, frontier: set<string>, expanded: set<string>) returns (next: set<string>)
    ensures next == Around(g, frontier) - expanded
  {
    next := {};
    var todo := frontier;
    while todo != {}
      invariant todo <= frontier
      invariant next == Around(g, frontier - todo) - expanded
      decreases todo
    {
      var k :| k in todo;
      next := next + (Adjacent(g, k) - expanded);
      todo := todo - {k};
    }
  }

  /** The last shell of the ball. */
  ghost predicate Frontier(g: Graph, seeds: set<string>, hop: nat, frontier: set<string>) {
    frontier == if hop == 0 then seeds else Ball(g, seeds, hop) - Ball(g, seeds, hop - 1)
  }

  /** Growing the last shell grows the ball. */
  lemma FrontierSuffices(g: Graph, seeds: set<string>, hop: nat, frontier: set<string>)
    requires Frontier(g, seeds, hop, frontier)
    ensures var next := Around(g, frontier) - Ball(g, seeds, hop);
            Ball(g, seeds, hop) + next == Ball(g, seeds, hop + 1) && Frontier(g, seeds, hop + 1, next)
  {
    var b := Ball(g, seeds, hop);
    forall n | n in Grown(g, b) && n !in b ensures n in Around(g, frontier) {
      var k :| k in b && k in g && n in g[k];
      assert k in frontier;
    }
  }

  /** One hop. */
  method Hop(g: Graph, ghost seeds: set<string>, hop: nat, inner: set<string>, frontier: set<string>)
    returns (expanded: set<string>, next: set<string>)
    requires inner == Ball(g, seeds, hop) && Frontier(g, seeds, hop, frontier)
    ensures expanded == Ball(g, seeds, hop + 1) && Frontier(g, seeds, hop + 1, next)
  {
    hide Ball, Around, Frontier;
    next := NextFrontier(g, frontier, inner);
    FrontierSuffices(g, seeds, hop, frontier);
    expanded := inner + next;
  }

  lemma AtFirst(g: Graph, seeds: set<string>, maxTables: nat)
    ensures Roomy(g, seeds, maxTables, 0) && Ball(g, seeds, 0) == seeds && Frontier(g, seeds, 0, seeds)
  {}

  lemma RoomyNext(g: Graph, seeds: set<string>, maxTables: nat, h: nat)
    requires Roomy(g, seeds, maxTables, h) && |Ball(g, seeds, h)| < maxTables
    ensures Roomy(g, seeds, maxTables, h + 1)
  {
    hide Ball;
  }

  /** The breadth-first closure is a ball, whose radius falls short of two only at the table cap. */
  method Expand(g: Graph, seeds: set<string>, maxTables: nat) returns (expanded: set<string>, hop: nat)
    ensures StopsAt(g, seeds, maxTables, hop) && expanded == Ball(g, seeds, hop)
  {
    AtFirst(g, seeds, maxTables);
    hide Ball, Around, Frontier, Roomy;
    expanded := seeds;
    var frontier, i := seeds, 0;
    while i < FK_CLOSURE_HOPS && |expanded| < maxTables
      invariant 0 <= i <= FK_CLOSURE_HOPS
      invariant expanded == Ball(g, seeds, i) && Frontier(g, seeds, i, frontier)
      invariant Roomy(g, seeds, maxTables, i)
    {
      RoomyNext(g, seeds, maxTables, i);
      expanded, frontier := Hop(g, seeds, i, expanded, frontier);
      i := i + 1;
    }
    hop := i;
  }

  // ----- packing tables -----

  datatype Scored = Scored(key: string, score: nat, cost: nat)

  function Max(a: int, b: int): int { if a >= b then a else b }

  function MinOf(a: nat, b: nat): nat { if a <= b then a else b }

  /** Part of the budget is kept for the other sections. */
  function TableBudget(maxSchemaTokens: int): nat { Max(500, maxSchemaTokens - 400) }

  /** What the `n`-th kept table is charged: the first at most half the budget. */
  function Charge(cost: nat, n: nat, budget: nat): nat { if n == 0 then MinOf(cost, budget / 2) else cost }

  /** The charge of the first `n` kept tables. */
  function Charged(costs: seq<nat>, kept: seq<nat>, n: nat, budget: nat): nat
    requires n <= |kept| && forall i :: 0 <= i < |kept| ==> kept[i] < |costs|
  {
    if n == 0 then 0 else Charged(costs, kept, n - 1, budget) + Charge(costs[kept[n - 1]], n - 1, budget)
  }

  ghost predicate Increasing(s: seq<nat>) { forall i, j :: 0 <= i < j < |s| ==> s[i] < s[j] }

  ghost predicate Indices(s: seq<nat>, n: nat) { Increasing(s) && forall i :: 0 <= i < |s| ==> s[i] < n }

  /** `c` was passed over with `n` tables already kept because the cap was full or it did not fit. */
  ghost predicate PassedOver(costs: seq<nat>, kept: seq<nat>, maxTables: nat, budget: nat, c: nat, n: nat) {
    && c < |costs| && n <= |kept| && (forall i :: 0 <= i < |kept| ==> kept[i] < |costs|)
    && (forall i :: 0 <= i < |kept| ==> (i < n <==> kept[i] < c))
    && (n >= maxTables || (n > 0 && Charged(costs, kept, n, budget) + costs[c] > budget))
  }

  ghost predicate Missing(costs: seq<nat>, kept: seq<nat>, maxTables: nat, budget: nat, c: nat) {
    exists n: nat :: PassedOver(costs, kept, maxTables, budget, c, n)
  }

  lemma {:induction false} ChargedAppend(costs: seq<nat>, kept: seq<nat>, x: nat, n: nat, budget: nat)
    requires n <= |kept| && x < |costs| && forall i :: 0 <= i < |kept| ==> kept[i] < |costs|
    ensures Charged(costs, kept + [x], n, budget) == Charged(costs, kept, n, budget)
  {
    if n > 0 { ChargedAppend(costs, kept, x, n - 1, budget); }
  }

  lemma MissingAppend(costs: seq<nat>, kept: seq<nat>, maxTables: nat, budget: nat, c: nat, x: nat)
    requires Missing(costs, kept, maxTables, budget, c) && c < x < |costs|
    ensures Missing(costs, kept + [x], maxTables, budget, c)
  {
    var n: nat :| PassedOver(costs, kept, maxTables, budget, c, n);
    ChargedAppend(costs, kept, x, n, budget);
    assert PassedOver(costs, kept + [x], maxTables, budget, c, n);
  }

  ghost predicate Packed(costs: seq<nat>, kept: seq<nat>, maxTables: nat, budget: nat) {
    && Indices(kept, |costs|) && |kept| <= maxTables
    && (costs != [] && maxTables > 0 ==> kept != [] && kept[0] == 0)
    && Charged(costs, kept, |kept|, budget) <= budget
    && (forall c: nat :: c < |costs| && c !in kept ==> Missing(costs, kept, maxTables, budget, c))
  }

  /**
   * One pass under the caps: what is kept keeps its order, starts with the first candidate, is at
   * most `maxTables` and charged within the budget; and nothing was left out that still fitted.
   */
  method Pack(costs: seq<nat>, maxTables: nat, budget: nat) returns (kept: seq<nat>)
    ensures Packed(costs, kept, maxTables, budget)
  {
    hide Missing;
    kept := [];
    var used: nat := 0;
    for c := 0 to |costs|
      invariant Indices(kept, c) && |kept| <= maxTables
      invariant used == Charged(costs, kept, |kept|, budget) <= budget
      invariant c > 0 && maxTables > 0 ==> kept != [] && kept[0] == 0
      invariant forall d: nat :: d < c && d !in kept ==> Missing(costs, kept, maxTables, budget, d)
    {
      var take := |kept| < maxTables && (kept == [] || used + costs[c] <= budget);
      if take {
        forall d: nat | d < c && d !in kept ensures Missing(costs, kept + [c], maxTables, budget, d) {
          MissingAppend(costs, kept, maxTables, budget, d, c);
        }
        ChargedAppend(costs, kept, c, |kept|, budget);
        used := used + Charge(costs[c], |kept|, budget);
        kept := kept + [c];
      } else {
        MissingNow(costs, kept, maxTables, budget, c);
      }
    }
  }

  lemma MissingNow(costs: seq<nat>, kept: seq<nat>, maxTables: nat, budget: nat, c: nat)
    requires Indices(kept, c) && c < |costs|
    requires |kept| >= maxTables || (kept != [] && Charged(costs, kept, |kept|, budget) + costs[c] > budget)
    ensures Missing(costs, kept, maxTables, budget, c)
  {
    assert PassedOver(costs, kept, maxTables, budget, c, |kept|);
  }

  // ----- candidates -----

  ghost predicate Descending(scored: seq<Scored>) { forall i, j :: 0 <= i <= j < |scored| ==> scored[i].score >= scored[j].score }

  predicate IsCandidate(s: Scored, expanded: set<string>) { s.key in expanded || s.score > 0 }

  /** The indices of the candidates, in score order. */
  function Candidates(scored: seq<Scored>, expanded: set<string>): (r: seq<nat>)
    ensures Indices(r, |scored|)
    ensures forall i: nat :: i < |scored| ==> (i in r <==> IsCandidate(scored[i], expanded))
    ensures r != [] ==> IsCandidate(scored[r[0]], expanded)
  {
    if scored == [] then []
    else
      var n := |scored| - 1;
      Candidates(scored[..n], expanded) + (if IsCandidate(scored[n], expanded) then [n] else [])
  }

  function UpTo(n: nat): (r: seq<nat>)
    ensures |r| == n && forall i :: 0 <= i < n ==> r[i] == i
  {
    seq(n, i => i)
  }

  /** Candidates, or the best tables when nothing matches. */
  function Shortlist(scored: seq<Scored>, expanded: set<string>, maxTables: nat): (r: seq<nat>)
    ensures Indices(r, |scored|)
  {
    var c := Candidates(scored, expanded);
    if c == [] then UpTo(MinOf(maxTables, |scored|)) else c
  }

  ghost predicate Seeds(scored: seq<Scored>, seeds: set<string>) {
    forall k :: k in seeds <==> exists i :: 0 <= i < |scored| && scored[i].score > 0 && scored[i].key == k
  }

  /** The best-scored table heads the shortlist. */
  lemma BestFirst(scored: seq<Scored>, g: Graph, seeds: set<string>, h: nat, maxTables: nat)
    requires Descending(scored) && scored != [] && maxTables > 0 && Seeds(scored, seeds)
    ensures var r := Shortlist(scored, Ball(g, seeds, h), maxTables); r != [] && r[0] == 0
  {
    hide Candidates;
    var c := Candidates(scored, Ball(g, seeds, h));
    if scored[0].score > 0 {
      assert IsCandidate(scored[0], Ball(g, seeds, h));
      assert 0 in c;
    } else {
      NoSeeds(scored, seeds);
      EmptyBall(g, h);
      hide Ball, Descending, Seeds;
      assert forall i: nat :: i < |scored| ==> !IsCandidate(scored[i], {});
      assert c == [];
    }
  }

  lemma NoSeeds(scored: seq<Scored>, seeds: set<string>)
    requires Descending(scored) && scored != [] && scored[0].score == 0 && Seeds(scored, seeds)
    ensures seeds == {} && forall i :: 0 <= i < |scored| ==> scored[i].score == 0
  {}

  lemma {:induction false} EmptyBall(g: Graph, h: nat)
    ensures Ball(g, {}, h) == {}
  {
    if h > 0 { EmptyBall(g, h - 1); }
  }

  // ----- the second sort -----

  ghost predicate AllBelow(s: seq<nat>, n: nat) { forall i :: 0 <= i < |s| ==> s[i] < n }

  /** The position a key is sorted by: that of the last table with it. */
  function OrderOf(scored: seq<Scored>, key: string): nat {
    if scored == [] then 0
    else if scored[|scored| - 1].key == key then |scored| - 1
    else OrderOf(scored[..|scored| - 1], key)
  }

  function Insert(scored: seq<Scored>, s: seq<nat>, x: nat): (r: seq<nat>)
    requires AllBelow(s, |scored|) && x < |scored|
    ensures AllBelow(r, |scored|) && |r| == |s| + 1 && forall i :: i in r <==> i in s || i == x
  {
    if s == [] || OrderOf(scored, scored[s[|s| - 1]].key) <= OrderOf(scored, scored[x].key) then s + [x]
    else
      var r := Insert(scored, s[..|s| - 1], x) + [s[|s| - 1]];
      assert s == s[..|s| - 1] + [s[|s| - 1]];
      r
  }

  /** The stable sort of the candidates by their keys' positions. */
  function Resorted(scored: seq<Scored>, s: seq<nat>): (r: seq<nat>)
    requires AllBelow(s, |scored|)
    ensures AllBelow(r, |scored|) && |r| == |s| && forall i :: i in r <==> i in s
  {
    if s == [] then []
    else
      assert s == s[..|s| - 1] + [s[|s| - 1]];
      Insert(scored, Resorted(scored, s[..|s| - 1]), s[|s| - 1])
  }

  ghost predicate DistinctKeys(scored: seq<Scored>) {
    forall i, j :: 0 <= i < j < |scored| ==> scored[i].key != scored[j].key
  }

  lemma {:induction false} OwnOrder(scored: seq<Scored>, i: nat)
    requires DistinctKeys(scored) && i < |scored|
    ensures OrderOf(scored, scored[i].key) == i
  {
    if i < |scored| - 1 { OwnOrder(scored[..|scored| - 1], i); }
  }

  function Place(scored: seq<Scored>, i: nat): nat
    requires i < |scored|
  {
    OrderOf(scored, scored[i].key)
  }

  /** The listed tables stand in the order of their keys' positions. */
  ghost predicate ByPlace(scored: seq<Scored>, s: seq<nat>)
    requires AllBelow(s, |scored|)
  {
    forall i, j :: 0 <= i < j < |s| ==> Place(scored, s[i]) <= Place(scored, s[j])
  }

  lemma {:induction false} InsertInOrder(scored: seq<Scored>, s: seq<nat>, x: nat)
    requires AllBelow(s, |scored|) && x < |scored| && ByPlace(scored, s)
    ensures ByPlace(scored, Insert(scored, s, x))
    decreases |s|
  {
    hide OrderOf;
    var r := Insert(scored, s, x);
    if s != [] && Place(scored, s[|s| - 1]) > Place(scored, x) {
      var front, last := s[..|s| - 1], s[|s| - 1];
      InsertInOrder(scored, front, x);
      var f := Insert(scored, front, x);
      assert r == f + [last];
      forall i | 0 <= i < |f| ensures Place(scored, f[i]) <= Place(scored, last) {
        assert f[i] in f;
        if f[i] != x {
          var k :| 0 <= k < |front| && front[k] == f[i];
        }
      }
    }
  }

  lemma {:induction false} ResortedInOrder(scored: seq<Scored>, s: seq<nat>)
    requires AllBelow(s, |scored|)
    ensures ByPlace(scored, Resorted(scored, s))
    decreases |s|
  {
    hide OrderOf, Insert;
    if s != [] {
      var front := s[..|s| - 1];
      ResortedInOrder(scored, front);
      InsertInOrder(scored, Resorted(scored, front), s[|s| - 1]);
    }
  }

  lemma InsertOnly(scored: seq<Scored>, x: nat)
    requires x < |scored|
    ensures Insert(scored, [], x) == [x]
  {}

  lemma {:induction false} SortedStays(scored: seq<Scored>, s: seq<nat>)
    requires AllBelow(s, |scored|) && ByPlace(scored, s)
    ensures Resorted(scored, s) == s
    decreases |s|
  {
    hide OrderOf, Insert;
    if s != [] {
      var front, x := s[..|s| - 1], s[|s| - 1];
      SortedStays(scored, front);
      if front != [] { InsertLast(scored, front, x); } else { InsertOnly(scored, x); }
      assert s == front + [x];
    }
  }

  /** The second sort keeps the score order exactly where the keys' positions already agree with it. */
  lemma ResortedSameIff(scored: seq<Scored>, s: seq<nat>)
    requires AllBelow(s, |scored|)
    ensures Resorted(scored, s) == s <==> ByPlace(scored, s)
  {
    ResortedInOrder(scored, s);
    if ByPlace(scored, s) { SortedStays(scored, s); }
  }

  /** With distinct keys they always do. */
  lemma DistinctByPlace(scored: seq<Scored>, s: seq<nat>)
    requires DistinctKeys(scored) && Indices(s, |scored|)
    ensures ByPlace(scored, s)
  {
    hide OrderOf, Resorted, DistinctKeys;
    forall i, j | 0 <= i < j < |s| ensures Place(scored, s[i]) <= Place(scored, s[j]) {
      OwnOrder(scored, s[i]);
      OwnOrder(scored, s[j]);
    }
  }

  /** Two tables of one key: the better one is sorted to where the worse one stands. */
  lemma DuplicateKeysReorder()
    ensures var scored := [Scored("a", 5, 0), Scored("b", 3, 0), Scored("a", 1, 0)];
            Descending(scored) && Resorted(scored, [0, 1, 2]) == [1, 0, 2]
  {
    var scored := [Scored("a", 5, 0), Scored("b", 3, 0), Scored("a", 1, 0)];
    TwoOfOneKey(scored);
    hide OrderOf;
    var s, t: seq<nat>, u: seq<nat> := [0, 1, 2], [0, 1], [0];
    assert s[..2] == t && t[..1] == u && u[..0] == [];
    InsertPast(scored, 0, 1);
    InsertLast(scored, [1, 0], 2);
    assert Resorted(scored, []) == [];
    assert Resorted(scored, u) == [0];
    assert Resorted(scored, t) == [1, 0];
  }

  lemma TwoOfOneKey(scored: seq<Scored>)
    requires |scored| == 3 && scored[0].key == scored[2].key == "a" && scored[1].key == "b"
    ensures Place(scored, 0) == 2 && Place(scored, 1) == 1 && Place(scored, 2) == 2
  {
    var two := scored[..2];
    assert |two| == 2 && two[1] == scored[1] && scored[1].key != "a" by { assert "a"[0] != "b"[0]; }
    assert OrderOf(two, "b") == 1;
  }

  /** A table that belongs last stays there. */
  lemma InsertLast(scored: seq<Scored>, s: seq<nat>, x: nat)
    requires AllBelow(s, |scored|) && x < |scored| && s != [] && Place(scored, s[|s| - 1]) <= Place(scored, x)
    ensures Insert(scored, s, x) == s + [x]
  {
    hide OrderOf;
  }

  lemma InsertPast(scored: seq<Scored>, y: nat, x: nat)
    requires y < |scored| && x < |scored| && Place(scored, y) > Place(scored, x)
    ensures Insert(scored, [y], x) == [x, y]
  {
    hide OrderOf;
    var one: seq<nat> := [y];
    assert one[..0] == [];
    assert Insert(scored, [], x) == [x];
  }

  // ----- what is kept -----

  function CostsOf(scored: seq<Scored>, short: seq<nat>): (r: seq<nat>)
    requires AllBelow(short, |scored|)
    ensures |r| == |short| && forall i :: 0 <= i < |r| ==> r[i] == scored[short[i]].cost
  {
    seq(|short|, i requires 0 <= i < |short| => scored[short[i]].cost)
  }

  function Select(short: seq<nat>, picked: seq<nat>, n: nat): (r: seq<nat>)
    requires AllBelow(short, n) && Indices(picked, |short|)
    ensures AllBelow(r, n) && |r| == |picked| && forall i :: 0 <= i < |r| ==> r[i] == short[picked[i]] && r[i] in short
  {
    seq(|picked|, i requires 0 <= i < |picked| => short[picked[i]])
  }

  /** A packing of the sorted shortlist around the closure. */
  ghost predicate Pruned(
    scored: seq<Scored>, g: Graph, seeds: set<string>, maxTables: nat, budget: nat, kept: seq<nat>, picked: seq<nat>, h: nat)
  {
    var short := Resorted(scored, Shortlist(scored, Ball(g, seeds, h), maxTables));
    && StopsAt(g, seeds, maxTables, h)
    && Packed(CostsOf(scored, short), picked, maxTables, budget)
    && kept == Select(short, picked, |scored|)
  }

  method Prune(scored: seq<Scored>, g: Graph, seeds: set<string>, maxTables: nat, maxSchemaTokens: int)
    returns (kept: seq<nat>, picked: seq<nat>, h: nat)
    ensures Pruned(scored, g, seeds, maxTables, TableBudget(maxSchemaTokens), kept, picked, h)
  {
    hide StopsAt, Ball, Shortlist, Resorted;
    var expanded;
    expanded, h := Expand(g, seeds, maxTables);
    var short := Resorted(scored, Shortlist(scored, expanded, maxTables));
    picked := Pack(CostsOf(scored, short), maxTables, TableBudget(maxSchemaTokens));
    kept := Select(short, picked, |scored|);
  }

  /** A selection of an increasing list of positions is increasing. */
  lemma SelectedIndices(short: seq<nat>, picked: seq<nat>, n: nat)
    requires Indices(short, n) && Indices(picked, |short|)
    ensures Indices(Select(short, picked, n), n)
  {}

  lemma PickedShape(costs: seq<nat>, picked: seq<nat>, maxTables: nat, budget: nat)
    requires Packed(costs, picked, maxTables, budget)
    ensures Indices(picked, |costs|) && |picked| <= maxTables
    ensures costs != [] && maxTables > 0 ==> picked != [] && picked[0] == 0
  {
    hide Missing, Charged;
  }

  /** Where the keys' positions ascend, the list that is packed is the shortlist itself. */
  lemma PrunedUnsorted(
    scored: seq<Scored>, g: Graph, seeds: set<string>, maxTables: nat, budget: nat, kept: seq<nat>, picked: seq<nat>, h: nat)
    requires Pruned(scored, g, seeds, maxTables, budget, kept, picked, h)
    requires ByPlace(scored, Shortlist(scored, Ball(g, seeds, h), maxTables))
    ensures var short := Shortlist(scored, Ball(g, seeds, h), maxTables);
            Packed(CostsOf(scored, short), picked, maxTables, budget) && kept == Select(short, picked, |scored|)
  {
    hide StopsAt, Ball, Shortlist, Resorted, Packed, ByPlace;
    SortedStays(scored, Shortlist(scored, Ball(g, seeds, h), maxTables));
  }

  /**
   * Where the keys' positions ascend along the shortlist, as with distinct keys, what is kept is a
   * score-ordered selection within the caps that holds the best table.
   */
  lemma PrunedShape(
    scored: seq<Scored>, g: Graph, seeds: set<string>, maxTables: nat, budget: nat, kept: seq<nat>, picked: seq<nat>, h: nat)
    requires Descending(scored) && Seeds(scored, seeds) && Pruned(scored, g, seeds, maxTables, budget, kept, picked, h)
    requires ByPlace(scored, Shortlist(scored, Ball(g, seeds, h), maxTables))
    ensures Indices(kept, |scored|) && |kept| <= maxTables
    ensures forall i, j :: 0 <= i < j < |kept| ==> scored[kept[i]].score >= scored[kept[j]].score
    ensures scored != [] && maxTables > 0 ==> kept != [] && kept[0] == 0
  {
    hide Pruned, Packed, Ball, Shortlist, Seeds, ByPlace, Increasing;
    PrunedUnsorted(scored, g, seeds, maxTables, budget, kept, picked, h);
    var short := Shortlist(scored, Ball(g, seeds, h), maxTables);
    PickedShape(CostsOf(scored, short), picked, maxTables, budget);
    SelectedIndices(short, picked, |scored|);
    if scored != [] && maxTables > 0 { BestFirst(scored, g, seeds, h, maxTables); }
    forall i, j | 0 <= i < j < |kept| ensures kept[i] <= kept[j] { IncreasingAt(kept, i, j); }
  }

  lemma IncreasingAt(s: seq<nat>, i: nat, j: nat)
    requires Increasing(s) && i < j < |s|
    ensures s[i] < s[j]
  {}

  // ----- from the catalog to what is kept -----

  function SeedsOf(scored: seq<Scored>): set<string> { set s | s in scored && s.score > 0 :: s.key }

  lemma SeedsOfAre(scored: seq<Scored>)
    ensures Seeds(scored, SeedsOf(scored))
  {
    forall k ensures k in SeedsOf(scored) <==> exists i :: 0 <= i < |scored| && scored[i].score > 0 && scored[i].key == k {
      if k in SeedsOf(scored) {
        var s :| s in scored && s.score > 0 && s.key == k;
        var i :| 0 <= i < |scored| && scored[i] == s;
      }
      if i :| 0 <= i < |scored| && scored[i].score > 0 && scored[i].key == k { assert scored[i] in scored; }
    }
  }

  /** A chain of foreign keys, each followed either way, of at most `d` hops. */
  ghost predicate Chain(all: seq<Table>, p: seq<string>, d: nat) {
    1 <= |p| <= d + 1 && forall i :: 0 <= i < |p| - 1 ==> Linked(all, p[i], p[i + 1])
  }

  /** A matching table lies within two foreign-key hops of the key, or nothing matches at all. */
  ghost predicate NearMatch(all: seq<Table>, scored: seq<Scored>, key: string) {
    || (exists p, i :: Chain(all, p, FK_CLOSURE_HOPS) && 0 <= i < |scored| && scored[i].score > 0 && scored[i].key == p[0]
                       && p[|p| - 1] == key)
    || forall i :: 0 <= i < |scored| ==> scored[i].score == 0
  }

  /**
   * `pruneCatalog` up to the packing: a packing of the closure of the matching tables in the graph of
   * the foreign keys; so whatever is kept is near a match, at most `maxTables` of it.
   */
  method PruneTables(all: seq<Table>, scored: seq<Scored>, maxTables: nat, maxSchemaTokens: int)
    returns (kept: seq<nat>, ghost g: Graph, ghost picked: seq<nat>, ghost h: nat)
    ensures forall a, b :: b in Adjacent(g, a) <==> Linked(all, a, b)
    ensures Pruned(scored, g, SeedsOf(scored), maxTables, TableBudget(maxSchemaTokens), kept, picked, h)
    ensures |kept| <= maxTables
    ensures forall i :: 0 <= i < |kept| ==> kept[i] < |scored| && NearMatch(all, scored, scored[kept[i]].key)
  {
    var neighbors := BuildNeighbors(all);
    var seeds := SeedsOf(scored);
    SeedsOfAre(scored);
    g := neighbors;
    kept, picked, h := Prune(scored, neighbors, seeds, maxTables, maxSchemaTokens);
    KeptInShortlist(scored, g, seeds, maxTables, TableBudget(maxSchemaTokens), kept, picked, h);
    hide Pruned, NearMatch, Linked, Shortlist, Ball, Adjacent, Seeds, SeedsOf;
    forall i | 0 <= i < |kept| ensures NearMatch(all, scored, scored[kept[i]].key) {
      ShortlistNear(all, scored, g, seeds, maxTables, h, kept[i]);
    }
  }

  lemma KeptInShortlist(
    scored: seq<Scored>, g: Graph, seeds: set<string>, maxTables: nat, budget: nat, kept: seq<nat>, picked: seq<nat>, h: nat)
    requires Pruned(scored, g, seeds, maxTables, budget, kept, picked, h)
    ensures h <= FK_CLOSURE_HOPS && |kept| <= maxTables
    ensures forall i :: 0 <= i < |kept| ==> kept[i] < |scored| && kept[i] in Shortlist(scored, Ball(g, seeds, h), maxTables)
  {
    hide Ball, Shortlist, Resorted, Missing, Charged;
  }

  lemma ShortlistNear(all: seq<Table>, scored: seq<Scored>, g: Graph, seeds: set<string>, maxTables: nat, h: nat, k: nat)
    requires forall a, b :: b in Adjacent(g, a) <==> Linked(all, a, b)
    requires Seeds(scored, seeds) && h <= FK_CLOSURE_HOPS && k < |scored| && k in Shortlist(scored, Ball(g, seeds, h), maxTables)
    ensures NearMatch(all, scored, scored[k].key)
  {
    hide Linked, Candidates, Adjacent;
    var c, key := Candidates(scored, Ball(g, seeds, h)), scored[k].key;
    if c == [] {
      forall i: nat | i < |scored| ensures scored[i].score == 0 { assert !IsCandidate(scored[i], Ball(g, seeds, h)); }
    } else if scored[k].score > 0 {
      assert Chain(all, [key], FK_CLOSURE_HOPS);
    } else {
      assert IsCandidate(scored[k], Ball(g, seeds, h));
      var p := BallHasWalk(g, seeds, h, key);
      assert Chain(all, p, FK_CLOSURE_HOPS);
      var i :| 0 <= i < |scored| && scored[i].score > 0 && scored[i].key == p[0];
    }
  }

  // ----- the numbers -----

  /** The first table is charged at most half the budget, rounded down; any other what it costs. */
  lemma ChargeMeans(cost: nat, n: nat, maxSchemaTokens: int)
    ensures var b := TableBudget(maxSchemaTokens);
            && b == (if maxSchemaTokens < 900 then 500 else maxSchemaTokens - 400)
            && Charge(cost, n, b) == (if n > 0 || 2 * cost <= b then cost else b / 2)
  {}

  /** What is packed: every matching table and every table of the closure, or, if there is none, the first ones. */
  lemma ShortlistIff(scored: seq<Scored>, expanded: set<string>, maxTables: nat, i: nat)
    requires i < |scored|
    ensures i in Shortlist(scored, expanded, maxTables) <==>
              if exists j :: 0 <= j < |scored| && (scored[j].score > 0 || scored[j].key in expanded)
              then scored[i].score > 0 || scored[i].key in expanded
              else i < maxTables
  {
    var c, n := Candidates(scored, expanded), MinOf(maxTables, |scored|);
    hide Candidates;
    if c == [] {
      forall j: nat | j < |scored| ensures !(scored[j].score > 0 || scored[j].key in expanded) {
        assert !IsCandidate(scored[j], expanded);
      }
      if i < n { assert UpTo(n)[i] == i; }
    } else {
      assert c[0] < |scored| && IsCandidate(scored[c[0]], expanded);
    }
  }

  /** A table is sorted by where the last table of its key stands. */
  lemma {:induction false} PlaceIsLast(scored: seq<Scored>, key: string)
    requires exists i :: 0 <= i < |scored| && scored[i].key == key
    ensures var p := OrderOf(scored, key);
            p < |scored| && scored[p].key == key && forall j :: p < j < |scored| ==> scored[j].key != key
  {
    var n := |scored| - 1;
    if scored[n].key != key {
      var i :| 0 <= i < |scored| && scored[i].key == key;
      assert scored[..n][i].key == key;
      PlaceIsLast(scored[..n], key);
      forall j | OrderOf(scored, key) < j < |scored| ensures scored[j].key != key {
        if j < n { assert scored[j] == scored[..n][j]; }
      }
    }
  }

  // ----- trimming columns -----

  datatype Column = Column(chars: nat, rank: nat)

  function Ceil4(n: nat): nat { (n + 3) / 4 }

  /** The columns of one rank, in declaration order. */
  function OfRank(cs: seq<Column>, r: nat): (s: seq<nat>)
    ensures Indices(s, |cs|)
    ensures forall i: nat :: i < |cs| ==> (i in s <==> cs[i].rank == r)
  {
    if cs == [] then [] else OfRank(cs[..|cs| - 1], r) + (if cs[|cs| - 1].rank == r then [|cs| - 1] else [])
  }

  /** Keys, then question matches, then the rest; within each, declaration order. */
  function Ordered(cs: seq<Column>): seq<nat> { OfRank(cs, 0) + OfRank(cs, 1) + OfRank(cs, 2) }

  predicate Precedes(cs: seq<Column>, i: nat, j: nat)
    requires i < |cs| && j < |cs|
  {
    cs[i].rank < cs[j].rank || (cs[i].rank == cs[j].rank && i < j)
  }

  ghost predicate Ranked(cs: seq<Column>) { forall i :: 0 <= i < |cs| ==> cs[i].rank <= 2 }

  lemma OfRankMembers(cs: seq<Column>, r: nat)
    ensures forall i :: 0 <= i < |OfRank(cs, r)| ==> OfRank(cs, r)[i] < |cs| && cs[OfRank(cs, r)[i]].rank == r
  {
    var s := OfRank(cs, r);
    assert forall i :: 0 <= i < |s| ==> s[i] in s;
  }

  /** The order is by rank and index, and holds every column exactly once. */
  lemma OrderedSorted(cs: seq<Column>)
    requires Ranked(cs)
    ensures forall i :: 0 <= i < |Ordered(cs)| ==> Ordered(cs)[i] < |cs|
    ensures forall i, j :: 0 <= i < j < |Ordered(cs)| ==> Precedes(cs, Ordered(cs)[i], Ordered(cs)[j])
    ensures forall i: nat :: i < |cs| ==> i in Ordered(cs)
  {
    hide OfRank;
    OfRankMembers(cs, 0);
    OfRankMembers(cs, 1);
    OfRankMembers(cs, 2);
  }

  /** The charge of the first `n` columns in order. */
  function Spent(cs: seq<Column>, order: seq<nat>, n: nat): nat
    requires n <= |order| && forall i :: 0 <= i < |order| ==> order[i] < |cs|
  {
    if n == 0 then 0 else Spent(cs, order, n - 1) + Ceil4(cs[order[n - 1]].chars)
  }

  /** The characters of the first `n` columns in order. */
  function Chars(cs: seq<Column>, order: seq<nat>, n: nat): nat
    requires n <= |order| && forall i :: 0 <= i < |order| ==> order[i] < |cs|
  {
    if n == 0 then 0 else Chars(cs, order, n - 1) + cs[order[n - 1]].chars
  }

  /** Charging every column rounded up is never less than estimating the table as a whole. */
  lemma {:induction false} ChargeCoversEstimate(base: nat, cs: seq<Column>, order: seq<nat>, n: nat)
    requires n <= |order| && forall i :: 0 <= i < |order| ==> order[i] < |cs|
    ensures Ceil4(base + Chars(cs, order, n)) <= Ceil4(base) + Spent(cs, order, n)
  {
    if n > 0 { ChargeCoversEstimate(base, cs, order, n - 1); }
  }

  function AllChars(cs: seq<Column>): nat { if cs == [] then 0 else AllChars(cs[..|cs| - 1]) + cs[|cs| - 1].chars }

  /** The indices in a set, in declaration order. */
  function InOrder(n: nat, kept: set<nat>): (r: seq<nat>)
    ensures Indices(r, n)
    ensures forall i: nat :: i < n ==> (i in r <==> i in kept)
  {
    if n == 0 then [] else InOrder(n - 1, kept) + (if n - 1 in kept then [n - 1] else [])
  }

  ghost function FirstOf(order: seq<nat>, k: nat): set<nat>
    requires k <= |order|
  {
    set i | 0 <= i < k :: order[i]
  }

  lemma AllFirst(cs: seq<Column>, i: nat)
    requires Ranked(cs) && i < |cs|
    ensures |Ordered(cs)| == |cs| && i in FirstOf(Ordered(cs), |cs|) && i in UpTo(|cs|)
  {
    OrderedSorted(cs);
    OrderedLength(cs);
    hide Ordered;
    assert i in Ordered(cs);
    assert UpTo(|cs|)[i] == i;
  }

  /** Takes columns in order: twelve in any case, then while they fit. */
  method TakeColumns(base: nat, cs: seq<Column>, order: seq<nat>, budget: nat) returns (kept: set<nat>, k: nat)
    requires forall i :: 0 <= i < |order| ==> order[i] < |cs|
    requires forall i, j :: 0 <= i < j < |order| ==> order[i] != order[j]
    ensures k <= |order| && kept == FirstOf(order, k)
    ensures k < |order| ==> k >= MIN_COLUMNS_KEPT && Ceil4(base) + Spent(cs, order, k) + Ceil4(cs[order[k]].chars) > budget
    ensures k > MIN_COLUMNS_KEPT ==> Ceil4(base) + Spent(cs, order, k) <= budget
  {
    hide Ceil4, Spent;
    assert Spent(cs, order, 0) == 0 by { SpentNothing(cs, order); }
    kept, k := {}, 0;
    var used := Ceil4(base);
    while k < |order|
      invariant k <= |order| && kept == FirstOf(order, k) && |kept| == k
      invariant used == Ceil4(base) + Spent(cs, order, k)
      invariant k > MIN_COLUMNS_KEPT ==> used <= budget
    {
      var i := order[k];
      var cost := Ceil4(cs[i].chars);
      if |kept| >= MIN_COLUMNS_KEPT && used + cost > budget { break; }
      SpentStep(cs, order, k);
      kept, used, k := kept + {i}, used + cost, k + 1;
    }
  }

  /**
   * The columns shown: all of them if the table fits or is narrow; otherwise the first `k` in
   * order, put back in declaration order, at least twelve, as many as fit, and never more than
   * twelve unless they fit.
   */
  method TrimColumns(base: nat, cs: seq<Column>, budget: nat) returns (shown: seq<nat>, k: nat)
    requires Ranked(cs)
    ensures k <= |cs| == |Ordered(cs)| && (forall i :: 0 <= i < |cs| ==> Ordered(cs)[i] < |cs|)
    ensures Indices(shown, |cs|) && forall i: nat :: i < |cs| ==> (i in shown <==> i in FirstOf(Ordered(cs), k))
    ensures Ceil4(base + AllChars(cs)) <= budget || |cs| <= MIN_COLUMNS_KEPT ==> k == |cs|
    ensures k < |cs| ==> k >= MIN_COLUMNS_KEPT
    ensures k < |cs| ==> Ceil4(base) + Spent(cs, Ordered(cs), k) + Ceil4(cs[Ordered(cs)[k]].chars) > budget
    ensures Ceil4(base + AllChars(cs)) > budget && k > MIN_COLUMNS_KEPT ==>
              Ceil4(base + Chars(cs, Ordered(cs), k)) <= Ceil4(base) + Spent(cs, Ordered(cs), k) <= budget
  {
    OrderedSorted(cs);
    OrderedLength(cs);
    hide Ordered, Spent, Chars, AllChars, Ceil4, FirstOf;
    if Ceil4(base + AllChars(cs)) <= budget || |cs| <= MIN_COLUMNS_KEPT {
      k := |cs|;
      shown := UpTo(|cs|);
      forall i: nat | i < |cs| ensures i in shown && i in FirstOf(Ordered(cs), k) { AllFirst(cs, i); }
      return;
    }
    var kept;
    kept, k := TakeColumns(base, cs, Ordered(cs), budget);
    ChargeCoversEstimate(base, cs, Ordered(cs), k);
    shown := InOrder(|cs|, kept);
  }

  lemma SpentNothing(cs: seq<Column>, order: seq<nat>)
    requires forall i :: 0 <= i < |order| ==> order[i] < |cs|
    ensures Spent(cs, order, 0) == 0
  {}

  lemma SpentStep(cs: seq<Column>, order: seq<nat>, n: nat)
    requires n < |order| && forall i :: 0 <= i < |order| ==> order[i] < |cs|
    requires forall i, j :: 0 <= i < j < |order| ==> order[i] != order[j]
    ensures Spent(cs, order, n + 1) == Spent(cs, order, n) + Ceil4(cs[order[n]].chars)
    ensures FirstOf(order, n + 1) == FirstOf(order, n) + {order[n]} && order[n] !in FirstOf(order, n)
  {}

  lemma OrderedLength(cs: seq<Column>)
    requires Ranked(cs)
    ensures |Ordered(cs)| == |cs|
  {
    OfRankLengths(cs);
  }

  lemma {:induction false} OfRankLengths(cs: seq<Column>)
    requires Ranked(cs)
    ensures |OfRank(cs, 0)| + |OfRank(cs, 1)| + |OfRank(cs, 2)| == |cs|
  {
    if cs != [] { OfRankLengths(cs[..|cs| - 1]); }
  }
}
