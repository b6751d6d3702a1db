/**
 * The row cap from the guard to the reader: what a second guarding does to the result, how the
 * connector clips, and when the reader is told that rows are missing.  The database is any function
 * from statements to rows in which a statement's own limit takes a prefix.
 */
module RowCap {
  import opened Text
  import opened Scanner
  import opened ScannerLaws
  import opened LimitText
  import opened LimitRewrite
  import opened LimitMisses
  import opened GuardLimit

  // ----- numbers as JavaScript has them -----

  datatype Number = Real(r: real) | PosInf | NegInf | NaN

  /** `Math.min(x, n)`. */
  function MinWith(x: Number, n: nat): Number {
    match x
    case NaN => NaN
    case PosInf => Real(n as real)
    case NegInf => NegInf
    case Real(r) => if r < n as real then x else Real(n as real)
  }

  /** `n > x`. */
  predicate Exceeds(n: nat, x: Number) { x.NegInf? || (x.Real? && n as real > x.r) }

  /** `n >= x`. */
  predicate Reaches(n: nat, x: Number) { x.NegInf? || (x.Real? && n as real >= x.r) }

  /** Truncation toward zero. */
  function Truncate(r: real): int { if r >= 0.0 then r.Floor else -((-r).Floor) }

  /** How many elements `slice(0, x)` keeps of `n`: a negative end counts from the back. */
  function SliceEnd(n: nat, x: Number): (r: nat)
    ensures r <= n
  {
    match x
    case NaN => 0
    case PosInf => n
    case NegInf => 0
    case Real(r) =>
      var end := Truncate(r);
      if end >= 0 then (if end < n then end else n) else if n + end > 0 then n + end else 0
  }

  const MAX_ROW_CAP := 100_000

  /** `clampMaxRows`. */
  function ClampMaxRows(requested: Option<Number>, fallback: nat): nat {
    if requested.Some? && requested.value.Real? && requested.value.r >= 1.0
    then (if requested.value.r.Floor < MAX_ROW_CAP then requested.value.r.Floor else MAX_ROW_CAP)
    else fallback
  }

  /** Whatever is asked for, the policy's cap is a positive integer, at most 100000, and no more than asked. */
  lemma ClampedPolicy(requested: Option<Number>, fallback: nat)
    requires 1 <= fallback <= MAX_ROW_CAP
    ensures 1 <= ClampMaxRows(requested, fallback) <= MAX_ROW_CAP
    ensures requested.Some? && requested.value.Real? && requested.value.r >= 1.0 ==>
              ClampMaxRows(requested, fallback) as real <= requested.value.r
  {}

  /** Exactly: what is asked, rounded down and at most 100000, if it is a number from one up; the fallback otherwise. */
  lemma ClampExact(requested: Option<Number>, fallback: nat)
    ensures var r := ClampMaxRows(requested, fallback);
            if requested.Some? && requested.value.Real? && requested.value.r >= 1.0 then
              r <= 100_000 && r as real <= requested.value.r && (r == 100_000 || requested.value.r < (r + 1) as real)
            else r == fallback
  {}

  // ----- execution -----

  datatype Result<Row> = Result(rows: seq<Row>, truncated: bool)

  /** A connector clips what it fetched. */
  function Clip<Row>(raw: seq<Row>, maxRows: Number): Result<Row> {
    var truncated := Exceeds(|raw|, maxRows);
    Result(if truncated then raw[..SliceEnd(|raw|, maxRows)] else raw, truncated)
  }

  /** The caller's cap, never above the policy's. */
  function CappedMax(asked: Option<Number>, max: nat): Number {
    MinWith(if asked.Some? then asked.value else Real(max as real), max)
  }

  datatype Outcome<Row> = Refused | Ran(result: Result<Row>)

  /** A server: the parser, the engine, the policy's cap and what the database holds. */
  datatype Setting<!Row> = Setting(parser: Parser, engine: Engine, max: nat, db: string -> seq<Row>)

  /** `executeGuarded`: `prior` says whether the ask-time verdict added or lowered a limit. */
  function ExecuteGuarded<Row>(c: Setting<Row>, sql: string, asked: Option<Number>, prior: bool): Outcome<Row> {
    var v := Guard(c.parser, c.engine, sql, c.max);
    if v.Blocked? then Refused
    else
      var cap := CappedMax(asked, c.max);
      var got := Clip(c.db(v.sql), cap);
      Ran(Result(got.rows, got.truncated || ((Limited(v) || prior) && Reaches(|got.rows|, cap))))
  }

  function AskVerdict<Row>(c: Setting<Row>, s: string): Verdict { Guard(c.parser, c.engine, s, c.max) }

  /** `run()` of an answer: the guarded statement, with or without the ask-time verdict. */
  function RunAnswer<Row>(c: Setting<Row>, s: string, asked: Option<Number>, keepVerdict: bool): Outcome<Row> {
    var v := AskVerdict(c, s);
    if v.Blocked? then Refused else ExecuteGuarded(c, v.sql, asked, keepVerdict && Limited(v))
  }

  /** What the statement selects without the guard's cap. */
  function Selected<Row>(c: Setting<Row>, s: string): seq<Row> { c.db(Body(c.engine, s)) }

  /** The database honours limits, and the guard's edit is of the statement's own clause. */
  ghost predicate Sound<Row(!new)>(c: Setting<Row>, s: string) {
    && LimitIsPrefix(c.parser, c.engine, c.db) && Lawful(c.parser, c.engine)
    && Hits(c.parser, c.engine, Body(c.engine, s), c.max)
  }

  // ----- properties -----

  /** What reaches the connector, and what it was told. */
  lemma Executed<Row(!new)>(c: Setting<Row>, s: string, asked: Option<Number>, keep: bool)
    requires Sound(c, s) && AskVerdict(c, s).Allowed?
    ensures var v, cap := AskVerdict(c, s), CappedMax(asked, c.max);
            var raw := if Limited(v) then Take(Selected(c, s), c.max) else Selected(c, s);
            var got := Clip(raw, cap);
            RunAnswer(c, s, asked, keep) ==
              Ran(Result(got.rows, got.truncated || (keep && Limited(v) && Reaches(|got.rows|, cap))))
  {
    hide Hits, Lawful, LimitIsPrefix, Guard, Body;
    GuardTwice(c.parser, c.engine, s, c.max);
    GuardedRows(c.parser, c.engine, c.db, s, c.max);
  }

  /** Nothing runs exactly when one of the two guardings blocks. */
  lemma RefusedIff<Row>(c: Setting<Row>, s: string, asked: Option<Number>, keep: bool)
    ensures RunAnswer(c, s, asked, keep).Refused? <==>
              AskVerdict(c, s).Blocked? || AskVerdict(c, AskVerdict(c, s).sql).Blocked?
    ensures ExecuteGuarded(c, s, asked, keep).Refused? <==> AskVerdict(c, s).Blocked?
  {
    hide Guard;
  }

  ghost predicate SilentlyCut<Row>(c: Setting<Row>, s: string, o: Outcome<Row>) {
    o.Ran? && o.result.rows != Selected(c, s) && !o.result.truncated
  }

  /** Rows are only ever missing from the end. */
  lemma PrefixOnly<Row(!new)>(c: Setting<Row>, s: string, asked: Option<Number>, keep: bool)
    requires Sound(c, s)
    ensures var o := RunAnswer(c, s, asked, keep); o.Ran? ==> o.result.rows <= Selected(c, s)
  {
    hide Sound, Guard, Body;
    if AskVerdict(c, s).Allowed? { Executed(c, s, asked, keep); }
  }

  /** Clipping keeps fewer rows than it was given. */
  lemma SliceShortens(n: nat, x: Number)
    requires Exceeds(n, x)
    ensures n > 0 ==> SliceEnd(n, x) < n
  {}

  /** With the verdict kept, `truncated` is exactly "the cap was exceeded, or reached under a limit we wrote". */
  lemma TruncatedIff<Row(!new)>(c: Setting<Row>, s: string, asked: Option<Number>)
    requires Sound(c, s) && AskVerdict(c, s).Allowed? && !CappedMax(asked, c.max).NaN?
    ensures var o, cap, n := RunAnswer(c, s, asked, true), CappedMax(asked, c.max), |Selected(c, s)|;
            o.Ran? && (o.result.truncated <==> if Limited(AskVerdict(c, s)) then Reaches(n, cap) else Exceeds(n, cap))
  {
    hide Sound, Guard, Body;
    Executed(c, s, asked, true);
  }

  /**
   * Exactly when rows go missing unsaid, once the edit is of the own clause: the guard capped the
   * statement, it selects more than the cap, and either the caller's cap is not a number, or the
   * ask-time verdict was dropped and the caller's cap does not bite first.
   */
  lemma SilentIff<Row(!new)>(c: Setting<Row>, s: string, asked: Option<Number>, keep: bool)
    requires Sound(c, s)
    ensures SilentlyCut(c, s, RunAnswer(c, s, asked, keep)) <==>
              && Limited(AskVerdict(c, s)) && |Selected(c, s)| > c.max
              && (var cap := CappedMax(asked, c.max); cap.NaN? || (!keep && cap == Real(c.max as real)))
  {
    hide Sound, Guard, Body;
    if AskVerdict(c, s).Allowed? {
      Executed(c, s, asked, keep);
      var cap := CappedMax(asked, c.max);
      var raw := if Limited(AskVerdict(c, s)) then Take(Selected(c, s), c.max) else Selected(c, s);
      if Exceeds(|raw|, cap) { SliceShortens(|raw|, cap); }
    }
  }

  /** An answer's `run()` never cuts silently, whatever number the caller asks for, if the edit hits. */
  lemma NeverSilentlyCut<Row(!new)>(c: Setting<Row>, s: string, asked: Option<Number>)
    requires Sound(c, s) && (asked.Some? ==> !asked.value.NaN?)
    ensures !SilentlyCut(c, s, RunAnswer(c, s, asked, true))
  {
    hide Sound, SilentlyCut, Guard, Body, RunAnswer;
    SilentIff(c, s, asked, true);
  }

  /** How many rows reach the reader, for any statement and database: the cap holds exactly here. */
  lemma BoundedIff<Row>(c: Setting<Row>, sql: string, asked: Option<Number>, prior: bool)
    requires AskVerdict(c, sql).Allowed?
    ensures var o, cap, n := ExecuteGuarded(c, sql, asked, prior), CappedMax(asked, c.max), |c.db(AskVerdict(c, sql).sql)|;
            o.Ran? && (|o.result.rows| <= c.max <==>
              n <= c.max || (!cap.NaN? && (cap.Real? && cap.r <= -1.0 ==> n - (-cap.r).Floor <= c.max)))
  {
    hide Guard;
  }

  /** Asked for -1 rows, a statement that returns more than the policy allows loses just its last row. */
  lemma NegativeCapLeaks<Row>(c: Setting<Row>, sql: string, prior: bool)
    requires AskVerdict(c, sql).Allowed? && |c.db(AskVerdict(c, sql).sql)| > c.max + 1
    ensures var rows, o := c.db(AskVerdict(c, sql).sql), ExecuteGuarded(c, sql, Some(Real(-1.0)), prior);
            o.Ran? && o.result.rows == rows[..|rows| - 1] && |o.result.rows| > c.max
  {
    hide Guard;
    assert (1.0).Floor == 1;
  }

  /**
   * What is delivered: asked for `k` rows, or not asked, the first rows of the statement, at most `k`
   * and at most the policy's cap.
   */
  lemma RowsDelivered<Row(!new)>(c: Setting<Row>, s: string, asked: Option<nat>, keep: bool)
    requires Sound(c, s) && AskVerdict(c, s).Allowed?
    ensures var k := if asked.Some? && asked.value < c.max then asked.value else c.max;
            var a := match asked case None => None case Some(n) => Some(Real(n as real));
            var o := RunAnswer(c, s, a, keep);
            o.Ran? && o.result.rows == Take(Selected(c, s), k)
  {
    hide Sound, Guard, Body;
    var a := match asked case None => None case Some(n) => Some(Real(n as real));
    Executed(c, s, a, keep);
  }

  // ----- an edit that misses -----

  /** `SELECT * FROM (SELECT * FROM t LIMIT ALL) s WHERE s.x = 1 LIMIT ALL`, and what two guardings make of it. */
  function Nested(inner: string, outer: string): string { SUBQUERY + "LIMIT " + inner + (OUTER + "LIMIT " + outer) }

  lemma NestedText(inner: string)
    ensures Nested("ALL", "ALL") == SUBQUERY + ALL_CLAUSE + OUTER + ALL_CLAUSE
    ensures Nested(inner, "ALL") == SUBQUERY + "LIMIT " + inner + OUTER + ALL_CLAUSE
    ensures Nested(inner, "ALL") == SUBQUERY + "LIMIT " + inner + (OUTER + ALL_CLAUSE)
  {
    assert "LIMIT " + "ALL" == ALL_CLAUSE;
  }

  /** A mild text that starts and ends in a word is a body of its own. */
  lemma MildBody(e: Engine, s: string)
    requires AllMild(s) && s != "" && IsWord(s[0]) && IsWord(s[|s| - 1])
    ensures Body(e, s) == s
  {
    MildEnds(TrimRules(e), false, s);
    TrimmedIff(TrimRules(e), s);
    BodyOf(e, s);
  }

  /** The parser sees a plain statement with the limit the text shows. */
  predicate Plainly(p: Parser, e: Engine, s: string) { !p.explain(s) && !p.branches(s) && Agrees(p, ScanRules(e), s) }

  lemma NestedMild()
    ensures var s := Nested("ALL", "ALL"); AllMild(s) && s != "" && IsWord(s[0]) && IsWord(s[|s| - 1])
  {
    NestedText("ALL");
    SubqueryMild();
    ClauseMild();
  }

  /** A plain statement whose limit is ALL is rewritten at its first raw match. */
  lemma GuardAll(p: Parser, e: Engine, s: string, max: nat)
    requires e != Oracle && Plainly(p, e, s) && s != "" && Body(e, s) == s && StatementLimit(ScanRules(e), s).All?
    ensures Guard(p, e, s, max) == Rewrite(RewriteFirst(s, max))
  {
    hide Body, StatementLimit, RewriteFirst, RewriteAt;
  }

  lemma FirstGuarding(p: Parser, e: Engine, max: nat)
    requires e != Oracle && Plainly(p, e, Nested("ALL", "ALL"))
    ensures Body(e, Nested("ALL", "ALL")) == Nested("ALL", "ALL")
    ensures Guard(p, e, Nested("ALL", "ALL"), max) == Allowed(Nested(Numeral(max), "ALL"), false, true)
  {
    hide Body, StatementLimit, RewriteFirst, Numeral, Nested, Guard, Plainly, AllMild, IsWord, Own, Mask;
    var s := Nested("ALL", "ALL");
    NestedMild();
    MildBody(e, s);
    NestedText(Numeral(max));
    SubqueryIsRewritten(ScanRules(e), max);
    GuardAll(p, e, s, max);
  }

  lemma SecondGuarding(p: Parser, e: Engine, max: nat)
    requires e != Oracle && Plainly(p, e, Nested(Numeral(max), "ALL"))
    ensures Guard(p, e, Nested(Numeral(max), "ALL"), max) == Allowed(Nested(Numeral(max), Numeral(max)), false, true)
  {
    hide Body, StatementLimit, FirstAll, Guard, Plainly, Numeral;
    var d := Numeral(max);
    var t := Nested(d, "ALL");
    NumeralRoundTrip(max);
    NestedText(d);
    CappedSubquery(ScanRules(e), d);
    assert t[0] == SUBQUERY[0] && t[|t| - 1] == ALL_CLAUSE[8];
    MildBody(e, t);
    assert t[..|t| - 3] == SUBQUERY + "LIMIT " + d + (OUTER + "LIMIT ") && t[|t| - 3 + 3..] == "";
    assert Splice(t, |t| - 3, 3, d) == Nested(d, d);
    GuardAll(p, e, t, max);
  }
}
