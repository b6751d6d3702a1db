/** Statements whose `LIMIT ALL` rewrite edits something other than their own clause. */
module LimitMisses {
  import opened Text
  import opened Scanner
  import opened ScannerLaws
  import opened LimitText
  import opened LimitLaws
  import opened SpliceLaws
  import opened LimitRewrite

  const ALL_CLAUSE := "LIMIT ALL"

  // ----- texts without quotes and comments -----

  /** No character that can open a span. */
  predicate Mild(c: char) {
    c != '\'' && c != '"' && c != '`' && c != '[' && c != '$' && c != '-' && c != '#' && c != '/'
  }

  ghost predicate AllMild(s: string) { forall i :: 0 <= i < |s| ==> Mild(s[i]) }

  lemma {:induction false} MildIsItsMask(x: Rules, g: bool, w: string)
    requires AllMild(w)
    ensures Render(true, Lex(x, g, w)) == w
    decreases |w|
  {
    hide Lex;
    if w == [] {
      LexEmpty(x, g);
    } else {
      assert Tok(x, g, w) == Token(Plain, 1, true) by { MildToken(x, g, w); }
      hide Tok;
      MaskStep(x, g, w);
      MildIsItsMask(x, Glues(w[0]), w[1..]);
    }
  }

  lemma MildToken(x: Rules, g: bool, w: string)
    requires w != [] && AllMild(w)
    ensures Tok(x, g, w) == Token(Plain, 1, true)
  {
    hide Lit, Find, Block, LineLen, TagLen;
    if |w| > 1 { assert Mild(w[1]); }
  }

  // ----- a trailing LIMIT ALL is the own clause -----

  lemma ClauseTail(q: string, i: nat)
    requires 0 < i < 9
    ensures !LimitWord(q + ALL_CLAUSE, |q| + i)
  {
    var m := q + ALL_CLAUSE;
    assert m[|q| + i] == ALL_CLAUSE[i];
    if i == 7 { assert m[|q| + i..] == "LL"; }
    if i == 8 { assert m[|q| + i..] == "L"; }
    if i < 7 { NotL(m, |q| + i); }
  }

  lemma {:induction false} ScanTail(q: string, k: nat)
    requires 0 < k <= 9 && q != [] && (IsSpace(q[|q| - 1]) || q[|q| - 1] == ')') && Depth(q) == 0
    ensures ScanLimit(q + ALL_CLAUSE, |q| + k) == LimitScan(0, |q|)
    decreases k
  {
    hide LimitWord, ScanLimit;
    var m := q + ALL_CLAUSE;
    ScanUnfold(m, |q| + k);
    assert m[|q| + k - 1] == ALL_CLAUSE[k - 1];
    if k == 1 {
      ScanDepth(m, |q|);
      assert m[..|q|] == q;
      ClauseHead(q);
    } else {
      ScanTail(q, k - 1);
      ClauseTail(q, k - 1);
    }
  }

  lemma ClauseHead(q: string)
    requires q != [] && (IsSpace(q[|q| - 1]) || q[|q| - 1] == ')')
    ensures LimitWord(q + ALL_CLAUSE, |q|)
  {
    var m := q + ALL_CLAUSE;
    assert m[|q|..] == ALL_CLAUSE && m[|q| + 5] == ALL_CLAUSE[5] && m[|q| - 1] == q[|q| - 1];
  }

  lemma ClauseIsAll()
    ensures LimitAll(ALL_CLAUSE) && SpaceLen(ALL_CLAUSE[5..]) == 1
  {
    assert ALL_CLAUSE[5..] == " ALL" && ALL_CLAUSE[5..][1..] == "ALL";
  }

  /** Behind balanced visible text, a trailing `LIMIT ALL` is the statement's own clause. */
  lemma TailIsOwn(x: Rules, s: string, q: string)
    requires Mask(x, s) == q + ALL_CLAUSE && q != [] && (IsSpace(q[|q| - 1]) || q[|q| - 1] == ')') && Depth(q) == 0
    ensures StatementLimit(x, s) == All(|q|) && Own(Mask(x, s)) == Some(Span(|q| + 6, 3))
  {
    hide Lex, Render, ScanLimit, LimitAll, MatchHere;
    var m := Mask(x, s);
    ScanTail(q, 9);
    ClauseIsAll();
    assert m[|q|..] == ALL_CLAUSE;
    StatementReads(x, s);
  }

  // ----- the first raw match -----

  ghost predicate NoI(s: string) { forall i :: 0 <= i < |s| ==> s[i] != 'i' && s[i] != 'I' }

  lemma IsI(c: char)
    ensures LowChar(c) == 'i' <==> c == 'i' || c == 'I'
  {
    if 'A' <= c <= 'Z' { assert LowChar(c) as int == c as int + 32; }
  }

  /** Without the letter `i` nothing in front of the clause can match. */
  lemma {:induction false} FirstBehind(g: bool, p: string, rest: string)
    requires NoI(p) && p != [] && !IsWord(p[|p| - 1])
    requires rest != [] && LowChar(rest[0]) == 'l' && RawAll(false, rest).Some?
    ensures FirstAll(g, p + rest) == Some(|p| + RawAll(false, rest).value)
    decreases |p|
  {
    hide RawAll, FirstAll, NoI, IsWord, LowChar;
    var w := p + rest;
    NoIStep(g, p, rest);
    FirstUnfold(g, w);
    if |p| > 1 { FirstBehind(IsWord(p[0]), p[1..], rest); } else { assert w[1..] == rest; RawFirst(rest); }
  }

  lemma NotLimitAt(g: bool, w: string)
    requires w != [] && (|w| > 1 ==> LowChar(w[1]) != 'i')
    ensures RawAll(g, w).None?
  {}

  /**
   * Two `LIMIT ALL` clauses in a text without quotes and comments, balanced around the first, which
   * is the first raw match: the rewrite edits it, and it is not the statement's own.
   */
  lemma FirstOfTwoIsRewritten(x: Rules, p: string, m: string, n: nat)
    requires AllMild(p) && AllMild(m) && m != [] && (IsSpace(m[|m| - 1]) || m[|m| - 1] == ')')
    requires Depth(p + ALL_CLAUSE + m) == 0 && FirstAll(false, p + ALL_CLAUSE + m + ALL_CLAUSE) == Some(|p| + 6)
    ensures var s := p + ALL_CLAUSE + m + ALL_CLAUSE;
            && StatementLimit(x, s) == All(|s| - 9) && Own(Mask(x, s)) == Some(Span(|s| - 3, 3))
            && RewriteFirst(s, n) == Some(p + "LIMIT " + Numeral(n) + (m + ALL_CLAUSE))
            && RewriteFirst(s, n) != Some(OwnEdit(x, s, n))
  {
    hide Lex, Render, StatementLimit, Own, Depth, RawAll, FirstAll, Numeral, NoI, IsWord, IsSpace;
    var q := p + ALL_CLAUSE + m;
    var s := q + ALL_CLAUSE;
    ClauseMild();
    MildIsItsMask(x, false, s);
    TailIsOwn(x, s, q);
    RewriteHitsIff(x, s, n);
    assert s[..|p| + 6] == p + "LIMIT " && s[|p| + 9..] == m + ALL_CLAUSE;
  }

  lemma FirstOfTwo(p: string, m: string)
    requires NoI(p) && p != [] && !IsWord(p[|p| - 1]) && m != [] && !IsWord(m[0])
    ensures FirstAll(false, p + ALL_CLAUSE + m + ALL_CLAUSE) == Some(|p| + 6)
  {
    hide RawAll, FirstAll;
    var rest := ALL_CLAUSE + m + ALL_CLAUSE;
    ClauseMatches(rest, m);
    assert p + ALL_CLAUSE + m + ALL_CLAUSE == p + rest;
    FirstBehind(false, p, rest);
  }

  lemma ClauseMild()
    ensures AllMild(ALL_CLAUSE)
  {}

  lemma ClauseMatches(rest: string, m: string)
    requires rest == ALL_CLAUSE + m + ALL_CLAUSE && m != [] && !IsWord(m[0])
    ensures RawAll(false, rest) == Some(6) && LowChar(rest[0]) == 'l'
  {
    assert rest[5..] == " ALL" + m + ALL_CLAUSE;
    assert rest[5..][1..][0] == 'A' && !IsSpace('A');
    assert rest[9] == m[0];
  }

  // ----- a subquery's clause -----

  lemma {:induction false} DepthConcat(a: string, b: string)
    ensures Depth(a + b) == Depth(a) + Depth(b)
    decreases |b|
  {
    if b == [] {
      assert a + b == a;
    } else {
      assert (a + b)[..|a + b| - 1] == a + b[..|b| - 1];
      DepthConcat(a, b[..|b| - 1]);
    }
  }

  lemma {:induction false} FlatDepth(s: string)
    requires forall i :: 0 <= i < |s| ==> s[i] != '(' && s[i] != ')'
    ensures Depth(s) == 0
    decreases |s|
  {
    if s != [] { FlatDepth(s[..|s| - 1]); }
  }

  const SUBQUERY := "SELECT * FROM (SELECT * FROM t "
  const OUTER := ") s WHERE s.x = 1 "

  lemma SubqueryDepth()
    ensures Depth(SUBQUERY + ALL_CLAUSE + OUTER) == 0
  {
    hide Depth;
    var a, b, c := "SELECT * FROM ", "SELECT * FROM t ", " s WHERE s.x = 1 ";
    assert SUBQUERY == a + "(" + b && OUTER == ")" + c;
    FlatDepth(a);
    FlatDepth(b);
    FlatDepth(c);
    FlatDepth(ALL_CLAUSE);
    DepthConcat(a, "(");
    DepthConcat(a + "(", b);
    DepthConcat(")", c);
    DepthConcat(SUBQUERY, ALL_CLAUSE);
    DepthConcat(SUBQUERY + ALL_CLAUSE, OUTER);
    ParenDepth();
  }

  lemma ParenDepth()
    ensures Depth("(") == 1 && Depth(")") == -1
  {
    assert "("[..0] == [] && ")"[..0] == [];
  }

  /**
   * `SELECT * FROM (SELECT * FROM t LIMIT ALL) s WHERE s.x = 1 LIMIT ALL`: the subquery is capped,
   * the statement is not.
   */
  lemma SubqueryIsRewritten(x: Rules, n: nat)
    ensures var s := SUBQUERY + ALL_CLAUSE + OUTER + ALL_CLAUSE;
            && StatementLimit(x, s) == All(|s| - 9)
            && RewriteFirst(s, n) == Some(SUBQUERY + "LIMIT " + Numeral(n) + (OUTER + ALL_CLAUSE))
            && RewriteFirst(s, n) != Some(OwnEdit(x, s, n))
  {
    hide StatementLimit, Depth, RewriteFirst, Numeral, Own, FirstAll;
    SubqueryDepth();
    SubqueryMild();
    FirstOfTwo(SUBQUERY, OUTER);
    FirstOfTwoIsRewritten(x, SUBQUERY, OUTER, n);
  }

  lemma SubqueryMild()
    ensures AllMild(SUBQUERY) && AllMild(OUTER) && NoI(SUBQUERY)
    ensures !IsWord(SUBQUERY[|SUBQUERY| - 1]) && !IsWord(OUTER[0]) && IsSpace(OUTER[|OUTER| - 1])
  {}

  // ----- a literal -----

  lemma {:induction false} LitCloses(a: string, rest: string)
    requires (forall i :: 0 <= i < |a| ==> a[i] != '\'' && a[i] != '\\') && (rest == [] || rest[0] != '\'')
    ensures forall bs :: Lit(a + "'" + rest, '\'', bs, true) == Reach(|a| + 1, true)
    decreases |a|
  {
    if a == [] {
      assert a + "'" + rest == ['\''] + rest;
      LitClose('\'', rest, true, true);
      LitClose('\'', rest, false, true);
    } else {
      LitCloses(a[1..], rest);
      assert a + "'" + rest == [a[0]] + (a[1..] + "'" + rest);
      LitPass(a[0], a[1..] + "'" + rest, '\'', true, true);
      LitPass(a[0], a[1..] + "'" + rest, '\'', false, true);
    }
  }

  lemma QuoteToken(x: Rules, a: string, rest: string)
    requires (forall i :: 0 <= i < |a| ==> a[i] != '\'' && a[i] != '\\') && (rest == [] || rest[0] != '\'')
    ensures Tok(x, false, "'" + a + "'" + rest) == Token(Quote, |a| + 2, true)
  {
    hide Lit, Find, Block, LineLen, TagLen;
    var w := "'" + a + "'" + rest;
    LitCloses(a, rest);
    assert w[1..] == a + "'" + rest;
  }

  /** Mild text in front of a literal is its own mask. */
  lemma {:induction false} MildFront(x: Rules, g: bool, p: string, w: string)
    requires AllMild(p) && w != [] && w[0] == '\'' && (if p == [] then !g else !IsWord(p[|p| - 1]))
    ensures Render(true, Lex(x, g, p + w)) == p + Render(true, Lex(x, false, w))
    decreases |p|
  {
    hide Lex, Render;
    var s := p + w;
    if p == [] {
      assert s == w;
    } else {
      assert Tok(x, g, s) == Token(Plain, 1, true) by { FrontToken(x, g, p, w); }
      hide Tok;
      MaskStep(x, g, s);
      assert s[1..] == p[1..] + w && s[0] == p[0];
      MildGlue(p[0]);
      MildFront(x, Glues(p[0]), p[1..], w);
    }
  }

  lemma MildGlue(c: char)
    requires Mild(c)
    ensures Glues(c) == IsWord(c)
  {}

  lemma FrontToken(x: Rules, g: bool, p: string, w: string)
    requires AllMild(p) && p != [] && w != [] && w[0] == '\'' && (|p| == 1 ==> !IsWord(p[0]))
    ensures Tok(x, g, p + w) == Token(Plain, 1, true)
  {
    hide Lit, Find, Block, LineLen, TagLen;
    var s := p + w;
    assert s[0] == p[0] && Mild(s[0]);
    if |p| > 1 { assert s[1] == p[1] && Mild(s[1]); } else { assert s[1] == w[0]; }
  }

  const LITERAL := "'limit all'"

  /**
   * A literal that spells `limit all`, the only quotes of its statement and the first raw match: it
   * is edited, so the data changes, and no row is capped.
   */
  lemma LiteralIsRewritten(x: Rules, p: string, m: string, n: nat)
    requires AllMild(p) && (p != [] ==> !IsWord(p[|p| - 1]))
    requires AllMild(m) && m != [] && (IsSpace(m[|m| - 1]) || m[|m| - 1] == ')') && Depth(p + m) == 0
    requires FirstAll(false, p + LITERAL + m + ALL_CLAUSE) == Some(|p| + 7)
    ensures var s := p + LITERAL + m + ALL_CLAUSE;
            && StatementLimit(x, s) == All(|s| - 9)
            && RewriteFirst(s, n) == Some(p + "'limit " + Numeral(n) + ("'" + m + ALL_CLAUSE))
            && RewriteFirst(s, n) != Some(OwnEdit(x, s, n))
  {
    hide Lex, Render, StatementLimit, Own, RawAll, FirstAll, Numeral, Depth;
    var s, q := p + LITERAL + m + ALL_CLAUSE, p + Spaces(11) + m;
    LiteralMask(x, p, m);
    assert Depth(q) == 0 by {
      FlatDepth(Spaces(11));
      DepthConcat(p, Spaces(11));
      DepthConcat(p + Spaces(11), m);
      DepthConcat(p, m);
    }
    TailIsOwn(x, s, q);
    RewriteHitsIff(x, s, n);
    assert s[..|p| + 7] == p + "'limit " && s[|p| + 10..] == "'" + m + ALL_CLAUSE;
  }

  lemma LiteralMask(x: Rules, p: string, m: string)
    requires AllMild(p) && AllMild(m) && m != [] && (p != [] ==> !IsWord(p[|p| - 1]))
    ensures Mask(x, p + LITERAL + m + ALL_CLAUSE) == p + Spaces(11) + m + ALL_CLAUSE
  {
    hide Lex, Tok, Render;
    var rest := m + ALL_CLAUSE;
    var w := LITERAL + rest;
    ClauseMild();
    assert LITERAL == "'" + "limit all" + "'";
    QuoteToken(x, "limit all", rest);
    MaskStep(x, false, w);
    assert w[11..] == rest && w[10] == LITERAL[10];
    MildIsItsMask(x, Glues(w[10]), rest);
    MildFront(x, false, p, w);
    assert p + LITERAL + m + ALL_CLAUSE == p + w;
    assert p + (Spaces(11) + rest) == p + Spaces(11) + m + ALL_CLAUSE;
  }

  lemma LiteralMatch(p: string, m: string)
    requires NoI(p)
    ensures FirstAll(false, p + LITERAL + m + ALL_CLAUSE) == Some(|p| + 7)
  {
    hide FirstAll;
    var rest := LITERAL[1..] + m + ALL_CLAUSE;
    assert rest[5] == ' ' && rest[6] == 'a' && rest[7] == 'l' && rest[8] == 'l' && rest[9] == '\'';
    assert rest[5..][0] == ' ' && rest[5..][1..][0] == 'a';
    assert RawAll(false, rest) == Some(6);
    FirstBehind(false, p + "'", rest);
    assert p + LITERAL + m + ALL_CLAUSE == (p + "'") + rest;
  }

  const SELECTING := "SELECT "
  const FROM_T := " FROM t "

  /** `SELECT 'limit all' FROM t LIMIT ALL` returns another value in every row. */
  lemma SelectedLiteral(x: Rules, n: nat)
    ensures var s := SELECTING + LITERAL + FROM_T + ALL_CLAUSE;
            && StatementLimit(x, s) == All(|s| - 9)
            && RewriteFirst(s, n) == Some(SELECTING + "'limit " + Numeral(n) + ("'" + FROM_T + ALL_CLAUSE))
            && RewriteFirst(s, n) != Some(OwnEdit(x, s, n))
  {
    hide StatementLimit, RewriteFirst, Own, Numeral, Depth, FirstAll;
    SelectingMild();
    LiteralMatch(SELECTING, FROM_T);
    LiteralIsRewritten(x, SELECTING, FROM_T, n);
  }

  lemma SelectingMild()
    ensures AllMild(SELECTING) && NoI(SELECTING) && AllMild(FROM_T) && Depth(SELECTING + FROM_T) == 0
    ensures !IsWord(SELECTING[|SELECTING| - 1]) && IsSpace(FROM_T[|FROM_T| - 1])
  {
    hide Depth;
    FlatDepth(SELECTING);
    FlatDepth(FROM_T);
    DepthConcat(SELECTING, FROM_T);
  }

  // ----- after the subquery was capped -----

  lemma {:induction false} MildEnds(x: Rules, g: bool, w: string)
    requires AllMild(w) && w != [] && IsWord(w[|w| - 1])
    ensures !EndsInNoise(Lex(x, g, w))
    decreases |w|
  {
    hide Lex, EndsInNoise, Tok;
    MildToken(x, g, w);
    NoiseStep(x, g, w);
    if |w| > 1 { MildEnds(x, Glues(w[0]), w[1..]); }
  }

  ghost predicate NoL(s: string) { forall i :: 0 <= i < |s| ==> s[i] != 'l' && s[i] != 'L' }

  lemma NotLFirst(g: bool, w: string)
    requires w != [] && w[0] != 'l' && w[0] != 'L'
    ensures RawAll(g, w).None?
  {
    if 'A' <= w[0] <= 'Z' { assert LowChar(w[0]) as int == w[0] as int + 32; }
  }

  lemma NoLStep(g: bool, p: string, rest: string)
    requires NoL(p) && p != []
    ensures var w := p + rest;
            w != [] && w[0] == p[0] && w[1..] == p[1..] + rest && NoL(p[1..]) && RawAll(g, w).None?
            && (if |p| > 1 then p[1..][|p[1..]| - 1] == p[|p| - 1] else w[1..] == rest)
  {
    NotLFirst(g, p + rest);
  }

  lemma {:induction false} FirstBehindNoL(g: bool, p: string, rest: string)
    requires NoL(p) && p != [] && !IsWord(p[|p| - 1]) && RawAll(false, rest).Some?
    ensures FirstAll(g, p + rest) == Some(|p| + RawAll(false, rest).value)
    decreases |p|
  {
    hide RawAll, FirstAll, NoL, IsWord;
    var w := p + rest;
    NoLStep(g, p, rest);
    FirstUnfold(g, w);
    if |p| > 1 { FirstBehindNoL(IsWord(p[0]), p[1..], rest); } else { RawFirst(rest); }
  }

  lemma RawFirst(rest: string)
    requires RawAll(false, rest).Some?
    ensures rest != [] && FirstAll(false, rest) == RawAll(false, rest)
  {}

  lemma FirstUnfold(g: bool, w: string)
    requires w != []
    ensures FirstAll(g, w) == if RawAll(g, w).Some? then RawAll(g, w) else Ahead(FirstAll(IsWord(w[0]), w[1..]), 1)
  {}

  lemma NoIStep(g: bool, p: string, rest: string)
    requires NoI(p) && p != [] && rest != [] && LowChar(rest[0]) == 'l'
    ensures var w := p + rest;
            w != [] && w[0] == p[0] && w[1..] == p[1..] + rest && NoI(p[1..]) && RawAll(g, w).None?
            && (if |p| > 1 then p[1..][|p[1..]| - 1] == p[|p| - 1] else p[1..] == [])
  {
    var w := p + rest;
    IsI(w[1]);
    NotLimitAt(g, w);
  }

  /** A count in place of the first ALL is passed over. */
  lemma {:induction false} FirstPastCount(g: bool, p: string, rest: string)
    requires NoI(p) && (if p == [] then !g else !IsWord(p[|p| - 1])) && rest != [] && LowChar(rest[0]) == 'l' && RawAll(false, rest).None?
    ensures FirstAll(g, p + rest) == Ahead(FirstAll(true, rest[1..]), |p| + 1)
    decreases |p|
  {
    hide RawAll, FirstAll, NoI;
    var w := p + rest;
    FirstUnfold(g, w);
    if p == [] {
      assert w == rest;
    } else {
      NoIStep(g, p, rest);
      FirstPastCount(IsWord(p[0]), p[1..], rest);
    }
  }

  /** With the first ALL replaced by a count, the statement's own ALL is the first one. */
  lemma SecondIsFirst(x: Rules, p: string, m: string, d: string)
    requires d != [] && AllDigits(d) && AllMild(p) && AllMild(m) && NoI(p) && NoL(m) && p != [] && m != []
    requires !IsWord(p[|p| - 1]) && IsSpace(m[|m| - 1]) && !IsWord(m[|m| - 1]) && Depth(p + "LIMIT " + d + m) == 0
    ensures var s := p + "LIMIT " + d + m + ALL_CLAUSE;
            && AllMild(s) && StatementLimit(x, s) == All(|s| - 9) && FirstAll(false, s) == Some(|s| - 3)
  {
    hide Lex, Render, StatementLimit, Own, Depth, RawAll, FirstAll;
    var q := p + "LIMIT " + d + m;
    var s := q + ALL_CLAUSE;
    ClauseMild();
    CountMild(d);
    AllMildConcat(p, "LIMIT " + d, m);
    assert p + ("LIMIT " + d) + m == q;
    MildIsItsMask(x, false, s);
    TailIsOwn(x, s, q);
    SecondFirst(p, m, d);
  }

  lemma AllMildConcat(a: string, b: string, c: string)
    requires AllMild(a) && AllMild(b) && AllMild(c)
    ensures AllMild(a + b + c + ALL_CLAUSE)
  {
    ClauseMild();
  }

  lemma SecondFirst(p: string, m: string, d: string)
    requires d != [] && AllDigits(d) && NoI(p) && NoL(m) && p != [] && m != []
    requires !IsWord(p[|p| - 1]) && !IsWord(m[|m| - 1])
    ensures var s := p + "LIMIT " + d + m + ALL_CLAUSE; FirstAll(false, s) == Some(|s| - 3)
  {
    hide RawAll, FirstAll, AllDigits;
    var mid, rest := "IMIT " + d + m, "LIMIT " + d + m + ALL_CLAUSE;
    assert p + "LIMIT " + d + m + ALL_CLAUSE == p + rest;
    CountIsNotAll(rest, d, m);
    FirstPastCount(false, p, rest);
    assert rest[1..] == mid + ALL_CLAUSE;
    MidHasNoL(d, m);
    ClauseRaw();
    FirstBehindNoL(true, mid, ALL_CLAUSE);
  }

  /** Once the subquery is capped, the statement's own ALL is the first one. */
  lemma CappedSubquery(x: Rules, d: string)
    requires d != [] && AllDigits(d)
    ensures var s := SUBQUERY + "LIMIT " + d + OUTER + ALL_CLAUSE;
            && AllMild(s) && StatementLimit(x, s) == All(|s| - 9) && FirstAll(false, s) == Some(|s| - 3)
  {
    hide StatementLimit, Depth, FirstAll, AllMild, NoI;
    SubqueryMild();
    OuterHasNoL();
    CappedDepth(d);
    SecondIsFirst(x, SUBQUERY, OUTER, d);
  }

  lemma OuterHasNoL()
    ensures NoL(OUTER) && !IsWord(OUTER[|OUTER| - 1])
  {}

  lemma CountMild(d: string)
    requires AllDigits(d)
    ensures AllMild("LIMIT " + d)
  {
    forall i | 0 <= i < |"LIMIT " + d| ensures Mild(("LIMIT " + d)[i]) { if i >= 6 { assert ("LIMIT " + d)[i] == d[i - 6]; } }
  }

  lemma MidHasNoL(d: string, m: string)
    requires AllDigits(d) && NoL(m) && m != [] && !IsWord(m[|m| - 1])
    ensures var mid := "IMIT " + d + m; NoL(mid) && mid != [] && !IsWord(mid[|mid| - 1])
  {
    var mid := "IMIT " + d + m;
    forall i | 0 <= i < |mid| ensures mid[i] != 'l' && mid[i] != 'L' {
      if 5 <= i < 5 + |d| { assert mid[i] == d[i - 5]; }
      if i >= 5 + |d| { assert mid[i] == m[i - 5 - |d|]; }
    }
    assert mid[|mid| - 1] == m[|m| - 1];
  }

  lemma CountIsNotAll(rest: string, d: string, m: string)
    requires d != [] && AllDigits(d) && rest == "LIMIT " + d + m + ALL_CLAUSE
    ensures RawAll(false, rest).None? && rest[0] == 'L'
  {
    assert rest[6] == d[0] && rest[5..][0] == ' ' && rest[5..][1..][0] == d[0];
    SpaceOrDigit(d[0]);
    assert SpaceLen(rest[5..]) == 1;
  }

  lemma ClauseRaw()
    ensures RawAll(false, ALL_CLAUSE) == Some(6)
  {
    ClauseIsAll();
  }

  lemma CappedDepth(d: string)
    requires AllDigits(d)
    ensures Depth(SUBQUERY + "LIMIT " + d + OUTER) == 0
  {
    hide Depth;
    var a, b, c := "SELECT * FROM ", "SELECT * FROM t ", " s WHERE s.x = 1 ";
    assert SUBQUERY == a + "(" + b && OUTER == ")" + c;
    FlatDepth(a);
    FlatDepth(b);
    FlatDepth(c);
    FlatDepth("LIMIT ");
    FlatDepth(d);
    ParenDepth();
    DepthConcat(a, "(");
    DepthConcat(a + "(", b);
    DepthConcat(")", c);
    DepthConcat(SUBQUERY, "LIMIT ");
    DepthConcat(SUBQUERY + "LIMIT ", d);
    DepthConcat(SUBQUERY + "LIMIT " + d, OUTER);
  }
}
