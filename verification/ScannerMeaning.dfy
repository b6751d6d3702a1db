/**
 * What the scanner's answers mean, position by position: what stripped text shows, when it holds a
 * second statement, and where each kind of span ends.
 */
module ScannerMeaning {
  import opened Text
  import opened Scanner
  import opened ScannerLaws

  // ----- stripped text -----

  /** The hidden span that starts at position `i`, if one does. */
  ghost function SpanAt(x: Rules, g: bool, w: string, i: nat): Option<Kind>
    requires i < |w|
    decreases |w|
  {
    var t := Tok(x, g, w);
    if i == 0 then (if t.kind == Plain then None else Some(t.kind))
    else if i < t.len then None
    else SpanAt(x, Glues(w[t.len - 1]), w[t.len..], i - t.len)
  }

  lemma SpanStep(x: Rules, g: bool, w: string, i: nat)
    requires i < |w|
    ensures var t := Tok(x, g, w);
            SpanAt(x, g, w, i) ==
              if i == 0 then (if t.kind == Plain then None else Some(t.kind))
              else if i < t.len then None
              else SpanAt(x, Glues(w[t.len - 1]), w[t.len..], i - t.len)
  {
    hide Tok;
  }

  /** What is left of a hidden span: a blank, or the quote of a quoted identifier between blanks. */
  function Trace(k: Kind): string {
    match k case DoubleQuote => " \" " case Backtick => " ` " case _ => " "
  }

  /** What stripped text shows of position `i`: an ordinary character itself, a span's trace at its start. */
  ghost function Left(x: Rules, g: bool, w: string, i: nat): string
    requires i < |w|
  {
    if Visible(x, g, w, i) then [w[i]] else match SpanAt(x, g, w, i) case Some(k) => Trace(k) case None => ""
  }

  /** Of the positions from `i` on. */
  ghost function LeftFrom(x: Rules, g: bool, w: string, i: nat): string
    requires i <= |w|
    decreases |w| - i
  {
    if i == |w| then "" else Left(x, g, w, i) + LeftFrom(x, g, w, i + 1)
  }

  lemma LeftStep(x: Rules, g: bool, w: string, i: nat)
    requires i < |w|
    ensures var t := Tok(x, g, w);
            Left(x, g, w, i) ==
              if i >= t.len then Left(x, Glues(w[t.len - 1]), w[t.len..], i - t.len)
              else if i > 0 then ""
              else if t.kind == Plain then [w[0]] else Trace(t.kind)
  {
    hide Tok, Visible, SpanAt;
    VisibleStep(x, g, w, i);
    SpanStep(x, g, w, i);
  }

  /** Behind the first token, the text goes on as a text of its own. */
  lemma {:induction false} LeftBehind(x: Rules, g: bool, w: string, i: nat)
    requires w != [] && Tok(x, g, w).len <= i <= |w|
    ensures var t := Tok(x, g, w);
            LeftFrom(x, g, w, i) == LeftFrom(x, Glues(w[t.len - 1]), w[t.len..], i - t.len)
    decreases |w| - i
  {
    hide Tok, Left;
    if i < |w| {
      LeftStep(x, g, w, i);
      LeftBehind(x, g, w, i + 1);
    }
  }

  /** Within the first token, past its start, there is nothing to show. */
  lemma {:induction false} LeftInside(x: Rules, g: bool, w: string, i: nat)
    requires w != [] && 0 < i <= Tok(x, g, w).len
    ensures LeftFrom(x, g, w, i) == LeftFrom(x, g, w, Tok(x, g, w).len)
    decreases Tok(x, g, w).len - i
  {
    hide Tok, Left;
    if i < Tok(x, g, w).len {
      LeftStep(x, g, w, i);
      LeftInside(x, g, w, i + 1);
      assert "" + LeftFrom(x, g, w, i + 1) == LeftFrom(x, g, w, i + 1);
    }
  }

  lemma StripStep(x: Rules, g: bool, w: string)
    requires w != []
    ensures var t := Tok(x, g, w);
            Render(false, Lex(x, g, w)) ==
              (if t.kind == Plain then [w[0]] else Trace(t.kind)) + Render(false, Lex(x, Glues(w[t.len - 1]), w[t.len..]))
  {
    hide Tok, Lex;
    LexStep(x, g, w);
  }

  /**
   * Stripped text is the ordinary characters in order, each hidden span replaced by a blank, or by
   * the quote of a quoted identifier between blanks.
   */
  lemma {:induction false} StripFaithful(x: Rules, g: bool, w: string)
    ensures Render(false, Lex(x, g, w)) == LeftFrom(x, g, w, 0)
    decreases |w|
  {
    hide Tok, Lex, Left, LeftFrom, Render, Visible, SpanAt;
    if w == [] {
      LexEmpty(x, g);
      assert Render(false, End) == LeftFrom(x, g, w, 0) by { EmptyLeft(x, g); }
    } else {
      var t := Tok(x, g, w);
      StripStep(x, g, w);
      LeftUnfold(x, g, w);
      StripFaithful(x, Glues(w[t.len - 1]), w[t.len..]);
      LeftStep(x, g, w, 0);
      LeftInside(x, g, w, 1);
      LeftBehind(x, g, w, t.len);
    }
  }

  /** Text without spans strips to itself. */
  lemma SpanlessStrips(x: Rules, w: string)
    requires forall i :: 0 <= i < |w| ==> Visible(x, false, w, i)
    ensures Render(false, Lex(x, false, w)) == w
  {
    hide Visible;
    StripFaithful(x, false, w);
    AllLeft(x, w, 0);
    assert w[0..] == w;
  }

  lemma {:induction false} AllLeft(x: Rules, w: string, i: nat)
    requires i <= |w| && forall j :: 0 <= j < |w| ==> Visible(x, false, w, j)
    ensures LeftFrom(x, false, w, i) == w[i..]
    decreases |w| - i
  {
    hide Visible, SpanAt;
    if i < |w| {
      AllLeft(x, w, i + 1);
      assert w[i..] == [w[i]] + w[i + 1..];
    }
  }

  // ----- a second statement -----

  /** Position `i` counts as something: an ordinary significant character, or a quoted identifier. */
  ghost predicate Counts(x: Rules, w: string, i: nat)
    requires i < |w|
  {
    (Visible(x, false, w, i) && Significant(w[i])) || SpanAt(x, false, w, i) == Some(DoubleQuote)
    || SpanAt(x, false, w, i) == Some(Backtick)
  }

  ghost predicate Separates(x: Rules, w: string, i: nat)
    requires i < |w|
  {
    Visible(x, false, w, i) && w[i] == ';'
  }

  /** A character of stripped text and the position it is left of. */
  lemma {:induction false} LeftOf(x: Rules, w: string, i: nat, k: nat) returns (j: nat, d: nat)
    requires i <= |w| && k < |LeftFrom(x, false, w, i)|
    ensures i <= j < |w| && d < |Left(x, false, w, j)| && LeftFrom(x, false, w, i)[k] == Left(x, false, w, j)[d]
    ensures k == |LeftFrom(x, false, w, i)| - |LeftFrom(x, false, w, j)| + d
    decreases |w| - i
  {
    hide Left;
    var n := |Left(x, false, w, i)|;
    if k < n {
      j, d := i, k;
    } else {
      j, d := LeftOf(x, w, i + 1, k - n);
    }
  }

  /** And back. */
  lemma {:induction false} LeftAt(x: Rules, w: string, i: nat, j: nat, d: nat)
    requires i <= j < |w| && d < |Left(x, false, w, j)|
    ensures var k := |LeftFrom(x, false, w, i)| - |LeftFrom(x, false, w, j)| + d;
            0 <= k < |LeftFrom(x, false, w, i)| && LeftFrom(x, false, w, i)[k] == Left(x, false, w, j)[d]
    decreases j - i
  {
    hide Left;
    if i < j { LeftAt(x, w, i + 1, j, d); }
  }

  lemma {:induction false} LeftShrinks(x: Rules, w: string, i: nat, j: nat)
    requires i < j <= |w|
    ensures |LeftFrom(x, false, w, i)| >= |Left(x, false, w, i)| + |LeftFrom(x, false, w, j)|
    decreases j - i
  {
    hide Left;
    if i + 1 < j { LeftShrinks(x, w, i + 1, j); }
  }

  /** Separators and significant characters of stripped text are left of such positions. */
  lemma LeftMeans(x: Rules, w: string, j: nat, d: nat)
    requires j < |w| && d < |Left(x, false, w, j)|
    ensures Left(x, false, w, j)[d] == ';' ==> Separates(x, w, j) && |Left(x, false, w, j)| == 1
    ensures Significant(Left(x, false, w, j)[d]) ==> Counts(x, w, j)
  {
    hide Visible, SpanAt;
  }

  /** A position that counts leaves a significant character. */
  lemma CountsLeaves(x: Rules, w: string, j: nat) returns (d: nat)
    requires j < |w| && Counts(x, w, j)
    ensures d < |Left(x, false, w, j)| && Significant(Left(x, false, w, j)[d])
  {
    if Visible(x, false, w, j) { VisibleNoSpan(x, false, w, j); }
    hide Visible, SpanAt;
    d := if Visible(x, false, w, j) then 0 else 1;
  }

  lemma {:induction false} VisibleNoSpan(x: Rules, g: bool, w: string, i: nat)
    requires i < |w| && Visible(x, g, w, i)
    ensures SpanAt(x, g, w, i).None?
    decreases |w|
  {
    hide Tok, Visible, SpanAt;
    VisibleStep(x, g, w, i);
    SpanStep(x, g, w, i);
    var t := Tok(x, g, w);
    if i >= t.len { VisibleNoSpan(x, Glues(w[t.len - 1]), w[t.len..], i - t.len); }
  }

  /** A separator with something that counts behind it. */
  ghost predicate TwoStatements(x: Rules, w: string) {
    exists i, j :: 0 <= i < j < |w| && Separates(x, w, i) && Counts(x, w, j)
  }

  lemma TwoFromStripped(x: Rules, w: string, p: nat, q: nat)
    requires var r := LeftFrom(x, false, w, 0); p < q < |r| && r[p] == ';' && Significant(r[q])
    ensures TwoStatements(x, w)
  {
    hide Separates, Counts, Left, LeftFrom;
    var i, d := LeftOf(x, w, 0, p);
    var j, b := LeftOf(x, w, 0, q);
    LeftMeans(x, w, i, d);
    LeftMeans(x, w, j, b);
    if j < i { LeftShrinks(x, w, j, i); }
    assert i < j;
  }

  lemma StrippedFromTwo(x: Rules, w: string) returns (p: nat, q: nat)
    requires TwoStatements(x, w)
    ensures var r := LeftFrom(x, false, w, 0); p < q < |r| && r[p] == ';' && Significant(r[q])
  {
    hide Counts, LeftFrom, Visible, SpanAt;
    var i, j :| 0 <= i < j < |w| && Separates(x, w, i) && Counts(x, w, j);
    var d := CountsLeaves(x, w, j);
    LeftAt(x, w, 0, i, 0);
    LeftAt(x, w, 0, j, d);
    LeftShrinks(x, w, i, j);
    p := |LeftFrom(x, false, w, 0)| - |LeftFrom(x, false, w, i)|;
    q := |LeftFrom(x, false, w, 0)| - |LeftFrom(x, false, w, j)| + d;
  }

  lemma FirstLeft(x: Rules, w: string)
    requires w != []
    ensures Left(x, false, w, 0) != "" && LeftFrom(x, false, w, 0) != "" && LeftFrom(x, false, w, 0)[0] == Left(x, false, w, 0)[0]
    ensures Left(x, false, w, 0)[0] == ';' <==> Separates(x, w, 0)
  {
    LeftStep(x, false, w, 0);
    VisibleStep(x, false, w, 0);
    hide Tok, Visible, SpanAt;
  }

  lemma NothingCounts(x: Rules, w: string)
    ensures var r := LeftFrom(x, false, w, 0);
            (forall q :: 0 <= q < |r| ==> !Significant(r[q])) <==> (forall j :: 0 <= j < |w| ==> !Counts(x, w, j))
  {
    hide Counts, LeftFrom, Left;
    var r := LeftFrom(x, false, w, 0);
    if j :| 0 <= j < |w| && Counts(x, w, j) {
      var d := CountsLeaves(x, w, j);
      LeftAt(x, w, 0, j, d);
    }
    if q :| 0 <= q < |r| && Significant(r[q]) {
      var j, d := LeftOf(x, w, 0, q);
      LeftMeans(x, w, j, d);
    }
  }

  /**
   * The stripped text of a statement holds a second one exactly when an ordinary `;` of the statement
   * has a significant ordinary character or a quoted identifier somewhere behind it, or when the
   * statement starts with `;` and nothing of it counts.
   */
  lemma MultipleIff(x: Rules, w: string)
    ensures Multiple(Render(false, Lex(x, false, w))) <==>
              || TwoStatements(x, w)
              || (w != [] && Separates(x, w, 0) && forall j :: 0 <= j < |w| ==> !Counts(x, w, j))
  {
    hide Lex, Render, Counts, Separates, LeftFrom, Left, Significant;
    StripFaithful(x, false, w);
    var r := LeftFrom(x, false, w, 0);
    if TwoStatements(x, w) { var p, q := StrippedFromTwo(x, w); }
    if p, q :| 0 <= p < q < |r| && r[p] == ';' && Significant(r[q]) { TwoFromStripped(x, w, p, q); }
    NothingCounts(x, w);
    if w != [] { FirstLeft(x, w); } else { EmptyLeft(x, false); }
  }

  lemma EmptyLeft(x: Rules, g: bool)
    ensures LeftFrom(x, g, [], 0) == [] == Render(false, End)
  {}

  lemma LeftUnfold(x: Rules, g: bool, w: string)
    requires w != []
    ensures LeftFrom(x, g, w, 0) == Left(x, g, w, 0) + LeftFrom(x, g, w, 1)
  {
    hide Left;
  }

  /** The two calls of the guard together. */
  method HoldsTwoStatements(s: string, e: Engine) returns (r: bool)
    ensures var x := ScanRules(e);
            r <==> TwoStatements(x, s) || (s != [] && Separates(x, s, 0) && forall j :: 0 <= j < |s| ==> !Counts(x, s, j))
  {
    hide Lex, Render, Multiple, TwoStatements, Counts, Separates;
    var stripped := Scan(s, e, false);
    r := HasMultipleStatements(stripped);
    MultipleIff(ScanRules(e), s);
  }

  // ----- where spans end -----

  predicate At(w: string, p: string, k: nat) { k + |p| <= |w| && w[k..k + |p|] == p }

  /** The first occurrence. */
  ghost predicate FirstAt(w: string, p: string, k: nat) { At(w, p, k) && forall i :: 0 <= i < k ==> !At(w, p, i) }

  lemma {:induction false} FindIsFirst(w: string, p: string)
    ensures match Find(w, p) case Some(k) => FirstAt(w, p, k) case None => forall i :: 0 <= i <= |w| ==> !At(w, p, i)
    decreases |w|
  {
    hide Find;
    if w == [] { FindNone(p); } else {
      FindUnfold(w, p);
      FindIsFirst(w[1..], p);
      forall i: nat | 0 < i <= |w| ensures At(w, p, i) == At(w[1..], p, i - 1) { AtShift(w, p, i); }
      assert At(w, p, 0) <==> p <= w;
    }
  }

  lemma AtShift(w: string, p: string, i: nat)
    requires 0 < i <= |w|
    ensures At(w, p, i) == At(w[1..], p, i - 1)
  {
    if i + |p| <= |w| { SliceShift(w, i, i + |p|); }
  }

  lemma SliceShift(w: string, i: nat, j: nat)
    requires 0 < i <= j <= |w|
    ensures w[1..][i - 1..j - 1] == w[i..j]
  {}

  lemma FindNone(p: string)
    ensures Find([], p) == if p == [] then Some(0) else None
  {}

  lemma {:induction false} LineIsFirst(w: string)
    ensures var n := LineLen(w); (n < |w| ==> IsNewline(w[n])) && forall i :: 0 <= i < n ==> !IsNewline(w[i])
  {
    if w != [] && !IsNewline(w[0]) { LineIsFirst(w[1..]); }
  }

  /** Behind an odd run of backslashes, where a backslash escapes. */
  predicate Escaped(w: string, bs: bool, i: nat)
    requires i <= |w|
  {
    bs && i > 0 && w[i - 1] == '\\' && !Escaped(w, bs, i - 1)
  }

  /** The quotes among the first `n` characters that are not escaped. */
  function QuotesIn(w: string, q: char, bs: bool, n: nat): nat
    requires n <= |w|
  {
    if n == 0 then 0 else QuotesIn(w, q, bs, n - 1) + (if w[n - 1] == q && !Escaped(w, bs, n - 1) then 1 else 0)
  }

  /** A quote that ends the literal: not escaped, the odd one of its run, and the last of that run. */
  predicate Ends(w: string, q: char, bs: bool, k: nat)
    requires k < |w|
  {
    && w[k] == q && !Escaped(w, bs, k) && QuotesIn(w, q, bs, k + 1) % 2 == 1
    && (k + 1 == |w| || w[k + 1] != q)
  }

  /** A literal reaches to the first quote that ends it, or to the end of the text. */
  ghost predicate Reaches(w: string, q: char, bs: bool, r: Reach) {
    if r.closed then
      && 0 < r.len <= |w| && Ends(w, q, bs, r.len - 1) && forall k :: 0 <= k < r.len - 1 ==> !Ends(w, q, bs, k)
    else r.len == |w| && forall k :: 0 <= k < |w| ==> !Ends(w, q, bs, k)
  }

  /** Between the units of a literal: nothing is pending, and nothing before ends it. */
  ghost predicate Between(w: string, q: char, bs: bool, j: nat) {
    j <= |w| && !Escaped(w, bs, j) && QuotesIn(w, q, bs, j) % 2 == 0 && forall k :: 0 <= k < j ==> !Ends(w, q, bs, k)
  }

  lemma EscapedPair(w: string, q: char, bs: bool, j: nat)
    requires Between(w, q, bs, j) && j + 1 < |w| && bs && w[j] == '\\' && q != '\\'
    ensures Between(w, q, bs, j + 2)
  {
    assert Escaped(w, bs, j + 1);
  }

  lemma LoneEscape(w: string, q: char, bs: bool, j: nat)
    requires Between(w, q, bs, j) && j + 1 == |w| && w[j] != q
    ensures forall k :: 0 <= k < |w| ==> !Ends(w, q, bs, k)
  {}

  lemma DoubledPair(w: string, q: char, bs: bool, j: nat)
    requires Between(w, q, bs, j) && j + 1 < |w| && w[j] == q && w[j + 1] == q && q != '\\'
    ensures Between(w, q, bs, j + 2)
  {
    assert !Escaped(w, bs, j + 1);
  }

  lemma OtherChar(w: string, q: char, bs: bool, j: nat)
    requires Between(w, q, bs, j) && j < |w| && w[j] != q && !(bs && w[j] == '\\')
    ensures Between(w, q, bs, j + 1)
  {}

  lemma ClosingQuote(w: string, q: char, bs: bool, j: nat)
    requires Between(w, q, bs, j) && j < |w| && w[j] == q && (j + 1 == |w| || w[j + 1] != q)
    ensures Ends(w, q, bs, j) && forall k :: 0 <= k < j ==> !Ends(w, q, bs, k)
  {}

  lemma {:induction false} LitFrom(w: string, q: char, bs: bool, j: nat)
    requires Between(w, q, bs, j) && q != '\\'
    ensures Reaches(w, q, bs, Lit(w[j..], q, bs, true).Shift(j))
    decreases |w| - j
  {
    hide Lit, Escaped, QuotesIn, Ends;
    var u := w[j..];
    if u == [] {
      LitEmpty(q, bs, true);
    } else {
      LitUnfold(u, q, bs, true);
      if |u| > 1 { assert u[1] == w[j + 1]; }
      if bs && w[j] == '\\' {
        if |u| > 1 {
          EscapedPair(w, q, bs, j);
          LitFrom(w, q, bs, j + 2);
          assert w[j + 2..] == u[2..];
        } else {
          LoneEscape(w, q, bs, j);
        }
      } else if w[j] == q && |u| > 1 && w[j + 1] == q {
        DoubledPair(w, q, bs, j);
        LitFrom(w, q, bs, j + 2);
        assert w[j + 2..] == u[2..];
      } else if w[j] != q {
        OtherChar(w, q, bs, j);
        LitFrom(w, q, bs, j + 1);
        assert w[j + 1..] == u[1..];
      } else {
        ClosingQuote(w, q, bs, j);
      }
    }
  }

  /** A quoted literal ends at the first quote that is neither escaped nor part of a doubled one. */
  lemma LitMeans(w: string, q: char, bs: bool)
    requires q != '\\'
    ensures Reaches(w, q, bs, Lit(w, q, bs, true))
  {
    assert w[0..] == w;
    LitFrom(w, q, bs, 0);
  }

  /** Without doubling or escapes, at the first one. */
  lemma {:induction false} LitFirst(w: string, q: char)
    ensures var r := Lit(w, q, false, false);
            if r.closed then 0 < r.len <= |w| && w[r.len - 1] == q && forall k :: 0 <= k < r.len - 1 ==> w[k] != q
            else r.len == |w| && forall k :: 0 <= k < |w| ==> w[k] != q
  {
    if w != [] && w[0] != q { LitFirst(w[1..], q); }
  }

  /** A block that closes with its text closes there whatever follows. */
  lemma {:induction false} BlockGoesOn(u: string, rest: string, e: nat, d: nat)
    requires e > 0 && Block(u, e) == Reach(|u|, true)
    ensures Block(u + rest, e + d) == Block(rest, d).Shift(|u|)
    decreases |u|
  {
    hide Block;
    if u == [] {
      BlockOpen(e);
    } else {
      var v := u + rest;
      BlockUnfold(u, e);
      BlockUnfold(v, e + d);
      var opens, closes := u[0] == '/' && Next(u, '*'), u[0] == '*' && Next(u, '/');
      if opens {
        assert v[2..] == u[2..] + rest;
        BlockGoesOn(u[2..], rest, e + 1, d);
      } else if closes {
        assert v[2..] == u[2..] + rest;
        if e > 1 { BlockGoesOn(u[2..], rest, e - 1, d); } else {
          BlockDone(u[2..]);
          assert u[2..] == [] && u[2..] + rest == rest;
        }
      } else {
        if |u| == 1 { BlockOpen(e); }
        assert v[1..] == u[1..] + rest && v[1] == u[1];
        BlockGoesOn(u[1..], rest, e, d);
      }
    }
  }

  /** A comment inside a comment is passed over as a whole. */
  lemma NestedComment(u: string, rest: string, d: nat)
    requires Block(u, 1) == Reach(|u|, true) && d > 0
    ensures Block("/*" + u + rest, d) == Block(rest, d).Shift(|u| + 2)
  {
    hide Block;
    var v := "/*" + u + rest;
    BlockUnfold(v, d);
    assert v[2..] == u + rest;
    BlockGoesOn(u, rest, 1, d);
  }

  /** Text without `/` and `*` up to the closing mark is a comment of its own. */
  lemma {:induction false} FlatComment(b: string, rest: string, d: nat)
    requires d > 0 && forall i :: 0 <= i < |b| ==> b[i] != '/' && b[i] != '*'
    ensures Block(b + "*/" + rest, d) == Block(rest, d - 1).Shift(|b| + 2)
    decreases |b|
  {
    hide Block;
    var v := b + "*/" + rest;
    BlockUnfold(v, d);
    if b == [] {
      assert v[2..] == rest;
    } else {
      assert v[1..] == b[1..] + "*/" + rest;
      FlatComment(b[1..], rest, d);
    }
  }

  // ----- which span opens -----

  predicate Begins(w: string, p: string) { At(w, p, 0) }

  /** A dollar sign, word characters, and a dollar sign again: `$tag$`, ending at `j`. */
  ghost predicate TagTo(w: string, j: nat) {
    && 0 < j < |w| && w[0] == '$' && w[j] == '$' && forall i :: 0 < i < j ==> IsWord(w[i])
  }

  lemma TagOpens(w: string)
    ensures OpensDollar(w) <==> exists j: nat :: TagTo(w, j)
    ensures OpensDollar(w) ==> TagTo(w, TagLen(w[1..]) + 1)
  {
    if OpensDollar(w) {
      var n := TagLen(w[1..]);
      forall i | 0 < i < n + 1 ensures IsWord(w[i]) { assert w[i] == w[1..][i - 1]; }
      assert TagTo(w, n + 1);
    }
    if j: nat :| TagTo(w, j) { TagIs(w, j); }
  }

  /** The engines whose settings the scan knows. */
  predicate HashComments(e: Engine) { e == Mysql || e == Unspecified }

  predicate EscapeStrings(e: Engine) { e == Postgres || e == Duckdb || e == Unspecified }

  /** Which span the scan sees at the front of a text, by engine and first characters. */
  lemma SpanMeans(e: Engine, g: bool, w: string)
    requires w != []
    ensures var k := Tok(ScanRules(e), g, w).kind;
            && (k == LineComment <==> Begins(w, "--") || (HashComments(e) && w[0] == '#'))
            && (k == BlockComment <==> Begins(w, "/*"))
            && (k == DollarQuote <==> exists j: nat :: TagTo(w, j))
            && (k == EString <==> EscapeStrings(e) && !g && (Begins(w, "e'") || Begins(w, "E'")))
            && (k == Quote <==> w[0] == '\'')
            && (k == DoubleQuote <==> w[0] == '"')
            && (k == Backtick <==> w[0] == '`')
            && (k == Bracket <==> w[0] == '[' && ']' in w[1..])
  {
    hide Lit, Block, LineLen, TagLen;
    TagOpens(w);
    FindChar(w[1..], ']');
    TwoChars(w);
    hide Find;
  }

  lemma TwoChars(w: string)
    ensures Begins(w, "--") <==> w != [] && w[0] == '-' && Next(w, '-')
    ensures Begins(w, "/*") <==> w != [] && w[0] == '/' && Next(w, '*')
    ensures Begins(w, "e'") <==> w != [] && w[0] == 'e' && Next(w, '\'')
    ensures Begins(w, "E'") <==> w != [] && w[0] == 'E' && Next(w, '\'')
  {
    if |w| >= 2 { assert w[0..2] == [w[0], w[1]]; }
  }

  /** The trimmer sees the same, but escape strings on every engine. */
  lemma TrimmerSpanMeans(e: Engine, g: bool, w: string)
    requires w != []
    ensures var k := Tok(TrimRules(e), g, w).kind;
            && (k == LineComment <==> Begins(w, "--") || (HashComments(e) && w[0] == '#'))
            && (k == EString <==> !g && (Begins(w, "e'") || Begins(w, "E'")))
            && (k != LineComment && k != EString && !EscapeStrings(e) ==>
                  k == Tok(ScanRules(e), g, w).kind || Begins(w, "e'") || Begins(w, "E'"))
  {
    hide Lit, Block, LineLen, TagLen, Find;
    TwoChars(w);
  }

  /** How far each kind of span reaches: literals by the rule above, with escapes in E-strings and on MySQL. */
  ghost predicate ReachesAs(e: Engine, w: string, t: Token)
    requires w != []
  {
    match t.kind
    case LineComment => 0 <= t.len <= |w| && (t.len < |w| ==> IsNewline(w[t.len])) && forall i :: 0 <= i < t.len ==> !IsNewline(w[i])
    case BlockComment => |w| >= 2 && Reach(t.len, t.closed) == Block(w[2..], 1).Shift(2)
    case Quote => t.len > 0 && Reaches(w[1..], '\'', e == Mysql, Reach(t.len - 1, t.closed))
    case DoubleQuote => t.len > 0 && Reaches(w[1..], '"', false, Reach(t.len - 1, t.closed))
    case EString => |w| >= 2 && t.len >= 2 && Reaches(w[2..], '\'', true, Reach(t.len - 2, t.closed))
    case Backtick =>
      if t.closed then 2 <= t.len <= |w| && w[t.len - 1] == '`' && forall k :: 0 < k < t.len - 1 ==> w[k] != '`'
      else forall k :: 0 < k < |w| ==> w[k] != '`'
    case Bracket => 2 <= t.len <= |w| && w[t.len - 1] == ']' && forall k :: 0 < k < t.len - 1 ==> w[k] != ']'
    case Plain => t.len == 1
    case DollarQuote => true
  }

  lemma SpanReaches(e: Engine, g: bool, w: string)
    requires w != []
    ensures ReachesAs(e, w, Tok(ScanRules(e), g, w))
  {
    if OpensComment(ScanRules(e), w) {
      LineIsFirst(w);
      hide LineLen, Block;
    } else if !OpensDollar(w) {
      QuotedReaches(e, g, w);
      hide Quoted, ReachesAs;
    } else {
      hide Find, TagLen;
    }
  }

  lemma QuotedReaches(e: Engine, g: bool, w: string)
    requires w != []
    ensures ReachesAs(e, w, Quoted(ScanRules(e), g, w))
  {
    hide Lit, Reaches, Find;
    if w[0] == '[' {
      if Find(w[1..], "]").Some? { BracketReaches(w); }
    } else {
      QuotedUnfold(ScanRules(e), g, w);
      hide Quoted;
      LitMeans(w[1..], '\'', e == Mysql);
      LitMeans(w[1..], '"', false);
      if |w| >= 2 { LitMeans(w[2..], '\'', true); }
      BacktickReaches(w);
    }
  }

  lemma BacktickReaches(w: string)
    requires w != []
    ensures var r := Lit(w[1..], '`', false, false);
            if r.closed then 0 < r.len < |w| && w[r.len] == '`' && forall k :: 0 < k < r.len ==> w[k] != '`'
            else r.len == |w| - 1 && forall k :: 0 < k < |w| ==> w[k] != '`'
  {
    LitFirst(w[1..], '`');
    hide Lit;
    assert forall k :: 0 < k < |w| ==> w[k] == w[1..][k - 1];
  }

  lemma OneChar(u: string, c: char, k: nat)
    requires k < |u|
    ensures At(u, [c], k) <==> u[k] == c
  {
    assert u[k..k + 1] == [u[k]];
  }

  lemma BracketReaches(w: string)
    requires w != [] && Find(w[1..], "]").Some?
    ensures var f := Find(w[1..], "]").value; f + 1 < |w| && w[f + 1] == ']' && forall k :: 0 < k < f + 1 ==> w[k] != ']'
  {
    FindIsFirst(w[1..], "]");
    hide Find;
    var f, u := Find(w[1..], "]").value, w[1..];
    OneChar(u, ']', f);
    forall k | 0 < k < f + 1 ensures w[k] != ']' { OneChar(u, ']', k - 1); }
  }

  /** A dollar-quoted string ends with the first repetition of its tag. */
  lemma DollarReaches(e: Engine, g: bool, w: string, j: nat)
    requires TagTo(w, j) && Tok(ScanRules(e), g, w).kind == DollarQuote
    ensures var t, tag, u := Tok(ScanRules(e), g, w), w[..j + 1], w[j + 1..];
            if t.closed then t.len >= 2 * |tag| && FirstAt(u, tag, t.len - 2 * |tag|)
            else t.len == |w| && forall k :: 0 <= k <= |u| ==> !At(u, tag, k)
  {
    TagOpens(w);
    TagIs(w, j);
    FindIsFirst(w[j + 1..], w[..j + 1]);
    hide Find, Lit, Block, LineLen, TagLen;
  }

  lemma TagIs(w: string, j: nat)
    requires TagTo(w, j)
    ensures TagLen(w[1..]) == j - 1
  {
    var u := w[1..];
    assert forall i :: 0 <= i < |u| ==> u[i] == w[i + 1];
    assert !IsWord(u[j - 1]) && forall i :: 0 <= i < j - 1 ==> IsWord(u[i]);
  }

  // ----- what is trimmed -----

  /** The kind of token position `i` belongs to. */
  ghost function KindOf(x: Rules, g: bool, w: string, i: nat): Kind
    requires i < |w|
    decreases |w|
  {
    var t := Tok(x, g, w);
    if i < t.len then t.kind else KindOf(x, Glues(w[t.len - 1]), w[t.len..], i - t.len)
  }

  lemma KindStep(x: Rules, g: bool, w: string, i: nat)
    requires i < |w|
    ensures var t := Tok(x, g, w);
            KindOf(x, g, w, i) == if i < t.len then t.kind else KindOf(x, Glues(w[t.len - 1]), w[t.len..], i - t.len)
  {
    hide Tok;
  }

  /** White space or `;` outside every span, or part of a comment. */
  ghost predicate Idle(x: Rules, g: bool, w: string, i: nat)
    requires i < |w|
  {
    var k := KindOf(x, g, w, i);
    k == LineComment || k == BlockComment || (k == Plain && (IsSpace(w[i]) || w[i] == ';'))
  }

  lemma IdleStep(x: Rules, g: bool, w: string, i: nat)
    requires i < |w|
    ensures var t := Tok(x, g, w);
            && (i >= t.len ==> Idle(x, g, w, i) == Idle(x, Glues(w[t.len - 1]), w[t.len..], i - t.len))
            && (i < t.len ==> Idle(x, g, w, i) == Noise(PieceOf(t, w)))
  {
    hide Tok, KindOf, IsSpace;
    KindStep(x, g, w, i);
    var t := Tok(x, g, w);
    if i >= t.len { assert w[t.len..][i - t.len] == w[i]; }
  }

  /** The rest is idle. */
  ghost predicate IdleFrom(x: Rules, g: bool, w: string, k: nat) { forall i :: k <= i < |w| ==> Idle(x, g, w, i) }

  ghost predicate KeepsTo(x: Rules, g: bool, w: string, k: nat) {
    k <= |w| && IdleFrom(x, g, w, k) && (k > 0 ==> !Idle(x, g, w, k - 1))
  }

  lemma KeptUnfold(x: Rules, g: bool, w: string)
    requires w != []
    ensures var t := Tok(x, g, w);
            var rest := DropNoise(Lex(x, Glues(w[t.len - 1]), w[t.len..]));
            |Join(DropNoise(Lex(x, g, w)))| ==
              if rest.End? then (if Noise(PieceOf(t, w)) then 0 else t.len) else t.len + |Join(rest)|
    ensures var t := Tok(x, g, w);
            var rest := DropNoise(Lex(x, Glues(w[t.len - 1]), w[t.len..]));
            rest.More? ==> |Join(rest)| > 0
  {
    LexStep(x, g, w);
    hide Tok, Lex, Noise;
    var t := Tok(x, g, w);
    KeptNonempty(x, Glues(w[t.len - 1]), w[t.len..]);
  }

  /** Whatever is kept has characters. */
  lemma KeptNonempty(x: Rules, g: bool, w: string)
    ensures DropNoise(Lex(x, g, w)).More? ==> |Join(DropNoise(Lex(x, g, w)))| > 0
  {
    if w == [] { LexEmpty(x, g); } else { LexStep(x, g, w); }
    hide Tok, Lex, Noise;
  }

  /** The trimmer keeps exactly up to the last position that is not idle. */
  lemma {:induction false} TrimKeepsTo(x: Rules, g: bool, w: string)
    ensures KeepsTo(x, g, w, |Join(DropNoise(Lex(x, g, w)))|)
    decreases |w|
  {
    hide Tok, Lex, Noise, Idle, DropNoise;
    if w == [] {
      assert Join(DropNoise(Lex(x, g, []))) == [] by { NothingKept(x, g); }
    } else {
      var t := Tok(x, g, w);
      var g', u := Glues(w[t.len - 1]), w[t.len..];
      TrimKeepsTo(x, g', u);
      KeptUnfold(x, g, w);
      if DropNoise(Lex(x, g', u)).End? { EndIsNothing(DropNoise(Lex(x, g', u))); }
      forall i | 0 <= i < |w|
        ensures (i >= t.len ==> Idle(x, g, w, i) == Idle(x, g', u, i - t.len)) && (i < t.len ==> Idle(x, g, w, i) == Noise(PieceOf(t, w)))
      {
        IdleStep(x, g, w, i);
      }
    }
  }

  lemma EndIsNothing(ps: Pieces)
    requires ps.End?
    ensures Join(ps) == []
  {}

  lemma NothingKept(x: Rules, g: bool)
    ensures Join(DropNoise(Lex(x, g, []))) == []
  {
    LexEmpty(x, g);
  }

  /**
   * Trimmed text is the text up to the last character that is neither white space or `;` outside
   * every span nor part of a comment.
   */
  lemma TrimMeans(x: Rules, s: string)
    ensures Trim(x, s) <= s && KeepsTo(x, false, s, |Trim(x, s)|)
  {
    hide Lex, DropNoise, KeepsTo;
    TrimIsPrefix(x, s);
    TrimKeepsTo(x, false, s);
  }
}
