/**
 * Replacing one tame word by another anywhere in a text, be it inside a literal or a comment, keeps
 * the tokens around it.  So no such edit creates or removes trailing noise, under any rules.
 */
module SpliceLaws {
  import opened Text
  import opened Scanner
  import opened ScannerLaws
  import opened LimitText

  /** `v` is `w` with the tame word of width `n` at `k` replaced by `d`; no identifier runs into it. */
  ghost predicate Spliced(w: string, v: string, k: nat, n: nat, d: string) {
    && 0 < n && k + n <= |w| && AllTame(w[k..k + n]) && d != [] && AllTame(d)
    && (k > 0 ==> !Glues(w[k - 1]))
    && v == Splice(w, k, n, d)
  }

  lemma SplicedTail(w: string, v: string, k: nat, n: nat, d: string, j: nat)
    requires Spliced(w, v, k, n, d) && j <= k
    ensures j <= |w| && j <= |v| && Spliced(w[j..], v[j..], k - j, n, d)
  {
    SpliceTail(w, k, n, d, j);
    assert w[j..][k - j..k - j + n] == w[k..k + n];
  }

  lemma SplicedSize(w: string, v: string, k: nat, n: nat, d: string)
    requires Spliced(w, v, k, n, d)
    ensures 0 < n && d != [] && k + n <= |w| && k + |d| <= |v| && |v| == |w| - n + |d| && Tame(w[k]) && Tame(v[k])
    ensures v[k + |d|..] == w[k + n..] && Tame(w[k + n - 1]) && Tame(v[k + |d| - 1])
  {
    assert w[k..k + n][0] == w[k] && w[k..k + n][n - 1] == w[k + n - 1];
    assert v[k] == d[0] && v[k + |d| - 1] == d[|d| - 1];
  }

  /** Before the word, the texts agree character by character. */
  lemma SplicedFirst(w: string, v: string, k: nat, n: nat, d: string)
    requires Spliced(w, v, k, n, d) && k > 0
    ensures w[..k] == v[..k] && w[0] == v[0] && !Glues(w[k - 1]) && (k > 1 ==> w[1] == v[1])
  {}

  /** Behind the first character, neither text has a character that opens or closes a span unless both do. */
  lemma SplicedNext(w: string, v: string, k: nat, n: nat, d: string, c: char)
    requires Spliced(w, v, k, n, d) && k > 0 && !Tame(c)
    ensures Next(v, c) == Next(w, c) && (Next(w, c) ==> k > 1)
  {
    SplicedSize(w, v, k, n, d);
    SplicedFirst(w, v, k, n, d);
    hide Spliced;
  }

  lemma SplicedWhole(w: string, v: string, n: nat, d: string)
    requires Spliced(w, v, 0, n, d)
    ensures n <= |w| && w == w[..n] + w[n..] && v == d + w[n..] && AllTame(w[..n]) && AllTame(d)
  {
    assert w[0..n] == w[..n];
  }

  lemma OperatorsNotTame()
    ensures !Tame('*') && !Tame('/') && !Tame('-') && !Tame('\'') && !Tame('"') && !Tame('`') && !Tame(']') && !Tame('$')
  {}

  // ----- spans that run over the word -----

  lemma {:induction false} LineSkips(a: string, rest: string)
    requires AllTame(a)
    ensures LineLen(a + rest) == |a| + LineLen(rest)
  {
    if a == [] {
      assert a + rest == rest;
    } else {
      assert (a + rest)[1..] == a[1..] + rest;
      LineSkips(a[1..], rest);
    }
  }

  lemma {:induction false} LineInside(w: string, v: string, k: nat, n: nat, d: string)
    requires Spliced(w, v, k, n, d) && LineLen(w) > k
    ensures LineLen(w) >= k + n && LineLen(v) == LineLen(w) - n + |d|
    decreases k
  {
    hide Spliced;
    if k == 0 {
      SplicedWhole(w, v, n, d);
      LineSkips(w[..n], w[n..]);
      LineSkips(d, w[n..]);
    } else {
      SplicedSize(w, v, k, n, d);
      SplicedFirst(w, v, k, n, d);
      SplicedTail(w, v, k, n, d, 1);
      LineInside(w[1..], v[1..], k - 1, n, d);
    }
  }

  lemma {:induction false} BlockSkips(a: string, rest: string, depth: nat)
    requires AllTame(a) && depth > 0
    ensures Block(a + rest, depth) == Block(rest, depth).Shift(|a|)
  {
    hide Block;
    if a == [] {
      assert a + rest == rest;
    } else {
      assert (a + rest)[1..] == a[1..] + rest;
      BlockUnfold(a + rest, depth);
      BlockSkips(a[1..], rest, depth);
    }
  }

  lemma {:induction false} BlockInside(w: string, v: string, depth: nat, k: nat, n: nat, d: string)
    requires Spliced(w, v, k, n, d) && depth > 0 && Block(w, depth).len > k
    ensures var r := Block(w, depth); r.len >= k + n && Block(v, depth) == Reach(r.len - n + |d|, r.closed)
    decreases k
  {
    hide Block, Spliced, Tame, Next;
    SplicedSize(w, v, k, n, d);
    if k == 0 {
      SplicedWhole(w, v, n, d);
      BlockSkips(w[..n], w[n..], depth);
      BlockSkips(d, w[n..], depth);
    } else {
      OperatorsNotTame();
      SplicedFirst(w, v, k, n, d);
      SplicedNext(w, v, k, n, d, '*');
      SplicedNext(w, v, k, n, d, '/');
      BlockUnfold(w, depth);
      BlockUnfold(v, depth);
      var j := if (w[0] == '/' && Next(w, '*')) || (w[0] == '*' && Next(w, '/')) then 2 else 1;
      SplicedTail(w, v, k, n, d, j);
      if w[0] == '/' && Next(w, '*') {
        BlockInside(w[2..], v[2..], depth + 1, k - 2, n, d);
      } else if w[0] == '*' && Next(w, '/') {
        BlockDone(w[2..]);
        BlockInside(w[2..], v[2..], depth - 1, k - 2, n, d);
      } else {
        BlockInside(w[1..], v[1..], depth, k - 1, n, d);
      }
    }
  }

  lemma {:induction false} LitSkipsTame(a: string, rest: string, q: char, bs: bool, dbl: bool)
    requires AllTame(a) && !Tame(q)
    ensures Lit(a + rest, q, bs, dbl) == Lit(rest, q, bs, dbl).Shift(|a|)
  {
    if a == [] {
      assert a + rest == rest;
    } else {
      assert (a + rest)[1..] == a[1..] + rest;
      LitSkipsTame(a[1..], rest, q, bs, dbl);
    }
  }

  lemma LitWhole(w: string, v: string, q: char, bs: bool, dbl: bool, n: nat, d: string)
    requires Spliced(w, v, 0, n, d) && !Tame(q)
    ensures var r := Lit(w, q, bs, dbl); r.len >= n && Lit(v, q, bs, dbl) == Reach(r.len - n + |d|, r.closed)
  {
    hide Lit, Spliced, Tame;
    SplicedWhole(w, v, n, d);
    LitSkipsTame(w[..n], w[n..], q, bs, dbl);
    LitSkipsTame(d, w[n..], q, bs, dbl);
  }

  /** Before the word, both literals go on by one character, or by an escaped or doubled pair. */
  lemma LitBefore(w: string, v: string, q: char, bs: bool, dbl: bool, k: nat, n: nat, d: string) returns (j: nat)
    requires Spliced(w, v, k, n, d) && !Tame(q) && Lit(w, q, bs, dbl).len > k && k > 0 && !(bs && w[0] == '\\' && k == 1)
    ensures 0 < j <= k && j <= |w| && j <= |v|
    ensures Lit(w, q, bs, dbl) == Lit(w[j..], q, bs, dbl).Shift(j) && Lit(v, q, bs, dbl) == Lit(v[j..], q, bs, dbl).Shift(j)
  {
    hide Lit, Spliced, Tame, Next;
    SplicedSize(w, v, k, n, d);
    SplicedFirst(w, v, k, n, d);
    SplicedNext(w, v, k, n, d, q);
    LitUnfold(w, q, bs, dbl);
    LitUnfold(v, q, bs, dbl);
    j := if (bs && w[0] == '\\') || (dbl && w[0] == q && Next(w, q)) then 2 else 1;
  }

  lemma {:induction false} LitInside(w: string, v: string, q: char, bs: bool, dbl: bool, k: nat, n: nat, d: string)
    requires Spliced(w, v, k, n, d) && !Tame(q) && Lit(w, q, bs, dbl).len > k
    ensures var r := Lit(w, q, bs, dbl); r.len >= k + n && Lit(v, q, bs, dbl) == Reach(r.len - n + |d|, r.closed)
    decreases k
  {
    hide Lit, Spliced, Tame, Next;
    SplicedSize(w, v, k, n, d);
    if k == 0 {
      LitWhole(w, v, q, bs, dbl, n, d);
    } else if bs && w[0] == '\\' && k == 1 {
      EscapeInside(w, v, q, dbl, n, d);
    } else {
      var j := LitBefore(w, v, q, bs, dbl, k, n, d);
      SplicedTail(w, v, k, n, d, j);
      LitInside(w[j..], v[j..], q, bs, dbl, k - j, n, d);
    }
  }

  lemma EscapeSlices(w: string, v: string, n: nat, d: string)
    requires Spliced(w, v, 1, n, d)
    ensures w[2..] == w[2..1 + n] + w[1 + n..] && v[2..] == d[1..] + w[1 + n..] && AllTame(w[2..1 + n]) && AllTame(d[1..])
    ensures v[0] == w[0]
  {
    assert w[2..1 + n] == w[1..1 + n][1..];
  }

  /** A backslash right before the word takes one character of either. */
  lemma EscapeInside(w: string, v: string, q: char, dbl: bool, n: nat, d: string)
    requires Spliced(w, v, 1, n, d) && !Tame(q) && w[0] == '\\'
    ensures var r := Lit(w, q, true, dbl); r.len >= 1 + n && Lit(v, q, true, dbl) == Reach(r.len - n + |d|, r.closed)
  {
    hide Lit, Tame, Spliced, AllTame;
    SplicedSize(w, v, 1, n, d);
    EscapeSlices(w, v, n, d);
    LitUnfold(w, q, true, dbl);
    LitUnfold(v, q, true, dbl);
    LitSkipsTame(w[2..1 + n], w[1 + n..], q, true, dbl);
    LitSkipsTame(d[1..], w[1 + n..], q, true, dbl);
  }

  lemma {:induction false} FindSkips(a: string, rest: string, p: string)
    requires AllTame(a) && p != [] && !Tame(p[0])
    ensures Find(a + rest, p) == match Find(rest, p) case None => None case Some(f) => Some(f + |a|)
  {
    hide Find;
    if a == [] {
      assert a + rest == rest;
    } else {
      assert (a + rest)[1..] == a[1..] + rest;
      FindUnfold(a + rest, p);
      FindSkips(a[1..], rest, p);
    }
  }

  /** An occurrence of `p` cannot straddle the word's start. */
  lemma NoStraddle(w: string, v: string, p: string, k: nat)
    requires 0 < k < |w| && k < |v| && w[..k] == v[..k] && !Glues(w[k - 1])
    requires |p| == 1 || forall i :: 0 <= i < |p| ==> Glues(p[i])
    ensures p <= w <==> p <= v
    ensures p <= w ==> |p| <= k
  {
    assert v[k - 1] == v[..k][k - 1] == w[..k][k - 1] == w[k - 1];
    if |p| <= k { assert w[..|p|] == w[..k][..|p|] && v[..|p|] == v[..k][..|p|]; }
  }

  lemma FindWhole(w: string, v: string, p: string, n: nat, d: string)
    requires Spliced(w, v, 0, n, d) && p != [] && !Tame(p[0])
    ensures Find(w, p).Some? ==> Find(w, p).value >= n
    ensures Find(v, p) == match Find(w, p) case None => None case Some(f) => Some(f - n + |d|)
  {
    hide Find, Spliced, Tame;
    SplicedWhole(w, v, n, d);
    FindSkips(w[..n], w[n..], p);
    FindSkips(d, w[n..], p);
  }

  /** Before the word, a pattern starts in both texts or in neither. */
  lemma FindEdge(w: string, v: string, p: string, k: nat, n: nat, d: string)
    requires Spliced(w, v, k, n, d) && p != [] && k > 0 && (|p| == 1 || forall i :: 0 <= i < |p| ==> Glues(p[i]))
    requires Find(w, p).None? || Find(w, p).value + |p| > k
    ensures w != [] && v != []
    ensures Find(w, p) == match Find(w[1..], p) case None => None case Some(f) => Some(f + 1)
    ensures Find(v, p) == match Find(v[1..], p) case None => None case Some(f) => Some(f + 1)
  {
    hide Find, Spliced, Tame, Glues;
    SplicedSize(w, v, k, n, d);
    SplicedFirst(w, v, k, n, d);
    NoStraddle(w, v, p, k);
    FindUnfold(w, p);
    FindUnfold(v, p);
  }

  lemma {:induction false} FindInside(w: string, v: string, p: string, k: nat, n: nat, d: string)
    requires Spliced(w, v, k, n, d) && p != [] && !Tame(p[0])
    requires |p| == 1 || forall i :: 0 <= i < |p| ==> Glues(p[i])
    requires Find(w, p).None? || Find(w, p).value + |p| > k
    ensures Find(w, p).Some? ==> Find(w, p).value >= k + n
    ensures Find(v, p) == match Find(w, p) case None => None case Some(f) => Some(f - n + |d|)
    decreases k
  {
    hide Find, Spliced, Tame, Glues;
    SplicedSize(w, v, k, n, d);
    if k == 0 {
      FindWhole(w, v, p, n, d);
    } else {
      FindEdge(w, v, p, k, n, d);
      SplicedTail(w, v, k, n, d, 1);
      FindInside(w[1..], v[1..], p, k - 1, n, d);
      hide Spliced;
    }
  }

  // ----- tokens -----

  /** How a token that runs over the word changes. */
  function Stretched(t: Token, n: nat, d: string): Token
    requires t.len >= n
  {
    Token(t.kind, t.len - n + |d|, t.closed)
  }

  lemma CommentInside(x: Rules, w: string, v: string, k: nat, n: nat, d: string)
    requires Spliced(w, v, k, n, d) && k > 0
    ensures OpensComment(x, v) == OpensComment(x, w)
    ensures OpensComment(x, w) && Comment(x, w).len > k ==>
              Comment(x, w).len >= k + n && Comment(x, v) == Stretched(Comment(x, w), n, d)
  {
    hide Spliced, Tame, Block, LineLen;
    OperatorsNotTame();
    SplicedSize(w, v, k, n, d);
    SplicedFirst(w, v, k, n, d);
    SplicedNext(w, v, k, n, d, '-');
    SplicedNext(w, v, k, n, d, '*');
    if OpensComment(x, w) && Comment(x, w).len > k {
      if w[0] == '/' {
        SplicedTail(w, v, k, n, d, 2);
        BlockInside(w[2..], v[2..], 1, k - 2, n, d);
      } else {
        LineInside(w, v, k, n, d);
      }
    }
  }

  lemma TagShort(w: string, k: nat)
    requires 0 < k < |w| && w[0] == '$' && !Glues(w[k - 1])
    ensures TagLen(w[1..]) + 1 < k
  {
    assert k > 1 && w[1..][k - 2] == w[k - 1];
  }

  lemma TagGlues(w: string, j: nat)
    requires w != [] && w[0] == '$' && j == TagLen(w[1..]) + 2 && j <= |w| && w[j - 1] == '$'
    ensures forall i :: 0 <= i < j ==> Glues(w[..j][i])
  {
    forall i | 0 <= i < j ensures Glues(w[i]) { if 0 < i < j - 1 { assert w[1..][i - 1] == w[i]; } }
  }

  lemma DollarInside(w: string, v: string, k: nat, n: nat, d: string)
    requires Spliced(w, v, k, n, d) && k > 0
    ensures OpensDollar(v) == OpensDollar(w)
    ensures OpensDollar(w) && Dollar(w).len > k ==>
              Dollar(w).len >= k + n && Dollar(v) == Stretched(Dollar(w), n, d)
  {
    hide Spliced, Tame, Find, TagLen;
    SplicedSize(w, v, k, n, d);
    SplicedFirst(w, v, k, n, d);
    if w[0] == '$' {
      var j := TagLen(w[1..]) + 2;
      TagShort(w, k);
      SharesTail(w, v, k, 1);
      TagStable(w[1..], v[1..], k - 1);
      SharesAt(w, v, k, j - 1);
      if OpensDollar(w) && Dollar(w).len > k { TagFound(w, v, k, n, d, j); }
    }
  }

  /** The closing tag is found behind the word, or nowhere. */
  lemma SameTag(w: string, v: string, k: nat, n: nat, d: string, j: nat)
    requires Spliced(w, v, k, n, d) && 0 < k && j <= k
    ensures j <= |w| && j <= |v| && w[..j] == v[..j]
  {
    SplicedFirst(w, v, k, n, d);
    SplicedSize(w, v, k, n, d);
    hide Spliced;
    assert w[..j] == w[..k][..j] == v[..k][..j] == v[..j];
  }

  lemma TagFound(w: string, v: string, k: nat, n: nat, d: string, j: nat)
    requires Spliced(w, v, k, n, d) && k > 0 && OpensDollar(w) && OpensDollar(v) && Dollar(w).len > k
    requires j == TagLen(w[1..]) + 2 == TagLen(v[1..]) + 2 && j <= k
    ensures Dollar(w).len >= k + n && Dollar(v) == Stretched(Dollar(w), n, d)
  {
    hide Spliced, Tame, Find, TagLen, Glues;
    OperatorsNotTame();
    SplicedSize(w, v, k, n, d);
    SplicedFirst(w, v, k, n, d);
    SameTag(w, v, k, n, d, j);
    TagGlues(w, j);
    SplicedTail(w, v, k, n, d, j);
    FindInside(w[j..], v[j..], w[..j], k - j, n, d);
  }

  lemma EStringNotTame(w: string, v: string, k: nat, n: nat, d: string)
    requires Spliced(w, v, k, n, d) && k > 0
    ensures Next(v, '\'') == Next(w, '\'') && (Next(w, '\'') ==> k > 1)
  {
    SplicedNext(w, v, k, n, d, '\'');
  }

  lemma QuotedInside(x: Rules, g: bool, w: string, v: string, k: nat, n: nat, d: string)
    requires Spliced(w, v, k, n, d) && k > 0 && Quoted(x, g, w).len > k
    ensures Quoted(x, g, w).len >= k + n && v != [] && Quoted(x, g, v) == Stretched(Quoted(x, g, w), n, d)
  {
    hide Spliced, Quoted;
    SplicedSize(w, v, k, n, d);
    if w[0] == '[' { BracketInside(x, g, w, v, k, n, d); } else { LiteralInside(x, g, w, v, k, n, d); }
  }

  lemma BracketInside(x: Rules, g: bool, w: string, v: string, k: nat, n: nat, d: string)
    requires Spliced(w, v, k, n, d) && k > 0 && w[0] == '[' && Quoted(x, g, w).len > k
    ensures Quoted(x, g, w).len >= k + n && v != [] && Quoted(x, g, v) == Stretched(Quoted(x, g, w), n, d)
  {
    hide Spliced, Tame, Find;
    OperatorsNotTame();
    SplicedSize(w, v, k, n, d);
    SplicedFirst(w, v, k, n, d);
    SplicedTail(w, v, k, n, d, 1);
    FindInside(w[1..], v[1..], "]", k - 1, n, d);
  }

  lemma LiteralInside(x: Rules, g: bool, w: string, v: string, k: nat, n: nat, d: string)
    requires Spliced(w, v, k, n, d) && k > 0 && w[0] != '[' && Quoted(x, g, w).len > k
    ensures Quoted(x, g, w).len >= k + n && v != [] && Quoted(x, g, v) == Stretched(Quoted(x, g, w), n, d)
  {
    hide Spliced, Tame, Lit, Find, Next, Quoted;
    OperatorsNotTame();
    SplicedSize(w, v, k, n, d);
    SplicedFirst(w, v, k, n, d);
    EStringNotTame(w, v, k, n, d);
    QuotedUnfold(x, g, w);
    QuotedUnfold(x, g, v);
    match Quoted(x, g, w).kind
    case EString => LitToken(w, v, 2, '\'', true, true, k, n, d);
    case Quote => LitToken(w, v, 1, '\'', x.backslash, true, k, n, d);
    case DoubleQuote => LitToken(w, v, 1, '"', false, true, k, n, d);
    case Backtick => LitToken(w, v, 1, '`', false, false, k, n, d);
    case _ =>
  }

  lemma LitToken(w: string, v: string, skip: nat, q: char, bs: bool, dbl: bool, k: nat, n: nat, d: string)
    requires Spliced(w, v, k, n, d) && skip <= k && !Tame(q) && skip + Lit(w[skip..], q, bs, dbl).len > k
    ensures skip <= |v|
    ensures var r := Lit(w[skip..], q, bs, dbl);
            skip + r.len >= k + n && Lit(v[skip..], q, bs, dbl) == Reach(r.len - n + |d|, r.closed)
  {
    hide Spliced, Tame, Lit;
    SplicedTail(w, v, k, n, d, skip);
    LitInside(w[skip..], v[skip..], q, bs, dbl, k - skip, n, d);
  }

  /** A token that runs over the word ends at the same place behind it. */
  lemma TokInside(x: Rules, g: bool, w: string, v: string, k: nat, n: nat, d: string)
    requires Spliced(w, v, k, n, d) && k > 0 && Tok(x, g, w).len > k
    ensures Tok(x, g, w).len >= k + n && v != [] && Tok(x, g, v) == Stretched(Tok(x, g, w), n, d)
  {
    hide Spliced, Comment, Dollar, Quoted, OpensComment, OpensDollar;
    SplicedSize(w, v, k, n, d);
    CommentInside(x, w, v, k, n, d);
    if !OpensComment(x, w) {
      DollarInside(w, v, k, n, d);
      if !OpensDollar(w) { QuotedInside(x, g, w, v, k, n, d); }
    }
  }

  /** A token that ends before the word is the same. */
  lemma TokBefore(x: Rules, g: bool, w: string, v: string, k: nat, n: nat, d: string)
    requires Spliced(w, v, k, n, d) && k > 0 && Tok(x, g, w).len <= k
    ensures v != [] && Tok(x, g, v) == Tok(x, g, w)
  {
    SplicedSize(w, v, k, n, d);
    SplicedFirst(w, v, k, n, d);
    SpliceShares(w, k, n, d);
    hide Spliced, Tok, Tame;
    if w[0] == '$' { TagShort(w, k); }
    if w[0] == '[' && Tok(x, g, w).kind == Plain {
      BracketIsPlain(x, g, w);
      FindChar(w[1..], ']');
      FindChar(v[1..], ']');
      BracketBefore(w, v, k);
    }
    TokStable(x, g, w, v, k);
  }

  // ----- trailing noise -----

  lemma {:induction false} TameEnds(x: Rules, g: bool, a: string, rest: string)
    requires a != [] && AllTame(a)
    ensures EndsInNoise(Lex(x, g, a + rest)) == (rest != [] && EndsInNoise(Lex(x, true, rest)))
    decreases |a|
  {
    hide Lex;
    var w := a + rest;
    assert Tok(x, g, w) == Token(Plain, 1, true) && Glues(w[0]);
    LexStep(x, g, w);
    hide Tok;
    assert w[1..] == a[1..] + rest;
    if |a| > 1 {
      TameEnds(x, true, a[1..], rest);
      LexStep(x, true, w[1..]);
    } else {
      assert a[1..] + rest == rest;
      if rest == [] { LexEmpty(x, true); } else { LexStep(x, true, rest); }
    }
  }

  lemma NoiseStep(x: Rules, g: bool, w: string)
    requires w != []
    ensures var t := Tok(x, g, w);
            EndsInNoise(Lex(x, g, w)) ==
            if t.len == |w| then Noise(PieceOf(t, w)) else EndsInNoise(Lex(x, Glues(w[t.len - 1]), w[t.len..]))
  {
    hide Tok, Lex, Noise;
    var t := Tok(x, g, w);
    LexStep(x, g, w);
    if t.len == |w| {
      assert w[t.len..] == [];
      LexEmpty(x, Glues(w[t.len - 1]));
    } else {
      LexStep(x, Glues(w[t.len - 1]), w[t.len..]);
    }
  }

  /** Replacing the word changes nothing about trailing noise, under any rules. */
  lemma {:induction false} NoiseUnchanged(x: Rules, g: bool, w: string, v: string, k: nat, n: nat, d: string)
    requires Spliced(w, v, k, n, d)
    ensures EndsInNoise(Lex(x, g, v)) == EndsInNoise(Lex(x, g, w))
    decreases |w|
  {
    hide Tok, Lex, Spliced, Noise, EndsInNoise, Tame, Glues;
    SplicedSize(w, v, k, n, d);
    if k == 0 {
      SplicedWhole(w, v, n, d);
      TameEnds(x, g, w[..n], w[n..]);
      TameEnds(x, g, d, w[n..]);
    } else {
      var t := Tok(x, g, w);
      NoiseStep(x, g, w);
      NoiseStep(x, g, v);
      if t.len <= k {
        TokBefore(x, g, w, v, k, n, d);
        SplicedGlue(w, v, k, n, d, t.len - 1);
        SplicedTail(w, v, k, n, d, t.len);
        NoiseUnchanged(x, Glues(w[t.len - 1]), w[t.len..], v[t.len..], k - t.len, n, d);
      } else {
        TokInside(x, g, w, v, k, n, d);
        StretchedRest(x, g, w, v, k, n, d);
      }
    }
  }

  lemma SplicedGlue(w: string, v: string, k: nat, n: nat, d: string, i: nat)
    requires Spliced(w, v, k, n, d) && i < k
    ensures i < |w| && i < |v| && Glues(w[i]) == Glues(v[i])
  {}

  /** Behind a stretched token both texts go on alike. */
  lemma StretchedRest(x: Rules, g: bool, w: string, v: string, k: nat, n: nat, d: string)
    requires Spliced(w, v, k, n, d) && k > 0 && Tok(x, g, w).len >= k + n && v != []
    requires Tok(x, g, v) == Stretched(Tok(x, g, w), n, d)
    ensures var t, u := Tok(x, g, w), Tok(x, g, v);
            && w[t.len..] == v[u.len..] && Glues(w[t.len - 1]) == Glues(v[u.len - 1])
            && (t.len == |w| <==> u.len == |v|) && Noise(PieceOf(t, w)) == Noise(PieceOf(u, v))
  {
    hide Tok;
    SplicedSize(w, v, k, n, d);
    var t, u := Tok(x, g, w), Tok(x, g, v);
    if t.len > k + n { assert v[u.len - 1] == w[t.len - 1]; }
  }
}
