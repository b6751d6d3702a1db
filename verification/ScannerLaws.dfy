/** What the scanner promises: locality, faithful masking, and an appended cap that stays visible. */
module ScannerLaws {
  import opened Text
  import opened Scanner

  // ----- locality: a finished token does not depend on what comes later -----

  /** `w` and `v` share their first `k` characters. */
  ghost predicate Shares(w: string, v: string, k: nat) {
    k <= |w| && k <= |v| && w[..k] == v[..k]
  }

  lemma SharesTail(w: string, v: string, k: nat, d: nat)
    requires Shares(w, v, k) && d <= k
    ensures Shares(w[d..], v[d..], k - d)
  {
    assert w[d..][..k - d] == w[..k][d..] == v[..k][d..] == v[d..][..k - d];
  }

  lemma SharesAt(w: string, v: string, k: nat, i: nat)
    requires Shares(w, v, k) && i < k
    ensures w[i] == v[i]
  {
    assert w[..k][i] == v[..k][i];
  }

  lemma {:induction false} LitStable(w: string, v: string, k: nat, q: char, bs: bool, dbl: bool)
    requires Shares(w, v, k)
    requires Lit(w, q, bs, dbl).closed && Lit(w, q, bs, dbl).len <= k
    requires k == |v| || v[k] != q
    ensures Lit(v, q, bs, dbl) == Lit(w, q, bs, dbl)
    decreases |w|
  {
    hide Lit;
    if w == [] { LitEmpty(q, bs, dbl); }
    SharesAt(w, v, k, 0);
    if k > 1 { SharesAt(w, v, k, 1); }
    LitUnfold(w, q, bs, dbl);
    LitUnfold(v, q, bs, dbl);
    var d := if (bs && w[0] == '\\') || (dbl && w[0] == q && Next(w, q)) then 2 else 1;
    if d == 2 || w[0] != q {
      SharesTail(w, v, k, d);
      LitStable(w[d..], v[d..], k - d, q, bs, dbl);
    }
  }

  lemma {:induction false} BlockStable(w: string, v: string, k: nat, depth: nat)
    requires Shares(w, v, k)
    requires Block(w, depth).closed && Block(w, depth).len <= k
    ensures Block(v, depth) == Block(w, depth)
    decreases |w|
  {
    if depth > 0 {
      SharesAt(w, v, k, 0);
      if k > 1 { SharesAt(w, v, k, 1); }
      var opens := w[0] == '/' && Next(w, '*');
      var closes := w[0] == '*' && Next(w, '/');
      if opens {
        SharesTail(w, v, k, 2);
        BlockStable(w[2..], v[2..], k - 2, depth + 1);
      } else if closes {
        SharesTail(w, v, k, 2);
        BlockStable(w[2..], v[2..], k - 2, depth - 1);
      } else {
        SharesTail(w, v, k, 1);
        BlockGap(w[1..], depth);
        BlockStable(w[1..], v[1..], k - 1, depth);
      }
    }
  }

  /** Closing a block comment takes two characters. */
  lemma BlockGap(w: string, depth: nat)
    requires depth > 0
    ensures Block(w, depth).closed ==> Block(w, depth).len >= 2
    decreases |w|
  {
    if w != [] && !(w[0] == '/' && Next(w, '*')) && !(w[0] == '*' && Next(w, '/')) {
      BlockGap(w[1..], depth);
    }
  }

  lemma {:induction false} FindStable(w: string, v: string, k: nat, p: string)
    requires Shares(w, v, k) && p != []
    requires Find(w, p).Some? && Find(w, p).value + |p| <= k
    ensures Find(v, p) == Find(w, p)
    decreases |w|
  {
    assert p <= w <==> p <= v by {
      assert forall i :: 0 <= i < |p| ==> w[..k][i] == v[..k][i];
    }
    if !(p <= w) {
      SharesTail(w, v, k, 1);
      FindStable(w[1..], v[1..], k - 1, p);
    }
  }

  lemma {:induction false} LineStable(w: string, v: string, k: nat)
    requires Shares(w, v, k) && LineLen(w) <= k
    requires LineLen(w) < k || k == |v| || IsNewline(v[k])
    ensures LineLen(v) == LineLen(w)
  {
    if k > 0 {
      SharesAt(w, v, k, 0);
      if !IsNewline(w[0]) {
        SharesTail(w, v, k, 1);
        LineStable(w[1..], v[1..], k - 1);
      }
    }
  }

  lemma {:induction false} TagStable(w: string, v: string, k: nat)
    requires Shares(w, v, k)
    ensures TagLen(w) < k ==> TagLen(v) == TagLen(w)
    ensures TagLen(w) >= k ==> TagLen(v) >= k
  {
    if k > 0 {
      SharesAt(w, v, k, 0);
      SharesTail(w, v, k, 1);
      TagStable(w[1..], v[1..], k - 1);
    }
  }

  /** A word character that opens nothing, whatever follows it. */
  predicate Tame(c: char) { IsWord(c) && c != 'e' && c != 'E' }

  /**
   * The second text stops at `k`, breaks the line there, or goes on with a tame character where the
   * first one had one too.
   */
  ghost predicate SoftCut(w: string, v: string, k: nat)
    requires k <= |w| && k <= |v|
  {
    k == |v| || v[k] == '\n' || (k < |w| && Tame(w[k]) && Tame(v[k]))
  }

  lemma CommentStable(x: Rules, w: string, v: string, k: nat)
    requires 0 < k && Shares(w, v, k) && SoftCut(w, v, k)
    requires OpensComment(x, w) ==> Comment(x, w).closed && Comment(x, w).len <= k
    ensures OpensComment(x, v) == OpensComment(x, w)
    ensures OpensComment(x, w) ==> Comment(x, v) == Comment(x, w)
  {
    SharesAt(w, v, k, 0);
    if k > 1 { SharesAt(w, v, k, 1); }
    if OpensComment(x, w) {
      if w[0] == '/' {
        SharesTail(w, v, k, 2);
        BlockStable(w[2..], v[2..], k - 2, 1);
      } else {
        LineStable(w, v, k);
      }
    }
  }

  /** The closing tag is found in the same place. */
  lemma TagEndStable(w: string, v: string, k: nat, j: nat)
    requires Shares(w, v, k) && 0 < j <= k && Find(w[j..], w[..j]).Some? && Find(w[j..], w[..j]).value + j <= k - j
    ensures w[..j] == v[..j] && Find(v[j..], w[..j]) == Find(w[j..], w[..j])
  {
    hide Find;
    assert w[..j] == w[..k][..j] == v[..k][..j] == v[..j];
    SharesTail(w, v, k, j);
    FindStable(w[j..], v[j..], k - j, w[..j]);
  }

  lemma DollarStable(w: string, v: string, k: nat)
    requires 0 < k && Shares(w, v, k) && SoftCut(w, v, k)
    requires OpensDollar(w) ==> Dollar(w).closed && Dollar(w).len <= k
    requires w[0] == '$' ==> TagLen(w[1..]) + 1 < k || k == |v| || v[k] == '\n'
    ensures OpensDollar(v) == OpensDollar(w)
    ensures OpensDollar(w) ==> Dollar(v) == Dollar(w)
  {
    hide Find, TagLen;
    SharesAt(w, v, k, 0);
    if w[0] == '$' {
      SharesTail(w, v, k, 1);
      TagStable(w[1..], v[1..], k - 1);
      var n := TagLen(w[1..]);
      if n + 1 < k { SharesAt(w, v, k, n + 1); }
      if OpensDollar(w) { TagEndStable(w, v, k, n + 2); }
    }
  }

  /** Which literal opens, and how far it reaches. */
  lemma QuotedUnfold(x: Rules, g: bool, w: string)
    requires w != [] && w[0] != '['
    ensures Quoted(x, g, w) ==
            if x.estrings && (w[0] == 'e' || w[0] == 'E') && Next(w, '\'') && !g then
              OfReach(EString, 2, Lit(w[2..], '\'', true, true))
            else if w[0] == '\'' then OfReach(Quote, 1, Lit(w[1..], '\'', x.backslash, true))
            else if w[0] == '"' then OfReach(DoubleQuote, 1, Lit(w[1..], '"', false, true))
            else if w[0] == '`' then OfReach(Backtick, 1, Lit(w[1..], '`', false, false))
            else Token(Plain, 1, true)
  {
    hide Lit, Find;
  }

  lemma QuotedStable(x: Rules, g: bool, w: string, v: string, k: nat)
    requires 0 < k && Shares(w, v, k) && SoftCut(w, v, k)
    requires Quoted(x, g, w).closed && Quoted(x, g, w).len <= k
    requires w[0] == '[' && Quoted(x, g, w).kind == Plain ==> Find(v[1..], "]").None?
    ensures Quoted(x, g, v) == Quoted(x, g, w)
  {
    hide Lit, Find, Quoted;
    SharesAt(w, v, k, 0);
    if k > 1 { SharesAt(w, v, k, 1); }
    SharesTail(w, v, k, 1);
    if w[0] == '[' {
      BracketStable(x, g, w, v, k);
    } else {
      QuotedUnfold(x, g, w);
      QuotedUnfold(x, g, v);
      match Quoted(x, g, w).kind
      case EString =>
        SharesTail(w, v, k, 2);
        LitStable(w[2..], v[2..], k - 2, '\'', true, true);
      case Quote => LitStable(w[1..], v[1..], k - 1, '\'', x.backslash, true);
      case DoubleQuote => LitStable(w[1..], v[1..], k - 1, '"', false, true);
      case Backtick => LitStable(w[1..], v[1..], k - 1, '`', false, false);
      case _ =>
    }
  }

  lemma BracketStable(x: Rules, g: bool, w: string, v: string, k: nat)
    requires 0 < k && Shares(w, v, k) && w[0] == '[' && v[0] == '[' && Quoted(x, g, w).len <= k
    requires Quoted(x, g, w).kind == Plain ==> Find(v[1..], "]").None?
    ensures Quoted(x, g, v) == Quoted(x, g, w)
  {
    hide Find;
    SharesTail(w, v, k, 1);
    if Find(w[1..], "]").Some? { FindStable(w[1..], v[1..], k - 1, "]"); }
  }

  /** A token that ends by the soft cut is the same token in both texts. */
  lemma TokStable(x: Rules, g: bool, w: string, v: string, k: nat)
    requires 0 < k && Shares(w, v, k) && SoftCut(w, v, k)
    requires Tok(x, g, w).closed && Tok(x, g, w).len <= k
    requires w[0] == '$' ==> TagLen(w[1..]) + 1 < k || k == |v| || v[k] == '\n'
    requires w[0] == '[' && Tok(x, g, w).kind == Plain ==> Find(v[1..], "]").None?
    ensures Tok(x, g, v) == Tok(x, g, w)
  {
    CommentStable(x, w, v, k);
    if !OpensComment(x, w) {
      DollarStable(w, v, k);
      if !OpensDollar(w) {
        QuotedStable(x, g, w, v, k);
      }
    }
  }

  lemma {:induction false} FindChar(w: string, c: char)
    ensures Find(w, [c]).Some? <==> c in w
  {
    if w != [] {
      assert [c] <= w <==> w[0] == c;
      if w[0] != c {
        FindChar(w[1..], c);
        assert w == [w[0]] + w[1..];
      }
    }
  }

  /** Cutting the text at a token boundary leaves the tokens before it alone. */
  lemma TokTruncate(x: Rules, g: bool, w: string, k: nat)
    requires 0 < k <= |w| && Tok(x, g, w).len <= k && (Tok(x, g, w).closed || k == |w|)
    ensures Tok(x, g, w[..k]) == Tok(x, g, w)
  {
    var v := w[..k];
    if k == |w| {
      assert v == w;
    } else {
      if w[0] == '[' && Tok(x, g, w).kind == Plain {
        FindChar(w[1..], ']');
        FindChar(v[1..], ']');
        assert forall c :: c in v[1..] ==> c in w[1..];
      }
      TokStable(x, g, w, v, k);
    }
  }

  // ----- trimming -----

  /** The tokens of the trimmed text are the tokens of the whole text, noise dropped from the end. */
  lemma {:induction false} LexOfTrimmed(x: Rules, g: bool, w: string)
    ensures var ps := DropNoise(Lex(x, g, w)); Lex(x, g, Join(ps)) == ps
    decreases |w|
  {
    hide Tok, Lex;
    if w == [] {
      LexEmpty(x, g);
    } else {
      var t := Tok(x, g, w);
      var g', u := Glues(w[t.len - 1]), w[t.len..];
      LexStep(x, g, w);
      LexOfTrimmed(x, g', u);
      var all := Lex(x, g', u);
      if DropNoise(Lex(x, g, w)).End? {
        LexEmpty(x, g);
      } else {
        DropNoiseIsPrefix(all);
        JoinLex(x, g', u);
        LexTruncated(x, g, w, Join(DropNoise(all)));
        assert PieceOf(t, w).text == w[..t.len];
      }
    }
  }

  /** The token at the front survives when the text after it is cut to a prefix. */
  lemma LexTruncated(x: Rules, g: bool, w: string, rest: string)
    requires w != [] && rest <= w[Tok(x, g, w).len..]
    ensures var t := Tok(x, g, w);
            Lex(x, g, w[..t.len] + rest) == More(PieceOf(t, w), Lex(x, Glues(w[t.len - 1]), rest))
  {
    hide Tok, Lex;
    var t := Tok(x, g, w);
    var b, k := w[..t.len] + rest, t.len + |rest|;
    assert b == w[..k];
    TokTruncate(x, g, w, k);
    assert b[t.len..] == rest && b[..t.len] == w[..t.len];
    LexStep(x, g, b);
  }

  lemma DropNoiseTwice(ps: Pieces)
    ensures DropNoise(DropNoise(ps)) == DropNoise(ps)
  {}

  /** Trimming twice is trimming once, and only ever cuts the end off. */
  lemma TrimIdempotent(x: Rules, s: string)
    ensures Trim(x, Trim(x, s)) == Trim(x, s) <= s
  {
    LexOfTrimmed(x, false, s);
    DropNoiseTwice(Lex(x, false, s));
    TrimIsPrefix(x, s);
  }

  ghost predicate AllNoise(ps: Pieces) { ps.More? ==> Noise(ps.head) && AllNoise(ps.rest) }

  function Concat(ps: Pieces, qs: Pieces): Pieces {
    match ps case End => qs case More(p, rest) => More(p, Concat(rest, qs))
  }

  function NoiseTail(ps: Pieces): Pieces {
    if DropNoise(ps).End? then ps else NoiseTail(ps.rest)
  }

  lemma DropNoiseSplits(ps: Pieces)
    ensures Concat(DropNoise(ps), NoiseTail(ps)) == ps && AllNoise(NoiseTail(ps))
  {}

  lemma JoinConcat(ps: Pieces, qs: Pieces)
    ensures Join(Concat(ps, qs)) == Join(ps) + Join(qs)
  {
    if ps.More? {
      JoinConcat(ps.rest, qs);
      assert ps.head.text + (Join(ps.rest) + Join(qs)) == ps.head.text + Join(ps.rest) + Join(qs);
    }
  }

  /** What is cut is nothing but white space, `;` and comments. */
  lemma TrimCutsOnlyNoise(x: Rules, s: string)
    ensures exists cut: Pieces :: AllNoise(cut) && s == Trim(x, s) + Join(cut)
                                  && Concat(DropNoise(Lex(x, false, s)), cut) == Lex(x, false, s)
  {
    var ps := Lex(x, false, s);
    DropNoiseSplits(ps);
    JoinConcat(DropNoise(ps), NoiseTail(ps));
    JoinLex(x, false, s);
  }

  lemma DropNoiseOpen(ps: Pieces, x: Rules, g: bool, w: string)
    requires ps == Lex(x, g, w)
    ensures EndsOpen(DropNoise(ps)) == EndsInLiteral(ps)
    decreases ps
  {
    hide Tok;
    if w != [] {
      var t := Tok(x, g, w);
      DropNoiseOpen(ps.rest, x, Glues(w[t.len - 1]), w[t.len..]);
    }
  }

  // ----- the two scanners agree -----

  lemma {:induction false} LitWithoutBackslash(w: string, q: char, a: bool, b: bool, dbl: bool)
    requires '\\' !in w
    ensures Lit(w, q, a, dbl) == Lit(w, q, b, dbl)
    decreases |w|
  {
    if w != [] {
      if dbl && w[0] == q && Next(w, q) {
        LitWithoutBackslash(w[2..], q, a, b, dbl);
      } else if w[0] != q {
        LitWithoutBackslash(w[1..], q, a, b, dbl);
      }
    }
  }

  /** Where the trimmer's lexing and the scan's lexing coincide. */
  ghost predicate Agree(e: Engine, s: string) {
    e.Unspecified? || e.Postgres? || e.Duckdb? || '\\' !in s
  }

  /** The same tokens, except that the trimmer may read `E'...'` as one where the scan reads two. */
  lemma {:induction false} LexersAgree(e: Engine, g: bool, w: string)
    requires Agree(e, w)
    ensures var ps, qs := Lex(ScanRules(e), g, w), Lex(TrimRules(e), g, w);
            Join(DropNoise(ps)) == Join(DropNoise(qs)) && DropNoise(ps).End? == DropNoise(qs).End?
            && EndsInLiteral(ps) == EndsInLiteral(qs)
    decreases |w|
  {
    hide Tok, Lex;
    var x, y := ScanRules(e), TrimRules(e);
    if w == [] {
      LexEmpty(x, g);
      LexEmpty(y, g);
    } else if x != y {
      var t := Tok(y, g, w);
      LexersAgree(e, Glues(w[t.len - 1]), w[t.len..]);
      LexStep(y, g, w);
      if t.kind == EString {
        SplitEString(e, g, w);
        assert w[..t.len] == [w[0]] + w[1..t.len];
        MergePieces([w[0]], w[1..t.len], t.closed, Lex(x, Glues(w[t.len - 1]), w[t.len..]));
      } else {
        SameToken(e, g, w);
        LexStep(x, g, w);
      }
    }
  }

  /** Reading a significant character and a literal apart or together trims alike. */
  lemma MergePieces(a: string, b: string, closed: bool, rest: Pieces)
    requires |a| == 1 && (a[0] == 'e' || a[0] == 'E')
    ensures var two := More(Piece(Plain, a, true), More(Piece(Quote, b, closed), rest));
            Join(DropNoise(two)) == (a + b) + Join(DropNoise(rest)) && DropNoise(two).More?
            && EndsInLiteral(two) == (!closed || EndsInLiteral(rest))
  {
    assert a + (b + Join(DropNoise(rest))) == (a + b) + Join(DropNoise(rest));
  }

  lemma SameToken(e: Engine, g: bool, w: string)
    requires w != [] && '\\' !in w && Tok(TrimRules(e), g, w).kind != EString
    ensures Tok(ScanRules(e), g, w) == Tok(TrimRules(e), g, w)
  {
    LitWithoutBackslash(w[1..], '\'', ScanRules(e).backslash, false, true);
  }

  lemma SplitTokens(e: Engine, g: bool, w: string)
    requires w != [] && '\\' !in w && !ScanRules(e).estrings && Tok(TrimRules(e), g, w).kind == EString
    ensures var t := Tok(TrimRules(e), g, w);
            t.len >= 2 && (w[0] == 'e' || w[0] == 'E')
            && Tok(ScanRules(e), g, w) == Token(Plain, 1, true)
            && Tok(ScanRules(e), Glues(w[0]), w[1..]) == Token(Quote, t.len - 1, t.closed)
  {
    hide Lit, Find, Dollar, TagLen;
    assert w[1..][1..] == w[2..];
    LitWithoutBackslash(w[2..], '\'', true, ScanRules(e).backslash, true);
  }

  lemma SplitEString(e: Engine, g: bool, w: string)
    requires w != [] && '\\' !in w && !ScanRules(e).estrings && Tok(TrimRules(e), g, w).kind == EString
    ensures var t := Tok(TrimRules(e), g, w);
            Lex(ScanRules(e), g, w) ==
            More(Piece(Plain, [w[0]], true),
                 More(Piece(Quote, w[1..t.len], t.closed), Lex(ScanRules(e), Glues(w[t.len - 1]), w[t.len..])))
    ensures w[0] == 'e' || w[0] == 'E'
  {
    hide Tok, Lex;
    var x, t, u := ScanRules(e), Tok(TrimRules(e), g, w), w[1..];
    SplitTokens(e, g, w);
    LexStep(x, g, w);
    LexStep(x, Glues(w[0]), u);
    assert u[t.len - 1..] == w[t.len..] && u[t.len - 2] == w[t.len - 1] && u[..t.len - 1] == w[1..t.len];
  }

  // ----- masking -----

  /** What the mask shows of the token at the front of `w`. */
  function Front(t: Token, w: string): (r: string)
    requires w != [] && (t.kind == Plain ==> t.len == 1)
    ensures |r| == t.len
    ensures forall i :: 0 <= i < |r| && r[i] != ' ' ==> t.kind == Plain && i == 0 && r[i] == w[0]
  {
    if t.kind == Plain then [w[0]] else Spaces(t.len)
  }

  /** Only the front token is opaque to the mask; the rest shifts by its width. */
  lemma MaskStep(x: Rules, g: bool, w: string)
    requires w != []
    ensures var t := Tok(x, g, w);
            Render(true, Lex(x, g, w)) ==
            Front(t, w) + Render(true, Lex(x, Glues(w[t.len - 1]), w[t.len..]))
  {
    hide Tok, Lex;
    LexStep(x, g, w);
  }

  /** Whether the character before position `i` glues, `g` standing for what precedes the text. */
  ghost predicate Before(g: bool, w: string, i: nat)
    requires i <= |w|
  {
    if i == 0 then g else Glues(w[i - 1])
  }

  /** Position `i` holds an ordinary character, as a token starting there would be read. */
  ghost predicate Ordinary(x: Rules, g: bool, w: string, i: nat)
    requires i < |w|
  {
    Tok(x, Before(g, w, i), w[i..]).kind == Plain
  }

  lemma OrdinaryShift(x: Rules, g: bool, w: string, d: nat, i: nat)
    requires 0 < d <= i < |w|
    ensures Ordinary(x, g, w, i) == Ordinary(x, Glues(w[d - 1]), w[d..], i - d)
  {
    hide Tok;
    assert w[d..][i - d..] == w[i..];
  }

  /** The mask keeps the width, and whatever it does not blank is an ordinary character of the text. */
  lemma {:induction false} MaskKeeps(x: Rules, g: bool, w: string)
    ensures var m := Render(true, Lex(x, g, w));
            |m| == |w| &&
            forall i :: 0 <= i < |w| && m[i] != ' ' ==>
              m[i] == w[i] && Ordinary(x, g, w, i)
    decreases |w|
  {
    hide Tok, Lex, Front;
    if w == [] {
      LexEmpty(x, g);
    } else {
      MaskStep(x, g, w);
      var t := Tok(x, g, w);
      var g', u := Glues(w[t.len - 1]), w[t.len..];
      var n, m := Render(true, Lex(x, g', u)), Render(true, Lex(x, g, w));
      MaskKeeps(x, g', u);
      forall i | 0 <= i < |w| && m[i] != ' '
        ensures m[i] == w[i] && Ordinary(x, g, w, i)
      {
        if i < t.len {
          assert m[i] == Front(t, w)[i] && w[0..] == w;
        } else {
          assert m[i] == n[i - t.len];
          OrdinaryShift(x, g, w, t.len, i);
        }
      }
    }
  }

  /** Position `i` is an ordinary character: the scan reads it as a token of its own. */
  ghost predicate Visible(x: Rules, g: bool, w: string, i: nat)
    requires i < |w|
    decreases |w|
  {
    var t := Tok(x, g, w);
    if i < t.len then t.kind == Plain else Visible(x, Glues(w[t.len - 1]), w[t.len..], i - t.len)
  }

  lemma VisibleStep(x: Rules, g: bool, w: string, i: nat)
    requires i < |w|
    ensures var t := Tok(x, g, w);
            Visible(x, g, w, i) ==
            if i < t.len then t.kind == Plain else Visible(x, Glues(w[t.len - 1]), w[t.len..], i - t.len)
  {
    hide Tok;
  }

  /** The mask has the text's width, shows its ordinary characters and is blank everywhere else. */
  lemma {:induction false} MaskFaithful(x: Rules, g: bool, w: string)
    ensures var m := Render(true, Lex(x, g, w));
            |m| == |w| && forall i :: 0 <= i < |w| ==> m[i] == if Visible(x, g, w, i) then w[i] else ' '
    decreases |w|
  {
    hide Tok, Lex, Front, Visible;
    if w == [] {
      LexEmpty(x, g);
    } else {
      MaskStep(x, g, w);
      var t := Tok(x, g, w);
      var g', u := Glues(w[t.len - 1]), w[t.len..];
      var n, m := Render(true, Lex(x, g', u)), Render(true, Lex(x, g, w));
      MaskFaithful(x, g', u);
      FrontShows(t, w);
      forall i | 0 <= i < |w| ensures m[i] == if Visible(x, g, w, i) then w[i] else ' ' {
        VisibleStep(x, g, w, i);
        if i < t.len { assert m[i] == Front(t, w)[i]; } else { assert m[i] == n[i - t.len]; }
      }
    }
  }

  lemma FrontShows(t: Token, w: string)
    requires w != [] && (t.kind == Plain ==> t.len == 1)
    ensures forall i :: 0 <= i < t.len ==> Front(t, w)[i] == if t.kind == Plain then w[i] else ' '
  {}

  /** A text in which no token but ordinary characters starts anywhere is its own mask. */
  lemma {:induction false} PlainIsItsMask(x: Rules, g: bool, w: string)
    requires forall i :: 0 <= i < |w| ==> Ordinary(x, g, w, i)
    ensures Render(true, Lex(x, g, w)) == w
    decreases |w|
  {
    hide Tok, Lex;
    if w == [] {
      LexEmpty(x, g);
    } else {
      assert Ordinary(x, g, w, 0) && w[0..] == w;
      MaskStep(x, g, w);
      forall i | 0 <= i < |w| - 1
        ensures Ordinary(x, Glues(w[0]), w[1..], i)
      {
        OrdinaryShift(x, g, w, 1, i + 1);
      }
      PlainIsItsMask(x, Glues(w[0]), w[1..]);
    }
  }

  /** Blanking characters of `w` cannot open a span at an ordinary character that survived. */
  lemma BlankingOpensNothing(x: Rules, g: bool, h: bool, w: string, m: string)
    requires w != [] && |m| == |w| && Tok(x, g, w).kind == Plain && m[0] == w[0]
    requires forall i :: 0 <= i < |w| ==> m[i] == ' ' || m[i] == w[i]
    requires Next(m, '\'') ==> false
    ensures Tok(x, h, m).kind == Plain
  {
    hide Lit, Block, LineLen, Find, TagLen;
    assert Quoted(x, g, w).kind == Plain;
    if m[0] == '$' {
      TagSurvives(w[1..], m[1..]);
    }
    if m[0] == '[' {
      FindChar(w[1..], ']');
      FindChar(m[1..], ']');
      SurvivorWasThere(w[1..], m[1..], ']');
    }
  }

  lemma SurvivorWasThere(w: string, m: string, c: char)
    requires |m| == |w| && c != ' ' && forall i :: 0 <= i < |w| ==> m[i] == ' ' || m[i] == w[i]
    ensures c in m ==> c in w
  {
    if c in m {
      var i :| 0 <= i < |m| && m[i] == c;
      assert w[i] == c;
    }
  }

  /** If blanking leaves a `$`-terminated tag, the tag was there before. */
  lemma {:induction false} TagSurvives(w: string, m: string)
    requires |m| == |w| && forall i :: 0 <= i < |w| ==> m[i] == ' ' || m[i] == w[i]
    ensures TagLen(m) < |m| && m[TagLen(m)] == '$' ==> TagLen(w) == TagLen(m) && w[TagLen(m)] == '$'
  {
    if m != [] && IsWord(m[0]) {
      TagSurvives(w[1..], m[1..]);
    }
  }

  /** Masking a masked text changes nothing. */
  lemma MaskIdempotent(x: Rules, s: string)
    ensures Mask(x, Mask(x, s)) == Mask(x, s)
  {
    hide Tok, Lex;
    var m := Mask(x, s);
    MaskKeeps(x, false, s);
    forall i | 0 <= i < |m|
      ensures Ordinary(x, false, m, i)
    {
      var h := Before(false, m, i);
      if m[i] == ' ' {
        BlankIsPlain(x, h, m[i..]);
      } else {
        if i + 1 < |m| && m[i + 1] == '\'' {
          assert Ordinary(x, false, s, i + 1);
          QuoteIsNotPlain(x, Glues(s[i]), s[i + 1..]);
        }
        assert Ordinary(x, false, s, i);
        BlankingOpensNothing(x, Before(false, s, i), h, s[i..], m[i..]);
      }
    }
    PlainIsItsMask(x, false, m);
  }

  lemma BlankIsPlain(x: Rules, g: bool, w: string)
    requires w != [] && w[0] == ' '
    ensures Tok(x, g, w).kind == Plain
  {}

  lemma QuoteIsNotPlain(x: Rules, g: bool, w: string)
    requires w != [] && w[0] == '\''
    ensures Tok(x, g, w).kind != Plain
  {}

  // ----- appending a clause on its own line -----

  /** Nothing in the clause opens or closes a span. */
  ghost predicate Quiet(t: string) { forall i :: 0 <= i < |t| ==> t[i] == '\n' || t[i] == ' ' || IsWord(t[i]) }

  ghost predicate Clause(t: string) { t != [] && t[0] == '\n' && Quiet(t) }

  lemma {:induction false} LitNever(t: string, q: char, bs: bool, dbl: bool)
    requires Quiet(t) && (q == '\'' || q == '"' || q == '`')
    ensures Lit(t, q, bs, dbl) == Reach(|t|, false)
  {
    if t != [] { LitNever(t[1..], q, bs, dbl); }
  }

  /** The head of `w + t` is that of `w`. */
  lemma AppendHead(w: string, t: string)
    requires w != []
    ensures (w + t)[0] == w[0] && (w + t)[1..] == w[1..] + t
    ensures |w| > 1 ==> (w + t)[1] == w[1] && (w + t)[2..] == w[2..] + t
    ensures |w| == 1 && t != [] ==> (w + t)[1] == t[0] && (w + t)[2..] == t[1..]
  {}

  lemma QuietTail(t: string)
    requires Quiet(t) && t != []
    ensures Quiet(t[1..])
  {}

  /** What is appended gives no character its partner. */
  lemma QuietNext(w: string, t: string, q: char)
    requires Quiet(t) && w != [] && (q == '\'' || q == '"' || q == '`' || q == '*' || q == '/')
    ensures Next(w + t, q) == Next(w, q)
  {
    AppendHead(w, t);
  }

  lemma {:induction false} LitSwallows(w: string, t: string, q: char, bs: bool, dbl: bool)
    requires Quiet(t) && !Lit(w, q, bs, dbl).closed && (q == '\'' || q == '"' || q == '`')
    ensures Lit(w + t, q, bs, dbl) == Reach(|w| + |t|, false)
    decreases |w|
  {
    hide Lit, Quiet, Next;
    if w == [] {
      assert w + t == t;
      LitNever(t, q, bs, dbl);
    } else {
      AppendHead(w, t);
      QuietNext(w, t, q);
      LitUnfold(w, q, bs, dbl);
      LitUnfold(w + t, q, bs, dbl);
      if bs && w[0] == '\\' && |w| == 1 {
        if t != [] {
          QuietTail(t);
          LitNever(t[1..], q, bs, dbl);
        }
      } else {
        var j := if (bs && w[0] == '\\') || (dbl && w[0] == q && Next(w, q)) then 2 else 1;
        NextLong(w, q);
        LitSwallows(w[j..], t, q, bs, dbl);
      }
    }
  }

  lemma NextLong(w: string, q: char)
    ensures Next(w, q) ==> |w| > 1
  {}

  lemma {:induction false} BlockNever(t: string, depth: nat)
    requires Quiet(t) && depth > 0
    ensures Block(t, depth) == Reach(|t|, false)
    decreases |t|
  {
    hide Block;
    if t == [] {
      BlockOpen(depth);
    } else {
      BlockUnfold(t, depth);
      BlockNever(t[1..], depth);
    }
  }

  lemma {:induction false} BlockSwallows(w: string, t: string, depth: nat)
    requires Quiet(t) && !Block(w, depth).closed
    ensures Block(w + t, depth) == Reach(|w| + |t|, false)
    decreases |w|
  {
    hide Block, Quiet, Next;
    if depth == 0 { BlockDone(w); }
    if w == [] {
      assert w + t == t;
      BlockNever(t, depth);
    } else {
      AppendHead(w, t);
      QuietNext(w, t, '*');
      QuietNext(w, t, '/');
      BlockUnfold(w, depth);
      BlockUnfold(w + t, depth);
      NextLong(w, '*');
      NextLong(w, '/');
      var opens, closes := w[0] == '/' && Next(w, '*'), w[0] == '*' && Next(w, '/');
      var j := if opens || closes then 2 else 1;
      BlockSwallows(w[j..], t, if opens then depth + 1 else if closes then depth - 1 else depth);
    }
  }

  /** A pattern ending in `$` cannot reach into the clause. */
  lemma PatternInside(w: string, t: string, p: string)
    requires Quiet(t) && p != [] && p[|p| - 1] == '$'
    ensures p <= w + t ==> p <= w
  {
    if p <= w + t {
      assert (w + t)[|p| - 1] == '$';
    }
  }

  lemma {:induction false} FindSwallows(w: string, t: string, p: string)
    requires Quiet(t) && p != [] && p[|p| - 1] == '$' && Find(w, p).None?
    ensures Find(w + t, p).None?
    decreases |w| + |t|
  {
    var v := w + t;
    PatternInside(w, t, p);
    if w == [] {
      assert v == t;
      if t != [] {
        assert [] + t[1..] == t[1..];
        FindSwallows([], t[1..], p);
      }
    } else {
      assert v[1..] == w[1..] + t;
      FindSwallows(w[1..], t, p);
    }
  }

  lemma DollarSwallows(w: string, t: string)
    requires Clause(t) && OpensDollar(w) && !Dollar(w).closed
    ensures OpensDollar(w + t) && Dollar(w + t) == Token(DollarQuote, |w| + |t|, false)
  {
    hide Find, TagLen;
    var v, j := w + t, TagLen(w[1..]) + 2;
    TagStable(w[1..], v[1..], |w| - 1);
    assert v[..j] == w[..j] && v[j..] == w[j..] + t;
    FindSwallows(w[j..], t, w[..j]);
  }

  /** A span left open at the end of the text swallows the clause whole. */
  lemma TokSwallows(x: Rules, g: bool, w: string, t: string)
    requires Clause(t) && w != [] && !Tok(x, g, w).closed
    ensures Tok(x, g, w + t) == Token(Tok(x, g, w).kind, |w| + |t|, false)
  {
    hide Lit, Block, LineLen, Find, TagLen, Dollar, Quiet;
    var v := w + t;
    AppendHead(w, t);
    match Tok(x, g, w).kind
    case BlockComment => BlockSwallows(w[2..], t, 1);
    case DollarQuote => DollarSwallows(w, t);
    case EString => DollarNeedsSign(v); LitSwallows(w[2..], t, '\'', true, true);
    case Quote => DollarNeedsSign(v); LitSwallows(w[1..], t, '\'', x.backslash, true);
    case DoubleQuote => DollarNeedsSign(v); LitSwallows(w[1..], t, '"', false, true);
    case Backtick => DollarNeedsSign(v); LitSwallows(w[1..], t, '`', false, false);
    case _ =>
  }

  lemma DollarNeedsSign(w: string)
    ensures OpensDollar(w) ==> w[0] == '$'
  {}

  /** A finished token is untouched by the clause. */
  lemma TokIgnores(x: Rules, g: bool, w: string, t: string)
    requires Clause(t) && w != [] && Tok(x, g, w).closed
    ensures Tok(x, g, w + t) == Tok(x, g, w)
  {
    var v := w + t;
    if w[0] == '[' && Tok(x, g, w).kind == Plain {
      FindChar(w[1..], ']');
      FindChar(v[1..], ']');
      assert v[1..] == w[1..] + t;
    }
    TokStable(x, g, w, v, |w|);
  }

  lemma QuietToken(x: Rules, g: bool, t: string)
    requires Quiet(t) && t != []
    ensures Tok(x, g, t) == Token(Plain, 1, true)
  {
    hide Lit, Find, Block, LineLen, TagLen;
    if |t| > 1 { assert t[1] == '\n' || t[1] == ' ' || IsWord(t[1]); }
  }

  lemma {:induction false} QuietIsItsMask(x: Rules, g: bool, t: string)
    requires Quiet(t)
    ensures Render(true, Lex(x, g, t)) == t
    decreases |t|
  {
    if t == [] {
      LexEmpty(x, g);
    } else {
      assert Tok(x, g, t) == Token(Plain, 1, true) by { QuietToken(x, g, t); }
      hide Tok, Lex, Quiet;
      MaskStep(x, g, t);
      QuietTail(t);
      QuietIsItsMask(x, Glues(t[0]), t[1..]);
    }
  }

  lemma AppendStep(x: Rules, g: bool, w: string, t: string)
    requires Clause(t) && w != [] && Tok(x, g, w).closed
    ensures var k := Tok(x, g, w);
            Render(true, Lex(x, g, w + t)) == Front(k, w) + Render(true, Lex(x, Glues(w[k.len - 1]), w[k.len..] + t))
  {
    hide Tok, Lex;
    var v, k := w + t, Tok(x, g, w);
    TokIgnores(x, g, w, t);
    MaskStep(x, g, v);
    assert v[k.len..] == w[k.len..] + t && v[k.len - 1] == w[k.len - 1];
  }

  lemma AppendSwallowed(x: Rules, g: bool, w: string, t: string)
    requires Clause(t) && w != [] && !Tok(x, g, w).closed
    ensures Render(true, Lex(x, g, w + t)) != Render(true, Lex(x, g, w)) + t
  {
    hide Tok, Lex;
    var v, m := w + t, Render(true, Lex(x, g, w));
    TokSwallows(x, g, w, t);
    MaskStep(x, g, v);
    MaskKeeps(x, g, w);
    assert (m + t)[|w|] == '\n' && Render(true, Lex(x, g, v))[|w|] == ' ';
  }

  /** The clause shows in the mask exactly when the text does not end inside a span. */
  lemma {:induction false} AppendShows(x: Rules, g: bool, w: string, t: string)
    requires Clause(t)
    ensures Render(true, Lex(x, g, w + t)) == Render(true, Lex(x, g, w)) + t <==> !EndsOpen(Lex(x, g, w))
    decreases |w|
  {
    hide Tok, Lex, Front;
    if w == [] {
      LexEmpty(x, g);
      assert w + t == t;
      QuietIsItsMask(x, g, t);
    } else {
      var k := Tok(x, g, w);
      LexStep(x, g, w);
      if k.closed {
        var u, g', front := w[k.len..], Glues(w[k.len - 1]), Front(k, w);
        AppendStep(x, g, w, t);
        MaskStep(x, g, w);
        AppendShows(x, g', u, t);
        SamePrefix(front, Render(true, Lex(x, g', u + t)), Render(true, Lex(x, g', u)) + t);
        Regroup(front, Render(true, Lex(x, g', u)), t);
      } else {
        AppendSwallowed(x, g, w, t);
      }
    }
  }

  lemma SamePrefix(p: string, a: string, b: string)
    ensures p + a == p + b <==> a == b
  {
    assert (p + a)[|p|..] == a && (p + b)[|p|..] == b;
  }

  /**
   * A clause appended to what the trimmer keeps is visible exactly when that text does not end
   * inside a span of the scan, on every engine; where the scanners agree, exactly when the
   * statement does not end inside a literal.
   */
  lemma AppendedCapShows(e: Engine, s: string, t: string)
    requires Clause(t)
    ensures var x, body := ScanRules(e), Trim(TrimRules(e), s);
            && (Mask(x, body + t) == Mask(x, body) + t <==> !EndsOpen(Lex(x, false, body)))
            && (Agree(e, s) ==> EndsOpen(Lex(x, false, body)) == EndsInLiteral(Lex(x, false, s)))
  {
    hide Lex, Render;
    var x := ScanRules(e);
    AppendShows(x, false, Trim(TrimRules(e), s), t);
    if Agree(e, s) {
      LexersAgree(e, false, s);
      LexOfTrimmed(x, false, s);
      DropNoiseOpen(Lex(x, false, s), x, false, s);
    }
  }

  // ----- trailing noise -----

  /** The last token is white space, `;` or a comment. */
  ghost predicate EndsInNoise(ps: Pieces) {
    ps.More? && if ps.rest.End? then Noise(ps.head) else EndsInNoise(ps.rest)
  }

  lemma DropNoiseIff(ps: Pieces)
    ensures DropNoise(ps) == ps <==> !EndsInNoise(ps)
  {}

  /** Trimming leaves a text alone exactly when its last token is not noise. */
  lemma TrimmedIff(x: Rules, s: string)
    ensures Trim(x, s) == s <==> !EndsInNoise(Lex(x, false, s))
  {
    DropNoiseIff(Lex(x, false, s));
    LexOfTrimmed(x, false, s);
    JoinLex(x, false, s);
  }

  /** Where the scanners agree, what the trimmer keeps has no trailing noise for the scan either. */
  lemma TrimmersAgree(e: Engine, s: string)
    requires Agree(e, s)
    ensures Trim(TrimRules(e), s) == Trim(ScanRules(e), s)
    ensures Trim(ScanRules(e), Trim(TrimRules(e), s)) == Trim(TrimRules(e), s)
  {
    LexersAgree(e, false, s);
    TrimIdempotent(ScanRules(e), s);
  }
}
