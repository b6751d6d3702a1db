/**
 * Guarding a guarded statement.  An edit that misses the statement's own clause leaves that clause
 * as it was, so whether a second guarding changes anything can be told from the first text alone.
 */
module GuardAgain {
  import opened Text
  import opened Scanner
  import opened ScannerLaws
  import opened LimitText
  import opened LimitLaws
  import opened SpliceLaws
  import opened LimitRewrite
  import opened GuardLimit

  // ----- the mask of a text with a word replaced anywhere -----

  ghost predicate Blank(m: string, k: nat, n: nat) { 0 < n && k + n <= |m| && forall i :: k <= i < k + n ==> m[i] == ' ' }

  /** The word is replaced in the mask where it shows, and by blanks where it does not. */
  ghost predicate Follows(w: string, m: string, u: string, k: nat, n: nat, d: string)
    requires k + n <= |w|
  {
    && |m| == |w|
    && ((m[k..k + n] == w[k..k + n] && u == Splice(m, k, n, d)) || (Blank(m, k, n) && u == Splice(m, k, n, Spaces(|d|))))
  }

  lemma {:induction false} MaskFollows(x: Rules, g: bool, w: string, v: string, k: nat, n: nat, d: string)
    requires Spliced(w, v, k, n, d)
    ensures k + n <= |w| && Follows(w, Render(true, Lex(x, g, w)), Render(true, Lex(x, g, v)), k, n, d)
    decreases |w|
  {
    hide Tok, Lex, Spliced, Render, Tame, Glues, Front, Follows, Splice;
    SplicedSize(w, v, k, n, d);
    if k == 0 {
      SplicedWhole(w, v, n, d);
      TameRun(x, g, w[..n], w[n..]);
      TameRun(x, g, d, w[n..]);
      MaskFaithful(x, g, w);
      WordFollows(w, w[..n], w[n..], Render(true, Lex(x, true, w[n..])), n, d);
    } else {
      var t := Tok(x, g, w);
      MaskStep(x, g, w);
      MaskStep(x, g, v);
      MaskFaithful(x, g, w);
      if t.len <= k {
        TokBefore(x, g, w, v, k, n, d);
        SplicedGlue(w, v, k, n, d, t.len - 1);
        SplicedTail(w, v, k, n, d, t.len);
        SplicedFirst(w, v, k, n, d);
        var g', u := Glues(w[t.len - 1]), w[t.len..];
        MaskFollows(x, g', u, v[t.len..], k - t.len, n, d);
        FrontSame(t, w, v);
        FollowsBehind(w, Front(t, w), Render(true, Lex(x, g', u)), Render(true, Lex(x, g', v[t.len..])), k, n, d);
      } else {
        TokInside(x, g, w, v, k, n, d);
        StretchedRest(x, g, w, v, k, n, d);
        SpanFollows(x, g, w, v, k, n, d);
      }
    }
  }

  lemma WordFollows(w: string, a: string, rest: string, m: string, n: nat, d: string)
    requires w == a + rest && |a| == n && |a + m| == |w|
    ensures Follows(w, a + m, d + m, 0, n, d)
  {
    assert (a + m)[0..n] == a == w[0..n];
    assert Splice(a + m, 0, n, d) == d + m;
  }

  lemma BlankAhead(front: string, m: string, k: nat, n: nat)
    requires |front| <= k && Blank(m, k - |front|, n)
    ensures Blank(front + m, k, n)
  {
    forall i | k <= i < k + n ensures (front + m)[i] == ' ' { assert (front + m)[i] == m[i - |front|]; }
  }

  lemma FollowsBehind(w: string, front: string, m: string, u: string, k: nat, n: nat, d: string)
    requires |front| <= k && k + n <= |w| && |front + m| == |w| && Follows(w[|front|..], m, u, k - |front|, n, d)
    ensures Follows(w, front + m, front + u, k, n, d)
  {
    hide Splice, Blank;
    var j := |front|;
    SpliceConcat(front, m, k - j, n, d);
    SpliceConcat(front, m, k - j, n, Spaces(|d|));
    assert (front + m)[k..k + n] == m[k - j..k - j + n];
    assert w[j..][k - j..k - j + n] == w[k..k + n];
    if Blank(m, k - j, n) { BlankAhead(front, m, k, n); }
  }

  /** A span that runs over the word is blank before and after. */
  lemma SpanFollows(x: Rules, g: bool, w: string, v: string, k: nat, n: nat, d: string)
    requires Spliced(w, v, k, n, d) && k > 0 && Tok(x, g, w).len >= k + n && v != []
    requires Tok(x, g, v) == Stretched(Tok(x, g, w), n, d)
    ensures Follows(w, Render(true, Lex(x, g, w)), Render(true, Lex(x, g, v)), k, n, d)
  {
    hide Tok, Lex, Render, Spliced, Splice, Blank, Tame, Glues;
    SplicedSize(w, v, k, n, d);
    StretchedRest(x, g, w, v, k, n, d);
    MaskStep(x, g, w);
    MaskStep(x, g, v);
    MaskFaithful(x, g, w);
    var t, u := Tok(x, g, w), Tok(x, g, v);
    BlanksSpliced(t.len, Render(true, Lex(x, Glues(w[t.len - 1]), w[t.len..])), k, n, |d|);
  }

  lemma BlanksSpliced(a: nat, rest: string, k: nat, n: nat, b: nat)
    requires k + n <= a && 0 < n
    ensures Blank(Spaces(a) + rest, k, n) && Splice(Spaces(a) + rest, k, n, Spaces(b)) == Spaces(a - n + b) + rest
  {}

  // ----- the located clause under blanks -----

  lemma BlankBefore(m: string, v: string, k: nat, i: nat)
    requires i < k < |m| && k < |v| && m[..k] == v[..k] && m[k] == v[k] == ' '
    ensures LimitWord(v, i) == LimitWord(m, i)
  {
    assert forall j :: 0 <= j < k ==> m[..k][j] == v[..k][j];
    if i + 5 > k {
      assert m[i..][k - i] == ' ' && v[i..][k - i] == ' ';
      assert k - i == 1 || k - i == 2 || k - i == 3 || k - i == 4;
    } else {
      assert forall j :: 0 <= j < 5 ==> m[i..][j] == m[i + j] == v[i + j] == v[i..][j];
    }
  }

  lemma {:induction false} ScanBlankBefore(m: string, v: string, k: nat, j: nat)
    requires j <= k < |m| && k < |v| && m[..k] == v[..k] && m[k] == v[k] == ' '
    ensures ScanLimit(v, j) == ScanLimit(m, j)
  {
    hide LimitWord;
    if j > 0 {
      ScanBlankBefore(m, v, k, j - 1);
      BlankBefore(m, v, k, j - 1);
      assert m[..k][j - 1] == v[..k][j - 1];
    }
  }

  lemma {:induction false} ScanBlank(m: string, k: nat, n: nat)
    requires k + n <= |m| && forall i :: k <= i < k + n ==> m[i] == ' '
    ensures ScanLimit(m, k + n) == ScanLimit(m, k)
    decreases n
  {
    hide LimitWord;
    if n > 0 {
      ScanBlank(m, k, n - 1);
      NotL(m, k + n - 1);
    }
  }

  lemma {:induction false} ScanBlankAfter(m: string, v: string, k: nat, n: nat, l: nat, j: nat)
    requires Blank(m, k, n) && 0 < l && v == Splice(m, k, n, Spaces(l)) && k + n <= j <= |m| && |v| == |m| - n + l
    ensures ScanLimit(v, j - n + l) == Displaced(ScanLimit(m, j), k, n, Spaces(l))
    decreases j
  {
    hide LimitWord, ScanLimit, Splice;
    if j == k + n {
      BlankEdges(m, v, k, n, l);
      ScanBlankBefore(m, v, k, k);
      ScanBlank(m, k, n);
      ScanBlank(v, k, l);
    } else {
      ScanBlankAfter(m, v, k, n, l, j - 1);
      ScanUnfold(m, j);
      ScanUnfold(v, j - n + l);
      BlankBehind(m, v, k, n, l, j - 1);
      LimitAfter(m, v, j - 1, j - 1 - n + l);
    }
  }

  lemma BlankEdges(m: string, v: string, k: nat, n: nat, l: nat)
    requires Blank(m, k, n) && 0 < l && v == Splice(m, k, n, Spaces(l))
    ensures k < |m| && k + l <= |v| && m[..k] == v[..k] && m[k] == v[k] == ' ' && forall i :: k <= i < k + l ==> v[i] == ' '
  {}

  lemma BlankBehind(m: string, v: string, k: nat, n: nat, l: nat, i: nat)
    requires Blank(m, k, n) && 0 < l && v == Splice(m, k, n, Spaces(l)) && k + n <= i < |m|
    ensures var j := i - n + l;
            0 < i && 0 < j < |v| && m[i..] == v[j..] && m[i] == v[j]
            && (IsSpace(m[i - 1]) || m[i - 1] == ')') == (IsSpace(v[j - 1]) || v[j - 1] == ')')
  {
    var j := i - n + l;
    if i == k + n { assert v[j - 1] == ' ' && m[i - 1] == ' '; } else { assert v[j - 1] == m[i - 1]; }
  }

  // ----- an ALL clause that is not hit is still an ALL clause -----

  /** `w` starts a LIMIT ALL whose ALL stands at `a`. */
  ghost predicate AllClause(w: string, a: nat) {
    && 5 < a && AllAt(w, a) && (forall i :: 5 <= i < a ==> IsSpace(w[i]))
    && (a + 3 == |w| || !IsWordU(w[a + 3]))
  }

  lemma AllClauseIff(w: string, a: nat)
    requires |w| >= 5
    ensures AllClause(w, a) <==> LimitAll(w) && a == 5 + SpaceLen(w[5..])
  {
    hide SpaceLen;
    if AllClause(w, a) {
      var u := w[5..];
      forall i | 0 <= i < a - 5 ensures IsSpace(u[i]) { assert u[i] == w[i + 5]; }
      LetterTame(w[a]);
      TameNotSpace(w[a]);
      assert u[a - 5] == w[a];
      SpaceLenIs(u, a - 5);
    } else if LimitAll(w) && a == 5 + SpaceLen(w[5..]) {
      forall i | 5 <= i < a ensures IsSpace(w[i]) { assert w[i] == w[5..][i - 5]; }
      assert false;
    }
  }

  /** Behind the clause anything may change; within its white space, blanks may. */
  lemma AllClauseSpliced(w: string, a: nat, k: nat, n: nat, d: string)
    requires AllClause(w, a) && d != [] && k + n <= |w|
    requires k > a + 3 || (k == a + 3 && d[0] == ' ') || (5 <= k && k + n <= a && n > 0 && forall i :: 0 <= i < |d| ==> d[i] == ' ')
    ensures var v := Splice(w, k, n, d); AllClause(v, if k < a then a - n + |d| else a)
  {
    var v := Splice(w, k, n, d);
    if k < a {
      var b := a - n + |d|;
      assert v[b] == w[a] && v[b + 1] == w[a + 1] && v[b + 2] == w[a + 2];
      if b + 3 < |v| { assert v[b + 3] == w[a + 3]; }
      forall i | 5 <= i < b ensures IsSpace(v[i]) {
        if i < k { assert v[i] == w[i]; } else if i < k + |d| { assert v[i] == d[i - k]; } else { assert v[i] == w[i - |d| + n]; }
      }
    }
  }

  /** Replacing a word elsewhere, or blanks, leaves the located ALL clause one. */
  ghost predicate StaysAll(m: string, v: string) {
    Located(m) >= 0 && LimitAll(m[Located(m)..]) ==> Located(v) >= 0 && LimitAll(v[Located(v)..])
  }

  lemma TailAll(m: string, v: string, at: nat, b: nat)
    requires at <= |m| && b <= |v| && m[at..] == v[b..] && Located(m) == at && Located(v) == b
    ensures StaysAll(m, v)
  {
    hide Located, LimitAll;
  }

  /** Where a displaced clause stands: its text is unchanged. */
  lemma SameTail(m: string, k: nat, n: nat, d: string, at: nat)
    requires k + n <= at <= |m|
    ensures var v := Splice(m, k, n, d); at - n + |d| <= |v| && v[at - n + |d|..] == m[at..]
  {}

  lemma HeadAll(m: string, at: nat, k: nat, n: nat, d: string)
    requires k + n <= |m| && at <= k && LimitAll(m[at..]) && d != []
    requires var a := at + 5 + SpaceLen(m[at..][5..]);
             k > a + 3 || (k == a + 3 && d[0] == ' ')
             || (at + 5 <= k && k + n <= a && n > 0 && forall i :: 0 <= i < |d| ==> d[i] == ' ')
    ensures at <= |Splice(m, k, n, d)| && LimitAll(Splice(m, k, n, d)[at..])
  {
    hide SpaceLen, AllClause, LimitAll;
    var w := m[at..];
    LimitAllLong(w);
    var a := 5 + SpaceLen(w[5..]);
    AllClauseIff(w, a);
    AllClauseSpliced(w, a, k - at, n, d);
    SpliceTail(m, k, n, d, at);
    var v := Splice(w, k - at, n, d);
    var b := if k - at < a then a - n + |d| else a;
    AllClauseLong(v, b);
    AllClauseIff(v, b);
  }

  lemma LimitAllLong(w: string)
    requires LimitAll(w)
    ensures |w| >= 5
  {}

  lemma AllClauseLong(w: string, a: nat)
    requires AllClause(w, a)
    ensures |w| >= 5
  {}

  /** A visible `all` that is not the own one: no part of the located clause. */
  lemma OtherAll(m: string, at: nat, k: nat)
    requires at < |m| && LimitWord(m, at) && LimitAll(m[at..]) && Shown(m, k, 3) && AllAt(m, k) && k > 0
    requires k != at + 5 + SpaceLen(m[at..][5..])
    ensures k + 3 <= at || k > at + 5 + SpaceLen(m[at..][5..]) + 3
  {
    hide SpaceLen;
    var w := m[at..];
    var a := 5 + SpaceLen(w[5..]);
    assert forall i :: at <= i < |m| ==> m[i] == w[i - at];
    TameNotSpace(m[k]);
    TameNotSpace(m[k + 1]);
    TameNotSpace(m[k + 2]);
    forall i | 5 <= i < a ensures IsSpace(w[i]) { assert w[i] == w[5..][i - 5]; }
    NotLetter(m[k - 1]);
  }

  /** A blank stretch is part of the located clause only between LIMIT and ALL. */
  lemma OtherBlank(m: string, at: nat, k: nat, n: nat)
    requires at < |m| && LimitWord(m, at) && LimitAll(m[at..]) && Blank(m, k, n)
    ensures var a := at + 5 + SpaceLen(m[at..][5..]); k + n <= at || k >= a + 3 || (at + 5 <= k && k + n <= a)
  {
    hide SpaceLen;
    var w := m[at..];
    var a := at + 5 + SpaceLen(w[5..]);
    assert forall i :: at <= i < |m| ==> m[i] == w[i - at];
    forall i | at <= i < at + 5 ensures m[i] != ' ' { assert LowChar(m[i]) == "limit"[i - at]; }
    assert LowChar(m[a]) == 'a' && LowChar(m[a + 1]) == 'l' && LowChar(m[a + 2]) == 'l';
    assert m[a] != ' ' && m[a + 1] != ' ' && m[a + 2] != ' ';
  }

  /** A visible `all` elsewhere, set to digits. */
  lemma VisibleMiss(m: string, k: nat, d: string)
    requires Inner(m, k, 3) && AllAt(m, k) && d != [] && AllDigits(d)
    requires Located(m) >= 0 && LimitAll(m[Located(m)..]) && k != Located(m) + 5 + SpaceLen(m[Located(m)..][5..])
    ensures StaysAll(m, Splice(m, k, 3, d))
  {
    hide ScanLimit, LimitAll, SpaceLen, LimitWord, AllAt, Shown, Splice;
    var v, at := Splice(m, k, 3, d), Located(m);
    SplicedLength(m, k, 3, d);
    ScanAfter(m, v, k, 3, d, |m|);
    LocatedIsLimit(m, |m|);
    OtherAll(m, at, k);
    if at < k { HeadAll(m, at, k, 3, d); } else {
      SameTail(m, k, 3, d, at);
      TailAll(m, v, at, at - 3 + |d|);
    }
  }

  lemma SplicedLength(m: string, k: nat, n: nat, d: string)
    requires k + n <= |m|
    ensures |Splice(m, k, n, d)| == |m| - n + |d|
  {}

  /** Blanks for blanks. */
  lemma BlankMiss(m: string, k: nat, n: nat, l: nat)
    requires Blank(m, k, n) && l > 0 && Located(m) >= 0 && LimitAll(m[Located(m)..])
    ensures StaysAll(m, Splice(m, k, n, Spaces(l)))
  {
    hide ScanLimit, LimitAll, SpaceLen, LimitWord, Splice;
    var d := Spaces(l);
    var v, at := Splice(m, k, n, d), Located(m);
    SplicedLength(m, k, n, d);
    ScanBlankAfter(m, v, k, n, l, |m|);
    LocatedIsLimit(m, |m|);
    OtherBlank(m, at, k, n);
    if at < k { HeadAll(m, at, k, n, d); } else {
      SameTail(m, k, n, d, at);
      TailAll(m, v, at, at - n + l);
    }
  }

  // ----- the rewrite that misses -----

  lemma {:induction false} FirstAllEdges(g: bool, w: string)
    requires FirstAll(g, w).Some?
    ensures var a := FirstAll(g, w).value; a + 3 <= |w| && (a + 3 == |w| || !IsWord(w[a + 3]))
    decreases |w|
  {
    if RawAll(g, w).None? { FirstAllEdges(IsWord(w[0]), w[1..]); }
  }

  lemma AllIsTame(s: string, a: nat)
    requires AllAt(s, a)
    ensures a + 3 <= |s| && AllTame(s[a..a + 3])
  {
    LetterTame(s[a]);
    LetterTame(s[a + 1]);
    LetterTame(s[a + 2]);
  }

  /** The first raw `all`, where the mask shows it. */
  lemma FirstAllInner(x: Rules, s: string, a: nat)
    requires FirstAll(false, s) == Some(a) && a + 3 <= |s| && |Mask(x, s)| == |s| && Mask(x, s)[a..a + 3] == s[a..a + 3]
    ensures Inner(Mask(x, s), a, 3) && AllAt(Mask(x, s), a)
  {
    hide Lex, Render, FirstAll, Visible;
    var m := Mask(x, s);
    FirstAllBehindSpace(false, s);
    FirstAllEdges(false, s);
    AllIsTame(s, a);
    MaskFaithful(x, false, s);
    assert forall i :: a <= i < a + 3 ==> m[i] == m[a..a + 3][i - a] == s[a..a + 3][i - a] == s[i];
    NoLimitInAll(m, a);
  }

  lemma NoLimitInAll(m: string, a: nat)
    requires AllAt(m, a) && (a + 3 == |m| || !IsWord(m[a + 3]))
    ensures forall i :: a <= i < a + 3 ==> !LimitWord(m, i)
  {
    NotL(m, a);
    assert m[a + 1..][1] == m[a + 2];
    if a + 3 < |m| {
      NotI(m[a + 3]);
      assert m[a + 2..][1] == m[a + 3];
    }
  }

  lemma NotI(c: char)
    requires !IsWord(c)
    ensures LowChar(c) != 'i'
  {}

  /** A rewrite that misses leaves the statement's own LIMIT ALL in place. */
  lemma MissStaysAll(x: Rules, s: string, n: nat)
    requires StatementLimit(x, s).All? && FirstAll(false, s).Some?
    requires Own(Mask(x, s)).Some? && FirstAll(false, s).value != Own(Mask(x, s)).value.at
    ensures StatementLimit(x, Splice(s, FirstAll(false, s).value, 3, Numeral(n))).All?
  {
    hide Lex, Render, FirstAll, StatementLimit, Own, Located, LimitAll, SpaceLen, Splice, Numeral, Inner, MatchHere, Spliced,
         AllAt;
    var a, m, d := FirstAll(false, s).value, Mask(x, s), Numeral(n);
    NumeralRoundTrip(n);
    OwnAllInText(x, s);
    AllSpliced(s, a, d);
    var v := Splice(s, a, 3, d);
    MaskFollows(x, false, s, v, a, 3, d);
    if m[a..a + 3] == s[a..a + 3] && Mask(x, v) == Splice(m, a, 3, d) {
      FirstAllInner(x, s, a);
      VisibleMiss(m, a, d);
    } else {
      BlankMiss(m, a, 3, |d|);
    }
    StatementReads(x, v);
  }

  lemma AllSpliced(s: string, a: nat, d: string)
    requires FirstAll(false, s) == Some(a) && d != [] && AllDigits(d)
    ensures a + 3 <= |s| && Spliced(s, Splice(s, a, 3, d), a, 3, d)
  {
    hide FirstAll;
    FirstAllBehindSpace(false, s);
    AllIsTame(s, a);
    DigitsAreTame(d);
    SpaceNotWord(s[a - 1]);
  }

  // ----- lowering -----

  lemma {:induction false} LastIsHere(g: bool, w: string)
    requires LastMatch(g, w).Some?
    ensures var f := LastMatch(g, w).value;
            && f.start <= |w| && f.start <= f.at
            && var r := MatchHere(false, w[f.start..]); r.Some? && r.value.at == f.at - f.start && r.value.len == f.len
    decreases |w|
  {
    hide MatchHere, LastMatch, Advance, IsWord, CountIn, IsLimit;
    if w == [] {
      NoMatch(g);
    } else {
      LastMatchUnfold(g, w);
      var j := Advance(g, w);
      var later := LastMatch(IsWord(w[j - 1]), w[j..]);
      if later.Some? {
        LastIsHere(IsWord(w[j - 1]), w[j..]);
        assert w[j..][later.value.start..] == w[j + later.value.start..];
      } else {
        GluedNever(g, w);
        assert w[0..] == w;
      }
    }
  }

  lemma GluedNever(g: bool, w: string)
    ensures MatchHere(g, w).Some? ==> !g
  {}

  // Between LIMIT and its count there are digits, commas and white space only.

  lemma NumSoft(w: string, i: nat)
    requires Num(w).Some? && i < Num(w).value.at
    ensures !Stopper(w[i])
  {}

  lemma CommaSoft(w: string, i: nat)
    requires Comma(w).Some? && i < Comma(w).value.at
    ensures !Stopper(w[i])
  {
    hide SpaceLen, Num;
    var c := SpaceLen(w);
    if i > c {
      NumSoft(w[c + 1..], i - c - 1);
      assert w[c + 1..][i - c - 1] == w[i];
    }
  }

  lemma CountsSoft(w: string, i: nat)
    requires Counts(w).Some? && i < Counts(w).value.at
    ensures !Stopper(w[i])
  {
    hide DigitLen, Comma, SpaceLen;
    var b := DigitLen(w);
    if i >= b {
      CommaSoft(w[b..], i - b);
      assert w[b..][i - b] == w[i];
    }
  }

  lemma MatchSoft(w: string, i: nat)
    requires MatchHere(false, w).Some? && 5 <= i < MatchHere(false, w).value.at
    ensures !Stopper(w[i])
  {
    hide SpaceLen, Counts;
    var a := 5 + SpaceLen(w[5..]);
    if i < a {
      assert w[i] == w[5..][i - 5];
    } else {
      CountsSoft(w[a..], i - a);
      assert w[a..][i - a] == w[i];
    }
  }

  lemma LetterStops(c: char)
    requires LowChar(c) == 'l'
    ensures Stopper(c)
  {
    if 'A' <= c <= 'Z' { assert LowChar(c) as int == c as int + 32; }
  }

  /** Two LIMITs, each with its count: the later starts behind the count of the earlier. */
  lemma CountsApart(m: string, i: nat, j: nat)
    requires i < j < |m| && MatchHere(false, m[i..]).Some? && IsLimit(m[j..])
    ensures i + 5 <= j && i + MatchHere(false, m[i..]).value.at <= j
  {
    hide MatchHere;
    var w := m[i..];
    assert w[j - i] == m[j] == m[j..][0];
    LetterStops(m[j]);
    if j - i < 5 { NotLimitTwice(false, w, j - i); } else if j - i < MatchHere(false, w).value.at { MatchSoft(w, j - i); }
  }

  lemma LastInner(m: string, f: Found)
    requires CountAt(m, f)
    ensures Inner(m, f.at, f.len)
  {
    forall i | f.at <= i < f.at + f.len ensures !LimitWord(m, i) { NotL(m, i); }
  }

  ghost predicate ReadsCount(m: string) { Located(m) >= 0 && MatchHere(false, m[Located(m)..]).Some? }

  /** Whichever count is lowered, the located clause still reads as a count. */
  lemma CountSurvives(m: string, d: string)
    requires ReadsCount(m) && LastMatch(false, m).Some? && d != [] && AllDigits(d)
    ensures var f := LastMatch(false, m).value; f.at + f.len <= |m| && ReadsCount(Splice(m, f.at, f.len, d))
  {
    hide ScanLimit, MatchHere, LastMatch, Splice, LimitWord, CountIn, IsLimit;
    var f, at := LastMatch(false, m).value, Located(m);
    LastMatchCount(false, m);
    LastIsHere(false, m);
    LastInner(m, f);
    LocatedIsLimit(m, |m|);
    LimitWordIs(m, at);
    var v := Splice(m, f.at, f.len, d);
    SplicedLength(m, f.at, f.len, d);
    ScanAfter(m, v, f.at, f.len, d, |m|);
    if at < f.start { LaterSurvives(m, at, f, d); }
    else if at == f.start { SameSurvives(m, f, d); }
    else {
      CountsApart(m, f.start, at);
      LetterBehind(m, f, at);
      SameTail(m, f.at, f.len, d, at);
    }
  }

  lemma LetterBehind(m: string, f: Found, at: nat)
    requires CountAt(m, f) && f.at <= at < |m| && IsLimit(m[at..])
    ensures f.at + f.len <= at
  {
    assert m[at..][0] == m[at];
    LetterStops(m[at]);
  }

  lemma LaterSurvives(m: string, at: nat, f: Found, d: string)
    requires at < f.start && CountAt(m, f) && MatchHere(false, m[at..]).Some? && MatchHere(false, m[f.start..]).Some?
    ensures at <= |Splice(m, f.at, f.len, d)| && MatchHere(false, Splice(m, f.at, f.len, d)[at..]) == MatchHere(false, m[at..])
  {
    hide MatchHere, Splice, Stopper;
    CountsApart(m, at, f.start);
    SpliceTail(m, f.at, f.len, d, at);
    var w := m[at..];
    var v := Splice(w, f.at - at, f.len, d);
    assert w[f.start - at] == m[f.start];
    LetterStops(m[f.start]);
    SpliceSharesHead(w, f.at - at, f.len, d);
    MatchLocal(false, w, v, f.at - at, f.start - at);
  }

  lemma SpliceSharesHead(w: string, k: nat, n: nat, d: string)
    requires k + n <= |w|
    ensures Shares(w, Splice(w, k, n, d), k)
  {}

  lemma SameSurvives(m: string, f: Found, d: string)
    requires f.start <= f.at && f.at + f.len <= |m| && d != [] && AllDigits(d)
    requires var r := MatchHere(false, m[f.start..]); r.Some? && r.value.at == f.at - f.start && r.value.len == f.len
    ensures f.start <= |Splice(m, f.at, f.len, d)| && MatchHere(false, Splice(m, f.at, f.len, d)[f.start..]).Some?
  {
    hide MatchHere, Splice;
    SpliceTail(m, f.at, f.len, d, f.start);
    MatchSplice(false, m[f.start..], d);
  }

  /** Lowering leaves a count, and nothing more to lower. */
  lemma LoweredStays(x: Rules, s: string, max: nat)
    requires StatementLimit(x, s).Count? && Lowered(x, s, max).Some?
    ensures var v := Lowered(x, s, max).value; StatementLimit(x, v).Count? && Lowered(x, v, max).None?
  {
    hide Lex, Render, StatementLimit, Located, LastMatch, MatchHere, Lowered, Splice, Numeral, LimitAll, NumberOf, CountAt;
    var v, m := Lowered(x, s, max).value, Mask(x, s);
    StatementReads(x, s);
    LoweredIsExact(x, s, max);
    LastExists(x, s, max);
    NumeralRoundTrip(max);
    CountSurvives(m, Numeral(max));
    StatementReads(x, v);
    MatchIsNotAll(Mask(x, v)[Located(Mask(x, v))..]);
  }

  // ----- a cap that does not bind -----

  /** An open span swallows the cap, and the mask shows blanks. */
  lemma {:induction false} SwallowedShows(x: Rules, g: bool, w: string, t: string)
    requires Clause(t) && EndsOpen(Lex(x, g, w))
    ensures Render(true, Lex(x, g, w + t)) == Render(true, Lex(x, g, w)) + Spaces(|t|)
    decreases |w|
  {
    hide Tok, Lex, Front, Clause;
    if w == [] {
      LexEmpty(x, g);
    } else {
      var k, v := Tok(x, g, w), w + t;
      LexStep(x, g, w);
      MaskStep(x, g, w);
      MaskStep(x, g, v);
      if k.closed {
        TokIgnores(x, g, w, t);
        var u, g' := w[k.len..], Glues(w[k.len - 1]);
        assert v[k.len..] == u + t && v[k.len - 1] == w[k.len - 1];
        SwallowedShows(x, g', u, t);
        FrontSame(k, w, v);
        assert Front(k, w) + (Render(true, Lex(x, g', u)) + Spaces(|t|)) == Front(k, w) + Render(true, Lex(x, g', u)) + Spaces(|t|);
      } else {
        TokSwallows(x, g, w, t);
        OpenFront(x, g, w, t);
      }
    }
  }

  lemma OpenFront(x: Rules, g: bool, w: string, t: string)
    requires w != [] && !Tok(x, g, w).closed && Tok(x, g, w + t) == Token(Tok(x, g, w).kind, |w| + |t|, false)
    ensures Render(true, Lex(x, g, w)) == Spaces(|w|) && Render(true, Lex(x, g, w + t)) == Spaces(|w|) + Spaces(|t|)
  {
    hide Tok, Lex, Render;
    OpenMask(x, g, w);
    OpenMask(x, g, w + t);
    assert Spaces(|w| + |t|) == Spaces(|w|) + Spaces(|t|);
  }

  /** A text that is one open span shows nothing. */
  lemma OpenMask(x: Rules, g: bool, w: string)
    requires w != [] && !Tok(x, g, w).closed
    ensures Render(true, Lex(x, g, w)) == Spaces(|w|)
  {
    hide Tok, Lex;
    MaskStep(x, g, w);
    assert w[|w|..] == [];
    LexEmpty(x, Glues(w[|w| - 1]));
  }

  lemma {:induction false} ScanFront(m: string, r: string, j: nat)
    requires j <= |m| && r != [] && IsSpace(r[0])
    ensures ScanLimit(m + r, j) == ScanLimit(m, j)
  {
    hide LimitWord, IsSpace;
    if j > 0 {
      ScanFront(m, r, j - 1);
      WordFront(m, r, j - 1);
      assert (m + r)[j - 1] == m[j - 1];
    }
  }

  lemma WordFront(m: string, r: string, i: nat)
    requires i < |m| && r != [] && IsSpace(r[0])
    ensures LimitWord(m + r, i) == LimitWord(m, i)
  {
    var v := m + r;
    assert v[|m|] == r[0];
    NotLetter(r[0]);
    SpaceNotWord(r[0]);
    if i + 5 > |m| {
      assert v[i..][|m| - i] == r[0];
      assert |m| - i == 1 || |m| - i == 2 || |m| - i == 3 || |m| - i == 4;
    } else {
      assert forall j :: 0 <= j < 5 ==> m[i..][j] == m[i + j] == v[i + j] == v[i..][j];
    }
  }

  lemma UnboundCap(x: Rules, s: string, n: nat)
    requires StatementLimit(x, s).NoLimit? && (EndsOpen(Lex(x, false, s)) || Depth(Mask(x, s)) != 0)
    ensures StatementLimit(x, s + CapClause(n)).NoLimit?
  {
    hide Lex, Render, StatementLimit, ScanLimit, Depth, EndsOpen, LimitAll, MatchHere, CapClause;
    var m, t := Mask(x, s), CapClause(n);
    CapIsClause(n);
    StatementReads(x, s);
    StatementReads(x, s + t);
    AppendShows(x, false, s, t);
    if EndsOpen(Lex(x, false, s)) {
      SwallowedShows(x, false, s, t);
      ScanFront(m, Spaces(|t|), |m|);
      ScanBlank(m + Spaces(|t|), |m|, |t|);
    } else {
      ScanFront(m, t, |m|);
      ScanDepth(m, |m|);
      assert m[..|m|] == m;
      ScanClause(m, n, |t|);
    }
  }

  // ----- the exact condition -----

  /** The first guarding is final: the cap binds, or the LIMIT ALL that was rewritten is the statement's own. */
  ghost predicate Final(p: Parser, e: Engine, body: string) {
    var x := ScanRules(e);
    match StatementLimit(x, body)
    case NoLimit => !EndsOpen(Lex(x, false, body)) && Depth(Mask(x, body)) == 0
    case All(_) => p.branches(body) || RewritesOwn(x, body)
    case _ => true
  }

  /** No dollar-quoted string runs into the counts the guard may edit, and ALL is no offset. */
  ghost predicate Clear(x: Rules, body: string) {
    && OwnAlone(Mask(x, body)) && Apart(x, body)
    && var last := LastMatch(false, Mask(x, body)); last.Some? && 0 < last.value.at <= |body| ==> body[last.value.at - 1] != '$'
  }

  lemma AppendAgain(p: Parser, e: Engine, body: string, max: nat)
    requires Settled(e, body) && StatementLimit(ScanRules(e), body).NoLimit? && Agrees(p, ScanRules(e), body + CapClause(max))
    ensures var t := body + CapClause(max);
            Body(e, t) == t && t != "" && (CapLimit(p, e, t, max) == Allowed(t, false, false) <==> Final(p, e, body))
  {
    hide Lex, Render, StatementLimit, Depth, EndsOpen, Body, CapClause, Trim, Edged;
    var x, t := ScanRules(e), body + CapClause(max);
    AppendedBody(e, body, max);
    CapIsClause(max);
    AppendShows(x, false, body, CapClause(max));
    if Final(p, e, body) { VisibleCapLocated(x, body, max); } else { UnboundCap(x, body, max); }
  }

  lemma LowerAgain(p: Parser, e: Engine, body: string, max: nat)
    requires Settled(e, body) && Clear(ScanRules(e), body)
    requires StatementLimit(ScanRules(e), body).Count? && Lowered(ScanRules(e), body, max).Some?
    requires Agrees(p, ScanRules(e), Lowered(ScanRules(e), body, max).value)
    ensures var t := Lowered(ScanRules(e), body, max).value;
            Body(e, t) == t && t != "" && CapLimit(p, e, t, max) == Allowed(t, false, false)
  {
    hide Lex, Render, StatementLimit, Body, Trim, Edged, Lowered, LastMatch, Splice, NumberOf, Numeral, Glues, OwnAlone, Apart;
    var x := ScanRules(e);
    LoweredStays(x, body, max);
    LoweredIsExact(x, body, max);
    LastExists(x, body, max);
    NumeralRoundTrip(max);
    var f := LastMatch(false, Mask(x, body)).value;
    LastUnglued(x, body, f);
    SplicedBody(e, body, f.at, f.len, Numeral(max));
  }

  lemma LastUnglued(x: Rules, s: string, f: Found)
    requires CountAt(Mask(x, s), f) && |Mask(x, s)| == |s| && s[f.at - 1] != '$'
    ensures 0 < f.at && 0 < f.len && f.at + f.len <= |s| && AllTame(s[f.at..f.at + f.len]) && !Glues(s[f.at - 1])
  {
    hide Lex, Render, Visible;
    var m := Mask(x, s);
    MaskFaithful(x, false, s);
    SpaceOrDigit(' ');
    assert Tame(m[f.at]) && m[f.at] == s[f.at];
    if Visible(x, false, s, f.at - 1) { SpaceNotWord(s[f.at - 1]); } else { BeforeVisible(x, false, s, f.at); }
  }

  lemma RewriteAgain(p: Parser, e: Engine, body: string, max: nat)
    requires e != Oracle && Settled(e, body) && Clear(ScanRules(e), body)
    requires StatementLimit(ScanRules(e), body).All? && Agrees(p, ScanRules(e), body)
    requires CapLimit(p, e, body, max).Allowed? && Agrees(p, ScanRules(e), CapLimit(p, e, body, max).sql)
    ensures var t := CapLimit(p, e, body, max).sql;
            Body(e, t) == t && t != "" && (CapLimit(p, e, t, max) == Allowed(t, false, false) <==> Final(p, e, body))
  {
    hide Lex, Render, StatementLimit, Body, Trim, Edged, Own, OwnAlone, FirstAll, Splice, Numeral, Glues, RawAll, LastMatch;
    var x := ScanRules(e);
    OwnReadable(x, body);
    if Final(p, e, body) {
      AllHit(p, x, body, max);
      OwnEditCapped(p, e, body, max);
    } else {
      MissStaysAll(x, body, max);
      MissBody(e, body, max);
    }
  }

  lemma MissBody(e: Engine, body: string, max: nat)
    requires Settled(e, body) && FirstAll(false, body).Some?
    ensures var a := FirstAll(false, body).value;
            a + 3 <= |body| && var t := Splice(body, a, 3, Numeral(max)); t != "" && Body(e, t) == t
  {
    hide FirstAll, Trim, Body, Edged, Splice, Numeral;
    var a := FirstAll(false, body).value;
    FirstAllBehindSpace(false, body);
    AllIsTame(body, a);
    SpaceNotWord(body[a - 1]);
    NumeralRoundTrip(max);
    SplicedBody(e, body, a, 3, Numeral(max));
  }

  /**
   * A second guarding changes nothing exactly when the first was final.
   * The parser agrees with the text before and after, and takes the guarded statement for an EXPLAIN
   * only if the statement was one.
   */
  lemma GuardTwiceIff(p: Parser, e: Engine, s: string, max: nat)
    requires e != Oracle && Guard(p, e, s, max).Allowed? && Clear(ScanRules(e), Body(e, s))
    requires Agrees(p, ScanRules(e), Body(e, s)) && Agrees(p, ScanRules(e), Guard(p, e, s, max).sql)
    requires p.explain(Guard(p, e, s, max).sql) ==> p.explain(Body(e, s))
    ensures var v := Guard(p, e, s, max);
            Guard(p, e, v.sql, max) == Allowed(v.sql, false, false) <==> p.explain(Body(e, s)) || Final(p, e, Body(e, s))
  {
    hide Lex, Render, StatementLimit, Body, Trim, Edged, Clear, Lowered, RewriteFirst, RewriteAt, CapClause, EndsOpen, Depth;
    var x, body := ScanRules(e), Body(e, s);
    BodySettled(e, s);
    BodyOf(e, body);
    if !p.explain(body) {
      match StatementLimit(x, body)
      case NoLimit => AppendAgain(p, e, body, max);
      case Count(n) => if n > max && Lowered(x, body, max).Some? { LowerAgain(p, e, body, max); }
      case All(_) => RewriteAgain(p, e, body, max);
      case NonLiteral =>
    }
  }
}
