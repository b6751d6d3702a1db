/** Lowering is exact and final; an appended cap is the statement's own limit. */
module LimitLaws {
  import opened Text
  import opened Scanner
  import opened ScannerLaws
  import opened LimitText

  // ----- the last match after its count was replaced -----

  lemma {:induction false} SpaceLocal(w: string, v: string, k: nat, q: nat)
    requires Shares(w, v, k) && q < k && !IsSpace(w[q])
    ensures SpaceLen(v) == SpaceLen(w) <= q
  {
    SharesAt(w, v, k, 0);
    if IsSpace(w[0]) {
      SharesTail(w, v, k, 1);
      SpaceLocal(w[1..], v[1..], k - 1, q - 1);
    }
  }

  lemma {:induction false} DigitLocal(w: string, v: string, k: nat, q: nat)
    requires Shares(w, v, k) && q < k && !IsDigit(w[q])
    ensures DigitLen(v) == DigitLen(w) <= q
  {
    SharesAt(w, v, k, 0);
    if IsDigit(w[0]) {
      SharesTail(w, v, k, 1);
      DigitLocal(w[1..], v[1..], k - 1, q - 1);
    }
  }

  /** Neither white space, nor a digit, nor a comma: a match attempt never reads past it. */
  predicate Stopper(c: char) { !IsSpace(c) && !IsDigit(c) && c != ',' }

  lemma NumLocal(w: string, v: string, k: nat, q: nat)
    requires Shares(w, v, k) && q < k && Stopper(w[q])
    ensures Num(v) == Num(w)
  {
    hide SpaceLen, DigitLen;
    SpaceLocal(w, v, k, q);
    var p := SpaceLen(w);
    SharesTail(w, v, k, p);
    DigitLocal(w[p..], v[p..], k - p, q - p);
  }

  lemma CommaLocal(w: string, v: string, k: nat, q: nat)
    requires Shares(w, v, k) && q < k && Stopper(w[q])
    ensures Comma(v) == Comma(w)
  {
    hide SpaceLen, Num, CountIn;
    SpaceLocal(w, v, k, q);
    var c := SpaceLen(w);
    SharesAt(w, v, k, c);
    if w[c] == ',' {
      SharesTail(w, v, k, c + 1);
      NumLocal(w[c + 1..], v[c + 1..], k - c - 1, q - c - 1);
    }
  }

  lemma CountsLocal(w: string, v: string, k: nat, q: nat)
    requires Shares(w, v, k) && q < k && Stopper(w[q])
    ensures Counts(v) == Counts(w)
  {
    hide SpaceLen, DigitLen, Comma;
    DigitLocal(w, v, k, q);
    var b := DigitLen(w);
    SharesTail(w, v, k, b);
    CommaLocal(w[b..], v[b..], k - b, q - b);
    SpaceLocal(w[b..], v[b..], k - b, q - b);
  }

  /** A match attempt in front of a stopper does not see what follows the stopper. */
  lemma MatchLocal(g: bool, w: string, v: string, k: nat, q: nat)
    requires Shares(w, v, k) && 5 <= q < k && Stopper(w[q])
    ensures MatchHere(g, v) == MatchHere(g, w)
  {
    hide SpaceLen, Counts, IsLimit;
    LimitShared(w, v, k);
    SharesTail(w, v, k, 5);
    SpaceLocal(w[5..], v[5..], k - 5, q - 5);
    var a := 5 + SpaceLen(w[5..]);
    SharesTail(w, v, k, a);
    CountsLocal(w[a..], v[a..], k - a, q - a);
  }

  lemma LimitShared(w: string, v: string, k: nat)
    requires Shares(w, v, k) && 5 <= k
    ensures IsLimit(v) == IsLimit(w)
  {
    assert forall i :: 0 <= i < 5 ==> w[..k][i] == v[..k][i];
  }

  lemma {:induction false} DigitsThen(d: string, rest: string)
    requires AllDigits(d) && (rest == [] || !IsDigit(rest[0]))
    ensures DigitLen(d + rest) == |d|
  {
    if d == [] {
      assert d + rest == rest;
    } else {
      assert (d + rest)[1..] == d[1..] + rest;
      DigitsThen(d[1..], rest);
    }
  }

  lemma {:induction false} SpacesThen(a: string, rest: string)
    requires (forall i :: 0 <= i < |a| ==> IsSpace(a[i])) && (rest == [] || !IsSpace(rest[0]))
    ensures SpaceLen(a + rest) == |a|
  {
    if a == [] {
      assert a + rest == rest;
    } else {
      assert (a + rest)[1..] == a[1..] + rest;
      SpacesThen(a[1..], rest);
    }
  }

  lemma NumSplice(w: string, d: string)
    requires Num(w).Some? && d != [] && AllDigits(d)
    ensures var m := Num(w).value; Num(Splice(w, m.at, m.len, d)) == Some(Match(m.at, |d|, m.at + |d|))
  {
    hide SpaceLen, DigitLen;
    var m := Num(w).value;
    var v, rest := Splice(w, m.at, m.len, d), w[m.at + m.len..];
    assert v == w[..m.at] + (d + rest) && v[m.at..] == d + rest;
    assert rest != [] ==> rest[0] == w[m.at..][m.len];
    SpacesThen(w[..m.at], d + rest);
    DigitsThen(d, rest);
  }

  lemma CommaSplice(w: string, d: string)
    requires Comma(w).Some? && d != [] && AllDigits(d)
    ensures var m := Comma(w).value;
            Comma(Splice(w, m.at, m.len, d)) == Some(Match(m.at, |d|, m.end - m.len + |d|))
  {
    hide SpaceLen, Num, Splice, CountIn;
    var c := SpaceLen(w);
    var t := w[c + 1..];
    var n := Num(t).value;
    NumFits(t);
    SpliceTail(w, c + 1 + n.at, n.len, d, c + 1);
    CommaKept(w, c, c + 1 + n.at, n.len, d);
    NumSplice(t, d);
  }

  lemma CommaFits(w: string)
    requires Comma(w).Some?
    ensures var m := Comma(w).value; 0 < m.at && 0 < m.len && m.at + m.len <= m.end <= |w|
  {}

  lemma NumFits(w: string)
    requires Num(w).Some?
    ensures Num(w).value.at + Num(w).value.len == Num(w).value.end <= |w|
  {}

  /** White space and a comma in front of the count stay in front. */
  lemma CommaKept(w: string, c: nat, k: nat, n: nat, d: string)
    requires c == SpaceLen(w) < k && k + n <= |w| && w[c] == ','
    ensures var v := Splice(w, k, n, d); SpaceLen(v) == c < |v| && v[c] == ','
  {
    hide SpaceLen;
    var v := Splice(w, k, n, d);
    assert v == w[..c] + ([','] + v[c + 1..]);
    SpacesThen(w[..c], [','] + v[c + 1..]);
  }

  /** Splicing the second count leaves the first one in front. */
  lemma SecondCount(w: string, b: nat, n: Match, d: string)
    requires b == DigitLen(w) > 0 && Comma(w[b..]) == Some(n) && n.at + n.len <= |w| - b && d != [] && AllDigits(d)
    ensures var v := Splice(w, b + n.at, n.len, d);
            DigitLen(v) == b && b <= |v| && v[b..] == Splice(w[b..], n.at, n.len, d)
  {
    hide SpaceLen, DigitLen, Comma, Splice, CountIn;
    var rest := w[b..];
    SpliceTail(w, b + n.at, n.len, d, b);
    SpliceKeepsHead(w, b + n.at, n.len, d, b);
    CommaNotDigit(rest, d);
    DigitsThen(w[..b], Splice(rest, n.at, n.len, d));
  }

  lemma CountsSplice(w: string, d: string)
    requires Counts(w).Some? && d != [] && AllDigits(d)
    ensures var m := Counts(w).value;
            Counts(Splice(w, m.at, m.len, d)) == Some(Match(m.at, |d|, m.end - m.len + |d|))
  {
    hide SpaceLen, DigitLen, Comma, Splice, CountIn;
    var b := DigitLen(w);
    var rest := w[b..];
    if Comma(rest).None? {
      DigitsThen(d, rest);
      SpliceHead(w, b, d);
      assert (d + rest)[|d|..] == rest;
    } else {
      var n := Comma(rest).value;
      CommaFits(rest);
      SecondCount(w, b, n, d);
      CommaSplice(rest, d);
    }
  }

  lemma SpliceHead(w: string, b: nat, d: string)
    requires b <= |w|
    ensures Splice(w, 0, b, d) == d + w[b..] && Splice(w, 0, b, d)[|d|..] == w[b..]
  {}

  lemma SpliceKeepsHead(w: string, k: nat, n: nat, d: string, b: nat)
    requires k + n <= |w| && b <= k
    ensures Splice(w, k, n, d) == w[..b] + Splice(w[b..], k - b, n, d)
  {}

  lemma CommaNotDigit(w: string, d: string)
    requires Comma(w).Some?
    ensures var m := Comma(w).value; |Splice(w, m.at, m.len, d)| > 0 && !IsDigit(Splice(w, m.at, m.len, d)[0])
  {
    hide Num, SpaceLen;
    assert w != [] && (IsSpace(w[0]) || w[0] == ',');
  }

  lemma MatchSplice(g: bool, w: string, d: string)
    requires MatchHere(g, w).Some? && d != [] && AllDigits(d)
    ensures var m := MatchHere(g, w).value;
            MatchHere(g, Splice(w, m.at, m.len, d)) == Some(Match(m.at, |d|, m.end - m.len + |d|))
  {
    hide SpaceLen, Counts, Splice, IsLimit, CountIn, IsSpace;
    var m := MatchHere(g, w).value;
    MatchAdvances(w, m);
    var v, a := Splice(w, m.at, m.len, d), 5 + SpaceLen(w[5..]);
    SpliceShares(w, m.at, m.len, d);
    LimitShared(w, v, m.at);
    CountsSplice(w[a..], d);
    SpliceTail(w, m.at, m.len, d, a);
    MatchSpaces(w, m.at, m.len, d);
  }

  /** The white space behind `limit` is untouched by a splice of the count. */
  lemma MatchSpaces(w: string, k: nat, n: nat, d: string)
    requires 5 <= |w| && k + n <= |w| && 5 + SpaceLen(w[5..]) <= k
    requires var a := 5 + SpaceLen(w[5..]); Counts(w[a..]).Some? && Counts(w[a..]).value.at == k - a && Counts(w[a..]).value.len == n
    requires d != [] && AllDigits(d)
    ensures var v := Splice(w, k, n, d); |v| >= 5 && SpaceLen(v[5..]) == SpaceLen(w[5..])
  {
    hide SpaceLen, Counts, Splice;
    var v, a := Splice(w, k, n, d), 5 + SpaceLen(w[5..]);
    SpliceTail(w, k, n, d, a);
    SpliceTail(w, k, n, d, 5);
    SpliceKeepsHead(w[5..], k - 5, n, d, a - 5);
    assert w[5..][a - 5..] == w[a..];
    CountsNotSpace(w[a..], d);
    SpacesThen(w[5..][..a - 5], v[a..]);
  }

  lemma CountsNotSpace(w: string, d: string)
    requires Counts(w).Some? && d != [] && AllDigits(d)
    ensures var m := Counts(w).value; |Splice(w, m.at, m.len, d)| > 0 && !IsSpace(Splice(w, m.at, m.len, d)[0])
  {
    hide Comma, SpaceLen, DigitLen;
    assert IsDigit(w[0]);
  }

  /** Replacing the last count leaves it the last count. */
  lemma {:induction false} LastMatchSplice(g: bool, w: string, d: string)
    requires LastMatch(g, w).Some? && d != [] && AllDigits(d)
    ensures CountAt(w, LastMatch(g, w).value)
    ensures var f := LastMatch(g, w).value;
            LastMatch(g, Splice(w, f.at, f.len, d)) == Some(Found(f.start, f.at, |d|))
    decreases |w|
  {
    hide MatchHere, Splice, LastMatch, Advance;
    LastMatchCount(g, w);
    LastMatchUnfold(g, w);
    var f, j := LastMatch(g, w).value, Advance(g, w);
    var g', u := IsWord(w[j - 1]), w[j..];
    if LastMatch(g', u).None? {
      SpliceOnlyMatch(g, w, d);
    } else {
      LastMatchSplice(g', u, d);
      SpliceLaterMatch(g, w, d);
      var v := Splice(w, f.at, f.len, d);
      LastMatchUnfold(g, v);
    }
  }

  lemma SpliceOnlyMatch(g: bool, w: string, d: string)
    requires MatchHere(g, w).Some? && d != [] && AllDigits(d)
    requires var j := Advance(g, w); LastMatch(IsWord(w[j - 1]), w[j..]).None?
    ensures var m := MatchHere(g, w).value;
            LastMatch(g, Splice(w, m.at, m.len, d)) == Some(Found(0, m.at, |d|))
  {
    hide MatchHere, Splice, LastMatch;
    var m := MatchHere(g, w).value;
    MatchSplice(g, w, d);
    SpliceAfter(w, m, d);
    LastMatchUnfold(g, Splice(w, m.at, m.len, d));
  }

  lemma SpliceLaterMatch(g: bool, w: string, d: string)
    requires w != [] && d != [] && AllDigits(d)
    requires var j := Advance(g, w); LastMatch(IsWord(w[j - 1]), w[j..]).Some?
    requires LastMatch(g, w).Some? && CountAt(w, LastMatch(g, w).value)
    requires var f := LastMatch(g, w).value; f.start < f.at && f.at + f.len <= |w|
    ensures var j, f := Advance(g, w), LastMatch(g, w).value;
            var v, u := Splice(w, f.at, f.len, d), w[j..];
            j <= f.start && v != [] && Advance(g, v) == j && MatchHere(g, v) == MatchHere(g, w)
            && v[j..] == Splice(u, f.at - j, f.len, d) && v[j - 1] == w[j - 1]
  {
    hide MatchHere, Splice, LastMatch, CountAt, IsWord, Shares, CountIn, IsLimit;
    LastMatchUnfold(g, w);
    var f, j := LastMatch(g, w).value, Advance(g, w);
    assert j <= f.start;
    var v := Splice(w, f.at, f.len, d);
    DigitsAreTame(d);
    SpliceShares(w, f.at, f.len, d);
    SpliceTail(w, f.at, f.len, d, j);
    SharesAt(w, v, f.at, j - 1);
    MatchUnmoved(g, w, v, f);
  }

  /** Splicing inside a match shifts its end and keeps what follows. */
  lemma SpliceAfter(w: string, m: Match, d: string)
    requires CountIn(w, m) && d != [] && AllDigits(d)
    ensures var v, end := Splice(w, m.at, m.len, d), m.end - m.len + |d|;
            0 < end <= |v| && v[end..] == w[m.end..] && IsWord(v[end - 1]) == IsWord(w[m.end - 1])
  {
    var v, end := Splice(w, m.at, m.len, d), m.end - m.len + |d|;
    if m.end > m.at + m.len {
      assert v[end - 1] == w[m.end - 1];
    } else {
      assert v[end - 1] == d[|d| - 1];
    }
  }

  /** An earlier attempt is blind to a later count: the later `limit` stands between them. */
  lemma MatchUnmoved(g: bool, w: string, v: string, f: Found)
    requires CountAt(w, f) && Shares(w, v, f.at) && 0 < f.start
    ensures MatchHere(g, v) == MatchHere(g, w)
  {
    hide MatchHere;
    if f.start >= 5 {
      assert Stopper(w[f.start]);
      MatchLocal(g, w, v, f.at, f.start);
    } else {
      NotLimitTwice(g, w, f.start);
      SharesAt(w, v, f.at, f.start);
      NotLimitTwice(g, v, f.start);
    }
  }

  lemma NotLimitTwice(g: bool, w: string, j: nat)
    requires 0 < j < 5 && j < |w| && LowChar(w[j]) == 'l'
    ensures MatchHere(g, w).None?
  {
    hide Counts, SpaceLen;
    assert j == 1 || j == 2 || j == 3 || j == 4;
    assert !IsLimit(w);
  }

  /**
   * Lowering replaces exactly the digits of the last visible LIMIT count, in the statement and in
   * its mask alike, and there is nothing left to lower afterwards.
   */
  lemma LoweringIsExact(x: Rules, s: string, maxRows: nat)
    ensures Lowered(x, s, maxRows).None? <==>
            LastMatch(false, Mask(x, s)).None?
            || (CountAt(Mask(x, s), LastMatch(false, Mask(x, s)).value) && LastCount(x, s) <= maxRows)
    ensures Lowered(x, s, maxRows).Some? ==>
            var m, f, r, d := Mask(x, s), LastMatch(false, Mask(x, s)).value, Lowered(x, s, maxRows).value, Numeral(maxRows);
            && |m| == |s| && CountAt(m, f) && s[f.at..f.at + f.len] == m[f.at..f.at + f.len]
            && r == s[..f.at] + d + s[f.at + f.len..]
            && Mask(x, r) == m[..f.at] + d + m[f.at + f.len..]
            && LastCount(x, r) == maxRows
            && Lowered(x, r, maxRows).None?
  {
    hide LastMatch, Lex, Tok, Render, NumberOf, Numeral, CountAt;
    MaskCount(x, s);
    if Lowered(x, s, maxRows).Some? { LoweredIsExact(x, s, maxRows); }
  }

  lemma LoweredIsExact(x: Rules, s: string, maxRows: nat)
    requires Lowered(x, s, maxRows).Some?
    ensures var m, f, r, d := Mask(x, s), LastMatch(false, Mask(x, s)).value, Lowered(x, s, maxRows).value, Numeral(maxRows);
            && |m| == |s| && CountAt(m, f) && s[f.at..f.at + f.len] == m[f.at..f.at + f.len]
            && r == Splice(s, f.at, f.len, d) && Mask(x, r) == Splice(m, f.at, f.len, d)
            && LastCount(x, r) == maxRows && Lowered(x, r, maxRows).None?
  {
    hide LastMatch, Lex, Tok, Render, NumberOf, Numeral, Splice, CountAt, LastCount, Lowered;
    LoweredEdit(x, s, maxRows);
    var m, f, d := Mask(x, s), LastMatch(false, Mask(x, s)).value, Numeral(maxRows);
    NumeralRoundTrip(maxRows);
    LastMatchSplice(false, m, d);
    CountFits(m, f);
    SpliceHolds(m, f.at, f.len, d);
    LoweredFinal(x, Splice(s, f.at, f.len, d), f.at, maxRows);
  }

  lemma LoweredEdit(x: Rules, s: string, maxRows: nat)
    requires Lowered(x, s, maxRows).Some?
    ensures var m, f, r, d := Mask(x, s), LastMatch(false, Mask(x, s)).value, Lowered(x, s, maxRows).value, Numeral(maxRows);
            && LastMatch(false, m).Some? && |m| == |s| && CountAt(m, f) && s[f.at..f.at + f.len] == m[f.at..f.at + f.len]
            && r == Splice(s, f.at, f.len, d) && Mask(x, r) == Splice(m, f.at, f.len, d)
  {
    hide LastMatch, Lex, Tok, Render, NumberOf, Numeral, Splice;
    MaskCount(x, s);
    var m, f, d := Mask(x, s), LastMatch(false, Mask(x, s)).value, Numeral(maxRows);
    MaskKeeps(x, false, s);
    DigitsShow(m, s, f);
    NumeralRoundTrip(maxRows);
    DigitsAreTame(d);
    MaskSplice(x, false, s, f.at, f.len, d);
  }

  /** A last count of exactly the cap leaves nothing to lower. */
  lemma LoweredFinal(x: Rules, r: string, at: nat, maxRows: nat)
    requires var m, d := Mask(x, r), Numeral(maxRows);
             && LastMatch(false, m).Some? && LastMatch(false, m).value.at == at && LastMatch(false, m).value.len == |d|
             && at + |d| <= |m| && m[at..at + |d|] == d
    ensures LastCount(x, r) == maxRows && Lowered(x, r, maxRows).None?
  {
    hide LastMatch, Lex, Tok, Render, NumberOf, Numeral, Splice;
    MaskCount(x, r);
    NumeralRoundTrip(maxRows);
  }

  lemma SpliceHolds(s: string, k: nat, n: nat, d: string)
    requires k + n <= |s|
    ensures |Splice(s, k, n, d)| == |s| - n + |d| && Splice(s, k, n, d)[k..k + |d|] == d
  {}

  /** The count the last visible LIMIT carries. */
  ghost function LastCount(x: Rules, s: string): int { LastCountIn(Mask(x, s)) }

  ghost function LastCountIn(m: string): int {
    LastMatchCount(false, m);
    match LastMatch(false, m) case None => -1 case Some(f) => NumberOf(m[f.at..f.at + f.len])
  }

  // ----- the appended cap binds -----

  function CapClause(n: nat): string { "\nLIMIT " + Numeral(n) }

  /** Opening minus closing parentheses. */
  ghost function Depth(m: string): int
  {
    if m == [] then 0
    else Depth(m[..|m| - 1]) + (var c := m[|m| - 1]; if c == '(' then 1 else if c == ')' then -1 else 0)
  }

  lemma {:induction false} ScanDepth(m: string, n: nat)
    requires n <= |m|
    ensures ScanLimit(m, n).depth == Depth(m[..n])
  {
    hide LimitWord;
    if n > 0 {
      ScanDepth(m, n - 1);
      assert m[..n][..n - 1] == m[..n - 1];
    }
  }

  /** Along the appended clause the depth stays put, and only its own keyword can be located. */
  lemma {:induction false} ScanClause(p: string, n: nat, k: nat)
    requires k <= |CapClause(n)|
    ensures var m := p + CapClause(n);
            var before, now := ScanLimit(m, |p|), ScanLimit(m, |p| + k);
            now.depth == before.depth
            && now.at == if k >= 2 && before.depth == 0 then |p| + 1 else before.at
  {
    hide LimitWord;
    var t := CapClause(n);
    var m := p + t;
    if k > 0 {
      ScanClause(p, n, k - 1);
      assert m[|p| + k - 1] == t[k - 1];
      assert t[k - 1] == "\nLIMIT "[if k <= 7 then k - 1 else 0] || IsDigit(t[k - 1]);
      if k == 2 {
        CapIsLimitWord(p, n);
      } else {
        NotL(m, |p| + k - 1);
      }
    }
  }

  lemma CapIsLimitWord(p: string, n: nat)
    ensures LimitWord(p + CapClause(n), |p| + 1)
  {
    var t := CapClause(n);
    var m := p + t;
    assert m[|p| + 1..] == t[1..] && m[|p|] == t[0] && m[|p| + 6] == t[6];
  }

  lemma NotL(m: string, i: nat)
    requires i < |m| && LowChar(m[i]) != 'l'
    ensures !LimitWord(m, i)
  {}

  lemma CountsAll(d: string)
    requires d != [] && AllDigits(d)
    ensures Counts(d) == Some(Match(0, |d|, |d|))
  {
    DigitsThen(d, []);
    assert d + [] == d && d[|d|..] == [];
  }

  lemma CapMatches(d: string)
    requires d != [] && AllDigits(d)
    ensures MatchHere(false, "LIMIT " + d) == Some(Match(6, |d|, 6 + |d|)) && !LimitAll("LIMIT " + d)
  {
    hide SpaceLen, Counts;
    var w := "LIMIT " + d;
    assert w[5..] == " " + d && w[6..] == d;
    SpacesThen(" ", d);
    CountsAll(d);
  }

  lemma CapReads(p: string, n: nat)
    ensures ReadLimit(p + CapClause(n), |p| + 1) == Count(n)
  {
    hide NumberOf, Numeral, MatchHere, LimitAll;
    var d := Numeral(n);
    var w := (p + CapClause(n))[|p| + 1..];
    assert w == "LIMIT " + d;
    CapMatches(d);
    assert w[6..6 + |d|] == d;
    NumeralRoundTrip(n);
  }

  /** The appended cap is the statement's limit: visible, located, read as `n`, behind a significant token. */
  ghost predicate Binds(x: Rules, body: string, n: nat) {
    var t := body + CapClause(n);
    var m := Mask(x, t);
    && m == Mask(x, body) + CapClause(n)
    && ScanLimit(m, |m|).at == |body| + 1
    && StatementLimit(x, t) == Count(n)
    && !EndsInNoise(Lex(x, false, body))
  }

  /** When it is, for every text. */
  ghost predicate Bindable(x: Rules, body: string) {
    !EndsOpen(Lex(x, false, body)) && Depth(Mask(x, body)) == 0 && Trim(x, body) == body
  }

  /** In a visible cap the located LIMIT is the cap's own exactly when the parentheses balance. */
  lemma VisibleCapLocated(x: Rules, body: string, n: nat)
    requires Mask(x, body + CapClause(n)) == Mask(x, body) + CapClause(n)
    ensures var m := Mask(x, body + CapClause(n));
            && (ScanLimit(m, |m|).at == |body| + 1 <==> Depth(Mask(x, body)) == 0)
            && (Depth(Mask(x, body)) == 0 ==> StatementLimit(x, body + CapClause(n)) == Count(n))
  {
    hide Lex, Render, Tok, ScanLimit, ReadLimit, Depth;
    CapIsClause(n);
    var p := Mask(x, body);
    var m := p + CapClause(n);
    MaskCount(x, body);
    ScanDepth(m, |p|);
    assert m[..|p|] == p;
    ScanClause(p, n, |CapClause(n)|);
    CapReads(p, n);
  }

  lemma BindsIff(x: Rules, body: string, n: nat)
    ensures Binds(x, body, n) <==> Bindable(x, body)
  {
    hide Lex, Render, Tok, ScanLimit, ReadLimit, Depth, Trim, EndsInNoise, EndsOpen;
    CapIsClause(n);
    AppendShows(x, false, body, CapClause(n));
    TrimmedIff(x, body);
    if Mask(x, body + CapClause(n)) == Mask(x, body) + CapClause(n) { VisibleCapLocated(x, body, n); }
  }

  /**
   * The cap appended to what the trimmer keeps is the statement's limit exactly when that text ends
   * outside every span, its visible parentheses balance, and the scan sees no noise at its end; the
   * last always holds where the two scanners agree.
   */
  lemma AppendedCapBinds(e: Engine, s: string, n: nat)
    ensures var x, body := ScanRules(e), Trim(TrimRules(e), s);
            Binds(x, body, n) <==> !EndsOpen(Lex(x, false, body)) && Depth(Mask(x, body)) == 0 && Trim(x, body) == body
    ensures var x, body := ScanRules(e), Trim(TrimRules(e), s);
            Agree(e, s) ==> (Binds(x, body, n) <==> !EndsInLiteral(Lex(x, false, s)) && Depth(Mask(x, body)) == 0)
  {
    hide Lex, Render, Depth, Trim, Binds, EndsInLiteral;
    var body := Trim(TrimRules(e), s);
    BindsIff(ScanRules(e), body, n);
    CapIsClause(n);
    AppendedCapShows(e, s, CapClause(n));
    if Agree(e, s) { TrimmersAgree(e, s); }
  }

  lemma CapIsClause(n: nat)
    ensures Clause(CapClause(n)) && |CapClause(n)| >= 2
  {
    var d := Numeral(n);
    forall i | 0 <= i < |CapClause(n)|
      ensures CapClause(n)[i] == '\n' || CapClause(n)[i] == ' ' || IsWord(CapClause(n)[i])
    {
      if i >= 7 { assert CapClause(n)[i] == d[i - 7]; }
    }
  }

  /**
   * On MySQL the trimmer does not know that `\\'` stays inside a literal.  Here the statement ends
   * outside every literal, yet what the trimmer keeps ends inside one and swallows the cap.
   */
  lemma TrimmerMissesEscapes(n: nat)
    ensures var x, s := ScanRules(Mysql), "'\\'--'";
            var body := Trim(TrimRules(Mysql), s);
            !Agree(Mysql, s) && !EndsOpen(Lex(x, false, s))
            && Mask(x, body + CapClause(n)) != Mask(x, body) + CapClause(n)
  {
    hide Tok, Lex, Render;
    var x, y, s, b, rest := ScanRules(Mysql), TrimRules(Mysql), "'\\'--'", "'\\'", "--'";
    EscapedQuote(x, y);
    assert s[6..] == [] && s[3..] == rest && s[..3] == b && rest[3..] == [] && b[..3] == b;
    LexStep(x, false, s);
    LexEmpty(x, false);
    LexStep(y, false, s);
    CommentToken(y);
    LexStep(y, false, rest);
    LexEmpty(y, false);
    assert Trim(y, s) == b;
    LexStep(x, false, b);
    CapIsClause(n);
    AppendShows(x, false, b, CapClause(n));
  }

  lemma CommentToken(y: Rules)
    ensures Tok(y, false, "--'") == Token(LineComment, 3, true)
  {
    var rest := "--'";
    assert rest[1..] == "-'" && rest[1..][1..] == "'" && rest[1..][1..][1..] == "";
  }

  lemma EscapedQuote(x: Rules, y: Rules)
    requires x.backslash && !y.backslash
    ensures Tok(x, false, "'\\'--'") == Token(Quote, 6, true)
    ensures Tok(y, false, "'\\'--'") == Token(Quote, 3, true)
    ensures Tok(x, false, "'\\'") == Token(Quote, 3, false)
  {
    var s := "'\\'--'";
    assert s[1..][2..] == "--'" && "--'"[1..] == "-'" && "-'"[1..] == "'";
    assert Lit("-'", '\'', true, true) == Reach(2, true);
    assert s[1..][1..] == "'--'";
    var b := "'\\'";
    assert b[1..][2..] == [];
  }

  /**
   * On MySQL the trimmer reads the tail of `'\\'x';` as an open literal and keeps the `;`.  The cap
   * lands behind the separator, and the text still reads as limited to `n`.
   */
  lemma TrimmerKeepsSeparator(n: nat)
    ensures var x, s := ScanRules(Mysql), "'\\'x';";
            && Trim(TrimRules(Mysql), s) == s && Trim(x, s) != s && !EndsOpen(Lex(x, false, s))
            && StatementLimit(x, s + CapClause(n)) == Count(n) && !Binds(x, s, n)
  {
    hide Tok, Lex, StatementLimit;
    var x, s := ScanRules(Mysql), "'\\'x';";
    ScanSeesSeparator(x);
    TrimmerSeesLiteral(TrimRules(Mysql));
    TrimmedIff(TrimRules(Mysql), s);
    TrimmedIff(x, s);
    CapIsClause(n);
    AppendShows(x, false, s, CapClause(n));
    SeparatorMask(x);
    VisibleCapLocated(x, s, n);
  }

  lemma ScanSeesSeparator(x: Rules)
    requires x == ScanRules(Mysql)
    ensures Lex(x, false, "'\\'x';") == More(Piece(Quote, "'\\'x'", true), More(Piece(Plain, ";", true), End))
  {
    hide Tok, Lex;
    var s := "'\\'x';";
    EscapedTokens(x);
    assert s[5..] == ";" && s[..5] == "'\\'x'" && ";"[1..] == [] && ";"[..1] == ";";
    LexStep(x, false, s);
    LexStep(x, false, ";");
    LexEmpty(x, false);
  }

  lemma EscapedTokens(x: Rules)
    requires x.backslash
    ensures Tok(x, false, "'\\'x';") == Token(Quote, 5, true) && Tok(x, false, ";") == Token(Plain, 1, true)
  {
    var s := "'\\'x';";
    assert s[1..][2..] == "x';" && "x';"[1..] == "';";
    assert Lit("';", '\'', true, true) == Reach(1, true);
    assert Lit("x';", '\'', true, true) == Reach(2, true);
  }

  lemma TrimmerSeesLiteral(y: Rules)
    requires y == TrimRules(Mysql)
    ensures Lex(y, false, "'\\'x';") ==
              More(Piece(Quote, "'\\'", true), More(Piece(Plain, "x", true), More(Piece(Quote, "';", false), End)))
  {
    hide Tok, Lex;
    var s := "'\\'x';";
    UnescapedTokens(y);
    assert s[3..] == "x';" && s[..3] == "'\\'" && "x';"[1..] == "';" && "x';"[..1] == "x" && "';"[2..] == [] && "';"[..2] == "';";
    LexStep(y, false, s);
    LexStep(y, false, "x';");
    LexStep(y, true, "';");
    LexEmpty(y, false);
  }

  lemma LitPass(c: char, w: string, q: char, bs: bool, dbl: bool)
    requires c != q && !(bs && c == '\\')
    ensures Lit([c] + w, q, bs, dbl) == Lit(w, q, bs, dbl).Shift(1)
  {
    assert ([c] + w)[1..] == w;
  }

  lemma LitClose(q: char, w: string, bs: bool, dbl: bool)
    requires !(bs && q == '\\') && (w == [] || w[0] != q || !dbl)
    ensures Lit([q] + w, q, bs, dbl) == Reach(1, true)
  {
    assert ([q] + w)[1..] == w;
  }

  lemma UnescapedTokens(y: Rules)
    requires !y.backslash
    ensures Tok(y, false, "'\\'x';") == Token(Quote, 3, true)
    ensures Tok(y, false, "x';") == Token(Plain, 1, true) && Tok(y, true, "';") == Token(Quote, 2, false)
  {
    hide Lit, Find, TagLen, Block, LineLen;
    assert "'\\'x';"[1..] == ['\\'] + "'x';" && "'x';" == ['\''] + "x';";
    LitClose('\'', "x';", false, true);
    LitPass('\\', "'x';", '\'', false, true);
    assert Tok(y, false, "'\\'x';") == Token(Quote, 3, true);
    hide Tok;
    OpenTail(y);
    PlainX(y);
  }

  lemma PlainX(y: Rules)
    ensures Tok(y, false, "x';") == Token(Plain, 1, true)
  {
    hide Lit, Find, TagLen, Block, LineLen;
  }

  lemma OpenTail(y: Rules)
    requires !y.backslash
    ensures Tok(y, true, "';") == Token(Quote, 2, false)
  {
    hide Find, TagLen, Block, LineLen;
    assert "';"[1..] == ";" && ";"[1..] == [];
    assert Lit("", '\'', false, true) == Reach(0, false);
    assert Lit(";", '\'', false, true) == Reach(1, false);
  }

  lemma SeparatorMask(x: Rules)
    requires Lex(x, false, "'\\'x';") == More(Piece(Quote, "'\\'x'", true), More(Piece(Plain, ";", true), End))
    ensures Depth(Mask(x, "'\\'x';")) == 0
  {
    hide Depth;
    var m := Spaces(5) + ";";
    assert Mask(x, "'\\'x';") == m;
    SeparatorDepth(m);
  }

  lemma SeparatorDepth(m: string)
    requires m == Spaces(5) + ";"
    ensures Depth(m) == 0
  {
    assert m[..5] == Spaces(5);
    SpacesDepth(5);
  }

  lemma {:induction false} SpacesDepth(n: nat)
    ensures Depth(Spaces(n)) == 0
  {
    if n > 0 {
      assert Spaces(n)[..n - 1] == Spaces(n - 1);
      SpacesDepth(n - 1);
    }
  }
}
