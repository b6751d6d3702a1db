/** What is located, read and matched in a mask, spelled out by position. */
module LimitMeaning {
  import opened Text
  import opened Scanner
  import opened LimitText
  import opened LimitLaws
  import opened LimitRewrite
  import opened GuardAgain

  // ----- the located LIMIT -----

  /** The word LIMIT, in any case, at the start or behind white space or `)`. */
  ghost predicate Keyword(m: string, i: nat) {
    && i + 5 <= |m| && Low(m[i..i + 5]) == "limit"
    && (i + 5 == |m| || !(IsWord(m[i + 5]) || m[i + 5] == '\U{17F}' || m[i + 5] == '\U{212A}'))
    && (i == 0 || IsSpace(m[i - 1]) || m[i - 1] == ')')
  }

  /** With as many parentheses closed as opened before it. */
  ghost predicate TopLevel(m: string, i: nat) { i <= |m| && Keyword(m, i) && Depth(m[..i]) == 0 }

  lemma KeywordIff(m: string, i: nat)
    requires i < |m|
    ensures Keyword(m, i) <==> LimitWord(m, i)
  {
    LimitSpelled(m, i);
  }

  lemma LimitSpelled(m: string, i: nat)
    requires i <= |m|
    ensures IsLimit(m[i..]) <==> i + 5 <= |m| && Low(m[i..i + 5]) == "limit"
  {
    if i + 5 <= |m| {
      var w, l := m[i..i + 5], Low(m[i..i + 5]);
      assert |l| == 5 && l[0] == LowChar(w[0]) && l[1] == LowChar(w[1]) && l[2] == LowChar(w[2]) && l[3] == LowChar(w[3])
             && l[4] == LowChar(w[4]);
      assert w == m[i..][..5];
      assert l == "limit" <==> l[0] == 'l' && l[1] == 'i' && l[2] == 'm' && l[3] == 'i' && l[4] == 't';
    }
  }

  lemma {:induction false} ScanMeans(m: string, n: nat)
    requires n <= |m|
    ensures var at := ScanLimit(m, n).at;
            && (at >= 0 ==> TopLevel(m, at))
            && forall j :: 0 <= j < n && TopLevel(m, j) ==> j <= at
  {
    hide LimitWord, Keyword, Depth;
    if n > 0 {
      ScanMeans(m, n - 1);
      ScanUnfold(m, n);
      ScanDepth(m, n - 1);
      KeywordIff(m, n - 1);
      if Keyword(m, n - 1) { NotParen(m, n - 1); }
    }
  }

  lemma NotParen(m: string, i: nat)
    requires i < |m| && Keyword(m, i)
    ensures m[i] != '(' && m[i] != ')'
  {
    assert Low(m[i..i + 5])[0] == LowChar(m[i]);
  }

  /** The located LIMIT is the last one outside all parentheses. */
  lemma LocatedIff(m: string, i: int)
    ensures Located(m) == i <==>
              (i == -1 && forall j: nat :: !TopLevel(m, j)) || (i >= 0 && TopLevel(m, i) && forall j: nat :: j > i ==> !TopLevel(m, j))
  {
    hide ScanLimit, TopLevel;
    ScanMeans(m, |m|);
    forall j: nat | TopLevel(m, j) ensures j < |m| { InMask(m, j); }
  }

  lemma InMask(m: string, j: nat)
    requires TopLevel(m, j)
    ensures j < |m|
  {}

  // ----- what a clause says -----

  /** All the white space from `i` on, ending at `j`. */
  ghost predicate Gap(w: string, i: nat, j: nat) {
    i <= j <= |w| && (forall k :: i <= k < j ==> IsSpace(w[k])) && (j == |w| || !IsSpace(w[j]))
  }

  /** All the digits from `i` on, ending at `j`, and there are some. */
  ghost predicate Run(w: string, i: nat, j: nat) {
    i < j <= |w| && (forall k :: i <= k < j ==> IsDigit(w[k])) && (j == |w| || !IsDigit(w[j]))
  }

  /** A comma and a second number behind the first one, which ends at `j`. */
  ghost predicate Second(w: string, j: nat, k: nat, l: nat) {
    exists c: nat :: Gap(w, j, c) && c < |w| && w[c] == ',' && Gap(w, c + 1, k) && Run(w, k, l)
  }

  /** LIMIT, white space, and a number. */
  ghost predicate First(w: string, i: nat, j: nat) { i > 5 && Gap(w, 5, i) && Run(w, i, j) }

  lemma GapIs(w: string, i: nat)
    requires i <= |w|
    ensures forall j: nat :: Gap(w, i, j) <==> j == i + SpaceLen(w[i..])
  {
    var u := w[i..];
    assert forall k :: 0 <= k < |u| ==> u[k] == w[i + k];
    forall k | i <= k < i + SpaceLen(u) ensures IsSpace(w[k]) { assert w[k] == u[k - i]; }
    assert SpaceLen(u) < |u| ==> !IsSpace(w[i + SpaceLen(u)]);
  }

  lemma RunIs(w: string, i: nat)
    requires i <= |w|
    ensures forall j: nat :: Run(w, i, j) <==> DigitLen(w[i..]) > 0 && j == i + DigitLen(w[i..])
  {
    var u := w[i..];
    assert forall k :: 0 <= k < |u| ==> u[k] == w[i + k];
    forall k | i <= k < i + DigitLen(u) ensures IsDigit(w[k]) { assert w[k] == u[k - i]; }
    assert DigitLen(u) < |u| ==> !IsDigit(w[i + DigitLen(u)]);
  }

  lemma SecondIs(w: string, j: nat)
    requires j <= |w|
    ensures var r := Comma(w[j..]);
            && (r.Some? ==> Second(w, j, j + r.value.at, j + r.value.at + r.value.len))
            && (r.None? ==> forall k: nat, l: nat :: !Second(w, j, k, l))
            && (forall k: nat, l: nat :: r.Some? && Second(w, j, k, l) ==> k == j + r.value.at && l == k + r.value.len)
  {
    hide Second, Reads, Comma, CountIn;
    var r := Comma(w[j..]);
    CommaIsRead(w, j);
    forall k: nat, l: nat ensures Second(w, j, k, l) <==> Reads(w, j, k, l) {
      if Second(w, j, k, l) { SecondReads(w, j, k, l); }
      if Reads(w, j, k, l) { ReadsSecond(w, j, k, l); }
    }
  }

  lemma CommaIsRead(w: string, j: nat)
    requires j <= |w|
    ensures var r := Comma(w[j..]);
            && (r.Some? ==> Reads(w, j, j + r.value.at, j + r.value.at + r.value.len))
            && (forall k: nat, l: nat :: Reads(w, j, k, l) ==> r.Some? && k == j + r.value.at && l == k + r.value.len)
  {
    hide Reads, Comma, CountIn;
    if Comma(w[j..]).Some? { CommaIsOne(w, j); }
    forall k: nat, l: nat | Reads(w, j, k, l)
      ensures var r := Comma(w[j..]); r.Some? && k == j + r.value.at && l == k + r.value.len
    {
      OneIsComma(w, j, k, l);
    }
  }

  lemma CommaIsOne(w: string, j: nat)
    requires j <= |w| && Comma(w[j..]).Some?
    ensures var r := Comma(w[j..]).value; Reads(w, j, j + r.at, j + r.at + r.len)
  {
    hide SpaceLen, DigitLen, CountIn, Comma;
    CommaReads(w, j);
    var c := j + SpaceLen(w[j..]);
    assert c < |w| && w[c] == ',';
  }

  lemma OneIsComma(w: string, j: nat, k: nat, l: nat)
    requires j <= |w| && Reads(w, j, k, l)
    ensures var r := Comma(w[j..]); r.Some? && k == j + r.value.at && l == k + r.value.len
  {
    hide SpaceLen, DigitLen, CountIn, Comma;
    CommaReads(w, j);
    var c := j + SpaceLen(w[j..]);
    assert c < |w| && w[c] == ',' && k == c + 1 + SpaceLen(w[c + 1..]);
  }

  /** The second number, by lengths. */
  predicate Reads(w: string, j: nat, k: nat, l: nat)
    requires j <= |w|
  {
    var c := j + SpaceLen(w[j..]);
    && c < |w| && w[c] == ',' && k == c + 1 + SpaceLen(w[c + 1..]) && k <= |w|
    && DigitLen(w[k..]) > 0 && l == k + DigitLen(w[k..])
  }

  lemma SecondReads(w: string, j: nat, k: nat, l: nat)
    requires j <= |w| && Second(w, j, k, l)
    ensures Reads(w, j, k, l)
  {
    hide SpaceLen, DigitLen, Gap, Run;
    var c: nat :| Gap(w, j, c) && c < |w| && w[c] == ',' && Gap(w, c + 1, k) && Run(w, k, l);
    GapIs(w, j);
    GapIs(w, c + 1);
    RunInside(w, k, l);
    RunIs(w, k);
  }

  lemma RunInside(w: string, k: nat, l: nat)
    requires Run(w, k, l)
    ensures k < l <= |w|
  {}

  lemma ReadsSecond(w: string, j: nat, k: nat, l: nat)
    requires j <= |w| && Reads(w, j, k, l)
    ensures Second(w, j, k, l)
  {
    hide SpaceLen, DigitLen, Gap, Run;
    var c := j + SpaceLen(w[j..]);
    GapIs(w, j);
    GapIs(w, c + 1);
    RunIs(w, k);
    assert Gap(w, j, c) && Gap(w, c + 1, k) && Run(w, k, l);
  }

  /** The second number, by the lengths of what is in front of it. */
  lemma CommaReads(w: string, j: nat)
    requires j <= |w|
    ensures var c, r := j + SpaceLen(w[j..]), Comma(w[j..]);
            if c < |w| && w[c] == ',' then
              var k := c + 1 + SpaceLen(w[c + 1..]);
              k <= |w| && if DigitLen(w[k..]) > 0 then r.Some? && r.value.at == k - j && r.value.len == DigitLen(w[k..]) else r.None?
            else r.None?
  {
    hide SpaceLen, DigitLen, CountIn;
    var u := w[j..];
    var n := SpaceLen(u);
    if n < |u| {
      assert u[n] == w[j + n];
      var v := u[n + 1..];
      assert v == w[j + n + 1..];
      assert v[SpaceLen(v)..] == w[j + n + 1 + SpaceLen(v)..];
    }
  }

  /** What is matched behind a LIMIT: the first number, or the second if there is one. */
  lemma MatchMeans(w: string)
    requires IsLimit(w)
    ensures var r := MatchHere(false, w);
            && (r.None? <==> forall i: nat, j: nat :: !First(w, i, j))
            && (forall i: nat, j: nat, k: nat, l: nat :: First(w, i, j) && Second(w, j, k, l) ==> r.Some? && r.value.at == k && r.value.len == l - k)
            && (forall i: nat, j: nat :: First(w, i, j) && (forall k: nat, l: nat :: !Second(w, j, k, l)) ==>
                  r.Some? && r.value.at == i && r.value.len == j - i)
  {
    hide SpaceLen, DigitLen, Comma, Gap, Run, Second, CountIn;
    GapIs(w, 5);
    var i := 5 + SpaceLen(w[5..]);
    RunIs(w, i);
    var b := DigitLen(w[i..]);
    if b > 0 {
      SecondIs(w, i + b);
      assert w[i..][b..] == w[i + b..];
    }
    if i > 5 && b > 0 { assert First(w, i, i + b); }
  }

  /** What the statement's limit reads as: ALL, a number, or neither. */
  lemma ReadMeans(x: Rules, s: string)
    ensures var m, c := Mask(x, s), StatementLimit(x, s);
            && (c.NoLimit? <==> forall i: nat :: !TopLevel(m, i))
            && (Located(m) >= 0 ==>
                  && (c.All? <==> exists a: nat :: AllClause(m[Located(m)..], a))
                  && (c.Count? <==> !c.All? && exists i: nat, j: nat :: First(m[Located(m)..], i, j)))
  {
    hide Lex, Render, TopLevel, AllClause, First, Located, MatchHere, SpaceLen;
    var m := Mask(x, s);
    StatementReads(x, s);
    LocatedIff(m, Located(m));
    if Located(m) >= 0 {
      var w := m[Located(m)..];
      LocatedWord(m);
      AllClauseIff(w, 5 + SpaceLen(w[5..]));
      forall a: nat | AllClause(w, a) ensures LimitAll(w) { AllClauseIff(w, a); }
      hide LimitAll;
      MatchMeans(w);
    }
  }

  lemma LocatedWord(m: string)
    requires Located(m) >= 0
    ensures Located(m) <= |m| && |m[Located(m)..]| >= 5 && IsLimit(m[Located(m)..])
  {
    LocatedIsLimit(m, |m|);
  }

  // ----- the last match -----

  /** The expression matches at `i`. */
  predicate Matches(g: bool, w: string, i: nat)
    requires i <= |w|
  {
    MatchHere(if i == 0 then g else IsWord(w[i - 1]), w[i..]).Some?
  }

  lemma MatchesShift(g: bool, w: string, j: nat, i: nat)
    requires 0 < j <= i <= |w|
    ensures Matches(g, w, i) == Matches(IsWord(w[j - 1]), w[j..], i - j)
  {
    hide MatchHere;
    assert w[i..] == w[j..][i - j..];
    if i > j { assert w[j..][i - j - 1] == w[i - 1]; }
  }

  /** No match starts within another. */
  lemma MatchesApart(g: bool, w: string, i: nat)
    requires MatchHere(g, w).Some? && 0 < i < MatchHere(g, w).value.end && i < |w|
    ensures !Matches(g, w, i)
  {
    GluedNever(g, w);
    SoftNotL(w, i);
    hide MatchHere;
    NoLNoMatch(g, w, i);
  }

  lemma SoftNotL(w: string, i: nat)
    requires MatchHere(false, w).Some? && 0 < i < MatchHere(false, w).value.end && i < |w|
    ensures LowChar(w[i]) != 'l'
  {
    hide MatchHere;
    var f := MatchHere(false, w).value;
    LetterNotSoft(w[i]);
    if i < 5 { LimitNotL(w, i); } else if i < f.at { MatchSoft(w, i); } else { CountSoft(w, f, i); }
  }

  lemma LimitNotL(w: string, i: nat)
    requires IsLimit(w) && 0 < i < 5
    ensures LowChar(w[i]) != 'l'
  {
    assert LowChar(w[i]) == "limit"[i];
  }

  lemma CountSoft(w: string, f: Match, i: nat)
    requires CountIn(w, f) && f.at <= i < f.end
    ensures IsDigit(w[i]) || IsSpace(w[i])
  {}

  lemma LetterNotSoft(c: char)
    ensures LowChar(c) == 'l' ==> Stopper(c) && !IsDigit(c) && !IsSpace(c)
  {
    if LowChar(c) == 'l' { LetterStops(c); }
  }

  lemma NoLNoMatch(g: bool, w: string, i: nat)
    requires i < |w| && LowChar(w[i]) != 'l'
    ensures !Matches(g, w, i)
  {
    assert w[i..][0] == w[i];
  }

  /** The last of the successive matches is the last place where the expression matches at all. */
  lemma {:induction false} LastIsGreatest(g: bool, w: string)
    ensures match LastMatch(g, w)
            case None => forall i :: 0 <= i <= |w| ==> !Matches(g, w, i)
            case Some(f) => f.start <= |w| && Matches(g, w, f.start) && forall i :: f.start < i <= |w| ==> !Matches(g, w, i)
    decreases |w|
  {
    hide MatchHere, LastMatch, Advance, IsWord, CountIn, Matches;
    NoneAtEnd(g, w);
    if w == [] {
      NoMatch(g);
    } else {
      LastMatchUnfold(g, w);
      var j := Advance(g, w);
      LastIsGreatest(IsWord(w[j - 1]), w[j..]);
      forall i | j <= i <= |w| ensures Matches(g, w, i) == Matches(IsWord(w[j - 1]), w[j..], i - j) { MatchesShift(g, w, j, i); }
      forall i | 0 < i < j ensures !Matches(g, w, i) { BeforeAdvance(g, w, i); }
      FrontMatches(g, w);
    }
  }

  lemma FrontMatches(g: bool, w: string)
    ensures Matches(g, w, 0) <==> MatchHere(g, w).Some?
  {
    assert w[0..] == w;
  }

  lemma BeforeAdvance(g: bool, w: string, i: nat)
    requires w != [] && 0 < i < Advance(g, w)
    ensures !Matches(g, w, i)
  {
    hide Matches;
    MatchesApart(g, w, i);
  }

  lemma NoneAtEnd(g: bool, w: string)
    ensures !Matches(g, w, |w|)
  {
    assert w[|w|..] == [];
  }
}
