/**
 * Which clause the guard's edits hit.  `LIMIT ALL` is rewritten at the first raw match unless its
 * offset is known, and a high count is lowered at the last visible match; both are compared with
 * the statement's own clause, the one located outside all parentheses in the mask.
 */
module LimitRewrite {
  import opened Text
  import opened Scanner
  import opened ScannerLaws
  import opened LimitText
  import opened LimitLaws
  import opened SpliceLaws

  // ----- `/(\blimit\s+)all\b/i` on the raw text -----

  predicate AllAt(w: string, a: nat) {
    a + 3 <= |w| && LowChar(w[a]) == 'a' && LowChar(w[a + 1]) == 'l' && LowChar(w[a + 2]) == 'l'
  }

  /** The offset of `all` in a match at the front of `w`. */
  function RawAll(glued: bool, w: string): (r: Option<nat>)
    ensures r.Some? ==> IsLimit(w) && 5 < r.value && AllAt(w, r.value) && r.value == 5 + SpaceLen(w[5..])
  {
    if glued || !IsLimit(w) then None
    else
      var a := 5 + SpaceLen(w[5..]);
      if a > 5 && AllAt(w, a) && (a + 3 == |w| || !IsWord(w[a + 3])) then Some(a) else None
  }

  /** The offset of `all` in the first match. */
  function FirstAll(glued: bool, w: string): (r: Option<nat>)
    ensures r.Some? ==> AllAt(w, r.value)
    decreases |w|
  {
    if w == [] then None
    else
      var here := RawAll(glued, w);
      if here.Some? then here
      else match FirstAll(IsWord(w[0]), w[1..]) case None => None case Some(a) => Some(a + 1)
  }

  /** The rewrite without an offset. */
  function RewriteFirst(s: string, maxRows: nat): Option<string> {
    match FirstAll(false, s) case None => None case Some(a) => Some(Splice(s, a, 3, Numeral(maxRows)))
  }

  /** The rewrite at a known offset. */
  function RewriteAt(s: string, at: nat, maxRows: nat): Option<string>
    requires at <= |s|
  {
    match RawAll(false, s[at..]) case None => None case Some(a) => Some(Splice(s, at + a, 3, Numeral(maxRows)))
  }

  function Ahead(r: Option<nat>, i: nat): Option<nat> {
    match r case None => None case Some(a) => Some(a + i)
  }

  ghost function FirstAllFrom(s: string, i: nat): Option<nat>
    requires i <= |s|
  {
    Ahead(FirstAll(i > 0 && IsWord(s[i - 1]), s[i..]), i)
  }

  lemma FirstAllStep(s: string, i: nat)
    requires i < |s|
    ensures var here := RawAll(i > 0 && IsWord(s[i - 1]), s[i..]);
            FirstAllFrom(s, i) == if here.Some? then Some(i + here.value) else FirstAllFrom(s, i + 1)
    ensures var here := RawAll(i > 0 && IsWord(s[i - 1]), s[i..]); here.Some? ==> i + here.value + 3 <= |s|
  {
    hide RawAll;
    assert s[i..][1..] == s[i + 1..];
  }

  lemma FirstAllEnds(s: string)
    ensures FirstAllFrom(s, 0) == FirstAll(false, s) && FirstAllFrom(s, |s|).None?
  {
    assert s[0..] == s;
  }

  /** The replace call itself: the first offset at which the expression matches. */
  method ReplaceFirstAll(s: string, maxRows: nat) returns (r: Option<string>)
    ensures r == RewriteFirst(s, maxRows)
  {
    hide RawAll, FirstAll, FirstAllFrom, Numeral;
    FirstAllEnds(s);
    for i := 0 to |s|
      invariant FirstAll(false, s) == FirstAllFrom(s, i)
    {
      FirstAllStep(s, i);
      var here := RawAll(i > 0 && IsWord(s[i - 1]), s[i..]);
      if here.Some? { return Some(Splice(s, i + here.value, 3, Numeral(maxRows))); }
    }
    return None;
  }

  // ----- the statement's own clause -----

  datatype Span = Span(at: nat, len: nat)

  /** The count, or the word ALL, of a clause at the front of `w`. */
  function SpanIn(w: string): Option<Span> {
    if LimitAll(w) then Some(Span(5 + SpaceLen(w[5..]), 3))
    else match MatchHere(false, w) case None => None case Some(f) => Some(Span(f.at, f.len))
  }

  function Placed(o: Option<Span>, at: nat): Option<Span> {
    match o case None => None case Some(p) => Some(Span(at + p.at, p.len))
  }

  /** Where the statement's LIMIT stands in a mask, or -1. */
  function Located(m: string): (at: int)
    ensures -1 <= at && (at < |m| || at == -1)
  {
    ScanLimit(m, |m|).at
  }

  /** The count, or the word ALL, of the LIMIT located in a mask. */
  function Own(m: string): Option<Span> { if Located(m) < 0 then None else Placed(SpanIn(m[Located(m)..]), Located(m)) }

  /** What a clause at the front of `w` says. */
  function ReadClause(w: string): LimitClause {
    if LimitAll(w) then All(0)
    else match MatchHere(false, w)
      case None => NonLiteral
      case Some(f) => Count(NumberOf(w[f.at..f.at + f.len]))
  }

  lemma StatementReads(x: Rules, s: string)
    ensures var m := Mask(x, s);
            StatementLimit(x, s) ==
            if Located(m) < 0 then NoLimit
            else match ReadClause(m[Located(m)..]) case All(_) => All(Located(m)) case c => c
  {
    hide Lex, Render, LimitAll, MatchHere, ScanLimit;
    var m := Mask(x, s);
    if m == [] { assert ScanLimit(m, 0).at == -1 by { ScanNothing(m); } }
  }

  lemma ScanNothing(m: string)
    ensures ScanLimit(m, 0).at == -1
  {}

  lemma OwnReadable(x: Rules, s: string)
    ensures Own(Mask(x, s)).Some? <==> StatementLimit(x, s).Count? || StatementLimit(x, s).All?
  {
    hide Lex, Render, LimitAll, MatchHere, Located;
    StatementReads(x, s);
  }

  lemma SpanShown(w: string)
    requires SpanIn(w).Some?
    ensures var o := SpanIn(w).value; 5 < o.at && o.at + o.len <= |w| && Shown(w, o.at, o.len)
  {
    hide LimitAll, MatchHere, SpaceLen, Shown, IsLimit;
    if LimitAll(w) { AllShown(w); } else { CountShown(w, MatchHere(false, w).value); }
  }

  /** The own clause's word is visible, tame, and stands behind white space or a comma. */
  lemma OwnShown(m: string)
    requires Own(m).Some?
    ensures var o := Own(m).value; 0 <= Located(m) && Located(m) + 5 < o.at && o.at + o.len <= |m| && Shown(m, o.at, o.len)
  {
    hide Located, SpanIn, Shown;
    var at := Located(m);
    SpanShown(m[at..]);
    var o := SpanIn(m[at..]).value;
    ShownAhead(m, at, o.at, o.len);
  }

  lemma AllShown(w: string)
    requires LimitAll(w)
    ensures SpaceLen(w[5..]) > 0 && 5 + SpaceLen(w[5..]) + 3 <= |w| && Shown(w, 5 + SpaceLen(w[5..]), 3)
  {
    var a := 5 + SpaceLen(w[5..]);
    assert w[5..][a - 6] == w[a - 1];
    LetterTame(w[a]);
    LetterTame(w[a + 1]);
    LetterTame(w[a + 2]);
  }

  lemma LetterTame(c: char)
    requires LowChar(c) == 'a' || LowChar(c) == 'l'
    ensures Tame(c)
  {
    if 'A' <= c <= 'Z' { assert LowChar(c) as int == c as int + 32; }
  }

  lemma CountShown(w: string, f: Match)
    requires CountIn(w, f) && f.at > 0
    ensures Shown(w, f.at, f.len)
  {}

  lemma ShownAhead(m: string, at: nat, k: nat, n: nat)
    requires at <= |m| && k > 0 && Shown(m[at..], k, n)
    ensures at + k + n <= |m| && Shown(m, at + k, n)
  {
    var w := m[at..];
    forall i | at + k <= i < at + k + n ensures Tame(m[i]) { assert m[i] == w[i - at]; }
    assert m[at + k - 1] == w[k - 1];
  }

  /** The statement with its own clause set to `n` rows. */
  function OwnEdit(x: Rules, s: string, n: nat): string
    requires Own(Mask(x, s)).Some?
  {
    OwnInText(x, s);
    var o := Own(Mask(x, s)).value;
    Splice(s, o.at, o.len, Numeral(n))
  }

  lemma OwnInText(x: Rules, s: string)
    requires Own(Mask(x, s)).Some?
    ensures var m, o := Mask(x, s), Own(Mask(x, s)).value;
            |m| == |s| && o.at > 0 && o.at + o.len <= |s| && Shown(m, o.at, o.len)
            && forall i :: o.at <= i < o.at + o.len ==> s[i] == m[i]
  {
    hide Lex, Own, Shown;
    var m, o := Mask(x, s), Own(Mask(x, s)).value;
    OwnShown(m);
    MaskKeeps(x, false, s);
    ShownNotBlank(m, o.at, o.len);
  }

  lemma ShownNotBlank(m: string, k: nat, n: nat)
    requires Shown(m, k, n)
    ensures forall i :: k <= i < k + n ==> m[i] != ' '
  {}

  // ----- the located clause stays located -----

  /** A word at `k` that neither is nor holds the start of a LIMIT, behind white space or a comma. */
  ghost predicate Inner(m: string, k: nat, n: nat) {
    && 0 < k && k + n <= |m| && Shown(m, k, n) && forall i :: k <= i < k + n ==> !LimitWord(m, i)
  }

  lemma LimitBefore(m: string, v: string, k: nat, i: nat)
    requires i < k < |m| && k < |v| && m[..k] == v[..k] && (IsSpace(m[k - 1]) || m[k - 1] == ',')
    ensures LimitWord(v, i) == LimitWord(m, i)
  {
    assert forall j :: 0 <= j < k ==> m[..k][j] == v[..k][j];
    NotLetter(m[k - 1]);
    if i + 5 >= k {
      assert m[i..][k - 1 - i] == m[k - 1] && v[i..][k - 1 - i] == m[k - 1];
      assert k - 1 - i == 0 || k - 1 - i == 1 || k - 1 - i == 2 || k - 1 - i == 3 || k - 1 - i == 4;
    } else {
      assert forall j :: 0 <= j < 5 ==> m[i..][j] == m[i + j] == v[i + j] == v[i..][j];
    }
  }

  lemma NotLetter(c: char)
    requires IsSpace(c) || c == ','
    ensures LowChar(c) != 'l' && LowChar(c) != 'i' && LowChar(c) != 'm' && LowChar(c) != 't'
  {
    if 'A' <= c <= 'Z' { assert false; }
  }

  lemma LimitAfter(m: string, v: string, i: nat, j: nat)
    requires 0 < i < |m| && 0 < j < |v| && m[i..] == v[j..]
    requires (IsSpace(m[i - 1]) || m[i - 1] == ')') == (IsSpace(v[j - 1]) || v[j - 1] == ')')
    ensures LimitWord(v, j) == LimitWord(m, i)
  {
    if i + 5 < |m| { assert m[i + 5] == m[i..][5] == v[j..][5] == v[j + 5]; }
  }

  lemma {:induction false} ScanBefore(m: string, v: string, k: nat, j: nat)
    requires j <= k < |m| && k < |v| && m[..k] == v[..k] && k > 0 && (IsSpace(m[k - 1]) || m[k - 1] == ',')
    ensures ScanLimit(v, j) == ScanLimit(m, j)
  {
    hide LimitWord, IsSpace;
    if j > 0 {
      ScanBefore(m, v, k, j - 1);
      LimitBefore(m, v, k, j - 1);
      assert m[..k][j - 1] == v[..k][j - 1];
    }
  }

  /** Over the word nothing is counted and nothing is located. */
  lemma {:induction false} ScanWord(m: string, k: nat, n: nat)
    requires k + n <= |m| && (forall i :: k <= i < k + n ==> Tame(m[i]) && !LimitWord(m, i))
    ensures ScanLimit(m, k + n) == ScanLimit(m, k)
    decreases n
  {
    hide LimitWord;
    if n > 0 { ScanWord(m, k, n - 1); }
  }

  lemma DigitsNotLimit(v: string, k: nat, d: string)
    requires k + |d| <= |v| && v[k..k + |d|] == d && AllDigits(d)
    ensures forall i :: k <= i < k + |d| ==> Tame(v[i]) && !LimitWord(v, i)
  {
    forall i | k <= i < k + |d| ensures Tame(v[i]) && !LimitWord(v, i) {
      assert v[i] == d[i - k];
      NotL(v, i);
    }
  }

  function Displaced(st: LimitScan, k: nat, n: nat, d: string): LimitScan {
    st.(at := if st.at < k then st.at else st.at - n + |d|)
  }

  lemma {:induction false} ScanAfter(m: string, v: string, k: nat, n: nat, d: string, j: nat)
    requires Inner(m, k, n) && d != [] && AllDigits(d) && v == Splice(m, k, n, d) && k + n <= j <= |m|
    requires |v| == |m| - n + |d|
    ensures ScanLimit(v, j - n + |d|) == Displaced(ScanLimit(m, j), k, n, d)
    decreases j
  {
    hide LimitWord, ScanLimit, Splice, IsSpace, Tame;
    if j == k + n {
      ScanThrough(m, v, k, n, d);
    } else {
      ScanAfter(m, v, k, n, d, j - 1);
      ScanUnfold(m, j);
      ScanUnfold(v, j - n + |d|);
      SplicedBehind(m, v, k, n, d, j - 1);
      LimitAfter(m, v, j - 1, j - 1 - n + |d|);
    }
  }

  lemma ScanUnfold(m: string, j: nat)
    requires 0 < j <= |m|
    ensures ScanLimit(m, j) == ScanChar(ScanLimit(m, j - 1), m, j - 1)
  {}

  lemma ScanThrough(m: string, v: string, k: nat, n: nat, d: string)
    requires Inner(m, k, n) && d != [] && AllDigits(d) && v == Splice(m, k, n, d) && |v| == |m| - n + |d|
    ensures ScanLimit(v, k + |d|) == ScanLimit(m, k + n) == ScanLimit(m, k) && ScanLimit(m, k).at < k
  {
    hide LimitWord, ScanLimit;
    assert m[..k] == v[..k] && v[k..k + |d|] == d;
    ScanBefore(m, v, k, k);
    ScanWord(m, k, n);
    DigitsNotLimit(v, k, d);
    ScanWord(v, k, |d|);
  }

  lemma SplicedBehind(m: string, v: string, k: nat, n: nat, d: string, i: nat)
    requires Inner(m, k, n) && d != [] && AllDigits(d) && v == Splice(m, k, n, d) && k + n <= i < |m|
    ensures var j := i - n + |d|;
            0 < j < |v| && m[i..] == v[j..] && m[i] == v[j]
            && (IsSpace(m[i - 1]) || m[i - 1] == ')') == (IsSpace(v[j - 1]) || v[j - 1] == ')')
  {
    var j := i - n + |d|;
    if i == k + n {
      assert v[j - 1] == d[|d| - 1] && Tame(m[i - 1]);
      SpaceOrDigit(v[j - 1]);
      TameNotSpace(m[i - 1]);
    } else {
      assert v[j - 1] == m[i - 1];
    }
  }

  lemma TameNotSpace(c: char)
    requires Tame(c)
    ensures !IsSpace(c) && c != ')' && c != '('
  {}

  /** Setting an inner word to digits leaves the located LIMIT where it was, if it stood before the word. */
  lemma LocatedStays(m: string, k: nat, n: nat, d: string)
    requires Inner(m, k, n) && d != [] && AllDigits(d) && Located(m) < k
    ensures var v := Splice(m, k, n, d); |v| == |m| - n + |d| && Located(v) == Located(m)
  {
    hide ScanLimit, LimitWord;
    var v := Splice(m, k, n, d);
    assert |v| == |m| - n + |d|;
    ScanAfter(m, v, k, n, d, |m|);
  }

  lemma {:induction false} LocatedIsLimit(m: string, n: nat)
    requires n <= |m|
    ensures ScanLimit(m, n).at >= 0 ==> LimitWord(m, ScanLimit(m, n).at)
  {
    hide LimitWord;
    if n > 0 { LocatedIsLimit(m, n - 1); }
  }

  /** The own clause's word starts no other LIMIT. */
  lemma OwnInner(m: string)
    requires Own(m).Some?
    ensures var o := Own(m).value; Inner(m, o.at, o.len) && Located(m) < o.at
  {
    hide Located, LimitWord, MatchHere, LimitAll, Shown;
    OwnShown(m);
    if LimitAll(m[Located(m)..]) { AllIsInner(m, Located(m)); } else { CountIsInner(m, Located(m)); }
  }

  lemma AllIsInner(m: string, at: nat)
    requires at <= |m| && LimitAll(m[at..])
    ensures var k := at + 5 + SpaceLen(m[at..][5..]);
            k + 3 <= |m| && forall i :: k <= i < k + 3 ==> !LimitWord(m, i)
  {
    var w := m[at..];
    var k := at + 5 + SpaceLen(w[5..]);
    assert m[k] == w[k - at] && m[k + 1] == w[k - at + 1] && m[k + 2] == w[k - at + 2];
    NotL(m, k);
    assert !LimitWord(m, k + 1);
    if k + 3 < |m| { assert m[k + 3] == w[k - at + 3] && LowChar(m[k + 3]) != 'i'; }
    assert !LimitWord(m, k + 2);
  }

  lemma CountIsInner(m: string, at: nat)
    requires at <= |m| && MatchHere(false, m[at..]).Some?
    ensures var f := MatchHere(false, m[at..]).value;
            at + f.at + f.len <= |m| && forall i :: at + f.at <= i < at + f.at + f.len ==> !LimitWord(m, i)
  {
    hide MatchHere;
    var w, f := m[at..], MatchHere(false, m[at..]).value;
    forall i | at + f.at <= i < at + f.at + f.len ensures !LimitWord(m, i) {
      assert m[i] == w[i - at];
      NotL(m, i);
    }
  }

  // ----- what the clause reads as after the edit -----

  lemma MatchIsNotAll(w: string)
    requires MatchHere(false, w).Some?
    ensures !LimitAll(w)
  {
    hide SpaceLen;
    var a := 5 + SpaceLen(w[5..]);
    CountsStart(w[a..]);
    assert w[a..][0] == w[a];
  }

  lemma CountsStart(w: string)
    requires Counts(w).Some?
    ensures w != [] && IsDigit(w[0])
  {
    hide Comma, SpaceLen;
  }

  /** ALL is not followed by `, n`, which would make it an offset. */
  ghost predicate Alone(w: string) { LimitAll(w) ==> Comma(w[5 + SpaceLen(w[5..]) + 3..]).None? }

  ghost predicate OwnAlone(m: string) { Located(m) >= 0 ==> Alone(m[Located(m)..]) }

  lemma AllBecomesCount(w: string, d: string)
    requires IsLimit(w) && LimitAll(w) && d != [] && AllDigits(d)
    requires Comma(w[5 + SpaceLen(w[5..]) + 3..]).None?
    ensures var a := 5 + SpaceLen(w[5..]);
            MatchHere(false, Splice(w, a, 3, d)).Some?
            && MatchHere(false, Splice(w, a, 3, d)).value.at == a && MatchHere(false, Splice(w, a, 3, d)).value.len == |d|
  {
    hide SpaceLen, Counts, Splice, IsLimit, CountIn;
    var a := 5 + SpaceLen(w[5..]);
    LimitSpliced(w, a, d);
    CountAlone(d, w[a + 3..]);
  }

  /** LIMIT and its white space stay in front of what replaces ALL. */
  lemma LimitSpliced(w: string, a: nat, d: string)
    requires IsLimit(w) && a == 5 + SpaceLen(w[5..]) && a > 5 && a + 3 <= |w| && d != [] && AllDigits(d)
    ensures var u := Splice(w, a, 3, d);
            IsLimit(u) && a <= |u| && SpaceLen(u[5..]) == a - 5 && u[a..] == d + w[a + 3..]
  {
    hide SpaceLen;
    var u, rest := Splice(w, a, 3, d), w[a + 3..];
    assert u[5..] == w[5..a] + (d + rest) && u[a..] == d + rest;
    SpacesThen(w[5..a], d + rest);
  }

  lemma CountAlone(d: string, rest: string)
    requires d != [] && AllDigits(d) && (rest == [] || !IsDigit(rest[0])) && Comma(rest).None?
    ensures var r := Counts(d + rest); r.Some? && r.value.at == 0 && r.value.len == |d|
  {
    hide SpaceLen, DigitLen, Comma;
    DigitsThen(d, rest);
    assert (d + rest)[|d|..] == rest;
  }

  lemma SpanFrom(u: string, f: Match, d: string)
    requires f.at + f.len <= |u| && u[f.at..f.at + f.len] == d && MatchHere(false, u) == Some(f)
    ensures SpanIn(u) == Some(Span(f.at, |d|)) && ReadClause(u) == Count(NumberOf(d))
  {
    hide MatchHere, LimitAll, NumberOf, CountIn, IsLimit;
    MatchIsNotAll(u);
  }

  lemma SpanMatches(w: string, d: string)
    requires IsLimit(w) && SpanIn(w).Some? && Alone(w) && d != [] && AllDigits(d)
    ensures var o := SpanIn(w).value;
            && o.at + o.len <= |w|
            && var r := MatchHere(false, Splice(w, o.at, o.len, d)); r.Some? && r.value.at == o.at && r.value.len == |d|
  {
    hide MatchHere, Splice, SpaceLen, Comma, IsLimit, CountIn;
    SpanShown(w);
    if LimitAll(w) {
      hide LimitAll;
      AllBecomesCount(w, d);
    } else {
      hide LimitAll;
      MatchSplice(false, w, d);
    }
  }

  /** Set to `d`, a clause reads as that count. */
  lemma SpanSet(w: string, d: string)
    requires IsLimit(w) && SpanIn(w).Some? && Alone(w) && d != [] && AllDigits(d)
    ensures var o := SpanIn(w).value;
            o.at + o.len <= |w| && SpanIn(Splice(w, o.at, o.len, d)) == Some(Span(o.at, |d|))
            && ReadClause(Splice(w, o.at, o.len, d)) == Count(NumberOf(d))
  {
    hide MatchHere, Splice, SpanIn, ReadClause, Alone, IsLimit, CountIn, NumberOf;
    var o := SpanIn(w).value;
    SpanMatches(w, d);
    var u := Splice(w, o.at, o.len, d);
    SpliceHolds(w, o.at, o.len, d);
    SpanFrom(u, MatchHere(false, u).value, d);
  }

  /** What `OwnSet` needs of the located clause. */
  lemma OwnPlaced(m: string, d: string)
    requires Own(m).Some? && OwnAlone(m) && d != [] && AllDigits(d)
    ensures var o, at := Own(m).value, Located(m);
            && 0 <= at < o.at && o.at + o.len <= |m| && IsLimit(m[at..]) && Alone(m[at..])
            && SpanIn(m[at..]) == Some(Span(o.at - at, o.len)) && Located(Splice(m, o.at, o.len, d)) == at
  {
    hide SpanIn, Splice, Inner, Shown, IsLimit, Alone, LimitWord;
    OwnInner(m);
    OwnShown(m);
    var o, at := Own(m).value, Located(m);
    LocatedStays(m, o.at, o.len, d);
    LocatedIsLimit(m, |m|);
    LimitWordIs(m, at);
  }

  /** Set to `d`, the own clause is still the own clause and reads as that count. */
  lemma OwnSet(m: string, d: string)
    requires Own(m).Some? && OwnAlone(m) && d != [] && AllDigits(d)
    ensures var o, at := Own(m).value, Located(m);
            && 0 <= at < o.at && o.at + o.len <= |m|
            && var v := Splice(m, o.at, o.len, d);
               && |v| >= at && Located(v) == at && Own(v) == Some(Span(o.at, |d|))
               && ReadClause(v[at..]) == Count(NumberOf(d))
  {
    hide Located, NumberOf, Splice, SpanIn, ReadClause, Alone, IsLimit, OwnAlone, Own;
    OwnPlaced(m, d);
    var o, at := Own(m).value, Located(m);
    var w, v := m[at..], Splice(m, o.at, o.len, d);
    SpanSet(w, d);
    SpliceTail(m, o.at, o.len, d, at);
    assert v[at..] == Splice(w, o.at - at, o.len, d);
    OwnOf(v, at, Span(o.at - at, |d|));
  }

  lemma OwnOf(v: string, at: nat, p: Span)
    requires at <= |v| && Located(v) == at && SpanIn(v[at..]) == Some(p)
    ensures Own(v) == Some(Span(at + p.at, p.len))
  {
    hide Located, SpanIn;
  }

  lemma LimitWordIs(m: string, at: nat)
    requires at < |m| && LimitWord(m, at)
    ensures IsLimit(m[at..])
  {}

  // ----- on the statement's text -----

  /** Setting the own clause sets it in the mask, and the statement then reads as limited to `n`. */
  lemma OwnEditReads(x: Rules, s: string, n: nat)
    requires Own(Mask(x, s)).Some? && OwnAlone(Mask(x, s))
    ensures var o, t := Own(Mask(x, s)).value, OwnEdit(x, s, n);
            StatementLimit(x, t) == Count(n) && Own(Mask(x, t)) == Some(Span(o.at, |Numeral(n)|))
  {
    hide Lex, Render, Own, OwnAlone, Located, Splice, NumberOf, Numeral, ReadClause, StatementLimit, Shown;
    var m, o, d := Mask(x, s), Own(Mask(x, s)).value, Numeral(n);
    OwnInText(x, s);
    NumeralRoundTrip(n);
    DigitsAreTame(d);
    MaskSplice(x, false, s, o.at, o.len, d);
    OwnSet(m, d);
    StatementReads(x, OwnEdit(x, s, n));
  }

  lemma SpliceTells(s: string, p: nat, q: nat, d: string)
    requires AllAt(s, p) && AllAt(s, q) && d != [] && AllDigits(d) && p != q
    ensures Splice(s, p, 3, d) != Splice(s, q, 3, d)
  {
    var a, b := Splice(s, p, 3, d), Splice(s, q, 3, d);
    if p < q {
      assert a[p] == d[0] && b[p] == s[p];
    } else {
      assert a[q] == s[q] && b[q] == d[0];
    }
  }

  /**
   * The rewrite without an offset hits the statement's own clause exactly when the first raw
   * `limit all` ends in the own clause's ALL.
   */
  lemma RewriteHitsIff(x: Rules, s: string, maxRows: nat)
    requires StatementLimit(x, s).All?
    ensures Own(Mask(x, s)).Some?
    ensures RewriteFirst(s, maxRows) == Some(OwnEdit(x, s, maxRows)) <==> FirstAll(false, s) == Some(Own(Mask(x, s)).value.at)
  {
    hide Lex, Render, Own, Located, FirstAll, Numeral, Splice, StatementLimit;
    OwnReadable(x, s);
    OwnAllInText(x, s);
    var q := Own(Mask(x, s)).value.at;
    if FirstAll(false, s).Some? && FirstAll(false, s).value != q { SpliceTells(s, FirstAll(false, s).value, q, Numeral(maxRows)); }
  }

  lemma SpanAll(w: string)
    requires LimitAll(w)
    ensures var a := 5 + SpaceLen(w[5..]); SpanIn(w) == Some(Span(a, 3)) && AllAt(w, a)
  {}

  lemma AllAhead(m: string, s: string, at: nat, a: nat)
    requires at <= |m| == |s| && AllAt(m[at..], a) && forall i :: at + a <= i < at + a + 3 ==> s[i] == m[i]
    ensures AllAt(s, at + a)
  {
    assert m[at..][a] == m[at + a] && m[at..][a + 1] == m[at + a + 1] && m[at..][a + 2] == m[at + a + 2];
  }

  /** The own clause's ALL stands in the text as it does in the mask. */
  lemma OwnAllInText(x: Rules, s: string)
    requires StatementLimit(x, s).All?
    ensures Own(Mask(x, s)).Some? && Own(Mask(x, s)).value.len == 3 && AllAt(s, Own(Mask(x, s)).value.at)
    ensures var m := Mask(x, s);
            0 <= Located(m) && LimitAll(m[Located(m)..]) && StatementLimit(x, s) == All(Located(m))
            && Own(m).value.at == Located(m) + 5 + SpaceLen(m[Located(m)..][5..])
  {
    hide Lex, Render, Located, MatchHere, SpanIn, LimitAll, SpaceLen, AllAt, StatementLimit;
    StatementReads(x, s);
    var m := Mask(x, s);
    var w := m[Located(m)..];
    SpanAll(w);
    OwnInText(x, s);
    AllAhead(m, s, Located(m), 5 + SpaceLen(w[5..]));
  }

  // ----- the rewrite at the located offset -----

  /** Opens nothing, whatever precedes or follows it. */
  predicate Inert(c: char) { Tame(c) || IsSpace(c) }

  lemma InertIsPlain(x: Rules, g: bool, w: string)
    requires w != [] && Inert(w[0])
    ensures Tok(x, g, w) == Token(Plain, 1, true)
  {
    hide Lit, Find, Block, LineLen, TagLen;
  }

  lemma {:induction false} VisibleNext(x: Rules, g: bool, w: string, i: nat)
    requires i + 1 < |w| && Visible(x, g, w, i) && Inert(w[i + 1])
    ensures Visible(x, g, w, i + 1)
    decreases |w|
  {
    hide Tok, Visible, Inert;
    var t := Tok(x, g, w);
    VisibleStep(x, g, w, i);
    VisibleStep(x, g, w, i + 1);
    var g', u := Glues(w[t.len - 1]), w[t.len..];
    if i < t.len {
      assert u[0] == w[i + 1];
      InertIsPlain(x, g', u);
      VisibleStep(x, g', u, 0);
    } else {
      assert u[i + 1 - t.len] == w[i + 1];
      VisibleNext(x, g', u, i - t.len);
    }
  }

  lemma {:induction false} VisibleRun(x: Rules, w: string, i: nat, j: nat)
    requires i <= j < |w| && Visible(x, false, w, i) && forall k :: i < k <= j ==> Inert(w[k])
    ensures Visible(x, false, w, j)
    decreases j
  {
    hide Visible, Inert;
    if i < j {
      VisibleRun(x, w, i, j - 1);
      VisibleNext(x, false, w, j - 1);
    }
  }

  lemma {:induction false} SpaceLenIs(u: string, n: nat)
    requires n < |u| && (forall i :: 0 <= i < n ==> IsSpace(u[i])) && !IsSpace(u[n])
    ensures SpaceLen(u) == n
  {
    if n > 0 { SpaceLenIs(u[1..], n - 1); }
  }

  /** A raw match at the located keyword is visible throughout. */
  lemma RawIsVisible(x: Rules, s: string, at: nat, a: nat, i: nat)
    requires at <= |s| && RawAll(false, s[at..]) == Some(a) && i <= a && Visible(x, false, s, at)
    ensures at + i < |s| && Visible(x, false, s, at + i)
  {
    hide Visible;
    var w := s[at..];
    forall k | at < k <= at + i ensures Inert(s[k]) {
      assert s[k] == w[k - at];
      if k - at < 5 {
        LimitLetters(w);
      } else if k - at < a {
        assert w[5..][k - at - 5] == w[k - at];
      } else {
        LetterTame(w[a]);
      }
    }
    VisibleRun(x, s, at, at + i);
  }

  lemma LimitLetters(w: string)
    requires IsLimit(w)
    ensures forall i :: 0 <= i < 5 ==> Inert(w[i])
  {
    forall i | 0 <= i < 5 ensures Inert(w[i]) {
      assert LowChar(w[i]) == "limit"[i];
      LetterInert(w[i]);
    }
  }

  lemma LetterInert(c: char)
    requires var l := LowChar(c); l == 'l' || l == 'i' || l == 'm' || l == 't'
    ensures Inert(c)
  {
    if 'A' <= c <= 'Z' { assert LowChar(c) as int == c as int + 32; }
  }

  /** At the located offset, the rewrite hits the own clause whenever it rewrites at all. */
  lemma AnchoredHits(x: Rules, s: string, at: nat, maxRows: nat)
    requires StatementLimit(x, s) == All(at) && at <= |s| && RewriteAt(s, at, maxRows).Some?
    ensures Own(Mask(x, s)).Some? && RewriteAt(s, at, maxRows) == Some(OwnEdit(x, s, maxRows))
  {
    hide Lex, Render, StatementLimit, Own, Visible, SpaceLen, Numeral, Splice, IsLimit, LimitAll, RawAll;
    OwnAllInText(x, s);
    var m := Mask(x, s);
    MaskFaithful(x, false, s);
    LocatedVisible(x, s);
    var a := RawAll(false, s[at..]).value;
    RawSpaces(x, s, at, a);
  }

  lemma LocatedVisible(x: Rules, s: string)
    requires Located(Mask(x, s)) >= 0
    ensures |Mask(x, s)| == |s| && Visible(x, false, s, Located(Mask(x, s)))
  {
    hide Lex, Render, Visible, ScanLimit;
    var m := Mask(x, s);
    MaskFaithful(x, false, s);
    LocatedIsLimit(m, |m|);
    var at := Located(m);
    assert m[at..][0] == m[at] && LowChar(' ') != 'l';
  }

  /** The raw white space behind the located keyword is all the mask shows there. */
  lemma RawSpaces(x: Rules, s: string, at: nat, a: nat)
    requires at <= |s| && RawAll(false, s[at..]) == Some(a) && Visible(x, false, s, at)
    ensures at + 5 <= |Mask(x, s)| && SpaceLen(Mask(x, s)[at..][5..]) == a - 5
  {
    hide Lex, Render, Visible, SpaceLen, IsLimit;
    var m, w := Mask(x, s), s[at..];
    MaskFaithful(x, false, s);
    var u := m[at..][5..];
    forall i | 0 <= i <= a - 5 ensures u[i] == w[5..][i] {
      RawIsVisible(x, s, at, a, i + 5);
      assert u[i] == m[at + 5 + i] == s[at + 5 + i] == w[5 + i];
    }
    LetterTame(w[a]);
    TameNotSpace(w[a]);
    assert w[5..][a - 5] == w[a];
    SpaceLenIs(u, a - 5);
  }

  // ----- lowering hits the own clause -----

  /** A whole numeral: no digit before or after it. */
  ghost predicate Whole(m: string, k: nat, n: nat) {
    && 0 < n && k + n <= |m| && (forall i :: k <= i < k + n ==> IsDigit(m[i]))
    && (k + n == |m| || !IsDigit(m[k + n])) && (k > 0 ==> !IsDigit(m[k - 1]))
  }

  lemma WholeAhead(m: string, b: nat, k: nat, n: nat)
    requires b <= |m| && k > 0 && Whole(m[b..], k, n)
    ensures Whole(m, b + k, n)
  {
    var w := m[b..];
    forall i | b + k <= i < b + k + n ensures IsDigit(m[i]) { assert m[i] == w[i - b]; }
    assert m[b + k - 1] == w[k - 1];
    if b + k + n < |m| { assert m[b + k + n] == w[k + n]; }
  }

  lemma NumWhole(w: string)
    requires Num(w).Some?
    ensures Whole(w, Num(w).value.at, Num(w).value.len)
  {
    var p := SpaceLen(w);
    var n := DigitLen(w[p..]);
    forall i | p <= i < p + n ensures IsDigit(w[i]) { assert w[i] == w[p..][i - p]; }
    if p + n < |w| { assert w[p + n] == w[p..][n]; }
    if p > 0 { SpaceOrDigit(w[p - 1]); }
  }

  lemma CommaWhole(u: string)
    requires Comma(u).Some?
    ensures Comma(u).value.at > 0 && Whole(u, Comma(u).value.at, Comma(u).value.len)
  {
    hide SpaceLen, Num, Whole, CountIn;
    var c := SpaceLen(u);
    NumWhole(u[c + 1..]);
    var f := Num(u[c + 1..]).value;
    if f.at > 0 { WholeAhead(u, c + 1, f.at, f.len); } else { WholeBehindComma(u, c, f.len); }
  }

  lemma FirstWhole(w: string)
    requires w != [] && IsDigit(w[0])
    ensures Whole(w, 0, DigitLen(w))
  {}

  lemma CountsWhole(w: string)
    requires Counts(w).Some?
    ensures Whole(w, Counts(w).value.at, Counts(w).value.len)
  {
    hide SpaceLen, Comma, Whole, CountIn;
    var b := DigitLen(w);
    if Comma(w[b..]).Some? {
      CommaWhole(w[b..]);
      WholeAhead(w, b, Comma(w[b..]).value.at, Comma(w[b..]).value.len);
    } else {
      FirstWhole(w);
    }
  }

  lemma WholeBehindComma(u: string, c: nat, n: nat)
    requires c < |u| && u[c] == ',' && Whole(u[c + 1..], 0, n)
    ensures Whole(u, c + 1, n)
  {
    var w := u[c + 1..];
    forall i | c + 1 <= i < c + 1 + n ensures IsDigit(u[i]) { assert u[i] == w[i - c - 1]; }
    if c + 1 + n < |u| { assert u[c + 1 + n] == w[n]; }
  }

  lemma MatchWhole(g: bool, w: string)
    requires MatchHere(g, w).Some?
    ensures Whole(w, MatchHere(g, w).value.at, MatchHere(g, w).value.len)
  {
    hide SpaceLen, Counts;
    var a := 5 + SpaceLen(w[5..]);
    CountsWhole(w[a..]);
    var f := Counts(w[a..]).value;
    if f.at > 0 { WholeAhead(w, a, f.at, f.len); } else { WholeBehindSpace(w, a, f.len); }
  }

  lemma WholeBehindSpace(w: string, a: nat, n: nat)
    requires 5 < a <= |w| && a == 5 + SpaceLen(w[5..]) && Whole(w[a..], 0, n)
    ensures Whole(w, a, n)
  {
    var u := w[a..];
    forall i | a <= i < a + n ensures IsDigit(w[i]) { assert w[i] == u[i - a]; }
    if a + n < |w| { assert w[a + n] == u[n]; }
    assert w[5..][a - 6] == w[a - 1];
    SpaceOrDigit(w[a - 1]);
  }

  lemma {:induction false} LastWhole(g: bool, w: string)
    requires LastMatch(g, w).Some?
    ensures Whole(w, LastMatch(g, w).value.at, LastMatch(g, w).value.len)
    decreases |w|
  {
    hide MatchHere, LastMatch, Advance, Whole;
    LastMatchCount(g, w);
    LastMatchUnfold(g, w);
    var j := Advance(g, w);
    var later := LastMatch(IsWord(w[j - 1]), w[j..]);
    if later.Some? {
      LastWhole(IsWord(w[j - 1]), w[j..]);
      LastMatchCount(IsWord(w[j - 1]), w[j..]);
      WholeAhead(w, j, later.value.at, later.value.len);
    } else {
      MatchWhole(g, w);
    }
  }

  lemma DigitRun(w: string, k: nat, n: nat)
    requires Whole(w, k, n)
    ensures DigitLen(w[k..]) == n
  {
    var u := w[k..];
    assert u == w[k..k + n] + w[k + n..];
    DigitsThen(w[k..k + n], w[k + n..]);
  }

  lemma WholeSpliced(m: string, k: nat, n: nat, d: string)
    requires Whole(m, k, n) && d != [] && AllDigits(d)
    ensures var v := Splice(m, k, n, d); k <= |v| && DigitLen(v[k..]) == |d|
  {
    assert Splice(m, k, n, d)[k..] == d + m[k + n..];
    DigitsThen(d, m[k + n..]);
  }

  /** Setting one of two numerals to a third value does not look like setting the other. */
  lemma WholeTells(m: string, p: nat, n: nat, q: nat, l: nat, d: string)
    requires Whole(m, p, n) && Whole(m, q, l) && p < q && d != [] && AllDigits(d) && m[p..p + n] != d
    ensures Splice(m, p, n, d) != Splice(m, q, l, d)
  {
    hide DigitLen;
    assert !IsDigit(m[q - 1]);
    assert p + n < q;
    var a, b := Splice(m, p, n, d), Splice(m, q, l, d);
    WholeSpliced(m, p, n, d);
    assert Whole(b, p, n);
    DigitRun(b, p, n);
    assert b[p..p + n] == m[p..p + n];
    if |d| == n { assert a[p..p + n] == d; }
  }

  lemma SuffixSlice(v: string, at: nat, i: nat, j: nat)
    requires i <= j && at + j <= |v|
    ensures v[at..][i..j] == v[at + i..at + j]
  {}

  lemma OwnWhole(x: Rules, s: string)
    requires StatementLimit(x, s).Count?
    ensures var m := Mask(x, s);
            && Own(m).Some? && Whole(m, Own(m).value.at, Own(m).value.len)
            && StatementLimit(x, s).value == NumberOf(m[Own(m).value.at..Own(m).value.at + Own(m).value.len])
            && OwnAlone(m)
  {
    hide Lex, Render, Located, MatchHere, LimitAll, Whole, NumberOf, StatementLimit, CountIn, IsLimit;
    StatementReads(x, s);
    var m := Mask(x, s);
    var at := Located(m);
    var w := m[at..];
    MatchWhole(false, w);
    var f := MatchHere(false, w).value;
    WholeAhead(m, at, f.at, f.len);
    SuffixSlice(m, at, f.at, f.at + f.len);
  }

  /** Lowering hits the own clause exactly when the last visible count is its own. */
  lemma LowerHitsIff(x: Rules, s: string, maxRows: nat)
    requires StatementLimit(x, s).Count? && StatementLimit(x, s).value > maxRows && Lowered(x, s, maxRows).Some?
    ensures Own(Mask(x, s)).Some? && LastMatch(false, Mask(x, s)).Some?
    ensures Lowered(x, s, maxRows) == Some(OwnEdit(x, s, maxRows)) <==>
              LastMatch(false, Mask(x, s)).value.at == Own(Mask(x, s)).value.at
  {
    hide Lex, Render, Own, StatementLimit, LastMatch, Lowered, NumberOf, Numeral, Splice, Whole, Shown;
    OwnWhole(x, s);
    LoweredIsExact(x, s, maxRows);
    LastExists(x, s, maxRows);
    var m, d := Mask(x, s), Numeral(maxRows);
    LastWhole(false, m);
    var f, o := LastMatch(false, m).value, Own(m).value;
    NumeralRoundTrip(maxRows);
    if f.at == o.at {
      DigitRun(m, f.at, f.len);
      DigitRun(m, o.at, o.len);
    } else {
      OwnInText(x, s);
      LowerMisses(x, s, m, f, o, maxRows);
    }
  }

  lemma LastExists(x: Rules, s: string, maxRows: nat)
    requires Lowered(x, s, maxRows).Some?
    ensures var m := Mask(x, s);
            && LastMatch(false, m).Some?
            && var f := LastMatch(false, m).value; CountAt(m, f) && m[f.at..f.at + f.len] != Numeral(maxRows)
  {
    hide Lex, Render, LastMatch;
    MaskCount(x, s);
    NumeralRoundTrip(maxRows);
  }

  lemma LowerMisses(x: Rules, s: string, m: string, f: Found, o: Span, maxRows: nat)
    requires m == Mask(x, s) && |m| == |s| && Own(m) == Some(o) && f.at != o.at
    requires Whole(m, f.at, f.len) && Whole(m, o.at, o.len) && f.at + f.len <= |m| && o.at + o.len <= |m|
    requires m[f.at..f.at + f.len] != Numeral(maxRows) && m[o.at..o.at + o.len] != Numeral(maxRows)
    requires Mask(x, Splice(s, f.at, f.len, Numeral(maxRows))) == Splice(m, f.at, f.len, Numeral(maxRows))
    ensures Splice(s, f.at, f.len, Numeral(maxRows)) != OwnEdit(x, s, maxRows)
  {
    hide Lex, Render, Own, NumberOf, Numeral, Splice, Whole, Shown;
    var d := Numeral(maxRows);
    NumeralRoundTrip(maxRows);
    OwnInText(x, s);
    DigitsAreTame(d);
    MaskSplice(x, false, s, o.at, o.len, d);
    if f.at < o.at { WholeTells(m, f.at, f.len, o.at, o.len, d); } else { WholeTells(m, o.at, o.len, f.at, f.len, d); }
  }

  // ----- trimming after the edit -----

  /** The edit leaves no new trailing noise for any scanner to trim. */
  lemma EditStaysTrimmed(y: Rules, s: string, k: nat, n: nat, d: string)
    requires 0 < k && 0 < n && k + n <= |s| && AllTame(s[k..k + n]) && d != [] && AllTame(d) && !Glues(s[k - 1])
    requires Trim(y, s) == s
    ensures Trim(y, Splice(s, k, n, d)) == Splice(s, k, n, d)
  {
    hide Lex, EndsInNoise, Trim;
    var v := Splice(s, k, n, d);
    TrimmedIff(y, s);
    TrimmedIff(y, v);
    NoiseUnchanged(y, false, s, v, k, n, d);
  }

  lemma {:induction false} FirstAllBehindSpace(g: bool, w: string)
    requires FirstAll(g, w).Some?
    ensures var a := FirstAll(g, w).value; 0 < a && a + 3 <= |w| && IsSpace(w[a - 1])
    decreases |w|
  {
    hide RawAll;
    var here := RawAll(g, w);
    if here.Some? {
      assert w[5..][here.value - 6] == w[here.value - 1];
    } else {
      FirstAllBehindSpace(IsWord(w[0]), w[1..]);
    }
  }

  lemma {:induction false} LitLast(w: string, q: char, bs: bool, dbl: bool)
    ensures var r := Lit(w, q, bs, dbl); r.closed ==> 0 < r.len <= |w| && w[r.len - 1] == q
    decreases |w|
  {
    if |w| > 1 {
      var j := if (bs && w[0] == '\\') || (dbl && w[0] == q && Next(w, q)) then 2 else 1;
      LitLast(w[j..], q, bs, dbl);
    }
  }

  lemma {:induction false} BlockLast(w: string, depth: nat)
    requires depth > 0
    ensures var r := Block(w, depth); r.closed ==> 0 < r.len <= |w| && w[r.len - 1] == '/'
    decreases |w|
  {
    if w != [] {
      if w[0] == '/' && Next(w, '*') {
        BlockLast(w[2..], depth + 1);
      } else if w[0] == '*' && Next(w, '/') {
        if depth > 1 { BlockLast(w[2..], depth - 1); }
      } else {
        BlockLast(w[1..], depth);
      }
    }
  }

  /** No span ends in a word character right before a tame one. */
  lemma SpanLast(x: Rules, g: bool, w: string)
    requires w != [] && Tok(x, g, w).kind != Plain && Tok(x, g, w).len < |w| && Tame(w[Tok(x, g, w).len])
    ensures !IsWord(w[Tok(x, g, w).len - 1])
  {
    hide Lit, Block, Find, TagLen, LineLen;
    var t := Tok(x, g, w);
    if OpensComment(x, w) {
      if w[0] == '/' { BlockLast(w[2..], 1); }
    } else if OpensDollar(w) {
      DollarLast(w);
    } else {
      match t.kind
      case EString => LitLast(w[2..], '\'', true, true);
      case Quote => LitLast(w[1..], '\'', x.backslash, true);
      case DoubleQuote => LitLast(w[1..], '"', false, true);
      case Backtick => LitLast(w[1..], '`', false, false);
      case _ =>
    }
  }

  lemma DollarLast(w: string)
    requires OpensDollar(w) && Dollar(w).closed
    ensures w[Dollar(w).len - 1] == '$'
  {
    hide Find, TagLen;
    var j := TagLen(w[1..]) + 2;
    var f := Find(w[j..], w[..j]).value;
    assert w[j..][f..f + j][j - 1] == w[..j][j - 1];
  }

  /** Before a visible tame word shown behind a blank, the text has no word character. */
  lemma {:induction false} BeforeVisible(x: Rules, g: bool, w: string, i: nat)
    requires 0 < i < |w| && Visible(x, g, w, i) && Tame(w[i]) && !Visible(x, g, w, i - 1)
    ensures !IsWord(w[i - 1])
    decreases |w|
  {
    hide Tok, Visible, Tame, IsWord;
    var t := Tok(x, g, w);
    VisibleStep(x, g, w, i);
    VisibleStep(x, g, w, i - 1);
    if i == t.len {
      SpanLast(x, g, w);
    } else {
      var g', u := Glues(w[t.len - 1]), w[t.len..];
      assert u[i - t.len] == w[i] && u[i - 1 - t.len] == w[i - 1];
      BeforeVisible(x, g', u, i - t.len);
    }
  }

  /** Only the end of a dollar-quoted string can glue onto the own clause's word. */
  lemma OwnUnglued(x: Rules, s: string)
    requires Own(Mask(x, s)).Some?
    ensures var k := Own(Mask(x, s)).value.at; 0 < k < |s| && (s[k - 1] != '$' ==> !Glues(s[k - 1]))
  {
    hide Lex, Render, Own, Visible;
    var m, o := Mask(x, s), Own(Mask(x, s)).value;
    OwnInText(x, s);
    MaskFaithful(x, false, s);
    assert Tame(m[o.at]) && (IsSpace(m[o.at - 1]) || m[o.at - 1] == ',');
    TameNotSpace(m[o.at]);
    if Visible(x, false, s, o.at - 1) {
      SpaceNotWord(s[o.at - 1]);
    } else {
      BeforeVisible(x, false, s, o.at);
    }
  }

  lemma SpaceNotWord(c: char)
    requires IsSpace(c) || c == ','
    ensures !IsWord(c) && !Glues(c)
  {}
}
