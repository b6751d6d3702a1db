/** The row-cap rewriting of guard.ts: edits of the statement at offsets found in its mask. */
module LimitText {
  import opened Text
  import opened Scanner
  import opened ScannerLaws

  /** `limit`, in any case. */
  predicate IsLimit(w: string) {
    |w| >= 5 && LowChar(w[0]) == 'l' && LowChar(w[1]) == 'i' && LowChar(w[2]) == 'm' && LowChar(w[3]) == 'i'
    && LowChar(w[4]) == 't'
  }

  function SpaceLen(w: string): (n: nat)
    ensures n <= |w| && (n < |w| ==> !IsSpace(w[n])) && forall i :: 0 <= i < n ==> IsSpace(w[i])
  {
    if w == [] || !IsSpace(w[0]) then 0 else 1 + SpaceLen(w[1..])
  }

  function DigitLen(w: string): (n: nat)
    ensures n <= |w| && (n < |w| ==> !IsDigit(w[n])) && forall i :: 0 <= i < n ==> IsDigit(w[i])
  {
    if w == [] || !IsDigit(w[0]) then 0 else 1 + DigitLen(w[1..])
  }

  /** A match of the LIMIT expression: the count's offset and width, and where the match ends. */
  datatype Match = Match(at: nat, len: nat, end: nat)

  function Moved(r: Option<Match>, d: nat): Option<Match> {
    match r case None => None case Some(m) => Some(Match(m.at + d, m.len, m.end + d))
  }

  /** The count is a run of digits behind white space or a comma, followed by white space only. */
  ghost predicate CountIn(w: string, m: Match) {
    && m.len > 0 && m.at + m.len <= m.end <= |w|
    && (forall i :: m.at <= i < m.at + m.len ==> IsDigit(w[i]))
    && (forall i :: m.at + m.len <= i < m.end ==> IsSpace(w[i]))
    && (m.at > 0 ==> IsSpace(w[m.at - 1]) || w[m.at - 1] == ',')
  }

  /** `\s*(\d+)` */
  function Num(w: string): (r: Option<Match>)
    ensures r.Some? ==> CountIn(w, r.value) && r.value.end == r.value.at + r.value.len
  {
    var p := SpaceLen(w);
    var n := DigitLen(w[p..]);
    if n == 0 then None else Some(Match(p, n, p + n))
  }

  /** `\s*,\s*(\d+)` */
  function Comma(w: string): (r: Option<Match>)
    ensures r.Some? ==> CountIn(w, r.value) && r.value.at > 0
  {
    var c := SpaceLen(w);
    if c < |w| && w[c] == ',' then
      var n := Num(w[c + 1..]);
      Moved(n, c + 1)
    else None
  }

  /** `(\d+)\s*(,\s*(\d+))?` */
  function Counts(w: string): (r: Option<Match>)
    ensures r.Some? ==> CountIn(w, r.value)
  {
    var b := DigitLen(w);
    if b == 0 then None
    else
      var second := Comma(w[b..]);
      if second.Some? then SecondOf(w, b)
      else
        CountInFront(w, b, SpaceLen(w[b..]));
        Some(Match(0, b, b + SpaceLen(w[b..])))
  }

  /** The count behind a comma. */
  function SecondOf(w: string, b: nat): (r: Option<Match>)
    requires b <= |w| && Comma(w[b..]).Some?
    ensures r.Some? && CountIn(w, r.value) && r == Moved(Comma(w[b..]), b)
  {
    CountInShift(w, b, Comma(w[b..]).value);
    Moved(Comma(w[b..]), b)
  }

  lemma CountInFront(w: string, b: nat, n: nat)
    requires 0 < b && b + n <= |w| && (forall i :: 0 <= i < b ==> IsDigit(w[i])) && forall i :: 0 <= i < n ==> IsSpace(w[b..][i])
    ensures CountIn(w, Match(0, b, b + n))
  {
    forall i | b <= i < b + n ensures IsSpace(w[i]) { assert w[i] == w[b..][i - b]; }
  }

  /** `/\blimit\s+(\d+)\s*(,\s*(\d+))?/i` anchored at the front of `w`. */
  function MatchHere(glued: bool, w: string): (r: Option<Match>)
    ensures r.Some? ==> IsLimit(w) && CountIn(w, r.value) && 6 <= r.value.at
  {
    if glued || !IsLimit(w) then None
    else
      var a := 5 + SpaceLen(w[5..]);
      if a == 5 then None else Moved(Counts(w[a..]), a)
  }

  /** A match in a whole text. */
  datatype Found = Found(start: nat, at: nat, len: nat)

  function Shifted(r: Option<Found>, d: nat): Option<Found> {
    match r case None => None case Some(f) => Some(Found(f.start + d, f.at + d, f.len))
  }

  /** The last of the successive matches a global expression yields. */
  function LastMatch(glued: bool, w: string): (r: Option<Found>)
    decreases |w|
  {
    if w == [] then None
    else match MatchHere(glued, w)
      case None => Shifted(LastMatch(IsWord(w[0]), w[1..]), 1)
      case Some(m) =>
        var later := LastMatch(IsWord(w[m.end - 1]), w[m.end..]);
        if later.Some? then Shifted(later, m.end) else Some(Found(0, m.at, m.len))
  }

  /** Where the count sits: after white space or a comma, behind a `limit`. */
  ghost predicate CountAt(w: string, f: Found) {
    && f.start + 6 <= f.at && f.len > 0 && f.at + f.len <= |w|
    && LowChar(w[f.start]) == 'l'
    && (forall i :: f.at <= i < f.at + f.len ==> IsDigit(w[i]))
    && (IsSpace(w[f.at - 1]) || w[f.at - 1] == ',')
  }

  /** Where the search goes on after an attempt at the front. */
  function Advance(g: bool, w: string): (j: nat)
    requires w != []
    ensures 0 < j <= |w|
  {
    match MatchHere(g, w) case None => 1 case Some(m) => m.end
  }

  lemma LastMatchUnfold(g: bool, w: string)
    requires w != []
    ensures var j := Advance(g, w);
            var later := LastMatch(IsWord(w[j - 1]), w[j..]);
            LastMatch(g, w) ==
            if later.Some? then Shifted(later, j)
            else match MatchHere(g, w) case None => None case Some(m) => Some(Found(0, m.at, m.len))
  {
    hide MatchHere, CountIn;
  }

  lemma CountAtShift(w: string, j: nat, f: Found)
    requires j <= |w| && CountAt(w[j..], f)
    ensures CountAt(w, Found(f.start + j, f.at + j, f.len))
  {
    var u := w[j..];
    forall i | f.at + j <= i < f.at + j + f.len ensures IsDigit(w[i]) { assert w[i] == u[i - j]; }
  }

  lemma {:induction false} LastMatchCount(g: bool, w: string)
    ensures LastMatch(g, w).Some? ==> CountAt(w, LastMatch(g, w).value)
    decreases |w|
  {
    hide MatchHere, Advance, LastMatch, CountAt, IsWord;
    if w == [] {
      NoMatch(g);
    } else {
      LastMatchUnfold(g, w);
      var j := Advance(g, w);
      var later := LastMatch(IsWord(w[j - 1]), w[j..]);
      LastMatchCount(IsWord(w[j - 1]), w[j..]);
      if later.Some? {
        CountAtShift(w, j, later.value);
      } else if MatchHere(g, w).Some? {
        MatchCount(w, MatchHere(g, w).value);
      }
    }
  }

  lemma NoMatch(g: bool)
    ensures LastMatch(g, []).None?
  {}

  lemma MatchCount(w: string, m: Match)
    requires IsLimit(w) && CountIn(w, m) && 6 <= m.at
    ensures CountAt(w, Found(0, m.at, m.len))
  {}

  lemma MaskCount(x: Rules, s: string)
    ensures var m := Mask(x, s);
            |m| == |s| && (LastMatch(false, m).Some? ==> CountAt(m, LastMatch(false, m).value))
  {
    hide Lex, Tok, LastMatch;
    LastMatchCount(false, Mask(x, s));
    MaskKeeps(x, false, s);
  }

  /** `lowerLimitInText` as a function of the mask: null when nothing has to change. */
  function Lowered(x: Rules, s: string, maxRows: nat): Option<string> {
    MaskLength(x, s);
    LoweredAt(Mask(x, s), s, maxRows)
  }

  lemma MaskLength(x: Rules, s: string)
    ensures |Mask(x, s)| == |s|
  {
    hide Lex;
    MaskKeeps(x, false, s);
  }

  function LoweredAt(m: string, s: string, maxRows: nat): Option<string>
    requires |m| == |s|
  {
    match LastMatch(false, m)
    case None => None
    case Some(f) =>
      LastMatchCount(false, m);
      if NumberOf(m[f.at..f.at + f.len]) <= maxRows then None
      else Some(Splice(s, f.at, f.len, Numeral(maxRows)))
  }

  /** The text with `n` characters at `k` replaced. */
  function Splice(s: string, k: nat, n: nat, d: string): string
    requires k + n <= |s|
  {
    s[..k] + d + s[k + n..]
  }

  // ----- the loops of lowerLimitInText -----

  predicate Occurs(text: string, p: string, j: nat) {
    j + |p| <= |text| && text[j..j + |p|] == p
  }

  /** `lastIndexOf`. */
  method LastIndexOf(text: string, p: string) returns (k: int)
    ensures -1 <= k && (k >= 0 ==> Occurs(text, p, k))
    ensures forall j: nat :: k < j ==> !Occurs(text, p, j)
  {
    k := |text| - |p|;
    if k < -1 { k := -1; }
    while k >= 0
      invariant -1 <= k
      invariant forall j: nat :: k < j ==> !Occurs(text, p, j)
    {
      if Occurs(text, p, k) { return; }
      k := k - 1;
    }
  }

  ghost function LastMatchAt(m: string, i: nat): Option<Found>
    requires i <= |m|
  {
    LastMatch(i > 0 && IsWord(m[i - 1]), m[i..])
  }

  /** The matches from `i` on, in terms of the one at `i` and those after it. */
  lemma LastMatchStep(m: string, i: nat)
    requires i < |m|
    ensures match MatchHere(i > 0 && IsWord(m[i - 1]), m[i..])
            case None => LastMatchAt(m, i) == Shifted(LastMatchAt(m, i + 1), 1)
            case Some(f) =>
              LastMatchAt(m, i) ==
              if LastMatchAt(m, i + f.end).Some? then Shifted(LastMatchAt(m, i + f.end), f.end)
              else Some(Found(0, f.at, f.len))
  {
    hide MatchHere;
    var w := m[i..];
    match MatchHere(i > 0 && IsWord(m[i - 1]), w)
    case None => assert w[1..] == m[i + 1..];
    case Some(f) => assert w[f.end..] == m[i + f.end..] && w[f.end - 1] == m[i + f.end - 1];
  }

  lemma LastMatchEnds(m: string)
    ensures LastMatchAt(m, 0) == LastMatch(false, m) && LastMatchAt(m, |m|).None?
  {
    assert m[0..] == m;
  }

  lemma CountInShift(m: string, i: nat, f: Match)
    requires i <= |m| && CountIn(m[i..], f) && f.at > 0
    ensures CountIn(m, Match(i + f.at, f.len, i + f.end))
  {
    var w := m[i..];
    forall j | i + f.at <= j < i + f.end ensures m[j] == w[j - i] {}
  }

  /** The `exec` loop: the last match, and where it ends. */
  method FindLastMatch(m: string) returns (last: Option<Found>, end: nat)
    ensures last == LastMatch(false, m)
    ensures last.Some? ==> CountAt(m, last.value) && CountIn(m, Match(last.value.at, last.value.len, end))
    ensures end <= |m| && (last.Some? ==> last.value.at + last.value.len <= end)
  {
    hide MatchHere, LastMatchAt, LastMatch, CountIn;
    last, end := None, 0;
    var i := 0;
    LastMatchEnds(m);
    while i < |m|
      invariant 0 <= i <= |m|
      invariant LastMatchAt(m, 0) == if LastMatchAt(m, i).Some? then Shifted(LastMatchAt(m, i), i) else last
      invariant last.Some? ==> CountIn(m, Match(last.value.at, last.value.len, end))
      invariant end <= |m| && (last.Some? ==> last.value.at + last.value.len <= end)
    {
      LastMatchStep(m, i);
      var here := MatchHere(i > 0 && IsWord(m[i - 1]), m[i..]);
      if here.Some? {
        var f := here.value;
        CountInShift(m, i, f);
        MatchAdvances(m[i..], f);
        last, end, i := Some(Found(i, i + f.at, f.len)), i + f.end, i + f.end;
      } else {
        i := i + 1;
      }
    }
    LastMatchCount(false, m);
  }

  lemma MatchAdvances(w: string, f: Match)
    requires CountIn(w, f)
    ensures 0 < f.at + f.len <= f.end <= |w|
  {}

  /** `lowerLimitInText`. */
  method LowerLimitInText(s: string, maxRows: nat, e: Engine) returns (r: Option<string>)
    ensures r == Lowered(ScanRules(e), s, maxRows)
  {
    hide LastMatch, Lex, Render, CountIn, CountAt, NumberOf, Numeral, Occurs;
    var m := Scan(s, e, true);
    MaskLength(ScanRules(e), s);
    var last, end := FindLastMatch(m);
    if last.None? { return None; }
    var f := last.value;
    CountFits(m, f);
    var countText := m[f.at..f.at + f.len];
    // the count is searched for from the right inside the matched text
    var k := LastIndexOf(m[f.start..end], countText);
    CountIsLast(m, f, end, m[f.start..end], countText, k);
    if NumberOf(countText) <= maxRows { return None; }
    var countStart := f.start + k;
    MaskKeeps(ScanRules(e), false, s);
    DigitsShow(m, s, f);
    if s[countStart..countStart + |countText|] != countText {
      assert false;
    }
    r := Some(s[..countStart] + Numeral(maxRows) + s[countStart + |countText|..]);
  }

  lemma CountFits(m: string, f: Found)
    requires CountAt(m, f)
    ensures f.start + 6 <= f.at && 0 < f.len && f.at + f.len <= |m| && AllDigits(m[f.at..f.at + f.len])
  {}

  lemma CountIsLast(m: string, f: Found, end: nat, t: string, p: string, k: int)
    requires CountAt(m, f) && CountIn(m, Match(f.at, f.len, end))
    requires t == m[f.start..end] && p == m[f.at..f.at + f.len]
    requires -1 <= k && (k >= 0 ==> Occurs(t, p, k))
    requires forall j: nat :: k < j ==> !Occurs(t, p, j)
    ensures k == f.at - f.start
  {
    hide IsSpace, IsDigit;
    SubSlice(m, f.start, end, f.at, f.at + f.len);
    assert Occurs(t, p, f.at - f.start);
    assert p[f.len - 1] == m[f.at + f.len - 1] && IsDigit(m[f.at + f.len - 1]);
    SpaceOrDigit(p[f.len - 1]);
    forall j: nat | j > f.at - f.start ensures !Occurs(t, p, j) {
      if j + f.len <= |t| {
        var i := f.start + j + f.len - 1;
        LastOfSlice(m, f.start, end, j, f.len);
        assert f.at + f.len <= i < end;
        assert IsSpace(m[i]);
      }
    }
  }

  lemma LastOfSlice(m: string, a: nat, b: nat, j: nat, n: nat)
    requires a <= b <= |m| && 0 < n && j + n <= b - a
    ensures m[a..b][j..j + n][n - 1] == m[a + j + n - 1]
  {}

  lemma SubSlice(m: string, a: nat, b: nat, i: nat, j: nat)
    requires a <= i <= j <= b <= |m|
    ensures m[a..b][i - a..j - a] == m[i..j]
  {
    var t := m[a..b][i - a..j - a];
    assert |t| == j - i;
    assert forall k :: 0 <= k < j - i ==> t[k] == m[a..b][i - a + k] == m[i + k];
  }

  lemma SpaceOrDigit(c: char)
    ensures !(IsSpace(c) && IsDigit(c))
  {}

  lemma DigitsShow(m: string, s: string, f: Found)
    requires |m| == |s| && CountAt(m, f) && forall i :: 0 <= i < |s| && m[i] != ' ' ==> m[i] == s[i]
    ensures s[f.at..f.at + f.len] == m[f.at..f.at + f.len]
  {}

  // ----- the statement-level LIMIT -----

  /** What `\w` means to a case-insensitive Unicode expression. */
  predicate IsWordU(c: char) { IsWord(c) || c == '\U{17F}' || c == '\U{212A}' }

  /** `limit` as a whole word at `i`, at the start or behind white space or a closing parenthesis. */
  predicate LimitWord(m: string, i: nat)
    requires i < |m|
  {
    && IsLimit(m[i..])
    && (i + 5 == |m| || !IsWordU(m[i + 5]))
    && (i == 0 || IsSpace(m[i - 1]) || m[i - 1] == ')')
  }

  datatype LimitScan = LimitScan(depth: int, at: int)

  function ScanChar(st: LimitScan, m: string, i: nat): LimitScan
    requires i < |m|
  {
    if m[i] == '(' then st.(depth := st.depth + 1)
    else if m[i] == ')' then st.(depth := st.depth - 1)
    else if st.depth == 0 && LimitWord(m, i) then st.(at := i)
    else st
  }

  /** The scan after the first `n` characters. */
  function ScanLimit(m: string, n: nat): (st: LimitScan)
    requires n <= |m|
    ensures -1 <= st.at < n
  {
    if n == 0 then LimitScan(0, -1) else ScanChar(ScanLimit(m, n - 1), m, n - 1)
  }

  datatype LimitClause = NoLimit | Count(value: nat) | All(at: nat) | NonLiteral

  /** `/^limit\s+all\b/iu` */
  predicate LimitAll(w: string) {
    |w| >= 5 &&
    var a := 5 + SpaceLen(w[5..]);
    a > 5 && a + 3 <= |w| && LowChar(w[a]) == 'a' && LowChar(w[a + 1]) == 'l' && LowChar(w[a + 2]) == 'l'
    && (a + 3 == |w| || !IsWordU(w[a + 3]))
  }

  /** What the clause at the located keyword says. */
  function ReadLimit(m: string, at: int): LimitClause
    requires at < |m|
  {
    if at < 0 then NoLimit
    else if LimitAll(m[at..]) then All(at)
    else match MatchHere(false, m[at..])
      case None => NonLiteral
      case Some(f) => Count(NumberOf(m[at..][f.at..f.at + f.len]))
  }

  function StatementLimit(x: Rules, s: string): LimitClause {
    var m := Mask(x, s);
    if m == [] then NoLimit else ReadLimit(m, ScanLimit(m, |m|).at)
  }

  /** `statementLevelLimit`. */
  method StatementLevelLimit(s: string, e: Engine) returns (r: LimitClause)
    ensures r == StatementLimit(ScanRules(e), s)
  {
    hide Lex, Render, LimitWord, LimitAll, MatchHere;
    var m := Scan(s, e, true);
    var depth, at := 0, -1;
    for i := 0 to |m|
      invariant ScanLimit(m, i) == LimitScan(depth, at)
    {
      if m[i] == '(' { depth := depth + 1; }
      else if m[i] == ')' { depth := depth - 1; }
      else if depth == 0 && LimitWord(m, i) { at := i; }
    }
    if at < 0 { return NoLimit; }
    r := ReadLimit(m, at);
  }

  // ----- masking commutes with replacing a visible word -----

  ghost predicate AllTame(d: string) { forall i :: 0 <= i < |d| ==> Tame(d[i]) }

  lemma DigitsAreTame(d: string)
    requires AllDigits(d)
    ensures AllTame(d)
  {}

  lemma {:induction false} TameRun(x: Rules, g: bool, d: string, rest: string)
    requires d != [] && AllTame(d)
    ensures Render(true, Lex(x, g, d + rest)) == d + Render(true, Lex(x, true, rest))
    decreases |d|
  {
    hide Lex;
    var w := d + rest;
    assert Tok(x, g, w) == Token(Plain, 1, true);
    MaskStep(x, g, w);
    assert w[1..] == d[1..] + rest;
    if |d| > 1 {
      TameRun(x, true, d[1..], rest);
      assert [d[0]] + (d[1..] + Render(true, Lex(x, true, rest))) == d + Render(true, Lex(x, true, rest));
    } else {
      assert d[1..] + rest == rest && d == [d[0]];
    }
  }

  lemma TameIsWord(c: char)
    requires Tame(c)
    ensures IsWord(c)
  {}

  lemma WordToken(x: Rules, g: bool, w: string)
    requires |w| > 1 && IsWord(w[0]) && IsWord(w[1])
    ensures Tok(x, g, w) == Token(Plain, 1, true)
  {
    hide Lit, Block, LineLen, Find, TagLen;
  }

  /** Word characters that run into a tame one open nothing, so the mask shows them. */
  lemma {:induction false} WordRunShows(x: Rules, g: bool, w: string, r: nat)
    requires r < |w| && Tame(w[r]) && forall i :: 0 <= i < r ==> IsWord(w[i])
    ensures var m := Render(true, Lex(x, g, w)); |m| == |w| && (r > 0 ==> m[r - 1] == w[r - 1])
    decreases r
  {
    hide Lex, Tok, Tame;
    MaskKeeps(x, g, w);
    if r > 0 {
      assert IsWord(w[1]) by { if r == 1 { TameIsWord(w[1]); } }
      WordToken(x, g, w);
      MaskStep(x, g, w);
      WordRunShows(x, Glues(w[0]), w[1..], r - 1);
    }
  }

  /** The count stands behind white space or a comma, so no `$tag` reaches it. */
  lemma TagStopsShort(x: Rules, g: bool, w: string, k: nat)
    requires 0 < k < |w| && w[0] == '$' && Tok(x, g, w).kind == Plain && Tame(w[k])
    requires |Render(true, Lex(x, g, w))| == |w|
    requires var c := Render(true, Lex(x, g, w))[k - 1]; IsSpace(c) || c == ','
    ensures TagLen(w[1..]) + 1 < k
  {
    hide Tok, Lex;
    MaskStep(x, g, w);
    var n := TagLen(w[1..]);
    if n + 1 >= k && k > 1 {
      assert IsWord(w[1..][k - 2]) && Tame(w[1..][k - 1]);
      WordRunShows(x, Glues(w[0]), w[1..], k - 1);
    }
  }

  /** The mask shows a tame word of width `n` at `k`, behind white space or a comma. */
  ghost predicate Shown(m: string, k: nat, n: nat) {
    && 0 < n && k + n <= |m|
    && (forall i :: k <= i < k + n ==> Tame(m[i]))
    && (k > 0 ==> IsSpace(m[k - 1]) || m[k - 1] == ',')
  }

  lemma ShownShift(a: string, b: string, k: nat, n: nat)
    requires Shown(a + b, k, n) && |a| <= k
    ensures Shown(b, k - |a|, n)
  {
    forall i | k - |a| <= i < k - |a| + n ensures Tame(b[i]) { assert (a + b)[i + |a|] == b[i]; }
  }

  /** Replacing a visible tame word in the text replaces it in the mask and changes nothing else there. */
  lemma {:induction false} MaskSplice(x: Rules, g: bool, w: string, k: nat, n: nat, d: string)
    requires d != [] && AllTame(d) && k + n <= |w|
    requires Shown(Render(true, Lex(x, g, w)), k, n)
    ensures Render(true, Lex(x, g, Splice(w, k, n, d))) == Splice(Render(true, Lex(x, g, w)), k, n, d)
    decreases k
  {
    hide Tok, Lex, Splice, Front, Shown;
    if k == 0 {
      SpliceFront(x, g, w, n, d);
    } else {
      var t := Tok(x, g, w);
      var u, g' := w[t.len..], Glues(w[t.len - 1]);
      SpliceStep(x, g, w, k, n, d);
      var front, rest := Front(t, w), Render(true, Lex(x, g', u));
      ShownShift(front, rest, k, n);
      MaskSplice(x, g', u, k - t.len, n, d);
      SpliceConcat(front, rest, k - t.len, n, d);
    }
  }

  lemma SpliceFront(x: Rules, g: bool, w: string, n: nat, d: string)
    requires d != [] && AllTame(d) && n <= |w|
    requires Shown(Render(true, Lex(x, g, w)), 0, n)
    ensures Render(true, Lex(x, g, Splice(w, 0, n, d))) == Splice(Render(true, Lex(x, g, w)), 0, n, d)
  {
    hide Tok, Lex, Render;
    ShownTame(x, g, w, n);
    assert w == w[..n] + w[n..] && Splice(w, 0, n, d) == d + w[n..];
    TameRun(x, g, w[..n], w[n..]);
    TameRun(x, g, d, w[n..]);
    hide AllTame, Shown;
    SpliceHead0(w[..n], Render(true, Lex(x, true, w[n..])), d);
  }

  lemma SpliceHead0(a: string, m: string, d: string)
    ensures Splice(a + m, 0, |a|, d) == d + m
  {
    assert (a + m)[|a|..] == m;
  }

  /** A word shown at the front of the mask stands at the front of the text. */
  lemma ShownTame(x: Rules, g: bool, w: string, n: nat)
    requires n <= |w| && Shown(Render(true, Lex(x, g, w)), 0, n)
    ensures w[..n] != [] && AllTame(w[..n])
  {
    hide Tok, Lex;
    MaskKeeps(x, g, w);
  }

  /** Before the count, the spliced text has the same front token and the same mask for it. */
  lemma SpliceStep(x: Rules, g: bool, w: string, k: nat, n: nat, d: string)
    requires d != [] && AllTame(d) && k > 0 && k + n <= |w|
    requires Shown(Render(true, Lex(x, g, w)), k, n)
    ensures var t := Tok(x, g, w);
            var u, g' := w[t.len..], Glues(w[t.len - 1]);
            var front := Front(t, w);
            t.len <= k && |front| == t.len
            && Render(true, Lex(x, g, w)) == front + Render(true, Lex(x, g', u))
            && Render(true, Lex(x, g, Splice(w, k, n, d))) == front + Render(true, Lex(x, g', Splice(u, k - t.len, n, d)))
  {
    hide Tok, Lex, Splice, Front, Render, IsSpace;
    var m, v, t := Render(true, Lex(x, g, w)), Splice(w, k, n, d), Tok(x, g, w);
    MaskStep(x, g, w);
    ShownDigit(x, g, w, k, n);
    SpliceShares(w, k, n, d);
    SpliceKeepsToken(x, g, w, v, k);
    MaskStep(x, g, v);
    SpliceTail(w, k, n, d, t.len);
    SharesAt(w, v, k, 0);
    SharesAt(w, v, k, t.len - 1);
    FrontSame(t, w, v);
  }

  lemma FrontSame(t: Token, w: string, v: string)
    requires w != [] && v != [] && w[0] == v[0] && (t.kind == Plain ==> t.len == 1)
    ensures Front(t, w) == Front(t, v)
  {}

  lemma ShownDigit(x: Rules, g: bool, w: string, k: nat, n: nat)
    requires w != [] && k + n <= |w| && k > 0 && Shown(Render(true, Lex(x, g, w)), k, n)
    ensures var m := Render(true, Lex(x, g, w));
            |m| == |w| && Tame(w[k]) && (IsSpace(m[k - 1]) || m[k - 1] == ',') && Tok(x, g, w).len <= k
  {
    hide Tok, Lex, IsSpace;
    MaskKeeps(x, g, w);
    MaskStep(x, g, w);
    assert Tame(Render(true, Lex(x, g, w))[k]);
  }

  lemma SpliceShares(w: string, k: nat, n: nat, d: string)
    requires d != [] && AllTame(d) && k + n <= |w|
    ensures var v := Splice(w, k, n, d);
            k < |v| && Shares(w, v, k) && Tame(v[k]) && (']' in v[k..] ==> ']' in w[k..])
  {
    var v := Splice(w, k, n, d);
    assert v[k..] == d + w[k + n..] && v[k] == d[0];
    assert w[k..] == w[k..k + n] + w[k + n..];
  }

  lemma SpliceTail(w: string, k: nat, n: nat, d: string, j: nat)
    requires k + n <= |w| && j <= k
    ensures |Splice(w, k, n, d)| >= j && Splice(w, k, n, d)[j..] == Splice(w[j..], k - j, n, d)
  {}

  lemma SpliceConcat(a: string, b: string, k: nat, n: nat, d: string)
    requires k + n <= |b|
    ensures Splice(a + b, |a| + k, n, d) == a + Splice(b, k, n, d)
  {}

  lemma SpliceKeepsToken(x: Rules, g: bool, w: string, v: string, k: nat)
    requires 0 < k < |w| && k < |v| && w[..k] == v[..k] && Tame(w[k]) && Tame(v[k])
    requires Tok(x, g, w).len <= k && |Render(true, Lex(x, g, w))| == |w|
    requires var c := Render(true, Lex(x, g, w))[k - 1]; IsSpace(c) || c == ','
    requires ']' in v[k..] ==> ']' in w[k..]
    ensures Tok(x, g, v) == Tok(x, g, w)
  {
    hide Tok, Lex;
    var t := Tok(x, g, w);
    if t.kind == Plain && w[0] == '$' { TagStopsShort(x, g, w, k); }
    if t.kind != Plain && w[0] == '$' { TagInsideDollar(x, g, w); }
    if t.kind == Plain && w[0] == '[' {
      BracketIsPlain(x, g, w);
      FindChar(w[1..], ']');
      FindChar(v[1..], ']');
      BracketBefore(w, v, k);
    }
    TokStable(x, g, w, v, k);
  }

  lemma BracketBefore(w: string, v: string, k: nat)
    requires 0 < k && Shares(w, v, k) && (']' in v[k..] ==> ']' in w[k..])
    ensures ']' in v[1..] ==> ']' in w[1..]
  {
    assert v[1..] == v[1..k] + v[k..] && w[1..] == w[1..k] + w[k..] && v[1..k] == v[..k][1..] == w[1..k];
  }

  lemma TagInsideDollar(x: Rules, g: bool, w: string)
    requires w != [] && w[0] == '$' && Tok(x, g, w).kind != Plain
    ensures TagLen(w[1..]) + 1 < Tok(x, g, w).len
  {}

  lemma BracketIsPlain(x: Rules, g: bool, w: string)
    requires w != [] && w[0] == '[' && Tok(x, g, w).kind == Plain
    ensures Find(w[1..], "]").None?
  {}
}
