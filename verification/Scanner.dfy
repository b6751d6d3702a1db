/**
 * The lexical scanner of strip.ts.  One token function describes every span the scanner can
 * consume; the stripping scan, the masking scan and the trailing-noise trimmer are folds of it.
 */
module Scanner {
  import opened Text

  datatype Engine = Unspecified | Postgres | Mysql | Sqlite | Duckdb | Oracle

  /** What an engine's lexical grammar turns on. */
  datatype Rules = Rules(hash: bool, backslash: bool, estrings: bool)

  /** The rules `scan` uses. */
  function ScanRules(e: Engine): Rules {
    Rules(e.Unspecified? || e.Mysql?, e.Mysql?, e.Unspecified? || e.Postgres? || e.Duckdb?)
  }

  /** The rules `trimTrailingNoise` uses: it never learned about the other two settings. */
  function TrimRules(e: Engine): Rules {
    Rules(e.Unspecified? || e.Mysql?, false, true)
  }

  datatype Kind =
    | Plain | LineComment | BlockComment | DollarQuote | EString | Quote
    | DoubleQuote | Backtick | Bracket

  /** How far a span reaches, and whether its terminator was found. */
  datatype Reach = Reach(len: nat, closed: bool) {
    function Shift(k: nat): Reach { Reach(len + k, closed) }
  }

  datatype Token = Token(kind: Kind, len: nat, closed: bool)

  predicate Next(w: string, c: char) { |w| > 1 && w[1] == c }

  /** An `E` after one of these is the tail of an identifier, not a string prefix. */
  predicate Glues(c: char) { IsWord(c) || c == '$' }

  function LineLen(w: string): (n: nat)
    ensures n <= |w| && (n < |w| ==> IsNewline(w[n]))
    ensures w != [] && !IsNewline(w[0]) ==> n > 0
  {
    if w == [] || IsNewline(w[0]) then 0 else 1 + LineLen(w[1..])
  }

  /** The rest of a block comment, nesting counted by `depth`. */
  function Block(w: string, depth: nat): (r: Reach)
    ensures r.len <= |w| && (!r.closed ==> r.len == |w|)
  {
    if depth == 0 then Reach(0, true)
    else if w == [] then Reach(0, false)
    else if w[0] == '/' && Next(w, '*') then Block(w[2..], depth + 1).Shift(2)
    else if w[0] == '*' && Next(w, '/') then Block(w[2..], depth - 1).Shift(2)
    else Block(w[1..], depth).Shift(1)
  }

  /** The rest of a literal ended by `q`: `bs` lets a backslash escape, `dbl` lets `q` double itself. */
  function Lit(w: string, q: char, bs: bool, dbl: bool): (r: Reach)
    ensures r.len <= |w| && (!r.closed ==> r.len == |w|) && (r.closed ==> r.len > 0)
  {
    if w == [] then Reach(0, false)
    else if bs && w[0] == '\\' then
      if |w| == 1 then Reach(1, false) else Lit(w[2..], q, bs, dbl).Shift(2)
    else if dbl && w[0] == q && Next(w, q) then Lit(w[2..], q, bs, dbl).Shift(2)
    else if w[0] == q then Reach(1, true)
    else Lit(w[1..], q, bs, dbl).Shift(1)
  }

  function TagLen(w: string): (n: nat)
    ensures n <= |w| && (n < |w| ==> !IsWord(w[n]))
    ensures forall i :: 0 <= i < n ==> IsWord(w[i])
  {
    if w == [] || !IsWord(w[0]) then 0 else 1 + TagLen(w[1..])
  }

  /** `indexOf`. */
  function Find(w: string, p: string): (r: Option<nat>)
    ensures r.Some? ==> r.value + |p| <= |w| && w[r.value..r.value + |p|] == p
  {
    if p <= w then Some(0)
    else if w == [] then None
    else match Find(w[1..], p) case None => None case Some(k) => Some(k + 1)
  }

  // One step of each, for proofs that keep the recursion folded.

  lemma LitUnfold(w: string, q: char, bs: bool, dbl: bool)
    requires w != []
    ensures Lit(w, q, bs, dbl) ==
            if bs && w[0] == '\\' then (if |w| == 1 then Reach(1, false) else Lit(w[2..], q, bs, dbl).Shift(2))
            else if dbl && w[0] == q && Next(w, q) then Lit(w[2..], q, bs, dbl).Shift(2)
            else if w[0] == q then Reach(1, true)
            else Lit(w[1..], q, bs, dbl).Shift(1)
  {}

  lemma LitEmpty(q: char, bs: bool, dbl: bool)
    ensures Lit([], q, bs, dbl) == Reach(0, false)
  {}

  lemma BlockUnfold(w: string, depth: nat)
    requires w != [] && depth > 0
    ensures Block(w, depth) ==
            if w[0] == '/' && Next(w, '*') then Block(w[2..], depth + 1).Shift(2)
            else if w[0] == '*' && Next(w, '/') then Block(w[2..], depth - 1).Shift(2)
            else Block(w[1..], depth).Shift(1)
  {}

  lemma BlockDone(w: string)
    ensures Block(w, 0) == Reach(0, true)
  {}

  lemma BlockOpen(depth: nat)
    requires depth > 0
    ensures Block([], depth) == Reach(0, false)
  {}

  lemma FindUnfold(w: string, p: string)
    requires w != []
    ensures Find(w, p) == if p <= w then Some(0) else match Find(w[1..], p) case None => None case Some(f) => Some(f + 1)
  {}

  /** Whether `w` opens with `$tag$`. */
  predicate OpensDollar(w: string) {
    w != [] && w[0] == '$' && TagLen(w[1..]) + 1 < |w| && w[TagLen(w[1..]) + 1] == '$'
  }

  function Dollar(w: string): (t: Token)
    requires OpensDollar(w)
    ensures 1 <= t.len <= |w| && t.kind == DollarQuote && (!t.closed ==> t.len == |w|)
  {
    var j := TagLen(w[1..]) + 2;
    match Find(w[j..], w[..j])
    case None => Token(DollarQuote, |w|, false)
    case Some(k) => Token(DollarQuote, j + k + j, true)
  }

  function OfReach(k: Kind, skip: nat, r: Reach): Token { Token(k, skip + r.len, r.closed) }

  predicate OpensComment(x: Rules, w: string) {
    w != [] &&
    ((w[0] == '-' && Next(w, '-')) || (w[0] == '#' && x.hash) || (w[0] == '/' && Next(w, '*')))
  }

  function Comment(x: Rules, w: string): (t: Token)
    requires OpensComment(x, w)
    ensures 1 <= t.len <= |w| && (!t.closed ==> t.len == |w|)
    ensures t.kind == BlockComment || (t.kind == LineComment && t.closed)
  {
    if w[0] == '/' then OfReach(BlockComment, 2, Block(w[2..], 1))
    else Token(LineComment, LineLen(w), true)
  }

  /** A literal, a quoted identifier or one ordinary character. */
  function Quoted(x: Rules, glued: bool, w: string): (t: Token)
    requires w != []
    ensures 1 <= t.len <= |w|
    ensures !t.closed ==> t.len == |w| && t.kind != Plain
    ensures t.kind == Plain ==> t.len == 1
  {
    var c := w[0];
    if x.estrings && (c == 'e' || c == 'E') && Next(w, '\'') && !glued then
      OfReach(EString, 2, Lit(w[2..], '\'', true, true))
    else if c == '\'' then OfReach(Quote, 1, Lit(w[1..], '\'', x.backslash, true))
    else if c == '"' then OfReach(DoubleQuote, 1, Lit(w[1..], '"', false, true))
    else if c == '`' then OfReach(Backtick, 1, Lit(w[1..], '`', false, false))
    else if c == '[' && Find(w[1..], "]").Some? then
      Token(Bracket, Find(w[1..], "]").value + 2, true)
    else Token(Plain, 1, true)
  }

  /** The token at the front of `w`; `glued` says whether the character before it glues. */
  function Tok(x: Rules, glued: bool, w: string): (t: Token)
    requires w != []
    ensures 1 <= t.len <= |w|
    ensures !t.closed ==> t.len == |w| && t.kind != Plain
    ensures t.kind == Plain ==> t.len == 1
    ensures t.kind == LineComment ==> t.closed
  {
    if OpensComment(x, w) then Comment(x, w)
    else if OpensDollar(w) then Dollar(w)
    else Quoted(x, glued, w)
  }

  /** One token with the text it covers; a whole text is a list of them. */
  datatype Piece = Piece(kind: Kind, text: string, closed: bool)
  datatype Pieces = End | More(head: Piece, rest: Pieces)

  function PieceOf(t: Token, w: string): Piece
    requires t.len <= |w|
  {
    Piece(t.kind, w[..t.len], t.closed)
  }

  function Lex(x: Rules, g: bool, w: string): (ps: Pieces)
    decreases |w|
  {
    if w == [] then End
    else
      var t := Tok(x, g, w);
      More(PieceOf(t, w), Lex(x, Glues(w[t.len - 1]), w[t.len..]))
  }

  function Join(ps: Pieces): string {
    match ps case End => [] case More(p, rest) => p.text + Join(rest)
  }

  /** What the scan writes for one token: stripped text leaves a marker, masked text keeps the width. */
  function Emit(keep: bool, p: Piece): string {
    if p.kind == Plain then p.text
    else if keep then Spaces(|p.text|)
    else if p.kind == DoubleQuote then " \" "
    else if p.kind == Backtick then " ` "
    else " "
  }

  function Render(keep: bool, ps: Pieces): string {
    match ps case End => [] case More(p, rest) => Emit(keep, p) + Render(keep, rest)
  }

  /** `maskCommentsAndStrings` under the given rules. */
  function Mask(x: Rules, s: string): string { Render(true, Lex(x, false, s)) }

  /** White space, `;` and comments. */
  predicate Noise(p: Piece) {
    || p.kind == LineComment
    || p.kind == BlockComment
    || (p.kind == Plain && p.text != [] && (IsSpace(p.text[0]) || p.text[0] == ';'))
  }

  function DropNoise(ps: Pieces): Pieces {
    match ps
    case End => End
    case More(p, rest) =>
      var r := DropNoise(rest);
      if r.End? && Noise(p) then End else More(p, r)
  }

  /** `trimTrailingNoise` under the given rules. */
  function Trim(x: Rules, s: string): string { Join(DropNoise(Lex(x, false, s))) }

  /** The text ends inside a literal or a block comment. */
  predicate EndsOpen(ps: Pieces) { ps.More? && (!ps.head.closed || EndsOpen(ps.rest)) }

  /** The text ends inside a literal. */
  predicate EndsInLiteral(ps: Pieces) {
    ps.More? && ((!ps.head.closed && ps.head.kind != BlockComment) || EndsInLiteral(ps.rest))
  }

  // ----- the loops of strip.ts -----

  /** The character before `i` glues; nothing precedes the start of the text. */
  predicate GluedAt(s: string, i: nat)
    requires i <= |s|
  {
    i > 0 && Glues(s[i - 1])
  }

  method SkipLine(s: string, start: nat) returns (i: nat)
    requires start <= |s|
    ensures i == start + LineLen(s[start..])
  {
    i := start;
    while i < |s| && s[i] != '\n' && s[i] != '\r'
      invariant start <= i <= |s|
      invariant i + LineLen(s[i..]) == start + LineLen(s[start..])
    {
      assert s[i..][1..] == s[i + 1..];
      i := i + 1;
    }
  }

  method SkipBlock(s: string, start: nat) returns (i: nat)
    requires start <= |s|
    ensures i == start + Block(s[start..], 1).len
  {
    i := start;
    var depth := 1;
    while i < |s| && depth > 0
      invariant start <= i <= |s| && depth >= 0
      invariant Block(s[i..], depth).Shift(i) == Block(s[start..], 1).Shift(start)
    {
      assert s[i..][1..] == s[i + 1..];
      assert i + 1 < |s| ==> s[i..][2..] == s[i + 2..];
      if s[i] == '/' && i + 1 < |s| && s[i + 1] == '*' {
        depth := depth + 1;
        i := i + 2;
      } else if s[i] == '*' && i + 1 < |s| && s[i + 1] == '/' {
        depth := depth - 1;
        i := i + 2;
      } else {
        i := i + 1;
      }
    }
  }

  method SkipLiteral(s: string, start: nat, q: char, bs: bool, dbl: bool) returns (i: nat)
    requires start <= |s|
    ensures i == start + Lit(s[start..], q, bs, dbl).len
  {
    hide Lit;
    i := start;
    while i < |s|
      invariant start <= i <= |s|
      invariant Lit(s[i..], q, bs, dbl).Shift(i) == Lit(s[start..], q, bs, dbl).Shift(start)
    {
      LitUnfold(s[i..], q, bs, dbl);
      assert s[i..][1..] == s[i + 1..];
      assert i + 1 < |s| ==> s[i..][2..] == s[i + 2..];
      if bs && s[i] == '\\' {
        // an escape at the very end would step past it; the length is clamped
        i := if i + 1 < |s| then i + 2 else i + 1;
      } else if dbl && s[i] == q && i + 1 < |s| && s[i + 1] == q {
        i := i + 2;
      } else if s[i] == q {
        i := i + 1;
        break;
      } else {
        i := i + 1;
      }
    }
  }

  method SkipTag(s: string, start: nat) returns (j: nat)
    requires start <= |s|
    ensures j == start + TagLen(s[start..])
  {
    j := start;
    while j < |s| && IsWord(s[j])
      invariant start <= j <= |s|
      invariant j + TagLen(s[j..]) == start + TagLen(s[start..])
    {
      assert s[j..][1..] == s[j + 1..];
      j := j + 1;
    }
  }

  method NextQuoted(x: Rules, s: string, i: nat) returns (end: nat, kind: Kind)
    requires i < |s|
    ensures var t := Quoted(x, GluedAt(s, i), s[i..]); end == i + t.len && kind == t.kind
  {
    var c := s[i];
    ghost var w := s[i..];
    assert w[1..] == s[i + 1..];
    if x.estrings && (c == 'e' || c == 'E') && i + 1 < |s| && s[i + 1] == '\'' && !GluedAt(s, i) {
      assert w[2..] == s[i + 2..];
      kind := EString;
      end := SkipLiteral(s, i + 2, '\'', true, true);
    } else if c == '\'' {
      kind := Quote;
      end := SkipLiteral(s, i + 1, '\'', x.backslash, true);
    } else if c == '"' {
      kind := DoubleQuote;
      end := SkipLiteral(s, i + 1, '"', false, true);
    } else if c == '`' {
      kind := Backtick;
      end := SkipLiteral(s, i + 1, '`', false, false);
    } else {
      end, kind := i + 1, Plain;
      var close := Find(s[i + 1..], "]");
      if c == '[' && close.Some? {
        end, kind := i + 2 + close.value, Bracket;
      }
    }
  }

  method NextComment(x: Rules, s: string, i: nat) returns (end: nat, kind: Kind)
    requires i < |s| && OpensComment(x, s[i..])
    ensures var t := Comment(x, s[i..]); end == i + t.len && kind == t.kind
  {
    if s[i] == '/' {
      assert s[i..][2..] == s[i + 2..];
      kind := BlockComment;
      end := SkipBlock(s, i + 2);
    } else {
      kind := LineComment;
      end := SkipLine(s, i);
    }
  }

  /** One step of either scanner: the end of the token at `i`, and its kind. */
  method NextToken(x: Rules, s: string, i: nat) returns (end: nat, kind: Kind)
    requires i < |s|
    ensures var t := Tok(x, GluedAt(s, i), s[i..]); end == i + t.len && kind == t.kind
  {
    hide Comment, Quoted, Find, TagLen;
    ghost var w := s[i..];
    if OpensComment(x, s[i..]) {
      end, kind := NextComment(x, s, i);
      return;
    }
    if s[i] == '$' {
      var j := SkipTag(s, i + 1);
      assert w[1..] == s[i + 1..];
      if j < |s| && s[j] == '$' {
        assert w[..j + 1 - i] == s[i..j + 1] && w[j + 1 - i..] == s[j + 1..];
        var close := Find(s[j + 1..], s[i..j + 1]);
        kind := DollarQuote;
        end := if close.None? then |s| else j + 1 + close.value + (j + 1 - i);
        return;
      }
    }
    end, kind := NextQuoted(x, s, i);
  }

  /** The tokens from `i` on. */
  ghost function LexAt(x: Rules, s: string, i: nat): Pieces
    requires i <= |s|
  {
    Lex(x, GluedAt(s, i), s[i..])
  }

  /** One step of either scanner: the token at `i` and where it ends. */
  method NextPiece(x: Rules, s: string, i: nat) returns (kind: Kind, end: nat, ghost p: Piece)
    requires i < |s|
    ensures i < end <= |s| && p.kind == kind && p.text == s[i..end]
    ensures LexAt(x, s, i) == More(p, LexAt(x, s, end))
  {
    hide Tok;
    end, kind := NextToken(x, s, i);
    ghost var w, t := s[i..], Tok(x, GluedAt(s, i), s[i..]);
    assert w[t.len..] == s[end..] && w[t.len - 1] == s[end - 1] && w[..t.len] == s[i..end];
    p := PieceOf(t, w);
  }

  /** One turn of the scan's loop: what it writes and where it goes on. */
  method ScanStep(x: Rules, keep: bool, s: string, i: nat) returns (piece: string, end: nat)
    requires i < |s|
    ensures i < end <= |s|
    ensures Render(keep, LexAt(x, s, i)) == piece + Render(keep, LexAt(x, s, end))
  {
    hide LexAt;
    var kind;
    ghost var p;
    kind, end, p := NextPiece(x, s, i);
    LexPlain(x, s, i);
    piece :=
      if kind == Plain then [s[i]]
      else if keep then Spaces(end - i)
      else if kind == DoubleQuote then " \" "
      else if kind == Backtick then " ` "
      else " ";
    assert piece == Emit(keep, p);
  }

  /** `scan`: both `stripCommentsAndStrings` and `maskCommentsAndStrings`. */
  method Scan(s: string, e: Engine, preserveLength: bool) returns (out: string)
    ensures out == Render(preserveLength, Lex(ScanRules(e), false, s))
  {
    hide LexAt, Render;
    var x := ScanRules(e);
    out := [];
    var i := 0;
    ghost var all := Render(preserveLength, LexAt(x, s, 0));
    while i < |s|
      invariant 0 <= i <= |s|
      invariant out + Render(preserveLength, LexAt(x, s, i)) == all
    {
      var piece, end := ScanStep(x, preserveLength, s, i);
      Regroup(out, piece, Render(preserveLength, LexAt(x, s, end)));
      out, i := out + piece, end;
    }
    LexEnds(x, s);
  }

  lemma Regroup(a: string, b: string, c: string)
    ensures (a + b) + c == a + (b + c)
  {}

  lemma LexEnds(x: Rules, s: string)
    ensures LexAt(x, s, |s|) == End && LexAt(x, s, 0) == Lex(x, false, s)
    ensures forall keep :: Render(keep, LexAt(x, s, |s|)) == []
  {
    assert s[0..] == s;
  }

  lemma LexEmpty(x: Rules, g: bool)
    ensures Lex(x, g, []) == End
  {}

  lemma LexStep(x: Rules, g: bool, w: string)
    requires w != []
    ensures var t := Tok(x, g, w);
            Lex(x, g, w) == More(PieceOf(t, w), Lex(x, Glues(w[t.len - 1]), w[t.len..]))
  {
    hide Tok, Glues;
  }

  lemma LexPlain(x: Rules, s: string, i: nat)
    requires i < |s|
    ensures LexAt(x, s, i).More?
    ensures LexAt(x, s, i).head.kind == Plain ==> LexAt(x, s, i).head.text == [s[i]]
  {}

  lemma {:induction false} JoinLex(x: Rules, g: bool, w: string)
    ensures Join(Lex(x, g, w)) == w
    decreases |w|
  {
    hide Tok, Lex;
    if w == [] {
      LexEmpty(x, g);
    } else {
      LexStep(x, g, w);
      var t := Tok(x, g, w);
      JoinLex(x, Glues(w[t.len - 1]), w[t.len..]);
      assert w == w[..t.len] + w[t.len..];
    }
  }

  lemma DropNoiseIsPrefix(ps: Pieces)
    ensures Join(DropNoise(ps)) <= Join(ps)
  {}

  lemma TrimIsPrefix(x: Rules, s: string)
    ensures Trim(x, s) <= s
  {
    JoinLex(x, false, s);
    DropNoiseIsPrefix(Lex(x, false, s));
  }

  /** Where the trimmer will cut, `last` being its answer so far when it stands at `i`. */
  ghost function Cut(ps: Pieces, i: nat, last: nat): nat {
    var kept := DropNoise(ps);
    if kept.More? then i + |Join(kept)| else last
  }

  lemma CutStep(p: Piece, rest: Pieces, i: nat, last: nat)
    ensures Cut(More(p, rest), i, last) == Cut(rest, i + |p.text|, if Noise(p) then last else i + |p.text|)
  {
    var r := DropNoise(rest);
    assert DropNoise(More(p, rest)) == if r.End? && Noise(p) then End else More(p, r);
    assert Join(More(p, r)) == p.text + Join(r);
  }

  /** `trimTrailingNoise`. */
  method TrimTrailingNoise(s: string, e: Engine) returns (r: string)
    ensures r == Trim(TrimRules(e), s)
  {
    hide LexAt, Cut;
    var x := TrimRules(e);
    var i, lastReal := 0, 0;
    TrimCut(x, s);
    while i < |s|
      invariant 0 <= lastReal <= i <= |s|
      invariant Cut(LexAt(x, s, i), i, lastReal) == |Trim(x, s)|
    {
      var kind, end, p := NextPiece(x, s, i);
      LexPlain(x, s, i);
      CutStep(p, LexAt(x, s, end), i, lastReal);
      if kind != LineComment && kind != BlockComment && !(kind == Plain && (IsSpace(s[i]) || s[i] == ';')) {
        lastReal := end;
      }
      i := end;
    }
    r := s[..lastReal];
  }

  lemma TrimCut(x: Rules, s: string)
    ensures Trim(x, s) <= s && Cut(LexAt(x, s, 0), 0, 0) == |Trim(x, s)|
    ensures forall last: nat :: Cut(LexAt(x, s, |s|), |s|, last) == last
  {
    LexEnds(x, s);
    TrimIsPrefix(x, s);
  }

  /** `hasMultipleStatements` on stripped text. */
  method HasMultipleStatements(s: string) returns (r: bool)
    ensures r == Multiple(s)
  {
    var end := |s|;
    while end > 0
      invariant 0 <= end <= |s|
      invariant forall j :: end <= j < |s| ==> !Significant(s[j])
    {
      var c := s[end - 1];
      if c == ';' || IsSpace(c) { end := end - 1; } else { break; }
    }
    // lastIndexOf(';', end - 1): a negative start position is read as 0
    var from := if end == 0 then 0 else end - 1;
    r := false;
    if s != [] {
      var k := from;
      while k >= 0
        invariant -1 <= k <= from
        invariant forall j :: k < j <= from ==> s[j] != ';'
      {
        if s[k] == ';' { r := true; break; }
        k := k - 1;
      }
    }
  }

  predicate Significant(c: char) { c != ';' && !IsSpace(c) }

  /**
   * What a reader means by two statements - a separator with something significant after it - plus
   * the one text the code also reports: nothing significant at all, behind a leading `;`.
   */
  ghost predicate Multiple(s: string) {
    || (exists p, q :: 0 <= p < q < |s| && s[p] == ';' && Significant(s[q]))
    || (s != [] && s[0] == ';' && forall q :: 0 <= q < |s| ==> !Significant(s[q]))
  }
}
