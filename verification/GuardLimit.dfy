/**
 * The guard's row cap on the statement's text: trim, then append, lower or rewrite.  What the parser
 * contributes is a parameter, the limit it reports included.
 */
module GuardLimit {
  import opened Text
  import opened Scanner
  import opened ScannerLaws
  import opened LimitText
  import opened LimitLaws
  import opened SpliceLaws
  import opened LimitRewrite

  datatype Reading = Absent | Counted(n: nat) | Unbounded | Unreadable

  /**
   * What the guard asks of the parsed statement: whether its last branch is parenthesised, whether
   * it is an EXPLAIN, what its limit is, and on Oracle what a trailing LIMIT is translated to, if it
   * is not refused, and where the count of a trailing FETCH clause stands.
   */
  datatype Parser = Parser(
    branches: string -> bool, explain: string -> bool, limit: string -> Reading,
    fetch: string -> Option<string>, tail: string -> Option<Span>)

  datatype Verdict = Blocked | Allowed(sql: string, autoLimited: bool, loweredLimit: bool)

  predicate Limited(v: Verdict) { v.Allowed? && (v.autoLimited || v.loweredLimit) }

  /** What is left of a statement once both ends are trimmed. */
  function Body(e: Engine, s: string): string { Trim(TrimRules(e), TrimSpace(s)) }

  function Lower(r: Option<string>, body: string): Verdict {
    if r.Some? then Allowed(r.value, false, true) else Allowed(body, false, false)
  }

  function Rewrite(r: Option<string>): Verdict { if r.Some? then Allowed(r.value, false, true) else Blocked }

  predicate TailFits(o: Span, t: string) {
    0 < o.len && o.at + o.len <= |t| && forall i :: o.at <= i < o.at + o.len ==> IsDigit(t[i])
  }

  /** The count of a FETCH clause, lowered in place. */
  function CapFetch(o: Option<Span>, body: string, max: nat): Verdict {
    if o.Some? && TailFits(o.value, body) && NumberOf(body[o.value.at..o.value.at + o.value.len]) > max
    then Allowed(Splice(body, o.value.at, o.value.len, Numeral(max)), false, true)
    else Allowed(body, false, false)
  }

  function ReadingOf(c: LimitClause): Reading {
    match c case NoLimit => Absent case Count(n) => Counted(n) case All(_) => Unbounded case NonLiteral => Unreadable
  }

  /** `inspectLimit`: the text decides behind a parenthesised branch, the parser everywhere else. */
  function Inspect(p: Parser, x: Rules, body: string): Reading {
    if p.branches(body) then ReadingOf(StatementLimit(x, body)) else p.limit(body)
  }

  /** The parser reads the limit that the text shows outside all parentheses. */
  predicate Agrees(p: Parser, x: Rules, t: string) { p.limit(t) == ReadingOf(StatementLimit(x, t)) }

  /** The `LIMIT ALL` rewrite, anchored where the offset is known. */
  function RewriteAll(p: Parser, x: Rules, body: string, max: nat): Option<string> {
    var located := StatementLimit(x, body);
    if p.branches(body) && located.All? && located.at <= |body| then RewriteAt(body, located.at, max) else RewriteFirst(body, max)
  }

  function CapAs(p: Parser, x: Rules, r: Reading, body: string, max: nat): Verdict {
    match r
    case Absent => Allowed(body + CapClause(max), true, false)
    case Counted(n) => if n > max then Lower(Lowered(x, body, max), body) else Allowed(body, false, false)
    case Unbounded => Rewrite(RewriteAll(p, x, body, max))
    case Unreadable => Blocked
  }

  function CapLimit(p: Parser, e: Engine, body: string, max: nat): Verdict {
    CapAs(p, ScanRules(e), Inspect(p, ScanRules(e), body), body, max)
  }

  /** On Oracle a plain trailing LIMIT becomes a FETCH clause, and any other one is refused. */
  function Translated(p: Parser, e: Engine, body: string): Option<string> {
    if e == Oracle then p.fetch(body) else Some(body)
  }

  function Cap(p: Parser, e: Engine, body: string, max: nat): Verdict {
    var inner := Translated(p, e, body);
    if body == "" || inner.None? then Blocked
    else if p.explain(body) then Allowed(body, false, false)
    else if e == Oracle then CapFetch(p.tail(inner.value), inner.value, max)
    else CapLimit(p, e, body, max)
  }

  function Guard(p: Parser, e: Engine, s: string, max: nat): Verdict { Cap(p, e, Body(e, s), max) }

  // ----- when the edit is of the statement's own clause -----

  /** The appended cap binds, or the count or ALL that gets edited is the statement's own. */
  ghost predicate HitsLimit(p: Parser, e: Engine, body: string, max: nat) {
    var x := ScanRules(e);
    match StatementLimit(x, body)
    case NoLimit => Bindable(x, body)
    case Count(n) => n <= max || Lowered(x, body, max).None? || LowersOwn(x, body)
    case All(_) => OwnAlone(Mask(x, body)) && (p.branches(body) || RewritesOwn(x, body))
    case NonLiteral => true
  }

  ghost predicate LowersOwn(x: Rules, body: string) {
    var last, own := LastMatch(false, Mask(x, body)), Own(Mask(x, body));
    last.Some? && own.Some? && last.value.at == own.value.at
  }

  /** No dollar-quoted string runs straight into the own clause's count. */
  ghost predicate Apart(x: Rules, body: string) {
    var own := Own(Mask(x, body));
    own.Some? && 0 < own.value.at <= |body| ==> body[own.value.at - 1] != '$'
  }

  ghost predicate RewritesOwn(x: Rules, body: string) {
    Own(Mask(x, body)).Some? && FirstAll(false, body) == Some(Own(Mask(x, body)).value.at)
  }

  ghost predicate Hits(p: Parser, e: Engine, body: string, max: nat) {
    var x := ScanRules(e);
    body == "" || p.explain(body) || e == Oracle || (Agrees(p, x, body) && HitsLimit(p, e, body, max) && Apart(x, body))
  }

  /** The FETCH count is found behind white space, and again after it is replaced. */
  ghost predicate TailLaw(p: Parser) {
    forall t, o :: p.tail(t) == Some(o) && TailFits(o, t) ==>
      && 0 < o.at && IsSpace(t[o.at - 1])
      && forall n :: p.tail(Splice(t, o.at, o.len, Numeral(n))) == Some(Span(o.at, |Numeral(n)|))
  }

  /** The statement with its own limit set to `n` rows, where it can be and has none or a higher one. */
  ghost function WithLimit(p: Parser, e: Engine, t: string, n: nat): Option<string> {
    if e == Oracle then
      var o := p.tail(t);
      if o.Some? && TailFits(o.value, t) && NumberOf(t[o.value.at..o.value.at + o.value.len]) >= n
      then Some(Splice(t, o.value.at, o.value.len, Numeral(n))) else None
    else if !Agrees(p, ScanRules(e), t) then None
    else
      var x := ScanRules(e);
      match StatementLimit(x, t)
      case NoLimit => if Bindable(x, t) then Some(t + CapClause(n)) else None
      case Count(c) => if n <= c then OwnEdited(x, t, n) else None
      case All(_) => if OwnAlone(Mask(x, t)) then OwnEdited(x, t, n) else None
      case NonLiteral => None
  }

  function OwnEdited(x: Rules, t: string, n: nat): Option<string> {
    if Own(Mask(x, t)).Some? then Some(OwnEdit(x, t, n)) else None
  }

  /** Nothing more to trim. */
  ghost predicate Settled(e: Engine, s: string) { s != "" && Edged(s) && Trim(TrimRules(e), s) == s }

  /** What was translated is trimmed as before and stays as it is, also with its count replaced. */
  ghost predicate FetchLaw(p: Parser) {
    && (forall t :: p.fetch(t).Some? && Settled(Oracle, t) ==>
          Settled(Oracle, p.fetch(t).value) && p.fetch(p.fetch(t).value) == p.fetch(t))
    && (forall t, o, n :: p.tail(t) == Some(o) && TailFits(o, t) && p.fetch(t) == Some(t) ==>
          p.fetch(Splice(t, o.at, o.len, Numeral(n))) == Some(Splice(t, o.at, o.len, Numeral(n))))
  }

  /** The parser reads a limit that was set. */
  ghost predicate LimitLaw(p: Parser, e: Engine) {
    forall t, n :: WithLimit(p, e, t, n).Some? ==> Agrees(p, ScanRules(e), WithLimit(p, e, t, n).value)
  }

  /** What the proofs ask of the parser. */
  ghost predicate Lawful(p: Parser, e: Engine) { if e == Oracle then TailLaw(p) && FetchLaw(p) else LimitLaw(p, e) }

  // ----- trimming again -----

  lemma {:induction false} TrimLeftKeeps(s: string)
    ensures var t := TrimLeft(s); |t| <= |s| && t == s[|s| - |t|..] && (t != "" ==> !IsSpace(t[0]))
  {
    if s != "" && IsSpace(s[0]) { TrimLeftKeeps(s[1..]); }
  }

  lemma {:induction false} TrimRightKeeps(s: string)
    ensures var t := TrimRight(s); t <= s && (t != "" ==> !IsSpace(t[|t| - 1]))
  {
    if s != "" && IsSpace(s[|s| - 1]) { TrimRightKeeps(s[..|s| - 1]); }
  }

  /** No white space at either end. */
  predicate Edged(s: string) { s != "" ==> !IsSpace(s[0]) && !IsSpace(s[|s| - 1]) }

  lemma TrimSpaceEdges(s: string)
    ensures Edged(TrimSpace(s))
    ensures Edged(s) ==> TrimSpace(s) == s
  {
    TrimLeftKeeps(s);
    TrimRightKeeps(TrimLeft(s));
  }

  lemma FindOne(w: string, c: char)
    requires Find(w, [c]).Some?
    ensures Find(w, [c]).value < |w| && w[Find(w, [c]).value] == c
  {
    var f := Find(w, [c]).value;
    assert w[f..f + 1][0] == c;
  }

  /** A closed literal or quoted identifier does not end in white space. */
  lemma LiteralEnds(x: Rules, g: bool, w: string)
    requires w != [] && Tok(x, g, w).closed
    requires var k := Tok(x, g, w).kind; k != Plain && k != LineComment && k != BlockComment
    ensures !IsSpace(w[Tok(x, g, w).len - 1])
  {
    hide Lit, Block, Find, TagLen, LineLen;
    if OpensDollar(w) && !OpensComment(x, w) {
      DollarLast(w);
    } else {
      match Tok(x, g, w).kind
      case EString => LitLast(w[2..], '\'', true, true);
      case Quote => LitLast(w[1..], '\'', x.backslash, true);
      case DoubleQuote => LitLast(w[1..], '"', false, true);
      case Backtick => LitLast(w[1..], '`', false, false);
      case Bracket =>
        FindOne(w[1..], ']');
      case _ =>
    }
  }

  /** What is kept before a cut ends in a significant character. */
  lemma {:induction false} KeptEnds(x: Rules, g: bool, w: string)
    ensures var k := |Join(DropNoise(Lex(x, g, w)))|; k <= |w| && (0 < k < |w| ==> !IsSpace(w[k - 1]))
    decreases |w|
  {
    hide Tok, Lex;
    JoinLex(x, g, w);
    DropNoiseIsPrefix(Lex(x, g, w));
    if w != [] {
      var t := Tok(x, g, w);
      LexStep(x, g, w);
      var g', u := Glues(w[t.len - 1]), w[t.len..];
      KeptEnds(x, g', u);
      if u == [] { LexEmpty(x, g'); } else { LexStep(x, g', u); }
      assert PieceOf(t, w).text == w[..t.len];
      if t.closed && t.kind != Plain && t.kind != LineComment && t.kind != BlockComment { LiteralEnds(x, g, w); }
    }
  }

  lemma TrimKeepsEdges(x: Rules, s: string)
    requires Edged(s)
    ensures Edged(Trim(x, s))
  {
    hide Lex, IsSpace;
    TrimIsPrefix(x, s);
    KeptEnds(x, false, s);
    if Trim(x, s) != "" { assert Trim(x, s)[0] == s[0]; }
  }

  lemma BodySettled(e: Engine, s: string)
    ensures Edged(Body(e, s)) && Trim(TrimRules(e), Body(e, s)) == Body(e, s)
  {
    TrimSpaceEdges(s);
    TrimKeepsEdges(TrimRules(e), TrimSpace(s));
    TrimIdempotent(TrimRules(e), TrimSpace(s));
  }

  lemma BodyOf(e: Engine, t: string)
    requires Edged(t) && Trim(TrimRules(e), t) == t
    ensures Body(e, t) == t
  {
    TrimSpaceEdges(t);
  }

  // ----- the edited statement is a body of its own -----

  /** What an edit leaves: nothing more to trim, and the statement's own limit at `max`. */
  ghost predicate Capped(p: Parser, e: Engine, t: string, max: nat) {
    && t != "" && Body(e, t) == t
    && (if e == Oracle then p.fetch(t) == Some(t) && CapFetch(p.tail(t), t, max) == Allowed(t, false, false)
        else StatementLimit(ScanRules(e), t) == Count(max) && Agrees(p, ScanRules(e), t))
  }

  lemma CappedStays(p: Parser, e: Engine, t: string, max: nat)
    requires Capped(p, e, t, max)
    ensures Guard(p, e, t, max) == Allowed(t, false, false)
  {
    hide StatementLimit, Body;
    if e != Oracle { AgreedReading(p, ScanRules(e), t); }
  }

  lemma AgreedReading(p: Parser, x: Rules, t: string)
    requires Agrees(p, x, t)
    ensures Inspect(p, x, t) == ReadingOf(StatementLimit(x, t))
  {
    hide StatementLimit;
  }

  lemma SplicedEdges(s: string, k: nat, n: nat, d: string)
    requires Edged(s) && 0 < k && 0 < n && k + n <= |s| && d != [] && AllDigits(d)
    ensures Edged(Splice(s, k, n, d)) && Splice(s, k, n, d) != ""
  {
    var v := Splice(s, k, n, d);
    assert v[0] == s[0];
    if k + n == |s| {
      assert v[|v| - 1] == d[|d| - 1];
      SpaceOrDigit(v[|v| - 1]);
    } else {
      assert v[|v| - 1] == s[|s| - 1];
    }
  }

  lemma SplicedBody(e: Engine, s: string, k: nat, n: nat, d: string)
    requires Edged(s) && Trim(TrimRules(e), s) == s && d != [] && AllDigits(d)
    requires 0 < k && 0 < n && k + n <= |s| && AllTame(s[k..k + n]) && !Glues(s[k - 1])
    ensures Splice(s, k, n, d) != "" && Body(e, Splice(s, k, n, d)) == Splice(s, k, n, d)
  {
    hide Trim, Edged, Splice;
    DigitsAreTame(d);
    SplicedEdges(s, k, n, d);
    EditStaysTrimmed(TrimRules(e), s, k, n, d);
    BodyOf(e, Splice(s, k, n, d));
  }

  lemma OwnEditCapped(p: Parser, e: Engine, s: string, max: nat)
    requires e != Oracle && Edged(s) && Trim(TrimRules(e), s) == s
    requires var x := ScanRules(e);
             && Own(Mask(x, s)).Some? && OwnAlone(Mask(x, s))
             && (var k := Own(Mask(x, s)).value.at; 0 < k <= |s| && !Glues(s[k - 1])) && Agrees(p, x, OwnEdit(x, s, max))
    ensures Capped(p, e, OwnEdit(ScanRules(e), s, max), max)
  {
    hide Lex, Render, Own, OwnAlone, StatementLimit, Trim, Edged, Body, Splice, Numeral, Glues;
    var x := ScanRules(e);
    OwnEditReads(x, s, max);
    OwnInText(x, s);
    var o := Own(Mask(x, s)).value;
    NumeralRoundTrip(max);
    OwnTame(Mask(x, s), s, o);
    SplicedBody(e, s, o.at, o.len, Numeral(max));
  }

  lemma OwnTame(m: string, s: string, o: Span)
    requires |m| == |s| && o.at + o.len <= |s| && Shown(m, o.at, o.len) && forall i :: o.at <= i < o.at + o.len ==> s[i] == m[i]
    ensures 0 < o.len && AllTame(s[o.at..o.at + o.len])
  {}

  // ----- appending -----

  lemma {:induction false} QuietEnds(x: Rules, g: bool, t: string)
    requires Quiet(t) && t != [] && IsWord(t[|t| - 1])
    ensures !EndsInNoise(Lex(x, g, t))
    decreases |t|
  {
    hide Lex, EndsInNoise, Tok;
    assert Tok(x, g, t) == Token(Plain, 1, true) by { QuietToken(x, g, t); }
    NoiseStep(x, g, t);
    if |t| > 1 { QuietEnds(x, Glues(t[0]), t[1..]); } else { WordNotNoise(t[0]); }
  }

  lemma WordNotNoise(c: char)
    requires IsWord(c)
    ensures !Noise(Piece(Plain, [c], true))
  {}

  /** Behind an appended clause there is no trailing noise unless there was an open comment before it. */
  lemma {:induction false} AppendEnds(x: Rules, g: bool, w: string, t: string)
    requires Clause(t) && IsWord(t[|t| - 1]) && !EndsInNoise(Lex(x, g, w))
    ensures !EndsInNoise(Lex(x, g, w + t))
    decreases |w|
  {
    hide Lex, EndsInNoise, Tok;
    if w == [] {
      assert w + t == t;
      QuietEnds(x, g, t);
    } else {
      var k := Tok(x, g, w);
      NoiseStep(x, g, w);
      NoiseStep(x, g, w + t);
      if k.closed {
        TokIgnores(x, g, w, t);
        var u := w[k.len..];
        assert (w + t)[k.len..] == u + t && (w + t)[k.len - 1] == w[k.len - 1];
        if u == [] {
          assert u + t == t;
          QuietEnds(x, Glues(w[k.len - 1]), t);
        } else {
          AppendEnds(x, Glues(w[k.len - 1]), u, t);
        }
      } else {
        TokSwallows(x, g, w, t);
      }
    }
  }

  lemma CapEnds(n: nat)
    ensures Clause(CapClause(n)) && IsWord(CapClause(n)[|CapClause(n)| - 1]) && !IsSpace(CapClause(n)[|CapClause(n)| - 1])
  {
    CapIsClause(n);
    NumeralRoundTrip(n);
    var d := Numeral(n);
    assert CapClause(n)[|CapClause(n)| - 1] == d[|d| - 1];
    SpaceOrDigit(d[|d| - 1]);
  }

  /** Nothing is trimmed off an appended cap. */
  lemma AppendedBody(e: Engine, s: string, max: nat)
    requires s != "" && Edged(s) && Trim(TrimRules(e), s) == s
    ensures s + CapClause(max) != "" && Body(e, s + CapClause(max)) == s + CapClause(max)
  {
    hide Lex, Trim, EndsInNoise, CapClause, Body, Clause, IsSpace;
    var t, y := s + CapClause(max), TrimRules(e);
    CapEnds(max);
    TrimmedIff(y, s);
    AppendEnds(y, false, s, CapClause(max));
    TrimmedIff(y, t);
    AppendEdges(s, CapClause(max));
    BodyOf(e, t);
  }

  lemma AppendCapped(p: Parser, e: Engine, s: string, max: nat)
    requires e != Oracle && s != "" && Edged(s) && Trim(TrimRules(e), s) == s && Bindable(ScanRules(e), s)
    requires Agrees(p, ScanRules(e), s + CapClause(max))
    ensures Capped(p, e, s + CapClause(max), max)
  {
    hide Trim, Bindable, StatementLimit, CapClause, Body, Edged;
    BindsIff(ScanRules(e), s, max);
    AppendedBody(e, s, max);
  }

  lemma AppendEdges(s: string, c: string)
    requires s != "" && Edged(s) && c != "" && !IsSpace(c[|c| - 1])
    ensures Edged(s + c) && s + c != ""
  {}

  // ----- guarding twice -----

  /** A limit the guard wrote is the statement's own exactly when the parser agrees and the edit hits. */
  lemma HitsIff(p: Parser, e: Engine, body: string, max: nat)
    requires e != Oracle && Limited(CapLimit(p, e, body, max))
    ensures WithLimit(p, e, body, max) == Some(CapLimit(p, e, body, max).sql) <==>
              Agrees(p, ScanRules(e), body) && HitsLimit(p, e, body, max)
  {
    var x := ScanRules(e);
    hide Lex, Render, Own, StatementLimit, Bindable, OwnAlone, Lowered, LastMatch, FirstAll, CapClause, RewriteFirst, RewriteAt,
         Splice, Numeral;
    if Agrees(p, x, body) {
      match StatementLimit(x, body)
      case NoLimit =>
      case Count(n) =>
        OwnWhole(x, body);
        LowerHitsIff(x, body, max);
      case All(at) =>
        OwnReadable(x, body);
        RewriteHitsIff(x, body, max);
        if p.branches(body) {
          OwnAllInText(x, body);
          OwnInText(x, body);
          AnchoredHits(x, body, at, max);
        }
      case NonLiteral =>
    }
  }

  /** What the parser is asked to read once the guard has set the statement's own limit. */
  lemma EditIsRead(p: Parser, e: Engine, body: string, max: nat)
    requires e != Oracle && LimitLaw(p, e) && Limited(CapLimit(p, e, body, max))
    requires Agrees(p, ScanRules(e), body) && HitsLimit(p, e, body, max)
    ensures var v := CapLimit(p, e, body, max);
            WithLimit(p, e, body, max) == Some(v.sql) && Agrees(p, ScanRules(e), v.sql)
  {
    hide Agrees, HitsLimit, CapLimit, WithLimit;
    HitsIff(p, e, body, max);
  }

  /** Whatever the guard edits, if it edits the statement's own clause, is capped for good. */
  lemma EditIsCapped(p: Parser, e: Engine, body: string, max: nat)
    requires e != Oracle && body != "" && Edged(body) && Trim(TrimRules(e), body) == body && LimitLaw(p, e)
    requires Agrees(p, ScanRules(e), body) && HitsLimit(p, e, body, max) && Apart(ScanRules(e), body)
    requires Limited(CapLimit(p, e, body, max))
    ensures var v := CapLimit(p, e, body, max);
            Capped(p, e, v.sql, max) && WithLimit(p, e, body, max) == Some(v.sql)
  {
    var x := ScanRules(e);
    EditIsRead(p, e, body, max);
    AgreedReading(p, x, body);
    hide Lex, Render, Mask, Own, StatementLimit, Trim, Edged, Body, Bindable, OwnAlone, Lowered, LowersOwn, CapClause, RewriteAll,
         RewritesOwn, Capped, LimitLaw, WithLimit, Apart, Agrees, Inspect;
    match StatementLimit(x, body)
    case NoLimit => AppendCapped(p, e, body, max);
    case Count(n) => LowerCapped(p, e, body, max);
    case All(at) => RewriteCapped(p, e, body, max);
    case NonLiteral =>
  }

  lemma RewriteCapped(p: Parser, e: Engine, body: string, max: nat)
    requires e != Oracle && Edged(body) && Trim(TrimRules(e), body) == body
    requires var x := ScanRules(e);
             && StatementLimit(x, body).All? && OwnAlone(Mask(x, body)) && (p.branches(body) || RewritesOwn(x, body))
             && RewriteAll(p, x, body, max).Some? && Agrees(p, x, RewriteAll(p, x, body, max).value)
    ensures Capped(p, e, RewriteAll(p, ScanRules(e), body, max).value, max)
  {
    hide Lex, Render, Own, StatementLimit, Trim, Edged, OwnAlone, RewriteAll, RewritesOwn, Capped, Glues, Agrees;
    var x := ScanRules(e);
    OwnReadable(x, body);
    AllHit(p, x, body, max);
    OwnEditCapped(p, e, body, max);
  }

  lemma LowerCapped(p: Parser, e: Engine, body: string, max: nat)
    requires e != Oracle && Edged(body) && Trim(TrimRules(e), body) == body && Apart(ScanRules(e), body)
    requires var x := ScanRules(e);
             && StatementLimit(x, body).Count? && StatementLimit(x, body).value > max && LowersOwn(x, body)
             && Lowered(x, body, max).Some? && Agrees(p, x, Lowered(x, body, max).value)
    ensures Capped(p, e, Lowered(ScanRules(e), body, max).value, max)
  {
    hide Lex, Render, Own, StatementLimit, Trim, Edged, OwnAlone, Lowered, LastMatch, Capped, Glues, Splice, Numeral;
    var x := ScanRules(e);
    OwnWhole(x, body);
    OwnUnglued(x, body);
    LowerHitsIff(x, body, max);
    OwnEditCapped(p, e, body, max);
  }

  lemma AllHit(p: Parser, x: Rules, body: string, max: nat)
    requires StatementLimit(x, body).All? && Own(Mask(x, body)).Some?
    requires (p.branches(body) || RewritesOwn(x, body)) && RewriteAll(p, x, body, max).Some?
    ensures RewriteAll(p, x, body, max) == Some(OwnEdit(x, body, max))
    ensures var k := Own(Mask(x, body)).value.at; 0 < k <= |body| && !Glues(body[k - 1])
  {
    hide Lex, Render, Own, StatementLimit, FirstAll, Splice, RawAll, Numeral, Glues, IsSpace, RewriteAt, RewriteFirst;
    OwnAllInText(x, body);
    OwnInText(x, body);
    var at := StatementLimit(x, body).at;
    if p.branches(body) {
      AnchoredHits(x, body, at, max);
      RewriteNeedsMatch(body, at, max);
      AnchoredBehindSpace(x, body, at);
    } else {
      RewriteHitsIff(x, body, max);
      FirstAllBehindSpace(false, body);
    }
    SpaceNotWord(body[Own(Mask(x, body)).value.at - 1]);
  }

  lemma RewriteNeedsMatch(s: string, at: nat, max: nat)
    requires at <= |s| && RewriteAt(s, at, max).Some?
    ensures RawAll(false, s[at..]).Some?
  {}

  lemma AnchoredBehindSpace(x: Rules, s: string, at: nat)
    requires StatementLimit(x, s) == All(at) && at <= |s| && RawAll(false, s[at..]).Some?
    ensures Own(Mask(x, s)).Some?
    ensures var k := Own(Mask(x, s)).value.at; 0 < k <= |s| && IsSpace(s[k - 1])
  {
    hide Lex, Render, Own, StatementLimit, Visible;
    OwnAllInText(x, s);
    LocatedVisible(x, s);
    var w := s[at..];
    var a := RawAll(false, w).value;
    RawSpaces(x, s, at, a);
    assert s[at + a - 1] == w[a - 1] == w[5..][a - 6];
  }

  /** Oracle's FETCH count, lowered, is low enough. */
  lemma FetchIsCapped(p: Parser, body: string, max: nat)
    requires TailLaw(p) && FetchLaw(p) && Settled(Oracle, body) && p.fetch(body) == Some(body)
    requires Limited(CapFetch(p.tail(body), body, max))
    ensures var v := CapFetch(p.tail(body), body, max);
            Capped(p, Oracle, v.sql, max) && WithLimit(p, Oracle, body, max) == Some(v.sql)
  {
    hide Trim, Edged, Body, Numeral, NumberOf;
    var o, d := p.tail(body).value, Numeral(max);
    NumeralRoundTrip(max);
    DigitsTame(body, o);
    SpaceNotWord(body[o.at - 1]);
    SplicedBody(Oracle, body, o.at, o.len, d);
    SpliceHolds(body, o.at, o.len, d);
  }

  /** On Oracle it is the translated statement that is capped. */
  lemma TranslatedSettled(p: Parser, body: string)
    requires FetchLaw(p) && Settled(Oracle, body) && p.fetch(body).Some?
    ensures var inner := p.fetch(body).value; Settled(Oracle, inner) && p.fetch(inner) == Some(inner) && Body(Oracle, inner) == inner
  {
    hide Trim, Edged;
    BodyOf(Oracle, p.fetch(body).value);
  }

  lemma DigitsTame(t: string, o: Span)
    requires TailFits(o, t)
    ensures AllTame(t[o.at..o.at + o.len])
  {}

  /**
   * Guarding a guarded statement changes nothing and reports no limit of its own, whenever the first
   * guarding edited the statement's own clause.
   */
  lemma GuardTwice(p: Parser, e: Engine, s: string, max: nat)
    requires Guard(p, e, s, max).Allowed? && Hits(p, e, Body(e, s), max) && Lawful(p, e)
    ensures var v := Guard(p, e, s, max); Guard(p, e, v.sql, max) == Allowed(v.sql, false, false)
  {
    hide Body, HitsLimit, CapLimit, CapFetch, Capped, TailLaw, FetchLaw, LimitLaw, Trim, Edged, Agrees;
    var body, v := Body(e, s), Guard(p, e, s, max);
    BodySettled(e, s);
    BodyOf(e, body);
    if e == Oracle { TranslatedSettled(p, body); }
    if Limited(v) {
      if e == Oracle { FetchIsCapped(p, p.fetch(body).value, max); } else { EditIsCapped(p, e, body, max); }
      CappedStays(p, e, v.sql, max);
    } else {
      UnlimitedIsInner(p, e, body, max);
    }
  }

  lemma UnlimitedIsInner(p: Parser, e: Engine, body: string, max: nat)
    requires Cap(p, e, body, max).Allowed? && !Limited(Cap(p, e, body, max))
    ensures Translated(p, e, body).Some?
    ensures Cap(p, e, body, max) == Allowed(if p.explain(body) then body else Translated(p, e, body).value, false, false)
  {
    hide StatementLimit, Lowered, RewriteFirst, RewriteAt, Splice, NumberOf;
  }

  // ----- rows -----

  function Take<Row>(s: seq<Row>, n: nat): seq<Row> { if n < |s| then s[..n] else s }

  /** A database in which a statement's own limit takes a prefix of its rows, a translated one the same. */
  ghost predicate LimitIsPrefix<Row(!new)>(p: Parser, e: Engine, db: string -> seq<Row>) {
    && (forall t, n :: WithLimit(p, e, t, n).Some? ==> db(WithLimit(p, e, t, n).value) == Take(db(t), n))
    && (forall t :: Translated(p, e, t).Some? ==> db(Translated(p, e, t).value) == db(t))
  }

  /** A guarded statement returns the rows of the statement, or the first `max` where it was capped. */
  lemma GuardedRows<Row(!new)>(p: Parser, e: Engine, db: string -> seq<Row>, s: string, max: nat)
    requires Guard(p, e, s, max).Allowed? && Hits(p, e, Body(e, s), max) && Lawful(p, e)
    requires LimitIsPrefix(p, e, db)
    ensures var v, rows := Guard(p, e, s, max), db(Body(e, s)); db(v.sql) == if Limited(v) then Take(rows, max) else rows
  {
    hide Body, HitsLimit, CapLimit, CapFetch, Capped, TailLaw, FetchLaw, LimitLaw, Trim, Edged, WithLimit, Agrees;
    var body, v := Body(e, s), Guard(p, e, s, max);
    BodySettled(e, s);
    if Limited(v) {
      if e == Oracle {
        TranslatedSettled(p, body);
        FetchIsCapped(p, p.fetch(body).value, max);
        assert Translated(p, e, body) == p.fetch(body);
      } else {
        EditIsCapped(p, e, body, max);
      }
    } else {
      UnlimitedIsInner(p, e, body, max);
    }
  }
}
