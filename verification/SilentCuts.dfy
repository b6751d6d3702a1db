/**
 * When an answer's `run()` can lose rows unsaid, over every database that honours limits.  A missed
 * edit is always one: there is a database, keyed by the statement without its own count, in which
 * the edited statement returns nothing and the statement a row.
 */
module SilentCuts {
  import opened Text
  import opened Scanner
  import opened ScannerLaws
  import opened LimitText
  import opened LimitLaws
  import opened LimitRewrite
  import opened LimitMisses
  import opened GuardLimit
  import opened GuardAgain
  import opened RowCap

  // ----- a statement apart from its own count -----

  /** The statement with its own limit set to 0, where it can be set. */
  ghost function Core(p: Parser, e: Engine, t: string): string {
    var x := ScanRules(e);
    var edit := if !Agrees(p, x, t) then None
                else match StatementLimit(x, t)
                  case NoLimit => if Bindable(x, t) then Some(t + CapClause(0)) else None
                  case Count(_) => OwnEdited(x, t, 0)
                  case All(_) => if OwnAlone(Mask(x, t)) then OwnEdited(x, t, 0) else None
                  case NonLiteral => None;
    if edit.Some? then edit.value else t
  }

  lemma SpliceTwice(s: string, k: nat, n: nat, d: string, b: string)
    requires k + n <= |s|
    ensures k + |d| <= |Splice(s, k, n, d)| && Splice(Splice(s, k, n, d), k, |d|, b) == Splice(s, k, n, b)
  {}

  /** The own clause of an appended cap is the cap's count. */
  lemma CapOwn(x: Rules, t: string, n: nat)
    requires Bindable(x, t)
    ensures var u := t + CapClause(n);
            && StatementLimit(x, u) == Count(n) && Own(Mask(x, u)) == Some(Span(|t| + 7, |Numeral(n)|))
            && OwnEdit(x, u, 0) == t + CapClause(0)
  {
    hide Lex, Render, ScanLimit, StatementLimit, Numeral, MatchHere, LimitAll, Bindable;
    BindsIff(x, t, n);
    var u, d := t + CapClause(n), Numeral(n);
    var m, p := Mask(x, u), Mask(x, t);
    NumeralRoundTrip(n);
    MaskFaithful(x, false, t);
    CapTail(p, n);
    CapMatches(d);
    CapSpan("LIMIT " + d, d);
    OwnOf(m, |t| + 1, Span(6, |d|));
    CapSet(t, n);
  }

  lemma CapTail(p: string, n: nat)
    ensures (p + CapClause(n))[|p| + 1..] == "LIMIT " + Numeral(n)
  {
    hide Numeral;
  }

  lemma CapSet(t: string, n: nat)
    ensures var u := t + CapClause(n);
            |t| + 7 + |Numeral(n)| == |u| && Splice(u, |t| + 7, |Numeral(n)|, Numeral(0)) == t + CapClause(0)
  {
    hide Numeral;
    var u := t + CapClause(n);
    assert u[..|t| + 7] == t + "\nLIMIT ";
  }

  lemma CapSpan(w: string, d: string)
    requires MatchHere(false, w).Some? && MatchHere(false, w).value.at == 6 && MatchHere(false, w).value.len == |d|
    ensures SpanIn(w) == Some(Span(6, |d|))
  {
    hide MatchHere, LimitAll;
    MatchIsNotAll(w);
  }

  lemma OwnEditTwice(x: Rules, t: string, n: nat)
    requires Own(Mask(x, t)).Some? && OwnAlone(Mask(x, t))
    ensures var u := OwnEdit(x, t, n);
            StatementLimit(x, u) == Count(n) && Own(Mask(x, u)).Some? && OwnEdit(x, u, 0) == OwnEdit(x, t, 0)
  {
    hide Lex, Render, StatementLimit, Own, OwnAlone, Splice, Numeral;
    OwnEditReads(x, t, n);
    OwnInText(x, t);
    var o := Own(Mask(x, t)).value;
    SpliceTwice(t, o.at, o.len, Numeral(n), Numeral(0));
  }

  /** Setting a statement's own limit changes nothing else about it. */
  lemma CoreKept(p: Parser, e: Engine, t: string, n: nat)
    requires e != Oracle && LimitLaw(p, e) && WithLimit(p, e, t, n).Some?
    ensures var u := WithLimit(p, e, t, n).value;
            Agrees(p, ScanRules(e), u) && StatementLimit(ScanRules(e), u) == Count(n) && Core(p, e, u) == Core(p, e, t)
  {
    var x, u := ScanRules(e), WithLimit(p, e, t, n).value;
    assert Agrees(p, x, u);
    hide Lex, Render, StatementLimit, Own, OwnAlone, Bindable, CapClause, OwnEdit, LimitLaw;
    match StatementLimit(x, t)
    case NoLimit => CapOwn(x, t, n);
    case Count(_) =>
      OwnWhole(x, t);
      OwnEditTwice(x, t, n);
    case All(_) => OwnEditTwice(x, t, n);
    case NonLiteral =>
  }

  // ----- a database that honours limits -----

  ghost predicate LimitedToNone(p: Parser, e: Engine, t: string) {
    Agrees(p, ScanRules(e), t) && StatementLimit(ScanRules(e), t) == Count(0)
  }

  /** One row for the statements with this core, none for any other. */
  ghost function KeyedDb<Row>(p: Parser, e: Engine, key: string, row: Row): string -> seq<Row> {
    t => if Core(p, e, t) == key && !LimitedToNone(p, e, t) then [row] else []
  }

  lemma KeyedRow<Row>(p: Parser, e: Engine, key: string, row: Row, t: string)
    ensures KeyedDb(p, e, key, row)(t) == if Core(p, e, t) == key && !LimitedToNone(p, e, t) then [row] else []
  {
    hide Core, LimitedToNone;
  }

  lemma KeyedPrefix<Row>(p: Parser, e: Engine, key: string, row: Row, t: string, n: nat)
    requires e != Oracle && LimitLaw(p, e) && WithLimit(p, e, t, n).Some?
    ensures KeyedDb(p, e, key, row)(WithLimit(p, e, t, n).value) == Take(KeyedDb(p, e, key, row)(t), n)
  {
    hide Core, LimitLaw, WithLimit, KeyedDb, StatementLimit, Agrees;
    CoreKept(p, e, t, n);
    KeyedRow(p, e, key, row, t);
    KeyedRow(p, e, key, row, WithLimit(p, e, t, n).value);
    if LimitedToNone(p, e, t) { LimitNotRaised(p, e, t, n); }
  }

  lemma KeyedHonours<Row(!new)>(p: Parser, e: Engine, key: string, row: Row)
    requires e != Oracle && LimitLaw(p, e)
    ensures LimitIsPrefix(p, e, KeyedDb(p, e, key, row))
  {
    hide LimitLaw, WithLimit, KeyedDb, Take;
    forall t, n | WithLimit(p, e, t, n).Some?
      ensures KeyedDb(p, e, key, row)(WithLimit(p, e, t, n).value) == Take(KeyedDb(p, e, key, row)(t), n)
    {
      KeyedPrefix(p, e, key, row, t, n);
    }
    assert forall t :: Translated(p, e, t) == Some(t);
  }

  lemma LimitNotRaised(p: Parser, e: Engine, t: string, n: nat)
    requires e != Oracle && WithLimit(p, e, t, n).Some? && LimitedToNone(p, e, t)
    ensures n == 0
  {
    hide StatementLimit;
  }

  // ----- counting characters -----

  /** How often `c` occurs, upper case counted as lower case. */
  function Occurs(c: char, s: string): nat {
    if s == [] then 0 else (if LowChar(s[0]) == c then 1 else 0) + Occurs(c, s[1..])
  }

  lemma {:induction false} OccursConcat(c: char, a: string, b: string)
    ensures Occurs(c, a + b) == Occurs(c, a) + Occurs(c, b)
  {
    if a == [] {
      assert a + b == b;
    } else {
      assert (a + b)[1..] == a[1..] + b;
      OccursConcat(c, a[1..], b);
    }
  }

  lemma OccursSplice(c: char, s: string, k: nat, n: nat, d: string)
    requires k + n <= |s|
    ensures Occurs(c, Splice(s, k, n, d)) == Occurs(c, s) - Occurs(c, s[k..k + n]) + Occurs(c, d)
  {
    hide Occurs;
    OccursConcat(c, s[..k] + d, s[k + n..]);
    OccursConcat(c, s[..k], d);
    assert s == s[..k] + s[k..k + n] + s[k + n..];
    OccursConcat(c, s[..k] + s[k..k + n], s[k + n..]);
    OccursConcat(c, s[..k], s[k..k + n]);
  }

  lemma {:induction false} OccursNot(c: char, s: string)
    requires forall i :: 0 <= i < |s| ==> LowChar(s[i]) != c
    ensures Occurs(c, s) == 0
  {
    if s != [] { OccursNot(c, s[1..]); }
  }

  lemma DigitsLack(d: string)
    requires AllDigits(d)
    ensures Occurs('\n', d) == 0 && Occurs('l', d) == 0
  {
    OccursNot('\n', d);
    OccursNot('l', d);
  }

  lemma AllHolds(w: string)
    requires |w| == 3 && AllAt(w, 0)
    ensures Occurs('l', w) == 2
  {
    var u := w[1..];
    var z := u[1..];
    assert u[0] == w[1] && z[0] == w[2] && z[1..] == [];
    assert Occurs('l', z) == 1 && Occurs('l', u) == 2;
  }

  lemma CapHolds(n: nat)
    ensures Occurs('\n', CapClause(n)) == 1 && Occurs('l', CapClause(n)) == 1
  {
    var d := Numeral(n);
    NumeralRoundTrip(n);
    hide Numeral;
    OccursConcat('\n', "\nLIMIT ", d);
    OccursConcat('l', "\nLIMIT ", d);
    DigitsLack(d);
    var w := "\nLIMIT ";
    assert w == "\nL" + "IMIT ";
    OccursConcat('\n', "\nL", "IMIT ");
    OccursConcat('l', "\nL", "IMIT ");
    OccursNot('\n', "IMIT ");
    OccursNot('l', "IMIT ");
    assert "\nL"[1..] == "L" && "L"[1..] == "";
  }

  // ----- lowering another count -----

  /** Where a word ends up once the one at `k` is replaced. */
  function MovedTo(at: nat, k: nat, n: nat, d: string): int { if at < k then at else at - n + |d| }

  ghost predicate Disjoint(k: nat, n: nat, o: Span) { o.at + o.len <= k || k + n <= o.at }

  lemma CountOwn(m: string, at: nat)
    requires Located(m) == at && at <= |m| && MatchHere(false, m[at..]).Some?
    ensures var r := MatchHere(false, m[at..]).value; Own(m) == Some(Span(at + r.at, r.len))
  {
    hide MatchHere, LimitAll, Located;
    MatchIsNotAll(m[at..]);
  }

  /** Lowering a count that is not the statement's own moves the own one at most. */
  lemma OwnMoves(m: string, d: string)
    requires ReadsCount(m) && LastMatch(false, m).Some? && d != [] && AllDigits(d) && Own(m).Some?
    requires LastMatch(false, m).value.at != Own(m).value.at
    ensures var f, o := LastMatch(false, m).value, Own(m).value;
            && f.at + f.len <= |m| && Disjoint(f.at, f.len, o)
            && var to := MovedTo(o.at, f.at, f.len, d); to >= 0 && Own(Splice(m, f.at, f.len, d)) == Some(Span(to, o.len))
  {
    hide ScanLimit, MatchHere, LastMatch, Splice, LimitWord, CountIn, IsLimit, Own;
    var f, at := LastMatch(false, m).value, Located(m);
    LastMatchCount(false, m);
    LastIsHere(false, m);
    LastInner(m, f);
    LocatedIsLimit(m, |m|);
    LimitWordIs(m, at);
    CountOwn(m, at);
    var v := Splice(m, f.at, f.len, d);
    SplicedLength(m, f.at, f.len, d);
    ScanAfter(m, v, f.at, f.len, d, |m|);
    if at < f.start {
      LaterSurvives(m, at, f, d);
      CountsApart(m, at, f.start);
      CountBefore(m, at, f.start);
      CountOwn(v, at);
    } else if at > f.start {
      CountsApart(m, f.start, at);
      LetterBehind(m, f, at);
      SameTail(m, f.at, f.len, d, at);
      CountOwn(v, at - f.len + |d|);
    }
  }

  /** The count of a LIMIT ends before the next LIMIT. */
  lemma CountBefore(m: string, i: nat, j: nat)
    requires i < j < |m| && MatchHere(false, m[i..]).Some? && IsLimit(m[j..]) && i + MatchHere(false, m[i..]).value.at <= j
    ensures i + MatchHere(false, m[i..]).value.at + MatchHere(false, m[i..]).value.len <= j
  {
    hide MatchHere;
    var w, r := m[i..], MatchHere(false, m[i..]).value;
    assert m[j..][0] == m[j] == w[j - i];
    LetterStops(m[j]);
  }

  /** One of two words replaced. */
  lemma WordsTell(a: string, k: string, c: string, d: string)
    requires k != d
    ensures a + d + c != a + k + c
  {
    assert (a + d + c)[|a|..|a| + |d|] == d && (a + k + c)[|a|..|a| + |k|] == k;
  }

  lemma LaterWord(s: string, k: nat, n: nat, d: string, o: Span, z: string)
    requires o.at + o.len <= k && k + n <= |s|
    ensures var a, c := s[..o.at] + z + s[o.at + o.len..k], s[k + n..];
            Splice(Splice(s, k, n, d), o.at, o.len, z) == a + d + c && Splice(s, o.at, o.len, z) == a + s[k..k + n] + c
  {
    var v, i := Splice(s, k, n, d), o.at + o.len;
    assert v[..o.at] == s[..o.at];
    CutAt(s, i, k, n, d);
    Three(s[..o.at] + z, s[i..k], d, s[k + n..]);
    Three(s[..o.at] + z, s[i..k], s[k..k + n], s[k + n..]);
  }

  lemma CutAt(s: string, i: nat, k: nat, n: nat, d: string)
    requires i <= k && k + n <= |s|
    ensures Splice(s, k, n, d)[i..] == s[i..k] + d + s[k + n..] && s[i..] == s[i..k] + s[k..k + n] + s[k + n..]
  {}

  lemma Three(a: string, b: string, c: string, e: string)
    ensures a + (b + c + e) == (a + b) + c + e
  {}

  lemma EarlierWord(s: string, k: nat, n: nat, d: string, o: Span, z: string)
    requires k + n <= o.at && o.at + o.len <= |s|
    ensures var to, a, c := o.at - n + |d|, s[..k], s[k + n..o.at] + z + s[o.at + o.len..];
            && to + o.len <= |Splice(s, k, n, d)|
            && Splice(Splice(s, k, n, d), to, o.len, z) == a + d + c && Splice(s, o.at, o.len, z) == a + s[k..k + n] + c
  {
    var v, to, rest := Splice(s, k, n, d), o.at - n + |d|, s[o.at + o.len..];
    assert v[..to] == s[..k] + d + s[k + n..o.at];
    assert v[to + o.len..] == rest;
    assert s[..o.at] == s[..k] + s[k..k + n] + s[k + n..o.at];
    Late(s[..k] + d, s[k + n..o.at], z, rest);
    Late(s[..k] + s[k..k + n], s[k + n..o.at], z, rest);
  }

  lemma Late(a: string, b: string, c: string, e: string)
    ensures (a + b) + c + e == a + (b + c + e)
  {}

  /** Two disjoint edits commute, and the second one tells. */
  lemma SplicesTell(s: string, k: nat, n: nat, d: string, o: Span, z: string)
    requires k + n <= |s| && o.at + o.len <= |s| && Disjoint(k, n, o) && s[k..k + n] != d && o.len > 0 && n > 0
    ensures var v, to := Splice(s, k, n, d), MovedTo(o.at, k, n, d);
            to >= 0 && to + o.len <= |v| && Splice(v, to, o.len, z) != Splice(s, o.at, o.len, z)
  {
    SplicedLength(s, k, n, d);
    hide Splice;
    if o.at < k {
      LaterWord(s, k, n, d, o, z);
      WordsTell(s[..o.at] + z + s[o.at + o.len..k], s[k..k + n], s[k + n..], d);
    } else {
      EarlierWord(s, k, n, d, o, z);
      WordsTell(s[..k], s[k..k + n], s[k + n..o.at] + z + s[o.at + o.len..], d);
    }
  }

  /** Lowering a count that is not the statement's own changes the statement apart from its own count. */
  lemma LowerMissTells(x: Rules, s: string, max: nat)
    requires StatementLimit(x, s).Count? && Lowered(x, s, max).Some? && !LowersOwn(x, s)
    ensures var v := Lowered(x, s, max).value;
            Own(Mask(x, s)).Some? && Own(Mask(x, v)).Some? && OwnEdit(x, v, 0) != OwnEdit(x, s, 0)
  {
    hide Lex, Render, StatementLimit, Located, LastMatch, MatchHere, Lowered, Splice, Numeral, LimitAll, NumberOf, Own, Shown, Whole;
    var v, m, d := Lowered(x, s, max).value, Mask(x, s), Numeral(max);
    StatementReads(x, s);
    LoweredIsExact(x, s, max);
    LastExists(x, s, max);
    NumeralRoundTrip(max);
    OwnWhole(x, s);
    OwnInText(x, s);
    OwnMoves(m, d);
    var f, o := LastMatch(false, m).value, Own(m).value;
    OwnLong(m, o);
    SplicesTell(s, f.at, f.len, d, o, Numeral(0));
  }

  lemma OwnLong(m: string, o: Span)
    requires Shown(m, o.at, o.len)
    ensures o.len > 0
  {}

  // ----- counting what an edit leaves -----

  lemma TameLacksNewline(c: char)
    requires Tame(c)
    ensures LowChar(c) != '\n'
  {}

  lemma OwnEditCounts(x: Rules, t: string)
    requires Own(Mask(x, t)).Some?
    ensures Occurs('\n', OwnEdit(x, t, 0)) == Occurs('\n', t) && Occurs('l', OwnEdit(x, t, 0)) <= Occurs('l', t)
  {
    hide Lex, Render, Own, Splice, Occurs, Numeral;
    OwnInText(x, t);
    var o, d := Own(Mask(x, t)).value, Numeral(0);
    NumeralRoundTrip(0);
    DigitsLack(d);
    OccursSplice('\n', t, o.at, o.len, d);
    OccursSplice('l', t, o.at, o.len, d);
    var w := t[o.at..o.at + o.len];
    forall i | 0 <= i < |w| ensures LowChar(w[i]) != '\n' { TameLacksNewline(w[i]); }
    OccursNot('\n', w);
  }

  lemma CoreCounts(p: Parser, e: Engine, t: string)
    ensures Occurs('\n', Core(p, e, t)) >= Occurs('\n', t) && Occurs('l', Core(p, e, t)) <= Occurs('l', t) + 1
  {
    hide Lex, Render, Own, Occurs, Bindable, OwnAlone, StatementLimit, CapClause, OwnEdit, Agrees;
    var x := ScanRules(e);
    CapHolds(0);
    OccursConcat('\n', t, CapClause(0));
    OccursConcat('l', t, CapClause(0));
    if Own(Mask(x, t)).Some? { OwnEditCounts(x, t); }
  }

  /** An ALL set to a count loses two letters. */
  lemma AllSet(t: string, a: nat, d: string)
    requires AllAt(t, a) && AllDigits(d)
    ensures a + 3 <= |t| && Occurs('l', Splice(t, a, 3, d)) == Occurs('l', t) - 2
  {
    hide Occurs;
    OccursSplice('l', t, a, 3, d);
    DigitsLack(d);
    AllHolds(t[a..a + 3]);
  }

  lemma RewriteCounts(p: Parser, x: Rules, t: string, max: nat)
    requires RewriteAll(p, x, t, max).Some?
    ensures Occurs('l', RewriteAll(p, x, t, max).value) == Occurs('l', t) - 2
  {
    hide Occurs, Splice, StatementLimit, Numeral, RawAll, FirstAll;
    NumeralRoundTrip(max);
    var at := StatementLimit(x, t);
    if p.branches(t) && at.All? && at.at <= |t| {
      var w := t[at.at..];
      var a := RawAll(false, w).value;
      AllShift(t, at.at, a);
      AllSet(t, at.at + a, Numeral(max));
    } else {
      AllSet(t, FirstAll(false, t).value, Numeral(max));
    }
  }

  lemma AllShift(t: string, at: nat, a: nat)
    requires at <= |t| && AllAt(t[at..], a)
    ensures AllAt(t, at + a)
  {}

  lemma AllCore(p: Parser, e: Engine, t: string)
    requires Agrees(p, ScanRules(e), t) && StatementLimit(ScanRules(e), t).All? && OwnAlone(Mask(ScanRules(e), t))
    ensures Occurs('l', Core(p, e, t)) == Occurs('l', t) - 2
  {
    hide Lex, Render, Own, OwnAlone, StatementLimit, Occurs, Splice, Numeral, SpaceLen, LimitAll, Located;
    var x := ScanRules(e);
    OwnAllInText(x, t);
    NumeralRoundTrip(0);
    AllSet(t, Own(Mask(x, t)).value.at, Numeral(0));
  }

  // ----- a missed edit tells -----

  lemma AppendMissTells(p: Parser, e: Engine, body: string, t: string, u: string, max: nat)
    requires t == body + CapClause(max) && (u == t || u == t + CapClause(max))
    requires StatementLimit(ScanRules(e), body).NoLimit? && !Bindable(ScanRules(e), body)
    ensures Core(p, e, u) != Core(p, e, body)
  {
    hide Occurs, CapClause, StatementLimit, Bindable, Agrees;
    CapHolds(max);
    OccursConcat('\n', body, CapClause(max));
    OccursConcat('\n', t, CapClause(max));
    CoreCounts(p, e, u);
    assert Core(p, e, body) == body;
  }

  lemma LowerMissCore(p: Parser, e: Engine, body: string, max: nat)
    requires StatementLimit(ScanRules(e), body).Count? && Lowered(ScanRules(e), body, max).Some? && !LowersOwn(ScanRules(e), body)
    requires Agrees(p, ScanRules(e), body) && Agrees(p, ScanRules(e), Lowered(ScanRules(e), body, max).value)
    ensures Core(p, e, Lowered(ScanRules(e), body, max).value) != Core(p, e, body)
  {
    hide Lex, Render, Own, StatementLimit, Lowered, OwnEdit, LowersOwn;
    var x := ScanRules(e);
    LoweredStays(x, body, max);
    LowerMissTells(x, body, max);
  }

  lemma RewriteMissTells(p: Parser, e: Engine, body: string, max: nat)
    requires var x := ScanRules(e);
             && Agrees(p, x, body) && StatementLimit(x, body).All? && OwnAlone(Mask(x, body))
             && RewriteAll(p, x, body, max).Some? && RewriteAll(p, x, RewriteAll(p, x, body, max).value, max).Some?
    ensures var x := ScanRules(e); var v := RewriteAll(p, x, body, max).value;
            Core(p, e, RewriteAll(p, x, v, max).value) != Core(p, e, body)
  {
    hide Occurs, StatementLimit, OwnAlone, RewriteAll, Core, Agrees;
    var x := ScanRules(e);
    var v := RewriteAll(p, x, body, max).value;
    RewriteCounts(p, x, body, max);
    RewriteCounts(p, x, v, max);
    AllCore(p, e, body);
    CoreCounts(p, e, RewriteAll(p, x, v, max).value);
  }

  /** The parser agrees with the text before and after, and guarding makes no EXPLAIN of a statement. */
  ghost predicate Steady(p: Parser, e: Engine, s: string, max: nat) {
    var x, body, v := ScanRules(e), Body(e, s), Guard(p, e, s, max);
    && v.Allowed? && Clear(x, body) && Agrees(p, x, body) && Agrees(p, x, v.sql) && (p.explain(v.sql) ==> p.explain(body))
  }

  /** What runs after a missed edit is another statement, whatever its own limit. */
  lemma MissTells(p: Parser, e: Engine, s: string, max: nat)
    requires e != Oracle && Steady(p, e, s, max) && !Hits(p, e, Body(e, s), max)
    requires Guard(p, e, Guard(p, e, s, max).sql, max).Allowed?
    ensures Limited(Guard(p, e, s, max))
    ensures Core(p, e, Guard(p, e, Guard(p, e, s, max).sql, max).sql) != Core(p, e, Body(e, s))
  {
    hide Lex, Render, StatementLimit, Body, Trim, Edged, Lowered, RewriteAll, CapClause, EndsOpen, Depth, Core, Bindable, Agrees,
         OwnAlone, LowersOwn, RewritesOwn, Apart, LastMatch;
    var x, body := ScanRules(e), Body(e, s);
    var v := Guard(p, e, s, max).sql;
    BodySettled(e, s);
    AgreedReading(p, x, body);
    AgreedReading(p, x, v);
    match StatementLimit(x, body)
    case NoLimit =>
      AppendAgain(p, e, body, max);
      AppendedReads(x, body, max);
      AppendMissTells(p, e, body, v, Guard(p, e, v, max).sql, max);
    case Count(n) =>
      LowerAgain(p, e, body, max);
      LowerMissCore(p, e, body, max);
    case All(_) =>
      RewriteAgain(p, e, body, max);
      MissReads(p, x, body, max);
      RewriteMissTells(p, e, body, max);
    case NonLiteral =>
  }

  /** Behind an appended cap the text reads as the cap, or as unlimited as before. */
  lemma AppendedReads(x: Rules, body: string, max: nat)
    requires StatementLimit(x, body).NoLimit?
    ensures var c := StatementLimit(x, body + CapClause(max)); c == Count(max) || c.NoLimit?
  {
    hide Lex, Render, StatementLimit, Depth, EndsOpen, CapClause;
    CapIsClause(max);
    AppendShows(x, false, body, CapClause(max));
    if !EndsOpen(Lex(x, false, body)) && Depth(Mask(x, body)) == 0 {
      VisibleCapLocated(x, body, max);
    } else {
      UnboundCap(x, body, max);
    }
  }

  lemma MissReads(p: Parser, x: Rules, body: string, max: nat)
    requires StatementLimit(x, body).All? && !p.branches(body) && !RewritesOwn(x, body) && RewriteAll(p, x, body, max).Some?
    ensures StatementLimit(x, RewriteAll(p, x, body, max).value).All?
  {
    hide Lex, Render, StatementLimit, FirstAll, Own, Splice, Numeral;
    OwnReadable(x, body);
    MissStaysAll(x, body, max);
  }

  // ----- the exact condition -----

  function On<Row>(p: Parser, e: Engine, max: nat, db: string -> seq<Row>): Setting<Row> { Setting(p, e, max, db) }

  predicate Positive(cap: Number) { cap.Real? && cap.r > 0.0 }

  /** In every database that honours limits, `run()` of the answer says so when rows are missing. */
  ghost predicate NeverSilent<Row(!new)>(p: Parser, e: Engine, max: nat, s: string, asked: Option<Number>) {
    forall db: string -> seq<Row> :: LimitIsPrefix(p, e, db) ==>
      !SilentlyCut(On(p, e, max, db), s, RunAnswer(On(p, e, max, db), s, asked, true))
  }

  /** The database in which the statement, and whatever differs from it in its own limit only, returns a row. */
  ghost function MissDb<Row>(p: Parser, e: Engine, s: string, row: Row): string -> seq<Row> {
    KeyedDb(p, e, Core(p, e, Body(e, s)), row)
  }

  lemma MissRows<Row>(p: Parser, e: Engine, s: string, max: nat, row: Row)
    requires e != Oracle && Steady(p, e, s, max) && !Hits(p, e, Body(e, s), max)
    requires Guard(p, e, Guard(p, e, s, max).sql, max).Allowed?
    ensures MissDb(p, e, s, row)(Body(e, s)) == [row]
    ensures MissDb(p, e, s, row)(Guard(p, e, Guard(p, e, s, max).sql, max).sql) == []
  {
    hide Core, Steady, Hits, Guard, KeyedDb, LimitedToNone, Body;
    MissTells(p, e, s, max);
    MissNotNone(p, e, s, max);
    KeyedRow(p, e, Core(p, e, Body(e, s)), row, Body(e, s));
    KeyedRow(p, e, Core(p, e, Body(e, s)), row, Guard(p, e, Guard(p, e, s, max).sql, max).sql);
  }

  lemma MissNotNone(p: Parser, e: Engine, s: string, max: nat)
    requires e != Oracle && Steady(p, e, s, max) && !Hits(p, e, Body(e, s), max)
    ensures !LimitedToNone(p, e, Body(e, s))
  {
    hide StatementLimit, Body, Own, LastMatch, Bindable, OwnAlone, Lowered, FirstAll, LowersOwn, RewritesOwn;
  }

  lemma SteadyAllowed(p: Parser, e: Engine, s: string, max: nat)
    requires Steady(p, e, s, max)
    ensures Guard(p, e, s, max).Allowed?
  {
    hide Guard;
  }

  /** Nothing fetched, nothing said. */
  lemma NothingFetched<Row>(c: Setting<Row>, s: string, asked: Option<Number>)
    requires AskVerdict(c, s).Allowed? && AskVerdict(c, AskVerdict(c, s).sql).Allowed? && Positive(CappedMax(asked, c.max))
    requires c.db(AskVerdict(c, AskVerdict(c, s).sql).sql) == []
    ensures RunAnswer(c, s, asked, true) == Ran(Result([], false))
  {
    hide Guard;
  }

  /** A missed edit cuts silently in a database that honours limits. */
  lemma MissCuts<Row(!new)>(p: Parser, e: Engine, s: string, max: nat, asked: Option<Number>, row: Row)
    requires e != Oracle && LimitLaw(p, e) && Steady(p, e, s, max) && !Hits(p, e, Body(e, s), max)
    requires Guard(p, e, Guard(p, e, s, max).sql, max).Allowed? && Positive(CappedMax(asked, max))
    ensures var db := MissDb(p, e, s, row);
            LimitIsPrefix(p, e, db) && SilentlyCut(On(p, e, max, db), s, RunAnswer(On(p, e, max, db), s, asked, true))
  {
    hide Core, Steady, Hits, Guard, KeyedDb, Body, LimitLaw, LimitIsPrefix, RunAnswer;
    SteadyAllowed(p, e, s, max);
    NothingFetched(On(p, e, max, MissDb(p, e, s, row)), s, asked) by { MissRows(p, e, s, max, row); }
    KeyedHonours(p, e, Core(p, e, Body(e, s)), row);
    MissRows(p, e, s, max, row);
  }

  /** A cap of zero or less is always said to be reached. */
  lemma ZeroCapTells<Row>(c: Setting<Row>, s: string, asked: Option<Number>)
    requires c.engine != Oracle && Steady(c.parser, c.engine, s, c.max)
    requires !CappedMax(asked, c.max).NaN? && !Positive(CappedMax(asked, c.max)) && !Hits(c.parser, c.engine, Body(c.engine, s), c.max)
    ensures !SilentlyCut(c, s, RunAnswer(c, s, asked, true))
  {
    hide Hits, Body, Steady, Guard;
    SteadyAllowed(c.parser, c.engine, s, c.max);
    var v := Guard(c.parser, c.engine, s, c.max);
    if Guard(c.parser, c.engine, v.sql, c.max).Allowed? { MissTells(c.parser, c.engine, s, c.max); }
  }

  /**
   * For every cap that is a number, `run()` never loses rows unsaid, in any database that honours
   * limits, exactly when the guard edits the statement's own clause, or blocks its own result, or the
   * cap allows no row.
   */
  lemma NeverSilentIff<Row(!new)>(p: Parser, e: Engine, max: nat, s: string, asked: Option<Number>, row: Row)
    requires e != Oracle && LimitLaw(p, e) && Steady(p, e, s, max) && (asked.Some? ==> !asked.value.NaN?)
    ensures NeverSilent<Row>(p, e, max, s, asked) <==>
              || Hits(p, e, Body(e, s), max)
              || Guard(p, e, Guard(p, e, s, max).sql, max).Blocked?
              || !Positive(CappedMax(asked, max))
  {
    hide Hits, Body, Steady, Guard, LimitLaw, LimitIsPrefix, SilentlyCut, RunAnswer, MissDb;
    SteadyAllowed(p, e, s, max);
    if Hits(p, e, Body(e, s), max) || Guard(p, e, Guard(p, e, s, max).sql, max).Blocked? || !Positive(CappedMax(asked, max)) {
      forall db: string -> seq<Row> | LimitIsPrefix(p, e, db)
        ensures !SilentlyCut(On(p, e, max, db), s, RunAnswer(On(p, e, max, db), s, asked, true))
      {
        var c := On(p, e, max, db);
        if Hits(p, e, Body(e, s), max) { NeverSilentlyCut(c, s, asked); }
        else if Guard(p, e, Guard(p, e, s, max).sql, max).Blocked? { BlockedTells(c, s, asked); }
        else { ZeroCapTells(c, s, asked); }
      }
    } else {
      MissCuts(p, e, s, max, asked, row);
    }
  }

  lemma BlockedTells<Row>(c: Setting<Row>, s: string, asked: Option<Number>)
    requires AskVerdict(c, s).Allowed? && AskVerdict(c, AskVerdict(c, s).sql).Blocked?
    ensures !SilentlyCut(c, s, RunAnswer(c, s, asked, true))
  {
    hide Guard, Body;
  }

  // ----- a statement that loses rows -----

  lemma MildClear(x: Rules, q: string)
    requires AllMild(q + ALL_CLAUSE) && StatementLimit(x, q + ALL_CLAUSE) == All(|q|)
    ensures Clear(x, q + ALL_CLAUSE)
  {
    hide Lex, Render, StatementLimit, LimitAll, MatchHere, LastMatch, Own, Located, Alone;
    var s := q + ALL_CLAUSE;
    MildIsItsMask(x, false, s);
    StatementReads(x, s);
    ClauseAlone(q);
    MildNoDollar(s);
    hide AllMild;
  }

  lemma MildNoDollar(s: string)
    requires AllMild(s)
    ensures forall i :: 0 <= i < |s| ==> s[i] != '$'
  {}

  lemma ClauseAlone(q: string)
    ensures (q + ALL_CLAUSE)[|q|..] == ALL_CLAUSE && Alone(ALL_CLAUSE)
  {
    ClauseIsAll();
    hide LimitAll, SpaceLen;
    assert ALL_CLAUSE[9..] == "";
  }

  lemma NestedMisses(p: Parser, e: Engine, max: nat)
    requires e != Oracle && Plainly(p, e, Nested("ALL", "ALL"))
    ensures var s := Nested("ALL", "ALL"); Clear(ScanRules(e), s) && s != "" && !Hits(p, e, s, max)
  {
    hide StatementLimit, RewriteFirst, Own, OwnAlone, Numeral, Clear, Apart, Agrees, Nested;
    var s, x := Nested("ALL", "ALL"), ScanRules(e);
    NestedText("ALL");
    NestedMild();
    SubqueryIsRewritten(x, max);
    MildClear(x, SUBQUERY + ALL_CLAUSE + OUTER);
    RewriteHitsIff(x, s, max);
  }

  /**
   * `SELECT * FROM (SELECT * FROM t LIMIT ALL) s WHERE s.x = 1 LIMIT ALL`: the subquery is capped,
   * a second guarding caps the statement after all, and a database that honours limits loses a row
   * without a word.
   */
  lemma SubqueryCutsSilently<Row(!new)>(p: Parser, e: Engine, max: nat, row: Row)
    requires e != Oracle && LimitLaw(p, e) && max > 0
    requires Plainly(p, e, Nested("ALL", "ALL")) && Plainly(p, e, Nested(Numeral(max), "ALL"))
    ensures var s, d := Nested("ALL", "ALL"), Numeral(max);
            && Guard(p, e, s, max) == Allowed(Nested(d, "ALL"), false, true)
            && Guard(p, e, Nested(d, "ALL"), max) == Allowed(Nested(d, d), false, true)
            && var db := MissDb(p, e, s, row);
               LimitIsPrefix(p, e, db) && SilentlyCut(On(p, e, max, db), s, RunAnswer(On(p, e, max, db), s, None, true))
  {
    hide Guard, Body, Numeral, Nested, Hits, Clear, Agrees, LimitLaw, MissDb, SilentlyCut, RunAnswer, LimitIsPrefix;
    FirstGuarding(p, e, max);
    SecondGuarding(p, e, max);
    NestedMisses(p, e, max);
    MissCuts(p, e, Nested("ALL", "ALL"), max, None, row);
  }

  /** A parser that reads every limit off the text is lawful, so the statement above is about something. */
  function TextParser(e: Engine): Parser {
    Parser(t => false, t => false, t => ReadingOf(StatementLimit(ScanRules(e), t)), t => Some(t), t => None)
  }

  lemma TextParserCuts<Row(!new)>(e: Engine, max: nat, row: Row)
    requires e != Oracle && max > 0
    ensures !NeverSilent<Row>(TextParser(e), e, max, Nested("ALL", "ALL"), None)
  {
    hide StatementLimit, Nested, Numeral, Guard, SilentlyCut, RunAnswer, WithLimit, MissDb, LimitIsPrefix;
    SubqueryCutsSilently(TextParser(e), e, max, row);
  }
}
