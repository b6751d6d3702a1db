/**
 * What comes out of the guard's row cap: which statements it blocks, and what the limit of every
 * other one reads as afterwards.
 */
module GuardOutcome {
  import opened Text
  import opened Scanner
  import opened LimitText
  import opened LimitLaws
  import opened LimitRewrite
  import opened GuardLimit

  // ----- raw matches -----

  /** `limit`, white space and the whole word `all`, from `i` on; `all` stands at `a`. */
  ghost predicate AnchoredMatch(s: string, i: nat, a: nat) {
    && i + 5 < a && a + 3 <= |s| && IsLimit(s[i..]) && (forall k :: i + 5 <= k < a ==> IsSpace(s[k]))
    && AllAt(s, a) && (a + 3 == |s| || !IsWord(s[a + 3]))
  }

  /** The same, `limit` being a whole word too. */
  ghost predicate RawMatch(s: string, i: nat, a: nat) { AnchoredMatch(s, i, a) && (i == 0 || !IsWord(s[i - 1])) }

  lemma RawAllIff(w: string, a: nat)
    ensures RawAll(false, w) == Some(a) <==> AnchoredMatch(w, 0, a)
  {
    hide SpaceLen;
    assert w[0..] == w;
    if RawAll(false, w) == Some(a) {
      forall k | 5 <= k < a ensures IsSpace(w[k]) { assert w[k] == w[5..][k - 5]; }
    }
    if AnchoredMatch(w, 0, a) {
      var u := w[5..];
      forall k | 0 <= k < a - 5 ensures IsSpace(u[k]) { assert u[k] == w[k + 5]; }
      LetterTame(w[a]);
      TameNotSpace(w[a]);
      assert u[a - 5] == w[a];
      SpaceLenIs(u, a - 5);
    }
  }

  lemma AnchoredShift(s: string, i: nat, a: nat)
    requires i <= |s|
    ensures AnchoredMatch(s[i..], 0, a) <==> AnchoredMatch(s, i, i + a)
  {
    var w := s[i..];
    assert w[0..] == w;
    assert forall k :: 0 <= k < |w| ==> w[k] == s[i + k];
    if AnchoredMatch(w, 0, a) {
      forall k | i + 5 <= k < i + a ensures IsSpace(s[k]) { assert s[k] == w[k - i]; }
    }
  }

  lemma {:induction false} FirstAllNone(g: bool, w: string)
    ensures FirstAll(g, w).None? <==>
              forall i :: 0 <= i < |w| ==> RawAll(if i == 0 then g else IsWord(w[i - 1]), w[i..]).None?
    decreases |w|
  {
    hide RawAll;
    if w != [] {
      var u := w[1..];
      FirstAllNone(IsWord(w[0]), u);
      assert w[0..] == w;
      forall i | 0 < i < |w|
        ensures RawAll(IsWord(w[i - 1]), w[i..]) == RawAll(if i == 1 then IsWord(w[0]) else IsWord(u[i - 2]), u[i - 1..])
      {
        assert w[i..] == u[i - 1..];
      }
      if FirstAll(g, w).None? {
        forall i | 0 <= i < |w| ensures RawAll(if i == 0 then g else IsWord(w[i - 1]), w[i..]).None? {
          if i > 0 { assert RawAll(if i - 1 == 0 then IsWord(w[0]) else IsWord(u[i - 2]), u[i - 1..]).None?; }
        }
      } else if RawAll(g, w).None? {
        var j :| 0 <= j < |u| && RawAll(if j == 0 then IsWord(w[0]) else IsWord(u[j - 1]), u[j..]).Some?;
        assert w[j + 1..] == u[j..];
        assert RawAll(if j + 1 == 0 then g else IsWord(w[j]), w[j + 1..]).Some?;
      }
    }
  }

  /** The unanchored replace leaves the text alone exactly when there is no match in it. */
  predicate RawHere(s: string, i: nat)
    requires i < |s|
  {
    RawAll(if i == 0 then false else IsWord(s[i - 1]), s[i..]).Some?
  }

  lemma RawHereIff(s: string, i: nat)
    requires i < |s|
    ensures RawHere(s, i) <==> exists a: nat :: RawMatch(s, i, a)
  {
    hide RawAll, AnchoredMatch;
    if a: nat :| RawMatch(s, i, a) {
      MatchInside(s, i, a);
      RawAllIff(s[i..], a - i);
      AnchoredShift(s, i, a - i);
    }
    if RawHere(s, i) {
      GluedNone(s[i..]);
      var a := RawAll(false, s[i..]).value;
      RawAllIff(s[i..], a);
      AnchoredShift(s, i, a);
      assert RawMatch(s, i, i + a);
    }
  }

  lemma NoRawIff(s: string, max: nat)
    ensures RewriteFirst(s, max).None? <==> forall i: nat, a: nat :: !RawMatch(s, i, a)
  {
    FirstAllNone(false, s);
    hide RawAll, FirstAll, RawMatch;
    if forall i: nat, a: nat :: !RawMatch(s, i, a) {
      forall i: nat | i < |s| ensures RawAll(if i == 0 then false else IsWord(s[i - 1]), s[i..]).None? {
        RawHereIff(s, i);
        assert !RawHere(s, i);
      }
    }
    if i: nat, a: nat :| RawMatch(s, i, a) {
      RawInside(s, i, a);
      RawHereIff(s, i);
      assert RawHere(s, i);
      assert RawAll(if i == 0 then false else IsWord(s[i - 1]), s[i..]).Some?;
    }
  }

  lemma RawInside(s: string, i: nat, a: nat)
    requires RawMatch(s, i, a)
    ensures i < |s|
  {}

  lemma GluedNone(w: string)
    ensures RawAll(true, w).None?
  {}

  lemma MatchInside(s: string, i: nat, a: nat)
    requires AnchoredMatch(s, i, a)
    ensures i < a < |s|
  {}

  /** The anchored one leaves it alone exactly when there is none at that offset. */
  lemma NoAnchoredIff(s: string, at: nat, max: nat)
    requires at <= |s|
    ensures RewriteAt(s, at, max).None? <==> forall a: nat :: !AnchoredMatch(s, at, a)
  {
    hide RawAll, AnchoredMatch;
    if RawAll(false, s[at..]).Some? {
      var a := RawAll(false, s[at..]).value;
      RawAllIff(s[at..], a);
      AnchoredShift(s, at, a);
    }
    if a: nat :| AnchoredMatch(s, at, a) {
      MatchInside(s, at, a);
      AnchoredShift(s, at, a - at);
      RawAllIff(s[at..], a - at);
    }
  }

  // ----- what is blocked -----

  /** The limit is neither absent, nor a plain number, nor ALL. */
  predicate Unread(p: Parser, x: Rules, body: string) {
    if p.branches(body) then StatementLimit(x, body).NonLiteral? else p.limit(body) == Unreadable
  }

  /** The limit is ALL, and there is no `limit all` to put a number into. */
  ghost predicate Uncappable(p: Parser, x: Rules, body: string) {
    if p.branches(body)
    then StatementLimit(x, body).All? && forall a: nat :: !AnchoredMatch(body, StatementLimit(x, body).at, a)
    else p.limit(body) == Unbounded && forall i: nat, a: nat :: !RawMatch(body, i, a)
  }

  /**
   * The row cap blocks a statement exactly when nothing is left of it, when Oracle's translation is
   * refused, or, outside an EXPLAIN, when its limit cannot be read or cannot be capped.
   */
  lemma BlockedIff(p: Parser, e: Engine, s: string, max: nat)
    ensures var body, x := Body(e, s), ScanRules(e);
            Guard(p, e, s, max).Blocked? <==>
              || body == ""
              || (e == Oracle && p.fetch(body).None?)
              || (e != Oracle && !p.explain(body) && (Unread(p, x, body) || Uncappable(p, x, body)))
  {
    hide Body, StatementLimit, RewriteFirst, RewriteAt, Lowered, RawMatch, AnchoredMatch, CapFetch;
    var body, x := Body(e, s), ScanRules(e);
    NoRawIff(body, max);
    var located := StatementLimit(x, body);
    if located.All? {
      LocatedInside(x, body);
      NoAnchoredIff(body, located.at, max);
    }
    FetchAllows(p.tail(body), body, max);
    if e == Oracle && p.fetch(body).Some? { FetchAllows(p.tail(p.fetch(body).value), p.fetch(body).value, max); }
  }

  lemma LocatedInside(x: Rules, body: string)
    requires StatementLimit(x, body).All?
    ensures StatementLimit(x, body).at <= |body|
  {
    hide Lex, Render, Own, StatementLimit, SpaceLen, LimitAll;
    OwnAllInText(x, body);
    OwnInText(x, body);
  }

  lemma FetchAllows(o: Option<Span>, body: string, max: nat)
    ensures CapFetch(o, body, max).Allowed?
  {}

  // ----- what the rest reads as -----

  /** What the guard makes of a statement whose limit reads as `c`, if its edit is of that limit. */
  ghost predicate CappedAs(x: Rules, c: LimitClause, body: string, v: Verdict, max: nat) {
    v.Allowed? &&
    match c
    case NoLimit => v == Allowed(body + "\nLIMIT " + Numeral(max), true, false) && StatementLimit(x, v.sql) == Count(max)
    case Count(n) =>
      if n <= max || Lowered(x, body, max).None? then v == Allowed(body, false, false)
      else !v.autoLimited && v.loweredLimit && StatementLimit(x, v.sql) == Count(max)
    case All(_) => !v.autoLimited && v.loweredLimit && StatementLimit(x, v.sql) == Count(max)
    case NonLiteral => false
  }

  /**
   * Whatever the guard allows outside an EXPLAIN reads as limited to at most the cap, unless it was
   * left as written because no visible count could be lowered; and the flags say which edit was made.
   */
  lemma CapLaw(p: Parser, e: Engine, s: string, max: nat)
    requires e != Oracle && Guard(p, e, s, max).Allowed? && !p.explain(Body(e, s))
    requires Agrees(p, ScanRules(e), Body(e, s)) && HitsLimit(p, e, Body(e, s), max)
    ensures var x, body, v := ScanRules(e), Body(e, s), Guard(p, e, s, max);
            && CappedAs(x, StatementLimit(x, body), body, v, max)
            && (|| (StatementLimit(x, v.sql).Count? && StatementLimit(x, v.sql).value <= max)
                || (v.sql == body && Lowered(x, body, max).None?))
  {
    hide Lex, Render, Body, Own, StatementLimit, Bindable, OwnAlone, Lowered, LastMatch, FirstAll, RewriteFirst, RewriteAt, Splice,
         Numeral;
    var x, body := ScanRules(e), Body(e, s);
    AgreedReading(p, x, body);
    match StatementLimit(x, body)
    case NoLimit =>
      BindsIff(x, body, max);
      assert body + CapClause(max) == body + "\nLIMIT " + Numeral(max);
    case Count(n) =>
      if n > max && Lowered(x, body, max).Some? {
        OwnWhole(x, body);
        LowerHitsIff(x, body, max);
        OwnEditReads(x, body, max);
      }
    case All(at) =>
      OwnReadable(x, body);
      AllHit(p, x, body, max);
      OwnEditReads(x, body, max);
    case NonLiteral =>
  }

  /** A FETCH count above the cap. */
  predicate Over(o: Option<Span>, t: string, max: nat) {
    o.Some? && TailFits(o.value, t) && NumberOf(t[o.value.at..o.value.at + o.value.len]) > max
  }

  /** On Oracle the FETCH count of whatever is allowed is at most the cap, and nothing else was changed. */
  lemma FetchCapLaw(p: Parser, s: string, max: nat)
    requires TailLaw(p) && Guard(p, Oracle, s, max).Allowed? && !p.explain(Body(Oracle, s))
    ensures var v, inner := Guard(p, Oracle, s, max), p.fetch(Body(Oracle, s)).value;
            && !Over(p.tail(v.sql), v.sql, max)
            && (if Over(p.tail(inner), inner, max)
                then v.sql == Splice(inner, p.tail(inner).value.at, p.tail(inner).value.len, Numeral(max))
                else v.sql == inner)
            && !v.autoLimited && (v.loweredLimit <==> v.sql != inner)
  {
    hide Body, NumberOf, Numeral;
    var inner := p.fetch(Body(Oracle, s)).value;
    NumeralRoundTrip(max);
    if Over(p.tail(inner), inner, max) {
      var o := p.tail(inner).value;
      SpliceHolds(inner, o.at, o.len, Numeral(max));
      CountTold(inner, o, max);
    }
  }

  /** A count above the cap is not spelled like the cap. */
  lemma CountTold(t: string, o: Span, max: nat)
    requires TailFits(o, t) && NumberOf(t[o.at..o.at + o.len]) > max
    ensures Splice(t, o.at, o.len, Numeral(max)) != t
  {
    hide NumberOf, Numeral;
    NumeralRoundTrip(max);
    SpliceHolds(t, o.at, o.len, Numeral(max));
  }
}
