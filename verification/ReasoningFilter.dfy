/**
 * The streaming filter that hides a reasoning model's narration, against a definition on the whole
 * reply.  Cutting the reply into chunks must not change what is shown; where it can, the condition
 * is exact.
 */
module ReasoningFilter {
  import opened Text

  // ----- tags -----

  predicate MatchAt(s: string, i: nat, tag: string) { i + |tag| <= |s| && Low(s[i..i + |tag|]) == tag }

  /** The length of the opening or closing tag at `i`, or 0. */
  function TagLen(s: string, i: nat, close: bool): (r: nat)
    ensures r > 0 ==> i + r <= |s|
  {
    if close then
      if MatchAt(s, i, "</think>") then 8 else if MatchAt(s, i, "</thinking>") then 11
      else if MatchAt(s, i, "</reasoning>") then 12 else 0
    else
      if MatchAt(s, i, "<think>") then 7 else if MatchAt(s, i, "<thinking>") then 10
      else if MatchAt(s, i, "<reasoning>") then 11 else 0
  }

  const LONGEST_TAG := 12

  /** The first tag from `from` on; |s| if there is none. */
  function FirstTag(s: string, from: nat, close: bool): (r: nat)
    requires from <= |s|
    ensures from <= r <= |s|
    ensures r < |s| ==> TagLen(s, r, close) > 0
    ensures forall i :: from <= i < r ==> TagLen(s, i, close) == 0
    decreases |s| - from
  {
    if from == |s| || TagLen(s, from, close) > 0 then from else FirstTag(s, from + 1, close)
  }

  /** The number of leading white-space characters. */
  function Indent(s: string): (w: nat)
    ensures w <= |s| && (w < |s| ==> !IsSpace(s[w]))
    ensures forall i :: 0 <= i < w ==> IsSpace(s[i])
  {
    if s == "" || !IsSpace(s[0]) then 0 else 1 + Indent(s[1..])
  }

  predicate Blank(s: string) { Indent(s) == |s| }

  /** The last '<' of `s`, or |s|. */
  function LastOpen(s: string): (r: nat)
    ensures r <= |s| && (r < |s| ==> s[r] == '<')
    ensures forall i :: r < i < |s| ==> s[i] != '<'
    ensures r == |s| ==> forall i :: 0 <= i < |s| ==> s[i] != '<'
  {
    if s == "" then 0
    else if s[|s| - 1] == '<' then |s| - 1
    else
      var r := LastOpen(s[..|s| - 1]);
      if r == |s| - 1 then |s| else r
  }

  // ----- the filter -----

  datatype Phase = Leading | Narrating | Passthrough

  datatype State = State(phase: Phase, carry: string)

  const START := State(Leading, "")

  /** What is held back while narrating: a closing tag may have begun. */
  function Held(buffer: string): string {
    var cut := LastOpen(buffer);
    if cut < |buffer| && |buffer| - cut <= LONGEST_TAG then buffer[cut..] else ""
  }

  function Narrate(buffer: string): (State, string) {
    var at := FirstTag(buffer, 0, true);
    if at == |buffer| then (State(Narrating, Held(buffer)), "")
    else (State(Passthrough, ""), buffer[at + TagLen(buffer, at, true)..])
  }

  /** The reply may still open with a tag. */
  predicate Undecided(buffer: string) {
    || Blank(buffer)
    || (FirstTag(buffer, 0, false) == |buffer| && buffer[Indent(buffer)] == '<' && |buffer| < LONGEST_TAG)
  }

  function Step(st: State, chunk: string): (State, string) {
    var buffer := st.carry + chunk;
    match st.phase
    case Passthrough => (State(Passthrough, ""), buffer)
    case Narrating => Narrate(buffer)
    case Leading =>
      var at := FirstTag(buffer, 0, false);
      if at < |buffer| && Blank(buffer[..at]) then Narrate(buffer[at + TagLen(buffer, at, false)..])
      else if Undecided(buffer) then (State(Leading, buffer), "")
      else (State(Passthrough, ""), buffer)
  }

  class Filter {
    var phase: Phase
    var carry: string

    ghost function View(): State
      reads this
    {
      State(phase, carry)
    }

    constructor ()
      ensures View() == START
    {
      phase, carry := Leading, "";
    }

    method Push(chunk: string) returns (shown: string)
      modifies this
      ensures (View(), shown) == Step(old(View()), chunk)
    {
      hide TagLen, FirstTag, Held, Undecided, Indent;
      var buffer := carry + chunk;
      carry := "";
      if phase == Leading {
        var open := FirstTag(buffer, 0, false);
        if open < |buffer| && Blank(buffer[..open]) {
          buffer := buffer[open + TagLen(buffer, open, false)..];
          phase := Narrating;
        } else if Undecided(buffer) {
          carry := buffer;
          return "";
        } else {
          phase := Passthrough;
        }
      }
      if phase == Narrating {
        var close := FirstTag(buffer, 0, true);
        if close == |buffer| {
          carry := Held(buffer);
          return "";
        }
        buffer := buffer[close + TagLen(buffer, close, true)..];
        phase := Passthrough;
      }
      return buffer;
    }
  }

  function Fed(st: State, chunks: seq<string>): string
    decreases |chunks|
  {
    if chunks == [] then ""
    else
      var (next, out) := Step(st, chunks[0]);
      out + Fed(next, chunks[1..])
  }

  function Concat(chunks: seq<string>): string {
    if chunks == [] then "" else chunks[0] + Concat(chunks[1..])
  }

  /** What one push of the whole reply shows. */
  function Shown(t: string): string { Step(START, t).1 }

  // ----- tags are local and hold one '<' -----

  lemma LowCharOpen(c: char)
    ensures LowChar(c) == '<' <==> c == '<'
  {
    if 'A' <= c <= 'Z' { assert LowChar(c) as int == c as int + 32; }
  }

  lemma TagText(s: string, i: nat, tag: string)
    requires MatchAt(s, i, tag) && tag != "" && tag[0] == '<' && forall k :: 1 <= k < |tag| ==> tag[k] != '<'
    ensures s[i] == '<' && forall k :: i < k < i + |tag| ==> s[k] != '<'
  {
    var t := Low(s[i..i + |tag|]);
    forall k | i <= k < i + |tag| ensures (s[k] == '<') == (k == i) {
      assert t[k - i] == LowChar(s[k]);
      LowCharOpen(s[k]);
    }
  }

  lemma TagShape(s: string, i: nat, close: bool)
    requires TagLen(s, i, close) > 0
    ensures var n := TagLen(s, i, close);
            && i + n <= |s| && n <= (if close then 12 else 11) && s[i] == '<'
            && forall k :: i < k < i + n ==> s[k] != '<'
  {
    hide MatchAt;
    var n := TagLen(s, i, close);
    TagText(s, i, if close then (if n == 8 then "</think>" else if n == 11 then "</thinking>" else "</reasoning>")
                  else (if n == 7 then "<think>" else if n == 10 then "<thinking>" else "<reasoning>"));
  }

  lemma MatchLocal(s: string, i: nat, t: string, j: nat, n: nat, tag: string)
    requires i + n <= |s| && j + n <= |t| && t[j..j + n] == s[i..i + n] && |tag| <= n
    ensures MatchAt(t, j, tag) == MatchAt(s, i, tag)
  {
    assert t[j..j + |tag|] == t[j..j + n][..|tag|];
    assert s[i..i + |tag|] == s[i..i + n][..|tag|];
  }

  /** Whether a complete tag stands at `i` depends on its own characters only. */
  lemma TagLocal(s: string, i: nat, t: string, j: nat, close: bool)
    requires TagLen(s, i, close) > 0 && j + TagLen(s, i, close) <= |t|
    requires t[j..j + TagLen(s, i, close)] == s[i..i + TagLen(s, i, close)]
    ensures TagLen(t, j, close) == TagLen(s, i, close)
  {
    var n := TagLen(s, i, close);
    hide MatchAt;
    if close {
      MatchLocal(s, i, t, j, n, "</think>");
      if n > 8 { MatchLocal(s, i, t, j, n, "</thinking>"); }
      if n > 11 { MatchLocal(s, i, t, j, n, "</reasoning>"); }
    } else {
      MatchLocal(s, i, t, j, n, "<think>");
      if n > 7 { MatchLocal(s, i, t, j, n, "<thinking>"); }
      if n > 10 { MatchLocal(s, i, t, j, n, "<reasoning>"); }
    }
  }

  /** A tag that is complete in a prefix is there in the whole, and the other way round. */
  lemma TagPrefix(x: string, y: string, i: nat, close: bool)
    ensures TagLen(x, i, close) > 0 ==> TagLen(x + y, i, close) == TagLen(x, i, close)
    ensures TagLen(x + y, i, close) > 0 && i + TagLen(x + y, i, close) <= |x| ==>
              TagLen(x, i, close) == TagLen(x + y, i, close)
  {
    hide TagLen;
    if TagLen(x, i, close) > 0 {
      var n := TagLen(x, i, close);
      assert (x + y)[i..i + n] == x[i..i + n];
      TagLocal(x, i, x + y, i, close);
    }
    var m := TagLen(x + y, i, close);
    if m > 0 && i + m <= |x| {
      assert (x + y)[i..i + m] == x[i..i + m];
      TagLocal(x + y, i, x, i, close);
    }
  }

  /** Dropping characters in front moves a tag, and does not make or break one. */
  lemma TagSuffix(s: string, d: nat, i: nat, close: bool)
    requires d <= |s|
    ensures TagLen(s[d..], i, close) == TagLen(s, d + i, close)
  {
    hide TagLen;
    var t := s[d..];
    var n, m := TagLen(t, i, close), TagLen(s, d + i, close);
    if n > 0 {
      assert s[d + i..d + i + n] == t[i..i + n];
      TagLocal(t, i, s, d + i, close);
    } else if m > 0 {
      assert s[d + i..d + i + m] == t[i..i + m];
      TagLocal(s, d + i, t, i, close);
    }
  }

  lemma FirstTagIs(s: string, i: nat, close: bool)
    requires i <= |s| && (i < |s| ==> TagLen(s, i, close) > 0) && forall k :: 0 <= k < i ==> TagLen(s, k, close) == 0
    ensures FirstTag(s, 0, close) == i
  {}

  // ----- while narrating -----

  /** A first tag stays the first when more text follows. */
  lemma FirstTagGrows(x: string, y: string, close: bool)
    requires FirstTag(x, 0, close) < |x|
    ensures var i := FirstTag(x, 0, close); FirstTag(x + y, 0, close) == i && TagLen(x + y, i, close) == TagLen(x, i, close)
  {
    hide TagLen;
    var i := FirstTag(x, 0, close);
    TagPrefix(x, y, i, close);
    TagShape(x, i, close);
    assert (x + y)[i] == '<';
    forall k | 0 <= k < i ensures TagLen(x + y, k, close) == 0 {
      TagPrefix(x, y, k, close);
      if TagLen(x + y, k, close) > 0 { TagShape(x + y, k, close); }
    }
    FirstTagIs(x + y, i, close);
  }

  /** A closing tag that is only complete with the next chunk starts inside what was held back. */
  lemma HeldCatches(b: string, c: string, k: nat)
    requires FirstTag(b, 0, true) == |b| && k < |b| && TagLen(b + c, k, true) > 0
    ensures Held(b) == b[k..]
  {
    hide TagLen;
    TagPrefix(b, c, k, true);
    TagShape(b + c, k, true);
    assert forall i :: 0 <= i < |b| ==> (b + c)[i] == b[i];
    var cut := LastOpen(b);
    assert cut == k;
  }

  lemma LastOpenIs(s: string, r: nat)
    requires r < |s| && s[r] == '<' && forall i :: r < i < |s| ==> s[i] != '<'
    ensures LastOpen(s) == r
  {}

  lemma HeldSuffix(b: string, c: string)
    ensures |Held(b)| <= |b| && Held(b) + c == (b + c)[|b| - |Held(b)|..]
  {
    hide LastOpen;
  }

  /** What is held back is all that later chunks can still need. */
  lemma HeldTwice(b: string, c: string)
    ensures Held(Held(b) + c) == Held(b + c)
  {
    hide LastOpen, Held;
    HeldSuffix(b, c);
    var t, d := b + c, |b| - |Held(b)|;
    if d <= LastOpen(t) < |t| { HeldShift(t, d); } else { OpenBeforeHeld(b, c); }
  }

  lemma HeldShift(t: string, d: nat)
    requires d <= LastOpen(t) < |t|
    ensures Held(t[d..]) == Held(t)
  {
    hide LastOpen;
    LastOpenShift(t, d);
    SliceTwice(t, d, LastOpen(t) - d);
  }

  lemma SliceTwice(t: string, d: nat, k: nat)
    requires d + k <= |t|
    ensures t[d..][k..] == t[d + k..]
  {}

  lemma LastOpenShift(t: string, d: nat)
    requires d <= LastOpen(t) < |t|
    ensures LastOpen(t[d..]) == LastOpen(t) - d
  {
    hide LastOpen;
    var r, u := LastOpen(t), t[d..];
    forall i | r - d < i < |u| ensures u[i] != '<' { assert u[i] == t[i + d]; }
    LastOpenIs(u, r - d);
  }

  lemma NothingHeld(s: string)
    requires forall i :: 0 <= i < |s| ==> s[i] != '<'
    ensures Held(s) == ""
  {
    hide LastOpen;
  }

  lemma OpenBeforeHeld(b: string, c: string)
    requires var r := LastOpen(b + c); r == |b + c| || r < |b| - |Held(b)|
    ensures Held(Held(b) + c) == "" && Held(b + c) == ""
  {
    hide LastOpen;
    HeldSuffix(b, c);
    var t, r, d := b + c, LastOpen(b + c), |b| - |Held(b)|;
    var u := t[d..];
    assert forall i :: 0 <= i < |u| ==> u[i] == t[d + i];
    NothingHeld(u);
    if r < |t| {
      assert forall i :: 0 <= i < |b| ==> b[i] == t[i];
      LastOpenIs(b, r);
    }
  }

  /** Every closing tag of `b + c` is in what is held back, or after. */
  lemma TagsNotBefore(b: string, c: string, i: nat)
    requires FirstTag(b, 0, true) == |b| && i < |b| - |Held(b)|
    ensures TagLen(b + c, i, true) == 0
  {
    hide TagLen, Held;
    if TagLen(b + c, i, true) > 0 { HeldCatches(b, c, i); }
  }

  lemma FirstTagSuffix(t: string, d: nat, close: bool)
    requires d <= |t| && forall i :: 0 <= i < d ==> TagLen(t, i, close) == 0
    ensures FirstTag(t[d..], 0, close) == FirstTag(t, 0, close) - d
  {
    hide TagLen;
    var u := t[d..];
    forall i: nat ensures TagLen(u, i, close) == TagLen(t, d + i, close) { TagSuffix(t, d, i, close); }
    var k := FirstTag(t, 0, close);
    assert k >= d;
    FirstTagIs(u, k - d, close);
  }

  /** Narrating on with what was held back is narrating from the start. */
  lemma NarrateConcat(b: string, c: string)
    requires FirstTag(b, 0, true) == |b|
    ensures Narrate(Held(b) + c) == Narrate(b + c)
  {
    HeldSuffix(b, c);
    HeldTwice(b, c);
    hide TagLen, Held, FirstTag;
    var t, d := b + c, |b| - |Held(b)|;
    forall i | 0 <= i < d ensures TagLen(t, i, true) == 0 { TagsNotBefore(b, c, i); }
    FirstTagSuffix(t, d, true);
    NarrateSuffix(t, d);
  }

  lemma NarrateSuffix(t: string, d: nat)
    requires d <= |t| && FirstTag(t[d..], 0, true) == FirstTag(t, 0, true) - d && Held(t[d..]) == Held(t)
    ensures Narrate(t[d..]) == Narrate(t)
  {
    hide TagLen, Held, FirstTag;
    var at, u := FirstTag(t, 0, true), t[d..];
    if at < |t| {
      TagSuffix(t, d, at - d, true);
      assert u[at - d + TagLen(t, at, true)..] == t[at + TagLen(t, at, true)..];
    }
  }

  // ----- how a reply opens -----

  /** The length of the tag that opens the reply, or 0. */
  function Opening(t: string): nat { TagLen(t, Indent(t), false) }

  function Body(t: string): string
    requires Opening(t) > 0
  {
    t[Indent(t) + Opening(t)..]
  }

  lemma IndentIs(s: string, w: nat)
    requires w <= |s| && (w < |s| ==> !IsSpace(s[w])) && forall i :: 0 <= i < w ==> IsSpace(s[i])
    ensures Indent(s) == w
  {}

  /** The filter's test for an opening tag, by position. */
  lemma OpeningIff(t: string)
    ensures var at := FirstTag(t, 0, false);
            (at < |t| && Blank(t[..at])) <==> Opening(t) > 0
    ensures Opening(t) > 0 ==> FirstTag(t, 0, false) == Indent(t) < |t|
  {
    hide TagLen;
    var at, w := FirstTag(t, 0, false), Indent(t);
    if Opening(t) > 0 {
      TagShape(t, w, false);
      forall k | 0 <= k < w ensures TagLen(t, k, false) == 0 {
        if TagLen(t, k, false) > 0 { TagShape(t, k, false); }
      }
      FirstTagIs(t, w, false);
      IndentIs(t[..w], w);
    }
    if at < |t| && Blank(t[..at]) { BlankBeforeTag(t, at); }
  }

  lemma BlankBeforeTag(t: string, at: nat)
    requires TagLen(t, at, false) > 0 && Blank(t[..at])
    ensures Indent(t) == at
  {
    TagShape(t, at, false);
    hide TagLen;
    assert forall i :: 0 <= i < at ==> t[i] == t[..at][i];
    IndentIs(t, at);
  }

  /** Without chunks: hide an opening narration, show nothing while undecided, else show the reply. */
  function Meaning(t: string): (State, string) {
    if Opening(t) > 0 then Narrate(Body(t))
    else if Undecided(t) then (State(Leading, t), "")
    else (State(Passthrough, ""), t)
  }

  lemma StepMeans(p: string, c: string)
    ensures Step(State(Leading, p), c) == Meaning(p + c)
  {
    OpeningIff(p + c);
    hide TagLen, Narrate, Undecided, FirstTag, Indent;
  }

  // ----- chunks -----

  /** The reply opens with a tag that is complete only past the hold-back. */
  predicate LateTag(t: string) { Opening(t) > 0 && Indent(t) + Opening(t) > LONGEST_TAG }

  lemma OpeningGrows(p: string, c: string)
    requires Opening(p) > 0
    ensures Indent(p + c) == Indent(p) && Opening(p + c) == Opening(p) && Body(p + c) == Body(p) + c
  {
    var w := Indent(p);
    TagShape(p, w, false);
    assert forall i :: 0 <= i < |p| ==> (p + c)[i] == p[i];
    IndentIs(p + c, w);
    TagPrefix(p, c, w, false);
  }

  lemma BodyFollows(b: string, c: string)
    ensures var (st, out) := Narrate(b);
            var (next, more) := Step(st, c);
            Narrate(b + c) == (next, out + more)
  {
    hide TagLen, Held, FirstTag;
    if FirstTag(b, 0, true) == |b| {
      NarrateConcat(b, c);
      var st := Narrate(b).0;
      assert st == State(Narrating, Held(b)) && Narrate(b).1 == "";
      hide Narrate;
      assert "" + Step(st, c).1 == Step(st, c).1;
    } else {
      FirstTagGrows(b, c, true);
      var n := FirstTag(b, 0, true) + TagLen(b, FirstTag(b, 0, true), true);
      assert (b + c)[n..] == b[n..] + c;
      assert "" + c == c;
    }
  }

  /** A reply that is shown as it comes stays so, unless a late tag completes. */
  lemma PlainFollows(p: string, c: string)
    requires Opening(p) == 0 && !Undecided(p) && !LateTag(p + c)
    ensures Opening(p + c) == 0 && !Undecided(p + c)
  {
    var t, w := p + c, Indent(p);
    assert forall i :: 0 <= i < |p| ==> t[i] == p[i];
    IndentIs(t, w);
    TagPrefix(p, c, w, false);
    var at := FirstTag(p, 0, false);
    if at < |p| {
      FirstTagGrows(p, c, false);
      TagShape(p, at, false);
    }
    if Opening(t) > 0 { TagShape(t, w, false); }
    hide TagLen, FirstTag;
    if at < |p| && Opening(t) > 0 { OpeningIff(t); }
  }

  /** The filter after the text `p`: its state and what it has shown in all. */
  lemma StepFollows(p: string, c: string)
    requires !LateTag(p + c)
    ensures var (st, out) := Meaning(p);
            var (next, more) := Step(st, c);
            Meaning(p + c) == (next, out + more)
  {
    if Opening(p) > 0 {
      OpeningGrows(p, c);
      hide TagLen, Step, Narrate;
      BodyFollows(Body(p), c);
    } else if Undecided(p) {
      StepMeans(p, c);
      assert Meaning(p) == (State(Leading, p), "");
      hide TagLen, Step, Meaning, Undecided;
      assert "" + Step(State(Leading, p), c).1 == Step(State(Leading, p), c).1;
    } else {
      PlainFollows(p, c);
      hide TagLen, FirstTag, Indent, Undecided;
      assert "" + c == c;
    }
  }

  lemma {:induction false} FedFollows(p: string, chunks: seq<string>)
    requires !LateTag(p + Concat(chunks))
    ensures Meaning(p).1 + Fed(Meaning(p).0, chunks) == Meaning(p + Concat(chunks)).1
    decreases |chunks|
  {
    hide Step, Meaning, LateTag;
    if chunks == [] {
      assert p + "" == p;
    } else {
      var q := p + chunks[0];
      assert p + Concat(chunks) == q + Concat(chunks[1..]);
      LateGrows(q, Concat(chunks[1..]));
      StepFollows(p, chunks[0]);
      FedFollows(q, chunks[1..]);
    }
  }

  lemma LateGrows(p: string, c: string)
    ensures LateTag(p) ==> LateTag(p + c)
  {
    if Opening(p) > 0 { OpeningGrows(p, c); }
  }

  lemma Empty()
    ensures Meaning("") == (START, "")
  {}

  /** Where the filter can go wrong: cut the reply inside the late tag and all of it is shown. */
  lemma LateSplit(t: string) returns (n: nat)
    requires LateTag(t)
    ensures n <= |t| && Fed(START, [t[..n], t[n..]]) == t && |Shown(t)| < |t|
  {
    hide TagLen, FirstTag, Indent, Narrate;
    n := CutBeforeTag(t);
    LateShown(t);
    var p := t[..n];
    assert p + t[n..] == t;
    TwoChunks(p, t[n..]);
  }

  /** The whole reply shows less than itself. */
  lemma LateShown(t: string)
    requires Opening(t) > 0
    ensures |Shown(t)| < |t|
  {
    hide TagLen, FirstTag, Indent, Narrate;
    StepMeans("", t);
    assert "" + t == t;
    NarrateShortens(Body(t));
  }

  /** Cut inside the tag and past the hold-back, the first chunk passes through. */
  lemma CutBeforeTag(t: string) returns (n: nat)
    requires LateTag(t)
    ensures n <= |t| && Step(START, t[..n]) == (State(Passthrough, ""), t[..n])
  {
    var w := Indent(t);
    n := if w < LONGEST_TAG then LONGEST_TAG else w + 1;
    TagShape(t, w, false);
    var p := t[..n];
    assert p + t[n..] == t;
    IndentIs(p, w);
    TagPrefix(p, t[n..], w, false);
    StepMeans("", p);
    assert "" + p == p;
    hide TagLen, FirstTag, Indent, Narrate;
  }

  lemma NarrateShortens(b: string)
    ensures |Narrate(b).1| <= |b|
  {}

  lemma TwoChunks(x: string, y: string)
    requires Step(START, x) == (State(Passthrough, ""), x)
    ensures Fed(START, [x, y]) == x + y
  {
    var chunks: seq<string> := [x, y];
    assert chunks[1..] == [y];
    assert Fed(State(Passthrough, ""), [y]) == y by {
      var one: seq<string> := [y];
      assert one[1..] == [];
      assert "" + y == y;
    }
  }

  ghost predicate ChunksDoNotMatter(t: string) {
    forall chunks :: Concat(chunks) == t ==> Fed(START, chunks) == Shown(t)
  }

  lemma ConcatTwo(x: string, y: string)
    ensures Concat([x, y]) == x + y
  {
    var two: seq<string>, one: seq<string> := [x, y], [y];
    assert two[1..] == one && one[1..] == [];
    assert Concat(one) == y + "" == y;
  }

  /** Cutting the reply into chunks never matters, exactly unless a late tag opens it. */
  lemma ChunksDoNotMatterIff(t: string)
    ensures ChunksDoNotMatter(t) <==> !LateTag(t)
  {
    hide LateTag, Step, Meaning, Fed, Concat;
    if LateTag(t) {
      var n := LateSplit(t);
      ConcatTwo(t[..n], t[n..]);
      assert t[..n] + t[n..] == t;
      assert Fed(START, [t[..n], t[n..]]) != Shown(t);
    } else {
      forall chunks | Concat(chunks) == t ensures Fed(START, chunks) == Shown(t) {
        Empty();
        assert "" + t == t;
        StepMeans("", t);
        FedFollows("", chunks);
        assert "" + Fed(START, chunks) == Fed(START, chunks);
      }
    }
  }

  /** At most one leading white-space character is always safe. */
  lemma OneSpaceIsSafe(t: string)
    requires Indent(t) <= 1
    ensures !LateTag(t)
  {
    if Opening(t) > 0 { TagShape(t, Indent(t), false); }
  }

  // ----- what is shown, spelled out -----

  predicate TagName(n: string) { n == "think" || n == "thinking" || n == "reasoning" }

  function Tag(n: string, close: bool): string { (if close then "</" else "<") + n + ">" }

  /** `s[i..j]` is an opening or closing tag, in any case. */
  ghost predicate TagIn(s: string, i: nat, j: nat, close: bool) {
    i <= j <= |s| && exists n :: TagName(n) && Low(s[i..j]) == Tag(n, close)
  }

  lemma TagInIff(s: string, i: nat, j: nat, close: bool)
    requires i <= |s|
    ensures TagIn(s, i, j, close) <==> TagLen(s, i, close) > 0 && j == i + TagLen(s, i, close)
  {
    if TagIn(s, i, j, close) { TagIsRead(s, i, j, close); }
    if TagLen(s, i, close) > 0 { ReadIsTag(s, i, close); }
  }

  lemma TagIsRead(s: string, i: nat, j: nat, close: bool)
    requires TagIn(s, i, j, close)
    ensures TagLen(s, i, close) > 0 && j == i + TagLen(s, i, close)
  {
    TagSpelled();
    LowFirst(s, i, close);
    var n :| TagName(n) && Low(s[i..j]) == Tag(n, close);
    LowLength(s[i..j]);
    hide Low;
    assert MatchAt(s, i, Tag(n, close));
  }

  lemma ReadIsTag(s: string, i: nat, close: bool)
    requires TagLen(s, i, close) > 0
    ensures TagIn(s, i, i + TagLen(s, i, close), close)
  {
    TagSpelled();
    LowFirst(s, i, close);
    hide Low;
    var j := i + TagLen(s, i, close);
    if MatchAt(s, i, Tag("think", close)) {
      assert TagName("think") && Low(s[i..j]) == Tag("think", close);
    } else if MatchAt(s, i, Tag("thinking", close)) {
      assert TagName("thinking") && Low(s[i..j]) == Tag("thinking", close);
    } else {
      assert TagName("reasoning") && Low(s[i..j]) == Tag("reasoning", close);
    }
  }

  lemma LowLength(s: string)
    ensures |Low(s)| == |s|
  {}

  lemma TagSpelled()
    ensures Tag("think", false) == "<think>" && Tag("thinking", false) == "<thinking>" && Tag("reasoning", false) == "<reasoning>"
    ensures Tag("think", true) == "</think>" && Tag("thinking", true) == "</thinking>" && Tag("reasoning", true) == "</reasoning>"
  {}

  /** A tag of one length excludes the others. */
  lemma LowFirst(s: string, i: nat, close: bool)
    ensures !(MatchAt(s, i, "<think>") && MatchAt(s, i, "<thinking>")) && !(MatchAt(s, i, "</think>") && MatchAt(s, i, "</thinking>"))
    ensures !(MatchAt(s, i, "<think>") && MatchAt(s, i, "<reasoning>")) && !(MatchAt(s, i, "</think>") && MatchAt(s, i, "</reasoning>"))
    ensures !(MatchAt(s, i, "<thinking>") && MatchAt(s, i, "<reasoning>"))
    ensures !(MatchAt(s, i, "</thinking>") && MatchAt(s, i, "</reasoning>"))
  {
    SameChar(s, i, "<think>", "<thinking>", 6);
    SameChar(s, i, "</think>", "</thinking>", 7);
    SameChar(s, i, "<think>", "<reasoning>", 1);
    SameChar(s, i, "</think>", "</reasoning>", 2);
    SameChar(s, i, "<thinking>", "<reasoning>", 1);
    SameChar(s, i, "</thinking>", "</reasoning>", 2);
  }

  lemma SameChar(s: string, i: nat, a: string, b: string, k: nat)
    requires k < |a| && k < |b|
    ensures MatchAt(s, i, a) && MatchAt(s, i, b) ==> a[k] == b[k]
  {
    if MatchAt(s, i, a) && MatchAt(s, i, b) {
      LowAt(s[i..i + |a|], k);
      LowAt(s[i..i + |b|], k);
    }
  }

  lemma LowAt(s: string, k: nat)
    requires k < |s|
    ensures k < |Low(s)| && Low(s)[k] == LowChar(s[k])
  {}

  /** The reply opens with a tag, behind white space at most; what follows the tag starts at `b`. */
  ghost predicate Opens(t: string, w: nat, b: nat) { w <= |t| && (forall i :: 0 <= i < w ==> IsSpace(t[i])) && TagIn(t, w, b, false) }

  /** The first closing tag from `b` on is `t[a..c]`. */
  ghost predicate Closes(t: string, b: nat, a: nat, c: nat) {
    b <= a && TagIn(t, a, c, true) && forall i: nat, j: nat :: b <= i < a ==> !TagIn(t, i, j, true)
  }

  /** Too short to tell: white space only, or less than twelve characters that start like a tag. */
  ghost predicate TooShort(t: string) {
    || (forall i :: 0 <= i < |t| ==> IsSpace(t[i]))
    || (|t| < 12 && (forall i: nat, j: nat :: !TagIn(t, i, j, false))
        && exists w: nat :: w < |t| && t[w] == '<' && forall i :: 0 <= i < w ==> IsSpace(t[i]))
  }

  lemma ShownIs(t: string)
    ensures Shown(t) == Meaning(t).1
  {
    StepMeans("", t);
    assert "" + t == t;
    hide Step, Meaning;
  }

  lemma BehindTag(t: string)
    requires Opening(t) > 0 && Indent(t) + Opening(t) <= |t|
    ensures Shown(t) == Narrate(t[Indent(t) + Opening(t)..]).1
  {
    ShownIs(t);
    hide Opening, Shown, Indent, Narrate, Undecided;
    assert Body(t) == t[Indent(t) + Opening(t)..];
  }

  lemma OpenedShows(t: string, w: nat, b: nat)
    requires Opens(t, w, b)
    ensures b <= |t| && Shown(t) == Narrate(t[b..]).1
  {
    hide *;
    OpensIs(t, w, b);
    BehindTag(t);
  }

  lemma UnopenedShows(t: string)
    requires forall w: nat, b: nat :: !Opens(t, w, b)
    ensures Shown(t) == if TooShort(t) then "" else t
  {
    ShownIs(t);
    NothingOpens(t);
    UndecidedIff(t);
    hide Opening, Shown, Narrate, Undecided, Opens, TooShort, TagIn, TagLen;
  }

  /**
   * What is shown of a whole reply: behind an opening tag, what follows the first closing one, or
   * nothing if it never closes; of a reply too short to tell, nothing; of any other, all of it.
   */
  lemma ShownMeans(t: string)
    ensures forall w: nat, b: nat, a: nat, c: nat :: Opens(t, w, b) && Closes(t, b, a, c) ==> c <= |t| && Shown(t) == t[c..]
    ensures forall w: nat, b: nat :: Opens(t, w, b) && (forall a: nat, c: nat :: !Closes(t, b, a, c)) ==> Shown(t) == ""
    ensures (forall w: nat, b: nat :: !Opens(t, w, b)) ==> Shown(t) == if TooShort(t) then "" else t
  {
    hide TagIn, Narrate, Opens, Closes, TooShort, Shown;
    forall w: nat, b: nat, a: nat, c: nat | Opens(t, w, b) && Closes(t, b, a, c) ensures c <= |t| && Shown(t) == t[c..] {
      OpenedShows(t, w, b);
      ClosedShows(t, b, a, c);
    }
    forall w: nat, b: nat | Opens(t, w, b) && (forall a: nat, c: nat :: !Closes(t, b, a, c)) ensures Shown(t) == "" {
      OpenedShows(t, w, b);
      OpenShows(t, b);
    }
    if forall w: nat, b: nat :: !Opens(t, w, b) { UnopenedShows(t); }
  }

  lemma OpensIs(t: string, w: nat, b: nat)
    requires Opens(t, w, b)
    ensures Opening(t) > 0 && Indent(t) == w && b == w + Opening(t) && b <= |t|
  {
    TagInIff(t, w, b, false);
    TagShape(t, w, false);
    hide TagLen, TagIn;
    assert !IsSpace('<');
    IndentIs(t, w);
  }

  lemma NothingOpens(t: string)
    requires forall w: nat, b: nat :: !Opens(t, w, b)
    ensures Opening(t) == 0
  {
    hide TagLen, TagIn;
    var w := Indent(t);
    TagInIff(t, w, w + TagLen(t, w, false), false);
    assert !Opens(t, w, w + TagLen(t, w, false));
  }

  lemma ClosedShows(t: string, b: nat, a: nat, c: nat)
    requires b <= |t| && Closes(t, b, a, c)
    ensures c <= |t| && Narrate(t[b..]).1 == t[c..]
  {
    TagInIff(t, a, c, true) by { assert TagIn(t, a, c, true); InText(t, a, c); }
    forall i: nat | b <= i < a ensures TagLen(t, i, true) == 0 {
      TagInIff(t, i, i + TagLen(t, i, true), true) by { InText(t, a, c); }
      assert !TagIn(t, i, i + TagLen(t, i, true), true);
    }
    InText(t, a, c);
    hide TagLen, TagIn, Closes;
    FirstClose(t, b, a);
    var u := t[b..];
    assert u[a - b + TagLen(t, a, true)..] == t[a + TagLen(t, a, true)..];
  }

  lemma InText(t: string, a: nat, c: nat)
    requires TagIn(t, a, c, true)
    ensures a <= c <= |t|
  {}

  lemma FirstClose(t: string, b: nat, a: nat)
    requires b <= a < |t| && TagLen(t, a, true) > 0 && forall i: nat :: b <= i < a ==> TagLen(t, i, true) == 0
    ensures FirstTag(t[b..], 0, true) == a - b && TagLen(t[b..], a - b, true) == TagLen(t, a, true)
  {
    hide TagLen;
    forall i | 0 <= i <= a - b ensures TagLen(t[b..], i, true) == TagLen(t, b + i, true) { TagSuffix(t, b, i, true); }
    FirstTagIs(t[b..], a - b, true);
  }

  lemma OpenShows(t: string, b: nat)
    requires b <= |t| && forall a: nat, c: nat :: !Closes(t, b, a, c)
    ensures Narrate(t[b..]).1 == ""
  {
    hide TagLen, TagIn, Held;
    var u := t[b..];
    var at := FirstTag(u, 0, true);
    if at < |u| {
      var a, c := b + at, b + at + TagLen(t, b + at, true);
      assert !Closes(t, b, a, c);
      TagSuffix(t, b, at, true);
      TagInIff(t, a, c, true);
      forall i: nat, j: nat | b <= i < a ensures !TagIn(t, i, j, true) {
        TagInIff(t, i, j, true);
        TagSuffix(t, b, i - b, true);
      }
    }
  }

  lemma UndecidedIff(t: string)
    ensures Undecided(t) <==> TooShort(t)
  {
    hide TagLen, TagIn;
    var w := Indent(t);
    if FirstTag(t, 0, false) == |t| {
      forall i: nat, j: nat ensures !TagIn(t, i, j, false) { NoTagIn(t, i, j); }
    } else {
      var at := FirstTag(t, 0, false);
      TagInIff(t, at, at + TagLen(t, at, false), false);
      assert TagIn(t, at, at + TagLen(t, at, false), false);
    }
    assert !IsSpace('<');
  }

  lemma NoTagIn(t: string, i: nat, j: nat)
    requires FirstTag(t, 0, false) == |t|
    ensures !TagIn(t, i, j, false)
  {
    if i < |t| { TagInIff(t, i, j, false); } else if i == |t| { TagInIff(t, i, j, false); TagFits(t, i); }
  }

  lemma TagFits(t: string, i: nat)
    requires i == |t|
    ensures TagLen(t, i, false) == 0
  {}
}
