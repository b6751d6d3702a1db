/**
 * What one model call and one question come to, told from what the provider did: which request is
 * repeated, which reply is answered, repaired or given up on, and with which error.
 */
module RepairOutcome {
  import opened RepairLoop

  // ----- one model call -----

  /** A failure that is neither an abort nor the call's own timeout. */
  predicate Plain(o: Outcome) { o.Raised? && !o.aborted && !o.timedOut }

  /** Some request before the `j`-th was turned down for its `temperature`: it was sent again without. */
  predicate Resent(p: Provider, j: nat) { exists i :: 0 <= i < j && Plain(p.request(i).outcome) && p.request(i).outcome.temperature }

  /** The retries used up before request `j`. */
  function Used(p: Provider, j: nat): nat { if Resent(p, j) then j - 1 else j }

  /** Request `j`, once it has failed, is followed by another. */
  predicate Repeats(p: Provider, maxRetries: int, j: nat) {
    var o := p.request(j).outcome;
    Plain(o) && if o.temperature && !Resent(p, j) then true
                else o.retryable && o.mapped != Timeout && Used(p, j) < maxRetries && !o.sleepAborted
  }

  /** What a call comes to if request `j` is its last. */
  function Ending(p: Provider, maxRetries: int, j: nat): Called {
    var o := p.request(j).outcome;
    if o.Replied? then Text(o.text)
    else if o.timedOut && !o.aborted then Error(Timeout)
    else if Plain(o) && o.retryable && o.mapped != Timeout && Used(p, j) < maxRetries then Error(Cancelled)
    else Error(o.mapped)
  }

  lemma ResentNext(p: Provider, j: nat)
    ensures Resent(p, j + 1) <==> Resent(p, j) || (Plain(p.request(j).outcome) && p.request(j).outcome.temperature)
  {
    if Resent(p, j) {
      var i :| 0 <= i < j && Plain(p.request(i).outcome) && p.request(i).outcome.temperature;
    }
  }

  /** A call is at request `j` with the retries that requests `0..j` have used. */
  lemma {:induction false} CallAt(p: Provider, maxRetries: int, j: nat)
    requires forall i :: 0 <= i < j ==> !p.request(i).abortedBefore && Repeats(p, maxRetries, i)
    ensures Resent(p, j) ==> j > 0
    ensures CallFrom(p, maxRetries, j, Used(p, j), Resent(p, j)) == Call(p, maxRetries)
  {
    if j > 0 {
      CallAt(p, maxRetries, j - 1);
      ResentNext(p, j - 1);
      assert Repeats(p, maxRetries, j - 1) && !p.request(j - 1).abortedBefore;
    }
  }

  /**
   * A call makes request after request while each fails in a way that repeats it, stops before the
   * first one its caller has cancelled, and ends as its last request says.
   */
  lemma {:induction false} CallExact(p: Provider, maxRetries: int, j: nat)
    requires j < Call(p, maxRetries).1
    ensures !p.request(j).abortedBefore
    ensures j + 1 < Call(p, maxRetries).1 ==> Repeats(p, maxRetries, j)
    ensures j + 1 == Call(p, maxRetries).1 ==>
              Call(p, maxRetries).0 == (if Repeats(p, maxRetries, j) then Error(Cancelled) else Ending(p, maxRetries, j))
              && (Repeats(p, maxRetries, j) ==> p.request(j + 1).abortedBefore)
  {
    forall i: nat | i < j ensures !p.request(i).abortedBefore && Repeats(p, maxRetries, i) { CallExact(p, maxRetries, i); }
    CallAt(p, maxRetries, j);
    ResentNext(p, j);
    hide Resent;
    StepAt(p, maxRetries, j, Used(p, j), Resent(p, j));
  }

  /** One request of the recursion. */
  lemma StepAt(p: Provider, maxRetries: int, j: nat, retry: nat, omit: bool)
    requires CallFrom(p, maxRetries, j, retry, omit).1 > j
    requires retry == Used(p, j) && omit == Resent(p, j)
    ensures !p.request(j).abortedBefore
    ensures var (r, n) := CallFrom(p, maxRetries, j, retry, omit);
            && (n > j + 1 ==> Repeats(p, maxRetries, j))
            && (n == j + 1 ==> r == (if Repeats(p, maxRetries, j) then Error(Cancelled) else Ending(p, maxRetries, j))
                               && (Repeats(p, maxRetries, j) ==> p.request(j + 1).abortedBefore))
  {
    hide Resent;
    if Repeats(p, maxRetries, j) { NextRequest(p, maxRetries, j, retry, omit); }
  }

  lemma NextRequest(p: Provider, maxRetries: int, j: nat, retry: nat, omit: bool)
    requires !p.request(j).abortedBefore && Repeats(p, maxRetries, j) && retry == Used(p, j) && omit == Resent(p, j)
    ensures var (r, n) := CallFrom(p, maxRetries, j, retry, omit);
            n >= j + 1 && (n == j + 1 <==> p.request(j + 1).abortedBefore) && (n == j + 1 ==> r == Error(Cancelled))
  {
    hide Resent;
    var o := p.request(j).outcome;
    if o.temperature && !Resent(p, j) { NextCounts(p, maxRetries, j + 1, retry, true); }
    else { NextCounts(p, maxRetries, j + 1, retry + 1, omit); }
  }

  lemma {:induction false} NextCounts(p: Provider, maxRetries: int, i: nat, retry: nat, omit: bool)
    ensures var (r, n) := CallFrom(p, maxRetries, i, retry, omit);
            n >= i && (n == i <==> p.request(i).abortedBefore) && (n == i ==> r == Error(Cancelled))
    decreases Max0(maxRetries) - retry, if omit then 0 else 1
  {
    var a := p.request(i);
    if !a.abortedBefore && a.outcome.Raised? {
      if Resends(a.outcome, omit) {
        NextCounts(p, maxRetries, i + 1, retry, true);
      } else if Retries(a.outcome, omit, retry, maxRetries) {
        NextCounts(p, maxRetries, i + 1, retry + 1, omit);
      }
    }
  }

  /** Nothing is requested exactly when the caller has already cancelled. */
  lemma NoRequestIff(p: Provider, maxRetries: int)
    ensures Call(p, maxRetries).1 == 0 <==> p.request(0).abortedBefore
    ensures p.request(0).abortedBefore ==> Call(p, maxRetries).0 == Error(Cancelled)
  {
    NextCounts(p, maxRetries, 0, 0, false);
  }

  // ----- one question -----

  /** What the loop gets out of a model call. */
  datatype Said = Says(reading: Reading) | Fails(code: Code)

  function SaidAt(q: Ask, i: nat): Said {
    var r := Call(q.provider(i), q.maxRetries).0;
    match r case Text(text) => Says(q.read(text)) case Error(code) => Fails(code)
  }

  predicate IsHedge(s: Said) { s.Says? && s.reading.Impossible? }

  /** A reply that costs a repair attempt if it is not the answer. */
  predicate IsSpent(s: Said) { s.Says? && !s.reading.Impossible? }

  /** Attempts spent before call `i`. */
  function Spent(q: Ask, i: nat): nat { if i == 0 then 0 else Spent(q, i - 1) + (if IsSpent(SaidAt(q, i - 1)) then 1 else 0) }

  /** Replies before call `i` that called the question impossible. */
  function Hedges(q: Ask, i: nat): nat { if i == 0 then 0 else Hedges(q, i - 1) + (if IsHedge(SaidAt(q, i - 1)) then 1 else 0) }

  /** Some call before `i` overflowed the context. */
  predicate Overflowed(q: Ask, i: nat) { exists j :: 0 <= j < i && SaidAt(q, j) == Fails(ContextOverflow) }

  /** Every reply before call `i` was blank. */
  predicate AllBlank(q: Ask, i: nat) { forall j :: 0 <= j < i && SaidAt(q, j).Says? ==> Blank(SaidAt(q, j).reading) }

  /** How many hedges are asked again: one for a question about structure, one for a near table name. */
  function HedgesAllowed(q: Ask): nat { (if q.metadataQuestion then 1 else 0) + (if q.nearTable then 1 else 0) }

  function StateAt(q: Ask, i: nat): Loop {
    Loop(Spent(q, i), Overflowed(q, i), q.metadataQuestion && Hedges(q, i) > 0,
         q.nearTable && Hedges(q, i) > (if q.metadataQuestion then 1 else 0), AllBlank(q, i))
  }

  /** After call `i` the loop goes on. */
  predicate GoesOn(q: Ask, i: nat) {
    match SaidAt(q, i)
    case Fails(code) => code == ContextOverflow && !Overflowed(q, i)
    case Says(Impossible(_)) => Hedges(q, i) < HedgesAllowed(q)
    case Says(NoSql(_, _)) => Spent(q, i) < MAX_REPAIRS
    case Says(Statement(c)) => Spent(q, i) < MAX_REPAIRS && !Sound(q, c, Spent(q, i)) && !(c.allowed && c.literalOnly)
  }

  /** What the question comes to if call `i` is its last, in terms of that call and the ones before. */
  ghost predicate EndsAs(q: Ask, i: nat, f: Final) {
    match SaidAt(q, i)
    case Fails(code) => f == Failed(code)
    case Says(Impossible(_)) => f == Failed(BadOutput)
    case Says(NoSql(_, refusal)) =>
      if AllBlank(q, i + 1) then f == Silent else f == Failed(if refusal then Refusal else BadOutput)
    case Says(Statement(c)) =>
      if !c.allowed then f == Failed(GuardBlocked)
      else if c.literalOnly || c.unknownTable || c.unknownColumn then f == Failed(BadOutput)
      else
        && f.Answer? && f.checked == c && f.repairs == Spent(q, i)
        && (FanOutNote in f.notes <==> c.fanOut) && (EpochNote in f.notes <==> c.epoch)
        && (ImpossibleNote in f.notes <==> c.impossibleCode)
  }

  lemma SaidIs(q: Ask, i: nat)
    ensures var r := Call(q.provider(i), q.maxRetries).0;
            if r.Text? then SaidAt(q, i) == Says(Read(q, i)) else SaidAt(q, i) == Fails(r.code)
  {
    hide CallFrom, Call;
  }

  lemma OverflowedNext(q: Ask, i: nat)
    ensures Overflowed(q, i + 1) <==> Overflowed(q, i) || SaidAt(q, i) == Fails(ContextOverflow)
  {
    hide SaidAt;
    if Overflowed(q, i) {
      var j :| 0 <= j < i && SaidAt(q, j) == Fails(ContextOverflow);
    }
  }

  lemma AllBlankNext(q: Ask, i: nat)
    ensures AllBlank(q, i + 1) <==> AllBlank(q, i) && (SaidAt(q, i).Says? ==> Blank(SaidAt(q, i).reading))
  {
    hide SaidAt;
  }

  /** One iteration, in these terms. */
  lemma DecideExact(q: Ask, i: nat)
    requires Spent(q, i) <= MAX_REPAIRS && Hedges(q, i) <= HedgesAllowed(q)
    ensures var d := Decide(q, i, StateAt(q, i));
            && (d.Again? <==> GoesOn(q, i))
            && (d.Again? ==> d.next == StateAt(q, i + 1) && Spent(q, i + 1) <= MAX_REPAIRS && Hedges(q, i + 1) <= HedgesAllowed(q))
            && (d.Stop? ==> EndsAs(q, i, d.final))
  {
    SaidIs(q, i);
    OverflowedNext(q, i);
    AllBlankNext(q, i);
    hide CallFrom, Call, SaidAt, Overflowed, AllBlank, Blank, Read;
    HedgeNext(q, i);
    match SaidAt(q, i)
    case Says(Statement(c)) => JudgeExact(q, c, Spent(q, i));
    case _ =>
  }

  lemma HedgeNext(q: Ask, i: nat)
    ensures Hedges(q, i + 1) == Hedges(q, i) + (if IsHedge(SaidAt(q, i)) then 1 else 0)
    ensures Spent(q, i + 1) == Spent(q, i) + (if IsSpent(SaidAt(q, i)) then 1 else 0)
  {}

  lemma JudgeExact(q: Ask, c: Checked, attempt: nat)
    requires attempt <= MAX_REPAIRS
    ensures var f := Judge(q, c, attempt);
            && (f.None? <==> attempt < MAX_REPAIRS && !Sound(q, c, attempt) && !(c.allowed && c.literalOnly))
            && (f.Some? && !c.allowed ==> f.value == Failed(GuardBlocked))
            && (f.Some? && c.allowed && (c.literalOnly || c.unknownTable || c.unknownColumn) ==> f.value == Failed(BadOutput))
            && (f.Some? && c.allowed && !c.literalOnly && !c.unknownTable && !c.unknownColumn ==>
                  && f.value.Answer? && f.value.checked == c && f.value.repairs == attempt
                  && (FanOutNote in f.value.notes <==> c.fanOut) && (EpochNote in f.value.notes <==> c.epoch)
                  && (ImpossibleNote in f.value.notes <==> c.impossibleCode))
  {}

  /** Call `i` is made exactly if the loop goes on after every call before it. */
  lemma {:induction false} Reached(q: Ask, i: nat)
    requires forall j :: 0 <= j < i ==> GoesOn(q, j)
    ensures Spent(q, i) <= MAX_REPAIRS && Hedges(q, i) <= HedgesAllowed(q)
    ensures AskFrom(q, i, StateAt(q, i)) == Asked(q) && i < Asked(q).1
  {
    hide GoesOn, Decide, SaidAt, Spent, Hedges, EndsAs;
    if i == 0 {
      AtBegin(q);
    } else {
      Reached(q, i - 1);
      DecideExact(q, i - 1);
      AskUnfold(q, i - 1, StateAt(q, i - 1));
    }
    AskFromSound(q, i, StateAt(q, i));
  }

  lemma AtBegin(q: Ask)
    ensures StateAt(q, 0) == BEGIN && Spent(q, 0) == 0 && Hedges(q, 0) == 0
  {}

  /**
   * Everything a question comes to.  The loop makes call after call exactly while each is one it goes
   * on from, and ends as its last call says: a statement that no floor objects to is the answer at
   * once, with the repairs spent so far and exactly the notes its floors call for.
   */
  lemma {:induction false} AskExact(q: Ask, i: nat)
    requires i < Asked(q).1
    ensures forall j :: 0 <= j < i ==> GoesOn(q, j)
    ensures Spent(q, i) <= MAX_REPAIRS
    ensures GoesOn(q, i) <==> i + 1 < Asked(q).1
    ensures i + 1 == Asked(q).1 ==> EndsAs(q, i, Asked(q).0)
    decreases i
  {
    hide GoesOn, Decide, SaidAt, Spent, Hedges, EndsAs;
    forall j: nat | j < i ensures GoesOn(q, j) { AskExact(q, j); }
    Reached(q, i);
    DecideExact(q, i);
    AskUnfold(q, i, StateAt(q, i));
    if GoesOn(q, i) {
      forall j: nat | j < i + 1 ensures GoesOn(q, j) {}
      Reached(q, i + 1);
    }
  }

  /** In particular a first reply that is a clean statement is the answer, after one call. */
  lemma CleanAtOnce(q: Ask, c: Checked)
    requires SaidAt(q, 0) == Says(Statement(c)) && Sound(q, c, 0)
    ensures Asked(q).1 == 1 && Asked(q).0 == Answer(c, 0, if c.impossibleCode then {ImpossibleNote} else {})
  {
    Reached(q, 0);
    AskExact(q, 0);
    hide SaidAt, AskFrom;
    assert !GoesOn(q, 0);
    var f := Asked(q).0;
    NotesAre(f.notes, c.impossibleCode);
  }

  lemma NotesAre(notes: set<Note>, impossible: bool)
    requires FanOutNote !in notes && EpochNote !in notes && (ImpossibleNote in notes <==> impossible)
    ensures notes == if impossible then {ImpossibleNote} else {}
  {
    forall n | n in notes ensures n == ImpossibleNote {}
  }
}
