/**
 * The bounded loops around the model: `callModel` with its retries and its one resend without
 * temperature, and the repair loop of `ask` with its three one-shot refunds.  What the model and
 * the static checks say is an input, one answer per call.
 */
module RepairLoop {
  import opened Text

  const MAX_REPAIRS := 2

  datatype Code = Cancelled | Timeout | ContextOverflow | BadOutput | Refusal | Unavailable | GuardBlocked | OtherCode(name: string)

  // ----- one model call -----

  /** How one provider request went, and whether the caller had already cancelled before it. */
  datatype Attempt = Attempt(abortedBefore: bool, outcome: Outcome)

  datatype Outcome =
    | Replied(text: string)
    | Raised(timedOut: bool, aborted: bool, temperature: bool, mapped: Code, retryable: bool, sleepAborted: bool)

  /** The requests a call would make, in order. */
  datatype Provider = Provider(request: nat -> Attempt)

  datatype Called = Text(text: string) | Error(code: Code)

  /** After this failure the request is sent again without `temperature`. */
  predicate Resends(o: Outcome, omit: bool) {
    o.Raised? && !(o.timedOut && !o.aborted) && !o.aborted && !omit && o.temperature
  }

  /** After this failure the request is tried again, at the cost of one retry. */
  predicate Retries(o: Outcome, omit: bool, retry: nat, maxRetries: int) {
    && o.Raised? && !(o.timedOut && !o.aborted) && !Resends(o, omit)
    && o.retryable && o.mapped != Timeout && retry < maxRetries && !o.aborted
  }

  function Max0(n: int): nat { if n > 0 then n else 0 }

  /** `callModel` from its `i`-th request on: the result and how many requests were made in all. */
  function CallFrom(p: Provider, maxRetries: int, i: nat, retry: nat, omit: bool): (Called, nat)
    decreases Max0(maxRetries) - retry, if omit then 0 else 1
  {
    var a := p.request(i);
    if a.abortedBefore then (Error(Cancelled), i)
    else if a.outcome.Replied? then (Text(a.outcome.text), i + 1)
    else if a.outcome.timedOut && !a.outcome.aborted then (Error(Timeout), i + 1)
    else if Resends(a.outcome, omit) then CallFrom(p, maxRetries, i + 1, retry, true)
    else if !Retries(a.outcome, omit, retry, maxRetries) then (Error(a.outcome.mapped), i + 1)
    else if a.outcome.sleepAborted then (Error(Cancelled), i + 1)
    else CallFrom(p, maxRetries, i + 1, retry + 1, omit)
  }

  function Call(p: Provider, maxRetries: int): (Called, nat) { CallFrom(p, maxRetries, 0, 0, false) }

  function Credit(maxRetries: int, retry: nat, omit: bool): int {
    Max0(maxRetries) - retry + (if omit then 1 else 2)
  }

  /** No call makes more requests than its retries, the first one and one resend. */
  lemma {:induction false} CallBound(p: Provider, maxRetries: int, i: nat, retry: nat, omit: bool)
    requires retry <= Max0(maxRetries)
    ensures i <= CallFrom(p, maxRetries, i, retry, omit).1 <= i + Credit(maxRetries, retry, omit)
    decreases Max0(maxRetries) - retry, if omit then 0 else 1
  {
    var a := p.request(i);
    if !a.abortedBefore && a.outcome.Raised? {
      if Resends(a.outcome, omit) {
        CallBound(p, maxRetries, i + 1, retry, true);
      } else if Retries(a.outcome, omit, retry, maxRetries) {
        CallBound(p, maxRetries, i + 1, retry + 1, omit);
      }
    }
  }

  /** No request is made after the caller cancelled, nor after one that replied or timed out. */
  lemma {:induction false} RequestsJustified(p: Provider, maxRetries: int, i: nat, retry: nat, omit: bool, j: nat)
    requires i <= j < CallFrom(p, maxRetries, i, retry, omit).1
    ensures !p.request(j).abortedBefore
    ensures j + 1 < CallFrom(p, maxRetries, i, retry, omit).1 ==>
              var o := p.request(j).outcome;
              o.Raised? && !o.aborted && !o.timedOut && (o.temperature || (o.retryable && o.mapped != Timeout))
    decreases Max0(maxRetries) - retry, if omit then 0 else 1
  {
    var a := p.request(i);
    if !a.abortedBefore && a.outcome.Raised? {
      if Resends(a.outcome, omit) {
        if j > i { RequestsJustified(p, maxRetries, i + 1, retry, true, j); }
      } else if Retries(a.outcome, omit, retry, maxRetries) && !a.outcome.sleepAborted {
        if j > i { RequestsJustified(p, maxRetries, i + 1, retry + 1, omit, j); }
      }
    }
  }

  const ALWAYS_REJECTS: Provider := Provider(i => Attempt(false, Raised(false, false, true, Unavailable, true, false)))

  lemma {:induction false} RejectedRetries(maxRetries: nat, i: nat, retry: nat)
    requires retry <= maxRetries
    ensures CallFrom(ALWAYS_REJECTS, maxRetries, i, retry, true).1 == i + 1 + maxRetries - retry
    decreases maxRetries - retry
  {
    if retry < maxRetries { RejectedRetries(maxRetries, i + 1, retry + 1); }
  }

  /** The bound is met by a provider that rejects `temperature` and then fails every time. */
  lemma CallBoundMet(maxRetries: nat)
    ensures Call(ALWAYS_REJECTS, maxRetries).1 == maxRetries + 2
  {
    RejectedRetries(maxRetries, 1, 0);
  }

  method CallModel(p: Provider, maxRetries: int) returns (r: Called, requests: nat)
    ensures (r, requests) == Call(p, maxRetries)
    ensures requests <= Max0(maxRetries) + 2
  {
    CallBound(p, maxRetries, 0, 0, false);
    requests := 0;
    var retry, omitTemperature := 0, false;
    while true
      invariant retry <= Max0(maxRetries)
      invariant CallFrom(p, maxRetries, requests, retry, omitTemperature) == Call(p, maxRetries)
      decreases Max0(maxRetries) - retry, if omitTemperature then 0 else 1
    {
      var a := p.request(requests);
      if a.abortedBefore { return Error(Cancelled), requests; }
      requests := requests + 1;
      if a.outcome.Replied? { return Text(a.outcome.text), requests; }
      var o := a.outcome;
      if o.timedOut && !o.aborted { return Error(Timeout), requests; }
      if !o.aborted && !omitTemperature && o.temperature {
        omitTemperature := true;
        continue;
      }
      if !(o.retryable && o.mapped != Timeout && retry < maxRetries && !o.aborted) { return Error(o.mapped), requests; }
      retry := retry + 1;
      if o.sleepAborted { return Error(Cancelled), requests; }
    }
  }

  // ----- the repair loop -----

  /** What the static checks say of one extracted statement. */
  datatype Checked = Checked(
    sql: string,
    allowed: bool,
    literalOnly: bool,
    unknownTable: bool,
    ambiguous: bool,
    ungrouped: bool,
    nested: bool,
    fanOut: bool,
    epoch: bool,
    unknownColumn: bool,
    impossibleCode: bool)

  /** What a reply is read as. */
  datatype Reading =
    | Statement(checked: Checked)
    | Impossible(blank: bool)
    | NoSql(blank: bool, refusal: bool)

  /** The inputs of one `ask`: the providers behind each model call, and how texts are read. */
  datatype Ask = Ask(
    provider: nat -> Provider,
    maxRetries: int,
    read: string -> Reading,
    metadataQuestion: bool,
    nearTable: bool,
    allowDataInPrompt: bool)

  /** The loop's variables. */
  datatype Loop = Loop(attempt: nat, shrunk: bool, triedMetadata: bool, triedFuzzy: bool, allEmpty: bool)

  const BEGIN := Loop(0, false, false, false, true)

  datatype Note = FanOutNote | EpochNote | ImpossibleNote

  datatype Final =
    | Answer(checked: Checked, repairs: nat, notes: set<Note>)
    | Failed(code: Code)
    | Silent  // LLM_UNAVAILABLE raised by the loop: the model never said anything

  function Read(q: Ask, i: nat): Reading
    requires Call(q.provider(i), q.maxRetries).0.Text?
  {
    q.read(Call(q.provider(i), q.maxRetries).0.text)
  }

  predicate Blank(r: Reading) { !r.Statement? && r.blank }

  /** The statement goes back to the model as a repair. */
  predicate NeedsRepair(q: Ask, c: Checked, attempt: nat) {
    || !c.allowed
    || (!Dodge(c) &&
        (|| c.unknownTable || c.unknownColumn
         || (attempt < MAX_REPAIRS &&
             (c.ambiguous || c.ungrouped || c.nested || c.fanOut || c.epoch || (c.impossibleCode && q.allowDataInPrompt)))))
  }

  /** A hardcoded string instead of a query. */
  predicate Dodge(c: Checked) { c.allowed && c.literalOnly }

  function Notes(c: Checked, attempt: nat): set<Note> {
    (if c.fanOut && attempt >= MAX_REPAIRS then {FanOutNote} else {})
    + (if c.epoch && attempt >= MAX_REPAIRS then {EpochNote} else {})
    + (if c.impossibleCode then {ImpossibleNote} else {})
  }

  /** The verdict on a statement, or None to have it repaired. */
  function Judge(q: Ask, c: Checked, attempt: nat): Option<Final> {
    if Dodge(c) then Some(Failed(BadOutput))
    else if !NeedsRepair(q, c, attempt) then Some(Answer(c, attempt, Notes(c, attempt)))
    else if attempt >= MAX_REPAIRS then Some(Failed(if !c.allowed then GuardBlocked else BadOutput))
    else None
  }

  /** What one iteration decides. */
  datatype Decision = Stop(final: Final) | Again(next: Loop)

  function Decide(q: Ask, i: nat, l: Loop): Decision {
    var called := Call(q.provider(i), q.maxRetries).0;
    if called.Error? then
      if called.code == ContextOverflow && !l.shrunk then Again(l.(shrunk := true)) else Stop(Failed(called.code))
    else
      var r := Read(q, i);
      var m := l.(allEmpty := l.allEmpty && Blank(r));
      match r
      case Impossible(_) =>
        if q.metadataQuestion && !m.triedMetadata then Again(m.(triedMetadata := true))
        else if q.nearTable && !m.triedFuzzy then Again(m.(triedFuzzy := true))
        else Stop(Failed(BadOutput))
      case NoSql(_, refusal) =>
        if m.attempt >= MAX_REPAIRS
        then Stop(if m.allEmpty then Silent else Failed(if refusal then Refusal else BadOutput))
        else Again(m.(attempt := m.attempt + 1))
      case Statement(c) =>
        var f := Judge(q, c, m.attempt);
        if f.Some? then Stop(f.value) else Again(m.(attempt := m.attempt + 1))
  }

  /** Repairs left, then refunds left. */
  function Refunds(l: Loop): nat {
    (if l.shrunk then 0 else 1) + (if l.triedMetadata then 0 else 1) + (if l.triedFuzzy then 0 else 1)
  }

  function Left(l: Loop): nat { Max0(MAX_REPAIRS - l.attempt) + Refunds(l) }

  lemma AgainCosts(q: Ask, i: nat, l: Loop)
    requires l.attempt <= MAX_REPAIRS
    ensures var d := Decide(q, i, l);
            d.Again? ==>
              && d.next.attempt <= MAX_REPAIRS
              && (|| (d.next.attempt == l.attempt && Refunds(d.next) == Refunds(l) - 1)
                  || (d.next.attempt == l.attempt + 1 && Refunds(d.next) == Refunds(l)))
  {}

  /** `ask` from its `i`-th model call on: the outcome and the number of calls made in all. */
  function AskFrom(q: Ask, i: nat, l: Loop): (Final, nat)
    requires l.attempt <= MAX_REPAIRS
    decreases MAX_REPAIRS - l.attempt, Refunds(l)
  {
    AgainCosts(q, i, l);
    match Decide(q, i, l)
    case Stop(f) => (f, i + 1)
    case Again(next) => AskFrom(q, i + 1, next)
  }

  function Asked(q: Ask): (Final, nat) { AskFrom(q, 0, BEGIN) }

  /** The statement was checked clean of everything that must never reach the database. */
  predicate Sound(q: Ask, c: Checked, repairs: nat) {
    && c.allowed && !c.literalOnly && !c.unknownTable && !c.unknownColumn
    && (repairs < MAX_REPAIRS ==>
          && !c.ambiguous && !c.ungrouped && !c.nested && !c.fanOut && !c.epoch
          && (c.impossibleCode ==> !q.allowDataInPrompt))
  }

  /** Whatever the floors could not get repaired is said in the notes. */
  predicate Disclosed(c: Checked, notes: set<Note>) {
    && (c.fanOut ==> FanOutNote in notes) && (c.epoch ==> EpochNote in notes) && (c.impossibleCode ==> ImpossibleNote in notes)
  }

  ghost predicate LastRead(q: Ask, n: nat, c: Checked) {
    n > 0 && Call(q.provider(n - 1), q.maxRetries).0.Text? && Read(q, n - 1) == Statement(c)
  }

  lemma AnswerSound(q: Ask, i: nat, l: Loop)
    requires l.attempt <= MAX_REPAIRS
    ensures var d := Decide(q, i, l);
            d.Stop? && d.final.Answer? ==>
              && d.final.repairs == l.attempt && Sound(q, d.final.checked, d.final.repairs)
              && Disclosed(d.final.checked, d.final.notes) && LastRead(q, i + 1, d.final.checked)
  {
    hide CallFrom, Call;
  }

  lemma {:induction false} AskFromSound(q: Ask, i: nat, l: Loop)
    requires l.attempt <= MAX_REPAIRS
    ensures var (f, n) := AskFrom(q, i, l);
            && i < n <= i + 1 + Left(l)
            && (f.Answer? ==>
                  && l.attempt <= f.repairs <= MAX_REPAIRS && Sound(q, f.checked, f.repairs)
                  && Disclosed(f.checked, f.notes) && LastRead(q, n, f.checked)
                  && f.repairs - l.attempt <= n - 1 - i <= f.repairs - l.attempt + Refunds(l))
    decreases MAX_REPAIRS - l.attempt, Refunds(l)
  {
    hide Decide, Call, CallFrom, Sound, Disclosed, LastRead;
    AgainCosts(q, i, l);
    AnswerSound(q, i, l);
    var d := Decide(q, i, l);
    if d.Again? { AskFromSound(q, i + 1, d.next); }
  }

  /**
   * One `ask` makes at most six model calls.  Its answer is the statement of the last call, guarded,
   * with no unknown table or column, after at most two repairs; the other calls were refunds.
   */
  lemma AskBounded(q: Ask)
    ensures var (f, n) := Asked(q);
            && 1 <= n <= 6
            && (f.Answer? ==>
                  && f.repairs <= MAX_REPAIRS && Sound(q, f.checked, f.repairs) && Disclosed(f.checked, f.notes)
                  && LastRead(q, n, f.checked) && f.repairs <= n - 1 <= f.repairs + 3)
  {
    AskFromSound(q, 0, BEGIN);
  }

  // ----- the model is called unreachable only when it never said anything -----

  /** Call `j` gave no text, or a blank one. */
  ghost predicate Mute(q: Ask, j: nat) {
    Call(q.provider(j), q.maxRetries).0.Text? ==> Blank(Read(q, j))
  }

  lemma DecideMute(q: Ask, i: nat, l: Loop)
    ensures var d := Decide(q, i, l);
            && (d.Again? && d.next.allEmpty ==> l.allEmpty && Mute(q, i))
            && (d.Stop? && d.final.Silent? ==> l.allEmpty && Mute(q, i))
  {
    hide CallFrom, Call;
  }

  lemma {:induction false} SilentFromMute(q: Ask, i: nat, l: Loop)
    requires l.attempt <= MAX_REPAIRS && AskFrom(q, i, l).0.Silent?
    ensures l.allEmpty && forall j :: i <= j < AskFrom(q, i, l).1 ==> Mute(q, j)
    decreases MAX_REPAIRS - l.attempt, Refunds(l)
  {
    hide Decide, Call, CallFrom, Mute;
    AgainCosts(q, i, l);
    DecideMute(q, i, l);
    var d := Decide(q, i, l);
    if d.Again? { SilentFromMute(q, i + 1, d.next); }
  }

  /** A model is called unreachable only if every reply it gave was blank. */
  lemma SilentMeansMute(q: Ask)
    requires Asked(q).0.Silent?
    ensures forall j :: 0 <= j < Asked(q).1 ==> Mute(q, j)
  {
    SilentFromMute(q, 0, BEGIN);
  }

  // ----- everything one question can cost -----

  /** Provider requests of the model calls `i..n`. */
  function Requests(q: Ask, i: nat, n: nat): nat
    decreases n - i
  {
    if i >= n then 0 else Call(q.provider(i), q.maxRetries).1 + Requests(q, i + 1, n)
  }

  lemma {:induction false} RequestsBound(q: Ask, i: nat, n: nat)
    requires i <= n
    ensures Requests(q, i, n) <= (n - i) * (Max0(q.maxRetries) + 2)
    decreases n - i
  {
    if i < n {
      RequestsBound(q, i + 1, n);
      CallBound(q.provider(i), q.maxRetries, 0, 0, false);
      var each := Max0(q.maxRetries) + 2;
      assert (n - i) * each == each + (n - i - 1) * each;
    }
  }

  /** One question costs at most 6 (maxRetries + 2) provider requests. */
  lemma TotalBound(q: Ask)
    ensures Requests(q, 0, Asked(q).1) <= 6 * (Max0(q.maxRetries) + 2)
  {
    AskBounded(q);
    var n := Asked(q).1;
    RequestsBound(q, 0, n);
    assert n * (Max0(q.maxRetries) + 2) <= 6 * (Max0(q.maxRetries) + 2);
  }

  // ----- six calls happen -----

  const OVERFLOWS: Provider := Provider(i => Attempt(false, Raised(false, false, false, ContextOverflow, false, false)))

  function Says(text: string): Provider { Provider(i => Attempt(false, Replied(text))) }

  const CLEAN := Checked("select 1", true, false, false, false, false, false, false, false, false, false)

  /** Overflow, IMPOSSIBLE twice, no SQL twice, then a clean statement. */
  const HARDEST := Ask(
    i => if i == 0 then OVERFLOWS else if i <= 2 then Says("I") else if i <= 4 then Says("?") else Says("S"),
    0,
    text => if text == "I" then Impossible(false) else if text == "S" then Statement(CLEAN) else NoSql(false, false),
    true, true, false)

  lemma SaysText(text: string)
    ensures Call(Says(text), 0).0 == Text(text)
  {}

  /** The bound of six is met, by an answer. */
  lemma SixCalls()
    ensures Asked(HARDEST) == (Answer(CLEAN, 2, {}), 6)
  {
    var q, end := HARDEST, (Answer(CLEAN, 2, {}), 6);
    assert Call(q.provider(0), 0).0 == Error(ContextOverflow);
    SaysText("I");
    SaysText("?");
    SaysText("S");
    hide Call, CallFrom;
    assert Decide(q, 5, Loop(2, true, true, true, false)) == Stop(Answer(CLEAN, 2, {}));
    assert Decide(q, 4, Loop(1, true, true, true, false)) == Again(Loop(2, true, true, true, false));
    assert Decide(q, 3, Loop(0, true, true, true, false)) == Again(Loop(1, true, true, true, false));
    assert Decide(q, 2, Loop(0, true, true, false, false)) == Again(Loop(0, true, true, true, false));
    assert Decide(q, 1, Loop(0, true, false, false, true)) == Again(Loop(0, true, true, false, false));
    assert Decide(q, 0, BEGIN) == Again(Loop(0, true, false, false, true));
    hide Decide;
    assert AskFrom(q, 5, Loop(2, true, true, true, false)) == end;
    assert AskFrom(q, 4, Loop(1, true, true, true, false)) == end;
    assert AskFrom(q, 3, Loop(0, true, true, true, false)) == end;
    assert AskFrom(q, 2, Loop(0, true, true, false, false)) == end;
    assert AskFrom(q, 1, Loop(0, true, false, false, true)) == end;
  }

  // ----- the loop itself -----

  /** The checks on one extracted statement, in order. */
  method Examine(q: Ask, c: Checked, attempt: nat) returns (r: Option<Final>)
    requires attempt <= MAX_REPAIRS
    ensures r == Judge(q, c, attempt)
  {
    if !c.allowed {
      return if attempt >= MAX_REPAIRS then Some(Failed(GuardBlocked)) else None;
    }
    if c.literalOnly { return Some(Failed(BadOutput)); }
    if c.unknownTable {
      return if attempt >= MAX_REPAIRS then Some(Failed(BadOutput)) else None;
    }
    if c.ambiguous && attempt < MAX_REPAIRS { return None; }
    if c.ungrouped && attempt < MAX_REPAIRS { return None; }
    if c.nested && attempt < MAX_REPAIRS { return None; }
    var notes: set<Note> := {};
    if c.fanOut && attempt >= MAX_REPAIRS { notes := notes + {FanOutNote}; }
    if c.fanOut && attempt < MAX_REPAIRS { return None; }
    if c.epoch && attempt >= MAX_REPAIRS { notes := notes + {EpochNote}; }
    if c.epoch && attempt < MAX_REPAIRS { return None; }
    if c.unknownColumn {
      return if attempt >= MAX_REPAIRS then Some(Failed(BadOutput)) else None;
    }
    if c.impossibleCode && attempt < MAX_REPAIRS && q.allowDataInPrompt { return None; }
    if c.impossibleCode { notes := notes + {ImpossibleNote}; }
    assert notes == Notes(c, attempt);
    r := Some(Answer(c, attempt, notes));
  }

  lemma AskUnfold(q: Ask, i: nat, l: Loop)
    requires l.attempt <= MAX_REPAIRS
    ensures var d := Decide(q, i, l);
            if d.Stop? then AskFrom(q, i, l) == (d.final, i + 1)
            else d.next.attempt <= MAX_REPAIRS && AskFrom(q, i, l) == AskFrom(q, i + 1, d.next)
  {
    AgainCosts(q, i, l);
  }

  method RunAsk(q: Ask) returns (r: Final, calls: nat)
    ensures (r, calls) == Asked(q)
    ensures 1 <= calls <= 6
    ensures r.Answer? ==> r.repairs <= MAX_REPAIRS && Sound(q, r.checked, r.repairs) && Disclosed(r.checked, r.notes)
  {
    hide Sound, Disclosed, LastRead, CallFrom, Judge, Blank, AskFrom;
    AskBounded(q);
    calls := 0;
    var attempt: nat := 0;
    var contextShrunk, triedMetadata, triedFuzzy, allEmpty := false, false, false, true;
    while true
      invariant attempt <= MAX_REPAIRS
      invariant AskFrom(q, calls, Loop(attempt, contextShrunk, triedMetadata, triedFuzzy, allEmpty)) == Asked(q)
      decreases MAX_REPAIRS - attempt, Refunds(Loop(attempt, contextShrunk, triedMetadata, triedFuzzy, allEmpty))
    {
      AskUnfold(q, calls, Loop(attempt, contextShrunk, triedMetadata, triedFuzzy, allEmpty));
      var called, _ := CallModel(q.provider(calls), q.maxRetries);
      calls := calls + 1;
      if called.Error? {
        if called.code == ContextOverflow && !contextShrunk {
          contextShrunk := true;
          continue;
        }
        return Failed(called.code), calls;
      }
      var reading := q.read(called.text);
      allEmpty := allEmpty && Blank(reading);
      match reading
      case Impossible(_) =>
        if q.metadataQuestion && !triedMetadata {
          triedMetadata := true;
        } else if q.nearTable && !triedFuzzy {
          triedFuzzy := true;
        } else {
          return Failed(BadOutput), calls;
        }
      case NoSql(_, refusal) =>
        if attempt >= MAX_REPAIRS {
          return if allEmpty then Silent else Failed(if refusal then Refusal else BadOutput), calls;
        }
        attempt := attempt + 1;
      case Statement(c) =>
        var verdict := Examine(q, c, attempt);
        if verdict.Some? { return verdict.value, calls; }
        attempt := attempt + 1;
    }
  }
}
