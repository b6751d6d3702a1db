/**
 * What the chat hook shows and runs, told from the events alone: which event licenses a query, with
 * which SQL, and where everything a turn shows comes from.
 */
module AskHistory {
  import opened Text
  import opened AskGate

  // ----- runs from the start -----

  ghost function After(es: seq<Event>): State { RunAll(INITIAL, es) }

  lemma {:induction false} RunSnoc(s: State, es: seq<Event>, e: Event)
    ensures RunAll(s, es + [e]) == Step(RunAll(s, es), e)
    decreases |es|
  {
    hide Step;
    if es == [] {
      assert es + [e] == [e] && [e][1..] == [];
      assert RunAll(Step(s, e), []) == Step(s, e);
    } else {
      assert (es + [e])[0] == es[0] && (es + [e])[1..] == es[1..] + [e];
      RunSnoc(Step(s, es[0]), es[1..], e);
    }
  }

  lemma AfterNext(es: seq<Event>, e: Event)
    ensures After(es + [e]) == Step(After(es), e) && (es + [e])[..|es|] == es
  {
    hide Step, RunAll;
    RunSnoc(INITIAL, es, e);
  }

  lemma AfterInv(es: seq<Event>)
    ensures Inv(After(es))
  {
    hide Inv;
    InitialInv();
    RunKeepsInv(INITIAL, es);
  }

  // ----- calls, by their events -----

  /** An `ask` that is not turned away. */
  ghost predicate Accepted(s: State, e: Event) { e.Ask? && TrimSpace(e.question) != "" && s.inFlight.None? }

  /** The event that asked call `k`. */
  ghost function AskOf(es: seq<Event>, k: nat): (i: Option<nat>)
    ensures i.Some? ==> i.value < |es| && es[i.value].Ask?
  {
    if es == [] then None
    else
      var n := |es| - 1;
      if Accepted(After(es[..n]), es[n]) && k == |After(es[..n]).tasks| then Some(n) else AskOf(es[..n], k)
  }

  /** The SQL streamed last to call `k` since it was asked. */
  ghost function Streamed(es: seq<Event>, k: nat): string {
    if es == [] then ""
    else
      var n := |es| - 1;
      if Accepted(After(es[..n]), es[n]) && k == |After(es[..n]).tasks| then ""
      else match es[n]
        case Stream(j, SqlEvent(sql)) => if j == k then sql else Streamed(es[..n], k)
        case _ => Streamed(es[..n], k)
  }

  lemma AskOfNext(es: seq<Event>, e: Event, k: nat)
    ensures AskOf(es + [e], k) == if Accepted(After(es), e) && k == |After(es).tasks| then Some(|es|) else AskOf(es, k)
  {
    AfterNext(es, e);
    hide After, Accepted;
  }

  lemma StreamedNext(es: seq<Event>, e: Event, k: nat)
    ensures Streamed(es + [e], k) ==
              if Accepted(After(es), e) && k == |After(es).tasks| then ""
              else if e.Stream? && e.ev.SqlEvent? && e.k == k then e.ev.sql
              else Streamed(es, k)
  {
    AfterNext(es, e);
    hide After, Accepted;
  }

  /** A chatting call is one that was asked, with its options, its turn and the SQL streamed to it. */
  ghost predicate Known(es: seq<Event>, s: State, k: nat)
    requires k < |s.tasks|
  {
    var a, i := s.tasks[k], AskOf(es, k);
    && i.Some? && a.opts == es[i.value].opts && a.turn == After(es[..i.value]).nextTurn
    && (a.mode == Asking ==> a.sql == Streamed(es, k))
  }

  ghost predicate KnownCalls(es: seq<Event>) {
    forall k :: 0 <= k < |After(es).tasks| && After(es).tasks[k].Chatting() ==> Known(es, After(es), k)
  }

  /** What a step leaves of a chatting call. */
  ghost predicate SameCall(e: Event, k: nat, a: Task, b: Task) {
    b.Chatting() ==>
      && a.Chatting() && b.opts == a.opts && b.turn == a.turn
      && (b.mode == Asking ==>
            a.mode == Asking && b.sql == if e.Stream? && e.ev.SqlEvent? && e.k == k then e.ev.sql else a.sql)
  }

  lemma AfterStreamCall(s: State, k: nat, a: Task)
    requires k < |s.tasks|
    ensures var t := AfterStream(s, k, a);
            |t.tasks| == |s.tasks| && (forall j :: 0 <= j < |s.tasks| && j != k ==> t.tasks[j] == s.tasks[j])
            && (t.tasks[k].Chatting() ==> t.tasks[k] == a.(mode := Answering))
  {
    hide Patch;
  }

  lemma StreamCalls(s: State, e: Event)
    requires e.StreamEnd? || e.StreamThrow?
    ensures var t := Step(s, e);
            |t.tasks| == |s.tasks| && forall j :: 0 <= j < |s.tasks| ==> SameCall(e, j, s.tasks[j], t.tasks[j])
  {
    hide AfterStream, Patch, AskFailure;
    var k := e.k;
    if TaskOf(s, k).mode == Asking {
      var a := s.tasks[k];
      var b := if e.StreamThrow? then a.(code := e.thrown.code, settled := true, flow := a.flow.(timer := false))
               else a.(flow := a.flow.(timer := false));
      AfterStreamCall(s, k, a);
      AfterStreamCall(Patched(s, a.turn, AskHalted), k, b);
      AfterStreamCall(Patched(s, a.turn, AskFailed(EARLY_END)), k, b);
      if e.StreamThrow? {
        AfterStreamCall(Patched(s, a.turn, AskFailed(AskFailure(e.thrown))), k, b.(error := Some(AskFailure(e.thrown))));
      }
    }
  }

  lemma TaskCalls(s: State, e: Event)
    requires TaskEvent(e)
    ensures var t := Step(s, e);
            |t.tasks| == |s.tasks| && forall j :: 0 <= j < |s.tasks| ==> SameCall(e, j, s.tasks[j], t.tasks[j])
  {
    if e.StreamEnd? || e.StreamThrow? {
      StreamCalls(s, e);
    } else if e.Stream? {
      EventCalls(s, e);
    } else if e.Tick? {
      TickCalls(s, e);
    } else {
      SettleCalls(s, e);
    }
    hide Step, SameCall;
  }

  lemma EventCalls(s: State, e: Event)
    requires e.Stream?
    ensures var t := Step(s, e);
            |t.tasks| == |s.tasks| && forall j :: 0 <= j < |s.tasks| ==> SameCall(e, j, s.tasks[j], t.tasks[j])
  {
    hide Patch, AskFailure, Last;
  }

  lemma TickCalls(s: State, e: Event)
    requires e.Tick?
    ensures var t := Step(s, e);
            |t.tasks| == |s.tasks| && forall j :: 0 <= j < |s.tasks| ==> SameCall(e, j, s.tasks[j], t.tasks[j])
  {
    hide Patch;
  }

  predicate Over(s: State, t: State, k: nat) {
    k < |s.tasks| && (t.tasks == s.tasks[k := NO_TASK] || t.tasks == s.tasks[k := NO_TASK.(mode := Unwinding)])
  }

  lemma FallbackOver(s: State, k: nat, a: Task, u: Update)
    requires k < |s.tasks|
    ensures Over(s, FallbackStep(s, k, a, u), k)
  {
    hide Patch;
  }

  lemma ExecuteOver(s: State, k: nat, a: Task, u: Update)
    requires k < |s.tasks|
    ensures Over(s, ExecuteStep(s, k, a, u), k)
  {
    hide Patch;
  }

  /** A call that comes to its end chats no more. */
  lemma ChatOver(s: State, e: Event)
    requires e.Explained? || e.ExplainFailed? || e.Executed? || e.ExecuteFailed? || e.Resume?
    ensures Step(s, e) == s || Over(s, Step(s, e), e.k)
  {
    var k := e.k;
    if k < |s.tasks| {
      forall u ensures Over(s, FallbackStep(s, k, s.tasks[k], u), k) { FallbackOver(s, k, s.tasks[k], u); }
      forall u ensures Over(s, ExecuteStep(s, k, s.tasks[k], u), k) { ExecuteOver(s, k, s.tasks[k], u); }
    }
    hide FallbackStep, ExecuteStep;
  }

  lemma SettleCalls(s: State, e: Event)
    requires e.Explained? || e.ExplainFailed? || e.Executed? || e.ExecuteFailed? || e.Resume?
    ensures var t := Step(s, e);
            |t.tasks| == |s.tasks| && forall j :: 0 <= j < |s.tasks| ==> SameCall(e, j, s.tasks[j], t.tasks[j])
  {
    ChatOver(s, e);
    hide Step;
  }

  /** Only an accepted `ask` adds a chatting call. */
  lemma UserCalls(s: State, e: Event)
    requires !TaskEvent(e)
    ensures var t := Step(s, e);
            && |t.tasks| >= |s.tasks| && (forall j :: 0 <= j < |s.tasks| ==> t.tasks[j] == s.tasks[j])
            && (forall j :: |s.tasks| <= j < |t.tasks| && t.tasks[j].Chatting() ==> Accepted(s, e))
            && (Accepted(s, e) ==>
                  |t.tasks| == |s.tasks| + 1
                  && var a := t.tasks[|s.tasks|]; a.mode == Asking && a.opts == e.opts && a.turn == s.nextTurn && a.sql == "")
  {
    hide TrimSpace, Patch, TrimTranscript;
  }

  lemma KnownNext(es: seq<Event>, e: Event)
    requires KnownCalls(es)
    ensures KnownCalls(es + [e])
  {
    var s, t, fs := After(es), After(es + [e]), es + [e];
    AfterNext(es, e);
    if TaskEvent(e) { TaskCalls(s, e); } else { UserCalls(s, e); }
    hide Step, After;
    forall k | 0 <= k < |t.tasks| && t.tasks[k].Chatting() ensures Known(fs, t, k) {
      AskOfNext(es, e, k);
      StreamedNext(es, e, k);
      if k < |s.tasks| {
        assert Known(es, s, k);
        assert fs[..AskOf(es, k).value] == es[..AskOf(es, k).value];
      }
    }
  }

  lemma {:induction false} AllKnown(es: seq<Event>)
    ensures KnownCalls(es)
    decreases |es|
  {
    hide KnownCalls;
    if es == [] { assert KnownCalls([]) by { NoneKnown(); } } else {
      var n := |es| - 1;
      AllKnown(es[..n]);
      KnownNext(es[..n], es[n]);
      assert es[..n] + [es[n]] == es;
    }
  }

  lemma NoneKnown()
    ensures KnownCalls([])
  {}

  // ----- queries -----

  /** Call `k` waits on its stream and nothing has superseded it. */
  predicate Live(s: State, k: nat) { TaskOf(s, k).mode == Asking && s.inFlight == Some(k) }

  lemma LiveIsUnaborted(s: State, k: nat)
    requires Inv(s) && TaskOf(s, k).mode == Asking
    ensures Live(s, k) <==> !Aborted(s, TaskOf(s, k).ctrl)
  {
    assert TaskOk(s, k);
  }

  /** The query an event starts after `es`, if any: from the events and who holds the gate. */
  ghost function Started(es: seq<Event>, e: Event): seq<Execute> {
    var s := After(es);
    match e
    case Run(turn, sql) => if s.inFlight.None? && sql != "" then [Execute(|s.tasks|, turn, sql)] else []
    case EditSql(turn, sql, opts) => if s.inFlight.None? && !opts.requireApproval then [Execute(|s.tasks|, turn, sql)] else []
    case StreamEnd(k) => AutoRun(es, k)
    case StreamThrow(k, _) => AutoRun(es, k)
    case _ => []
  }

  /** A live ask made without approval runs the SQL streamed to it last, for its own turn. */
  ghost function AutoRun(es: seq<Event>, k: nat): seq<Execute> {
    var i := AskOf(es, k);
    if Live(After(es), k) && i.Some? && !es[i.value].opts.requireApproval && Streamed(es, k) != ""
    then [Execute(k, After(es[..i.value]).nextTurn, Streamed(es, k))] else []
  }

  lemma AfterStreamRuns(s: State, k: nat, a: Task)
    requires k < |s.tasks|
    ensures AfterStream(s, k, a).executes ==
              s.executes + if a.sql != "" && !a.opts.requireApproval && !Aborted(s, a.ctrl) then [Execute(k, a.turn, a.sql)] else []
  {
    hide Patch;
  }

  lemma StreamRuns(s: State, e: Event)
    requires e.StreamEnd? || e.StreamThrow?
    ensures var a := TaskOf(s, e.k);
            Step(s, e).executes ==
              s.executes + if a.mode == Asking && a.sql != "" && !a.opts.requireApproval && !Aborted(s, a.ctrl)
                           then [Execute(e.k, a.turn, a.sql)] else []
  {
    hide AfterStream, Patch, AskFailure;
    var k := e.k;
    if TaskOf(s, k).mode == Asking {
      var a := s.tasks[k];
      var b := if e.StreamThrow? then a.(code := e.thrown.code, settled := true, flow := a.flow.(timer := false))
               else a.(flow := a.flow.(timer := false));
      AfterStreamRuns(s, k, a);
      AfterStreamRuns(Patched(s, a.turn, AskHalted), k, b);
      AfterStreamRuns(Patched(s, a.turn, AskFailed(EARLY_END)), k, b);
      if e.StreamThrow? {
        AfterStreamRuns(Patched(s, a.turn, AskFailed(AskFailure(e.thrown))), k, b.(error := Some(AskFailure(e.thrown))));
      }
    }
  }

  lemma OtherRuns(s: State, e: Event)
    requires !e.StreamEnd? && !e.StreamThrow? && !e.Run? && !e.EditSql?
    ensures Step(s, e).executes == s.executes
  {
    hide Patch, Last, AskFailure, TrimTranscript, TrimSpace;
  }

  /** Every step starts exactly the query its event licenses, and logs it. */
  lemma QueriesExactly(es: seq<Event>, e: Event)
    ensures After(es + [e]).executes == After(es).executes + Started(es, e)
  {
    hide Inv, KnownCalls;
    var s := After(es);
    AfterNext(es, e);
    AfterInv(es);
    AllKnown(es);
    hide After, Patch;
    if e.StreamEnd? || e.StreamThrow? {
      StreamRuns(s, e);
      hide Step;
      if TaskOf(s, e.k).mode == Asking {
        LiveIsUnaborted(s, e.k);
        AskedIsKnown(es, e.k);
      }
    } else if !e.Run? && !e.EditSql? {
      OtherRuns(s, e);
    }
  }

  lemma AskedIsKnown(es: seq<Event>, k: nat)
    requires KnownCalls(es) && TaskOf(After(es), k).mode == Asking
    ensures Known(es, After(es), k)
  {
    hide After, Known;
  }

  /**
   * What may start query `x` as event `e` after `es`: a click on Run, with that very turn and SQL; an
   * edit made without approval; or the end of the stream of an ask made without approval, to which
   * that SQL was streamed last.
   */
  ghost predicate Licensed(es: seq<Event>, e: Event, x: Execute) {
    || e == Run(x.turn, x.sql)
    || (e.EditSql? && e == EditSql(x.turn, x.sql, e.opts) && !e.opts.requireApproval)
    || ((e.StreamEnd? || e.StreamThrow?) && e.k == x.task
        && var i := AskOf(es, x.task);
           && i.Some? && !es[i.value].opts.requireApproval && x.turn == After(es[..i.value]).nextTurn
           && x.sql == Streamed(es, x.task) != "")
  }

  lemma StartedIsLicensed(es: seq<Event>, e: Event)
    ensures |Started(es, e)| <= 1 && (Started(es, e) != [] ==> Licensed(es, e, Started(es, e)[0]))
  {
    hide After, AskOf, Streamed;
  }

  /** Every query of a run was started by an event that licenses it. */
  lemma {:induction false} EveryQueryLicensed(es: seq<Event>, j: nat) returns (i: nat)
    requires j < |After(es).executes|
    ensures i < |es| && Licensed(es[..i], es[i], After(es).executes[j])
    decreases |es|
  {
    hide After, Licensed, Started;
    if es == [] {
      NothingYet();
    } else {
      var n := |es| - 1;
      var front := es[..n];
      assert front + [es[n]] == es;
      QueriesExactly(front, es[n]);
      if j < |After(front).executes| {
        i := EveryQueryLicensed(front, j);
        assert front[..i] == es[..i];
      } else {
        StartedIsLicensed(front, es[n]);
        i := n;
      }
    }
  }

  lemma NothingYet()
    ensures After([]).executes == []
  {}

  /** Every ask and edit is made with approval required. */
  ghost predicate ApprovalOn(es: seq<Event>) {
    forall i :: 0 <= i < |es| ==> (es[i].Ask? || es[i].EditSql? ==> es[i].opts.requireApproval)
  }

  /** With approval on, nothing is run but what the user clicked Run on. */
  lemma OnlyApproved(es: seq<Event>, j: nat) returns (i: nat)
    requires ApprovalOn(es) && j < |After(es).executes|
    ensures i < |es| && var x := After(es).executes[j]; es[i] == Run(x.turn, x.sql)
  {
    hide After;
    i := EveryQueryLicensed(es, j);
    var front := es[..i];
    assert forall m :: 0 <= m < |front| ==> front[m] == es[m];
  }

  // ----- what a turn shows -----

  /** The turn an event is about: that of its call, or the one it names. */
  predicate About(s: State, e: Event, id: nat) {
    match e
    case Run(turn, _) => turn == id
    case EditSql(turn, _, _) => turn == id
    case Ask(_, _) => false
    case Cancel => false
    case Reset => false
    case _ => TaskOf(s, e.k).turn == id
  }

  /** A turn that begins to run its query. */
  function Running(t: Turn): Turn { t.(phase := Phase.Running, error := None, suggestedSql := None) }

  /** A turn whose stream ended with neither SQL nor an error, or was stopped. */
  function Unfinished(t: Turn, stopped: bool): Turn {
    t.(phase := if stopped then Stopped else Failed, streamText := None,
       error := if stopped then None
                else Some(Failure("LLM_UNAVAILABLE", "The response ended before an answer arrived.", true)))
  }

  /** What becomes of the turn once its stream is over. */
  function StreamOver(s: State, a: Task, code: Option<string>, t: Turn): Turn {
    if Aborted(s, a.ctrl) then t
    else if a.sql != "" then (if a.opts.requireApproval then t else Running(t))
    else if a.opts.answerSchemaQuestions && (code == Some("LLM_BAD_OUTPUT") || code == Some("LLM_REFUSAL"))
    then t.(phase := Thinking, stage := Some("schema_answer"), error := None)
    else t
  }

  function Message(o: Option<string>, d: string): string { if o.Some? then o.value else d }

  /** The failure an ask reports, with the texts it falls back to. */
  function Reported(e: Thrown): Failure {
    Failure(Message(e.code, "LLM_UNAVAILABLE"), Message(e.userMessage, "Something went wrong."), e.retryable)
  }

  /** The turn an event is about, afterwards. */
  function Told(s: State, e: Event, t: Turn): Turn {
    var a := TaskOf(s, if TaskEvent(e) then e.k else 0);
    match e
    case Stream(_, StageEvent(stage)) => if a.mode == Asking then t.(stage := Some(stage)) else t
    case Stream(_, TokenEvent(_)) => t
    case Stream(_, SqlEvent(sql)) => if a.mode == Asking then t.(phase := SqlReady, sql := sql, streamText := None) else t
    case Stream(_, ErrorEvent(thrown)) =>
      if a.mode == Asking then t.(phase := Failed, error := Some(Reported(thrown)), streamText := None) else t
    case Stream(_, DoneEvent) => t
    case StreamEnd(_) =>
      if a.mode == Asking then StreamOver(s, a, a.code, if a.settled then t else Unfinished(t, Aborted(s, a.ctrl))) else t
    case StreamThrow(_, thrown) =>
      if a.mode != Asking then t
      else if thrown.abortError || Aborted(s, a.ctrl)
      then StreamOver(s, a, thrown.code, t.(phase := Stopped, error := None, streamText := None))
      else StreamOver(s, a, thrown.code, t.(phase := Failed, error := Some(Reported(thrown)), streamText := None))
    case Tick(_) =>
      if a.Chatting() && a.flow.timer && s.abort == Some(a.ctrl) && !Aborted(s, a.ctrl) && a.flow.text != a.flow.flushed
      then t.(streamText := Some(a.flow.text)) else t
    case Explained(_, answer, proposed) =>
      if a.mode == Answering
      then t.(phase := Done, error := None, answer := Some(answer), sql := if proposed != "" then proposed else t.sql) else t
    case ExplainFailed(_) =>
      if a.mode != Answering then t
      else if Aborted(s, a.ctrl) then t.(phase := Stopped, error := None) else t.(phase := Failed, error := a.error)
    case Executed(_, rows) => if a.mode == Executing then t.(phase := Done, rows := Some(rows)) else t
    case ExecuteFailed(_, thrown, message, suggested) =>
      if a.mode != Executing then t
      else if thrown.abortError || Aborted(s, a.ctrl) then t.(phase := Stopped, error := None)
      else t.(phase := Failed, suggestedSql := suggested,
              error := Some(Failure(Message(thrown.code, "DB_QUERY_ERROR"), message, thrown.retryable)))
    case Run(_, sql) => if s.inFlight.None? && sql != "" then Running(t) else t
    case EditSql(_, sql, opts) =>
      var u := t.(sql := sql, phase := SqlReady, rows := None, error := None, suggestedSql := None);
      if s.inFlight.None? && !opts.requireApproval then Running(u) else u
    case _ => t
  }

  lemma AfterStreamTurns(s: State, k: nat, a: Task, i: nat)
    requires k < |s.tasks| && i < |s.turns|
    ensures var t := AfterStream(s, k, a);
            |t.turns| == |s.turns|
            && t.turns[i] == if s.turns[i].id == a.turn then StreamOver(s, a, a.code, s.turns[i]) else s.turns[i]
  {}

  lemma StreamEndTurns(s: State, k: nat, i: nat)
    requires TaskOf(s, k).mode == Asking && i < |s.turns|
    ensures var t, e := Step(s, StreamEnd(k)), StreamEnd(k);
            |t.turns| == |s.turns|
            && t.turns[i] == if About(s, e, s.turns[i].id) then Told(s, e, s.turns[i]) else s.turns[i]
  {
    hide AfterStream;
    var a := s.tasks[k];
    var b := a.(flow := a.flow.(timer := false));
    if a.settled { AfterStreamTurns(s, k, a, i); }
    else if Aborted(s, a.ctrl) { AfterStreamTurns(Patched(s, a.turn, AskHalted), k, b, i); }
    else { AfterStreamTurns(Patched(s, a.turn, AskFailed(EARLY_END)), k, b, i); }
  }

  lemma StreamThrowTurns(s: State, k: nat, thrown: Thrown, i: nat)
    requires TaskOf(s, k).mode == Asking && i < |s.turns|
    ensures var t, e := Step(s, StreamThrow(k, thrown)), StreamThrow(k, thrown);
            |t.turns| == |s.turns|
            && t.turns[i] == if About(s, e, s.turns[i].id) then Told(s, e, s.turns[i]) else s.turns[i]
  {
    hide AfterStream;
    var a := s.tasks[k];
    var b := a.(code := thrown.code, settled := true, flow := a.flow.(timer := false));
    if thrown.abortError || Aborted(s, a.ctrl) { AfterStreamTurns(Patched(s, a.turn, AskHalted), k, b, i); }
    else { AfterStreamTurns(Patched(s, a.turn, AskFailed(AskFailure(thrown))), k, b.(error := Some(AskFailure(thrown))), i); }
  }

  lemma StreamTurns(s: State, e: Event, i: nat)
    requires (e.StreamEnd? || e.StreamThrow?) && i < |s.turns|
    ensures var t := Step(s, e);
            |t.turns| == |s.turns|
            && t.turns[i] == if About(s, e, s.turns[i].id) then Told(s, e, s.turns[i]) else s.turns[i]
  {
    if TaskOf(s, e.k).mode == Asking {
      hide Step, Told, About;
      match e
      case StreamEnd(k) => StreamEndTurns(s, k, i);
      case StreamThrow(k, thrown) => StreamThrowTurns(s, k, thrown, i);
    }
  }

  /** Every event changes the turn it is about as told, and no other; only `ask` and `reset` add or remove turns. */
  lemma TurnsFollow(s: State, e: Event, i: nat)
    requires !e.Ask? && !e.Reset? && i < |s.turns|
    ensures var t := Step(s, e);
            |t.turns| == |s.turns|
            && t.turns[i] == if About(s, e, s.turns[i].id) then Told(s, e, s.turns[i]) else s.turns[i]
  {
    if e.StreamEnd? || e.StreamThrow? {
      StreamTurns(s, e, i);
    } else if e.Stream? || e.Tick? {
      TailTurns(s, e, i);
    } else if TaskEvent(e) {
      SettledTurns(s, e, i);
    } else {
      hide AskStep;
    }
  }

  lemma EventTurns(s: State, k: nat, ev: ChatEvent, i: nat)
    requires i < |s.turns|
    ensures var e := Stream(k, ev);
            var t := Step(s, e);
            |t.turns| == |s.turns|
            && t.turns[i] == if About(s, e, s.turns[i].id) then Told(s, e, s.turns[i]) else s.turns[i]
  {
    hide Last, Patch;
    forall u ensures PatchIs(s.turns, TaskOf(s, k).turn, u, i) { PatchAt(s.turns, TaskOf(s, k).turn, u, i); }
  }

  lemma TickTurns(s: State, k: nat, i: nat)
    requires i < |s.turns|
    ensures var t := Step(s, Tick(k));
            |t.turns| == |s.turns|
            && t.turns[i] == if About(s, Tick(k), s.turns[i].id) then Told(s, Tick(k), s.turns[i]) else s.turns[i]
  {
    hide Last, Patch;
    forall u ensures PatchIs(s.turns, TaskOf(s, k).turn, u, i) { PatchAt(s.turns, TaskOf(s, k).turn, u, i); }
  }

  lemma TailTurns(s: State, e: Event, i: nat)
    requires (e.Stream? || e.Tick?) && i < |s.turns|
    ensures var t := Step(s, e);
            |t.turns| == |s.turns|
            && t.turns[i] == if About(s, e, s.turns[i].id) then Told(s, e, s.turns[i]) else s.turns[i]
  {
    if e.Stream? { EventTurns(s, e.k, e.ev, i); } else { TickTurns(s, e.k, i); }
    hide Step, About, Told;
  }

  ghost predicate PatchIs(ts: seq<Turn>, id: nat, u: Update, i: nat)
    requires i < |ts|
  {
    |Patch(ts, id, u)| == |ts| && Patch(ts, id, u)[i] == if ts[i].id == id then Apply(ts[i], u) else ts[i]
  }

  lemma PatchAt(ts: seq<Turn>, id: nat, u: Update, i: nat)
    requires i < |ts|
    ensures PatchIs(ts, id, u, i)
  {}

  lemma FallbackTurns(s: State, k: nat, u: Update, i: nat)
    requires k < |s.tasks| && i < |s.turns|
    ensures var t := FallbackStep(s, k, s.tasks[k], u);
            |t.turns| == |s.turns| && t.turns[i] == if s.turns[i].id == s.tasks[k].turn then Apply(s.turns[i], u) else s.turns[i]
  {}

  lemma ExecuteTurns(s: State, k: nat, u: Update, i: nat)
    requires k < |s.tasks| && i < |s.turns|
    ensures var t := ExecuteStep(s, k, s.tasks[k], u);
            |t.turns| == |s.turns| && t.turns[i] == if s.turns[i].id == s.tasks[k].turn then Apply(s.turns[i], u) else s.turns[i]
  {}

  lemma ExplainedTurns(s: State, e: Event, i: nat)
    requires (e.Explained? || e.ExplainFailed?) && i < |s.turns|
    ensures var t := Step(s, e);
            |t.turns| == |s.turns|
            && t.turns[i] == if About(s, e, s.turns[i].id) then Told(s, e, s.turns[i]) else s.turns[i]
  {
    hide FallbackStep;
    if e.k < |s.tasks| {
      var k, a := e.k, s.tasks[e.k];
      if e.Explained? {
        FallbackTurns(s, k, Answered(e.answer, e.proposed), i);
      } else {
        FallbackTurns(s, k, if Aborted(s, a.ctrl) then Halt else FallbackFailed(a.error), i);
      }
    }
  }

  lemma ExecutedTurns(s: State, e: Event, i: nat)
    requires (e.Executed? || e.ExecuteFailed?) && i < |s.turns|
    ensures var t := Step(s, e);
            |t.turns| == |s.turns|
            && t.turns[i] == if About(s, e, s.turns[i].id) then Told(s, e, s.turns[i]) else s.turns[i]
  {
    hide ExecuteStep;
    if e.k < |s.tasks| {
      var k := e.k;
      if e.Executed? {
        ExecuteTurns(s, k, RunDone(e.rows), i);
      } else {
        ExecuteTurns(s, k, Halt, i);
        ExecuteTurns(s, k, RunFailed(Failure(Or(e.thrown.code, "DB_QUERY_ERROR"), e.message, e.thrown.retryable), e.suggested), i);
      }
    }
  }

  lemma SettledTurns(s: State, e: Event, i: nat)
    requires (e.Explained? || e.ExplainFailed? || e.Executed? || e.ExecuteFailed? || e.Resume?) && i < |s.turns|
    ensures var t := Step(s, e);
            |t.turns| == |s.turns|
            && t.turns[i] == if About(s, e, s.turns[i].id) then Told(s, e, s.turns[i]) else s.turns[i]
  {
    if e.Explained? || e.ExplainFailed? { ExplainedTurns(s, e, i); }
    else if e.Executed? || e.ExecuteFailed? { ExecutedTurns(s, e, i); }
    hide FallbackStep, ExecuteStep;
  }

  /** An accepted question stands last, thinking, under the next number; of the others the last 199 stay. */
  lemma AskShows(s: State, e: Event)
    requires Accepted(s, e)
    ensures var t := Step(s, e);
            var n := if |s.turns| >= MAX_TURNS then MAX_TURNS - 1 else |s.turns|;
            && |t.turns| == n + 1 && t.nextTurn == s.nextTurn + 1
            && t.turns[n] == Turn(s.nextTurn, TrimSpace(e.question), Thinking, None, "", None, None, None, None, None)
            && (forall i :: 0 <= i < n ==> t.turns[i].(rows := None) == s.turns[|s.turns| - n + i].(rows := None))
            && (forall i :: 0 <= i < n ==>
                  t.turns[i].rows == s.turns[|s.turns| - n + i].rows
                  || (i < n + 1 - MAX_TURNS_WITH_ROWS && t.turns[i].rows == Some([])))
  {
    hide TrimSpace, TrimTranscript;
    assert |s.turns + [Turn(s.nextTurn, TrimSpace(e.question), Thinking, None, "", None, None, None, None, None)]| == |s.turns| + 1;
  }

  lemma QuietSteps(s: State, e: Event)
    requires (e.Ask? && !Accepted(s, e)) || e.Reset?
    ensures Step(s, e).turns == if e.Reset? then [] else s.turns
  {}

  // ----- where it comes from -----

  /** Event `e` in state `s` gives turn `id` this SQL: streamed, edited or proposed. */
  ghost predicate GivesSql(s: State, e: Event, id: nat, sql: string) {
    || (e.Stream? && e.ev == SqlEvent(sql) && TaskOf(s, e.k).mode == Asking && TaskOf(s, e.k).turn == id)
    || (e.EditSql? && e.turn == id && e.sql == sql)
    || (e.Explained? && e.proposed == sql && TaskOf(s, e.k).mode == Answering && TaskOf(s, e.k).turn == id)
  }

  /** Event `e` brings the rows of a query that was started for turn `id`. */
  ghost predicate GivesRows(s: State, e: Event, id: nat, rows: seq<string>) {
    && e.Executed? && e.rows == rows && TaskOf(s, e.k).mode == Executing && TaskOf(s, e.k).turn == id
    && exists j :: 0 <= j < |s.executes| && s.executes[j].task == e.k && s.executes[j].turn == id
  }

  ghost predicate Logged(s: State, k: nat) {
    exists j :: 0 <= j < |s.executes| && s.executes[j].task == k && s.executes[j].turn == TaskOf(s, k).turn
  }

  /** A query under way is in the log, for its turn. */
  ghost predicate LogInv(s: State) { forall k :: 0 <= k < |s.tasks| && s.tasks[k].mode == Executing ==> Logged(s, k) }

  /** Call `k` of `t` runs the query logged last, or ran it before. */
  ghost predicate Runs(s: State, t: State, k: nat) {
    TaskOf(t, k).mode == Executing ==>
      || (TaskOf(s, k).mode == Executing && TaskOf(t, k).turn == TaskOf(s, k).turn)
      || (t.executes != [] && var x := t.executes[|t.executes| - 1]; x.task == k && x.turn == TaskOf(t, k).turn)
  }

  lemma AfterStreamLogs(s: State, k: nat, a: Task, j: nat)
    requires k < |s.tasks|
    ensures Runs(s, AfterStream(s, k, a), j)
  {
    hide Patch;
  }

  lemma StreamLogs(s: State, e: Event, j: nat)
    requires e.StreamEnd? || e.StreamThrow?
    ensures Runs(s, Step(s, e), j)
  {
    hide AfterStream, Patch, AskFailure;
    var k := e.k;
    if TaskOf(s, k).mode == Asking {
      var a := s.tasks[k];
      var b := if e.StreamThrow? then a.(code := e.thrown.code, settled := true, flow := a.flow.(timer := false))
               else a.(flow := a.flow.(timer := false));
      AfterStreamLogs(s, k, a, j);
      AfterStreamLogs(Patched(s, a.turn, AskHalted), k, b, j);
      AfterStreamLogs(Patched(s, a.turn, AskFailed(EARLY_END)), k, b, j);
      if e.StreamThrow? {
        AfterStreamLogs(Patched(s, a.turn, AskFailed(AskFailure(e.thrown))), k, b.(error := Some(AskFailure(e.thrown))), j);
      }
    }
  }

  lemma FlowLogs(s: State, e: Event, j: nat)
    requires e.Stream? || e.Tick?
    ensures Runs(s, Step(s, e), j)
  {
    hide Patch, AskFailure, Last;
  }

  lemma SettleLogs(s: State, e: Event, j: nat)
    requires e.Explained? || e.ExplainFailed? || e.Executed? || e.ExecuteFailed? || e.Resume?
    ensures Runs(s, Step(s, e), j)
  {
    hide Patch, Apply;
  }

  /** A call runs a query only as the one just logged. */
  lemma StepLogs(s: State, e: Event, j: nat)
    ensures Runs(s, Step(s, e), j)
  {
    if e.StreamEnd? || e.StreamThrow? {
      StreamLogs(s, e, j);
    } else if e.Stream? || e.Tick? {
      FlowLogs(s, e, j);
    } else if TaskEvent(e) {
      SettleLogs(s, e, j);
    } else {
      hide Patch, TrimSpace, TrimTranscript;
    }
  }

  lemma LogGrows(s: State, e: Event)
    requires Inv(s)
    ensures s.executes <= Step(s, e).executes
  {
    hide Inv;
    if e.StreamEnd? || e.StreamThrow? {
      StreamRuns(s, e);
      hide Step;
    } else if !e.Run? && !e.EditSql? {
      OtherRuns(s, e);
      hide Step;
    } else {
      hide Patch;
    }
  }

  lemma StepKeepsLog(s: State, e: Event)
    requires Inv(s) && LogInv(s)
    ensures LogInv(Step(s, e))
  {
    var t := Step(s, e);
    LogGrows(s, e);
    hide Inv;
    forall k | 0 <= k < |t.tasks| && t.tasks[k].mode == Executing ensures Logged(t, k) {
      StepLogs(s, e, k);
      hide Step;
      if k < |s.tasks| && s.tasks[k].mode == Executing && t.tasks[k].turn == s.tasks[k].turn {
        var j :| 0 <= j < |s.executes| && s.executes[j].task == k && s.executes[j].turn == TaskOf(s, k).turn;
        assert t.executes[j] == s.executes[j];
      }
    }
  }

  /** Whatever a turn shows was given to that turn by some event of the run. */
  ghost predicate Accounted(es: seq<Event>, t: Turn) {
    && (t.sql != "" ==> exists i :: 0 <= i < |es| && GivesSql(After(es[..i]), es[i], t.id, t.sql))
    && (t.rows.Some? && t.rows.value != [] ==> exists i :: 0 <= i < |es| && GivesRows(After(es[..i]), es[i], t.id, t.rows.value))
  }

  /** A turn of the next state, by a turn of this one or by the event. */
  ghost predicate ComesFrom(s: State, e: Event, v: Turn, t: Turn) {
    && v.id == t.id
    && (t.sql == v.sql || t.sql == "" || GivesSql(s, e, t.id, t.sql))
    && (t.rows == v.rows || t.rows.None? || t.rows.value == [] || (e.Executed? && e.rows == t.rows.value
        && TaskOf(s, e.k).mode == Executing && TaskOf(s, e.k).turn == t.id))
  }

  lemma ToldComesFrom(s: State, e: Event, v: Turn)
    ensures ComesFrom(s, e, v, if About(s, e, v.id) then Told(s, e, v) else v)
  {}

  lemma TurnsComeFrom(s: State, e: Event, i: nat)
    requires i < |Step(s, e).turns|
    ensures var t := Step(s, e).turns[i];
            (t.sql == "" && t.rows.None?) || exists j :: 0 <= j < |s.turns| && ComesFrom(s, e, s.turns[j], t)
  {
    if e.Ask? && Accepted(s, e) {
      AskShows(s, e);
      hide Step;
      var n := if |s.turns| >= MAX_TURNS then MAX_TURNS - 1 else |s.turns|;
      if i < n { assert ComesFrom(s, e, s.turns[|s.turns| - n + i], Step(s, e).turns[i]); }
    } else if e.Ask? || e.Reset? {
      QuietSteps(s, e);
      hide Step;
      if !e.Reset? { assert ComesFrom(s, e, s.turns[i], s.turns[i]); }
    } else {
      SameCount(s, e);
      TurnsFollow(s, e, i);
      ToldComesFrom(s, e, s.turns[i]);
    }
  }

  lemma SameCount(s: State, e: Event)
    requires !e.Ask? && !e.Reset?
    ensures |Step(s, e).turns| == |s.turns|
  {
    if e.StreamEnd? || e.StreamThrow? {
      EndsSame(s, e);
    } else {
      hide Apply, Last, AskFailure;
    }
  }

  lemma EndsSame(s: State, e: Event)
    requires e.StreamEnd? || e.StreamThrow?
    ensures |Step(s, e).turns| == |s.turns|
  {
    hide AfterStream, Apply, AskFailure;
    var k := e.k;
    if TaskOf(s, k).mode == Asking {
      var a := s.tasks[k];
      var b := if e.StreamThrow? then a.(code := e.thrown.code, settled := true, flow := a.flow.(timer := false))
               else a.(flow := a.flow.(timer := false));
      AfterStreamCount(s, k, a);
      AfterStreamCount(Patched(s, a.turn, AskHalted), k, b);
      AfterStreamCount(Patched(s, a.turn, AskFailed(EARLY_END)), k, b);
      if e.StreamThrow? {
        AfterStreamCount(Patched(s, a.turn, AskFailed(AskFailure(e.thrown))), k, b.(error := Some(AskFailure(e.thrown))));
      }
    }
  }

  lemma AfterStreamCount(s: State, k: nat, a: Task)
    requires k < |s.tasks|
    ensures |AfterStream(s, k, a).turns| == |s.turns|
  {
    hide Apply;
  }

  ghost predicate AllAccounted(es: seq<Event>) {
    forall i :: 0 <= i < |After(es).turns| ==> Accounted(es, After(es).turns[i])
  }

  /** What was accounted for stays so as the run goes on. */
  lemma AccountedLater(es: seq<Event>, e: Event, t: Turn)
    requires Accounted(es, t)
    ensures Accounted(es + [e], t)
  {
    hide After, GivesSql, GivesRows;
    var fs := es + [e];
    if t.sql != "" {
      var i :| 0 <= i < |es| && GivesSql(After(es[..i]), es[i], t.id, t.sql);
      assert fs[..i] == es[..i] && fs[i] == es[i];
    }
    if t.rows.Some? && t.rows.value != [] {
      var i :| 0 <= i < |es| && GivesRows(After(es[..i]), es[i], t.id, t.rows.value);
      assert fs[..i] == es[..i] && fs[i] == es[i];
    }
  }

  lemma AccountedNext(es: seq<Event>, e: Event, v: Turn, t: Turn)
    requires Accounted(es, v) && ComesFrom(After(es), e, v, t) && LogInv(After(es))
    ensures Accounted(es + [e], t)
  {
    AccountedLater(es, e, v);
    var fs, s := es + [e], After(es);
    assert fs[..|es|] == es && fs[|es|] == e;
    hide After;
    if t.sql != "" && t.sql != v.sql { assert GivesSql(After(fs[..|es|]), fs[|es|], t.id, t.sql); }
    if t.rows.Some? && t.rows.value != [] && t.rows != v.rows {
      assert Logged(s, e.k);
      assert GivesRows(After(fs[..|es|]), fs[|es|], t.id, t.rows.value);
    }
  }

  lemma {:induction false} LogHolds(es: seq<Event>)
    ensures LogInv(After(es))
    decreases |es|
  {
    hide Inv, Step;
    if es != [] {
      var n := |es| - 1;
      assert es[..n] + [es[n]] == es;
      LogHolds(es[..n]);
      AfterInv(es[..n]);
      AfterNext(es[..n], es[n]);
      StepKeepsLog(After(es[..n]), es[n]);
    }
  }

  /**
   * Over any run: the SQL a turn shows was streamed to, edited on or proposed for that very turn, and
   * its rows are the result of a query that was started for it.
   */
  lemma {:induction false} NothingInvented(es: seq<Event>)
    ensures AllAccounted(es)
    decreases |es|
  {
    hide Accounted, Step, After;
    if es == [] {
      NoTurns();
    } else {
      var n := |es| - 1;
      var front, e := es[..n], es[n];
      assert front + [e] == es;
      NothingInvented(front);
      LogHolds(front);
      AfterNext(front, e);
      forall i | 0 <= i < |After(es).turns| ensures Accounted(es, After(es).turns[i]) {
        TurnsComeFrom(After(front), e, i);
        TurnAccounted(front, e, After(es).turns[i]);
      }
    }
  }

  lemma TurnAccounted(es: seq<Event>, e: Event, t: Turn)
    requires AllAccounted(es) && LogInv(After(es))
    requires (t.sql == "" && t.rows.None?) || exists j :: 0 <= j < |After(es).turns| && ComesFrom(After(es), e, After(es).turns[j], t)
    ensures Accounted(es + [e], t)
  {
    hide Accounted, After, ComesFrom;
    if j :| 0 <= j < |After(es).turns| && ComesFrom(After(es), e, After(es).turns[j], t) {
      AccountedNext(es, e, After(es).turns[j], t);
    } else {
      BlankAccounted(es + [e], t);
    }
  }

  lemma BlankAccounted(es: seq<Event>, t: Turn)
    requires t.sql == "" && t.rows.None?
    ensures Accounted(es, t)
  {}

  lemma NoTurns()
    ensures After([]).turns == []
  {}

  // ----- what a call has heard -----

  /** The tokens since the last stage, SQL or error; the last error; whether SQL or an error came; the flush. */
  datatype Ear = Ear(tokens: string, code: Option<string>, error: Option<Failure>, settled: bool, timer: bool, flushed: string)

  const DEAF := Ear("", None, None, false, false, "")

  /** Another controller is the current one, or this one was aborted. */
  predicate Superseded(s: State, k: nat) { s.abort != Some(TaskOf(s, k).ctrl) || Aborted(s, TaskOf(s, k).ctrl) }

  /** The end of the text, 400 characters of it at most. */
  function Tail(text: string): string { if |text| <= 400 then text else text[|text| - 400..] }

  function Hear(s: State, e: Event, k: nat, m: Ear): Ear {
    var mode := TaskOf(s, k).mode;
    match e
    case Stream(j, ev) =>
      if j != k || mode != Asking then m
      else
        (match ev
         case StageEvent(_) => m.(tokens := "")
         case TokenEvent(text) => m.(tokens := m.tokens + text, timer := true)
         case SqlEvent(_) => m.(tokens := "", settled := true, timer := false)
         case ErrorEvent(x) => m.(tokens := "", code := x.code, error := Some(Reported(x)), settled := true, timer := false)
         case DoneEvent => m)
    case StreamEnd(j) => if j != k || mode != Asking || m.settled then m else m.(timer := false)
    case StreamThrow(j, x) =>
      if j != k || mode != Asking then m
      else m.(code := x.code, settled := true, timer := false,
              error := if x.abortError || Aborted(s, TaskOf(s, k).ctrl) then m.error else Some(Reported(x)))
    case Tick(j) =>
      if j != k || !TaskOf(s, k).Chatting() || !m.timer then m
      else if Superseded(s, k) then m.(timer := false)
      else m.(flushed := Tail(m.tokens))
    case _ => m
  }

  ghost function Heard(es: seq<Event>, k: nat): Ear {
    if es == [] then DEAF
    else
      var n := |es| - 1;
      if Accepted(After(es[..n]), es[n]) && k == |After(es[..n]).tasks| then DEAF
      else Hear(After(es[..n]), es[n], k, Heard(es[..n], k))
  }

  /** A call's locals are what it has heard. */
  predicate Holds(a: Task, m: Ear) {
    && a.flow == Flow(Tail(m.tokens), m.flushed, m.timer) && a.code == m.code && a.error == m.error && a.settled == m.settled
  }

  lemma TailGrows(x: string, y: string)
    ensures Last(Tail(x) + y, MAX_STREAM_CHARS) == Tail(x + y)
  {
    if |x| > 400 {
      assert x + y == x[..|x| - 400] + (Tail(x) + y);
    }
  }

  ghost predicate HeardCalls(es: seq<Event>) {
    forall k :: 0 <= k < |After(es).tasks| && After(es).tasks[k].Chatting() ==> Holds(After(es).tasks[k], Heard(es, k))
  }

  lemma AfterStreamHolds(s: State, k: nat, a: Task, m: Ear)
    requires k < |s.tasks| && Holds(a, m)
    ensures var t := AfterStream(s, k, a); k < |t.tasks| && (t.tasks[k].Chatting() ==> Holds(t.tasks[k], m))
  {
    AfterStreamCall(s, k, a);
    hide AfterStream;
  }

  lemma EndHears(s: State, k: nat, m: Ear)
    requires TaskOf(s, k).mode == Asking && Holds(s.tasks[k], m)
    ensures var t := Step(s, StreamEnd(k));
            k < |t.tasks| && (t.tasks[k].Chatting() ==> Holds(t.tasks[k], Hear(s, StreamEnd(k), k, m)))
  {
    hide AfterStream, Patch;
    var a := s.tasks[k];
    var b := a.(flow := a.flow.(timer := false));
    if a.settled { AfterStreamHolds(s, k, a, m); }
    else if Aborted(s, a.ctrl) { AfterStreamHolds(Patched(s, a.turn, AskHalted), k, b, m.(timer := false)); }
    else { AfterStreamHolds(Patched(s, a.turn, AskFailed(EARLY_END)), k, b, m.(timer := false)); }
  }

  lemma ThrowHears(s: State, k: nat, x: Thrown, m: Ear)
    requires TaskOf(s, k).mode == Asking && Holds(s.tasks[k], m)
    ensures var t := Step(s, StreamThrow(k, x));
            k < |t.tasks| && (t.tasks[k].Chatting() ==> Holds(t.tasks[k], Hear(s, StreamThrow(k, x), k, m)))
  {
    hide AfterStream, Patch;
    var a := s.tasks[k];
    var b := a.(code := x.code, settled := true, flow := a.flow.(timer := false));
    var n := m.(code := x.code, settled := true, timer := false);
    assert AskFailure(x) == Reported(x);
    if x.abortError || Aborted(s, a.ctrl) { AfterStreamHolds(Patched(s, a.turn, AskHalted), k, b, n); }
    else {
      AfterStreamHolds(Patched(s, a.turn, AskFailed(AskFailure(x))), k, b.(error := Some(AskFailure(x))),
                       n.(error := Some(Reported(x))));
    }
  }

  lemma StreamHears(s: State, k: nat, ev: ChatEvent, m: Ear)
    requires TaskOf(s, k).mode == Asking && Holds(s.tasks[k], m)
    ensures var t := Step(s, Stream(k, ev)); k < |t.tasks| && Holds(t.tasks[k], Hear(s, Stream(k, ev), k, m))
  {
    if ev.TokenEvent? { TailGrows(m.tokens, ev.text); }
    hide Patch, Last;
  }

  lemma TickHears(s: State, k: nat, m: Ear)
    requires TaskOf(s, k).Chatting() && Holds(s.tasks[k], m)
    ensures var t := Step(s, Tick(k)); k < |t.tasks| && Holds(t.tasks[k], Hear(s, Tick(k), k, m))
  {
    hide Patch, Last;
  }

  /** An event changes the locals of its own call only. */
  lemma OthersKept(s: State, e: Event, k: nat)
    requires TaskEvent(e) && k < |s.tasks| && k != e.k
    ensures k < |Step(s, e).tasks| && Step(s, e).tasks[k] == s.tasks[k]
  {
    TaskMoves(s, e);
    hide Step;
  }

  lemma CallHears(s: State, e: Event, k: nat, m: Ear)
    requires TaskEvent(e) && k < |s.tasks| && (s.tasks[k].Chatting() ==> Holds(s.tasks[k], m))
    ensures var t := Step(s, e); k < |t.tasks| && (t.tasks[k].Chatting() ==> Holds(t.tasks[k], Hear(s, e, k, m)))
  {
    TaskCalls(s, e);
    if k != e.k {
      OthersKept(s, e, k);
    } else if e.StreamEnd? && s.tasks[k].mode == Asking {
      EndHears(s, k, m);
    } else if e.StreamThrow? && s.tasks[k].mode == Asking {
      ThrowHears(s, k, e.thrown, m);
    } else if e.Stream? && s.tasks[k].mode == Asking {
      StreamHears(s, k, e.ev, m);
    } else if e.Tick? && s.tasks[k].Chatting() {
      TickHears(s, k, m);
    } else {
      StaysPut(s, e, m);
    }
  }

  lemma NotWaitedFor(s: State, e: Event)
    requires (e.Stream? || e.StreamEnd? || e.StreamThrow? || e.Tick?)
    requires TaskOf(s, e.k).mode != Asking && (e.Tick? ==> !TaskOf(s, e.k).Chatting())
    ensures Step(s, e) == s
  {
    hide StreamStep, StreamEndStep, StreamThrowStep, TickStep;
  }

  /** Any other event ends the call's chat, or cannot happen. */
  lemma StaysPut(s: State, e: Event, m: Ear)
    requires TaskEvent(e) && e.k < |s.tasks| && (s.tasks[e.k].Chatting() ==> Holds(s.tasks[e.k], m))
    requires (e.Stream? || e.StreamEnd? || e.StreamThrow? ==> s.tasks[e.k].mode != Asking) && (e.Tick? ==> !s.tasks[e.k].Chatting())
    ensures var t := Step(s, e);
            e.k < |t.tasks| && (t.tasks[e.k].Chatting() ==> Holds(t.tasks[e.k], Hear(s, e, e.k, m)))
  {
    if e.Stream? || e.StreamEnd? || e.StreamThrow? || e.Tick? { NotWaitedFor(s, e); } else { ChatOver(s, e); }
    hide Step, Holds;
  }

  lemma HeardNext(es: seq<Event>, e: Event)
    requires HeardCalls(es)
    ensures HeardCalls(es + [e])
  {
    var s, t, fs := After(es), After(es + [e]), es + [e];
    AfterNext(es, e);
    if !TaskEvent(e) { UserCalls(s, e); NewCallIsDeaf(s, e); }
    hide Step, After, Holds, Hear, Accepted;
    forall k | 0 <= k < |t.tasks| && t.tasks[k].Chatting() ensures Holds(t.tasks[k], Heard(fs, k)) {
      assert fs[..|fs| - 1] == es && fs[|fs| - 1] == e;
      if TaskEvent(e) {
        TasksCount(s, e);
        NoAsk(s, e);
        CallHears(s, e, k, Heard(es, k));
      } else if k < |s.tasks| {
        UserHears(s, e, k, Heard(es, k));
      }
    }
  }

  lemma TasksCount(s: State, e: Event)
    requires TaskEvent(e)
    ensures |Step(s, e).tasks| == |s.tasks|
  {
    TaskCalls(s, e);
    hide Step;
  }

  lemma NoAsk(s: State, e: Event)
    requires TaskEvent(e)
    ensures !Accepted(s, e)
  {}

  lemma UserHears(s: State, e: Event, k: nat, m: Ear)
    requires !TaskEvent(e)
    ensures Hear(s, e, k, m) == m
  {}

  lemma NewCallIsDeaf(s: State, e: Event)
    requires !TaskEvent(e)
    ensures Accepted(s, e) ==> |Step(s, e).tasks| == |s.tasks| + 1 && Holds(Step(s, e).tasks[|s.tasks|], DEAF)
  {
    hide TrimSpace, TrimTranscript, Patch;
  }

  /** Over any run, a chatting call knows exactly what its own stream has told it since it was asked. */
  lemma {:induction false} AllHeard(es: seq<Event>)
    ensures HeardCalls(es)
    decreases |es|
  {
    hide HeardCalls;
    if es == [] { assert HeardCalls([]) by { NoneHeard(); } } else {
      var n := |es| - 1;
      AllHeard(es[..n]);
      HeardNext(es[..n], es[n]);
      assert es[..n] + [es[n]] == es;
    }
  }

  lemma NoneHeard()
    ensures HeardCalls([])
  {}
}
