/**
 * The ask/run gate of the chat hook.  Every event below is the code between two awaits of `ask`,
 * `doRun`, `run`, `editSql`, `cancel` or `reset`, so a run is any sequence of events.  A suspended
 * call is a task; its index is its gate token.  Controllers are numbered as they are created.
 */
module AskGate {
  import opened Text

  const MAX_TURNS := 200
  const MAX_TURNS_WITH_ROWS := 20
  const MAX_STREAM_CHARS := 400

  datatype Phase = Thinking | SqlReady | Running | Done | Stopped | Failed

  datatype Failure = Failure(code: string, userMessage: string, retryable: bool)

  datatype Turn = Turn(
    id: nat, question: string, phase: Phase, stage: Option<string>, sql: string,
    streamText: Option<string>, error: Option<Failure>, suggestedSql: Option<string>,
    rows: Option<seq<string>>, answer: Option<string>)

  /** The partial turns that `patch` merges. */
  datatype Update =
    | EnterRun
    | RunDone(rows: seq<string>)
    | RunFailed(failure: Failure, suggested: Option<string>)
    | Halt
    | SetStage(stage: string)
    | ShowSql(sql: string)
    | AskFailed(failure: Failure)
    | AskHalted
    | EnterFallback
    | Answered(answer: string, proposed: string)
    | FallbackFailed(error: Option<Failure>)
    | ShowStream(text: string)
    | Edited(sql: string)

  function Apply(t: Turn, u: Update): Turn {
    match u
    case EnterRun => t.(phase := Running, error := None, suggestedSql := None)
    case RunDone(rows) => t.(phase := Done, rows := Some(rows))
    case RunFailed(f, suggested) => t.(phase := Failed, error := Some(f), suggestedSql := suggested)
    case Halt => t.(phase := Stopped, error := None)
    case SetStage(stage) => t.(stage := Some(stage))
    case ShowSql(sql) => t.(phase := SqlReady, sql := sql, streamText := None)
    case AskFailed(f) => t.(phase := Failed, error := Some(f), streamText := None)
    case AskHalted => t.(phase := Stopped, error := None, streamText := None)
    case EnterFallback => t.(phase := Thinking, stage := Some("schema_answer"), error := None)
    case Answered(answer, proposed) =>
      t.(phase := Done, error := None, answer := Some(answer), sql := if proposed != "" then proposed else t.sql)
    case FallbackFailed(error) => t.(phase := Failed, error := error)
    case ShowStream(text) => t.(streamText := Some(text))
    case Edited(sql) => t.(sql := sql, phase := SqlReady, rows := None, error := None, suggestedSql := None)
  }

  function Patch(turns: seq<Turn>, id: nat, u: Update): (r: seq<Turn>)
    ensures |r| == |turns|
    ensures forall i :: 0 <= i < |r| ==> r[i] == if turns[i].id == id then Apply(turns[i], u) else turns[i]
  {
    seq(|turns|, i requires 0 <= i < |turns| => if turns[i].id == id then Apply(turns[i], u) else turns[i])
  }

  /** The last 200 turns; rows only on the last 20. */
  function TrimTranscript(turns: seq<Turn>): (r: seq<Turn>)
    ensures |r| <= MAX_TURNS
    ensures |r| == if |turns| > MAX_TURNS then MAX_TURNS else |turns|
    ensures forall i :: 0 <= i < |r| ==>
      var t := turns[|turns| - |r| + i];
      r[i] == if i < |r| - MAX_TURNS_WITH_ROWS && t.rows.Some? && t.rows.value != [] then t.(rows := Some([])) else t
  {
    var kept := if |turns| > MAX_TURNS then turns[|turns| - MAX_TURNS..] else turns;
    var cutoff := |kept| - MAX_TURNS_WITH_ROWS;
    if cutoff <= 0 then kept
    else
      seq(|kept|, i requires 0 <= i < |kept| =>
        if i < cutoff && kept[i].rows.Some? && kept[i].rows.value != [] then kept[i].(rows := Some([])) else kept[i])
  }

  datatype Options = Options(requireApproval: bool, answerSchemaQuestions: bool)

  /** What a suspended call waits for; after `doRun` its caller resumes one step later. */
  datatype Mode = Asking | Answering | Executing | Unwinding | Gone

  /** A suspended call: what its closure holds. */
  datatype Task = Task(mode: Mode, turn: nat, ctrl: nat, opts: Options, sql: string, code: Option<string>,
                       error: Option<Failure>, settled: bool, flow: Flow)
  {
    predicate Active() { mode == Asking || mode == Answering || mode == Executing }
    predicate Chatting() { mode == Asking || mode == Answering }
  }

  const NO_TASK := Task(Gone, 0, 0, Options(true, false), "", None, None, false, Flow("", "", false))

  /** The token tail and its flush timer. */
  datatype Flow = Flow(text: string, flushed: string, timer: bool)

  datatype Execute = Execute(task: nat, turn: nat, sql: string)

  datatype State = State(
    inFlight: Option<nat>,
    busy: bool,
    abort: Option<nat>,
    aborted: seq<bool>,
    turns: seq<Turn>,
    nextTurn: nat,
    tasks: seq<Task>,
    executes: seq<Execute>)

  const INITIAL := State(None, false, None, [], [], 1, [], [])

  datatype ChatEvent =
    | StageEvent(stage: string)
    | TokenEvent(text: string)
    | SqlEvent(sql: string)
    | ErrorEvent(thrown: Thrown)
    | DoneEvent

  /** What an error event or a rejection carries. */
  datatype Thrown = Thrown(abortError: bool, code: Option<string>, userMessage: Option<string>, retryable: bool)

  datatype Event =
    | Ask(question: string, opts: Options)
    | Stream(k: nat, ev: ChatEvent)
    | StreamEnd(k: nat)
    | StreamThrow(k: nat, thrown: Thrown)
    | Tick(k: nat)
    | Explained(k: nat, answer: string, proposed: string)
    | ExplainFailed(k: nat)
    | Executed(k: nat, rows: seq<string>)
    | ExecuteFailed(k: nat, thrown: Thrown, message: string, suggested: Option<string>)
    | Resume(k: nat)
    | Run(turn: nat, sql: string)
    | EditSql(turn: nat, sql: string, opts: Options)
    | Cancel
    | Reset

  function Last(s: string, n: nat): string { if |s| > n then s[|s| - n..] else s }

  function Or(o: Option<string>, d: string): string { if o.Some? then o.value else d }

  function AskFailure(e: Thrown): Failure {
    Failure(Or(e.code, "LLM_UNAVAILABLE"), Or(e.userMessage, "Something went wrong."), e.retryable)
  }

  const EARLY_END := Failure("LLM_UNAVAILABLE", "The response ended before an answer arrived.", true)

  // ----- pieces shared by several events -----

  function Patched(s: State, id: nat, u: Update): State { s.(turns := Patch(s.turns, id, u)) }

  function Became(s: State, k: nat, t: Task): State
    requires k < |s.tasks|
  {
    s.(tasks := s.tasks[k := t])
  }

  /** A new token takes the gate. */
  function Acquire(s: State): State {
    s.(inFlight := Some(|s.tasks|), busy := true, tasks := s.tasks + [NO_TASK.(mode := Unwinding)])
  }

  /** `doRun` up to its await. */
  function StartRun(s: State, k: nat, turn: nat, sql: string): State
    requires k < |s.tasks|
  {
    var c := |s.aborted|;
    s.(abort := Some(c), aborted := s.aborted + [false], turns := Patch(s.turns, turn, EnterRun),
       tasks := s.tasks[k := NO_TASK.(mode := Executing, turn := turn, ctrl := c)], executes := s.executes + [Execute(k, turn, sql)])
  }

  function DropController(s: State, c: nat): State {
    if s.abort == Some(c) then s.(abort := None) else s
  }

  function Release(s: State, k: nat): State
    requires k < |s.tasks|
  {
    var t := Became(s, k, NO_TASK);
    if t.inFlight == Some(k) then t.(busy := false, inFlight := None) else t
  }

  function Aborted(s: State, c: nat): bool { c < |s.aborted| && s.aborted[c] }

  /** The end of `ask`: give up the controller, then auto-run or release. */
  function FinishAsk(s: State, k: nat, turn: nat, ctrl: nat, opts: Options, sql: string): State
    requires k < |s.tasks|
  {
    var t := DropController(s, ctrl);
    if sql != "" && !opts.requireApproval && !Aborted(t, ctrl) then StartRun(t, k, turn, sql) else Release(t, k)
  }

  /** After the stream: fall back to a prose answer, or finish. */
  function AfterStream(s: State, k: nat, a: Task): State
    requires k < |s.tasks|
  {
    if a.sql == "" && a.opts.answerSchemaQuestions && (a.code == Some("LLM_BAD_OUTPUT") || a.code == Some("LLM_REFUSAL"))
       && !Aborted(s, a.ctrl)
    then Became(Patched(s, a.turn, EnterFallback), k, a.(mode := Answering))
    else FinishAsk(s, k, a.turn, a.ctrl, a.opts, a.sql)
  }

  function AbortCurrent(s: State): State {
    s.(aborted := if s.abort.Some? && s.abort.value < |s.aborted| then s.aborted[s.abort.value := true] else s.aborted,
       abort := None, inFlight := None, busy := false)
  }

  // ----- the events -----

  function AskStep(s: State, question: string, opts: Options): State {
    var q := TrimSpace(question);
    if q == "" || s.inFlight.Some? then s
    else
      var c := |s.aborted|;
      var turn := Turn(s.nextTurn, q, Thinking, None, "", None, None, None, None, None);
      s.(inFlight := Some(|s.tasks|), busy := true, abort := Some(c), aborted := s.aborted + [false],
         turns := TrimTranscript(s.turns + [turn]), nextTurn := s.nextTurn + 1,
         tasks := s.tasks + [NO_TASK.(mode := Asking, turn := s.nextTurn, ctrl := c, opts := opts)])
  }

  /** `applyEvent` and the loop body around it. */
  function StreamStep(s: State, k: nat, a: Task, ev: ChatEvent): State
    requires k < |s.tasks|
  {
    match ev
    case StageEvent(stage) => Became(Patched(s, a.turn, SetStage(stage)), k, a.(flow := a.flow.(text := "")))
    case TokenEvent(text) =>
      Became(s, k, a.(flow := a.flow.(text := Last(a.flow.text + text, MAX_STREAM_CHARS), timer := true)))
    case SqlEvent(sql) =>
      Became(Patched(s, a.turn, ShowSql(sql)), k,
             a.(sql := sql, settled := true, flow := a.flow.(text := "", timer := false)))
    case ErrorEvent(e) =>
      Became(Patched(s, a.turn, AskFailed(AskFailure(e))), k,
             a.(code := e.code, error := Some(AskFailure(e)), settled := true, flow := a.flow.(text := "", timer := false)))
    case DoneEvent => s
  }

  function StreamEndStep(s: State, k: nat, a: Task): State
    requires k < |s.tasks|
  {
    if a.settled then AfterStream(s, k, a)
    else AfterStream(Patched(s, a.turn, if Aborted(s, a.ctrl) then AskHalted else AskFailed(EARLY_END)), k,
                     a.(flow := a.flow.(timer := false)))
  }

  function StreamThrowStep(s: State, k: nat, a: Task, e: Thrown): State
    requires k < |s.tasks|
  {
    var b := a.(code := e.code, settled := true, flow := a.flow.(timer := false));
    if e.abortError || Aborted(s, a.ctrl) then AfterStream(Patched(s, a.turn, AskHalted), k, b)
    else AfterStream(Patched(s, a.turn, AskFailed(AskFailure(e))), k, b.(error := Some(AskFailure(e))))
  }

  /** The flush timer; it stops itself once its ask is no longer the current one. */
  function TickStep(s: State, k: nat, a: Task): State
    requires k < |s.tasks|
  {
    if !a.flow.timer then s
    else if s.abort != Some(a.ctrl) || Aborted(s, a.ctrl) then Became(s, k, a.(flow := a.flow.(timer := false)))
    else if a.flow.text == a.flow.flushed then s
    else Became(Patched(s, a.turn, ShowStream(a.flow.text)), k, a.(flow := a.flow.(flushed := a.flow.text)))
  }

  /** The schema answer came back, or failed. */
  function FallbackStep(s: State, k: nat, a: Task, u: Update): State
    requires k < |s.tasks|
  {
    Release(DropController(Patched(s, a.turn, u), a.ctrl), k)
  }

  /** `execute` settled: the turn is patched, the controller given up, and the caller resumes later. */
  function ExecuteStep(s: State, k: nat, a: Task, u: Update): State
    requires k < |s.tasks|
  {
    Became(DropController(Patched(s, a.turn, u), a.ctrl), k, NO_TASK.(mode := Unwinding))
  }

  function RunStep(s: State, turn: nat, sql: string): State {
    if sql == "" || s.inFlight.Some? then s else StartRun(Acquire(s), |s.tasks|, turn, sql)
  }

  function EditStep(s: State, turn: nat, sql: string, opts: Options): State {
    var t := Patched(s, turn, Edited(sql));
    if !opts.requireApproval && t.inFlight.None? then StartRun(Acquire(t), |t.tasks|, turn, sql) else t
  }

  function TaskOf(s: State, k: nat): Task { if k < |s.tasks| then s.tasks[k] else NO_TASK }

  /** An event of a task that is not waiting for it cannot happen and changes nothing. */
  function Step(s: State, e: Event): State {
    match e
    case Ask(question, opts) => AskStep(s, question, opts)
    case Stream(k, ev) => if TaskOf(s, k).mode == Asking then StreamStep(s, k, TaskOf(s, k), ev) else s
    case StreamEnd(k) => if TaskOf(s, k).mode == Asking then StreamEndStep(s, k, TaskOf(s, k)) else s
    case StreamThrow(k, thrown) => if TaskOf(s, k).mode == Asking then StreamThrowStep(s, k, TaskOf(s, k), thrown) else s
    case Tick(k) => if TaskOf(s, k).Chatting() then TickStep(s, k, TaskOf(s, k)) else s
    case Explained(k, answer, proposed) =>
      if TaskOf(s, k).mode == Answering then FallbackStep(s, k, TaskOf(s, k), Answered(answer, proposed)) else s
    case ExplainFailed(k) =>
      if TaskOf(s, k).mode == Answering
      then FallbackStep(s, k, TaskOf(s, k),
                        if Aborted(s, TaskOf(s, k).ctrl) then Halt else FallbackFailed(TaskOf(s, k).error))
      else s
    case Executed(k, rows) => if TaskOf(s, k).mode == Executing then ExecuteStep(s, k, TaskOf(s, k), RunDone(rows)) else s
    case ExecuteFailed(k, thrown, message, suggested) =>
      if TaskOf(s, k).mode == Executing
      then ExecuteStep(s, k, TaskOf(s, k),
                       if thrown.abortError || Aborted(s, TaskOf(s, k).ctrl) then Halt
                       else RunFailed(Failure(Or(thrown.code, "DB_QUERY_ERROR"), message, thrown.retryable), suggested))
      else s
    case Resume(k) => if TaskOf(s, k).mode == Unwinding then Release(s, k) else s
    case Run(turn, sql) => RunStep(s, turn, sql)
    case EditSql(turn, sql, opts) => EditStep(s, turn, sql, opts)
    case Cancel => AbortCurrent(s)
    case Reset => AbortCurrent(s).(turns := [])
  }

  function RunAll(s: State, es: seq<Event>): State
    decreases |es|
  {
    if es == [] then s else RunAll(Step(s, es[0]), es[1..])
  }

  // ----- who owns the gate -----

  /** The controller of the gate's owner while it waits on something that can be aborted. */
  ghost function OwnerController(s: State): Option<nat> {
    if s.inFlight.Some? && TaskOf(s, s.inFlight.value).Active() then Some(TaskOf(s, s.inFlight.value).ctrl) else None
  }

  /** For a waiting task, "aborted" and "superseded" are the same thing. */
  ghost predicate TaskOk(s: State, k: nat)
    requires k < |s.tasks|
  {
    var t := s.tasks[k];
    t.Active() ==> t.ctrl < |s.aborted| && (s.aborted[t.ctrl] <==> s.inFlight != Some(k))
  }

  ghost predicate GateInv(s: State) {
    && s.busy == s.inFlight.Some?
    && (s.inFlight.Some? ==> TaskOf(s, s.inFlight.value).mode != Gone)
    && s.abort == OwnerController(s)
    && (forall k :: 0 <= k < |s.tasks| ==> TaskOk(s, k))
  }

  /** A question's turn was numbered when it was asked. */
  ghost predicate TurnsInv(s: State) {
    && |s.turns| <= MAX_TURNS
    && (forall i :: 0 <= i < |s.turns| ==> s.turns[i].id < s.nextTurn)
    && (forall k :: 0 <= k < |s.tasks| && s.tasks[k].Chatting() ==> s.tasks[k].turn < s.nextTurn)
  }

  predicate Spinning(t: Turn) { t.phase == Thinking || t.phase == Running }

  /** Task `k` will still move turn `id` out of its spinning phase. */
  ghost predicate Behind(s: State, k: nat, id: nat) {
    var t := TaskOf(s, k);
    t.Active() && t.turn == id && (t.mode == Asking ==> !t.settled)
  }

  ghost predicate Awaited(s: State, id: nat) { exists k: nat :: Behind(s, k, id) }

  ghost predicate SpinInv(s: State) {
    forall i :: 0 <= i < |s.turns| && Spinning(s.turns[i]) ==> Awaited(s, s.turns[i].id)
  }

  ghost predicate Inv(s: State) { GateInv(s) && TurnsInv(s) && SpinInv(s) }

  // ----- the gate -----

  lemma PatchedKeepsGate(s: State, id: nat, u: Update)
    requires GateInv(s)
    ensures GateInv(Patched(s, id, u))
  {
    var t := Patched(s, id, u);
    assert forall k :: 0 <= k < |s.tasks| ==> TaskOk(s, k) ==> TaskOk(t, k);
  }

  /** Changing a task's locals, but not what it waits for. */
  lemma BecameKeepsGate(s: State, k: nat, a: Task)
    requires GateInv(s) && k < |s.tasks| && s.tasks[k].Active() && a.Active() && a.ctrl == s.tasks[k].ctrl
    ensures GateInv(Became(s, k, a))
  {
    var t := Became(s, k, a);
    forall j | 0 <= j < |t.tasks| ensures TaskOk(t, j) { assert TaskOk(s, j); }
  }

  /** A task that gives up its controller and stops waiting, keeping or releasing the gate. */
  lemma DropKeepsGate(s: State, k: nat, m: Mode)
    requires GateInv(s) && k < |s.tasks| && s.tasks[k].Active() && (m == Unwinding || m == Gone)
    ensures var t := DropController(s, s.tasks[k].ctrl);
            GateInv(if m == Gone then Release(t, k) else Became(t, k, NO_TASK.(mode := m)))
  {
    var d := DropController(s, s.tasks[k].ctrl);
    var t := if m == Gone then Release(d, k) else Became(d, k, NO_TASK.(mode := m));
    assert TaskOk(s, k);
    if s.inFlight.Some? { assert TaskOk(s, s.inFlight.value); }
    forall j | 0 <= j < |t.tasks| ensures TaskOk(t, j) { assert TaskOk(s, j); }
  }

  /** A task starts a query only while it holds the gate. */
  lemma StartRunKeepsGate(s: State, k: nat, turn: nat, sql: string)
    requires k < |s.tasks| && s.inFlight == Some(k) && s.busy
    requires forall j :: 0 <= j < |s.tasks| && j != k ==> TaskOk(s, j)
    ensures GateInv(StartRun(s, k, turn, sql))
  {
    var t := StartRun(s, k, turn, sql);
    forall j | 0 <= j < |t.tasks| ensures TaskOk(t, j) { if j != k { assert TaskOk(s, j); } }
  }

  lemma FinishAskKeepsGate(s: State, k: nat, turn: nat, opts: Options, sql: string)
    requires GateInv(s) && k < |s.tasks| && s.tasks[k].Active()
    ensures GateInv(FinishAsk(s, k, turn, s.tasks[k].ctrl, opts, sql))
  {
    assert TaskOk(s, k);
    var c := s.tasks[k].ctrl;
    var t := DropController(s, c);
    if sql != "" && !opts.requireApproval && !Aborted(t, c) {
      forall j | 0 <= j < |t.tasks| ensures TaskOk(t, j) { assert TaskOk(s, j); }
      StartRunKeepsGate(t, k, turn, sql);
    } else {
      DropKeepsGate(s, k, Gone);
    }
  }

  lemma AfterStreamKeepsGate(s: State, k: nat, a: Task)
    requires GateInv(s) && k < |s.tasks| && s.tasks[k].mode == Asking && a.ctrl == s.tasks[k].ctrl
    ensures GateInv(AfterStream(s, k, a))
  {
    hide GateInv, FinishAsk;
    FinishAskKeepsGate(s, k, a.turn, a.opts, a.sql);
    PatchedKeepsGate(s, a.turn, EnterFallback);
    BecameKeepsGate(Patched(s, a.turn, EnterFallback), k, a.(mode := Answering));
  }

  lemma AcquireKeepsTasks(s: State)
    requires GateInv(s) && s.inFlight.None?
    ensures var t := Acquire(s); forall j :: 0 <= j < |t.tasks| ==> TaskOk(t, j)
  {
    var t := Acquire(s);
    forall j | 0 <= j < |t.tasks| ensures TaskOk(t, j) { if j < |s.tasks| { assert TaskOk(s, j); } }
  }

  lemma NewTaskKeepsGate(s: State, e: Event)
    requires GateInv(s) && (e.Ask? || e.Run? || e.EditSql?)
    ensures GateInv(Step(s, e))
  {
    match e
    case Ask(_, _) =>
      var t := Step(s, e);
      forall j | 0 <= j < |t.tasks| ensures TaskOk(t, j) { if j < |s.tasks| { assert TaskOk(s, j); } }
    case Run(turn, sql) =>
      if s.inFlight.None? {
        AcquireKeepsTasks(s);
        StartRunKeepsGate(Acquire(s), |s.tasks|, turn, sql);
      }
    case EditSql(turn, sql, opts) =>
      PatchedKeepsGate(s, turn, Edited(sql));
      var t := Patched(s, turn, Edited(sql));
      if t.inFlight.None? {
        AcquireKeepsTasks(t);
        StartRunKeepsGate(Acquire(t), |t.tasks|, turn, sql);
      }
  }

  lemma AbortKeepsGate(s: State)
    requires GateInv(s)
    ensures GateInv(AbortCurrent(s)) && GateInv(AbortCurrent(s).(turns := []))
  {
    var t := AbortCurrent(s);
    if s.inFlight.Some? { assert TaskOk(s, s.inFlight.value); }
    forall j | 0 <= j < |t.tasks| ensures TaskOk(t, j) { assert TaskOk(s, j); }
    forall j | 0 <= j < |t.tasks| ensures TaskOk(t.(turns := []), j) { assert TaskOk(t, j); }
  }

  lemma PatchBecomeKeepsGate(s: State, k: nat, u: Update, a: Task)
    requires GateInv(s) && k < |s.tasks| && s.tasks[k].Active() && a.Active() && a.ctrl == s.tasks[k].ctrl
    ensures GateInv(Became(Patched(s, a.turn, u), k, a)) && GateInv(Became(s, k, a))
  {
    PatchedKeepsGate(s, a.turn, u);
    BecameKeepsGate(s, k, a);
    BecameKeepsGate(Patched(s, a.turn, u), k, a);
  }

  lemma StreamKeepsGate(s: State, k: nat, ev: ChatEvent)
    requires GateInv(s) && k < |s.tasks| && s.tasks[k].mode == Asking
    ensures GateInv(StreamStep(s, k, s.tasks[k], ev))
  {
    hide GateInv, Patched, Became, Last, AskFailure;
    var a := s.tasks[k];
    match ev
    case StageEvent(stage) => PatchBecomeKeepsGate(s, k, SetStage(stage), a.(flow := a.flow.(text := "")));
    case TokenEvent(text) =>
      PatchBecomeKeepsGate(s, k, Halt, a.(flow := a.flow.(text := Last(a.flow.text + text, MAX_STREAM_CHARS), timer := true)));
    case SqlEvent(sql) =>
      PatchBecomeKeepsGate(s, k, ShowSql(sql), a.(sql := sql, settled := true, flow := a.flow.(text := "", timer := false)));
    case ErrorEvent(e) =>
      PatchBecomeKeepsGate(s, k, AskFailed(AskFailure(e)),
        a.(code := e.code, error := Some(AskFailure(e)), settled := true, flow := a.flow.(text := "", timer := false)));
    case DoneEvent =>
  }

  lemma StreamStopKeepsGate(s: State, k: nat, e: Thrown)
    requires GateInv(s) && k < |s.tasks| && s.tasks[k].mode == Asking
    ensures GateInv(StreamEndStep(s, k, s.tasks[k])) && GateInv(StreamThrowStep(s, k, s.tasks[k], e))
  {
    hide GateInv, AfterStream, AskFailure;
    var a := s.tasks[k];
    AfterStreamKeepsGate(s, k, a);
    forall u, b: Task | b.ctrl == a.ctrl ensures GateInv(AfterStream(Patched(s, a.turn, u), k, b)) {
      PatchedKeepsGate(s, a.turn, u);
      AfterStreamKeepsGate(Patched(s, a.turn, u), k, b);
    }
  }

  lemma TickKeepsGate(s: State, k: nat)
    requires GateInv(s) && k < |s.tasks| && s.tasks[k].Chatting()
    ensures GateInv(TickStep(s, k, s.tasks[k]))
  {
    hide GateInv, Patched, Became;
    var a := s.tasks[k];
    PatchBecomeKeepsGate(s, k, ShowStream(a.flow.text), a.(flow := a.flow.(timer := false)));
    PatchBecomeKeepsGate(s, k, ShowStream(a.flow.text), a.(flow := a.flow.(flushed := a.flow.text)));
  }

  lemma SettleKeepsGate(s: State, k: nat, u: Update)
    requires GateInv(s) && k < |s.tasks| && s.tasks[k].Active()
    ensures GateInv(FallbackStep(s, k, s.tasks[k], u)) && GateInv(ExecuteStep(s, k, s.tasks[k], u))
  {
    hide GateInv, DropController, Release, Became;
    PatchedKeepsGate(s, s.tasks[k].turn, u);
    DropKeepsGate(Patched(s, s.tasks[k].turn, u), k, Unwinding);
    DropKeepsGate(Patched(s, s.tasks[k].turn, u), k, Gone);
  }

  lemma ResumeKeepsGate(s: State, k: nat)
    requires GateInv(s) && k < |s.tasks| && s.tasks[k].mode == Unwinding
    ensures GateInv(Release(s, k))
  {
    var t := Release(s, k);
    forall j | 0 <= j < |t.tasks| ensures TaskOk(t, j) { assert TaskOk(s, j); }
  }

  lemma StepKeepsGate(s: State, e: Event)
    requires GateInv(s)
    ensures GateInv(Step(s, e))
  {
    hide GateInv, AskStep, StreamStep, StreamEndStep, StreamThrowStep, TickStep, FallbackStep, ExecuteStep, RunStep, EditStep,
         Release, AbortCurrent;
    match e
    case Ask(_, _) => NewTaskKeepsGate(s, e);
    case Run(_, _) => NewTaskKeepsGate(s, e);
    case EditSql(_, _, _) => NewTaskKeepsGate(s, e);
    case Cancel => AbortKeepsGate(s);
    case Reset => AbortKeepsGate(s);
    case Stream(k, ev) => if TaskOf(s, k).mode == Asking { StreamKeepsGate(s, k, ev); }
    case StreamEnd(k) => if TaskOf(s, k).mode == Asking { StreamStopKeepsGate(s, k, Thrown(false, None, None, false)); }
    case StreamThrow(k, thrown) => if TaskOf(s, k).mode == Asking { StreamStopKeepsGate(s, k, thrown); }
    case Tick(k) => if TaskOf(s, k).Chatting() { TickKeepsGate(s, k); }
    case Explained(k, answer, proposed) => if TaskOf(s, k).mode == Answering { SettleKeepsGate(s, k, Answered(answer, proposed)); }
    case ExplainFailed(k) =>
      if TaskOf(s, k).mode == Answering {
        SettleKeepsGate(s, k, if Aborted(s, s.tasks[k].ctrl) then Halt else FallbackFailed(s.tasks[k].error));
      }
    case Executed(k, rows) => if TaskOf(s, k).mode == Executing { SettleKeepsGate(s, k, RunDone(rows)); }
    case ExecuteFailed(k, thrown, message, suggested) =>
      if TaskOf(s, k).mode == Executing {
        SettleKeepsGate(s, k, Halt);
        SettleKeepsGate(s, k, RunFailed(Failure(Or(thrown.code, "DB_QUERY_ERROR"), message, thrown.retryable), suggested));
      }
    case Resume(k) => if TaskOf(s, k).mode == Unwinding { ResumeKeepsGate(s, k); }
  }

  // ----- what one step of one task can touch -----

  predicate TaskEvent(e: Event) {
    !(e.Ask? || e.Run? || e.EditSql? || e.Cancel? || e.Reset?)
  }

  /** Only turns numbered `id` may differ, and none changes its number. */
  ghost predicate Rewrites(ts: seq<Turn>, us: seq<Turn>, id: nat) {
    && |us| == |ts|
    && forall i :: 0 <= i < |ts| ==> us[i].id == ts[i].id && (ts[i].id != id ==> us[i] == ts[i])
  }

  /** No turn numbered `id` spins in `us` unless it did in `ts`, with no task of its own behind it. */
  ghost predicate Quiet(ts: seq<Turn>, us: seq<Turn>, id: nat, behind: bool)
    requires |us| == |ts|
  {
    forall i :: 0 <= i < |ts| && us[i].id == id && Spinning(us[i]) ==> Spinning(ts[i]) && !behind
  }

  /** Nothing but task `k`, and the same or a finished one in its place. */
  ghost predicate OnlyTask(s: State, t: State, k: nat)
    requires k < |s.tasks|
  {
    && |t.tasks| == |s.tasks| && (forall j :: 0 <= j < |s.tasks| && j != k ==> t.tasks[j] == s.tasks[j])
    && (t.tasks[k].Active() ==> t.tasks[k].turn == s.tasks[k].turn)
    && (t.tasks[k].Chatting() ==> s.tasks[k].Chatting())
    && t.nextTurn == s.nextTurn
  }

  ghost predicate Moves(s: State, t: State, k: nat)
    requires k < |s.tasks|
  {
    var id := s.tasks[k].turn;
    && Rewrites(s.turns, t.turns, id) && OnlyTask(s, t, k)
    && (Behind(t, k, id) || Quiet(s.turns, t.turns, id, Behind(s, k, id)))
  }

  /** Task `k` has patched its turn and is about to finish; `s` is where its step began. */
  ghost predicate Closing(s: State, t: State, k: nat)
    requires k < |s.tasks|
  {
    && t.tasks == s.tasks && t.nextTurn == s.nextTurn
    && Rewrites(s.turns, t.turns, s.tasks[k].turn)
    && Quiet(s.turns, t.turns, s.tasks[k].turn, Behind(s, k, s.tasks[k].turn))
  }

  predicate Terminal(u: Update) {
    !(u.EnterRun? || u.EnterFallback? || u.SetStage? || u.ShowStream?)
  }

  lemma PatchCloses(s: State, k: nat, u: Update)
    requires k < |s.tasks| && Terminal(u)
    ensures Closing(s, Patched(s, s.tasks[k].turn, u), k)
  {
    hide Behind;
  }

  lemma FinishMoves(s: State, t: State, k: nat, ctrl: nat, opts: Options, sql: string)
    requires k < |s.tasks| && Closing(s, t, k)
    ensures Moves(s, FinishAsk(t, k, s.tasks[k].turn, ctrl, opts, sql), k)
  {}

  lemma AfterStreamMoves(s: State, t: State, k: nat, a: Task)
    requires k < |s.tasks| && s.tasks[k].mode == Asking && Closing(s, t, k) && a.turn == s.tasks[k].turn
    ensures Moves(s, AfterStream(t, k, a), k)
  {
    hide FinishAsk;
    FinishMoves(s, t, k, a.ctrl, a.opts, a.sql);
  }

  lemma StreamMoves(s: State, k: nat, ev: ChatEvent)
    requires k < |s.tasks| && s.tasks[k].mode == Asking
    ensures Moves(s, StreamStep(s, k, s.tasks[k], ev), k)
  {
    hide Last, AskFailure;
  }

  lemma StreamEndMoves(s: State, k: nat)
    requires k < |s.tasks| && s.tasks[k].mode == Asking
    ensures Moves(s, StreamEndStep(s, k, s.tasks[k]), k)
  {
    hide AfterStream, Moves;
    var a := s.tasks[k];
    if a.settled {
      AfterStreamMoves(s, s, k, a);
    } else {
      var u := if Aborted(s, a.ctrl) then AskHalted else AskFailed(EARLY_END);
      PatchCloses(s, k, u);
      AfterStreamMoves(s, Patched(s, a.turn, u), k, a.(flow := a.flow.(timer := false)));
    }
  }

  lemma StreamThrowMoves(s: State, k: nat, e: Thrown)
    requires k < |s.tasks| && s.tasks[k].mode == Asking
    ensures Moves(s, StreamThrowStep(s, k, s.tasks[k], e), k)
  {
    hide AfterStream, Moves, Closing, AskFailure;
    var a := s.tasks[k];
    var b := a.(code := e.code, settled := true, flow := a.flow.(timer := false));
    if e.abortError || Aborted(s, a.ctrl) {
      PatchCloses(s, k, AskHalted);
      AfterStreamMoves(s, Patched(s, a.turn, AskHalted), k, b);
    } else {
      PatchCloses(s, k, AskFailed(AskFailure(e)));
      AfterStreamMoves(s, Patched(s, a.turn, AskFailed(AskFailure(e))), k, b.(error := Some(AskFailure(e))));
    }
  }

  lemma TickMoves(s: State, k: nat)
    requires k < |s.tasks| && s.tasks[k].Chatting()
    ensures Moves(s, TickStep(s, k, s.tasks[k]), k)
  {}

  lemma SettleMoves(s: State, k: nat, u: Update)
    requires k < |s.tasks| && s.tasks[k].Active() && Terminal(u)
    ensures Moves(s, FallbackStep(s, k, s.tasks[k], u), k) && Moves(s, ExecuteStep(s, k, s.tasks[k], u), k)
  {
    PatchCloses(s, k, u);
  }

  lemma IdleMoves(s: State, k: nat)
    requires k < |s.tasks|
    ensures Moves(s, s, k)
  {}

  /** Every task event moves its own task and its own turn, and nothing else. */
  lemma TaskMoves(s: State, e: Event)
    requires TaskEvent(e)
    ensures if e.k < |s.tasks| then Moves(s, Step(s, e), e.k) else Step(s, e) == s
  {
    hide Moves, StreamStep, StreamEndStep, StreamThrowStep, TickStep, FallbackStep, ExecuteStep;
    var k := e.k;
    if k < |s.tasks| {
      IdleMoves(s, k);
      var a := s.tasks[k];
      match e
      case Stream(_, ev) => if a.mode == Asking { StreamMoves(s, k, ev); }
      case StreamEnd(_) => if a.mode == Asking { StreamEndMoves(s, k); }
      case StreamThrow(_, thrown) => if a.mode == Asking { StreamThrowMoves(s, k, thrown); }
      case Tick(_) => if a.Chatting() { TickMoves(s, k); }
      case Explained(_, answer, proposed) => if a.mode == Answering { SettleMoves(s, k, Answered(answer, proposed)); }
      case ExplainFailed(_) =>
        if a.mode == Answering { SettleMoves(s, k, if Aborted(s, a.ctrl) then Halt else FallbackFailed(a.error)); }
      case Executed(_, rows) => if a.mode == Executing { SettleMoves(s, k, RunDone(rows)); }
      case ExecuteFailed(_, thrown, message, suggested) =>
        if a.mode == Executing {
          SettleMoves(s, k, Halt);
          SettleMoves(s, k, RunFailed(Failure(Or(thrown.code, "DB_QUERY_ERROR"), message, thrown.retryable), suggested));
        }
      case Resume(_) => if a.mode == Unwinding { ResumeMoves(s, k); }
    }
  }

  lemma ResumeMoves(s: State, k: nat)
    requires k < |s.tasks| && s.tasks[k].mode == Unwinding
    ensures Moves(s, Release(s, k), k)
  {}

  lemma MovesKeepsSpin(s: State, t: State, k: nat)
    requires k < |s.tasks| && Moves(s, t, k) && SpinInv(s)
    ensures SpinInv(t)
  {
    var own := s.tasks[k].turn;
    forall i | 0 <= i < |t.turns| && Spinning(t.turns[i]) ensures Awaited(t, t.turns[i].id) {
      var id := t.turns[i].id;
      if id == own && Behind(t, k, own) {
      } else {
        assert Awaited(s, id);
        var j: nat :| Behind(s, j, id);
        assert Behind(t, j, id);
      }
    }
  }

  lemma MovesKeepsTurns(s: State, t: State, k: nat)
    requires k < |s.tasks| && Moves(s, t, k) && TurnsInv(s)
    ensures TurnsInv(t)
  {}

  /** Steps that add tasks, or none, keep every turn awaited that was. */
  lemma AwaitedGrows(s: State, t: State, id: nat)
    requires Awaited(s, id) && |t.tasks| >= |s.tasks| && t.tasks[..|s.tasks|] == s.tasks
    ensures Awaited(t, id)
  {
    var j: nat :| Behind(s, j, id);
    assert t.tasks[j] == t.tasks[..|s.tasks|][j];
    assert Behind(t, j, id);
  }

  lemma StartsKeepSpin(s: State, turn: nat, sql: string)
    requires SpinInv(s)
    ensures SpinInv(StartRun(Acquire(s), |s.tasks|, turn, sql))
  {
    var t := StartRun(Acquire(s), |s.tasks|, turn, sql);
    assert t.tasks[..|s.tasks|] == s.tasks;
    assert Behind(t, |s.tasks|, turn);
    forall i | 0 <= i < |t.turns| && Spinning(t.turns[i]) ensures Awaited(t, t.turns[i].id) {
      if s.turns[i].id != turn { AwaitedGrows(s, t, s.turns[i].id); }
    }
  }

  lemma AskKeepsSpin(s: State, question: string, opts: Options)
    requires SpinInv(s)
    ensures SpinInv(AskStep(s, question, opts))
  {
    hide TrimSpace;
    var t := AskStep(s, question, opts);
    if |t.tasks| > |s.tasks| {
      assert t.tasks[..|s.tasks|] == s.tasks;
      assert Behind(t, |s.tasks|, s.nextTurn);
      forall i | 0 <= i < |t.turns| && Spinning(t.turns[i]) ensures Awaited(t, t.turns[i].id) {
        var from := |s.turns| + 1 - |t.turns| + i;
        if from < |s.turns| { AwaitedGrows(s, t, s.turns[from].id); }
      }
    }
  }

  lemma UserStepKeepsSpin(s: State, e: Event)
    requires SpinInv(s) && !TaskEvent(e)
    ensures SpinInv(Step(s, e))
  {
    hide AskStep, StartRun, SpinInv;
    match e
    case Ask(question, opts) => AskKeepsSpin(s, question, opts);
    case Run(turn, sql) => StartsKeepSpin(s, turn, sql);
    case EditSql(turn, sql, opts) =>
      EditKeepsSpin(s, turn, sql);
      StartsKeepSpin(Patched(s, turn, Edited(sql)), turn, sql);
    case Cancel => AbortKeepsSpin(s);
    case Reset => AbortKeepsSpin(s);
  }

  lemma EditKeepsSpin(s: State, turn: nat, sql: string)
    requires SpinInv(s)
    ensures SpinInv(Patched(s, turn, Edited(sql)))
  {
    var t := Patched(s, turn, Edited(sql));
    forall i | 0 <= i < |t.turns| && Spinning(t.turns[i]) ensures Awaited(t, t.turns[i].id) {
      assert t.tasks[..|s.tasks|] == s.tasks;
      AwaitedGrows(s, t, s.turns[i].id);
    }
  }

  lemma AbortKeepsSpin(s: State)
    requires SpinInv(s)
    ensures SpinInv(AbortCurrent(s)) && SpinInv(AbortCurrent(s).(turns := []))
  {
    var t := AbortCurrent(s);
    forall i | 0 <= i < |t.turns| && Spinning(t.turns[i]) ensures Awaited(t, t.turns[i].id) {
      assert t.tasks[..|s.tasks|] == s.tasks;
      AwaitedGrows(s, t, s.turns[i].id);
    }
  }

  lemma UserStepKeepsTurns(s: State, e: Event)
    requires TurnsInv(s) && !TaskEvent(e)
    ensures TurnsInv(Step(s, e))
  {
    hide AskStep, StartRun, Acquire, Patch;
    match e
    case Ask(question, opts) => AskKeepsTurns(s, question, opts);
    case Run(turn, sql) => StartKeepsTurns(s, turn, sql);
    case EditSql(turn, sql, opts) =>
      PatchKeepsTurns(s, turn, Edited(sql));
      StartKeepsTurns(Patched(s, turn, Edited(sql)), turn, sql);
    case _ =>
  }

  lemma AskKeepsTurns(s: State, question: string, opts: Options)
    requires TurnsInv(s)
    ensures TurnsInv(AskStep(s, question, opts))
  {
    hide TrimSpace;
    var t := AskStep(s, question, opts);
    if t.nextTurn > s.nextTurn {
      forall i | 0 <= i < |t.turns| ensures t.turns[i].id < t.nextTurn {}
      hide TrimTranscript;
      forall k | 0 <= k < |t.tasks| && t.tasks[k].Chatting() ensures t.tasks[k].turn < t.nextTurn {
        if k < |s.tasks| { assert t.tasks[k] == s.tasks[k]; }
      }
    }
  }

  lemma PatchKeepsTurns(s: State, id: nat, u: Update)
    requires TurnsInv(s)
    ensures TurnsInv(Patched(s, id, u))
  {}

  lemma StartKeepsTurns(s: State, turn: nat, sql: string)
    requires TurnsInv(s)
    ensures TurnsInv(StartRun(Acquire(s), |s.tasks|, turn, sql))
  {
    hide Apply;
    var t := StartRun(Acquire(s), |s.tasks|, turn, sql);
    EnterKeepsId(s.turns, turn);
    hide Patch;
    forall k | 0 <= k < |t.tasks| && t.tasks[k].Chatting() ensures t.tasks[k].turn < t.nextTurn {
      if k < |s.tasks| { assert t.tasks[k] == s.tasks[k]; }
    }
  }

  lemma EnterKeepsId(ts: seq<Turn>, id: nat)
    ensures var us := Patch(ts, id, EnterRun); |us| == |ts| && forall i :: 0 <= i < |ts| ==> us[i].id == ts[i].id
  {}

  lemma StepKeepsInv(s: State, e: Event)
    requires Inv(s)
    ensures Inv(Step(s, e))
  {
    hide GateInv, TurnsInv, SpinInv, Step, Moves;
    StepKeepsGate(s, e);
    if TaskEvent(e) {
      TaskMoves(s, e);
      if e.k < |s.tasks| {
        MovesKeepsSpin(s, Step(s, e), e.k);
        MovesKeepsTurns(s, Step(s, e), e.k);
      }
    } else {
      UserStepKeepsSpin(s, e);
      UserStepKeepsTurns(s, e);
    }
  }

  lemma InitialInv()
    ensures Inv(INITIAL)
  {}

  /** Every interleaving of asks, stream events, runs, edits, cancels and resets keeps the invariant. */
  lemma {:induction false} RunKeepsInv(s: State, es: seq<Event>)
    requires Inv(s)
    ensures Inv(RunAll(s, es))
    decreases |es|
  {
    hide Inv, Step;
    if es != [] {
      StepKeepsInv(s, es[0]);
      RunKeepsInv(Step(s, es[0]), es[1..]);
    }
  }

  // ----- what the gate promises -----

  /** At most one waiting task is not aborted, and it is the one that holds the gate. */
  lemma OneOwner(s: State, j: nat, k: nat)
    requires Inv(s) && j < |s.tasks| && k < |s.tasks| && s.tasks[j].Active() && s.tasks[k].Active()
    ensures TaskOk(s, j) && TaskOk(s, k)
    ensures !Aborted(s, s.tasks[j].ctrl) && !Aborted(s, s.tasks[k].ctrl) ==>
              j == k && s.busy && s.inFlight == Some(j) && s.abort == Some(s.tasks[j].ctrl)
  {
    assert TaskOk(s, j) && TaskOk(s, k);
  }

  /** The gate, the controller and the query log, as one value. */
  ghost function Gate(s: State): (Option<nat>, bool, Option<nat>, seq<bool>, seq<Execute>) {
    (s.inFlight, s.busy, s.abort, s.aborted, s.executes)
  }

  lemma FinishWithoutGate(s: State, k: nat, turn: nat, opts: Options, sql: string)
    requires GateInv(s) && k < |s.tasks| && s.tasks[k].Active() && s.inFlight != Some(k)
    ensures Gate(FinishAsk(s, k, turn, s.tasks[k].ctrl, opts, sql)) == Gate(s)
  {
    assert TaskOk(s, k);
    if s.inFlight.Some? { assert TaskOk(s, s.inFlight.value); }
  }

  lemma StreamStopWithoutGate(s: State, k: nat, u: Update, a: Task)
    requires GateInv(s) && k < |s.tasks| && s.tasks[k].Active() && s.inFlight != Some(k) && a.ctrl == s.tasks[k].ctrl
    ensures Gate(AfterStream(Patched(s, a.turn, u), k, a)) == Gate(s) && Gate(AfterStream(s, k, a)) == Gate(s)
  {
    hide FinishAsk, GateInv;
    PatchedKeepsGate(s, a.turn, u);
    FinishWithoutGate(s, k, a.turn, a.opts, a.sql);
    FinishWithoutGate(Patched(s, a.turn, u), k, a.turn, a.opts, a.sql);
  }

  /** A superseded task frees no gate, clears no controller and starts no query. */
  lemma SupersededTouchesNothing(s: State, e: Event)
    requires Inv(s) && TaskEvent(e) && s.inFlight != Some(e.k)
    ensures Gate(Step(s, e)) == Gate(s)
  {
    hide AfterStream, TurnsInv, SpinInv, Last;
    if e.k < |s.tasks| && s.tasks[e.k].Active() {
      var k := e.k;
      var a := s.tasks[k];
      assert TaskOk(s, k);
      if s.inFlight.Some? { assert TaskOk(s, s.inFlight.value); }
      hide GateInv;
      match e
      case StreamEnd(_) =>
        StreamStopWithoutGate(s, k, AskHalted, a);
        StreamStopWithoutGate(s, k, AskHalted, a.(flow := a.flow.(timer := false)));
      case StreamThrow(_, thrown) =>
        StreamStopWithoutGate(s, k, AskHalted, a.(code := thrown.code, settled := true, flow := a.flow.(timer := false)));
      case _ =>
    }
  }

  /** The only query a step can start is `k`'s, and then `k`'s controller is the current one. */
  ghost predicate Starts(s: State, t: State, k: nat) {
    || t.executes == s.executes
    || (&& |t.executes| == |s.executes| + 1 && t.executes[..|s.executes|] == s.executes
        && t.executes[|s.executes|].task == k
        && TaskOf(t, k).mode == Executing && t.abort == Some(TaskOf(t, k).ctrl))
  }

  /** A task's step may start its query with the gate as it is, or give the gate up. */
  ghost predicate TaskStarts(s: State, t: State, k: nat) {
    && |t.tasks| == |s.tasks|
    && Starts(s, t, k)
    && (t.inFlight == s.inFlight || (t.inFlight.None? && t.executes == s.executes))
  }

  lemma AfterStreamStarts(s: State, k: nat, a: Task)
    requires k < |s.tasks|
    ensures TaskStarts(s, AfterStream(s, k, a), k)
  {
    hide Patch;
  }

  lemma StreamStarts(s: State, k: nat, ev: ChatEvent)
    requires k < |s.tasks|
    ensures TaskStarts(s, StreamStep(s, k, s.tasks[k], ev), k)
  {
    hide Patch, Last, AskFailure;
  }

  lemma TickStarts(s: State, k: nat)
    requires k < |s.tasks|
    ensures TaskStarts(s, TickStep(s, k, s.tasks[k]), k)
  {
    hide Patch;
  }

  lemma SettleStarts(s: State, k: nat, u: Update)
    requires k < |s.tasks|
    ensures TaskStarts(s, FallbackStep(s, k, s.tasks[k], u), k) && TaskStarts(s, ExecuteStep(s, k, s.tasks[k], u), k)
  {
    hide Patch;
  }

  lemma StreamEndStarts(s: State, k: nat)
    requires k < |s.tasks|
    ensures TaskStarts(s, StreamEndStep(s, k, s.tasks[k]), k)
  {
    hide AfterStream, Patch;
    var a := s.tasks[k];
    var b := a.(flow := a.flow.(timer := false));
    AfterStreamStarts(s, k, a);
    AfterStreamStarts(Patched(s, a.turn, AskHalted), k, b);
    AfterStreamStarts(Patched(s, a.turn, AskFailed(EARLY_END)), k, b);
  }

  lemma StreamThrowStarts(s: State, k: nat, thrown: Thrown)
    requires k < |s.tasks|
    ensures TaskStarts(s, StreamThrowStep(s, k, s.tasks[k], thrown), k)
  {
    hide AfterStream, Patch, AskFailure;
    var a := s.tasks[k];
    var b := a.(code := thrown.code, settled := true, flow := a.flow.(timer := false));
    AfterStreamStarts(Patched(s, a.turn, AskHalted), k, b);
    AfterStreamStarts(Patched(s, a.turn, AskFailed(AskFailure(thrown))), k, b.(error := Some(AskFailure(thrown))));
  }

  lemma TaskEventStarts(s: State, e: Event)
    requires TaskEvent(e)
    ensures TaskStarts(s, Step(s, e), e.k)
  {
    hide StreamStep, StreamEndStep, StreamThrowStep, TickStep, FallbackStep, ExecuteStep, Last, AskFailure;
    if e.k < |s.tasks| {
      match e
      case Stream(k, ev) => StreamStarts(s, k, ev);
      case StreamEnd(k) => StreamEndStarts(s, k);
      case StreamThrow(k, thrown) => StreamThrowStarts(s, k, thrown);
      case Tick(k) => TickStarts(s, k);
      case Explained(k, answer, proposed) => SettleStarts(s, k, Answered(answer, proposed));
      case ExplainFailed(k) => SettleStarts(s, k, if Aborted(s, s.tasks[k].ctrl) then Halt else FallbackFailed(s.tasks[k].error));
      case Executed(k, rows) => SettleStarts(s, k, RunDone(rows));
      case ExecuteFailed(k, thrown, message, suggested) =>
        SettleStarts(s, k, Halt);
        SettleStarts(s, k, RunFailed(Failure(Or(thrown.code, "DB_QUERY_ERROR"), message, thrown.retryable), suggested));
      case Resume(_) =>
    }
  }

  /** A user's step may take the gate for a new task, and starts a query only for that one. */
  lemma UserEventStarts(s: State, e: Event)
    requires !TaskEvent(e)
    ensures var t, k := Step(s, e), |s.tasks|;
            && |t.tasks| >= |s.tasks| && Starts(s, t, k)
            && (t.executes != s.executes ==> t.inFlight == Some(k))
            && (t.inFlight == s.inFlight || t.inFlight.None? || t.inFlight == Some(k))
  {
    hide Patch, TrimSpace, TrimTranscript;
  }

  /** No step gives the gate back to a task that lost it. */
  lemma LostGateStaysLost(s: State, e: Event, k: nat)
    requires Inv(s) && k < |s.tasks| && s.inFlight != Some(k)
    ensures var t := Step(s, e); k < |t.tasks| && t.inFlight != Some(k)
    ensures var t := Step(s, e);
            && s.executes <= t.executes
            && forall i :: |s.executes| <= i < |t.executes| ==> t.executes[i].task != k
  {
    hide Step, Inv;
    if TaskEvent(e) {
      TaskEventStarts(s, e);
      if e.k == k { SupersededTouchesNothing(s, e); }
    } else {
      UserEventStarts(s, e);
    }
  }

  /** Over any run, a superseded task never starts another query and never holds the gate again. */
  lemma {:induction false} SupersededForGood(s: State, es: seq<Event>, k: nat)
    requires Inv(s) && k < |s.tasks| && s.inFlight != Some(k)
    ensures var t := RunAll(s, es);
            && k < |t.tasks| && t.inFlight != Some(k)
            && s.executes <= t.executes
            && forall i :: |s.executes| <= i < |t.executes| ==> t.executes[i].task != k
    decreases |es|
  {
    hide Inv, Step;
    if es != [] {
      StepKeepsInv(s, es[0]);
      LostGateStaysLost(s, es[0], k);
      SupersededForGood(Step(s, es[0]), es[1..], k);
    }
  }

  /** A query starts only in the step of the gate's owner, one at a time, under a live controller. */
  lemma QueriesStartOwned(s: State, e: Event)
    requires Inv(s)
    ensures var t := Step(s, e);
            t.executes != s.executes ==>
              && |t.executes| == |s.executes| + 1 && t.executes[..|s.executes|] == s.executes
              && var k := t.executes[|s.executes|].task;
                 t.inFlight == Some(k) && TaskOf(t, k).mode == Executing && t.abort == Some(TaskOf(t, k).ctrl)
  {
    hide Step, Inv;
    if TaskEvent(e) {
      TaskEventStarts(s, e);
      if s.inFlight != Some(e.k) { SupersededTouchesNothing(s, e); }
    } else {
      UserEventStarts(s, e);
    }
  }

  /** Stop reaches whatever is waiting: afterwards the gate is free and every waiting task is aborted. */
  lemma CancelReaches(s: State, k: nat)
    requires Inv(s)
    ensures var t := Step(s, Cancel);
            && t.inFlight.None? && !t.busy && t.turns == s.turns
            && (k < |t.tasks| && t.tasks[k].Active() ==> Aborted(t, t.tasks[k].ctrl))
  {
    StepKeepsInv(s, Cancel);
    if k < |s.tasks| { assert TaskOk(Step(s, Cancel), k); }
  }

  /** A turn is never left spinning with nothing behind it. */
  lemma NothingSpinsAlone(s: State, i: nat)
    requires Inv(s) && i < |s.turns| && forall k :: 0 <= k < |s.tasks| ==> !s.tasks[k].Active()
    ensures !Spinning(s.turns[i])
  {
    assert forall k: nat :: !Behind(s, k, s.turns[i].id);
  }

  // ----- after a reset -----

  /** Since a reset, shown turns are numbered from `floor`; call `k` was under way then and belongs to an older turn. */
  ghost predicate ResetInv(s: State, floor: nat, k: nat) {
    && floor <= s.nextTurn && k < |s.tasks| && s.inFlight != Some(k)
    && (s.tasks[k].Active() ==> s.tasks[k].turn < floor)
    && forall i :: 0 <= i < |s.turns| ==> s.turns[i].id >= floor
  }

  lemma StepKeepsReset(s: State, e: Event, floor: nat, k: nat)
    requires Inv(s) && ResetInv(s, floor, k)
    ensures ResetInv(Step(s, e), floor, k)
  {
    hide Inv;
    LostGateStaysLost(s, e, k);
    if TaskEvent(e) { TaskMoves(s, e); } else { UserStepKeepsReset(s, e, floor, k); }
  }

  lemma UserStepKeepsReset(s: State, e: Event, floor: nat, k: nat)
    requires ResetInv(s, floor, k) && !TaskEvent(e)
    ensures var t := Step(s, e);
            && floor <= t.nextTurn && k < |t.tasks| && t.tasks[k] == s.tasks[k]
            && forall i :: 0 <= i < |t.turns| ==> t.turns[i].id >= floor
  {
    hide AskStep, Patch;
    match e
    case Ask(question, opts) => AskKeepsReset(s, question, opts, floor, k);
    case Run(turn, sql) => PatchKeepsFloor(s.turns, turn, EnterRun, floor);
    case EditSql(turn, sql, _) =>
      PatchKeepsFloor(s.turns, turn, Edited(sql), floor);
      PatchKeepsFloor(Patch(s.turns, turn, Edited(sql)), turn, EnterRun, floor);
    case _ =>
  }

  lemma PatchKeepsFloor(ts: seq<Turn>, id: nat, u: Update, floor: nat)
    requires forall i :: 0 <= i < |ts| ==> ts[i].id >= floor
    ensures forall i :: 0 <= i < |Patch(ts, id, u)| ==> Patch(ts, id, u)[i].id >= floor
  {}

  lemma AskKeepsReset(s: State, question: string, opts: Options, floor: nat, k: nat)
    requires ResetInv(s, floor, k)
    ensures var t := AskStep(s, question, opts);
            && floor <= t.nextTurn && k < |t.tasks| && t.tasks[k] == s.tasks[k]
            && forall i :: 0 <= i < |t.turns| ==> t.turns[i].id >= floor
  {
    hide TrimSpace;
  }

  lemma {:induction false} RunKeepsReset(s: State, es: seq<Event>, floor: nat, k: nat)
    requires Inv(s) && ResetInv(s, floor, k)
    ensures Inv(RunAll(s, es)) && ResetInv(RunAll(s, es), floor, k)
    decreases |es|
  {
    hide Inv, Step, ResetInv;
    if es != [] {
      StepKeepsInv(s, es[0]);
      StepKeepsReset(s, es[0], floor, k);
      RunKeepsReset(Step(s, es[0]), es[1..], floor, k);
    }
  }

  /** The query of a turn that was never shown: `run` and `editSql` take any id. */
  predicate Unissued(s: State, k: nat) { TaskOf(s, k).mode == Executing && TaskOf(s, k).turn >= s.nextTurn }

  lemma ResetStarts(s: State, k: nat)
    requires Inv(s) && k < |s.tasks| && !Unissued(s, k)
    ensures ResetInv(Step(s, Reset), s.nextTurn, k)
  {}

  /**
   * After a reset and any run, a late event of a call that was under way changes no turn, no gate
   * and no controller.
   */
  lemma LateEventsAfterReset(s: State, es: seq<Event>, e: Event)
    requires Inv(s) && TaskEvent(e) && e.k < |s.tasks| && !Unissued(s, e.k)
    ensures var t := RunAll(Step(s, Reset), es); Step(t, e).turns == t.turns && Gate(Step(t, e)) == Gate(t)
  {
    hide Inv, Step, RunAll;
    var r := Step(s, Reset);
    StepKeepsInv(s, Reset);
    ResetStarts(s, e.k);
    RunKeepsReset(r, es, s.nextTurn, e.k);
    var t := RunAll(r, es);
    SupersededTouchesNothing(t, e);
    TaskMoves(t, e);
    hide Gate;
    if t.tasks[e.k].Active() {
      assert Step(t, e).turns == t.turns;
    } else {
      IdleEvent(t, e);
    }
  }

  lemma IdleEvent(s: State, e: Event)
    requires TaskEvent(e) && !TaskOf(s, e.k).Active()
    ensures Step(s, e).turns == s.turns
  {}

  /** Asked and cancelled `n` times. */
  function Asks(n: nat): seq<Event> {
    if n == 0 then [] else [Ask("q", Options(true, false)), Cancel] + Asks(n - 1)
  }

  lemma AskAndCancel(s: State, k: nat)
    requires s.inFlight.None? && k < |s.tasks|
    ensures var t := Step(Step(s, Ask("q", Options(true, false))), Cancel);
            && t.inFlight.None? && k < |t.tasks| && t.tasks[k] == s.tasks[k] && t.nextTurn == s.nextTurn + 1
            && t.turns != [] && t.turns[|t.turns| - 1].id == s.nextTurn && t.turns[|t.turns| - 1].phase == Thinking
  {
    assert TrimSpace("q") == "q";
    hide TrimSpace;
  }

  lemma {:induction false} AsksIssue(s: State, n: nat, k: nat)
    requires s.inFlight.None? && k < |s.tasks| && n > 0
    ensures var t := RunAll(s, Asks(n));
            && k < |t.tasks| && t.tasks[k] == s.tasks[k]
            && t.turns != [] && t.turns[|t.turns| - 1].id == s.nextTurn + n - 1 && t.turns[|t.turns| - 1].phase == Thinking
    decreases n
  {
    hide Step;
    var ask := Ask("q", Options(true, false));
    var t := Step(Step(s, ask), Cancel);
    AskAndCancel(s, k);
    assert Asks(n)[1..] == [Cancel] + Asks(n - 1) && ([Cancel] + Asks(n - 1))[1..] == Asks(n - 1);
    assert RunAll(s, Asks(n)) == RunAll(t, Asks(n - 1));
    if n > 1 { AsksIssue(t, n - 1, k); }
  }

  /** No late event of call `k` does anything after a reset and any run. */
  ghost predicate LateHarmless(s: State, k: nat) {
    forall es, e :: TaskEvent(e) && e.k == k ==>
      var t := RunAll(Step(s, Reset), es); Step(t, e).turns == t.turns && Gate(Step(t, e)) == Gate(t)
  }

  /** The late result of such a query lands on the turn that is given its id later. */
  lemma UnissuedLands(s: State, k: nat)
    requires k < |s.tasks| && Unissued(s, k)
    ensures !LateHarmless(s, k)
  {
    var r, n := Step(s, Reset), s.tasks[k].turn - s.nextTurn + 1;
    AsksIssue(r, n, k);
    hide Step, Gate, Asks, RunAll;
    var es, e := Asks(n), Executed(k, []);
    LandsOnLast(RunAll(r, es), k);
    assert TaskEvent(e) && e.k == k;
  }

  lemma LandsOnLast(t: State, k: nat)
    requires k < |t.tasks| && t.tasks[k].mode == Executing && t.turns != []
    requires t.turns[|t.turns| - 1].id == t.tasks[k].turn && t.turns[|t.turns| - 1].phase == Thinking
    ensures Step(t, Executed(k, [])).turns != t.turns
  {
    assert Step(t, Executed(k, [])).turns[|t.turns| - 1].phase == Done;
  }

  /** A reset silences a call for good exactly when it is not the query of a turn not yet numbered. */
  lemma LateEventsIff(s: State, k: nat)
    requires Inv(s) && k < |s.tasks|
    ensures LateHarmless(s, k) <==> !Unissued(s, k)
  {
    hide Inv, Step;
    if Unissued(s, k) { UnissuedLands(s, k); } else {
      forall es, e | TaskEvent(e) && e.k == k
        ensures var t := RunAll(Step(s, Reset), es); Step(t, e).turns == t.turns && Gate(Step(t, e)) == Gate(t)
      {
        LateEventsAfterReset(s, es, e);
      }
    }
  }

  // ----- the gate can always be freed -----

  ghost predicate EventsOf(es: seq<Event>, k: nat) {
    forall i :: 0 <= i < |es| ==> TaskEvent(es[i]) && es[i].k == k
  }

  ghost function Rank(m: Mode): nat {
    match m case Asking => 3 case Executing => 2 case Answering => 1 case Unwinding => 1 case Gone => 0
  }

  ghost function Finishing(m: Mode, k: nat): Event {
    match m
    case Asking => StreamEnd(k)
    case Executing => Executed(k, [])
    case Answering => Explained(k, "", "")
    case _ => Resume(k)
  }

  lemma OwnerAdvances(s: State, k: nat)
    requires Inv(s) && s.inFlight == Some(k)
    ensures var t := Step(s, Finishing(TaskOf(s, k).mode, k));
            t.inFlight.None? || (t.inFlight == Some(k) && Rank(TaskOf(t, k).mode) < Rank(TaskOf(s, k).mode))
  {
    hide Patch;
  }

  /** Whoever holds the gate can give it up within three steps of its own: `busy` cannot get stuck. */
  lemma {:induction false} OwnerCanFinish(s: State, k: nat) returns (es: seq<Event>)
    requires Inv(s) && s.inFlight == Some(k)
    ensures |es| <= Rank(TaskOf(s, k).mode) <= 3 && EventsOf(es, k)
    ensures RunAll(s, es).inFlight.None?
    decreases Rank(TaskOf(s, k).mode)
  {
    assert TaskOf(s, k).mode != Gone;
    hide Inv, Step;
    var e := Finishing(TaskOf(s, k).mode, k);
    var t := Step(s, e);
    OwnerAdvances(s, k);
    StepKeepsInv(s, e);
    if t.inFlight.None? {
      es := [e];
      assert RunAll(s, es) == RunAll(t, []);
    } else {
      var rest := OwnerCanFinish(t, k);
      es := [e] + rest;
      assert es[1..] == rest;
    }
  }

  // ----- the hook -----

  class AskHook {
    var inFlightRef: Option<nat>
    var busy: bool
    var abortRef: Option<nat>
    var aborted: seq<bool>
    var turns: seq<Turn>
    var nextTurn: nat
    /** The suspended calls; a call's index is its gate token. */
    var tasks: seq<Task>
    ghost var executes: seq<Execute>

    ghost function View(): State
      reads this
    {
      State(inFlightRef, busy, abortRef, aborted, turns, nextTurn, tasks, executes)
    }

    ghost predicate Valid()
      reads this
    {
      Inv(View())
    }

    constructor ()
      ensures Valid() && View() == INITIAL
    {
      inFlightRef, busy, abortRef, aborted, turns, nextTurn, tasks := None, false, None, [], [], 1, [];
      executes := [];
      new;
      InitialInv();
    }

    /** `doRun` until it awaits the transport. */
    method DoRun(token: nat, turn: nat, sql: string)
      requires token < |tasks|
      modifies this
      ensures View() == StartRun(old(View()), token, turn, sql)
    {
      var controller := |aborted|;
      aborted := aborted + [false];
      abortRef := Some(controller);
      turns := Patch(turns, turn, EnterRun);
      executes := executes + [Execute(token, turn, sql)];
      tasks := tasks[token := NO_TASK.(mode := Executing, turn := turn, ctrl := controller)];
    }

    method ReleaseGate(token: nat)
      requires token < |tasks|
      modifies this
      ensures View() == Release(old(View()), token)
    {
      if inFlightRef == Some(token) {
        busy, inFlightRef := false, None;
      }
      tasks := tasks[token := NO_TASK];
    }

    method TakeGate() returns (token: nat)
      modifies this
      ensures View() == Acquire(old(View())) && token == |old(tasks)| < |tasks|
    {
      token := |tasks|;
      inFlightRef, busy := Some(token), true;
      tasks := tasks + [NO_TASK.(mode := Unwinding)];
    }

    method Ask(question: string, opts: Options)
      requires Valid()
      modifies this
      ensures Valid() && View() == Step(old(View()), Event.Ask(question, opts))
    {
      hide Inv, TrimSpace, Patch, TrimTranscript;
      StepKeepsInv(View(), Event.Ask(question, opts));
      var q := TrimSpace(question);
      if q == "" || inFlightRef.Some? { return; }
      var token, id := |tasks|, nextTurn;
      inFlightRef := Some(token);
      nextTurn := nextTurn + 1;
      turns := TrimTranscript(turns + [Turn(id, q, Thinking, None, "", None, None, None, None, None)]);
      busy := true;
      var controller := |aborted|;
      aborted := aborted + [false];
      abortRef := Some(controller);
      tasks := tasks + [NO_TASK.(mode := Asking, turn := id, ctrl := controller, opts := opts)];
    }

    /** One event of the model's stream. */
    method OnChatEvent(k: nat, ev: ChatEvent)
      requires Valid() && k < |tasks| && tasks[k].mode == Asking
      modifies this
      ensures Valid() && View() == Step(old(View()), Stream(k, ev))
    {
      hide Inv, Patch, Last, AskFailure;
      StepKeepsInv(View(), Stream(k, ev));
      var a := tasks[k];
      match ev
      case StageEvent(stage) =>
        turns := Patch(turns, a.turn, SetStage(stage));
        tasks := tasks[k := a.(flow := a.flow.(text := ""))];
      case TokenEvent(text) =>
        tasks := tasks[k := a.(flow := a.flow.(text := Last(a.flow.text + text, MAX_STREAM_CHARS), timer := true))];
      case SqlEvent(sql) =>
        turns := Patch(turns, a.turn, ShowSql(sql));
        tasks := tasks[k := a.(sql := sql, settled := true, flow := a.flow.(text := "", timer := false))];
      case ErrorEvent(e) =>
        var failure := AskFailure(e);
        turns := Patch(turns, a.turn, AskFailed(failure));
        tasks := tasks[k := a.(code := e.code, error := Some(failure), settled := true,
                               flow := a.flow.(text := "", timer := false))];
      case DoneEvent =>
    }

    /** `ask` from the end of its stream loop to its next await, or to its end. */
    method ContinueAsk(k: nat, a: Task)
      requires k < |tasks|
      modifies this
      ensures View() == AfterStream(old(View()), k, a)
    {
      hide Patch;
      var isAborted := a.ctrl < |aborted| && aborted[a.ctrl];
      if a.sql == "" && a.opts.answerSchemaQuestions
         && (a.code == Some("LLM_BAD_OUTPUT") || a.code == Some("LLM_REFUSAL")) && !isAborted {
        turns := Patch(turns, a.turn, EnterFallback);
        tasks := tasks[k := a.(mode := Answering)];
        return;
      }
      if abortRef == Some(a.ctrl) { abortRef := None; }
      if a.sql != "" && !a.opts.requireApproval && !isAborted {
        DoRun(k, a.turn, a.sql);
      } else {
        ReleaseGate(k);
      }
    }

    method OnStreamEnd(k: nat)
      requires Valid() && k < |tasks| && tasks[k].mode == Asking
      modifies this
      ensures Valid() && View() == Step(old(View()), StreamEnd(k))
    {
      hide Inv, Patch, AfterStream;
      StepKeepsInv(View(), StreamEnd(k));
      var a := tasks[k];
      if !a.settled {
        var isAborted := a.ctrl < |aborted| && aborted[a.ctrl];
        turns := Patch(turns, a.turn, if isAborted then AskHalted else AskFailed(EARLY_END));
        a := a.(flow := a.flow.(timer := false));
      }
      ContinueAsk(k, a);
    }

    method OnStreamThrow(k: nat, e: Thrown)
      requires Valid() && k < |tasks| && tasks[k].mode == Asking
      modifies this
      ensures Valid() && View() == Step(old(View()), StreamThrow(k, e))
    {
      hide Inv, Patch, AfterStream, AskFailure;
      StepKeepsInv(View(), StreamThrow(k, e));
      var a := tasks[k];
      var b := a.(code := e.code, settled := true, flow := a.flow.(timer := false));
      if e.abortError || (a.ctrl < |aborted| && aborted[a.ctrl]) {
        turns := Patch(turns, a.turn, AskHalted);
      } else {
        b := b.(error := Some(AskFailure(e)));
        turns := Patch(turns, a.turn, AskFailed(AskFailure(e)));
      }
      ContinueAsk(k, b);
    }

    method OnTick(k: nat)
      requires Valid() && k < |tasks| && tasks[k].Chatting()
      modifies this
      ensures Valid() && View() == Step(old(View()), Tick(k))
    {
      hide Inv, Patch;
      StepKeepsInv(View(), Tick(k));
      var a := tasks[k];
      if !a.flow.timer { return; }
      if abortRef != Some(a.ctrl) || (a.ctrl < |aborted| && aborted[a.ctrl]) {
        tasks := tasks[k := a.(flow := a.flow.(timer := false))];
        return;
      }
      if a.flow.text == a.flow.flushed { return; }
      turns := Patch(turns, a.turn, ShowStream(a.flow.text));
      tasks := tasks[k := a.(flow := a.flow.(flushed := a.flow.text))];
    }

    method EndFallback(k: nat, a: Task, u: Update)
      requires k < |tasks|
      modifies this
      ensures View() == FallbackStep(old(View()), k, a, u)
    {
      hide Patch;
      turns := Patch(turns, a.turn, u);
      if abortRef == Some(a.ctrl) { abortRef := None; }
      ReleaseGate(k);
    }

    method OnExplained(k: nat, answer: string, proposed: string)
      requires Valid() && k < |tasks| && tasks[k].mode == Answering
      modifies this
      ensures Valid() && View() == Step(old(View()), Explained(k, answer, proposed))
    {
      hide Inv, FallbackStep;
      StepKeepsInv(View(), Explained(k, answer, proposed));
      EndFallback(k, tasks[k], Answered(answer, proposed));
    }

    method OnExplainFailed(k: nat)
      requires Valid() && k < |tasks| && tasks[k].mode == Answering
      modifies this
      ensures Valid() && View() == Step(old(View()), ExplainFailed(k))
    {
      hide Inv, FallbackStep;
      StepKeepsInv(View(), ExplainFailed(k));
      var a := tasks[k];
      EndFallback(k, a, if a.ctrl < |aborted| && aborted[a.ctrl] then Halt else FallbackFailed(a.error));
    }

    /** The rest of `doRun` after its await. */
    method EndRun(k: nat, a: Task, u: Update)
      requires k < |tasks|
      modifies this
      ensures View() == ExecuteStep(old(View()), k, a, u)
    {
      hide Patch;
      turns := Patch(turns, a.turn, u);
      if abortRef == Some(a.ctrl) { abortRef := None; }
      tasks := tasks[k := NO_TASK.(mode := Unwinding)];
    }

    method OnExecuted(k: nat, rows: seq<string>)
      requires Valid() && k < |tasks| && tasks[k].mode == Executing
      modifies this
      ensures Valid() && View() == Step(old(View()), Executed(k, rows))
    {
      hide Inv, ExecuteStep;
      StepKeepsInv(View(), Executed(k, rows));
      EndRun(k, tasks[k], RunDone(rows));
    }

    method OnExecuteFailed(k: nat, e: Thrown, message: string, suggested: Option<string>)
      requires Valid() && k < |tasks| && tasks[k].mode == Executing
      modifies this
      ensures Valid() && View() == Step(old(View()), ExecuteFailed(k, e, message, suggested))
    {
      hide Inv, ExecuteStep, Or;
      StepKeepsInv(View(), ExecuteFailed(k, e, message, suggested));
      var a := tasks[k];
      if e.abortError || (a.ctrl < |aborted| && aborted[a.ctrl]) {
        EndRun(k, a, Halt);
      } else {
        EndRun(k, a, RunFailed(Failure(Or(e.code, "DB_QUERY_ERROR"), message, e.retryable), suggested));
      }
    }

    /** The caller of `doRun` resumes. */
    method OnResume(k: nat)
      requires Valid() && k < |tasks| && tasks[k].mode == Unwinding
      modifies this
      ensures Valid() && View() == Step(old(View()), Resume(k))
    {
      hide Inv;
      StepKeepsInv(View(), Resume(k));
      ReleaseGate(k);
    }

    /** `sql` is what the caller's render had for this turn, "" if it had none. */
    method Run(turn: nat, sql: string)
      requires Valid()
      modifies this
      ensures Valid() && View() == Step(old(View()), Event.Run(turn, sql))
    {
      hide Inv;
      StepKeepsInv(View(), Event.Run(turn, sql));
      if sql == "" || inFlightRef.Some? { return; }
      var token := TakeGate();
      DoRun(token, turn, sql);
    }

    method EditSql(turn: nat, sql: string, opts: Options)
      requires Valid()
      modifies this
      ensures Valid() && View() == Step(old(View()), Event.EditSql(turn, sql, opts))
    {
      hide Inv, Patch;
      StepKeepsInv(View(), Event.EditSql(turn, sql, opts));
      turns := Patch(turns, turn, Edited(sql));
      if !opts.requireApproval && inFlightRef.None? {
        var token := TakeGate();
        DoRun(token, turn, sql);
      }
    }

    method Cancel()
      requires Valid()
      modifies this
      ensures Valid() && View() == Step(old(View()), Event.Cancel)
    {
      hide Inv;
      StepKeepsInv(View(), Event.Cancel);
      if abortRef.Some? && abortRef.value < |aborted| { aborted := aborted[abortRef.value := true]; }
      abortRef, inFlightRef, busy := None, None, false;
    }

    method Reset()
      requires Valid()
      modifies this
      ensures Valid() && View() == Step(old(View()), Event.Reset)
    {
      hide Inv;
      StepKeepsInv(View(), Event.Reset);
      if abortRef.Some? && abortRef.value < |aborted| { aborted := aborted[abortRef.value := true]; }
      abortRef, inFlightRef := None, None;
      turns := [];
      busy := false;
    }
  }
}
