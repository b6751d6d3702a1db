/**
 * The chat stream: engine callbacks push events into a queue and wake a generator that the
 * response writer pulls from.  `Push` and `Settle` are the engine's callbacks, `Next` is the
 * generator between two suspensions; a schedule is any sequence of the three.
 */
module EventBridge {
  import opened Text

  datatype EngineEvent = Stage(stage: string) | Token(text: string) | Internal(detail: string)

  datatype Outcome = Answer(sql: string, explanation: string, autoLimited: bool) | Failure(error: string)

  datatype ChatEvent =
    | StageOut(stage: string)
    | TokenOut(text: string)
    | SqlOut(sql: string, explanation: string, autoLimited: bool)
    | ErrorOut(error: string)
    | DoneOut

  /** Where the generator is suspended. */
  datatype Place =
    | NotStarted
    | InLoop      // at a yield of the first drain
    | Waiting     // on a promise that only `notify` resolves
    | Woken       // that promise is resolved, the continuation has not run yet
    | InFinal     // at a yield of the last drain
    | AtResult
    | AtDone
    | Finished

  datatype State = State(
    queue: seq<EngineEvent>,
    notify: bool,
    settled: Option<Outcome>,
    place: Place,
    // history: everything pushed, how much of it before settlement, and everything yielded
    pushed: seq<EngineEvent>,
    before: nat,
    output: seq<ChatEvent>)

  const INITIAL := State([], false, None, NotStarted, [], 0, [])

  function Visible(e: EngineEvent): Option<ChatEvent> {
    match e
    case Stage(stage) => Some(StageOut(stage))
    case Token(text) => Some(TokenOut(text))
    case Internal(_) => None
  }

  /** The stage and token events of a sequence, in order. */
  function Shown(q: seq<EngineEvent>): seq<ChatEvent> {
    if q == [] then [] else (if Visible(q[0]).Some? then [Visible(q[0]).value] else []) + Shown(q[1..])
  }

  function ResultOf(o: Outcome): ChatEvent {
    match o
    case Answer(sql, explanation, autoLimited) => SqlOut(sql, explanation, autoLimited)
    case Failure(error) => ErrorOut(error)
  }

  // ----- steps -----

  function Wake(s: State): State {
    if s.notify then s.(notify := false, place := Woken) else s
  }

  /** The engine runs from the first pull until it settles. */
  function Push(s: State, e: EngineEvent): State {
    if s.place == NotStarted then s else Wake(s.(queue := s.queue + [e], pushed := s.pushed + [e]))
  }

  function Settle(s: State, o: Outcome): State {
    if s.place == NotStarted || s.settled.Some? then s
    else Wake(s.(settled := Some(o), before := |s.pushed|))
  }

  /** The queue from its first event that is shown. */
  function SkipHidden(q: seq<EngineEvent>): (r: seq<EngineEvent>)
    ensures r != [] ==> Visible(r[0]).Some?
    ensures |r| <= |q| && Shown(r) == Shown(q)
  {
    if q == [] || Visible(q[0]).Some? then q else SkipHidden(q[1..])
  }

  function Yield(s: State, q: seq<EngineEvent>, at: Place): State
    requires q != [] && Visible(q[0]).Some?
  {
    s.(queue := q[1..], output := s.output + [Visible(q[0]).value], place := at)
  }

  /** From the loop's drain on. */
  function Drain(s: State): State {
    var q := SkipHidden(s.queue);
    if q != [] then Yield(s, q, InLoop)
    else if s.settled.Some? then Final(s.(queue := []))
    else s.(queue := [], notify := true, place := Waiting)
  }

  /** From the last drain on. */
  function Final(s: State): State
    requires s.settled.Some?
  {
    var q := SkipHidden(s.queue);
    if q != [] then Yield(s, q, InFinal)
    else s.(queue := [], output := s.output + [ResultOf(s.settled.value)], place := AtResult)
  }

  /** One resumption of the generator. A generator that waits has nothing to resume it. */
  function Next(s: State): State {
    match s.place
    case NotStarted => if s.settled.Some? then Final(s) else Drain(s)
    case Woken => if s.settled.Some? then Final(s) else Drain(s)
    case InLoop => Drain(s)
    case Waiting => s
    case InFinal => if s.settled.Some? then Final(s) else s
    case AtResult => s.(output := s.output + [DoneOut], place := AtDone)
    case AtDone => s.(place := Finished)
    case Finished => s
  }

  datatype Event = Pushed(e: EngineEvent) | Settled(o: Outcome) | Pulled

  function Step(s: State, e: Event): State {
    match e
    case Pushed(ev) => Push(s, ev)
    case Settled(o) => Settle(s, o)
    case Pulled => Next(s)
  }

  function Run(s: State, es: seq<Event>): State
    decreases |es|
  {
    if es == [] then s else Run(Step(s, es[0]), es[1..])
  }

  // ----- invariant -----

  function ShownFirst(e: EngineEvent): seq<ChatEvent> { if Visible(e).Some? then [Visible(e).value] else [] }

  lemma ShownNone()
    ensures Shown([]) == []
  {}

  lemma ShownStep(q: seq<EngineEvent>)
    requires q != []
    ensures Shown(q) == ShownFirst(q[0]) + Shown(q[1..])
  {
    hide Visible;
  }

  lemma Regroup(a: seq<ChatEvent>, b: seq<ChatEvent>, c: seq<ChatEvent>)
    ensures a + (b + c) == (a + b) + c
  {}

  lemma {:induction false} ShownConcat(p: seq<EngineEvent>, q: seq<EngineEvent>)
    ensures Shown(p + q) == Shown(p) + Shown(q)
  {
    hide Visible, Shown;
    if p == [] {
      assert p + q == q;
      ShownNone();
    } else {
      assert (p + q)[1..] == p[1..] + q;
      ShownConcat(p[1..], q);
      ShownStep(p);
      ShownStep(p + q);
      Regroup(ShownFirst(p[0]), Shown(p[1..]), Shown(q));
    }
  }

  predicate Ended(p: Place) { p == AtResult || p == AtDone || p == Finished }

  /** What is written after the shown events once the generator has got there. */
  function Tail(s: State): seq<ChatEvent>
    requires s.settled.Some?
  {
    match s.place
    case AtResult => [ResultOf(s.settled.value)]
    case AtDone => [ResultOf(s.settled.value), DoneOut]
    case Finished => [ResultOf(s.settled.value), DoneOut]
    case _ => []
  }

  /** The output is the first `n` pushed events, shown, then the tail. */
  ghost predicate Wrote(s: State, n: nat)
    requires s.settled.Some?
  {
    s.before <= n <= |s.pushed| && s.output == Shown(s.pushed[..n]) + Tail(s)
  }

  /** A waiting generator has nothing to deliver, and only a waiting one can be notified. */
  ghost predicate WakeInv(s: State) {
    && (s.notify <==> s.place == Waiting)
    && (s.place == Waiting ==> s.settled.None? && s.queue == [])
  }

  ghost predicate OutputInv(s: State) {
    && (s.settled.Some? ==> s.before <= |s.pushed|)
    && (s.place == InFinal ==> s.settled.Some?)
    && (if Ended(s.place) then s.settled.Some? && (exists n: nat :: Wrote(s, n))
        else Shown(s.pushed) == s.output + Shown(s.queue))
  }

  ghost predicate Inv(s: State) { WakeInv(s) && OutputInv(s) }

  lemma PushKeepsInv(s: State, e: EngineEvent)
    requires Inv(s)
    ensures Inv(Push(s, e))
  {
    hide Shown, Visible;
    var t := Push(s, e);
    if Ended(s.place) {
      var n: nat :| Wrote(s, n);
      assert t.pushed[..n] == s.pushed[..n];
      assert Wrote(t, n);
    } else if s.place != NotStarted {
      ShownConcat(s.pushed, [e]);
      ShownConcat(s.queue, [e]);
      Regroup(s.output, Shown(s.queue), Shown([e]));
    }
  }

  lemma SettleKeepsInv(s: State, o: Outcome)
    requires Inv(s)
    ensures Inv(Settle(s, o))
  {
    var t := Settle(s, o);
    if Ended(s.place) { assert t == s; }
  }

  lemma FinalKeepsInv(s: State)
    requires OutputInv(s) && s.settled.Some? && !Ended(s.place) && !s.notify
    ensures Inv(Final(s))
  {
    var t := Final(s);
    if t.place == AtResult {
      assert s.pushed[..|s.pushed|] == s.pushed;
      assert Wrote(t, |s.pushed|);
    }
  }

  lemma DrainKeepsInv(s: State)
    requires OutputInv(s) && !Ended(s.place) && !s.notify
    ensures Inv(Drain(s))
  {
    hide Final;
    if SkipHidden(s.queue) == [] && s.settled.Some? {
      FinalKeepsInv(s.(queue := []));
    }
  }

  lemma NextKeepsInv(s: State)
    requires Inv(s)
    ensures Inv(Next(s))
  {
    hide Drain, Final;
    var t := Next(s);
    if Ended(s.place) {
      var n: nat :| Wrote(s, n);
      assert Wrote(t, n);
    } else if s.place != Waiting {
      DrainKeepsInv(s);
      if s.settled.Some? { FinalKeepsInv(s); }
    }
  }

  lemma StepKeepsInv(s: State, e: Event)
    requires Inv(s)
    ensures Inv(Step(s, e))
  {
    match e
    case Pushed(ev) => PushKeepsInv(s, ev);
    case Settled(o) => SettleKeepsInv(s, o);
    case Pulled => NextKeepsInv(s);
  }

  lemma InitialInv()
    ensures Inv(INITIAL)
  {}

  lemma {:induction false} RunKeepsInv(s: State, es: seq<Event>)
    requires Inv(s)
    ensures Inv(Run(s, es))
    decreases |es|
  {
    hide Inv, Step;
    if es != [] {
      StepKeepsInv(s, es[0]);
      RunKeepsInv(Step(s, es[0]), es[1..]);
    }
  }

  // ----- what the stream promises -----

  /** No lost wakeup: under every schedule, "settled but still waiting" is unreachable. */
  lemma NeverSettledAndWaiting(es: seq<Event>)
    ensures var s := Run(INITIAL, es); s.settled.Some? || s.queue != [] ==> s.place != Waiting
  {
    InitialInv();
    RunKeepsInv(INITIAL, es);
  }

  // What the stream has to say, from the schedule alone.

  /** The engine runs from the first pull on. */
  predicate Begun(es: seq<Event>) { es != [] && (es[|es| - 1] == Pulled || Begun(es[..|es| - 1])) }

  /** What the engine emits. */
  function Emitted(es: seq<Event>): seq<EngineEvent> {
    if es == [] then []
    else
      var front, last := es[..|es| - 1], es[|es| - 1];
      Emitted(front) + (if last.Pushed? && Begun(front) then [last.e] else [])
  }

  /** How it settles, once. */
  function Settlement(es: seq<Event>): Option<Outcome> {
    if es == [] then None
    else
      var front, last := es[..|es| - 1], es[|es| - 1];
      if Settlement(front).Some? then Settlement(front) else if last.Settled? && Begun(front) then Some(last.o) else None
  }

  /** How much it emits before it settles. */
  function EmittedBefore(es: seq<Event>): nat {
    if es == [] then 0
    else
      var front := es[..|es| - 1];
      if Settlement(front).Some? then EmittedBefore(front) else if Settlement(es).Some? then |Emitted(front)| else 0
  }

  /** The stage and token events. */
  function Public(q: seq<EngineEvent>): seq<EngineEvent> {
    if q == [] then [] else (if q[0].Internal? then [] else [q[0]]) + Public(q[1..])
  }

  lemma {:induction false} RunSnoc(s: State, es: seq<Event>, e: Event)
    ensures Run(s, es + [e]) == Step(Run(s, es), e)
    decreases |es|
  {
    hide Step;
    if es == [] {
      assert es + [e] == [e] && [e][1..] == [];
      assert Run(Step(s, e), []) == Step(s, e);
    } else {
      assert (es + [e])[0] == es[0] && (es + [e])[1..] == es[1..] + [e];
      RunSnoc(Step(s, es[0]), es[1..], e);
    }
  }

  /** The history a state keeps is that of its schedule. */
  ghost predicate Keeps(s: State, es: seq<Event>) {
    && s.pushed == Emitted(es) && s.settled == Settlement(es) && s.before == EmittedBefore(es)
    && (s.place == NotStarted <==> !Begun(es)) && (s.place == NotStarted ==> s.settled.None?)
    && (s.notify ==> s.place == Waiting)
  }

  lemma HistoryNext(es: seq<Event>, e: Event)
    ensures var fs := es + [e];
            && (Begun(fs) <==> e == Pulled || Begun(es))
            && Emitted(fs) == Emitted(es) + (if e.Pushed? && Begun(es) then [e.e] else [])
            && Settlement(fs) == (if Settlement(es).None? && e.Settled? && Begun(es) then Some(e.o) else Settlement(es))
            && EmittedBefore(fs) ==
                 (if Settlement(es).None? && Settlement(fs).Some? then |Emitted(es)| else if Settlement(es).Some? then EmittedBefore(es) else 0)
  {
    var fs := es + [e];
    assert fs[..|fs| - 1] == es && fs[|fs| - 1] == e;
  }

  /** Before it settles nothing is counted. */
  lemma NoneBefore(es: seq<Event>)
    requires Settlement(es).None?
    ensures EmittedBefore(es) == 0
  {
    if es != [] { assert Settlement(es[..|es| - 1]).None?; }
  }

  lemma StepKeepsHistory(s: State, es: seq<Event>, e: Event)
    requires Keeps(s, es) && WakeInv(s)
    ensures Keeps(Step(s, e), es + [e])
  {
    HistoryNext(es, e);
    if Settlement(es).None? { NoneBefore(es); }
    hide SkipHidden, Begun, Emitted, Settlement, EmittedBefore;
  }

  lemma {:induction false} HistoryIs(es: seq<Event>)
    ensures Keeps(Run(INITIAL, es), es) && Inv(Run(INITIAL, es))
    decreases |es|
  {
    hide Step, Keeps, OutputInv;
    InitialInv();
    RunKeepsInv(INITIAL, es);
    if es == [] {
      assert Keeps(INITIAL, []) by { KeepsNothing(); }
    } else {
      var n := |es| - 1;
      assert es[..n] + [es[n]] == es;
      HistoryIs(es[..n]);
      RunSnoc(INITIAL, es[..n], es[n]);
      StepKeepsHistory(Run(INITIAL, es[..n]), es[..n], es[n]);
    }
  }

  lemma KeepsNothing()
    ensures Keeps(INITIAL, [])
  {}

  /** `v` tells the public event `e`. */
  ghost predicate Tells(v: ChatEvent, e: EngineEvent) {
    && (forall x :: v == StageOut(x) <==> e == Stage(x)) && (forall x :: v == TokenOut(x) <==> e == Token(x))
    && (v.StageOut? || v.TokenOut?)
  }

  ghost predicate TellsAll(vs: seq<ChatEvent>, q: seq<EngineEvent>) {
    |vs| == |q| && forall i :: 0 <= i < |q| ==> Tells(vs[i], q[i])
  }

  lemma {:induction false} ShownTells(q: seq<EngineEvent>)
    ensures TellsAll(Shown(q), Public(q))
  {
    if q != [] {
      ShownTells(q[1..]);
      ShownStep(q);
      if !q[0].Internal? { assert Tells(ShownFirst(q[0])[0], q[0]); }
    }
  }

  /** `v` tells how the engine settled. */
  ghost predicate TellsOutcome(v: ChatEvent, o: Outcome) {
    && (forall sql, explanation, limited ::
          v == SqlOut(sql, explanation, limited) <==> o == Answer(sql, explanation, limited))
    && (forall error :: v == ErrorOut(error) <==> o == Failure(error))
    && (v.SqlOut? || v.ErrorOut?)
  }

  /**
   * Under every schedule a finished stream tells the public events in the order emitted, all those
   * emitted before settlement among them; then the outcome; then that it is done; and nothing else.
   */
  lemma StreamShape(es: seq<Event>) returns (n: nat)
    requires Run(INITIAL, es).place == Finished
    ensures Settlement(es).Some? && EmittedBefore(es) <= n <= |Emitted(es)|
    ensures var out, q := Run(INITIAL, es).output, Public(Emitted(es)[..n]);
            && |out| == |q| + 2 && TellsAll(out[..|q|], q)
            && TellsOutcome(out[|q|], Settlement(es).value) && out[|q| + 1] == DoneOut
  {
    hide Shown;
    HistoryIs(es);
    var s := Run(INITIAL, es);
    n :| Wrote(s, n);
    ShownTells(s.pushed[..n]);
    OutcomeTold(s.settled.value);
    assert s.output[..|Shown(s.pushed[..n])|] == Shown(s.pushed[..n]);
  }

  lemma OutcomeTold(o: Outcome)
    ensures TellsOutcome(ResultOf(o), o)
  {}

  /** Nothing yielded is taken back. */
  lemma StepExtendsOutput(s: State, e: Event)
    ensures s.output <= Step(s, e).output
  {
    hide SkipHidden;
  }

  /** Before the result, what has been yielded tells the first public events, in the order emitted. */
  lemma InterimPrefix(es: seq<Event>)
    requires !Ended(Run(INITIAL, es).place)
    ensures var out, q := Run(INITIAL, es).output, Public(Emitted(es)); |out| <= |q| && TellsAll(out, q[..|out|])
  {
    hide Shown;
    HistoryIs(es);
    ShownTells(Emitted(es));
  }

  // ----- progress -----

  function Distance(s: State): nat {
    match s.place
    case Finished => 0
    case AtDone => 1
    case AtResult => 2
    case _ => |s.queue| + 3
  }

  lemma PullProgress(s: State)
    requires Inv(s) && s.settled.Some? && s.place != Finished
    ensures Distance(Next(s)) < Distance(s) && Next(s).settled == s.settled
  {}

  function Pulls(n: nat): (r: seq<Event>)
    ensures |r| == n
  {
    seq(n, _ => Pulled)
  }

  /** Once the engine has settled, at most |queue| + 3 pulls end the stream. */
  lemma {:induction false} SettledStreamEnds(s: State, n: nat)
    requires Inv(s) && s.settled.Some? && n >= Distance(s)
    ensures Run(s, Pulls(n)).place == Finished
    decreases n
  {
    if n > 0 {
      assert Pulls(n)[1..] == Pulls(n - 1);
      StepKeepsInv(s, Pulled);
      if s.place != Finished { PullProgress(s); }
      SettledStreamEnds(Next(s), n - 1);
    }
  }

  // ----- the generator -----

  class ChatStream {
    var queue: seq<EngineEvent>
    var notify: bool
    var settled: Option<Outcome>
    var place: Place
    ghost var pushed: seq<EngineEvent>
    ghost var before: nat
    ghost var output: seq<ChatEvent>

    ghost function View(): State
      reads this
    {
      State(queue, notify, settled, place, pushed, before, output)
    }

    ghost predicate Valid()
      reads this
    {
      Inv(View())
    }

    constructor ()
      ensures Valid() && View() == INITIAL
    {
      queue, notify, settled, place, pushed, before, output := [], false, None, NotStarted, [], 0, [];
    }

    /** Resolves the promise the generator waits on, if there is one. */
    method WakeUp()
      modifies this`notify, this`place
      ensures View() == Wake(old(View()))
    {
      if notify {
        notify, place := false, Woken;
      }
    }

    method OnEvent(e: EngineEvent)
      requires Valid() && place != NotStarted
      modifies this
      ensures Valid() && View() == Push(old(View()), e)
    {
      hide Inv;
      PushKeepsInv(View(), e);
      queue, pushed := queue + [e], pushed + [e];
      WakeUp();
    }

    method OnSettled(o: Outcome)
      requires Valid() && place != NotStarted && settled.None?
      modifies this
      ensures Valid() && View() == Settle(old(View()), o)
    {
      hide Inv;
      SettleKeepsInv(View(), o);
      settled, before := Some(o), |pushed|;
      WakeUp();
    }

    /** `drain` up to its next yield, or its end. */
    method DrainQueue() returns (r: Option<ChatEvent>)
      modifies this`queue
      ensures var q := SkipHidden(old(queue));
              if q == [] then r == None && queue == [] else r == Visible(q[0]) && queue == q[1..]
    {
      while queue != []
        invariant SkipHidden(queue) == SkipHidden(old(queue))
        decreases |queue|
      {
        var e := queue[0];
        queue := queue[1..];
        if Visible(e).Some? { return Visible(e); }
      }
      return None;
    }

    /** One resumption: what it yields, or None if it now waits or has ended. */
    method Pull() returns (r: Option<ChatEvent>)
      requires Valid() && place != Waiting && place != Finished
      modifies this
      ensures Valid() && View() == Next(old(View()))
      ensures View().output == old(View()).output + (if r.Some? then [r.value] else [])
    {
      hide Inv, SkipHidden;
      NextKeepsInv(View());
      PlaceOfFinal(View());
      if place == AtResult {
        place, output := AtDone, output + [DoneOut];
        return Some(DoneOut);
      }
      if place == AtDone {
        place := Finished;
        return None;
      }
      var last := place == InFinal || (place != InLoop && settled.Some?);
      r := DrainQueue();
      if r.Some? {
        place, output := if last then InFinal else InLoop, output + [r.value];
        return;
      }
      if settled.Some? {
        r := Some(ResultOf(settled.value));
        place, output := AtResult, output + [r.value];
        return;
      }
      notify, place := true, Waiting;
    }
  }

  lemma PlaceOfFinal(s: State)
    requires Inv(s)
    ensures s.place == InFinal ==> s.settled.Some?
    ensures SkipHidden([]) == []
  {}
}
