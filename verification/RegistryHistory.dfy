/**
 * What the registry knows, told from the requests it got and from nothing else: which connection an
 * id names, which ids may be deleted, and which requests are under way.  Each is decided by the last
 * event that says something about it.
 */
module RegistryHistory {
  import opened Text
  import opened ConnectionRegistry

  // ----- a fact that some events turn on and some turn off -----

  /** No event from `n` on turns it off. */
  ghost predicate Unbroken(off: (State, Event) -> bool, s: State, es: seq<Event>, n: nat) {
    forall i :: n <= i < |es| ==> !off(Run(s, es[..i]), es[i])
  }

  ghost predicate TurnedOn(on: (State, Event) -> bool, off: (State, Event) -> bool, s: State, es: seq<Event>) {
    exists i :: 0 <= i < |es| && on(Run(s, es[..i]), es[i]) && Unbroken(off, s, es, i + 1)
  }

  lemma {:induction false} RunSnoc(s: State, es: seq<Event>, e: Event)
    ensures Run(s, es + [e]) == Step(Run(s, es), e)
    decreases |es|
  {
    hide Step;
    var all := es + [e];
    if es == [] {
      assert all[1..] == [];
    } else {
      assert all[1..] == es[1..] + [e];
      RunSnoc(Step(s, es[0]), es[1..], e);
    }
  }

  lemma UnbrokenSnoc(off: (State, Event) -> bool, s: State, es: seq<Event>, e: Event, n: nat)
    requires n <= |es|
    ensures Unbroken(off, s, es + [e], n) <==> Unbroken(off, s, es, n) && !off(Run(s, es), e)
  {
    var all := es + [e];
    assert all[..|es|] == es && all[|es|] == e;
    forall i | 0 <= i < |es| ensures all[..i] == es[..i] && all[i] == es[i] {}
    if Unbroken(off, s, all, n) {
      forall i | n <= i < |es| ensures !off(Run(s, es[..i]), es[i]) { assert !off(Run(s, all[..i]), all[i]); }
      assert !off(Run(s, all[..|es|]), all[|es|]);
    }
  }

  lemma TurnedOnSnoc(on: (State, Event) -> bool, off: (State, Event) -> bool, s: State, es: seq<Event>, e: Event)
    ensures TurnedOn(on, off, s, es + [e]) <==> on(Run(s, es), e) || (TurnedOn(on, off, s, es) && !off(Run(s, es), e))
  {
    var all := es + [e];
    assert all[..|es|] == es && all[|es|] == e;
    forall i | 0 <= i < |es| ensures all[..i] == es[..i] && all[i] == es[i] {}
    forall n: nat | n <= |es| ensures Unbroken(off, s, all, n) <==> Unbroken(off, s, es, n) && !off(Run(s, es), e) {
      UnbrokenSnoc(off, s, es, e, n);
    }
    hide Run;
    if on(Run(s, es), e) {
      assert on(Run(s, all[..|es|]), all[|es|]) && Unbroken(off, s, all, |es| + 1);
    }
    if TurnedOn(on, off, s, es) && !off(Run(s, es), e) {
      var i :| 0 <= i < |es| && on(Run(s, es[..i]), es[i]) && Unbroken(off, s, es, i + 1);
      assert on(Run(s, all[..i]), all[i]) && Unbroken(off, s, all, i + 1);
    }
    if TurnedOn(on, off, s, all) && !on(Run(s, es), e) {
      var i :| 0 <= i < |all| && on(Run(s, all[..i]), all[i]) && Unbroken(off, s, all, i + 1);
      assert i < |es|;
      assert on(Run(s, es[..i]), es[i]) && Unbroken(off, s, es, i + 1);
    }
  }

  /** What each step turns on, or leaves on, holds after a run iff it was turned on last, or never off. */
  lemma {:induction false} LastSays(
      fact: State -> bool, on: (State, Event) -> bool, off: (State, Event) -> bool, s: State, es: seq<Event>)
    requires Inv(s)
    requires forall t, e :: Inv(t) ==> (fact(Step(t, e)) <==> on(t, e) || (fact(t) && !off(t, e)))
    ensures fact(Run(s, es)) <==> (fact(s) && Unbroken(off, s, es, 0)) || TurnedOn(on, off, s, es)
    decreases |es|
  {
    hide Inv, Step;
    if es != [] {
      var front, last := es[..|es| - 1], es[|es| - 1];
      assert es == front + [last];
      LastSays(fact, on, off, s, front);
      RunKeepsInv(s, front);
      RunSnoc(s, front, last);
      UnbrokenSnoc(off, s, front, last, 0);
      TurnedOnSnoc(on, off, s, front, last);
      hide Run, Unbroken, TurnedOn;
    }
  }

  // ----- which connection an id names -----

  /** A create of `id` has connected, as the connection numbered `h`. */
  predicate Opens(s: State, e: Event, kind: Kind, id: ConnId, h: nat) {
    && e.Created? && e.ok && e.k < |s.tasks| && s.tasks[e.k].mode == Creating
    && s.tasks[e.k].kind == kind && s.tasks[e.k].id == id && h == |s.homes|
  }

  /** A delete of `id` has closed. */
  predicate Closes(s: State, e: Event, kind: Kind, id: ConnId) {
    && e.Deleted? && e.ok && e.k < |s.tasks| && s.tasks[e.k].mode == Deleting
    && s.tasks[e.k].kind == kind && s.tasks[e.k].id == id
  }

  /** Other events, and drivers that failed, change no name. */
  lemma OthersKeep(s: State, e: Event)
    requires !((e.Created? || e.Deleted?) && e.ok)
    ensures var t := Step(s, e); t.byId == s.byId && t.mongoById == s.mongoById && t.dynamicIds == s.dynamicIds
  {
    hide TrimSpace, Numeral, Register, Unregister, At;
  }

  lemma StepNames(s: State, e: Event, kind: Kind, id: ConnId, h: nat)
    requires Inv(s)
    ensures At(Step(s, e), kind, id) == Some(h) <==>
            Opens(s, e, kind, id, h) || (At(s, kind, id) == Some(h) && !Closes(s, e, kind, id))
  {
    if e.Created? && e.ok && e.k < |s.tasks| && s.tasks[e.k].mode == Creating {
      CreatedAt(s, e.k);
    } else if e.Deleted? && e.ok && e.k < |s.tasks| && s.tasks[e.k].mode == Deleting {
      DeletedAt(s, e.k);
    } else if !((e.Created? || e.Deleted?) && e.ok) {
      OthersKeep(s, e);
    }
    hide Inv, CreateStart, CreateDone, DeleteStart, DeleteDone, UseMongo;
  }

  /**
   * An id names a connection iff a create of that id opened it, or it was there at the start, and no
   * delete of that id and kind has closed since.
   */
  lemma NamedIff(s: State, es: seq<Event>, kind: Kind, id: ConnId, h: nat)
    requires Inv(s)
    ensures At(Run(s, es), kind, id) == Some(h) <==>
            || (At(s, kind, id) == Some(h) && forall i :: 0 <= i < |es| ==> !Closes(Run(s, es[..i]), es[i], kind, id))
            || exists i :: 0 <= i < |es| && Opens(Run(s, es[..i]), es[i], kind, id, h)
                 && forall j :: i < j < |es| ==> !Closes(Run(s, es[..j]), es[j], kind, id)
  {
    hide Step, Run, Inv, Opens, Closes, At, Registered;
    var fact := (t: State) => At(t, kind, id) == Some(h);
    var on := (t: State, e: Event) => Opens(t, e, kind, id, h);
    var off := (t: State, e: Event) => Closes(t, e, kind, id);
    forall t, e | Inv(t) ensures fact(Step(t, e)) <==> on(t, e) || (fact(t) && !off(t, e)) { StepNames(t, e, kind, id, h); }
    LastSays(fact, on, off, s, es);
  }

  // ----- which ids may be deleted -----

  predicate OpensId(s: State, e: Event, id: ConnId) { Opens(s, e, Sql, id, |s.homes|) || Opens(s, e, Mongo, id, |s.homes|) }

  predicate ClosesId(s: State, e: Event, id: ConnId) { Closes(s, e, Sql, id) || Closes(s, e, Mongo, id) }

  lemma StepDynamic(s: State, e: Event, id: ConnId)
    requires Inv(s)
    ensures id in Step(s, e).dynamicIds <==> OpensId(s, e, id) || (id in s.dynamicIds && !ClosesId(s, e, id))
  {
    if e.Created? && e.ok && e.k < |s.tasks| && s.tasks[e.k].mode == Creating {
      CreatedAt(s, e.k);
    } else if e.Deleted? && e.ok && e.k < |s.tasks| && s.tasks[e.k].mode == Deleting {
      DeletedAt(s, e.k);
    } else if !((e.Created? || e.Deleted?) && e.ok) {
      OthersKeep(s, e);
    }
    hide Inv, At, CreateStart, CreateDone, DeleteStart, DeleteDone, UseMongo;
  }

  /** An id may be deleted iff a create of it has opened a connection and no delete of it has closed one since. */
  lemma DeletableIff(s: State, es: seq<Event>, id: ConnId)
    requires Inv(s)
    ensures id in Run(s, es).dynamicIds <==>
            || (id in s.dynamicIds && forall i :: 0 <= i < |es| ==> !ClosesId(Run(s, es[..i]), es[i], id))
            || exists i :: 0 <= i < |es| && OpensId(Run(s, es[..i]), es[i], id)
                 && forall j :: i < j < |es| ==> !ClosesId(Run(s, es[..j]), es[j], id)
  {
    hide Step, Run, Inv, OpensId, ClosesId;
    var fact := (t: State) => id in t.dynamicIds;
    var on := (t: State, e: Event) => OpensId(t, e, id);
    var off := (t: State, e: Event) => ClosesId(t, e, id);
    forall t, e | Inv(t) ensures fact(Step(t, e)) <==> on(t, e) || (fact(t) && !off(t, e)) { StepDynamic(t, e, id); }
    LastSays(fact, on, off, s, es);
  }

  // ----- which requests are under way -----

  /** The id a create asks for: the one given, without white space around it, or the next free name. */
  function Asked(s: State, given: string): (id: ConnId) {
    if TrimSpace(given) != "" then TrimSpace(given) else "dyn_" + Numeral(s.dynamicSeq + 1)
  }

  /** A request is accepted, as the `k`-th; `t` is what it waits to do. */
  predicate Accepts(s: State, e: Event, k: nat, t: Task) {
    && k == |s.tasks| && t.id == (match e case Create(given, _) => Asked(s, given) case Delete(id) => id case _ => t.id)
    && match e
       case Create(_, kind) =>
         && t.mode == Creating && t.kind == kind && t.handle == 0
         && At(s, Sql, t.id).None? && At(s, Mongo, t.id).None? && t.id !in s.creatingIds
       case Delete(_) => t.mode == Deleting && At(s, t.kind, t.id) == Some(t.handle) && t.id in s.dynamicIds
       case _ => false
  }

  predicate Finishes(e: Event, k: nat, t: Task) {
    || (e.Created? && e.k == k && t.mode == Creating)
    || (e.Deleted? && e.k == k && t.mode == Deleting)
  }

  lemma DoneRequests(s: State, e: Event, k: nat, t: Task)
    requires t.mode != Gone && (e.Created? || e.Deleted?)
    ensures k < |Step(s, e).tasks| && Step(s, e).tasks[k] == t <==> k < |s.tasks| && s.tasks[k] == t && !Finishes(e, k, t)
  {
    if e.k < |s.tasks| {
      RegisterFrame(s, s.tasks[e.k].id, s.tasks[e.k].kind);
      DeletedTasks(s, e.k, e.ok);
    }
    hide Register, Unregister, DeleteDone;
  }

  lemma NewCreate(s: State, given: string, kind: Kind, k: nat, t: Task)
    requires t.mode != Gone
    ensures var u := CreateStart(s, given, kind);
            k < |u.tasks| && u.tasks[k] == t <==>
            Accepts(s, Create(given, kind), k, t) || (k < |s.tasks| && s.tasks[k] == t)
  {
    hide TrimSpace, Numeral;
  }

  lemma NewDelete(s: State, id: ConnId, k: nat, t: Task)
    requires (At(s, Sql, id).None? || At(s, Mongo, id).None?) && t.mode != Gone
    ensures var u := DeleteStart(s, id);
            k < |u.tasks| && u.tasks[k] == t <==> Accepts(s, Delete(id), k, t) || (k < |s.tasks| && s.tasks[k] == t)
  {}

  lemma StepRequests(s: State, e: Event, k: nat, t: Task)
    requires Inv(s) && t.mode != Gone
    ensures k < |Step(s, e).tasks| && Step(s, e).tasks[k] == t <==>
            Accepts(s, e, k, t) || (k < |s.tasks| && s.tasks[k] == t && !Finishes(e, k, t))
  {
    match e
    case Create(given, kind) => NewCreate(s, given, kind, k, t);
    case Delete(id) => NewDelete(s, id, k, t) by { assert At(s, Sql, id).None? || At(s, Mongo, id).None?; }
    case Use(_) =>
    case _ => DoneRequests(s, e, k, t);
    hide Inv, CreateStart, CreateDone, DeleteStart, DeleteDone, At, Asked;
  }

  lemma DeletedTasks(s: State, k: nat, ok: bool)
    requires k < |s.tasks|
    ensures DeleteDone(s, k, ok).tasks == s.tasks[k := NO_TASK]
  {
    UnregisterFrame(s.(closed := s.closed + {s.tasks[k].handle}), s.tasks[k].id, s.tasks[k].kind);
    hide Unregister;
  }

  /** A request is under way iff it was accepted and its driver call has not come back. */
  lemma UnderWayIff(s: State, es: seq<Event>, k: nat, t: Task)
    requires Inv(s) && t.mode != Gone
    ensures k < |Run(s, es).tasks| && Run(s, es).tasks[k] == t <==>
            || (k < |s.tasks| && s.tasks[k] == t && forall i :: 0 <= i < |es| ==> !Finishes(es[i], k, t))
            || exists i :: 0 <= i < |es| && Accepts(Run(s, es[..i]), es[i], k, t)
                 && forall j :: i < j < |es| ==> !Finishes(es[j], k, t)
  {
    hide Step, Run, Inv, Accepts, Finishes;
    var fact := (u: State) => k < |u.tasks| && u.tasks[k] == t;
    var on := (u: State, e: Event) => Accepts(u, e, k, t);
    var off := (u: State, e: Event) => Finishes(e, k, t);
    forall u, e | Inv(u) ensures fact(Step(u, e)) <==> on(u, e) || (fact(u) && !off(u, e)) { StepRequests(u, e, k, t); }
    LastSays(fact, on, off, s, es);
  }

  /** An id is reserved iff a create of it is under way. */
  lemma ReservedIff(s: State, es: seq<Event>, id: ConnId)
    requires Inv(s)
    ensures id in Run(s, es).creatingIds <==>
            exists k: nat :: k < |Run(s, es).tasks| && Run(s, es).tasks[k].mode == Creating && Run(s, es).tasks[k].id == id
  {
    RunKeepsInv(s, es);
    var t := Run(s, es);
    hide Run;
    if id in t.creatingIds {
      var k: nat :| Reserves(t, k, id);
      assert k < |t.tasks| && t.tasks[k].mode == Creating && t.tasks[k].id == id;
    }
    forall k: nat | k < |t.tasks| && t.tasks[k].mode == Creating && t.tasks[k].id == id ensures id in t.creatingIds {
      assert TaskOk(t, k);
    }
  }

  function UnnamedCreates(es: seq<Event>): nat {
    if es == [] then 0
    else (if es[0].Create? && TrimSpace(es[0].given) == "" then 1 else 0) + UnnamedCreates(es[1..])
  }

  lemma StepNumber(s: State, e: Event)
    ensures Step(s, e).dynamicSeq == s.dynamicSeq + if e.Create? && TrimSpace(e.given) == "" then 1 else 0
  {
    hide TrimSpace, Numeral, Index, Engine, Without;
  }

  /** Each create without an id takes the next number, whether it is accepted or not. */
  lemma {:induction false} NumbersTaken(s: State, es: seq<Event>)
    ensures Run(s, es).dynamicSeq == s.dynamicSeq + UnnamedCreates(es)
    decreases |es|
  {
    hide TrimSpace, Step;
    if es != [] {
      StepNumber(s, es[0]);
      NumbersTaken(Step(s, es[0]), es[1..]);
    }
  }
}
