/**
 * The server's connection registry: connections created and deleted at run time across awaits,
 * with id reservations.  Every event is the code between two awaits of `createConnection` or
 * `deleteConnection`.  Each opened connection has a handle, so that closing one and removing
 * another can be told apart.
 */
module ConnectionRegistry {
  import opened Text

  type ConnId = string

  datatype Kind = Sql | Mongo

  datatype Entry = Entry(id: ConnId, handle: nat)

  datatype Mode = Creating | Deleting | Gone

  /** A suspended request. */
  datatype Task = Task(mode: Mode, id: ConnId, kind: Kind, handle: nat)

  const NO_TASK := Task(Gone, "", Sql, 0)

  /** Where a handle was registered when it was opened. */
  datatype Home = Home(id: ConnId, kind: Kind)

  datatype State = State(
    connectors: seq<Entry>,
    byId: map<ConnId, nat>,
    engine: Option<seq<Entry>>,
    mongoById: map<ConnId, nat>,
    mongoEngines: map<ConnId, nat>,
    creatingIds: set<ConnId>,
    dynamicIds: set<ConnId>,
    dynamicSeq: nat,
    tasks: seq<Task>,
    // history
    configured: set<ConnId>,
    homes: seq<Home>,
    closed: set<nat>)

  /** What `id` names among the connections of one kind. */
  function At(s: State, kind: Kind, id: ConnId): Option<nat> {
    if kind == Sql then if id in s.byId then Some(s.byId[id]) else None
    else if id in s.mongoById then Some(s.mongoById[id]) else None
  }

  predicate Registered(s: State, id: ConnId) { At(s, Sql, id).Some? || At(s, Mongo, id).Some? }

  // ----- the SQL side is rebuilt from its list -----

  /** `new Map(list)`: a later entry wins. */
  function Index(cs: seq<Entry>): map<ConnId, nat> {
    if cs == [] then map[] else Index(cs[..|cs| - 1])[cs[|cs| - 1].id := cs[|cs| - 1].handle]
  }

  function Without(cs: seq<Entry>, id: ConnId): seq<Entry> {
    if cs == [] then []
    else Without(cs[..|cs| - 1], id) + (if cs[|cs| - 1].id == id then [] else [cs[|cs| - 1]])
  }

  /** Null while there is no connector. */
  function Engine(cs: seq<Entry>): Option<seq<Entry>> { if cs == [] then None else Some(cs) }

  function SetConnectors(s: State, next: seq<Entry>): State {
    s.(connectors := next, byId := Index(next), engine := Engine(next))
  }

  // ----- events -----

  function Became(s: State, k: nat, t: Task): State
    requires k < |s.tasks|
  {
    s.(tasks := s.tasks[k := t])
  }

  /** The id is checked and reserved in one step, before any await. */
  function Reserve(s: State, id: ConnId, kind: Kind): State {
    if Registered(s, id) || id in s.creatingIds then s
    else s.(creatingIds := s.creatingIds + {id}, tasks := s.tasks + [Task(Creating, id, kind, 0)])
  }

  function CreateStart(s: State, given: string, kind: Kind): State {
    var id := TrimSpace(given);
    if id != "" then Reserve(s, id, kind)
    else Reserve(s.(dynamicSeq := s.dynamicSeq + 1), "dyn_" + Numeral(s.dynamicSeq + 1), kind)
  }

  function Register(s: State, id: ConnId, kind: Kind): State {
    var h := |s.homes|;
    var t := s.(homes := s.homes + [Home(id, kind)], dynamicIds := s.dynamicIds + {id});
    if kind == Mongo then t.(mongoById := t.mongoById[id := h]) else SetConnectors(t, t.connectors + [Entry(id, h)])
  }

  /** The driver connected, or failed; the reservation ends either way. */
  function CreateDone(s: State, k: nat, ok: bool): State
    requires k < |s.tasks|
  {
    var a := s.tasks[k];
    var t := if ok then Register(s, a.id, a.kind) else s;
    Became(t.(creatingIds := t.creatingIds - {a.id}), k, NO_TASK)
  }

  function DeleteStart(s: State, id: ConnId): State {
    if !Registered(s, id) || id !in s.dynamicIds then s
    else
      var kind := if id in s.mongoById then Mongo else Sql;
      s.(tasks := s.tasks + [Task(Deleting, id, kind, At(s, kind, id).value)])
  }

  function Unregister(s: State, id: ConnId, kind: Kind): State {
    var t := s.(dynamicIds := s.dynamicIds - {id});
    if kind == Mongo then t.(mongoById := t.mongoById - {id}, mongoEngines := t.mongoEngines - {id})
    else SetConnectors(t, Without(t.connectors, id))
  }

  /** The driver closed, or failed to. */
  function DeleteDone(s: State, k: nat, ok: bool): State
    requires k < |s.tasks|
  {
    var a := s.tasks[k];
    var t := if ok then Unregister(s.(closed := s.closed + {a.handle}), a.id, a.kind) else s;
    Became(t, k, NO_TASK)
  }

  /** A Mongo request builds that connection's engine on first use. */
  function UseMongo(s: State, id: ConnId): State {
    if id in s.mongoEngines || id !in s.mongoById then s
    else s.(mongoEngines := s.mongoEngines[id := s.mongoById[id]])
  }

  datatype Event =
    | Create(given: string, kind: Kind)
    | Created(k: nat, ok: bool)
    | Delete(id: ConnId)
    | Deleted(k: nat, ok: bool)
    | Use(id: ConnId)

  function Step(s: State, e: Event): State {
    match e
    case Create(given, kind) => CreateStart(s, given, kind)
    case Created(k, ok) => if k < |s.tasks| && s.tasks[k].mode == Creating then CreateDone(s, k, ok) else s
    case Delete(id) => DeleteStart(s, id)
    case Deleted(k, ok) => if k < |s.tasks| && s.tasks[k].mode == Deleting then DeleteDone(s, k, ok) else s
    case Use(id) => UseMongo(s, id)
  }

  function Run(s: State, es: seq<Event>): State
    decreases |es|
  {
    if es == [] then s else Run(Step(s, es[0]), es[1..])
  }

  // ----- invariant -----

  ghost predicate Distinct(cs: seq<Entry>) {
    forall i, j :: 0 <= i < j < |cs| ==> cs[i].id != cs[j].id
  }

  /** The SQL ids have no duplicate, and the map and the engine are those of the list. */
  ghost predicate SqlInv(s: State) {
    Distinct(s.connectors) && s.byId == Index(s.connectors) && s.engine == Engine(s.connectors)
  }

  ghost predicate IdsInv(s: State) {
    && (forall id :: At(s, Sql, id).None? || At(s, Mongo, id).None?)
    && (forall id :: id in s.dynamicIds ==> Registered(s, id))
    && (forall id :: id in s.configured ==> Registered(s, id) && id !in s.dynamicIds)
    && (forall id :: id in s.mongoEngines ==> At(s, Mongo, id) == Some(s.mongoEngines[id]))
  }

  ghost predicate TaskOk(s: State, k: nat)
    requires k < |s.tasks|
  {
    var a := s.tasks[k];
    && (a.mode == Creating ==> a.id in s.creatingIds && !Registered(s, a.id))
    && (a.mode == Deleting ==> a.id !in s.configured && a.handle < |s.homes| && s.homes[a.handle] == Home(a.id, a.kind))
  }

  ghost predicate Reserves(s: State, k: nat, id: ConnId) {
    k < |s.tasks| && s.tasks[k].mode == Creating && s.tasks[k].id == id
  }

  ghost predicate TasksInv(s: State) { forall k :: 0 <= k < |s.tasks| ==> TaskOk(s, k) }

  /** Every reservation belongs to exactly one create. */
  ghost predicate ReserveInv(s: State) {
    && (forall id :: id in s.creatingIds ==> exists k: nat :: Reserves(s, k, id))
    && (forall j: nat, k: nat, id :: Reserves(s, j, id) && Reserves(s, k, id) ==> j == k)
  }

  ghost predicate EntryOk(s: State, kind: Kind, id: ConnId) {
    var h := At(s, kind, id);
    h.Some? ==> h.value < |s.homes| && s.homes[h.value] == Home(id, kind) && h.value !in s.closed
  }

  /**
   * Whatever is registered is open, and registered where it was opened for.  A handle counts as
   * closed from the step that ends its delete, although the driver closes it during the await before.
   */
  ghost predicate HandlesInv(s: State) {
    && (forall kind, id :: EntryOk(s, kind, id))
    && (forall h :: h in s.closed ==> h < |s.homes|)
  }

  ghost predicate Inv(s: State) { SqlInv(s) && IdsInv(s) && TasksInv(s) && ReserveInv(s) && HandlesInv(s) }

  lemma IndexAppend(cs: seq<Entry>, e: Entry)
    ensures Index(cs + [e]) == Index(cs)[e.id := e.handle]
  {
    assert (cs + [e])[..|cs|] == cs;
  }

  lemma {:induction false} IndexKeys(cs: seq<Entry>, i: nat)
    requires i < |cs|
    ensures cs[i].id in Index(cs)
  {
    if i < |cs| - 1 { IndexKeys(cs[..|cs| - 1], i); }
  }

  lemma DropUpdated(m: map<ConnId, nat>, id: ConnId, h: nat)
    ensures m[id := h] - {id} == m - {id}
  {}

  lemma DropCommutes(m: map<ConnId, nat>, id: ConnId, e: Entry)
    requires e.id != id
    ensures m[e.id := e.handle] - {id} == (m - {id})[e.id := e.handle]
  {}

  lemma {:induction false} IndexWithout(cs: seq<Entry>, id: ConnId)
    ensures Index(Without(cs, id)) == Index(cs) - {id}
  {
    if cs != [] {
      var front, last := cs[..|cs| - 1], cs[|cs| - 1];
      IndexWithout(front, id);
      assert cs == front + [last];
      IndexAppend(front, last);
      if last.id == id {
        assert Without(cs, id) == Without(front, id);
        DropUpdated(Index(front), id, last.handle);
      } else {
        IndexAppend(Without(front, id), last);
        DropCommutes(Index(front), id, last);
      }
    }
  }

  lemma {:induction false} WithoutSubset(cs: seq<Entry>, id: ConnId, i: nat) returns (j: nat)
    requires i < |Without(cs, id)|
    ensures j < |cs| && Without(cs, id)[i] == cs[j]
  {
    if i < |Without(cs[..|cs| - 1], id)| { j := WithoutSubset(cs[..|cs| - 1], id, i); } else { j := |cs| - 1; }
  }

  lemma {:induction false} WithoutDistinct(cs: seq<Entry>, id: ConnId)
    requires Distinct(cs)
    ensures Distinct(Without(cs, id))
  {
    if cs != [] {
      var front := cs[..|cs| - 1];
      WithoutDistinct(front, id);
      forall i: nat | i < |Without(front, id)| ensures Without(front, id)[i].id != cs[|cs| - 1].id {
        var j := WithoutSubset(front, id, i);
      }
    }
  }

  lemma RegisterKeepsSql(s: State, id: ConnId, kind: Kind)
    requires SqlInv(s) && !Registered(s, id)
    ensures SqlInv(Register(s, id, kind))
    ensures var t, h := Register(s, id, kind), |s.homes|;
            && t.byId == (if kind == Sql then s.byId[id := h] else s.byId)
            && t.mongoById == (if kind == Mongo then s.mongoById[id := h] else s.mongoById)
  {
    IndexAppend(s.connectors, Entry(id, |s.homes|));
    forall i: nat | i < |s.connectors| ensures s.connectors[i].id != id { IndexKeys(s.connectors, i); }
  }

  lemma UnregisterKeepsSql(s: State, id: ConnId, kind: Kind)
    requires SqlInv(s)
    ensures SqlInv(Unregister(s, id, kind))
    ensures var t := Unregister(s, id, kind);
            && t.byId == (if kind == Sql then s.byId - {id} else s.byId)
            && t.mongoById == (if kind == Mongo then s.mongoById - {id} else s.mongoById)
  {
    IndexWithout(s.connectors, id);
    WithoutDistinct(s.connectors, id);
  }

  // ----- every step keeps it -----

  lemma ReserveAdd(s: State, t: State, id: ConnId)
    requires ReserveInv(s) && id !in s.creatingIds && TasksInv(s) && t.creatingIds == s.creatingIds + {id}
    requires |t.tasks| == |s.tasks| + 1 && t.tasks[..|s.tasks|] == s.tasks && Reserves(t, |s.tasks|, id)
    ensures ReserveInv(t)
  {
    forall k: nat, x | k != |s.tasks| ensures Reserves(t, k, x) == Reserves(s, k, x) {
      if k < |s.tasks| { assert t.tasks[k] == t.tasks[..|s.tasks|][k]; }
    }
    forall k: nat, x | Reserves(s, k, x) ensures x != id { assert TaskOk(s, k); }
    forall x | x in t.creatingIds ensures exists k: nat :: Reserves(t, k, x) {
      if x != id {
        var k: nat :| Reserves(s, k, x);
        assert Reserves(t, k, x);
      }
    }
  }

  lemma ReserveDrop(s: State, t: State, k: nat)
    requires ReserveInv(s) && k < |s.tasks| && s.tasks[k].mode == Creating
    requires t.creatingIds == s.creatingIds - {s.tasks[k].id} && t.tasks == s.tasks[k := NO_TASK]
    ensures ReserveInv(t)
  {
    assert Reserves(s, k, s.tasks[k].id);
    forall j: nat, x | j != k ensures Reserves(t, j, x) == Reserves(s, j, x) {}
    forall x | x in t.creatingIds ensures exists j: nat :: Reserves(t, j, x) {
      var j: nat :| Reserves(s, j, x);
      assert Reserves(t, j, x);
    }
  }

  lemma ReserveSame(s: State, t: State)
    requires ReserveInv(s) && t.creatingIds == s.creatingIds
    requires forall k: nat, x :: Reserves(t, k, x) == Reserves(s, k, x)
    ensures ReserveInv(t)
  {
    forall x | x in t.creatingIds ensures exists k: nat :: Reserves(t, k, x) {
      var k: nat :| Reserves(s, k, x);
      assert Reserves(t, k, x);
    }
  }

  lemma ReserveKeepsInv(s: State, id: ConnId, kind: Kind)
    requires Inv(s)
    ensures Inv(Reserve(s, id, kind))
  {
    hide Index, Distinct, ReserveInv;
    var t := Reserve(s, id, kind);
    forall k, x ensures EntryOk(t, k, x) && At(t, k, x) == At(s, k, x) { assert EntryOk(s, k, x); }
    forall k | 0 <= k < |t.tasks| ensures TaskOk(t, k) { if k < |s.tasks| { assert TaskOk(s, k); } }
    if |t.tasks| > |s.tasks| { ReserveAdd(s, t, id); }
  }

  lemma CountKeepsInv(s: State, n: nat)
    requires Inv(s)
    ensures Inv(s.(dynamicSeq := n))
  {
    hide Index, Distinct, ReserveInv;
    var t := s.(dynamicSeq := n);
    forall kind, x ensures EntryOk(t, kind, x) && At(t, kind, x) == At(s, kind, x) { assert EntryOk(s, kind, x); }
    forall k | 0 <= k < |t.tasks| ensures TaskOk(t, k) { assert TaskOk(s, k); }
    forall k: nat, x ensures Reserves(t, k, x) == Reserves(s, k, x) {}
    ReserveSame(s, t);
  }

  lemma CreateStartKeepsInv(s: State, given: string, kind: Kind)
    requires Inv(s)
    ensures Inv(CreateStart(s, given, kind))
  {
    hide TrimSpace, Numeral, Inv, Reserve;
    if TrimSpace(given) != "" {
      ReserveKeepsInv(s, TrimSpace(given), kind);
    } else {
      CountKeepsInv(s, s.dynamicSeq + 1);
      ReserveKeepsInv(s.(dynamicSeq := s.dynamicSeq + 1), "dyn_" + Numeral(s.dynamicSeq + 1), kind);
    }
  }

  /** What registering leaves alone. */
  lemma RegisterFrame(s: State, id: ConnId, kind: Kind)
    ensures var t := Register(s, id, kind);
            && t.creatingIds == s.creatingIds && t.tasks == s.tasks && t.configured == s.configured
            && t.mongoEngines == s.mongoEngines && t.closed == s.closed
            && t.dynamicIds == s.dynamicIds + {id} && t.homes == s.homes + [Home(id, kind)]
  {}

  lemma UnregisterFrame(s: State, id: ConnId, kind: Kind)
    ensures var t := Unregister(s, id, kind);
            && t.creatingIds == s.creatingIds && t.tasks == s.tasks && t.configured == s.configured
            && t.mongoEngines == (if kind == Mongo then s.mongoEngines - {id} else s.mongoEngines)
            && t.closed == s.closed && t.dynamicIds == s.dynamicIds - {id} && t.homes == s.homes
  {}

  /** What a finished create changes. */
  lemma CreatedAt(s: State, k: nat)
    requires Inv(s) && k < |s.tasks| && s.tasks[k].mode == Creating
    ensures TaskOk(s, k)
    ensures var a, t := s.tasks[k], CreateDone(s, k, true);
            && (forall kind, id :: At(t, kind, id) == if kind == a.kind && id == a.id then Some(|s.homes|) else At(s, kind, id))
            && t.tasks == s.tasks[k := NO_TASK] && t.creatingIds == s.creatingIds - {a.id}
            && t.dynamicIds == s.dynamicIds + {a.id} && t.homes == s.homes + [Home(a.id, a.kind)]
            && t.configured == s.configured && t.closed == s.closed && t.mongoEngines == s.mongoEngines
  {
    assert TaskOk(s, k);
    var a, t := s.tasks[k], CreateDone(s, k, true);
    RegisterKeepsSql(s, a.id, a.kind);
    RegisterFrame(s, a.id, a.kind);
    hide Register, Index, SqlInv, IdsInv, TasksInv, ReserveInv, HandlesInv, TaskOk;
    assert t.byId == Register(s, a.id, a.kind).byId && t.mongoById == Register(s, a.id, a.kind).mongoById;
    AtAdded(s, t, a.id, a.kind, |s.homes|);
  }

  lemma AtAdded(s: State, t: State, id: ConnId, kind: Kind, h: nat)
    requires t.byId == (if kind == Sql then s.byId[id := h] else s.byId)
    requires t.mongoById == (if kind == Mongo then s.mongoById[id := h] else s.mongoById)
    ensures forall m, x :: At(t, m, x) == if m == kind && x == id then Some(h) else At(s, m, x)
  {}

  /** What a finished delete changes. */
  lemma DeletedAt(s: State, k: nat)
    requires Inv(s) && k < |s.tasks| && s.tasks[k].mode == Deleting
    ensures TaskOk(s, k)
    ensures var a, t := s.tasks[k], DeleteDone(s, k, true);
            && (forall kind, id :: At(t, kind, id) == if kind == a.kind && id == a.id then None else At(s, kind, id))
            && t.tasks == s.tasks[k := NO_TASK] && t.creatingIds == s.creatingIds
            && t.dynamicIds == s.dynamicIds - {a.id} && t.homes == s.homes
            && t.configured == s.configured && t.closed == s.closed + {a.handle}
            && t.mongoEngines == (if a.kind == Mongo then s.mongoEngines - {a.id} else s.mongoEngines)
  {
    assert TaskOk(s, k);
    var a := s.tasks[k];
    var c := s.(closed := s.closed + {a.handle});
    UnregisterKeepsSql(c, a.id, a.kind);
    UnregisterFrame(c, a.id, a.kind);
    hide Unregister, Index, SqlInv, IdsInv, TasksInv, ReserveInv, HandlesInv;
  }

  lemma RegisterKeepsList(s: State, k: nat)
    requires Inv(s) && k < |s.tasks| && s.tasks[k].mode == Creating
    ensures SqlInv(CreateDone(s, k, true))
  {
    assert TaskOk(s, k);
    RegisterKeepsSql(s, s.tasks[k].id, s.tasks[k].kind);
    hide Register, Index, Distinct, IdsInv, ReserveInv, TasksInv, HandlesInv, At;
  }

  /** A free id, registered as one kind and made dynamic. */
  lemma IdsAdd(s: State, t: State, id: ConnId, kind: Kind, h: nat)
    requires IdsInv(s) && !Registered(s, id)
    requires forall m, x :: At(t, m, x) == if m == kind && x == id then Some(h) else At(s, m, x)
    requires t.dynamicIds == s.dynamicIds + {id} && t.configured == s.configured && t.mongoEngines == s.mongoEngines
    ensures IdsInv(t)
  {
    hide At;
  }

  lemma RegisterKeepsIds(s: State, k: nat)
    requires Inv(s) && k < |s.tasks| && s.tasks[k].mode == Creating
    ensures var t := CreateDone(s, k, true); SqlInv(t) && IdsInv(t)
  {
    RegisterKeepsList(s, k);
    CreatedAt(s, k);
    hide SqlInv, IdsInv, TasksInv, ReserveInv, HandlesInv, CreateDone, At, Registered;
    IdsAdd(s, CreateDone(s, k, true), s.tasks[k].id, s.tasks[k].kind, |s.homes|);
  }

  lemma RegisterKeepsTasks(s: State, k: nat)
    requires Inv(s) && k < |s.tasks| && s.tasks[k].mode == Creating
    ensures var t := CreateDone(s, k, true); TasksInv(t) && ReserveInv(t)
  {
    CreatedAt(s, k);
    var a, t := s.tasks[k], CreateDone(s, k, true);
    assert forall j: nat :: Reserves(s, j, a.id) ==> j == k by { assert Reserves(s, k, a.id); }
    hide CreateDone, SqlInv, IdsInv, HandlesInv, ReserveInv, At;
    ReserveDrop(s, t, k);
    forall j | 0 <= j < |t.tasks| ensures TaskOk(t, j) {
      assert TaskOk(s, j);
      assert j == k || !Reserves(s, j, a.id);
    }
  }

  lemma RegisterKeepsHandles(s: State, k: nat)
    requires Inv(s) && k < |s.tasks| && s.tasks[k].mode == Creating
    ensures HandlesInv(CreateDone(s, k, true))
  {
    CreatedAt(s, k);
    hide CreateDone, SqlInv, IdsInv, TasksInv, ReserveInv, At;
    var t := CreateDone(s, k, true);
    forall kind, id ensures EntryOk(t, kind, id) { assert EntryOk(s, kind, id); }
  }

  lemma CreateFailedKeepsInv(s: State, k: nat)
    requires Inv(s) && k < |s.tasks| && s.tasks[k].mode == Creating
    ensures Inv(CreateDone(s, k, false))
  {
    hide Index, Distinct;
    var t := CreateDone(s, k, false);
    assert TaskOk(s, k);
    ReserveDrop(s, t, k);
    forall kind, id ensures EntryOk(t, kind, id) && At(t, kind, id) == At(s, kind, id) { assert EntryOk(s, kind, id); }
    forall j | 0 <= j < |t.tasks| ensures TaskOk(t, j) {
      assert TaskOk(s, j);
      if j != k && s.tasks[j].mode == Creating { assert Reserves(s, j, s.tasks[j].id) && Reserves(s, k, s.tasks[k].id); }
    }
  }

  lemma DeleteStartKeepsInv(s: State, id: ConnId)
    requires Inv(s)
    ensures Inv(DeleteStart(s, id))
  {
    hide Index, Distinct, ReserveInv;
    var t := DeleteStart(s, id);
    forall kind, x ensures EntryOk(t, kind, x) && At(t, kind, x) == At(s, kind, x) { assert EntryOk(s, kind, x); }
    forall k | 0 <= k < |t.tasks| ensures TaskOk(t, k) {
      if k < |s.tasks| { assert TaskOk(s, k); } else { assert EntryOk(s, t.tasks[k].kind, id); }
    }
    forall k: nat, x ensures Reserves(t, k, x) == Reserves(s, k, x) {}
    ReserveSame(s, t);
  }

  lemma UnregisterKeepsIds(s: State, k: nat)
    requires Inv(s) && k < |s.tasks| && s.tasks[k].mode == Deleting
    ensures var t := DeleteDone(s, k, true); SqlInv(t) && IdsInv(t)
  {
    DeletedAt(s, k);
    var a, t := s.tasks[k], DeleteDone(s, k, true);
    UnregisterKeepsSql(s.(closed := s.closed + {a.handle}), a.id, a.kind);
    hide Unregister, Index, Distinct, ReserveInv, TasksInv, HandlesInv, At, IdsInv;
    assert SqlInv(t);
    hide SqlInv, DeleteDone;
    RemovedKeepsIds(s, t, a);
  }

  lemma RemovedKeepsIds(s: State, t: State, a: Task)
    requires IdsInv(s) && a.id !in s.configured
    requires forall kind, id :: At(t, kind, id) == if kind == a.kind && id == a.id then None else At(s, kind, id)
    requires t.dynamicIds == s.dynamicIds - {a.id} && t.configured == s.configured
    requires t.mongoEngines == (if a.kind == Mongo then s.mongoEngines - {a.id} else s.mongoEngines)
    ensures IdsInv(t)
  {
    hide At;
    forall id | id in t.dynamicIds || id in t.configured ensures Registered(t, id) {
      assert At(t, Sql, id) == At(s, Sql, id) && At(t, Mongo, id) == At(s, Mongo, id);
      assert Registered(s, id);
    }
  }

  lemma UnregisterKeepsTasks(s: State, k: nat)
    requires Inv(s) && k < |s.tasks| && s.tasks[k].mode == Deleting
    ensures var t := DeleteDone(s, k, true); TasksInv(t) && ReserveInv(t) && HandlesInv(t)
  {
    DeletedAt(s, k);
    hide DeleteDone, SqlInv, IdsInv, ReserveInv, At;
    var t := DeleteDone(s, k, true);
    forall j: nat, x ensures Reserves(t, j, x) == Reserves(s, j, x) {}
    ReserveSame(s, t);
    forall kind, id ensures EntryOk(t, kind, id) { assert EntryOk(s, kind, id); }
    forall j | 0 <= j < |t.tasks| ensures TaskOk(t, j) { assert TaskOk(s, j); }
  }

  lemma DeleteFailedKeepsInv(s: State, k: nat)
    requires Inv(s) && k < |s.tasks| && s.tasks[k].mode == Deleting
    ensures Inv(DeleteDone(s, k, false))
  {
    hide Index, Distinct, ReserveInv;
    var t := DeleteDone(s, k, false);
    forall kind, id ensures EntryOk(t, kind, id) && At(t, kind, id) == At(s, kind, id) { assert EntryOk(s, kind, id); }
    forall j | 0 <= j < |t.tasks| ensures TaskOk(t, j) { assert TaskOk(s, j); }
    forall j: nat, x ensures Reserves(t, j, x) == Reserves(s, j, x) {}
    ReserveSame(s, t);
  }

  lemma UseKeepsInv(s: State, id: ConnId)
    requires Inv(s)
    ensures Inv(UseMongo(s, id))
  {
    hide Index, Distinct, ReserveInv;
    var t := UseMongo(s, id);
    forall kind, x ensures EntryOk(t, kind, x) && At(t, kind, x) == At(s, kind, x) { assert EntryOk(s, kind, x); }
    forall j | 0 <= j < |t.tasks| ensures TaskOk(t, j) { assert TaskOk(s, j); }
    forall j: nat, x ensures Reserves(t, j, x) == Reserves(s, j, x) {}
    ReserveSame(s, t);
  }

  lemma StepKeepsInv(s: State, e: Event)
    requires Inv(s)
    ensures Inv(Step(s, e))
  {
    hide SqlInv, IdsInv, TasksInv, ReserveInv, HandlesInv, CreateStart, CreateDone, DeleteStart, DeleteDone, UseMongo;
    match e
    case Create(given, kind) => CreateStartKeepsInv(s, given, kind);
    case Created(k, ok) =>
      if k < |s.tasks| && s.tasks[k].mode == Creating {
        if ok {
          RegisterKeepsIds(s, k);
          RegisterKeepsTasks(s, k);
          RegisterKeepsHandles(s, k);
        } else {
          CreateFailedKeepsInv(s, k);
        }
      }
    case Delete(id) => DeleteStartKeepsInv(s, id);
    case Deleted(k, ok) =>
      if k < |s.tasks| && s.tasks[k].mode == Deleting {
        if ok {
          UnregisterKeepsIds(s, k);
          UnregisterKeepsTasks(s, k);
        } else {
          DeleteFailedKeepsInv(s, k);
        }
      }
    case Use(id) => UseKeepsInv(s, id);
  }

  /** Every interleaving of creates, deletes and uses keeps the invariant. */
  lemma {:induction false} RunKeepsInv(s: State, es: seq<Event>)
    requires Inv(s)
    ensures Inv(Run(s, es))
    decreases |es|
  {
    hide Inv, Step;
    if es != [] {
      StepKeepsInv(s, es[0]);
      RunKeepsInv(Step(s, es[0]), es[1..]);
    }
  }

  // ----- start -----

  function Numbered(ids: seq<ConnId>): seq<Entry> { seq(|ids|, i requires 0 <= i < |ids| => Entry(ids[i], i)) }

  function MongoIndex(ids: seq<ConnId>, first: nat): map<ConnId, nat> {
    if ids == [] then map[] else MongoIndex(ids[..|ids| - 1], first)[ids[|ids| - 1] := first + |ids| - 1]
  }

  function Homes(ids: seq<ConnId>, kind: Kind): seq<Home> {
    seq(|ids|, i requires 0 <= i < |ids| => Home(ids[i], kind))
  }

  /** The constructor: the operator's connections, SQL and Mongo. */
  function Start(sql: seq<ConnId>, mongo: seq<ConnId>): State {
    var cs := Numbered(sql);
    State(cs, Index(cs), Engine(cs), MongoIndex(mongo, |sql|), map[], {}, {}, 0, [],
          (set id | id in sql) + (set id | id in mongo), Homes(sql, Sql) + Homes(mongo, Mongo), {})
  }

  ghost predicate DistinctIds(ids: seq<ConnId>) { forall i, j :: 0 <= i < j < |ids| ==> ids[i] != ids[j] }

  lemma {:induction false} IndexNumbered(cs: seq<Entry>, id: ConnId)
    ensures id in Index(cs) ==> exists i :: 0 <= i < |cs| && cs[i] == Entry(id, Index(cs)[id])
  {
    if cs != [] {
      var front := cs[..|cs| - 1];
      IndexNumbered(front, id);
      if id in Index(cs) && id != cs[|cs| - 1].id {
        var i :| 0 <= i < |front| && front[i] == Entry(id, Index(front)[id]);
        assert cs[i] == Entry(id, Index(cs)[id]);
      } else if id in Index(cs) {
        assert cs[|cs| - 1] == Entry(id, Index(cs)[id]);
      }
    }
  }

  lemma {:induction false} MongoIndexed(ids: seq<ConnId>, first: nat, id: ConnId)
    ensures var m := MongoIndex(ids, first);
            && (id in m <==> id in ids)
            && (id in m ==> first <= m[id] < first + |ids| && ids[m[id] - first] == id)
  {
    if ids != [] {
      MongoIndexed(ids[..|ids| - 1], first, id);
      assert ids == ids[..|ids| - 1] + [ids[|ids| - 1]];
    }
  }

  lemma StartInv(sql: seq<ConnId>, mongo: seq<ConnId>)
    requires DistinctIds(sql) && forall i :: 0 <= i < |sql| ==> sql[i] !in mongo
    ensures Inv(Start(sql, mongo))
  {
    var s := Start(sql, mongo);
    forall id ensures id in s.byId <==> id in sql {
      IndexNumbered(s.connectors, id);
      if id in sql {
        var i :| 0 <= i < |sql| && sql[i] == id;
        IndexKeys(s.connectors, i);
      }
    }
    forall id ensures EntryOk(s, Sql, id) { IndexNumbered(s.connectors, id); }
    forall id ensures EntryOk(s, Mongo, id) && (id in s.mongoById <==> id in mongo) { MongoIndexed(mongo, |sql|, id); }
    hide Index, MongoIndex, Start;
    forall kind, id ensures EntryOk(s, kind, id) { assert kind == Sql || kind == Mongo; }
    assert s.configured == (set id | id in sql) + (set id | id in mongo);
  }

  // ----- configured connections -----

  lemma StepKeepsConfigured(s: State, e: Event, kind: Kind, id: ConnId)
    requires Inv(s) && id in s.configured
    ensures var t := Step(s, e); t.configured == s.configured && At(t, kind, id) == At(s, kind, id)
  {
    hide TrimSpace, Numeral, Index, Distinct, ReserveInv, HandlesInv, Register, Unregister;
    match e
    case Created(k, ok) => if ok && k < |s.tasks| && s.tasks[k].mode == Creating { CreatedAt(s, k); }
    case Deleted(k, ok) => if ok && k < |s.tasks| && s.tasks[k].mode == Deleting { DeletedAt(s, k); }
    case _ =>
  }

  /** No run removes or replaces an operator's connection, or lets it be deleted. */
  lemma {:induction false} ConfiguredForGood(s: State, es: seq<Event>, kind: Kind, id: ConnId)
    requires Inv(s) && id in s.configured
    ensures var t := Run(s, es); id in t.configured && At(t, kind, id) == At(s, kind, id) && DeleteStart(t, id) == t
    decreases |es|
  {
    if es != [] {
      StepKeepsInv(s, es[0]);
      StepKeepsConfigured(s, es[0], kind, id);
      ConfiguredForGood(Step(s, es[0]), es[1..], kind, id);
    }
  }

  // ----- overlapping deletes -----

  /** Whatever was opened at run time can still be deleted through the endpoint. */
  ghost predicate AllDynamic(s: State) {
    forall id :: Registered(s, id) && id !in s.configured ==> id in s.dynamicIds
  }

  ghost predicate Accounted(s: State, h: nat)
    requires h < |s.homes|
  {
    h in s.closed || At(s, s.homes[h].kind, s.homes[h].id) == Some(h)
  }

  /** Whatever was opened is still registered or was closed. */
  ghost predicate NoLeak(s: State) { forall h :: 0 <= h < |s.homes| ==> Accounted(s, h) }

  ghost predicate Clean(s: State) { AllDynamic(s) && NoLeak(s) }

  /**
   * The close of `k` came back to find its id registered again: another delete of the same id
   * finished first, and a create took the id over.
   */
  predicate Stale(s: State, e: Event) {
    && e.Deleted? && e.ok && e.k < |s.tasks| && s.tasks[e.k].mode == Deleting
    && var a := s.tasks[e.k]; Registered(s, a.id) && At(s, a.kind, a.id) != Some(a.handle)
  }

  /** Removing an id that now names a connection of the other kind leaves that one undeletable. */
  lemma StaleOrphans(s: State, k: nat, other: Kind)
    requires Inv(s) && k < |s.tasks| && s.tasks[k].mode == Deleting
    requires other != s.tasks[k].kind && At(s, other, s.tasks[k].id).Some?
    ensures !AllDynamic(DeleteDone(s, k, true))
  {
    DeletedAt(s, k);
    hide DeleteDone, Inv, At;
    var a, t := s.tasks[k], DeleteDone(s, k, true);
    assert At(t, other, a.id).Some?;
    assert Registered(t, a.id) && a.id !in t.dynamicIds;
  }

  /** Removing an id that now names another connection of the same kind drops it unclosed. */
  lemma StaleLeaks(s: State, k: nat, h: nat)
    requires Inv(s) && k < |s.tasks| && s.tasks[k].mode == Deleting
    requires At(s, s.tasks[k].kind, s.tasks[k].id) == Some(h) && h != s.tasks[k].handle
    ensures !NoLeak(DeleteDone(s, k, true))
  {
    DeletedAt(s, k);
    assert EntryOk(s, s.tasks[k].kind, s.tasks[k].id);
    hide DeleteDone, Inv, At;
    assert !Accounted(DeleteDone(s, k, true), h);
  }

  lemma FreshDeleteClean(s: State, k: nat)
    requires Inv(s) && Clean(s) && k < |s.tasks| && s.tasks[k].mode == Deleting
    requires !Stale(s, Deleted(k, true))
    ensures Clean(DeleteDone(s, k, true))
  {
    DeletedAt(s, k);
    OneKind(s, s.tasks[k].id);
    hide DeleteDone, Inv, At;
    var t := DeleteDone(s, k, true);
    forall h | 0 <= h < |t.homes| ensures Accounted(t, h) { assert Accounted(s, h); }
    forall id | Registered(t, id) && id !in t.configured ensures id in t.dynamicIds { assert Registered(s, id); }
  }

  lemma OneKind(s: State, id: ConnId)
    requires Inv(s)
    ensures At(s, Sql, id).None? || At(s, Mongo, id).None?
  {}

  lemma DeletedClean(s: State, k: nat)
    requires Inv(s) && Clean(s) && k < |s.tasks| && s.tasks[k].mode == Deleting
    ensures Clean(DeleteDone(s, k, true)) <==> !Stale(s, Deleted(k, true))
  {
    hide Inv, At, DeleteDone, AllDynamic, NoLeak;
    var a := s.tasks[k];
    var other := if a.kind == Sql then Mongo else Sql;
    if !Stale(s, Deleted(k, true)) {
      FreshDeleteClean(s, k);
    } else if At(s, other, a.id).Some? {
      StaleOrphans(s, k, other);
    } else {
      StaleLeaks(s, k, At(s, a.kind, a.id).value);
    }
  }

  lemma CreatedClean(s: State, k: nat)
    requires Inv(s) && Clean(s) && k < |s.tasks| && s.tasks[k].mode == Creating
    ensures Clean(CreateDone(s, k, true))
  {
    CreatedAt(s, k);
    hide CreateDone, SqlInv, TasksInv, ReserveInv, IdsInv, At;
    var t := CreateDone(s, k, true);
    forall h | 0 <= h < |t.homes| ensures Accounted(t, h) { if h < |s.homes| { assert Accounted(s, h); } }
  }

  /** One step keeps the registry clean exactly when it is not a stale delete. */
  lemma StepKeepsClean(s: State, e: Event)
    requires Inv(s) && Clean(s)
    ensures Clean(Step(s, e)) <==> !Stale(s, e)
  {
    hide Inv, Clean, Register, Unregister, TrimSpace, Numeral;
    if e.Created? && e.ok && e.k < |s.tasks| && s.tasks[e.k].mode == Creating {
      CreatedClean(s, e.k);
    } else if e.Deleted? && e.ok && e.k < |s.tasks| && s.tasks[e.k].mode == Deleting {
      DeletedClean(s, e.k);
    } else {
      SameMapsClean(s, Step(s, e));
    }
  }

  lemma SameMapsClean(s: State, t: State)
    requires Clean(s) && t.byId == s.byId && t.mongoById == s.mongoById && t.configured == s.configured
    requires t.dynamicIds == s.dynamicIds && t.homes == s.homes && t.closed == s.closed
    ensures Clean(t)
  {
    forall h | 0 <= h < |t.homes| ensures Accounted(t, h) { assert Accounted(s, h); }
  }

  /** A delete accepted while another delete of the same id is under way. */
  ghost predicate Overlaps(s: State, e: Event) {
    e.Delete? && exists k :: 0 <= k < |s.tasks| && s.tasks[k].mode == Deleting && s.tasks[k].id == e.id
  }

  ghost predicate NoOverlap(s: State, es: seq<Event>)
    decreases |es|
  {
    es == [] || (!Overlaps(s, es[0]) && NoOverlap(Step(s, es[0]), es[1..]))
  }

  ghost predicate DeletesId(s: State, k: nat, id: ConnId) {
    k < |s.tasks| && s.tasks[k].mode == Deleting && s.tasks[k].id == id
  }

  /** Every delete under way is the only one of its id, and its connection is still registered. */
  ghost predicate Tied(s: State) {
    && (forall k :: 0 <= k < |s.tasks| && s.tasks[k].mode == Deleting ==>
          At(s, s.tasks[k].kind, s.tasks[k].id) == Some(s.tasks[k].handle))
    && (forall j: nat, k: nat, id :: DeletesId(s, j, id) && DeletesId(s, k, id) ==> j == k)
  }

  lemma TiedSame(s: State, t: State)
    requires Tied(s) && t.byId == s.byId && t.mongoById == s.mongoById
    requires forall k: nat, id :: DeletesId(t, k, id) ==> DeletesId(s, k, id) && t.tasks[k] == s.tasks[k]
    ensures Tied(t)
  {
    forall k | 0 <= k < |t.tasks| && t.tasks[k].mode == Deleting
      ensures At(t, t.tasks[k].kind, t.tasks[k].id) == Some(t.tasks[k].handle)
    {
      assert DeletesId(t, k, t.tasks[k].id);
    }
  }

  lemma DeleteStartTied(s: State, id: ConnId)
    requires Tied(s) && !Overlaps(s, Delete(id))
    ensures Tied(DeleteStart(s, id))
  {
    var t := DeleteStart(s, id);
    forall j: nat, x | j < |s.tasks| ensures DeletesId(t, j, x) == DeletesId(s, j, x) {}
    forall j: nat | j < |s.tasks| ensures !DeletesId(s, j, id) {}
  }

  lemma CreatedTied(s: State, k: nat)
    requires Inv(s) && Tied(s) && k < |s.tasks| && s.tasks[k].mode == Creating
    ensures Tied(CreateDone(s, k, true))
  {
    CreatedAt(s, k);
    hide CreateDone, Inv, At;
    var t := CreateDone(s, k, true);
    forall j: nat, x ensures DeletesId(t, j, x) == DeletesId(s, j, x) {}
    forall j | 0 <= j < |t.tasks| && t.tasks[j].mode == Deleting
      ensures At(t, t.tasks[j].kind, t.tasks[j].id) == Some(t.tasks[j].handle)
    {
      var a := s.tasks[j];
      assert At(s, a.kind, a.id) == Some(a.handle);
    }
  }

  lemma DeletedTied(s: State, k: nat)
    requires Inv(s) && Tied(s) && k < |s.tasks| && s.tasks[k].mode == Deleting
    ensures Tied(DeleteDone(s, k, true))
  {
    DeletedAt(s, k);
    hide DeleteDone, Inv, At;
    var t := DeleteDone(s, k, true);
    assert DeletesId(s, k, s.tasks[k].id);
    forall j: nat, x | j != k ensures DeletesId(t, j, x) == DeletesId(s, j, x) {}
    forall j | 0 <= j < |t.tasks| && t.tasks[j].mode == Deleting
      ensures At(t, t.tasks[j].kind, t.tasks[j].id) == Some(t.tasks[j].handle)
    {
      assert DeletesId(s, j, s.tasks[j].id);
    }
  }

  lemma StepKeepsTied(s: State, e: Event)
    requires Inv(s) && Tied(s) && !Overlaps(s, e)
    ensures Tied(Step(s, e)) && !Stale(s, e)
  {
    hide Inv, TrimSpace, Numeral;
    var t := Step(s, e);
    if e.Created? && e.ok && e.k < |s.tasks| && s.tasks[e.k].mode == Creating {
      CreatedTied(s, e.k);
    } else if e.Deleted? && e.ok && e.k < |s.tasks| && s.tasks[e.k].mode == Deleting {
      DeletedTied(s, e.k);
    } else if e.Delete? {
      DeleteStartTied(s, e.id);
    } else {
      forall k: nat, id | DeletesId(t, k, id) ensures DeletesId(s, k, id) && t.tasks[k] == s.tasks[k] {}
      TiedSame(s, t);
    }
  }

  /** If deletes of one id never overlap, every connection stays deletable and none is leaked. */
  lemma {:induction false} CleanWithoutOverlap(s: State, es: seq<Event>)
    requires Inv(s) && Tied(s) && Clean(s) && NoOverlap(s, es)
    ensures Clean(Run(s, es)) && Tied(Run(s, es))
    decreases |es|
  {
    hide Inv, Step, Clean, Tied;
    if es != [] {
      StepKeepsInv(s, es[0]);
      StepKeepsTied(s, es[0]);
      StepKeepsClean(s, es[0]);
      CleanWithoutOverlap(Step(s, es[0]), es[1..]);
    }
  }

  /** Registered at run time, yet no request can remove it. */
  ghost predicate Orphan(s: State, id: ConnId) {
    && Registered(s, id) && id !in s.dynamicIds && id !in s.configured
    && forall k: nat :: !DeletesId(s, k, id)
  }

  lemma StepKeepsOrphan(s: State, e: Event, id: ConnId)
    requires Inv(s) && Orphan(s, id)
    ensures Orphan(Step(s, e), id)
  {
    hide TrimSpace, Numeral, Index, Distinct, ReserveInv, HandlesInv, Register, Unregister, IdsInv;
    if e.Created? && e.ok && e.k < |s.tasks| && s.tasks[e.k].mode == Creating {
      CreatedAt(s, e.k);
      hide SqlInv, TasksInv, CreateDone;
    } else if e.Deleted? && e.ok && e.k < |s.tasks| && s.tasks[e.k].mode == Deleting {
      DeletedAt(s, e.k);
      assert !DeletesId(s, e.k, id);
      hide SqlInv, TasksInv, DeleteDone;
    } else {
      hide SqlInv, TasksInv;
    }
    forall j: nat ensures !DeletesId(Step(s, e), j, id) { assert !DeletesId(s, j, id); }
  }

  /** An orphan stays one: no run can delete it. */
  lemma {:induction false} OrphanForGood(s: State, es: seq<Event>, id: ConnId)
    requires Inv(s) && Orphan(s, id)
    ensures Orphan(Run(s, es), id)
    decreases |es|
  {
    hide Inv, Step, Orphan;
    if es != [] {
      StepKeepsInv(s, es[0]);
      StepKeepsOrphan(s, es[0], id);
      OrphanForGood(Step(s, es[0]), es[1..], id);
    }
  }

  lemma {:induction false} MongoAt(ids: seq<ConnId>, first: nat, i: nat)
    requires DistinctIds(ids) && i < |ids|
    ensures ids[i] in MongoIndex(ids, first) && MongoIndex(ids, first)[ids[i]] == first + i
  {
    if i < |ids| - 1 { MongoAt(ids[..|ids| - 1], first, i); }
  }

  lemma {:induction false} IndexAt(cs: seq<Entry>, i: nat)
    requires Distinct(cs) && i < |cs|
    ensures cs[i].id in Index(cs) && Index(cs)[cs[i].id] == cs[i].handle
  {
    if i < |cs| - 1 { IndexAt(cs[..|cs| - 1], i); }
  }

  lemma StartClean(sql: seq<ConnId>, mongo: seq<ConnId>)
    requires DistinctIds(sql) && DistinctIds(mongo) && forall i :: 0 <= i < |sql| ==> sql[i] !in mongo
    ensures var s := Start(sql, mongo); Inv(s) && Clean(s) && Tied(s)
  {
    var s := Start(sql, mongo);
    StartInv(sql, mongo);
    forall h | 0 <= h < |s.homes| ensures Accounted(s, h) {
      if h < |sql| { IndexAt(s.connectors, h); } else { MongoAt(mongo, |sql|, h - |sql|); }
    }
    forall id | Registered(s, id) ensures id in s.configured {
      IndexNumbered(s.connectors, id);
      MongoIndexed(mongo, |sql|, id);
    }
  }

  /** From any start with distinct ids: the guarantees of a run whose deletes of one id do not overlap. */
  lemma RegistryClean(sql: seq<ConnId>, mongo: seq<ConnId>, es: seq<Event>)
    requires DistinctIds(sql) && DistinctIds(mongo) && forall i :: 0 <= i < |sql| ==> sql[i] !in mongo
    requires NoOverlap(Start(sql, mongo), es)
    ensures Clean(Run(Start(sql, mongo), es))
  {
    StartClean(sql, mongo);
    hide Start, Inv, Clean, Tied;
    CleanWithoutOverlap(Start(sql, mongo), es);
  }

  // ----- what overlapping deletes do -----

  /** Delete `id` twice; when the first has finished, create it again; then let the second finish. */
  function Overlapping(s: State, id: ConnId, kind: Kind): seq<Event> {
    var n := |s.tasks|;
    [Delete(id), Delete(id), Deleted(n, true), Create(id, kind), Created(n + 2, true), Deleted(n + 1, true)]
  }

  lemma DeleteAccepted(s: State, id: ConnId)
    requires Inv(s) && id in s.dynamicIds
    ensures exists kind, h: nat ::
              At(s, kind, id) == Some(h) && Step(s, Delete(id)) == s.(tasks := s.tasks + [Task(Deleting, id, kind, h)])
  {
    assert Registered(s, id);
    var kind := if id in s.mongoById then Mongo else Sql;
    assert At(s, kind, id) == Some(At(s, kind, id).value);
  }

  /** Both deletes are under way. */
  lemma TwoDeletes(s: State, id: ConnId) returns (kind: Kind, h: nat, t: State)
    requires Inv(s) && id in s.dynamicIds
    ensures t == Step(Step(s, Delete(id)), Delete(id)) && Inv(t)
    ensures At(s, kind, id) == Some(h)
    ensures t == s.(tasks := s.tasks + [Task(Deleting, id, kind, h), Task(Deleting, id, kind, h)])
  {
    StepKeepsInv(s, Delete(id));
    var s1 := Step(s, Delete(id));
    StepKeepsInv(s1, Delete(id));
    t := Step(s1, Delete(id));
    DeleteAccepted(s, id);
    DeleteAccepted(s1, id);
    hide Inv, Step;
    kind, h :| At(s, kind, id) == Some(h) && s1 == s.(tasks := s.tasks + [Task(Deleting, id, kind, h)]);
    var kind2, h2: nat :| At(s1, kind2, id) == Some(h2) && t == s1.(tasks := s1.tasks + [Task(Deleting, id, kind2, h2)]);
    assert At(s, kind2, id) == Some(h2);
    OneKind(s, id);
  }

  /** The first delete has finished; the second still waits. */
  lemma FirstDeleteDone(s: State, id: ConnId) returns (kind: Kind, h: nat, t: State)
    requires Inv(s) && Clean(s) && id in s.dynamicIds
    ensures t == Step(Step(Step(s, Delete(id)), Delete(id)), Deleted(|s.tasks|, true))
    ensures Inv(t) && Clean(t) && !Registered(t, id) && id !in t.creatingIds && h < |t.homes|
    ensures |t.tasks| == |s.tasks| + 2 && t.tasks[|s.tasks| + 1] == Task(Deleting, id, kind, h)
  {
    var s2;
    kind, h, s2 := TwoDeletes(s, id);
    t := Step(s2, Deleted(|s.tasks|, true));
    SameMapsClean(s, s2);
    StepKeepsInv(s2, Deleted(|s.tasks|, true));
    DeletedAt(s2, |s.tasks|);
    OneKind(s, id);
    NotReserved(s, id);
    HandleBound(s, kind, id);
    hide Inv, Clean, DeleteDone;
    assert !Stale(s2, Deleted(|s.tasks|, true));
    StepKeepsClean(s2, Deleted(|s.tasks|, true));
    NotBoth(s, t, id, kind);
  }

  /** The id has been created again. */
  lemma CreatedAgain(s: State, id: ConnId, again: Kind) returns (t: State)
    requires Inv(s) && Clean(s) && !Registered(s, id) && id !in s.creatingIds && TrimSpace(id) == id != ""
    ensures t == Step(Step(s, Create(id, again)), Created(|s.tasks|, true))
    ensures Inv(t) && Clean(t) && At(t, again, id) == Some(|s.homes|)
    ensures |t.tasks| == |s.tasks| + 1 && t.tasks[..|s.tasks|] == s.tasks
  {
    var s1 := Step(s, Create(id, again));
    t := Step(s1, Created(|s.tasks|, true));
    hide Inv, Clean, TrimSpace, At;
    assert s1 == s.(creatingIds := s.creatingIds + {id}, tasks := s.tasks + [Task(Creating, id, again, 0)]);
    StepKeepsInv(s, Create(id, again));
    StepKeepsClean(s, Create(id, again));
    CreatedAt(s1, |s.tasks|);
    StepKeepsInv(s1, Created(|s.tasks|, true));
    StepKeepsClean(s1, Created(|s.tasks|, true));
  }

  /** From every clean state, for every run-time id and either kind, the overlap breaks the registry. */
  lemma OverlapBreaks(s: State, id: ConnId, again: Kind)
    requires Inv(s) && Clean(s) && id in s.dynamicIds && TrimSpace(id) == id != ""
    ensures !Clean(Run(s, Overlapping(s, id, again)))
  {
    hide Inv, Clean, Step, TrimSpace, At;
    var n := |s.tasks|;
    var kind, h, s3 := FirstDeleteDone(s, id);
    var s5 := CreatedAgain(s3, id, again);
    assert s5.tasks[n + 1] == s5.tasks[..|s3.tasks|][n + 1] == Task(Deleting, id, kind, h);
    assert Stale(s5, Deleted(n + 1, true)) by {
      OneKind(s5, id);
      assert again == Sql || again == Mongo;
      assert kind == Sql || kind == Mongo;
    }
    StepKeepsClean(s5, Deleted(n + 1, true));
    RunSix(s, Overlapping(s, id, again));
  }

  lemma NotBoth(s: State, t: State, id: ConnId, kind: Kind)
    requires At(s, Sql, id).None? || At(s, Mongo, id).None?
    requires At(s, kind, id).Some?
    requires forall k, x :: At(t, k, x) == if k == kind && x == id then None else At(s, k, x)
    ensures !Registered(t, id)
  {
    assert kind == Sql || kind == Mongo;
    hide At;
  }

  lemma NotReserved(s: State, id: ConnId)
    requires Inv(s) && id in s.dynamicIds
    ensures id !in s.creatingIds
  {
    assert Registered(s, id);
    forall k: nat ensures !Reserves(s, k, id) { if k < |s.tasks| { assert TaskOk(s, k); } }
  }

  lemma HandleBound(s: State, kind: Kind, id: ConnId)
    requires Inv(s) && At(s, kind, id).Some?
    ensures At(s, kind, id).value < |s.homes|
  {
    assert EntryOk(s, kind, id);
  }

  lemma RunSix(s: State, es: seq<Event>)
    requires |es| == 6
    ensures Run(s, es) == Step(Step(Step(Step(Step(Step(s, es[0]), es[1]), es[2]), es[3]), es[4]), es[5])
  {
    hide Step;
    var s1 := Step(s, es[0]);
    var s2 := Step(s1, es[1]);
    var s3 := Step(s2, es[2]);
    var s4 := Step(s3, es[3]);
    var s5 := Step(s4, es[4]);
    assert Run(s, es) == Run(s1, es[1..]);
    assert Run(s1, es[1..]) == Run(s2, es[2..]) by { assert es[1..][1..] == es[2..]; }
    assert Run(s2, es[2..]) == Run(s3, es[3..]) by { assert es[2..][1..] == es[3..]; }
    assert Run(s3, es[3..]) == Run(s4, es[4..]) by { assert es[3..][1..] == es[4..]; }
    assert Run(s4, es[4..]) == Run(s5, es[5..]) by { assert es[4..][1..] == es[5..]; }
    assert Run(s5, es[5..]) == Run(Step(s5, es[5]), []) by { assert es[5..][1..] == []; }
  }

  // ----- the server -----

  lemma CreatedIs(s: State, k: nat, ok: bool)
    requires k < |s.tasks| && s.tasks[k].mode == Creating
    ensures var a := s.tasks[k];
            var t := if ok then Register(s, a.id, a.kind) else s;
            && t.tasks == s.tasks && t.creatingIds == s.creatingIds
            && Step(s, Created(k, ok)) == t.(creatingIds := s.creatingIds - {a.id}, tasks := s.tasks[k := NO_TASK])
  {
    RegisterFrame(s, s.tasks[k].id, s.tasks[k].kind);
    hide Register;
  }

  lemma DeletedIs(s: State, k: nat, ok: bool)
    requires k < |s.tasks| && s.tasks[k].mode == Deleting
    ensures var a := s.tasks[k];
            var t := s.(tasks := s.tasks[k := NO_TASK]);
            var u := t.(closed := s.closed + {a.handle}, dynamicIds := s.dynamicIds - {a.id});
            Step(s, Deleted(k, ok)) ==
              if !ok then t
              else if a.kind == Mongo then u.(mongoById := s.mongoById - {a.id}, mongoEngines := s.mongoEngines - {a.id})
              else SetConnectors(u, Without(s.connectors, a.id))
  {
    hide Index, Engine, Without;
  }

  class Registry {
    var connectors: seq<Entry>
    var byId: map<ConnId, nat>
    var engine: Option<seq<Entry>>
    var mongoById: map<ConnId, nat>
    var mongoEngines: map<ConnId, nat>
    var creatingIds: set<ConnId>
    var dynamicIds: set<ConnId>
    var dynamicSeq: nat
    /** The suspended requests. */
    var tasks: seq<Task>
    /** The number of connections opened so far. */
    var openCount: nat
    ghost var configured: set<ConnId>
    ghost var homes: seq<Home>
    ghost var closed: set<nat>

    ghost function View(): State
      reads this
    {
      State(connectors, byId, engine, mongoById, mongoEngines, creatingIds, dynamicIds, dynamicSeq, tasks,
            configured, homes, closed)
    }

    ghost predicate Valid()
      reads this
    {
      Inv(View()) && openCount == |homes|
    }

    /** Nothing stops an operator from configuring an id twice; without that the registry starts valid. */
    constructor (sql: seq<ConnId>, mongo: seq<ConnId>)
      ensures View() == Start(sql, mongo)
      ensures DistinctIds(sql) && (forall i :: 0 <= i < |sql| ==> sql[i] !in mongo) ==> Valid()
    {
      connectors, byId, engine := Numbered(sql), Index(Numbered(sql)), Engine(Numbered(sql));
      mongoById, mongoEngines, creatingIds, dynamicIds := MongoIndex(mongo, |sql|), map[], {}, {};
      dynamicSeq, tasks, openCount := 0, [], |sql| + |mongo|;
      configured, closed := (set id | id in sql) + (set id | id in mongo), {};
      homes := Homes(sql, Sql) + Homes(mongo, Mongo);
      new;
      if DistinctIds(sql) && (forall i :: 0 <= i < |sql| ==> sql[i] !in mongo) { StartInv(sql, mongo); }
      hide Inv;
    }

    method ReplaceConnectors(next: seq<Entry>)
      modifies this
      ensures View() == SetConnectors(old(View()), next) && openCount == old(openCount)
    {
      connectors := next;
      byId := Index(next);
      engine := Engine(next);
    }

    /** `createConnection` until it awaits the driver; None if the id is taken. */
    method CreateConnection(given: string, kind: Kind) returns (task: Option<nat>)
      requires Valid()
      modifies this
      ensures Valid() && View() == Step(old(View()), Create(given, kind))
      ensures task == if |tasks| > |old(tasks)| then Some(|old(tasks)|) else None
    {
      hide Inv, TrimSpace, Numeral;
      StepKeepsInv(View(), Create(given, kind));
      var id := TrimSpace(given);
      if id == "" {
        dynamicSeq := dynamicSeq + 1;
        id := "dyn_" + Numeral(dynamicSeq);
      }
      if id in byId || id in mongoById || id in creatingIds { return None; }
      creatingIds := creatingIds + {id};
      task := Some(|tasks|);
      tasks := tasks + [Task(Creating, id, kind, 0)];
    }

    method Add(id: ConnId, kind: Kind)
      requires openCount == |homes|
      modifies this
      ensures View() == Register(old(View()), id, kind) && openCount == |homes|
    {
      hide Index, Engine;
      if kind == Mongo {
        mongoById := mongoById[id := openCount];
      } else {
        ReplaceConnectors(connectors + [Entry(id, openCount)]);
      }
      dynamicIds, openCount, homes := dynamicIds + {id}, openCount + 1, homes + [Home(id, kind)];
    }

    /** The driver has connected, or failed. */
    method FinishCreate(k: nat, ok: bool)
      requires Valid() && k < |tasks| && tasks[k].mode == Creating
      modifies this
      ensures Valid() && View() == Step(old(View()), Created(k, ok))
    {
      hide Inv, Register, Step;
      ghost var s := View();
      StepKeepsInv(s, Created(k, ok));
      CreatedIs(s, k, ok);
      var a := tasks[k];
      if ok { Add(a.id, a.kind); }
      creatingIds, tasks := creatingIds - {a.id}, tasks[k := NO_TASK];
    }

    /** `deleteConnection` until it awaits the driver; None if the id is unknown or not dynamic. */
    method DeleteConnection(id: ConnId) returns (task: Option<nat>)
      requires Valid()
      modifies this
      ensures Valid() && View() == Step(old(View()), Delete(id))
      ensures task == if |tasks| > |old(tasks)| then Some(|old(tasks)|) else None
    {
      hide Inv;
      StepKeepsInv(View(), Delete(id));
      if id !in byId && id !in mongoById { return None; }
      if id !in dynamicIds { return None; }
      task := Some(|tasks|);
      if id in mongoById {
        tasks := tasks + [Task(Deleting, id, Mongo, mongoById[id])];
      } else {
        tasks := tasks + [Task(Deleting, id, Sql, byId[id])];
      }
    }

    /** The driver has closed, or failed to. */
    method FinishDelete(k: nat, ok: bool)
      requires Valid() && k < |tasks| && tasks[k].mode == Deleting
      modifies this
      ensures Valid() && View() == Step(old(View()), Deleted(k, ok))
    {
      hide Inv, Index, Engine, Without, Step;
      ghost var s := View();
      StepKeepsInv(s, Deleted(k, ok));
      DeletedIs(s, k, ok);
      var a := tasks[k];
      if ok {
        closed := closed + {a.handle};
        if a.kind == Mongo {
          mongoById := mongoById - {a.id};
          mongoEngines := mongoEngines - {a.id};
        } else {
          ReplaceConnectors(Without(connectors, a.id));
        }
        dynamicIds := dynamicIds - {a.id};
      }
      tasks := tasks[k := NO_TASK];
    }

    /** The connection a Mongo request's engine talks to. */
    method MongoEngine(id: ConnId) returns (r: Option<nat>)
      requires Valid()
      modifies this
      ensures Valid() && View() == Step(old(View()), Use(id))
      ensures r == At(View(), Mongo, id)
    {
      assert id in mongoEngines ==> At(View(), Mongo, id) == Some(mongoEngines[id]);
      hide Inv;
      StepKeepsInv(View(), Use(id));
      if id in mongoEngines { return Some(mongoEngines[id]); }
      if id !in mongoById { return None; }
      mongoEngines := mongoEngines[id := mongoById[id]];
      r := Some(mongoById[id]);
    }
  }
}
