/**
 * The catalog cache of the engine: refresh generations, shared in-flight reads and delete by
 * identity.  Each method below is the code between two awaits of `getCatalog`, so a run is any
 * sequence of calls and settlements.
 */
module CatalogCache {
  import opened Text

  type ConnId = string

  const CATALOG_TTL_MS := 300_000
  const WARNED_CATALOG_TTL_MS := 30_000

  datatype Catalog = Catalog(tables: seq<string>, warnings: seq<string>)

  datatype Cached = Cached(catalog: Catalog, at: int, ttl: int)

  /** A suspended read: what its closure captured. Promises are numbered in the order they start. */
  datatype Read = Read(conn: ConnId, generation: nat)

  /** How `introspect` settled. */
  datatype Outcome = Returned(catalog: Catalog) | Threw

  datatype Answer = Hit(catalog: Catalog) | Await(promise: nat)

  /** One started read, as the history remembers it. */
  datatype Start = Start(conn: ConnId, refresh: bool)

  /** The engine's maps, with the history of started reads and what each cached catalog came from. */
  datatype State = State(
    cache: map<ConnId, Cached>,
    inflight: map<ConnId, nat>,
    generation: map<ConnId, nat>,
    running: map<nat, Read>,
    log: seq<Start>,
    source: map<ConnId, nat>,
    results: map<nat, Catalog>)

  const INITIAL := State(map[], map[], map[], map[], [], map[], map[])

  function Generation(g: map<ConnId, nat>, c: ConnId): nat { if c in g then g[c] else 0 }

  /** An empty table set with warnings is a failed read, not an empty database. */
  predicate Usable(o: Outcome) {
    o.Returned? && !(o.catalog.tables == [] && o.catalog.warnings != [])
  }

  function Ttl(c: Catalog): int {
    if c.warnings != [] then WARNED_CATALOG_TTL_MS else CATALOG_TTL_MS
  }

  predicate Fresh(s: State, c: ConnId, now: int) {
    c in s.cache && now - s.cache[c].at < s.cache[c].ttl
  }

  /** `getCatalog` up to its first await on the read. */
  function Call(s: State, c: ConnId, refresh: bool, now: int): (State, Answer) {
    if !refresh && Fresh(s, c, now) then (s, Hit(s.cache[c].catalog))
    else if !refresh && c in s.inflight then (s, Await(s.inflight[c]))
    else (Begin(s, c, refresh), Await(|s.log|))
  }

  /** A read starts, in a generation of its own if it is a refresh. */
  function Begin(s: State, c: ConnId, refresh: bool): State {
    var gen := Generation(s.generation, c) + (if refresh then 1 else 0);
    var p := |s.log|;
    s.(generation := if refresh then s.generation[c := gen] else s.generation,
       running := s.running[p := Read(c, gen)],
       inflight := s.inflight[c := p],
       log := s.log + [Start(c, refresh)])
  }

  /** The read's continuation; settling a promise that is not running does nothing. */
  function Settle(s: State, p: nat, o: Outcome, now: int): State {
    if p !in s.running then s
    else
      var r := s.running[p];
      var writes := Usable(o) && Generation(s.generation, r.conn) == r.generation;
      s.(cache := if writes then s.cache[r.conn := Cached(o.catalog, now, Ttl(o.catalog))] else s.cache,
         source := if writes then s.source[r.conn := p] else s.source,
         results := if Usable(o) then s.results[p := o.catalog] else s.results,
         inflight := if r.conn in s.inflight && s.inflight[r.conn] == p then s.inflight - {r.conn} else s.inflight,
         running := s.running - {p})
  }

  datatype Event = Called(conn: ConnId, refresh: bool, now: int) | Settled(promise: nat, outcome: Outcome, now: int)

  function Step(s: State, e: Event): State {
    match e
    case Called(c, refresh, now) => Call(s, c, refresh, now).0
    case Settled(p, o, now) => Settle(s, p, o, now)
  }

  function Run(s: State, es: seq<Event>): State
    decreases |es|
  {
    if es == [] then s else Run(Step(s, es[0]), es[1..])
  }

  // ----- what every step keeps -----

  /** Refreshes of `c` among the first `n` reads. */
  ghost function Refreshes(log: seq<Start>, c: ConnId, n: nat): nat
    requires n <= |log|
  {
    if n == 0 then 0
    else Refreshes(log, c, n - 1) + (if log[n - 1] == Start(c, true) then 1 else 0)
  }

  /** No refresh of its connection has started since read `p` did. */
  ghost predicate NoRefreshSince(log: seq<Start>, p: nat)
    requires p < |log|
  {
    forall j :: p < j < |log| ==> log[j] != Start(log[p].conn, true)
  }

  ghost predicate RunningOk(s: State, p: nat)
    requires p in s.running
  {
    p < |s.log| && s.log[p].conn == s.running[p].conn
    && s.running[p].generation == Refreshes(s.log, s.log[p].conn, p + 1)
  }

  ghost predicate Current(s: State, p: nat)
    requires p in s.running
  {
    s.running[p].generation == Generation(s.generation, s.running[p].conn)
  }

  ghost predicate SourceOk(s: State, c: ConnId)
    requires c in s.source
  {
    var p := s.source[c];
    && p < |s.log| && s.log[p].conn == c && p !in s.running
    && p in s.results && c in s.cache && s.cache[c].catalog == s.results[p]
    && forall q :: q in s.running && s.running[q].conn == c && Current(s, q) ==> p < q
  }

  /** Reads are logged with their connection and the generation they started in. */
  ghost predicate ReadsInv(s: State) {
    && (forall p :: p in s.running ==> RunningOk(s, p) && p !in s.results)
    && (forall p :: p in s.results ==> p < |s.log|)
  }

  /** A connection's generation counts its refreshes. */
  ghost predicate GenerationInv(s: State) {
    forall c :: Generation(s.generation, c) == Refreshes(s.log, c, |s.log|)
  }

  /** The in-flight entry is a running read of the current generation. */
  ghost predicate InflightInv(s: State) {
    forall c :: c in s.inflight ==>
      s.inflight[c] in s.running && s.running[s.inflight[c]].conn == c && Current(s, s.inflight[c])
  }

  /** And it is the only one. */
  ghost predicate SharedInv(s: State) {
    forall p :: p in s.running && Current(s, p) ==>
      s.running[p].conn in s.inflight && s.inflight[s.running[p].conn] == p
  }

  ghost predicate SourceInv(s: State) {
    && (forall c :: c in s.cache ==> c in s.source)
    && (forall c :: c in s.source ==> SourceOk(s, c))
  }

  ghost predicate Inv(s: State) {
    ReadsInv(s) && GenerationInv(s) && InflightInv(s) && SharedInv(s) && SourceInv(s)
  }

  lemma {:induction false} RefreshesPrefix(log: seq<Start>, more: seq<Start>, c: ConnId, n: nat)
    requires n <= |log|
    ensures Refreshes(log + more, c, n) == Refreshes(log, c, n)
  {
    if n > 0 { RefreshesPrefix(log, more, c, n - 1); }
  }

  lemma {:induction false} RefreshesGrow(log: seq<Start>, c: ConnId, m: nat, n: nat)
    requires m <= n <= |log|
    ensures Refreshes(log, c, m) <= Refreshes(log, c, n)
    ensures Refreshes(log, c, m) == Refreshes(log, c, n) <==> forall j :: m <= j < n ==> log[j] != Start(c, true)
  {
    if m < n { RefreshesGrow(log, c, m, n - 1); }
  }

  /** A running read is of the current generation exactly when no refresh started after it. */
  lemma CurrentMeansNoRefresh(s: State, p: nat)
    requires Inv(s) && p in s.running
    ensures RunningOk(s, p) && (Current(s, p) <==> NoRefreshSince(s.log, p))
  {
    RefreshesGrow(s.log, s.log[p].conn, p + 1, |s.log|);
  }

  lemma BeginCounts(s: State, c: ConnId, refresh: bool, d: ConnId, n: nat)
    requires n <= |s.log|
    ensures Refreshes(Begin(s, c, refresh).log, d, n) == Refreshes(s.log, d, n)
  {
    RefreshesPrefix(s.log, [Start(c, refresh)], d, n);
  }

  lemma BeginKeepsReads(s: State, c: ConnId, refresh: bool)
    requires ReadsInv(s) && GenerationInv(s)
    ensures ReadsInv(Begin(s, c, refresh))
  {
    var t := Begin(s, c, refresh);
    forall p | p in t.running ensures RunningOk(t, p) && p !in t.results {
      if p in s.running && p != |s.log| {
        assert RunningOk(s, p);
        BeginCounts(s, c, refresh, s.log[p].conn, p + 1);
      } else {
        BeginCounts(s, c, refresh, c, |s.log|);
      }
    }
  }

  lemma BeginKeepsGeneration(s: State, c: ConnId, refresh: bool)
    requires GenerationInv(s)
    ensures GenerationInv(Begin(s, c, refresh))
  {
    var t := Begin(s, c, refresh);
    forall d ensures Generation(t.generation, d) == Refreshes(t.log, d, |t.log|) { BeginCounts(s, c, refresh, d, |s.log|); }
  }

  lemma CallKeepsReads(s: State, c: ConnId, refresh: bool, now: int)
    requires Inv(s)
    ensures var t := Call(s, c, refresh, now).0; ReadsInv(t) && GenerationInv(t)
  {
    BeginKeepsReads(s, c, refresh);
    BeginKeepsGeneration(s, c, refresh);
    hide Begin, ReadsInv, GenerationInv, InflightInv, SharedInv, SourceInv, Fresh;
  }

  /** A new read overtakes every running read of its connection if it is a refresh, and no other. */
  lemma OvertakenByCall(s: State, c: ConnId, refresh: bool, now: int, p: nat)
    requires Inv(s) && p in s.running
    ensures var t := Call(s, c, refresh, now).0;
            |t.log| > |s.log| ==>
              p < |s.log| && p in t.running && t.running[p] == s.running[p]
              && (Current(t, p) <==> (Current(s, p) && (s.running[p].conn == c ==> !refresh)))
  {
    hide InflightInv, SharedInv, SourceInv, Fresh, Refreshes;
    assert RunningOk(s, p);
    RefreshesGrow(s.log, s.log[p].conn, p + 1, |s.log|);
  }

  lemma CallKeepsInflight(s: State, c: ConnId, refresh: bool, now: int)
    requires Inv(s)
    ensures InflightInv(Call(s, c, refresh, now).0)
  {
    hide SourceInv, Fresh, Refreshes, SharedInv, ReadsInv, GenerationInv;
    var t := Call(s, c, refresh, now).0;
    forall d | d in t.inflight
      ensures t.inflight[d] in t.running && t.running[t.inflight[d]].conn == d && Current(t, t.inflight[d])
    {
      if |t.log| > |s.log| && d != c { OvertakenByCall(s, c, refresh, now, s.inflight[d]); }
    }
  }

  lemma CallKeepsShared(s: State, c: ConnId, refresh: bool, now: int)
    requires Inv(s)
    ensures SharedInv(Call(s, c, refresh, now).0)
  {
    hide SourceInv, Fresh, Refreshes, InflightInv, ReadsInv, GenerationInv;
    var t := Call(s, c, refresh, now).0;
    forall p | p in t.running && Current(t, p)
      ensures t.running[p].conn in t.inflight && t.inflight[t.running[p].conn] == p
    {
      if |t.log| > |s.log| && p in s.running { OvertakenByCall(s, c, refresh, now, p); }
    }
  }

  lemma CallKeepsSourceOf(s: State, c: ConnId, refresh: bool, now: int, d: ConnId)
    requires Inv(s) && d in s.source
    ensures var t := Call(s, c, refresh, now).0; t.source == s.source && SourceOk(t, d)
  {
    hide InflightInv, SharedInv, Fresh, Refreshes, GenerationInv;
    var t := Call(s, c, refresh, now).0;
    assert SourceOk(s, d);
    forall q | q in t.running && t.running[q].conn == d && Current(t, q) ensures t.source[d] < q {
      if q in s.running && !Current(s, q) { CurrentStays(s, q, c, refresh, now); }
    }
  }

  lemma CallKeepsSource(s: State, c: ConnId, refresh: bool, now: int)
    requires Inv(s)
    ensures SourceInv(Call(s, c, refresh, now).0)
  {
    hide InflightInv, SharedInv, Fresh, Refreshes, GenerationInv, ReadsInv, SourceOk;
    var t := Call(s, c, refresh, now).0;
    forall d | d in t.source ensures SourceOk(t, d) { CallKeepsSourceOf(s, c, refresh, now, d); }
  }

  /** A read that was overtaken stays overtaken. */
  lemma CurrentStays(s: State, q: nat, c: ConnId, refresh: bool, now: int)
    requires Inv(s) && q in s.running && !Current(s, q)
    ensures var t := Call(s, c, refresh, now).0; q in t.running && (t.running[q] == s.running[q] ==> !Current(t, q))
  {
    assert RunningOk(s, q);
    RefreshesGrow(s.log, s.log[q].conn, q + 1, |s.log|);
  }

  lemma CallKeepsInv(s: State, c: ConnId, refresh: bool, now: int)
    requires Inv(s)
    ensures Inv(Call(s, c, refresh, now).0)
  {
    CallKeepsReads(s, c, refresh, now);
    CallKeepsInflight(s, c, refresh, now);
    CallKeepsShared(s, c, refresh, now);
    CallKeepsSource(s, c, refresh, now);
  }

  lemma SettleKeepsReads(s: State, p: nat, o: Outcome, now: int)
    requires Inv(s)
    ensures var t := Settle(s, p, o, now); ReadsInv(t) && GenerationInv(t)
  {
    hide SourceInv, Refreshes, Usable, InflightInv, SharedInv;
    var t := Settle(s, p, o, now);
    if p in s.running {
      assert RunningOk(s, p);
      forall q | q in t.running ensures RunningOk(t, q) && q !in t.results { assert RunningOk(s, q); }
    }
  }

  lemma SettleKeepsShared(s: State, p: nat, o: Outcome, now: int)
    requires Inv(s)
    ensures var t := Settle(s, p, o, now); InflightInv(t) && SharedInv(t)
  {
    hide SourceInv, Refreshes, Usable, ReadsInv, GenerationInv;
  }

  /** A read that writes the cache is the only one of its connection that still could. */
  lemma SettleOwnSource(s: State, p: nat, o: Outcome, now: int)
    requires Inv(s) && p in s.running && Usable(o) && Current(s, p)
    ensures var t := Settle(s, p, o, now); s.running[p].conn in t.source && SourceOk(t, s.running[p].conn)
  {
    hide GenerationInv, InflightInv, SharedInv, SourceInv, Refreshes, Usable, Ttl;
    assert RunningOk(s, p);
    forall q | q in s.running && Current(s, q) && s.running[q].conn == s.running[p].conn ensures p == q { SingleFlight(s, p, q); }
  }

  lemma SettleOtherSource(s: State, p: nat, o: Outcome, now: int, d: ConnId)
    requires Inv(s) && p in s.running && d in s.source && !(Usable(o) && Current(s, p) && d == s.running[p].conn)
    ensures var t := Settle(s, p, o, now); d in t.source && SourceOk(t, d)
  {
    hide GenerationInv, InflightInv, SharedInv, ReadsInv, Refreshes, Usable, Ttl;
    assert SourceOk(s, d);
  }

  /** The only read that can write a connection's cache is newer than the one it came from. */
  lemma SettleKeepsSourceOf(s: State, p: nat, o: Outcome, now: int, d: ConnId)
    requires Inv(s) && p in s.running
    ensures var t := Settle(s, p, o, now); d in t.source ==> SourceOk(t, d)
  {
    hide GenerationInv, InflightInv, SharedInv, SourceInv, ReadsInv, Refreshes, Usable, Ttl, SourceOk;
    if Usable(o) && Current(s, p) && d == s.running[p].conn {
      SettleOwnSource(s, p, o, now);
    } else if d in s.source {
      SettleOtherSource(s, p, o, now, d);
    }
  }

  lemma SettleKeepsSource(s: State, p: nat, o: Outcome, now: int)
    requires Inv(s)
    ensures SourceInv(Settle(s, p, o, now))
  {
    hide GenerationInv, InflightInv, SharedInv, ReadsInv, Refreshes, SourceOk, Usable;
    var t := Settle(s, p, o, now);
    if p in s.running {
      forall d | d in t.source ensures SourceOk(t, d) { SettleKeepsSourceOf(s, p, o, now, d); }
    }
  }

  lemma SettleKeepsInv(s: State, p: nat, o: Outcome, now: int)
    requires Inv(s)
    ensures Inv(Settle(s, p, o, now))
  {
    hide Settle, ReadsInv, GenerationInv, InflightInv, SharedInv, SourceInv;
    SettleKeepsReads(s, p, o, now);
    SettleKeepsShared(s, p, o, now);
    SettleKeepsSource(s, p, o, now);
  }

  lemma StepKeepsInv(s: State, e: Event)
    requires Inv(s)
    ensures Inv(Step(s, e))
  {
    match e
    case Called(c, refresh, now) => CallKeepsInv(s, c, refresh, now);
    case Settled(p, o, now) => SettleKeepsInv(s, p, o, now);
  }

  /** Every interleaving of calls, refreshes, successes and failures keeps the invariant. */
  lemma {:induction false} RunKeepsInv(s: State, es: seq<Event>)
    requires Inv(s)
    ensures Inv(Run(s, es))
    decreases |es|
  {
    if es != [] {
      StepKeepsInv(s, es[0]);
      RunKeepsInv(Step(s, es[0]), es[1..]);
    }
  }

  lemma InitialInv()
    ensures Inv(INITIAL)
  {}

  // ----- what the cache promises -----

  /** At most one read of the current generation runs, and it is the one callers share. */
  lemma SingleFlight(s: State, p: nat, q: nat)
    requires Inv(s) && p in s.running && q in s.running && s.running[p].conn == s.running[q].conn
    requires Current(s, p) && Current(s, q)
    ensures p == q && s.inflight[s.running[p].conn] == p
  {}

  /** A settling read writes the cache exactly when it is usable and no refresh started after it. */
  lemma WriteIffNewest(s: State, p: nat, o: Outcome, now: int)
    requires Inv(s) && p in s.running
    ensures RunningOk(s, p)
    ensures var t, c := Settle(s, p, o, now), s.running[p].conn;
            (c in t.source && t.source[c] == p) <==> (Usable(o) && NoRefreshSince(s.log, p))
    ensures var t, c := Settle(s, p, o, now), s.running[p].conn;
            if Usable(o) && NoRefreshSince(s.log, p)
            then t.cache == s.cache[c := Cached(o.catalog, now, Ttl(o.catalog))]
            else t.cache == s.cache && t.source == s.source
  {
    CurrentMeansNoRefresh(s, p);
  }

  /** A finishing read removes no in-flight entry but its own. */
  lemma SettleKeepsOthersInflight(s: State, p: nat, o: Outcome, now: int, c: ConnId)
    requires Inv(s) && c in s.inflight && s.inflight[c] != p
    ensures var t := Settle(s, p, o, now); c in t.inflight && t.inflight[c] == s.inflight[c]
  {}

  lemma StepMovesForward(s: State, e: Event, c: ConnId)
    requires Inv(s) && c in s.source
    ensures var t := Step(s, e); c in t.source && t.source[c] >= s.source[c]
  {
    hide ReadsInv, GenerationInv, InflightInv, SharedInv, Fresh, Usable;
    assert SourceOk(s, c);
  }

  /** Over any run the cached catalog is never replaced by one whose read started earlier. */
  lemma {:induction false} CacheMovesForward(s: State, es: seq<Event>, c: ConnId)
    requires Inv(s) && c in s.source
    ensures var t := Run(s, es); c in t.source && t.source[c] >= s.source[c]
    decreases |es|
  {
    if es != [] {
      StepKeepsInv(s, es[0]);
      StepMovesForward(s, es[0], c);
      CacheMovesForward(Step(s, es[0]), es[1..], c);
    }
  }

  /**
   * Once a refresh has been cached, no later call in any run is answered from a read that started
   * before it: a hit returns what some read `q >= p` of the same connection returned.
   */
  lemma HitsAfterRefresh(s: State, p: nat, o: Outcome, now: int, es: seq<Event>, later: int)
    requires Inv(s) && p in s.running && Usable(o) && NoRefreshSince'(s, p)
    ensures var c, t := s.running[p].conn, Run(Settle(s, p, o, now), es);
            var a := Call(t, c, false, later).1;
            a.Hit? ==> c in t.source && p <= t.source[c] < |t.log| && t.log[t.source[c]].conn == c
                       && t.source[c] in t.results && a.catalog == t.results[t.source[c]]
  {
    var c, u := s.running[p].conn, Settle(s, p, o, now);
    WriteIffNewest(s, p, o, now);
    SettleKeepsInv(s, p, o, now);
    RunKeepsInv(u, es);
    CacheMovesForward(u, es, c);
    assert SourceOk(Run(u, es), c);
  }

  ghost predicate NoRefreshSince'(s: State, p: nat) { p < |s.log| && NoRefreshSince(s.log, p) }

  // ----- when a call is answered from the cache -----

  ghost function After(es: seq<Event>): State { Run(INITIAL, es) }

  lemma {:induction false} RunSnoc(s: State, es: seq<Event>, e: Event)
    ensures Run(s, es + [e]) == Step(Run(s, es), e)
    decreases |es|
  {
    hide Step;
    if es == [] {
      assert es + [e] == [e] && [e][1..] == [];
      assert Run(Step(s, e), []) == Step(s, e);
    } else {
      assert (es + [e])[0] == es[0] && (es + [e])[1..] == es[1..] + [e];
      RunSnoc(Step(s, es[0]), es[1..], e);
    }
  }

  /** What one read brought, and when. */
  datatype Kept = Kept(catalog: Catalog, at: int)

  /** `e` settles a read of `c` with a catalog worth keeping, and no refresh has started since that read did. */
  ghost predicate Brings(s: State, e: Event, c: ConnId) {
    && e.Settled? && e.promise in s.running && s.running[e.promise].conn == c && e.outcome.Returned?
    && (e.outcome.catalog.tables != [] || e.outcome.catalog.warnings == [])
    && NoRefreshSince'(s, e.promise)
  }

  /** The catalog of `c` brought last. */
  ghost function LastBrought(es: seq<Event>, c: ConnId): Option<Kept> {
    if es == [] then None
    else
      var front, e := es[..|es| - 1], es[|es| - 1];
      if Brings(After(front), e, c) then Some(Kept(e.outcome.catalog, e.now)) else LastBrought(front, c)
  }

  /** Half a minute if the read came with warnings, five minutes otherwise. */
  function Lifetime(k: Catalog): int { if k.warnings != [] then 30_000 else 300_000 }

  ghost predicate Caches(s: State, c: ConnId, k: Option<Kept>) {
    if k.None? then c !in s.cache
    else c in s.cache && s.cache[c] == Cached(k.value.catalog, k.value.at, Lifetime(k.value.catalog))
  }

  lemma StepCaches(s: State, e: Event, c: ConnId, k: Option<Kept>)
    requires Inv(s) && Caches(s, c, k)
    ensures Caches(Step(s, e), c, if Brings(s, e, c) then Some(Kept(e.outcome.catalog, e.now)) else k)
  {
    hide Inv;
    if e.Settled? && e.promise in s.running {
      WriteIffNewest(s, e.promise, e.outcome, e.now);
      hide NoRefreshSince;
    }
  }

  lemma {:induction false} CacheIs(es: seq<Event>, c: ConnId)
    ensures Caches(After(es), c, LastBrought(es, c)) && Inv(After(es))
    decreases |es|
  {
    hide Inv, Step, Caches, Brings;
    InitialInv();
    RunKeepsInv(INITIAL, es);
    if es == [] {
      assert Caches(INITIAL, c, None) by { NothingCached(c); }
    } else {
      var n := |es| - 1;
      assert es[..n] + [es[n]] == es;
      CacheIs(es[..n], c);
      RunSnoc(INITIAL, es[..n], es[n]);
      StepCaches(After(es[..n]), es[n], c, LastBrought(es[..n], c));
    }
  }

  lemma NothingCached(c: ConnId)
    ensures Caches(INITIAL, c, None)
  {}

  /** A read of `c` is under way that no refresh has overtaken. */
  ghost predicate Shareable(s: State, c: ConnId, p: nat) {
    p in s.running && s.running[p].conn == c && NoRefreshSince'(s, p)
  }

  /** The in-flight entry is the read that can be shared, and there is no other. */
  lemma InflightIff(s: State, c: ConnId)
    requires Inv(s)
    ensures c in s.inflight ==> Shareable(s, c, s.inflight[c])
    ensures forall p :: Shareable(s, c, p) ==> c in s.inflight && s.inflight[c] == p
  {
    forall p | p in s.running ensures RunningOk(s, p) && (Current(s, p) <==> NoRefreshSince(s.log, p)) { CurrentMeansNoRefresh(s, p); }
    hide NoRefreshSince, Refreshes, ReadsInv, GenerationInv, SourceInv;
  }

  lemma BeginIsNew(s: State, c: ConnId, refresh: bool)
    requires Inv(s)
    ensures |s.log| !in s.running && Begin(s, c, refresh).log == s.log + [Start(c, refresh)]
    ensures Shareable(Begin(s, c, refresh), c, |s.log|)
  {
    forall p | p in s.running ensures p < |s.log| { assert RunningOk(s, p); }
  }

  /**
   * Over any run, what a call is answered with: the catalog brought last while it lives, unless a
   * refresh is asked for; then the read under way, if no refresh has overtaken it; and a new read only
   * when there is neither.
   */
  lemma CallAnswers(es: seq<Event>, c: ConnId, refresh: bool, now: int)
    ensures var s, k := After(es), LastBrought(es, c);
            var live := !refresh && k.Some? && now - k.value.at < Lifetime(k.value.catalog);
            var (t, a) := Call(s, c, refresh, now);
            && (live ==> a == Hit(k.value.catalog) && t == s)
            && (!live && !refresh ==> forall p :: Shareable(s, c, p) ==> a == Await(p) && t == s)
            && (!live && (refresh || forall p :: !Shareable(s, c, p)) ==>
                  a == Await(|s.log|) && |s.log| !in s.running && t.log == s.log + [Start(c, refresh)]
                  && Shareable(t, c, |s.log|))
  {
    CacheIs(es, c);
    var s := After(es);
    InflightIff(s, c);
    BeginIsNew(s, c, refresh);
    CallCases(s, c, refresh, now);
    hide Inv, After, LastBrought, Call, Begin, Shareable;
  }

  /**
   * A read is under way from the call that starts it to its own settlement and no longer; whatever the
   * outcome, that settlement frees its connection for a new read unless a later read has taken over.
   */
  lemma UnderWayIff(s: State, e: Event, p: nat)
    requires Inv(s)
    ensures var t := Step(s, e);
            && (p in t.running <==> (p in s.running && !(e.Settled? && e.promise == p)) || |s.log| <= p < |t.log|)
            && (e.Settled? && p == e.promise && p in s.running ==>
                  forall c :: c in t.inflight <==> c in s.inflight && s.inflight[c] != p)
  {
    BeginIsNew(s, if e.Called? then e.conn else "", e.Called? && e.refresh);
    if e.Settled? {
      forall c | c in s.inflight && s.inflight[c] == e.promise && e.promise in s.running
        ensures c == s.running[e.promise].conn
      {
        InflightIff(s, c);
      }
    } else {
      CallCases(s, e.conn, e.refresh, e.now);
    }
    hide Inv, Call, Refreshes, Shareable;
  }

  // ----- the engine's closure -----

  lemma CallCases(s: State, c: ConnId, refresh: bool, now: int)
    ensures Call(s, c, refresh, now) ==
              if !refresh && Fresh(s, c, now) then (s, Hit(s.cache[c].catalog))
              else if !refresh && c in s.inflight then (s, Await(s.inflight[c]))
              else (Begin(s, c, refresh), Await(|s.log|))
  {
    hide Begin;
  }

  lemma BeginIs(s: State, c: ConnId, refresh: bool, gen: nat, generation: map<ConnId, nat>)
    requires gen == Generation(s.generation, c) + (if refresh then 1 else 0)
    requires generation == if refresh then s.generation[c := gen] else s.generation
    ensures Begin(s, c, refresh) ==
              State(s.cache, s.inflight[c := |s.log|], generation, s.running[|s.log| := Read(c, gen)], s.log + [Start(c, refresh)],
                    s.source, s.results)
  {
    hide Generation;
  }

  lemma SettleIs(s: State, p: nat, o: Outcome, now: int)
    requires p in s.running
    ensures var r := s.running[p];
            var writes := Usable(o) && Generation(s.generation, r.conn) == r.generation;
            Settle(s, p, o, now) ==
              State(if writes then s.cache[r.conn := Cached(o.catalog, now, Ttl(o.catalog))] else s.cache,
                    if r.conn in s.inflight && s.inflight[r.conn] == p then s.inflight - {r.conn} else s.inflight,
                    s.generation, s.running - {p}, s.log,
                    if writes then s.source[r.conn := p] else s.source,
                    if Usable(o) then s.results[p := o.catalog] else s.results)
  {
    hide Generation, Ttl;
  }

  class CatalogStore {
    var catalogCache: map<ConnId, Cached>
    var inflight: map<ConnId, nat>
    var catalogGeneration: map<ConnId, nat>
    /** The suspended closures, by the promise each will settle. */
    var running: map<nat, Read>
    var nextPromise: nat
    ghost var log: seq<Start>
    ghost var source: map<ConnId, nat>
    ghost var results: map<nat, Catalog>

    ghost function View(): State
      reads this
    {
      State(catalogCache, inflight, catalogGeneration, running, log, source, results)
    }

    ghost predicate Valid()
      reads this
    {
      Inv(View()) && nextPromise == |log|
    }

    constructor ()
      ensures Valid() && View() == INITIAL
    {
      catalogCache, inflight, catalogGeneration, running, nextPromise := map[], map[], map[], map[], 0;
      log, source, results := [], map[], map[];
      new;
      InitialInv();
    }

    /** `getCatalog` until it returns a catalog or a promise. */
    method GetCatalog(conn: ConnId, refresh: bool, now: int) returns (answer: Answer)
      requires Valid()
      modifies this
      ensures Valid()
      ensures (View(), answer) == Call(old(View()), conn, refresh, now)
    {
      hide Inv, Generation, Call, Begin;
      ghost var s := View();
      CallKeepsInv(s, conn, refresh, now);
      CallCases(s, conn, refresh, now);
      if !refresh && conn in catalogCache && now - catalogCache[conn].at < catalogCache[conn].ttl {
        return Hit(catalogCache[conn].catalog);
      }
      if !refresh && conn in inflight {
        return Await(inflight[conn]);
      }
      var p := StartRead(conn, refresh);
      answer := Await(p);
    }

    /** A new promise, shared from now on. */
    method StartRead(conn: ConnId, refresh: bool) returns (p: nat)
      requires nextPromise == |log|
      modifies this
      ensures View() == Begin(old(View()), conn, refresh) && p == old(|log|) && nextPromise == |log|
    {
      hide Generation, Begin;
      var generation := Generation(catalogGeneration, conn);
      if refresh {
        generation := generation + 1;
        catalogGeneration := catalogGeneration[conn := generation];
      }
      p := nextPromise;
      nextPromise, running, inflight := p + 1, running[p := Read(conn, generation)], inflight[conn := p];
      log := log + [Start(conn, refresh)];
      BeginIs(old(View()), conn, refresh, generation, catalogGeneration);
    }

    /** The continuation of read `p` once `introspect` has settled. */
    method Finish(p: nat, outcome: Outcome, now: int)
      requires Valid() && p in running
      modifies this
      ensures Valid()
      ensures View() == Settle(old(View()), p, outcome, now)
    {
      hide Inv, Ttl, Generation, Settle;
      ghost var s := View();
      SettleKeepsInv(s, p, outcome, now);
      SettleIs(s, p, outcome, now);
      var r := running[p];
      if Usable(outcome) {
        var catalog := outcome.catalog;
        if Generation(catalogGeneration, r.conn) == r.generation {
          catalogCache := catalogCache[r.conn := Cached(catalog, now, Ttl(catalog))];
          source := source[r.conn := p];
        }
        results := results[p := catalog];
      }
      if r.conn in inflight && inflight[r.conn] == p {
        inflight := inflight - {r.conn};
      }
      running := running - {p};
    }
  }
}
