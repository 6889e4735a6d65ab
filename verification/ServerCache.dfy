/** The two-level server-list cache (memory and session storage) with its generation counter,
    and the loads that fill it. Loads are named by the step at which they began; `encode` is
    the URL-encoding of scopes and may be any function. */
module ServerCache {
  import opened OrderedMaps
  import opened Wrappers

  const SERVER_CACHE_KEY_PREFIX: string := "xlstatus:servers:v1:"
  const SERVER_CACHE_MAX_AGE_MS: int := 600_000
  const CLOCK_SKEW_MS: int := 30_000
  const SERVER_CACHE_MAX_ROWS: nat := 500
  const SERVER_CACHE_MAX_JSON_LENGTH: nat := 2 * 1024 * 1024
  const SERVER_INITIAL_PAGE_SIZE: nat := 50
  const SERVER_MAX_ROWS: nat := 500

  datatype Row = Row(id: string, wellFormed: bool)

  /** `scope` is the scope the rows were fetched for, and `begun` the step at which the load
      that fetched them began; `None` for what was in storage before the first step. */
  datatype Snapshot = Snapshot(cachedAt: int, servers: seq<Row>, scope: string, begun: Option<nat>)

  /** A string in session storage: unreadable, or a JSON object with the fields looked at. */
  datatype Raw =
    | Unreadable
    | Record(length: nat, version: int, scope: string, cachedAt: int, servers: seq<Row>, begun: Option<nat>)

  datatype Phase = FirstPage | Remainder(first: seq<Row>) | Finished
  datatype Load = Load(
    dataScope: string, cacheScope: Option<string>, requestId: nat, generation: nat, aborted: bool, phase: Phase)

  datatype State = State(
    memory: map<string, Snapshot>,
    hydrated: set<string>,
    storage: OrderedMap<Raw>,
    generation: nat,
    identity: Option<string>,
    requestId: nat,
    loads: map<nat, Load>,
    clock: nat)

  datatype Event =
    | Read(scope: string, now: int)
    | ClearScope(scope: string, invalidatePendingWrites: bool)
    | ClearAll
    /** `setStoredUser` or `clearStoredUser`. */
    | ChangeUser(identity: Option<string>)
    /** The session cookie changes without the user store noticing. */
    | ChangeCookie(identity: Option<string>)
    | BeginLoad(dataScope: string, cacheScope: Option<string>)
    /** The effect's cleanup: abort the running load and retire its request id. */
    | Teardown
    | FirstPageArrives(load: nat, ok: bool, denied: bool, rows: seq<Row>, total: int, now: int, length: nat)
    | RemainderArrives(load: nat, ok: bool, rows: seq<Row>, now: int, length: nat)

  type Encoder = string -> string

  function StorageKey(scope: string, encode: Encoder): string
  {
    SERVER_CACHE_KEY_PREFIX + encode(scope)
  }

  predicate IsFresh(cachedAt: int, now: int)
  {
    0 < cachedAt && cachedAt <= now + CLOCK_SKEW_MS && now - cachedAt <= SERVER_CACHE_MAX_AGE_MS
  }

  predicate AllWellFormed(rows: seq<Row>)
  {
    forall i | 0 <= i < |rows| :: rows[i].wellFormed
  }

  function WellFormedRows(rows: seq<Row>): (r: seq<Row>)
    ensures AllWellFormed(r) && |r| <= |rows|
  {
    if rows == [] then []
    else if rows[0].wellFormed then [rows[0]] + WellFormedRows(rows[1..]) else WellFormedRows(rows[1..])
  }

  function ParseSnapshot(raw: Raw, scope: string, now: int): (r: Option<Snapshot>)
    ensures r.Some? ==> IsFresh(r.value.cachedAt, now) && |r.value.servers| <= SERVER_CACHE_MAX_ROWS
                        && AllWellFormed(r.value.servers) && raw.Record? && r.value.scope == raw.scope == scope
  {
    match raw
    case Unreadable => None
    case Record(length, version, scope', cachedAt, servers, begun) =>
      if 0 < length <= SERVER_CACHE_MAX_JSON_LENGTH && version == 1 && scope' == scope && IsFresh(cachedAt, now)
         && |servers| <= SERVER_CACHE_MAX_ROWS && AllWellFormed(servers)
      then Some(Snapshot(cachedAt, servers, scope', begun)) else None
  }

  // ---- Cache operations ----

  /** The state after a read and the snapshot it returns. */
  function ReadCached(s: State, scope: string, now: int, encode: Encoder): (State, Option<Snapshot>)
  {
    if scope == "" then (s, None)
    else if scope in s.memory && IsFresh(s.memory[scope].cachedAt, now) then (s, Some(s.memory[scope]))
    else
      var key := StorageKey(scope, encode);
      var s1 :=
        if scope in s.memory then s.(memory := s.memory - {scope}, storage := Delete(s.storage, key)) else s;
      if scope in s1.hydrated then (s1, None)
      else
        var s2 := s1.(hydrated := s1.hydrated + {scope});
        if key !in s2.storage.at then (s2, None)
        else
          match ParseSnapshot(s2.storage.at[key], scope, now)
          case None => (s2.(storage := Delete(s2.storage, key)), None)
          case Some(snapshot) => (s2.(memory := s2.memory[scope := snapshot]), Some(snapshot))
  }

  predicate CanWrite(s: State, rows: seq<Row>, expected: nat)
  {
    expected == s.generation && |rows| <= SERVER_CACHE_MAX_ROWS && AllWellFormed(rows)
  }

  function WriteCached(s: State, scope: string, rows: seq<Row>, expected: nat, begun: nat, now: int, length: nat,
                       encode: Encoder): State
  {
    if !CanWrite(s, rows, expected) then s
    else
      var key := StorageKey(scope, encode);
      var s1 := s.(memory := s.memory[scope := Snapshot(now, rows, scope, Some(begun))],
                   hydrated := s.hydrated + {scope});
      if length <= SERVER_CACHE_MAX_JSON_LENGTH
      then s1.(storage := Set(s1.storage, key, Record(length, 1, scope, now, rows, Some(begun))))
      else s1
  }

  function ClearedScope(s: State, scope: string, bump: bool, encode: Encoder): State
  {
    s.(generation := if bump then s.generation + 1 else s.generation,
       memory := s.memory - {scope}, hydrated := s.hydrated - {scope},
       storage := Delete(s.storage, StorageKey(scope, encode)))
  }

  /** The storage keys that do not belong to the cache. */
  function Foreign(storage: OrderedMap<Raw>): set<string>
  {
    set k | k in storage.at && !(SERVER_CACHE_KEY_PREFIX <= k)
  }

  function ClearedAll(s: State): State
  {
    s.(generation := s.generation + 1, memory := map[], hydrated := {},
       storage := Restrict(s.storage, Foreign(s.storage)))
  }

  // ---- Loads ----

  predicate Stale(s: State, id: nat)
    requires id in s.loads
  {
    s.loads[id].aborted || s.loads[id].requestId != s.requestId || s.identity != Some(s.loads[id].dataScope)
  }

  /** Aborts the running load; all earlier unfinished ones have been aborted before. */
  function Aborted(s: State): State
  {
    s.(loads := map id | id in s.loads :: s.loads[id].(aborted := true))
  }

  function Capped(total: int): nat
  {
    if total < 0 then 0 else if SERVER_MAX_ROWS < total then SERVER_MAX_ROWS else total
  }

  function WithPhase(s: State, id: nat, phase: Phase): State
    requires id in s.loads
  {
    s.(loads := s.loads[id := s.loads[id].(phase := phase)])
  }

  /** The end of a load that passed its guards. */
  function Published(s: State, id: nat, rows: seq<Row>, now: int, length: nat, encode: Encoder): State
    requires id in s.loads
  {
    var load := s.loads[id];
    var s1 := if load.cacheScope.Some?
              then WriteCached(s, load.cacheScope.value, rows, load.generation, id, now, length, encode) else s;
    s1.(loads := s1.loads[id := load.(phase := Finished)])
  }

  function AfterFirstPage(s: State, id: nat, ok: bool, denied: bool, rows: seq<Row>, total: int, now: int, length: nat,
                          encode: Encoder): State
  {
    if id !in s.loads || s.loads[id].phase != FirstPage then s
    else if Stale(s, id) then WithPhase(s, id, Finished)
    else if !ok then
      var s1 := if denied && s.loads[id].cacheScope.Some?
                then ClearedScope(s, s.loads[id].cacheScope.value, true, encode) else s;
      WithPhase(s1, id, Finished)
    else if SERVER_INITIAL_PAGE_SIZE < Capped(total) then WithPhase(s, id, Remainder(WellFormedRows(rows)))
    else Published(s, id, WellFormedRows(rows), now, length, encode)
  }

  function AfterRemainder(s: State, id: nat, ok: bool, rows: seq<Row>, now: int, length: nat, encode: Encoder): State
  {
    if id !in s.loads || !s.loads[id].phase.Remainder? then s
    else if Stale(s, id) || !ok then WithPhase(s, id, Finished)
    else Published(s, id, s.loads[id].phase.first + WellFormedRows(rows), now, length, encode)
  }

  function Effect(s: State, e: Event, encode: Encoder): State
  {
    match e
    case Read(scope, now) => ReadCached(s, scope, now, encode).0
    case ClearScope(scope, bump) => ClearedScope(s, scope, bump, encode)
    case ClearAll => ClearedAll(s)
    case ChangeUser(identity) => ClearedAll(s).(identity := identity)
    case ChangeCookie(identity) => s.(identity := identity)
    case BeginLoad(dataScope, cacheScope) =>
      var s1 := Aborted(s);
      s1.(requestId := s1.requestId + 1,
          loads := s1.loads[s1.clock :=
            Load(dataScope, cacheScope, s1.requestId + 1, s1.generation, false, FirstPage)])
    case Teardown => Aborted(s).(requestId := s.requestId + 1)
    case FirstPageArrives(id, ok, denied, rows, total, now, length) =>
      AfterFirstPage(s, id, ok, denied, rows, total, now, length, encode)
    case RemainderArrives(id, ok, rows, now, length) => AfterRemainder(s, id, ok, rows, now, length, encode)
  }

  function Step(s: State, e: Event, encode: Encoder): State
  {
    Effect(s, e, encode).(clock := s.clock + 1)
  }

  function Initial(storage: OrderedMap<Raw>, identity: Option<string>): State
  {
    State(map[], {}, storage, 0, identity, 0, map[], 0)
  }

  function Run(s: State, events: seq<Event>, encode: Encoder): State
  {
    if events == [] then s else Step(Run(s, events[..|events| - 1], encode), events[|events| - 1], encode)
  }

  // ---- What every step keeps ----

  ghost predicate OwnScope(loads: map<nat, Load>, begun: Option<nat>, scope: string)
  {
    begun.Some? ==> begun.value in loads && loads[begun.value].cacheScope == Some(scope)
  }

  /** Cached scopes are marked hydrated, and every cached list is small, well formed, and was
      fetched for that very scope: by a load of this page, or by an earlier page. */
  ghost predicate CacheOk(s: State)
  {
    && s.memory.Keys <= s.hydrated
    && Valid(s.storage)
    && (forall scope | scope in s.memory ::
          && |s.memory[scope].servers| <= SERVER_CACHE_MAX_ROWS && AllWellFormed(s.memory[scope].servers)
          && s.memory[scope].scope == scope && OwnScope(s.loads, s.memory[scope].begun, scope))
    && (forall k | k in s.storage.at && s.storage.at[k].Record? ::
          OwnScope(s.loads, s.storage.at[k].begun, s.storage.at[k].scope))
  }

  ghost predicate LoadsOk(s: State)
  {
    && (forall id | id in s.loads :: id < s.clock && s.loads[id].generation <= s.generation
                                     && s.loads[id].requestId <= s.requestId)
    && (forall id | id in s.loads && s.loads[id].phase.Remainder? :: AllWellFormed(s.loads[id].phase.first))
  }

  ghost predicate Inv(s: State)
  {
    CacheOk(s) && LoadsOk(s)
  }

  /** The load whose result an event writes to the cache, if any. */
  function Publishes(s: State, e: Event): Option<nat>
  {
    var candidate :=
      match e
      case FirstPageArrives(id, ok, _, _, total, _, _) =>
        if ok && id in s.loads && s.loads[id].phase == FirstPage && Capped(total) <= SERVER_INITIAL_PAGE_SIZE
        then Some(id) else None
      case RemainderArrives(id, ok, _, _, _) =>
        if ok && id in s.loads && s.loads[id].phase.Remainder? then Some(id) else None
      case _ => None;
    if candidate.Some? && !Stale(s, candidate.value) && s.loads[candidate.value].generation == s.generation
    then candidate else None
  }

  predicate SameLoad(a: Load, b: Load)
  {
    && a.dataScope == b.dataScope && a.cacheScope == b.cacheScope
    && a.requestId == b.requestId && a.generation == b.generation
  }

  ghost predicate LoadsFrame(s: State, t: State)
  {
    && t.clock == s.clock + 1 && s.generation <= t.generation && s.requestId <= t.requestId
    && (forall id | id in s.loads :: id in t.loads && SameLoad(s.loads[id], t.loads[id]))
    && (forall id | id in t.loads && id !in s.loads ::
          id == s.clock && t.loads[id].generation == t.generation && t.loads[id].requestId == t.requestId)
  }

  /** New memory entries come from the publishing load or from storage; new storage entries
      only from the publishing load. */
  ghost predicate EntriesFrame(s: State, t: State, published: Option<nat>, encode: Encoder)
  {
    && (forall scope | scope in t.memory ::
          || (scope in s.memory && t.memory[scope] == s.memory[scope])
          || (published.Some? && t.memory[scope].begun == published)
          || (StorageKey(scope, encode) in s.storage.at
              && s.storage.at[StorageKey(scope, encode)].Record?
              && t.memory[scope].begun == s.storage.at[StorageKey(scope, encode)].begun))
    && (forall k | k in t.storage.at ::
          || (k in s.storage.at && t.storage.at[k] == s.storage.at[k])
          || (published.Some? && t.storage.at[k].Record? && t.storage.at[k].begun == published))
  }

  /** The cache operations touch nothing but the cache. */
  predicate CacheOnly(s: State, t: State)
  {
    t == s.(memory := t.memory, hydrated := t.hydrated, storage := t.storage, generation := t.generation)
  }

  lemma CacheOperations(s: State, scope: string, now: int, rows: seq<Row>, expected: nat, begun: nat, length: nat,
                        bump: bool, encode: Encoder)
    ensures CacheOnly(s, ReadCached(s, scope, now, encode).0)
            && ReadCached(s, scope, now, encode).0.generation == s.generation
    ensures CacheOnly(s, WriteCached(s, scope, rows, expected, begun, now, length, encode))
            && WriteCached(s, scope, rows, expected, begun, now, length, encode).generation == s.generation
    ensures CacheOnly(s, ClearedScope(s, scope, bump, encode))
            && ClearedScope(s, scope, bump, encode).generation == if bump then s.generation + 1 else s.generation
    ensures CacheOnly(s, ClearedAll(s)) && ClearedAll(s).generation == s.generation + 1
  {
  }

  lemma {:induction false} FirstPageLoads(s: State, id: nat, ok: bool, denied: bool, rows: seq<Row>, total: int,
                                          now: int, length: nat, encode: Encoder)
    ensures var t := AfterFirstPage(s, id, ok, denied, rows, total, now, length, encode);
            && t.clock == s.clock && s.generation <= t.generation && s.requestId == t.requestId
            && t.loads.Keys == s.loads.Keys
            && (forall x | x in s.loads :: SameLoad(s.loads[x], t.loads[x]))
            && (forall x | x in t.loads && t.loads[x].phase.Remainder? ::
                  s.loads[x].phase == t.loads[x].phase || AllWellFormed(t.loads[x].phase.first))
  {
    hide WriteCached, ClearedScope, AllWellFormed;
    if id in s.loads && s.loads[id].cacheScope.Some? {
      CacheOperations(s, s.loads[id].cacheScope.value, now, WellFormedRows(rows), s.loads[id].generation, id, length,
                      true, encode);
    }
  }

  lemma {:induction false} RemainderLoads(s: State, id: nat, ok: bool, rows: seq<Row>, now: int, length: nat,
                                          encode: Encoder)
    ensures var t := AfterRemainder(s, id, ok, rows, now, length, encode);
            && t.clock == s.clock && s.generation == t.generation && s.requestId == t.requestId
            && t.loads.Keys == s.loads.Keys
            && (forall x | x in s.loads :: SameLoad(s.loads[x], t.loads[x]))
            && (forall x | x in t.loads && t.loads[x].phase.Remainder? :: s.loads[x].phase == t.loads[x].phase)
  {
    hide WriteCached, AllWellFormed;
    if id in s.loads && s.loads[id].cacheScope.Some? && s.loads[id].phase.Remainder? {
      CacheOperations(s, s.loads[id].cacheScope.value, now, s.loads[id].phase.first + WellFormedRows(rows),
                      s.loads[id].generation, id, length, true, encode);
    }
  }

  lemma {:induction false} StepLoads(s: State, e: Event, encode: Encoder)
    requires LoadsOk(s)
    ensures LoadsOk(Step(s, e, encode)) && LoadsFrame(s, Step(s, e, encode))
  {
    hide Step, LoadsOk, LoadsFrame;
    if e.BeginLoad? || e.Teardown? {
      BeginStepLoads(s, e, encode);
    } else if e.FirstPageArrives? || e.RemainderArrives? {
      PageStepLoads(s, e, encode);
    } else {
      CacheStepLoads(s, e, encode);
    }
  }

  lemma {:induction false} BeginStepLoads(s: State, e: Event, encode: Encoder)
    requires LoadsOk(s) && (e.BeginLoad? || e.Teardown?)
    ensures LoadsOk(Step(s, e, encode)) && LoadsFrame(s, Step(s, e, encode))
  {
    hide Aborted, AllWellFormed;
    AbortedLoads(s);
  }

  lemma {:induction false} PageStepLoads(s: State, e: Event, encode: Encoder)
    requires LoadsOk(s) && (e.FirstPageArrives? || e.RemainderArrives?)
    ensures LoadsOk(Step(s, e, encode)) && LoadsFrame(s, Step(s, e, encode))
  {
    hide AfterFirstPage, AfterRemainder, AllWellFormed;
    if e.FirstPageArrives? {
      FirstPageLoads(s, e.load, e.ok, e.denied, e.rows, e.total, e.now, e.length, encode);
    } else {
      RemainderLoads(s, e.load, e.ok, e.rows, e.now, e.length, encode);
    }
  }

  lemma {:induction false} CacheStepLoads(s: State, e: Event, encode: Encoder)
    requires LoadsOk(s) && (e.Read? || e.ClearScope? || e.ClearAll? || e.ChangeUser? || e.ChangeCookie?)
    ensures LoadsOk(Step(s, e, encode)) && LoadsFrame(s, Step(s, e, encode))
  {
    hide ReadCached, ClearedScope, ClearedAll, AllWellFormed;
    match e
    case Read(scope, now) => CacheOperations(s, scope, now, [], 0, 0, 0, true, encode);
    case ClearScope(scope, bump) => CacheOperations(s, scope, 0, [], 0, 0, 0, bump, encode);
    case ClearAll => CacheOperations(s, "", 0, [], 0, 0, 0, true, encode);
    case ChangeUser(_) => CacheOperations(s, "", 0, [], 0, 0, 0, true, encode);
    case ChangeCookie(_) =>
  }

  lemma AbortedLoads(s: State)
    ensures Aborted(s) == s.(loads := Aborted(s).loads) && Aborted(s).loads.Keys == s.loads.Keys
    ensures forall id | id in s.loads ::
              SameLoad(s.loads[id], Aborted(s).loads[id]) && Aborted(s).loads[id].phase == s.loads[id].phase
  {
  }

  lemma {:induction false} WriteEntries(s: State, scope: string, rows: seq<Row>, expected: nat, begun: nat, now: int,
                                        length: nat, encode: Encoder)
    ensures EntriesFrame(s, WriteCached(s, scope, rows, expected, begun, now, length, encode),
                         if expected == s.generation then Some(begun) else None, encode)
  {
    hide StorageKey;
  }

  lemma {:induction false} ReadEntries(s: State, scope: string, now: int, encode: Encoder)
    ensures EntriesFrame(s, ReadCached(s, scope, now, encode).0, None, encode)
  {
    hide StorageKey, Delete, IsFresh;
    DeleteAt(s.storage, StorageKey(scope, encode));
  }

  lemma {:induction false} ClearEntries(s: State, scope: string, bump: bool, encode: Encoder)
    ensures EntriesFrame(s, ClearedScope(s, scope, bump, encode), None, encode)
    ensures EntriesFrame(s, ClearedAll(s), None, encode)
  {
    hide StorageKey, Delete;
    DeleteAt(s.storage, StorageKey(scope, encode));
  }

  lemma DeleteAt(m: OrderedMap<Raw>, k: string)
    ensures Delete(m, k).at == m.at - {k}
  {
  }

  /** Entries are judged by memory and storage alone. */
  lemma SameEntries(s: State, t: State, u: State, published: Option<nat>, encode: Encoder)
    requires EntriesFrame(s, t, published, encode) && u.memory == t.memory && u.storage == t.storage
    ensures EntriesFrame(s, u, published, encode)
  {
  }

  lemma {:induction false} PublishedEntries(s: State, id: nat, rows: seq<Row>, now: int, length: nat, encode: Encoder)
    requires id in s.loads
    ensures EntriesFrame(s, Published(s, id, rows, now, length, encode),
                         if s.loads[id].generation == s.generation then Some(id) else None, encode)
  {
    hide EntriesFrame, WriteCached;
    var load := s.loads[id];
    var published := if load.generation == s.generation then Some(id) else None;
    var t := Published(s, id, rows, now, length, encode);
    if load.cacheScope.Some? {
      WriteEntries(s, load.cacheScope.value, rows, load.generation, id, now, length, encode);
      SameEntries(s, WriteCached(s, load.cacheScope.value, rows, load.generation, id, now, length, encode), t,
                  published, encode);
    } else {
      NoNewEntries(s, t, published, encode);
    }
  }

  lemma NoNewEntries(s: State, t: State, published: Option<nat>, encode: Encoder)
    requires t.memory == s.memory && t.storage == s.storage
    ensures EntriesFrame(s, t, published, encode)
  {
  }

  lemma {:induction false} FirstPageEntries(s: State, e: Event, encode: Encoder)
    requires e.FirstPageArrives?
    ensures EntriesFrame(s, Effect(s, e, encode), Publishes(s, e), encode)
  {
    hide EntriesFrame, Published, ClearedScope;
    var id, t, p := e.load, Effect(s, e, encode), Publishes(s, e);
    if id in s.loads && s.loads[id].phase == FirstPage && !Stale(s, id) && e.ok
        && Capped(e.total) <= SERVER_INITIAL_PAGE_SIZE {
      PublishedEntries(s, id, WellFormedRows(e.rows), e.now, e.length, encode);
    } else if id in s.loads && s.loads[id].phase == FirstPage && !Stale(s, id) && !e.ok && e.denied
        && s.loads[id].cacheScope.Some? {
      ClearEntries(s, s.loads[id].cacheScope.value, true, encode);
      CacheOperations(s, s.loads[id].cacheScope.value, 0, [], 0, 0, 0, true, encode);
      SameEntries(s, ClearedScope(s, s.loads[id].cacheScope.value, true, encode), t, None, encode);
    } else {
      NoNewEntries(s, t, p, encode);
    }
  }

  lemma {:induction false} RemainderEntries(s: State, e: Event, encode: Encoder)
    requires e.RemainderArrives?
    ensures EntriesFrame(s, Effect(s, e, encode), Publishes(s, e), encode)
  {
    hide EntriesFrame, Published;
    var id := e.load;
    if id in s.loads && s.loads[id].phase.Remainder? && !Stale(s, id) && e.ok {
      PublishedEntries(s, id, s.loads[id].phase.first + WellFormedRows(e.rows), e.now, e.length, encode);
    } else {
      NoNewEntries(s, Effect(s, e, encode), Publishes(s, e), encode);
    }
  }

  lemma {:induction false} StepEntries(s: State, e: Event, encode: Encoder)
    ensures EntriesFrame(s, Step(s, e, encode), Publishes(s, e), encode)
  {
    hide EntriesFrame, ReadCached, ClearedScope, ClearedAll, AfterFirstPage, AfterRemainder;
    var t := Effect(s, e, encode);
    match e {
      case Read(scope, now) => ReadEntries(s, scope, now, encode);
      case ClearScope(scope, bump) => ClearEntries(s, scope, bump, encode);
      case ClearAll => ClearEntries(s, "", true, encode);
      case ChangeUser(_) =>
        ClearEntries(s, "", true, encode);
        SameEntries(s, ClearedAll(s), t, None, encode);
      case FirstPageArrives(_, _, _, _, _, _, _) => FirstPageEntries(s, e, encode);
      case RemainderArrives(_, _, _, _, _) => RemainderEntries(s, e, encode);
      case _ => NoNewEntries(s, t, None, encode);
    }
    SameEntries(s, t, Step(s, e, encode), Publishes(s, e), encode);
  }

  lemma {:induction false} ReadKeeps(s: State, scope: string, now: int, encode: Encoder)
    requires CacheOk(s)
    ensures CacheOk(ReadCached(s, scope, now, encode).0)
  {
    hide StorageKey, Delete, IsFresh, Valid, AllWellFormed;
    DeleteAt(s.storage, StorageKey(scope, encode));
  }

  lemma {:induction false} WriteKeeps(s: State, scope: string, rows: seq<Row>, expected: nat, begun: nat, now: int,
                                      length: nat, encode: Encoder)
    requires CacheOk(s) && OwnScope(s.loads, Some(begun), scope)
    ensures CacheOk(WriteCached(s, scope, rows, expected, begun, now, length, encode))
  {
  }

  lemma {:induction false} ClearKeeps(s: State, scope: string, bump: bool, encode: Encoder)
    requires CacheOk(s)
    ensures CacheOk(ClearedScope(s, scope, bump, encode)) && CacheOk(ClearedAll(s))
  {
  }

  /** Loads may progress, and new ones may appear, without disturbing the cache's ownership. */
  lemma {:induction false} LoadsProgress(s: State, t: State)
    requires CacheOk(s) && t.memory == s.memory && t.hydrated == s.hydrated && t.storage == s.storage
    requires forall id | id in s.loads :: id in t.loads && t.loads[id].cacheScope == s.loads[id].cacheScope
    ensures CacheOk(t)
  {
    hide Valid, AllWellFormed;
  }

  lemma {:induction false} FirstPageKeeps(s: State, id: nat, ok: bool, denied: bool, rows: seq<Row>, total: int,
                                          now: int, length: nat, encode: Encoder)
    requires CacheOk(s)
    ensures CacheOk(AfterFirstPage(s, id, ok, denied, rows, total, now, length, encode))
  {
    hide CacheOk, WriteCached, ClearedScope, Stale, AllWellFormed;
    var t := AfterFirstPage(s, id, ok, denied, rows, total, now, length, encode);
    if id in s.loads {
      if s.loads[id].cacheScope.Some? {
        var scope := s.loads[id].cacheScope.value;
        CacheOperations(s, scope, now, WellFormedRows(rows), s.loads[id].generation, id, length, true, encode);
        WriteKeeps(s, scope, WellFormedRows(rows), s.loads[id].generation, id, now, length, encode);
        ClearKeeps(s, scope, true, encode);
        LoadsProgress(ClearedScope(s, scope, true, encode),
                      WithPhase(ClearedScope(s, scope, true, encode), id, Finished));
        LoadsProgress(WriteCached(s, scope, WellFormedRows(rows), s.loads[id].generation, id, now, length, encode),
                      Published(s, id, WellFormedRows(rows), now, length, encode));
      } else {
        LoadsProgress(s, Published(s, id, WellFormedRows(rows), now, length, encode));
      }
      LoadsProgress(s, WithPhase(s, id, Finished));
      LoadsProgress(s, WithPhase(s, id, Remainder(WellFormedRows(rows))));
    }
  }

  lemma {:induction false} RemainderKeeps(s: State, id: nat, ok: bool, rows: seq<Row>, now: int, length: nat,
                                          encode: Encoder)
    requires CacheOk(s)
    ensures CacheOk(AfterRemainder(s, id, ok, rows, now, length, encode))
  {
    hide CacheOk, WriteCached, Stale, AllWellFormed;
    if id in s.loads && s.loads[id].phase.Remainder? {
      var all := s.loads[id].phase.first + WellFormedRows(rows);
      if s.loads[id].cacheScope.Some? {
        var scope := s.loads[id].cacheScope.value;
        CacheOperations(s, scope, now, all, s.loads[id].generation, id, length, true, encode);
        WriteKeeps(s, scope, all, s.loads[id].generation, id, now, length, encode);
        LoadsProgress(WriteCached(s, scope, all, s.loads[id].generation, id, now, length, encode),
                      Published(s, id, all, now, length, encode));
      } else {
        LoadsProgress(s, Published(s, id, all, now, length, encode));
      }
      LoadsProgress(s, WithPhase(s, id, Finished));
    }
  }

  lemma {:induction false} EffectKeeps(s: State, e: Event, encode: Encoder)
    requires CacheOk(s) && s.clock !in s.loads
    ensures CacheOk(Effect(s, e, encode))
  {
    hide CacheOk, ReadCached, ClearedScope, ClearedAll, AfterFirstPage, AfterRemainder;
    match e
    case Read(scope, now) => ReadKeeps(s, scope, now, encode);
    case ClearScope(scope, bump) => ClearKeeps(s, scope, bump, encode);
    case ClearAll => ClearKeeps(s, "", true, encode);
    case ChangeUser(identity) =>
      ClearKeeps(s, "", true, encode);
      LoadsProgress(ClearedAll(s), ClearedAll(s).(identity := identity));
    case FirstPageArrives(id, ok, denied, rows, total, now, length) =>
      FirstPageKeeps(s, id, ok, denied, rows, total, now, length, encode);
    case RemainderArrives(id, ok, rows, now, length) => RemainderKeeps(s, id, ok, rows, now, length, encode);
    case _ => LoadsProgress(s, Effect(s, e, encode));
  }

  lemma {:induction false} StepKeeps(s: State, e: Event, encode: Encoder)
    requires Inv(s)
    ensures Inv(Step(s, e, encode))
  {
    hide CacheOk, Effect, LoadsFrame;
    StepLoads(s, e, encode);
    EffectKeeps(s, e, encode);
    LoadsProgress(Effect(s, e, encode), Step(s, e, encode));
  }

  // ---- Theorems over whole runs ----

  /** Storage as some earlier page may have left it. */
  ghost predicate Pristine(storage: OrderedMap<Raw>)
  {
    Valid(storage) && forall k | k in storage.at && storage.at[k].Record? :: storage.at[k].begun == None
  }

  lemma {:induction false} RunInv(storage: OrderedMap<Raw>, identity: Option<string>, events: seq<Event>,
                                  encode: Encoder)
    requires Pristine(storage)
    ensures var s := Run(Initial(storage, identity), events, encode); Inv(s) && s.clock == |events|
    decreases |events|
  {
    hide Step;
    if events != [] {
      var s, e := Run(Initial(storage, identity), events[..|events| - 1], encode), events[|events| - 1];
      RunInv(storage, identity, events[..|events| - 1], encode);
      StepKeeps(s, e, encode);
      StepLoads(s, e, encode);
    }
  }

  lemma {:induction false} RunStep(storage: OrderedMap<Raw>, identity: Option<string>, events: seq<Event>,
                                   encode: Encoder, i: nat)
    requires Pristine(storage) && i < |events|
    ensures var s, t := Run(Initial(storage, identity), events[..i], encode),
            Run(Initial(storage, identity), events[..i + 1], encode);
            && t == Step(s, events[i], encode) && s.clock == i && LoadsOk(s)
            && LoadsFrame(s, t) && EntriesFrame(s, t, Publishes(s, events[i]), encode)
  {
    hide Step, CacheOk, LoadsFrame, EntriesFrame, Publishes, Initial;
    assert events[..i + 1][..i] == events[..i];
    var s := Run(Initial(storage, identity), events[..i], encode);
    RunInv(storage, identity, events[..i], encode);
    StepLoads(s, events[i], encode);
    StepEntries(s, events[i], encode);
  }

  /** Reads return only fresh, small, well-formed lists of the requested scope. */
  lemma {:induction false} ReadReturns(storage: OrderedMap<Raw>, identity: Option<string>, events: seq<Event>,
                                       encode: Encoder, scope: string, now: int)
    requires Pristine(storage)
    ensures var s := Run(Initial(storage, identity), events, encode);
            var r := ReadCached(s, scope, now, encode).1;
            r.Some? ==>
              && IsFresh(r.value.cachedAt, now)
              && |r.value.servers| <= SERVER_CACHE_MAX_ROWS && AllWellFormed(r.value.servers)
              && r.value.scope == scope && OwnScope(s.loads, r.value.begun, scope)
  {
    hide Run;
    RunInv(storage, identity, events, encode);
  }

  /** Counters only grow along a run. */
  lemma {:induction false} CountersGrow(storage: OrderedMap<Raw>, identity: Option<string>, events: seq<Event>,
                                        encode: Encoder, i: nat, j: nat)
    requires Pristine(storage) && i <= j <= |events|
    ensures var s, t := Run(Initial(storage, identity), events[..i], encode),
            Run(Initial(storage, identity), events[..j], encode);
            s.generation <= t.generation && s.requestId <= t.requestId
    decreases j
  {
    hide Step, Run, EntriesFrame, Initial;
    if i < j {
      CountersGrow(storage, identity, events, encode, i, j - 1);
      RunStep(storage, identity, events, encode, j - 1);
    }
  }

  /** A load carries the counters of the step at which it began. */
  lemma {:induction false} LoadBorn(storage: OrderedMap<Raw>, identity: Option<string>, events: seq<Event>,
                                    encode: Encoder, id: nat, j: nat)
    requires Pristine(storage) && j <= |events| && id in Run(Initial(storage, identity), events[..j], encode).loads
    ensures id < j
    ensures var s, t := Run(Initial(storage, identity), events[..id + 1], encode),
            Run(Initial(storage, identity), events[..j], encode);
            t.loads[id].generation == s.generation && t.loads[id].requestId == s.requestId
    decreases j
  {
    hide Step, EntriesFrame, Publishes;
    if j > 0 {
      RunStep(storage, identity, events, encode, j - 1);
      hide Run;
      if id in Run(Initial(storage, identity), events[..j - 1], encode).loads {
        LoadBorn(storage, identity, events, encode, id, j - 1);
      }
    }
  }

  /** The event starts a load, tears one down, or bumps the generation. */
  predicate Supersedes(s: State, e: Event, encode: Encoder)
  {
    e.BeginLoad? || e.Teardown? || Effect(s, e, encode).generation != s.generation
  }

  lemma SupersedesCounts(s: State, e: Event, encode: Encoder)
    requires Supersedes(s, e, encode)
    ensures Step(s, e, encode).generation != s.generation || Step(s, e, encode).requestId != s.requestId
  {
  }

  /** A load writes the cache only if, since it began, no other load began, none was torn
      down and no generation-bumping clear happened; and the identity is then the one it was
      for. */
  lemma {:induction false} OnlyCurrentLoadPublishes(storage: OrderedMap<Raw>, identity: Option<string>,
                                                    events: seq<Event>, encode: Encoder, i: nat, j: nat)
    requires Pristine(storage) && j < |events|
    requires Publishes(Run(Initial(storage, identity), events[..j], encode), events[j]).Some?
    ensures var s := Run(Initial(storage, identity), events[..j], encode);
            var id := Publishes(s, events[j]).value;
            && id < j && id in s.loads && s.identity == Some(s.loads[id].dataScope)
            && (id < i < j ==> !Supersedes(Run(Initial(storage, identity), events[..i], encode), events[i], encode))
  {
    hide Step, Run, EntriesFrame, LoadsFrame, Supersedes, Initial, CacheOk;
    var s := Run(Initial(storage, identity), events[..j], encode);
    var id := Publishes(s, events[j]).value;
    LoadBorn(storage, identity, events, encode, id, j);
    if id < i < j {
      CountersGrow(storage, identity, events, encode, id + 1, i);
      CountersGrow(storage, identity, events, encode, i, i + 1);
      CountersGrow(storage, identity, events, encode, i + 1, j);
      RunStep(storage, identity, events, encode, i);
      if Supersedes(Run(Initial(storage, identity), events[..i], encode), events[i], encode) {
        SupersedesCounts(Run(Initial(storage, identity), events[..i], encode), events[i], encode);
      }
    }
  }

  /** The event brings the last rows of load `id`, which began and is still under way. */
  predicate Completes(s: State, e: Event, id: nat)
  {
    && id in s.loads
    && match e
       case FirstPageArrives(load, ok, _, _, total, _, _) =>
         load == id && ok && s.loads[id].phase == FirstPage && Capped(total) <= SERVER_INITIAL_PAGE_SIZE
       case RemainderArrives(load, ok, _, _, _) => load == id && ok && s.loads[id].phase.Remainder?
       case _ => false
  }

  /** The load has not been overtaken: only the identity can still stop it. */
  predicate Current(s: State, id: nat)
  {
    && id in s.loads && !s.loads[id].aborted
    && s.loads[id].requestId == s.requestId && s.loads[id].generation == s.generation
  }

  lemma {:induction false} StepCurrent(s: State, e: Event, encode: Encoder, id: nat)
    requires LoadsOk(s) && !Supersedes(s, e, encode) && Current(s, id)
    ensures Current(Step(s, e, encode), id)
  {
    hide ReadCached, WriteCached, ClearedScope, ClearedAll, WellFormedRows, Aborted, Capped;
    match e
    case Read(scope, now) => CacheOperations(s, scope, now, [], 0, 0, 0, true, encode);
    case ClearScope(scope, bump) => CacheOperations(s, scope, 0, [], 0, 0, 0, bump, encode);
    case ClearAll => CacheOperations(s, "", 0, [], 0, 0, 0, true, encode);
    case ChangeUser(_) => CacheOperations(s, "", 0, [], 0, 0, 0, true, encode);
    case FirstPageArrives(load, ok, denied, rows, total, now, length) =>
      if load in s.loads && s.loads[load].cacheScope.Some? {
        CacheOperations(s, s.loads[load].cacheScope.value, now, WellFormedRows(rows), s.loads[load].generation, load,
                        length, true, encode);
      }
    case RemainderArrives(load, ok, rows, now, length) =>
      if load in s.loads && s.loads[load].cacheScope.Some? && s.loads[load].phase.Remainder? {
        CacheOperations(s, s.loads[load].cacheScope.value, now, s.loads[load].phase.first + WellFormedRows(rows),
                        s.loads[load].generation, load, length, true, encode);
      }
    case _ =>
  }

  lemma {:induction false} StaysCurrent(storage: OrderedMap<Raw>, identity: Option<string>, events: seq<Event>,
                                        encode: Encoder, id: nat, j: nat)
    requires Pristine(storage) && id < j <= |events| && events[id].BeginLoad?
    requires forall i | id < i < j ::
               !Supersedes(Run(Initial(storage, identity), events[..i], encode), events[i], encode)
    ensures var t := Run(Initial(storage, identity), events[..j], encode);
            && Current(t, id) && t.loads[id].dataScope == events[id].dataScope
            && t.loads[id].cacheScope == events[id].cacheScope
    decreases j
  {
    hide Step, Run, EntriesFrame, Supersedes, Initial, Pristine, Current;
    RunStep(storage, identity, events, encode, j - 1);
    var s := Run(Initial(storage, identity), events[..j - 1], encode);
    if id < j - 1 {
      StaysCurrent(storage, identity, events, encode, id, j - 1);
      StepCurrent(s, events[j - 1], encode, id);
      CurrentIsLoad(s, id);
    } else {
      LoadBegins(s, events[id], encode);
    }
  }

  lemma CurrentIsLoad(s: State, id: nat)
    requires Current(s, id)
    ensures id in s.loads
  {
  }

  lemma LoadBegins(s: State, e: Event, encode: Encoder)
    requires e.BeginLoad?
    ensures var t := Step(s, e, encode);
            && Current(t, s.clock) && t.identity == s.identity
            && t.loads[s.clock].dataScope == e.dataScope && t.loads[s.clock].cacheScope == e.cacheScope
            && t.loads[s.clock].phase == FirstPage
  {
  }

  lemma CookieChanges(s: State, identity: Option<string>, encode: Encoder)
    ensures Step(s, ChangeCookie(identity), encode) == s.(identity := identity, clock := s.clock + 1)
  {
  }

  lemma CurrentPublishes(s: State, e: Event, id: nat)
    requires Current(s, id) && Completes(s, e, id)
    ensures Publishes(s, e) == Some(id) <==> s.identity == Some(s.loads[id].dataScope)
  {
    hide Capped;
  }

  /** All well-formed rows of a load whose last rows have arrived. */
  function ArrivedRows(s: State, e: Event, id: nat): seq<Row>
    requires Completes(s, e, id)
  {
    if e.FirstPageArrives? then WellFormedRows(e.rows) else s.loads[id].phase.first + WellFormedRows(e.rows)
  }

  /** The cache after the rows were stored: in memory, and in storage if their text fits. */
  ghost predicate Stored(s: State, t: State, scope: string, rows: seq<Row>, now: int, length: nat, id: nat,
                         encode: Encoder)
  {
    && t.memory == s.memory[scope := Snapshot(now, rows, scope, Some(id))]
    && t.hydrated == s.hydrated + {scope}
    && t.storage == if length <= SERVER_CACHE_MAX_JSON_LENGTH
                    then Set(s.storage, StorageKey(scope, encode), Record(length, 1, scope, now, rows, Some(id)))
                    else s.storage
  }

  ghost predicate SameCache(s: State, t: State)
  {
    t.memory == s.memory && t.hydrated == s.hydrated && t.storage == s.storage
  }

  /** What the last rows of a load that was not overtaken do to the cache: they are stored if
      and only if the identity is the one they are for, they have a scope and are not too many;
      otherwise the cache is as before. */
  ghost predicate CompletedOutcome(s: State, e: Event, id: nat, t: State, encode: Encoder)
    requires Completes(s, e, id)
  {
    var load, rows := s.loads[id], ArrivedRows(s, e, id);
    if s.identity == Some(load.dataScope) && load.cacheScope.Some? && |rows| <= SERVER_CACHE_MAX_ROWS
    then Stored(s, t, load.cacheScope.value, rows, e.now, e.length, id, encode)
    else SameCache(s, t)
  }

  lemma {:induction false} CompletedEffect(s: State, e: Event, id: nat, encode: Encoder)
    requires LoadsOk(s) && Current(s, id) && Completes(s, e, id)
    ensures CompletedOutcome(s, e, id, Step(s, e, encode), encode)
  {
    hide Set, StorageKey;
    var rows := ArrivedRows(s, e, id);
    assert AllWellFormed(rows);
  }

  /** Of a load that was not superseded, nothing but the identity at the moment of the guard
      decides whether it publishes, and the cache then holds exactly what arrived. */
  lemma {:induction false} PublishesIffIdentity(storage: OrderedMap<Raw>, identity: Option<string>, events: seq<Event>,
                                                encode: Encoder, id: nat, j: nat)
    requires Pristine(storage) && id < j < |events| && events[id].BeginLoad?
    requires Completes(Run(Initial(storage, identity), events[..j], encode), events[j], id)
    requires forall i | id < i < j ::
               !Supersedes(Run(Initial(storage, identity), events[..i], encode), events[i], encode)
    ensures var s := Run(Initial(storage, identity), events[..j], encode);
            var t := Run(Initial(storage, identity), events[..j + 1], encode);
            && (Publishes(s, events[j]) == Some(id) <==> s.identity == Some(events[id].dataScope))
            && s.loads[id].dataScope == events[id].dataScope && s.loads[id].cacheScope == events[id].cacheScope
            && CompletedOutcome(s, events[j], id, t, encode)
  {
    hide Run, Step, Initial, Supersedes, Pristine, Publishes, Completes, Current, CompletedOutcome, LoadsFrame, LoadsOk,
         EntriesFrame;
    var s := Run(Initial(storage, identity), events[..j], encode);
    StaysCurrent(storage, identity, events, encode, id, j);
    CurrentPublishes(s, events[j], id);
    RunStep(storage, identity, events, encode, j);
    CurrentIsLoad(s, id);
    CompletedEffect(s, events[j], id, encode);
  }

  /** So a cookie that changes while the rows are on their way, and is back when they arrive, is
      not noticed: the rows fetched across the change are stored. */
  lemma {:induction false} CookieDetourUnnoticed(here: string, there: string, scope: string, rows: seq<Row>, now: int,
                                                 length: nat, encode: Encoder)
    returns (events: seq<Event>)
    requires |WellFormedRows(rows)| <= SERVER_CACHE_MAX_ROWS
    ensures |events| == 4 && events[0] == BeginLoad(here, Some(scope))
    ensures var s := Run(Initial(Empty(), Some(here)), events[..2], encode); s.identity == Some(there)
    ensures var t := Run(Initial(Empty(), Some(here)), events, encode);
            scope in t.memory && t.memory[scope] == Snapshot(now, WellFormedRows(rows), scope, Some(0))
  {
    hide Run, Step, WellFormedRows, Current;
    var s0 := Initial(Empty(), Some(here));
    var begin, away, back := BeginLoad(here, Some(scope)), ChangeCookie(Some(there)), ChangeCookie(Some(here));
    var arrives := FirstPageArrives(0, true, false, rows, 0, now, length);
    events := [begin, away, back, arrives];
    assert events[..2] == [begin, away];
    RunSnoc(s0, [], begin, encode);
    RunSnoc(s0, [begin], away, encode);
    RunSnoc(s0, [begin, away], back, encode);
    RunSnoc(s0, [begin, away, back], arrives, encode);
    assert [] + [begin] == [begin] && [begin] + [away] == [begin, away];
    assert [begin, away] + [back] == [begin, away, back] && [begin, away, back] + [arrives] == events;
    RunNothing(s0, encode);
    LoadBegins(s0, begin, encode);
    var s1 := Step(s0, begin, encode);
    CookieThereAndBack(s1, here, there, encode);
    FirstLoadOk(s0, begin, encode);
    StillCurrent(s1, s1.(clock := s1.clock + 2), 0);
    ArrivalStored(s1.(clock := s1.clock + 2), 0, arrives, encode);
  }

  lemma {:induction false} ArrivalStored(s: State, id: nat, e: Event, encode: Encoder)
    requires LoadsOk(s) && Current(s, id) && s.loads[id].phase == FirstPage
    requires s.identity == Some(s.loads[id].dataScope) && s.loads[id].cacheScope.Some?
    requires e.FirstPageArrives? && e.load == id && e.ok && e.total == 0
    requires |WellFormedRows(e.rows)| <= SERVER_CACHE_MAX_ROWS
    ensures var scope := s.loads[id].cacheScope.value;
            var t := Step(s, e, encode);
            scope in t.memory && t.memory[scope] == Snapshot(e.now, WellFormedRows(e.rows), scope, Some(id))
  {
    hide Step, WellFormedRows, LoadsOk, Set, StorageKey;
    CompletedEffect(s, e, id, encode);
  }

  lemma CookieThereAndBack(s: State, here: string, there: string, encode: Encoder)
    requires s.identity == Some(here)
    ensures var away := Step(s, ChangeCookie(Some(there)), encode);
            && away.identity == Some(there)
            && Step(away, ChangeCookie(Some(here)), encode) == s.(clock := s.clock + 2)
  {
    hide Step;
    CookieChanges(s, Some(there), encode);
    CookieChanges(Step(s, ChangeCookie(Some(there)), encode), Some(here), encode);
  }

  lemma StillCurrent(s: State, t: State, id: nat)
    requires t == s.(clock := t.clock) && Current(s, id)
    ensures Current(t, id)
  {
  }

  lemma FirstLoadOk(s: State, e: Event, encode: Encoder)
    requires e.BeginLoad? && LoadsOk(s)
    ensures var t := Step(s, e, encode); LoadsOk(t.(clock := t.clock + 2))
  {
    hide Step, LoadsFrame, AllWellFormed;
    StepLoads(s, e, encode);
  }

  lemma RunNothing(s: State, encode: Encoder)
    ensures Run(s, [], encode) == s
  {
  }

  lemma RunSnoc(s: State, events: seq<Event>, e: Event, encode: Encoder)
    ensures Run(s, events + [e], encode) == Step(Run(s, events, encode), e, encode)
  {
    assert (events + [e])[..|events|] == events;
  }

  /** User changes and clears all bump the generation. */
  lemma ClearsSupersede(s: State, e: Event, encode: Encoder)
    requires e.ClearAll? || e.ChangeUser? || (e.ClearScope? && e.invalidatePendingWrites)
    ensures Supersedes(s, e, encode)
  {
  }

  predicate NewerThan(begun: Option<nat>, i: nat)
  {
    begun.Some? && i < begun.value
  }

  /** Nothing fetched by a load that began at or before step `i` is left, or can come back. */
  ghost predicate Wiped(s: State, i: nat)
  {
    && (forall scope | scope in s.memory :: NewerThan(s.memory[scope].begun, i))
    && (forall k | k in s.storage.at && SERVER_CACHE_KEY_PREFIX <= k && s.storage.at[k].Record? ::
          NewerThan(s.storage.at[k].begun, i))
    && (forall id | id in s.loads && s.loads[id].generation == s.generation :: i < id)
    && i < s.clock
  }

  lemma {:induction false} WipedByClear(s: State, e: Event, encode: Encoder)
    requires LoadsOk(s) && (e.ClearAll? || e.ChangeUser?)
    ensures Wiped(Step(s, e, encode), s.clock)
  {
  }

  lemma {:induction false} StepWiped(s: State, e: Event, t: State, encode: Encoder, i: nat)
    requires Wiped(s, i) && LoadsOk(s) && LoadsFrame(s, t) && EntriesFrame(s, t, Publishes(s, e), encode)
    ensures Wiped(t, i)
  {
    forall scope | scope in t.memory
      ensures NewerThan(t.memory[scope].begun, i)
    {
      assert SERVER_CACHE_KEY_PREFIX <= StorageKey(scope, encode);
    }
  }

  lemma {:induction false} StaysWiped(storage: OrderedMap<Raw>, identity: Option<string>, events: seq<Event>,
                                      encode: Encoder, i: nat, j: nat)
    requires Pristine(storage) && i < j <= |events| && (events[i].ClearAll? || events[i].ChangeUser?)
    ensures Wiped(Run(Initial(storage, identity), events[..j], encode), i)
    decreases j
  {
    hide Step, Run, EntriesFrame, LoadsFrame, Publishes, Wiped, Initial, LoadsOk, Pristine;
    RunStep(storage, identity, events, encode, j - 1);
    if i < j - 1 {
      StaysWiped(storage, identity, events, encode, i, j - 1);
      StepWiped(Run(Initial(storage, identity), events[..j - 1], encode), events[j - 1],
                Run(Initial(storage, identity), events[..j], encode), encode, i);
    } else {
      WipedByClear(Run(Initial(storage, identity), events[..i], encode), events[i], encode);
    }
  }

  /** The event clears `scope` and bumps the generation: a clear of everything, a user change,
      a clear of that scope, or a denied load for it. */
  predicate ClearsScope(s: State, e: Event, scope: string)
  {
    match e
    case ClearAll => true
    case ChangeUser(_) => true
    case ClearScope(cleared, bump) => bump && cleared == scope
    case FirstPageArrives(id, ok, denied, _, _, _, _) =>
      !ok && denied && id in s.loads && s.loads[id].phase == FirstPage && !Stale(s, id)
      && s.loads[id].cacheScope == Some(scope)
    case _ => false
  }

  /** Nothing a read of `scope` could find was fetched by a load that began at or before `i`. */
  ghost predicate WipedScope(s: State, scope: string, i: nat, encode: Encoder)
  {
    var key := StorageKey(scope, encode);
    && (scope in s.memory ==> NewerThan(s.memory[scope].begun, i))
    && (key in s.storage.at && s.storage.at[key].Record? ==> NewerThan(s.storage.at[key].begun, i))
    && (forall id | id in s.loads && s.loads[id].generation == s.generation :: i < id)
    && i < s.clock
  }

  lemma {:induction false} ScopeWipedByClear(s: State, e: Event, scope: string, encode: Encoder)
    requires LoadsOk(s) && ClearsScope(s, e, scope)
    ensures WipedScope(Step(s, e, encode), scope, s.clock, encode)
  {
    if e.ClearAll? || e.ChangeUser? {
      WipedByClear(s, e, encode);
      assert SERVER_CACHE_KEY_PREFIX <= StorageKey(scope, encode);
    } else {
      DeleteAt(s.storage, StorageKey(scope, encode));
    }
  }

  lemma {:induction false} StepWipedScope(s: State, e: Event, t: State, scope: string, i: nat, encode: Encoder)
    requires WipedScope(s, scope, i, encode) && LoadsOk(s)
    requires LoadsFrame(s, t) && EntriesFrame(s, t, Publishes(s, e), encode)
    ensures WipedScope(t, scope, i, encode)
  {
    hide StorageKey;
  }

  lemma {:induction false} StaysWipedScope(storage: OrderedMap<Raw>, identity: Option<string>, events: seq<Event>,
                                           encode: Encoder, scope: string, i: nat, j: nat)
    requires Pristine(storage) && i < j <= |events|
    requires ClearsScope(Run(Initial(storage, identity), events[..i], encode), events[i], scope)
    ensures WipedScope(Run(Initial(storage, identity), events[..j], encode), scope, i, encode)
    decreases j
  {
    hide Step, Run, EntriesFrame, LoadsFrame, Publishes, WipedScope, ClearsScope, Initial, LoadsOk, Pristine;
    RunStep(storage, identity, events, encode, j - 1);
    if i < j - 1 {
      StaysWipedScope(storage, identity, events, encode, scope, i, j - 1);
      StepWipedScope(Run(Initial(storage, identity), events[..j - 1], encode), events[j - 1],
                     Run(Initial(storage, identity), events[..j], encode), scope, i, encode);
    } else {
      ScopeWipedByClear(Run(Initial(storage, identity), events[..i], encode), events[i], scope, encode);
    }
  }

  /** After a clear that covers a scope, no read of it ever returns a list fetched by a load
      that began before the clear, from memory or from storage. */
  lemma {:induction false} NothingOldAfterClear(storage: OrderedMap<Raw>, identity: Option<string>, events: seq<Event>,
                                                encode: Encoder, i: nat, j: nat, scope: string, now: int)
    requires Pristine(storage) && i < j <= |events|
    requires ClearsScope(Run(Initial(storage, identity), events[..i], encode), events[i], scope)
    ensures var r := ReadCached(Run(Initial(storage, identity), events[..j], encode), scope, now, encode).1;
            r.Some? ==> NewerThan(r.value.begun, i)
  {
    hide Run, Initial;
    StaysWipedScope(storage, identity, events, encode, scope, i, j);
  }

  // ---- The module state ----

  class ServerLists {
    var memorySnapshots: map<string, Snapshot>
    var hydratedScopes: set<string>
    var sessionStorage: OrderedMap<Raw>
    var cacheGeneration: nat
    var identity: Option<string>
    var requestId: nat
    var loads: map<nat, Load>
    var steps: nat
    const encode: Encoder

    ghost function Model(): State
      reads this
    {
      State(memorySnapshots, hydratedScopes, sessionStorage, cacheGeneration, identity, requestId, loads, steps)
    }

    constructor (storage: OrderedMap<Raw>, identity: Option<string>, encode: Encoder)
      ensures Model() == Initial(storage, identity) && this.encode == encode
    {
      memorySnapshots, hydratedScopes, sessionStorage := map[], {}, storage;
      cacheGeneration, requestId, steps := 0, 0, 0;
      loads := map[];
      this.identity, this.encode := identity, encode;
    }

    method ReadCachedServerList(scope: string, now: int) returns (snapshot: Option<Snapshot>)
      modifies this
      ensures (Model(), snapshot) == ReadCached(old(Model()), scope, now, encode)
    {
      if scope == "" {
        return None;
      }
      if scope in memorySnapshots {
        if IsFresh(memorySnapshots[scope].cachedAt, now) {
          return Some(memorySnapshots[scope]);
        }
        memorySnapshots := memorySnapshots - {scope};
        sessionStorage := Delete(sessionStorage, StorageKey(scope, encode));
      }
      if scope in hydratedScopes {
        return None;
      }
      hydratedScopes := hydratedScopes + {scope};
      var key := StorageKey(scope, encode);
      if key !in sessionStorage.at {
        return None;
      }
      snapshot := ParseSnapshot(sessionStorage.at[key], scope, now);
      if snapshot.None? {
        sessionStorage := Delete(sessionStorage, key);
        return None;
      }
      memorySnapshots := memorySnapshots[scope := snapshot.value];
    }

    method WriteCachedServerList(scope: string, rows: seq<Row>, expectedGeneration: nat, begun: nat, now: int,
                                 length: nat)
      modifies this
      ensures Model() == WriteCached(old(Model()), scope, rows, expectedGeneration, begun, now, length, encode)
    {
      if expectedGeneration != cacheGeneration {
        return;
      }
      if SERVER_CACHE_MAX_ROWS < |rows| || !AllWellFormed(rows) {
        return;
      }
      memorySnapshots := memorySnapshots[scope := Snapshot(now, rows, scope, Some(begun))];
      hydratedScopes := hydratedScopes + {scope};
      if length <= SERVER_CACHE_MAX_JSON_LENGTH {
        sessionStorage := Set(sessionStorage, StorageKey(scope, encode),
                              Record(length, 1, scope, now, rows, Some(begun)));
      }
    }

    method ClearCachedServerList(scope: string, invalidatePendingWrites: bool)
      modifies this
      ensures Model() == ClearedScope(old(Model()), scope, invalidatePendingWrites, encode)
    {
      if invalidatePendingWrites {
        cacheGeneration := cacheGeneration + 1;
      }
      memorySnapshots := memorySnapshots - {scope};
      hydratedScopes := hydratedScopes - {scope};
      sessionStorage := Delete(sessionStorage, StorageKey(scope, encode));
    }

    /** Walks the storage indices downwards so that removals do not shift what is still to come. */
    method ClearAllCachedServerLists()
      requires Valid(sessionStorage)
      modifies this
      ensures Model() == ClearedAll(old(Model()))
    {
      cacheGeneration := cacheGeneration + 1;
      memorySnapshots := map[];
      hydratedScopes := {};
      RemoveCacheKeys();
    }

    method RemoveCacheKeys()
      requires Valid(sessionStorage)
      modifies this
      ensures Model() == old(Model()).(storage := Restrict(old(sessionStorage), Foreign(old(sessionStorage))))
    {
      hide Delete, Restrict, Keeping, Without;
      ghost var before, foreign := sessionStorage, Foreign(sessionStorage);
      ghost var kept := before.at.Keys;
      var index := |sessionStorage.order|;
      RestrictAll(before);
      while 0 < index
        invariant 0 <= index <= |before.order| && foreign <= kept <= before.at.Keys
        invariant Model() == old(Model()).(storage := Restrict(before, kept))
        invariant forall j | 0 <= j < index :: before.order[j] in kept
        invariant forall j | index <= j < |before.order| :: before.order[j] in kept ==> before.order[j] in foreign
        decreases index
      {
        RestrictPrefix(before, kept, index);
        index := index - 1;
        var key := sessionStorage.order[index];
        assert key == before.order[index] && key in before.order;
        if SERVER_CACHE_KEY_PREFIX <= key {
          RestrictDelete(before, kept, key);
          sessionStorage := Delete(sessionStorage, key);
          kept := kept - {key};
        }
      }
      forall k | k in kept
        ensures k in foreign
      {
        assert k in before.order;
      }
      assert kept == foreign;
    }

    method BeginLoadServers(dataScope: string, cacheScope: Option<string>)
      modifies this
      ensures Model() == Step(old(Model()), BeginLoad(dataScope, cacheScope), encode)
    {
      requestId := requestId + 1;
      loads := map id | id in loads :: loads[id].(aborted := true);
      loads := loads[steps := Load(dataScope, cacheScope, requestId, cacheGeneration, false, FirstPage)];
      steps := steps + 1;
    }

    /** `loadServers` from the first response to its next await or its end. */
    method OnFirstPage(id: nat, ok: bool, denied: bool, rows: seq<Row>, total: int, now: int, length: nat)
      requires id in loads && loads[id].phase == FirstPage
      modifies this
      ensures Model() == Step(old(Model()), FirstPageArrives(id, ok, denied, rows, total, now, length), encode)
    {
      var load := loads[id];
      steps := steps + 1;
      if load.aborted || load.requestId != requestId || identity != Some(load.dataScope) {
        loads := loads[id := load.(phase := Finished)];
        return;
      }
      if !ok {
        if denied && load.cacheScope.Some? {
          ClearCachedServerList(load.cacheScope.value, true);
        }
        loads := loads[id := load.(phase := Finished)];
        return;
      }
      var firstServers := WellFormedRows(rows);
      if SERVER_INITIAL_PAGE_SIZE < Capped(total) {
        loads := loads[id := load.(phase := Remainder(firstServers))];
        return;
      }
      if load.cacheScope.Some? {
        WriteCachedServerList(load.cacheScope.value, firstServers, load.generation, id, now, length);
      }
      loads := loads[id := load.(phase := Finished)];
    }

    /** `loadServers` from the second response to its end. */
    method OnRemainder(id: nat, ok: bool, rows: seq<Row>, now: int, length: nat)
      requires id in loads && loads[id].phase.Remainder?
      modifies this
      ensures Model() == Step(old(Model()), RemainderArrives(id, ok, rows, now, length), encode)
    {
      var load := loads[id];
      steps := steps + 1;
      if load.aborted || load.requestId != requestId || identity != Some(load.dataScope) || !ok {
        loads := loads[id := load.(phase := Finished)];
        return;
      }
      if load.cacheScope.Some? {
        var nextServers := load.phase.first + WellFormedRows(rows);
        WriteCachedServerList(load.cacheScope.value, nextServers, load.generation, id, now, length);
      }
      loads := loads[id := load.(phase := Finished)];
    }
  }
}
