/** The browser client's read cache. Calls interleave freely; each stretch of code between
    two awaits is one step, and every call is named by the step at which it began. */
module ClientCache {
  import opened OrderedMaps

  const CLIENT_CACHE_MAX_ENTRIES: nat := 64
  const CLIENT_CACHE_EPOCH_MAX_ENTRIES: nat := 128

  /** A response as the cache sees it; `begun` is the step at which its fetch was issued. */
  datatype Response = Response(success: bool, begun: nat)
  datatype CacheEntry = CacheEntry(expiresAt: int, response: Response)

  datatype Kind = Shared | Bypass | PlainGet | Mutation
  datatype Phase = Fetching | Executed(success: bool) | Settled

  /** What a suspended call has captured. Only cacheable calls use key, epoch and ttl. */
  datatype Call = Call(kind: Kind, key: string, generation: nat, epoch: nat, ttl: int, phase: Phase)

  datatype State = State(
    cache: OrderedMap<CacheEntry>,
    inFlight: map<string, nat>,
    epochs: OrderedMap<nat>,
    generation: nat,
    sequence: nat,
    calls: map<nat, Call>,
    clock: nat)

  datatype Event =
    | Read(scope: string, url: string, ttl: int, now: int)
    | BypassRead(scope: string, url: string, ttl: int)
    | UncachedRead
    | Write
    | InvalidateCachedReads
    | FetchDone(call: nat, ok: bool, unauthorized: bool)
    | Settle(call: nat, now: int)
    | Cleanup(call: nat)

  datatype Answer = FromCache(begun: nat) | Joined(begun: nat) | Started(begun: nat) | NoRead

  function CacheKey(scope: string, url: string): (key: string)
    ensures key != ""
  {
    scope + ":" + url
  }

  function Digit(d: nat): char
    requires d < 10
  {
    "0123456789"[d]
  }

  function Decimal(n: nat): (s: string)
    ensures s != "" && ':' !in s
  {
    if n < 10 then [Digit(n)] else Decimal(n / 10) + [Digit(n % 10)]
  }

  function InFlightKey(generation: nat, key: string): string
  {
    Decimal(generation) + ":" + key
  }

  function Initial(): State
  {
    State(Empty(), map[], Empty(), 0, 0, map[], 0)
  }

  // ---- The private operations ----

  function Invalidated(s: State): State
  {
    s.(generation := s.generation + 1, cache := Empty(), epochs := Empty())
  }

  function WithEpoch(s: State, key: string): State
  {
    var room :=
      if CLIENT_CACHE_EPOCH_MAX_ENTRIES <= |s.epochs.order| && key !in s.epochs.at
      then DeleteOldest(s.epochs) else s.epochs;
    s.(sequence := s.sequence + 1, epochs := Set(Delete(room, key), key, s.sequence + 1))
  }

  function Live(cache: OrderedMap<CacheEntry>, now: int): set<string>
  {
    set k | k in cache.at && now < cache.at[k].expiresAt
  }

  function Stored(s: State, key: string, response: Response, ttl: int, now: int): State
  {
    var purged := Restrict(s.cache, Live(s.cache, now));
    var room := if CLIENT_CACHE_MAX_ENTRIES <= |purged.order| then DeleteOldest(purged) else purged;
    s.(cache := Set(room, key, CacheEntry(now + ttl, response)))
  }

  function Suspended(s: State, call: Call): State
  {
    s.(calls := s.calls[s.clock := call])
  }

  function WithPhase(s: State, id: nat, phase: Phase): State
    requires id in s.calls
  {
    s.(calls := s.calls[id := s.calls[id].(phase := phase)])
  }

  /** A cacheable call takes the next epoch, issues its fetch and is suspended. */
  function Begun(s: State, kind: Kind, key: string, ttl: int): State
  {
    var s1 := WithEpoch(s, key);
    var s2 := Suspended(s1, Call(kind, key, s1.generation, s1.sequence, ttl, Fetching));
    if kind.Shared? then s2.(inFlight := s2.inFlight[InFlightKey(s2.generation, key) := s2.clock]) else s2
  }

  // ---- One step ----

  function AnswerOf(s: State, e: Event): Answer
  {
    match e
    case Read(scope, url, ttl, now) =>
      var key := CacheKey(scope, url);
      var flight := InFlightKey(s.generation, key);
      if key in s.cache.at && now < s.cache.at[key].expiresAt then FromCache(s.cache.at[key].response.begun)
      else if flight in s.inFlight then Joined(s.inFlight[flight])
      else Started(s.clock)
    case BypassRead(_, _, _) => Started(s.clock)
    case _ => NoRead
  }

  function AfterRead(s: State, key: string, ttl: int, now: int): State
  {
    if key in s.cache.at && now < s.cache.at[key].expiresAt then s
    else
      var s1 := if key in s.cache.at then s.(cache := Delete(s.cache, key)) else s;
      if InFlightKey(s1.generation, key) in s1.inFlight then s1 else Begun(s1, Shared, key, ttl)
  }

  predicate CanStore(s: State, id: nat)
  {
    && id in s.calls
    && (s.calls[id].kind.Shared? || s.calls[id].kind.Bypass?)
    && s.calls[id].phase == Executed(true)
    && s.calls[id].generation == s.generation
    && s.calls[id].key in s.epochs.at
    && s.epochs.at[s.calls[id].key] == s.calls[id].epoch
  }

  function AfterSettle(s: State, id: nat, now: int): State
  {
    if id !in s.calls || !s.calls[id].phase.Executed? then s
    else
      var call := s.calls[id];
      var s1 :=
        if call.kind.Mutation? then Invalidated(s)
        else if CanStore(s, id) then Stored(s, call.key, Response(true, id), call.ttl, now)
        else s;
      WithPhase(s1, id, Settled)
  }

  function AfterFetch(s: State, id: nat, ok: bool, unauthorized: bool): State
  {
    if id !in s.calls || s.calls[id].phase != Fetching then s
    else
      var s1 := if unauthorized then Invalidated(s) else s;
      WithPhase(s1, id, Executed(ok && !unauthorized))
  }

  function AfterCleanup(s: State, id: nat): State
  {
    if id in s.calls && s.calls[id].kind.Shared? && s.calls[id].phase.Settled? then
      var flight := InFlightKey(s.calls[id].generation, s.calls[id].key);
      if flight in s.inFlight && s.inFlight[flight] == id then s.(inFlight := s.inFlight - {flight}) else s
    else s
  }

  function Effect(s: State, e: Event): State
  {
    match e
    case Read(scope, url, ttl, now) => AfterRead(s, CacheKey(scope, url), ttl, now)
    case BypassRead(scope, url, ttl) => Begun(s, Bypass, CacheKey(scope, url), ttl)
    case UncachedRead => Suspended(s, Call(PlainGet, "", 0, 0, 0, Fetching))
    case Write => Suspended(Invalidated(s), Call(Mutation, "", 0, 0, 0, Fetching))
    case InvalidateCachedReads => Invalidated(s)
    case FetchDone(id, ok, unauthorized) => AfterFetch(s, id, ok, unauthorized)
    case Settle(id, now) => AfterSettle(s, id, now)
    case Cleanup(id) => AfterCleanup(s, id)
  }

  function Ticked(s: State): State
  {
    s.(clock := s.clock + 1)
  }

  /** An event that names no matching suspended call changes nothing but the clock. */
  function Step(s: State, e: Event): State
  {
    Ticked(Effect(s, e))
  }

  function Run(events: seq<Event>): State
  {
    if events == [] then Initial() else Step(Run(events[..|events| - 1]), events[|events| - 1])
  }

  predicate Invalidates(s: State, e: Event)
  {
    Effect(s, e).generation != s.generation
  }

  predicate Begins(s: State, e: Event, key: string)
  {
    AnswerOf(s, e).Started? && key == CacheKey(e.scope, e.url)
  }

  // ---- What every step keeps ----

  predicate Cacheable(call: Call)
  {
    call.kind.Shared? || call.kind.Bypass?
  }

  /** The maps are well formed and within their limits. */
  ghost predicate Shape(s: State)
  {
    && Valid(s.cache) && Valid(s.epochs)
    && "" !in s.cache.at && "" !in s.epochs.at
    && |s.cache.order| <= CLIENT_CACHE_MAX_ENTRIES
    && |s.epochs.order| <= CLIENT_CACHE_EPOCH_MAX_ENTRIES
    && forall k | k in s.epochs.at :: s.epochs.at[k] <= s.sequence
  }

  /** Calls are older than the clock, and epochs follow the order in which calls began. */
  ghost predicate CallsOk(s: State)
  {
    && (forall id | id in s.calls :: id < s.clock)
    && (forall id | id in s.calls && Cacheable(s.calls[id]) ::
          s.calls[id].generation <= s.generation && s.calls[id].epoch <= s.sequence && s.calls[id].key != "")
    && (forall a, b | a in s.calls && b in s.calls && Cacheable(s.calls[a]) && Cacheable(s.calls[b]) && a < b ::
          s.calls[a].epoch < s.calls[b].epoch)
  }

  /** The in-flight table names shared calls, and no unfinished shared call is missing from it. */
  ghost predicate InFlightOk(s: State)
  {
    && (forall f | f in s.inFlight ::
          var id := s.inFlight[f];
          id in s.calls && s.calls[id].kind.Shared? && f == InFlightKey(s.calls[id].generation, s.calls[id].key))
    && (forall id | id in s.calls && s.calls[id].kind.Shared? && !s.calls[id].phase.Settled? ::
          var f := InFlightKey(s.calls[id].generation, s.calls[id].key);
          f in s.inFlight && s.inFlight[f] == id)
  }

  /** Every cached response was begun in the current generation, for its own key, by a call
      that no stored epoch predates. */
  ghost predicate CacheOk(s: State)
  {
    forall k | k in s.cache.at ::
      var b := s.cache.at[k].response.begun;
      && b in s.calls && Cacheable(s.calls[b]) && s.calls[b].key == k
      && s.calls[b].generation == s.generation
      && (k in s.epochs.at ==> s.calls[b].epoch <= s.epochs.at[k])
  }

  ghost predicate Inv(s: State)
  {
    Shape(s) && CallsOk(s) && InFlightOk(s) && CacheOk(s)
  }

  lemma {:induction false} DecimalInjective(m: nat, n: nat)
    requires Decimal(m) == Decimal(n)
    ensures m == n
  {
    var x, y := Decimal(m), Decimal(n);
    assert x[|x| - 1] == Digit(m % 10) && y[|y| - 1] == Digit(n % 10);
    assert m % 10 == n % 10;
    assert x[..|x| - 1] == (if m < 10 then "" else Decimal(m / 10));
    assert y[..|y| - 1] == (if n < 10 then "" else Decimal(n / 10));
    if 10 <= m && 10 <= n {
      DecimalInjective(m / 10, n / 10);
    }
  }

  /** Distinct generations or distinct keys never share an in-flight entry. */
  lemma {:induction false} InFlightKeyInjective(g: nat, k: string, h: nat, l: string)
    requires InFlightKey(g, k) == InFlightKey(h, l)
    ensures g == h && k == l
  {
    var x, y, whole := Decimal(g), Decimal(h), InFlightKey(g, k);
    assert whole[|x|] == ':' && whole[|y|] == ':';
    assert whole[..|x|] == x && whole[..|y|] == y;
    assert forall i | 0 <= i < |x| :: whole[i] != ':';
    assert forall i | 0 <= i < |y| :: whole[i] != ':';
    assert |x| == |y|;
    DecimalInjective(g, h);
    assert whole[|x| + 1..] == k && whole[|y| + 1..] == l;
  }

  lemma {:induction false} BegunShape(s: State, kind: Kind, key: string, ttl: int)
    requires Shape(s) && key != ""
    ensures Shape(Begun(s, kind, key, ttl))
  {
  }

  lemma {:induction false} BegunInFlight(s: State, kind: Kind, key: string, ttl: int)
    requires InFlightOk(s) && CallsOk(s) && (kind.Shared? ==> InFlightKey(s.generation, key) !in s.inFlight)
    ensures InFlightOk(Begun(s, kind, key, ttl))
  {
    hide InFlightKey, Set, Delete, DeleteOldest;
  }

  lemma {:induction false} BegunCache(s: State, kind: Kind, key: string, ttl: int)
    requires Inv(s) && key != ""
    ensures CacheOk(Begun(s, kind, key, ttl))
  {
  }

  lemma {:induction false} BegunKeeps(s: State, kind: Kind, key: string, ttl: int)
    requires Inv(s) && key != "" && (kind.Shared? ==> InFlightKey(s.generation, key) !in s.inFlight)
    ensures Inv(Ticked(Begun(s, kind, key, ttl)))
  {
    BegunShape(s, kind, key, ttl);
    BegunInFlight(s, kind, key, ttl);
    BegunCache(s, kind, key, ttl);
  }

  lemma {:induction false} StoredKeeps(s: State, id: nat, now: int)
    requires Inv(s) && CanStore(s, id)
    ensures Inv(Stored(s, s.calls[id].key, Response(true, id), s.calls[id].ttl, now))
  {
  }

  lemma {:induction false} PhaseKeeps(s: State, id: nat, phase: Phase)
    requires Inv(s) && id in s.calls && !s.calls[id].phase.Settled?
    ensures Inv(WithPhase(s, id, phase))
  {
    hide Valid, InFlightKey;
    PhaseInFlight(s, id, phase);
  }

  lemma {:induction false} PhaseInFlight(s: State, id: nat, phase: Phase)
    requires InFlightOk(s) && id in s.calls && !s.calls[id].phase.Settled?
    ensures InFlightOk(WithPhase(s, id, phase))
  {
    hide InFlightKey;
  }

  lemma {:induction false} CleanupKeeps(s: State, id: nat)
    requires Inv(s)
    ensures Inv(AfterCleanup(s, id))
  {
  }

  lemma {:induction false} InvalidatedKeeps(s: State)
    requires Inv(s)
    ensures Inv(Invalidated(s))
  {
  }

  lemma PlainCallKeeps(s: State, kind: Kind)
    requires Inv(s) && !kind.Shared? && !kind.Bypass?
    ensures Inv(Ticked(Suspended(s, Call(kind, "", 0, 0, 0, Fetching))))
  {
  }

  lemma {:induction false} ExpiredKeeps(s: State, key: string)
    requires Inv(s)
    ensures Inv(s.(cache := Delete(s.cache, key)))
  {
  }

  lemma TickKeeps(s: State)
    requires Inv(s)
    ensures Inv(Ticked(s))
  {
  }

  lemma {:induction false} ReadKeeps(s: State, key: string, ttl: int, now: int)
    requires Inv(s) && key != ""
    ensures Inv(Ticked(AfterRead(s, key, ttl, now)))
  {
    hide Inv, Begun, Delete, InFlightKey;
    var s1 := if key in s.cache.at then s.(cache := Delete(s.cache, key)) else s;
    ExpiredKeeps(s, key);
    TickKeeps(s);
    TickKeeps(s1);
    if InFlightKey(s.generation, key) !in s.inFlight {
      BegunKeeps(s1, Shared, key, ttl);
    }
  }

  lemma {:induction false} FetchKeeps(s: State, id: nat, ok: bool, unauthorized: bool)
    requires Inv(s)
    ensures Inv(Ticked(AfterFetch(s, id, ok, unauthorized)))
  {
    if id in s.calls && s.calls[id].phase == Fetching {
      InvalidatedKeeps(s);
      PhaseKeeps(if unauthorized then Invalidated(s) else s, id, Executed(ok && !unauthorized));
    }
    TickKeeps(AfterFetch(s, id, ok, unauthorized));
  }

  lemma {:induction false} SettleKeeps(s: State, id: nat, now: int)
    requires Inv(s)
    ensures Inv(Ticked(AfterSettle(s, id, now)))
  {
    hide Inv, Stored, CanStore;
    if id in s.calls && s.calls[id].phase.Executed? {
      if s.calls[id].kind.Mutation? {
        InvalidatedKeeps(s);
        PhaseKeeps(Invalidated(s), id, Settled);
      } else if CanStore(s, id) {
        StoredKeeps(s, id, now);
        var s1 := Stored(s, s.calls[id].key, Response(true, id), s.calls[id].ttl, now);
        StoredCalls(s, s.calls[id].key, Response(true, id), s.calls[id].ttl, now);
        PhaseKeeps(s1, id, Settled);
      } else {
        PhaseKeeps(s, id, Settled);
      }
    }
    TickKeeps(AfterSettle(s, id, now));
  }

  lemma StoredCalls(s: State, key: string, response: Response, ttl: int, now: int)
    ensures Stored(s, key, response, ttl, now).calls == s.calls
  {
  }

  lemma {:induction false} StepKeeps(s: State, e: Event)
    requires Inv(s)
    ensures Inv(Step(s, e))
  {
    hide Inv, AfterRead, AfterFetch, AfterSettle, AfterCleanup, Begun, Invalidated, Suspended, Ticked;
    match e
    case Read(scope, url, ttl, now) => ReadKeeps(s, CacheKey(scope, url), ttl, now);
    case BypassRead(scope, url, ttl) => BegunKeeps(s, Bypass, CacheKey(scope, url), ttl);
    case UncachedRead => PlainCallKeeps(s, PlainGet);
    case Write =>
      InvalidatedKeeps(s);
      PlainCallKeeps(Invalidated(s), Mutation);
    case InvalidateCachedReads =>
      InvalidatedKeeps(s);
      TickKeeps(Invalidated(s));
    case FetchDone(id, ok, unauthorized) => FetchKeeps(s, id, ok, unauthorized);
    case Settle(id, now) => SettleKeeps(s, id, now);
    case Cleanup(id) =>
      CleanupKeeps(s, id);
      TickKeeps(AfterCleanup(s, id));
  }

  lemma InitialInv()
    ensures Inv(Initial())
  {
  }

  // ---- What one step can change ----

  predicate Stores(s: State, e: Event)
  {
    e.Settle? && CanStore(s, e.call)
  }

  /** Two views of one call at different times: only the phase may differ, and only forwards. */
  predicate Continues(before: Call, after: Call)
  {
    after.(phase := before.phase) == before && (before.phase.Settled? ==> after.phase.Settled?)
  }

  ghost predicate CallsFrame(s: State, t: State)
  {
    && t.clock == s.clock + 1
    && s.generation <= t.generation
    && (forall id | id in s.calls :: id in t.calls && Continues(s.calls[id], t.calls[id]))
    && (forall id | id in t.calls && id !in s.calls ::
          id == s.clock && (Cacheable(t.calls[id]) ==> t.generation == s.generation))
  }

  /** Epochs of other keys only disappear; a key's epoch is replaced when a call for it begins. */
  ghost predicate EpochsFrame(s: State, e: Event, t: State)
  {
    && (forall k | k in t.epochs.at ::
          (k in s.epochs.at && t.epochs.at[k] == s.epochs.at[k])
              || (Begins(s, e, k) && t.epochs.at[k] == s.sequence + 1))
    && (forall k | Begins(s, e, k) :: k in t.epochs.at && t.epochs.at[k] == s.sequence + 1)
  }

  /** Entries only disappear, except for the one a storing step writes. */
  ghost predicate CacheFrame(s: State, e: Event, t: State)
  {
    && (forall k | k in t.cache.at ::
          || (k in s.cache.at && t.cache.at[k] == s.cache.at[k])
          || (Stores(s, e) && k == s.calls[e.call].key && t.cache.at[k].response.begun == e.call))
    && (Stores(s, e) ==>
          && s.calls[e.call].key in t.cache.at
          && t.cache.at[s.calls[e.call].key].response == Response(true, e.call)
          && e.call in t.calls && t.calls[e.call].phase.Settled?)
  }

  lemma {:induction false} WithEpochFrame(s: State, key: string)
    ensures var t := WithEpoch(s, key);
            && t == s.(epochs := t.epochs, sequence := s.sequence + 1)
            && key in t.epochs.at && t.epochs.at[key] == s.sequence + 1
            && (forall k | k in t.epochs.at && k != key :: k in s.epochs.at && t.epochs.at[k] == s.epochs.at[k])
  {
  }

  lemma {:induction false} StoredFrame(s: State, key: string, response: Response, ttl: int, now: int)
    ensures var t := Stored(s, key, response, ttl, now);
            && t == s.(cache := t.cache)
            && key in t.cache.at && t.cache.at[key].response == response
            && (forall k | k in t.cache.at && k != key :: k in s.cache.at && t.cache.at[k] == s.cache.at[k])
  {
  }

  lemma {:induction false} StepEpochsFrame(s: State, e: Event)
    ensures EpochsFrame(s, e, Step(s, e))
  {
    hide WithEpoch, Stored, Delete, InFlightKey;
    match e
    case Read(scope, url, _, _) =>
      var key := CacheKey(scope, url);
      WithEpochFrame(if key in s.cache.at then s.(cache := Delete(s.cache, key)) else s, key);
    case BypassRead(scope, url, _) => WithEpochFrame(s, CacheKey(scope, url));
    case Settle(id, now) =>
      if CanStore(s, id) {
        StoredFrame(s, s.calls[id].key, Response(true, id), s.calls[id].ttl, now);
      }
    case _ =>
  }

  lemma {:induction false} StepCacheFrame(s: State, e: Event)
    ensures CacheFrame(s, e, Step(s, e))
  {
    hide WithEpoch, Stored, InFlightKey;
    match e
    case Read(scope, url, _, _) =>
      var key := CacheKey(scope, url);
      WithEpochFrame(if key in s.cache.at then s.(cache := Delete(s.cache, key)) else s, key);
    case BypassRead(scope, url, _) => WithEpochFrame(s, CacheKey(scope, url));
    case Settle(id, now) =>
      if CanStore(s, id) {
        StoredFrame(s, s.calls[id].key, Response(true, id), s.calls[id].ttl, now);
      }
    case _ =>
  }

  lemma {:induction false} StepCallsFrame(s: State, e: Event)
    requires s.clock !in s.calls
    ensures CallsFrame(s, Step(s, e))
  {
    hide WithEpoch, Stored, Delete, InFlightKey;
    match e
    case Read(scope, url, _, _) =>
      var key := CacheKey(scope, url);
      WithEpochFrame(if key in s.cache.at then s.(cache := Delete(s.cache, key)) else s, key);
    case BypassRead(scope, url, _) => WithEpochFrame(s, CacheKey(scope, url));
    case Settle(id, now) =>
      if CanStore(s, id) {
        StoredFrame(s, s.calls[id].key, Response(true, id), s.calls[id].ttl, now);
      }
    case _ =>
  }

  // ---- Theorems over whole runs ----

  /** In every reachable state all limits and ownership rules hold, and the clock counts events. */
  lemma {:induction false} RunInv(events: seq<Event>)
    ensures Inv(Run(events)) && Run(events).clock == |events|
    decreases |events|
  {
    hide Step, Inv;
    if events == [] {
      InitialInv();
    } else {
      var s, e := Run(events[..|events| - 1]), events[|events| - 1];
      RunInv(events[..|events| - 1]);
      StepKeeps(s, e);
      CallsBelowClock(s);
      StepCallsFrame(s, e);
    }
  }

  lemma CallsBelowClock(s: State)
    requires Inv(s)
    ensures s.clock !in s.calls
  {
  }

  /** Everything known about step `i` of a run. */
  lemma {:induction false} RunStep(events: seq<Event>, i: nat)
    requires i < |events|
    ensures var s, t := Run(events[..i]), Run(events[..i + 1]);
            && t == Step(s, events[i])
            && Inv(s) && Inv(t) && s.clock == i
            && CallsFrame(s, t) && EpochsFrame(s, events[i], t) && CacheFrame(s, events[i], t)
  {
    hide Step, Inv, CallsFrame, EpochsFrame, CacheFrame;
    assert events[..i + 1][..i] == events[..i];
    RunInv(events[..i]);
    RunInv(events[..i + 1]);
    CallsBelowClock(Run(events[..i]));
    StepCallsFrame(Run(events[..i]), events[i]);
    StepEpochsFrame(Run(events[..i]), events[i]);
    StepCacheFrame(Run(events[..i]), events[i]);
  }

  /** Calls of the current generation all began after step `i`. */
  ghost predicate Fresh(s: State, i: nat)
  {
    forall id | id in s.calls && Cacheable(s.calls[id]) && s.calls[id].generation == s.generation :: i < id
  }

  lemma {:induction false} StepFresh(s: State, t: State, i: nat)
    requires CallsOk(s) && CallsFrame(s, t)
    requires t.generation != s.generation || (Fresh(s, i) && i < s.clock)
    ensures Fresh(t, i)
  {
  }

  lemma StepGeneration(s: State, e: Event)
    requires Invalidates(s, e)
    ensures Step(s, e).generation != s.generation
  {
  }

  lemma {:induction false} FreshAfterInvalidation(events: seq<Event>, i: nat, j: nat)
    requires i < j <= |events| && Invalidates(Run(events[..i]), events[i])
    ensures Fresh(Run(events[..j]), i)
    decreases j
  {
    hide Step, Invalidates, Fresh, EpochsFrame, CacheFrame, CallsFrame, Run;
    RunStep(events, j - 1);
    if i < j - 1 {
      FreshAfterInvalidation(events, i, j - 1);
    } else {
      StepGeneration(Run(events[..i]), events[i]);
    }
    StepFresh(Run(events[..j - 1]), Run(events[..j]), i);
  }

  lemma {:induction false} AnswerIsCurrent(s: State, e: Event)
    requires Inv(s)
    ensures var a := AnswerOf(s, e);
            a.FromCache? || a.Joined? ==>
              && a.begun in s.calls && Cacheable(s.calls[a.begun])
              && s.calls[a.begun].key == CacheKey(e.scope, e.url)
              && s.calls[a.begun].generation == s.generation
  {
    var a := AnswerOf(s, e);
    if a.Joined? {
      var call := s.calls[a.begun];
      InFlightKeyInjective(s.generation, CacheKey(e.scope, e.url), call.generation, call.key);
    }
  }

  /** A settling write, a 401, an explicit invalidation or the start of a write at step `i`
      cuts off everything older: no later read is answered from the cache by, joins, or is
      itself a fetch that began at or before `i`; and answers are for the read's own key. */
  lemma {:induction false} NoStaleAnswers(events: seq<Event>, i: nat, j: nat)
    requires i < j < |events| && Invalidates(Run(events[..i]), events[i])
    ensures var s := Run(events[..j]);
            var a := AnswerOf(s, events[j]);
            && (!a.NoRead? ==> i < a.begun <= j)
            && (a.FromCache? || a.Joined? ==>
                  a.begun in s.calls && s.calls[a.begun].key == CacheKey(events[j].scope, events[j].url))
  {
    hide Run, Invalidates;
    FreshAfterInvalidation(events, i, j);
    RunInv(events[..j]);
    AnswerIsCurrent(Run(events[..j]), events[j]);
  }

  /** A write settles by invalidating, whatever became of its fetch. */
  lemma WriteSettleInvalidates(s: State, id: nat, now: int)
    requires id in s.calls && s.calls[id].kind.Mutation? && s.calls[id].phase.Executed?
    ensures Invalidates(s, Settle(id, now))
  {
  }

  /** After a write has settled, every read is answered by a fetch issued after that. */
  lemma {:induction false} ReadsSeeSettledWrites(events: seq<Event>, i: nat, j: nat)
    requires i < j < |events| && events[i].Settle?
    requires var s := Run(events[..i]);
             events[i].call in s.calls && s.calls[events[i].call].kind.Mutation?
             && s.calls[events[i].call].phase.Executed?
    ensures var a := AnswerOf(Run(events[..j]), events[j]);
            !a.NoRead? ==> i < a.begun
  {
    hide Run, Invalidates, AnswerOf;
    WriteSettleInvalidates(Run(events[..i]), events[i].call, events[i].now);
    NoStaleAnswers(events, i, j);
  }

  // ---- Superseded requests ----

  /** Call `id` can no longer be stored: its key's epoch is gone or newer. */
  ghost predicate Superseded(s: State, id: nat)
  {
    && id in s.calls && Cacheable(s.calls[id])
    && (s.calls[id].key in s.epochs.at ==> s.calls[id].epoch < s.epochs.at[s.calls[id].key])
  }

  lemma {:induction false} StepSuperseded(s: State, e: Event, t: State, id: nat)
    requires CallsOk(s) && CallsFrame(s, t) && EpochsFrame(s, e, t)
    requires id in s.calls && Cacheable(s.calls[id])
    requires Superseded(s, id) || Begins(s, e, s.calls[id].key)
    ensures Superseded(t, id)
  {
    hide Begins;
  }

  lemma {:induction false} StaysSuperseded(events: seq<Event>, id: nat, i: nat, j: nat)
    requires i < j <= |events|
    requires var s := Run(events[..i]);
             id in s.calls && Cacheable(s.calls[id]) && Begins(s, events[i], s.calls[id].key)
    ensures Superseded(Run(events[..j]), id)
    decreases j
  {
    hide Step, Run, Begins, EpochsFrame, CacheFrame, CallsFrame;
    RunStep(events, j - 1);
    if i < j - 1 {
      StaysSuperseded(events, id, i, j - 1);
    }
    StepSuperseded(Run(events[..j - 1]), events[j - 1], Run(events[..j]), id);
  }

  /** Once a later request for a key has begun, no earlier request for it is ever stored,
      whatever the epoch table has evicted in the meantime. */
  lemma {:induction false} EarlierNeverStored(events: seq<Event>, id: nat, i: nat, j: nat)
    requires i < j < |events|
    requires var s := Run(events[..i]);
             id in s.calls && Cacheable(s.calls[id]) && Begins(s, events[i], s.calls[id].key)
    ensures !(Stores(Run(events[..j]), events[j]) && events[j].call == id)
  {
    hide Run, Begins;
    StaysSuperseded(events, id, i, j);
  }

  /** No later store or cache hit for `key` can go back behind call `b`. */
  ghost predicate NotBefore(s: State, key: string, b: nat)
  {
    && b in s.calls && Cacheable(s.calls[b]) && s.calls[b].key == key
    && (key in s.cache.at ==> b <= s.cache.at[key].response.begun)
    && (key in s.epochs.at ==> s.calls[b].epoch <= s.epochs.at[key])
  }

  /** Among cacheable calls, a larger epoch means a later beginning. */
  lemma EpochOrder(s: State, a: nat, b: nat)
    requires CallsOk(s) && a in s.calls && b in s.calls && Cacheable(s.calls[a]) && Cacheable(s.calls[b])
    requires s.calls[a].epoch <= s.calls[b].epoch
    ensures a <= b
  {
  }

  lemma {:induction false} StepNotBefore(s: State, e: Event, t: State, key: string, b: nat)
    requires CallsOk(s) && CallsFrame(s, t) && EpochsFrame(s, e, t) && CacheFrame(s, e, t)
    requires NotBefore(s, key, b)
    ensures NotBefore(t, key, b)
  {
    hide Begins;
    if Stores(s, e) && s.calls[e.call].key == key {
      EpochOrder(s, b, e.call);
    }
  }

  lemma {:induction false} StaysNotBefore(events: seq<Event>, key: string, b: nat, i: nat, j: nat)
    requires i <= j <= |events| && NotBefore(Run(events[..i]), key, b)
    ensures NotBefore(Run(events[..j]), key, b)
    decreases j
  {
    hide Step, Run, NotBefore, EpochsFrame, CacheFrame, CallsFrame;
    if i < j {
      StaysNotBefore(events, key, b, i, j - 1);
      RunStep(events, j - 1);
      StepNotBefore(Run(events[..j - 1]), events[j - 1], Run(events[..j]), key, b);
    }
  }

  /** Cache hits for one key never go back in time: a later hit was fetched no earlier. */
  lemma {:induction false} CacheHitsAreMonotone(events: seq<Event>, i: nat, j: nat)
    requires i <= j < |events|
    requires AnswerOf(Run(events[..i]), events[i]).FromCache? && AnswerOf(Run(events[..j]), events[j]).FromCache?
    requires CacheKey(events[i].scope, events[i].url) == CacheKey(events[j].scope, events[j].url)
    ensures AnswerOf(Run(events[..i]), events[i]).begun <= AnswerOf(Run(events[..j]), events[j]).begun
  {
    hide Run;
    var key := CacheKey(events[i].scope, events[i].url);
    RunInv(events[..i]);
    StaysNotBefore(events, key, AnswerOf(Run(events[..i]), events[i]).begun, i, j);
  }

  lemma {:induction false} StoredMarks(s: State, e: Event, t: State)
    requires CallsFrame(s, t) && CacheFrame(s, e, t) && EpochsFrame(s, e, t) && Stores(s, e)
    ensures NotBefore(t, s.calls[e.call].key, e.call) && t.calls[e.call].phase.Settled?
  {
  }

  lemma {:induction false} StaysSettled(events: seq<Event>, id: nat, i: nat, j: nat)
    requires i <= j <= |events| && id in Run(events[..i]).calls && Run(events[..i]).calls[id].phase.Settled?
    ensures id in Run(events[..j]).calls && Run(events[..j]).calls[id].phase.Settled?
    decreases j
  {
    hide Step, Run, EpochsFrame, CacheFrame, Inv;
    if i < j {
      StaysSettled(events, id, i, j - 1);
      RunStep(events, j - 1);
    }
  }

  /** Per key, the requests that get stored began in strictly increasing order. */
  lemma {:induction false} StoredInOrder(events: seq<Event>, i: nat, j: nat)
    requires i < j < |events|
    requires Stores(Run(events[..i]), events[i]) && Stores(Run(events[..j]), events[j])
    requires Run(events[..i]).calls[events[i].call].key == Run(events[..j]).calls[events[j].call].key
    ensures events[i].call < events[j].call
  {
    hide Run, Step, EpochsFrame, CacheFrame, CallsFrame, Shape, InFlightOk, CacheOk, CallsOk;
    var t, id := Run(events[..j]), events[i].call;
    RunStep(events, i);
    StoredMarks(Run(events[..i]), events[i], Run(events[..i + 1]));
    StaysNotBefore(events, Run(events[..i]).calls[id].key, id, i + 1, j);
    StaysSettled(events, id, i + 1, j);
    RunInv(events[..j]);
    EpochOrder(t, id, events[j].call);
  }

  /** A stored response answers reads of its key until it expires. */
  lemma {:induction false} StoredIsServed(s: State, e: Event, read: Event)
    requires Stores(s, e) && read.Read? && CacheKey(read.scope, read.url) == s.calls[e.call].key
    requires read.now < e.now + s.calls[e.call].ttl
    ensures AnswerOf(Step(s, e), read) == FromCache(e.call)
  {
    hide CacheKey, Restrict, DeleteOldest;
  }

  /** A read that finds nothing cached joins the shared request of its key that is under way in
      the current generation, in every reachable state. */
  lemma UnfinishedIsJoined(events: seq<Event>, id: nat, read: Event)
    requires var s := Run(events);
             && id in s.calls && s.calls[id].kind.Shared? && !s.calls[id].phase.Settled?
             && s.calls[id].generation == s.generation
             && read.Read? && CacheKey(read.scope, read.url) == s.calls[id].key
    ensures var a := AnswerOf(Run(events), read); a.FromCache? || a == Joined(id)
  {
    hide Run, CacheKey, InFlightKey;
    RunInv(events);
  }

  /** At most one unfinished shared request exists per generation and key. */
  lemma OneSharedRequest(events: seq<Event>, a: nat, b: nat)
    requires var calls := Run(events).calls;
             && a in calls && calls[a].kind.Shared? && !calls[a].phase.Settled?
             && b in calls && calls[b].kind.Shared? && !calls[b].phase.Settled?
             && calls[a].generation == calls[b].generation && calls[a].key == calls[b].key
    ensures a == b
  {
    hide Run;
    RunInv(events);
  }

  // ---- The client itself ----

  /** The options of one `request` call that decide how it treats the cache. */
  datatype RequestOptions = RequestOptions(
    httpMethod: string, hasBody: bool, clientCacheTtlMs: int, bypassClientCache: bool, scope: string, url: string)

  predicate IsCacheable(o: RequestOptions)
  {
    o.httpMethod == "GET" && !o.hasBody && 0 < o.clientCacheTtlMs
  }

  function EventOf(o: RequestOptions, now: int): Event
  {
    if o.httpMethod != "GET" then Write
    else if !IsCacheable(o) then UncachedRead
    else if o.bypassClientCache then BypassRead(o.scope, o.url, o.clientCacheTtlMs)
    else Read(o.scope, o.url, o.clientCacheTtlMs, now)
  }

  class ApiClient {
    var responseCache: OrderedMap<CacheEntry>
    var inFlightRequests: map<string, nat>
    var latestCacheRequestEpoch: OrderedMap<nat>
    var cacheGeneration: nat
    var cacheRequestSequence: nat
    /** Calls waiting at an await, named by the step at which they began. */
    var suspended: map<nat, Call>
    var steps: nat

    ghost function Model(): State
      reads this
    {
      State(responseCache, inFlightRequests, latestCacheRequestEpoch, cacheGeneration, cacheRequestSequence,
            suspended, steps)
    }

    constructor ()
      ensures Model() == Initial()
    {
      responseCache := Empty();
      inFlightRequests := map[];
      latestCacheRequestEpoch := Empty();
      cacheGeneration, cacheRequestSequence, steps := 0, 0, 0;
      suspended := map[];
    }

    method InvalidateClientCache()
      modifies this
      ensures Model() == Invalidated(old(Model()))
    {
      cacheGeneration := cacheGeneration + 1;
      responseCache := Empty();
      latestCacheRequestEpoch := Empty();
    }

    method InvalidateReads()
      modifies this
      ensures Model() == Step(old(Model()), InvalidateCachedReads)
    {
      InvalidateClientCache();
      steps := steps + 1;
    }

    method BeginCacheRequest(key: string) returns (epoch: nat)
      modifies this
      ensures Model() == WithEpoch(old(Model()), key)
      ensures epoch == cacheRequestSequence
    {
      hide Set, Delete, DeleteOldest;
      cacheRequestSequence := cacheRequestSequence + 1;
      if CLIENT_CACHE_EPOCH_MAX_ENTRIES <= |latestCacheRequestEpoch.order| && key !in latestCacheRequestEpoch.at {
        latestCacheRequestEpoch := DeleteOldest(latestCacheRequestEpoch);
      }
      latestCacheRequestEpoch := Delete(latestCacheRequestEpoch, key);
      latestCacheRequestEpoch := Set(latestCacheRequestEpoch, key, cacheRequestSequence);
      return cacheRequestSequence;
    }

    /** Deletes expired entries one by one while walking the map. */
    method PurgeExpired(now: int)
      requires Valid(responseCache)
      modifies this
      ensures Model() == old(Model()).(cache := Restrict(old(responseCache), Live(old(responseCache), now)))
    {
      hide Delete, Restrict, Keeping, Without;
      ghost var before, live := responseCache, Live(responseCache, now);
      var order := responseCache.order;
      ghost var kept := before.at.Keys;
      RestrictAll(before);
      for i := 0 to |order|
        invariant Model() == old(Model()).(cache := Restrict(before, kept))
        invariant live <= kept <= before.at.Keys
        invariant forall j | 0 <= j < i :: order[j] in kept ==> order[j] in live
        invariant forall j | i <= j < |order| :: order[j] in kept
      {
        assert order[i] in before.order;
        RestrictAt(before, kept, order[i]);
        if responseCache.at[order[i]].expiresAt <= now {
          RestrictDelete(before, kept, order[i]);
          responseCache := Delete(responseCache, order[i]);
          kept := kept - {order[i]};
        }
      }
      forall k | k in kept
        ensures k in live
      {
        assert k in before.order;
      }
      assert kept == live;
    }

    method StoreClientCache(key: string, response: Response, ttlMs: int, now: int)
      requires Valid(responseCache)
      modifies this
      ensures Model() == Stored(old(Model()), key, response, ttlMs, now)
    {
      PurgeExpired(now);
      if CLIENT_CACHE_MAX_ENTRIES <= |responseCache.order| {
        responseCache := DeleteOldest(responseCache);
      }
      responseCache := Set(responseCache, key, CacheEntry(now + ttlMs, response));
    }

    /** `request` from its first line to its first await. */
    method Request(o: RequestOptions, now: int) returns (answer: Answer)
      modifies this
      ensures Model() == Step(old(Model()), EventOf(o, now))
      ensures answer == AnswerOf(old(Model()), EventOf(o, now))
    {
      hide Set, DeleteOldest, Delete, InFlightKey, CacheKey;
      var cacheable := IsCacheable(o);
      var cacheKey := if cacheable then CacheKey(o.scope, o.url) else "";
      if cacheable && !o.bypassClientCache {
        if cacheKey in responseCache.at {
          var cached := responseCache.at[cacheKey];
          if now < cached.expiresAt {
            steps := steps + 1;
            return FromCache(cached.response.begun);
          }
          responseCache := Delete(responseCache, cacheKey);
        }
      }
      if o.httpMethod != "GET" {
        InvalidateClientCache();
      }
      if !cacheable {
        var kind := if o.httpMethod != "GET" then Mutation else PlainGet;
        suspended := suspended[steps := Call(kind, "", 0, 0, 0, Fetching)];
        steps := steps + 1;
        return NoRead;
      }
      var requestGeneration := cacheGeneration;
      if o.bypassClientCache {
        var requestEpoch := BeginCacheRequest(cacheKey);
        suspended := suspended[steps :=
          Call(Bypass, cacheKey, requestGeneration, requestEpoch, o.clientCacheTtlMs, Fetching)];
        answer := Started(steps);
      } else {
        var inFlightKey := InFlightKey(requestGeneration, cacheKey);
        if inFlightKey in inFlightRequests {
          answer := Joined(inFlightRequests[inFlightKey]);
        } else {
          var requestEpoch := BeginCacheRequest(cacheKey);
          suspended := suspended[steps :=
            Call(Shared, cacheKey, requestGeneration, requestEpoch, o.clientCacheTtlMs, Fetching)];
          inFlightRequests := inFlightRequests[inFlightKey := steps];
          answer := Started(steps);
        }
      }
      steps := steps + 1;
    }

    /** The end of `execute`: a 401 of an authenticated call drops the cache before returning. */
    method FinishExecute(id: nat, ok: bool, unauthorized: bool)
      requires id in suspended && suspended[id].phase.Fetching?
      modifies this
      ensures Model() == Step(old(Model()), FetchDone(id, ok, unauthorized))
    {
      if unauthorized {
        InvalidateClientCache();
      }
      suspended := suspended[id := suspended[id].(phase := Executed(ok && !unauthorized))];
      steps := steps + 1;
    }

    /** The code after `await execute()`: store the result, or invalidate after a write. */
    method Resume(id: nat, now: int)
      requires id in suspended && suspended[id].phase.Executed? && Valid(responseCache)
      modifies this
      ensures Model() == Step(old(Model()), Settle(id, now))
    {
      var call := suspended[id];
      if call.kind.Mutation? {
        InvalidateClientCache();
      } else if call.kind.Shared? || call.kind.Bypass? {
        if call.phase.success && call.generation == cacheGeneration
           && call.key in latestCacheRequestEpoch.at && latestCacheRequestEpoch.at[call.key] == call.epoch {
          StoreClientCache(call.key, Response(true, id), call.ttl, now);
        }
      }
      suspended := suspended[id := call.(phase := Settled)];
      steps := steps + 1;
    }

    /** The `finally` callback of a shared request. */
    method FinallyShared(id: nat)
      requires id in suspended && suspended[id].kind.Shared? && suspended[id].phase.Settled?
      modifies this
      ensures Model() == Step(old(Model()), Cleanup(id))
    {
      var inFlightKey := InFlightKey(suspended[id].generation, suspended[id].key);
      if inFlightKey in inFlightRequests && inFlightRequests[inFlightKey] == id {
        inFlightRequests := inFlightRequests - {inFlightKey};
      }
      steps := steps + 1;
    }
  }
}
