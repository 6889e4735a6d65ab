/** Merging live host-state events into per-agent metrics. Timestamps are parsed milliseconds;
    numbers are reals. */
module LiveMerge {
  import opened Wrappers

  type AgentId = string

  /** Cumulative byte counters of one network interface. */
  datatype Interface = Interface(received: Option<real>, sent: Option<real>)

  datatype Payload = Payload(
    cpuPercent: Option<real>, memoryUsed: Option<real>, memoryTotal: Option<real>, load1: Option<real>,
    rxBps: Option<real>, txBps: Option<real>, inTotal: Option<real>, outTotal: Option<real>,
    interfaces: seq<Interface>, uptime: Option<real>)

  /** A pending event; `agent` is `None` if it is not a host-state event of a named agent, and
      `now` is the local clock when it is applied. */
  datatype Event = Event(agent: Option<AgentId>, at: int, payload: Payload, snapshot: bool, now: int)

  /** The metrics that do not depend on earlier events. */
  datatype Core = Core(
    cpuPercent: Option<real>, memoryUsed: Option<real>, memoryTotal: Option<real>, load1: Option<real>,
    inTotal: Option<real>, outTotal: Option<real>, uptime: Option<real>, receivedAt: int)

  datatype LiveState = LiveState(core: Core, rxBps: Option<real>, txBps: Option<real>, confirmedAt: Option<int>)

  type Live = map<AgentId, LiveState>

  function Sum(interfaces: seq<Interface>, received: bool): real
  {
    if interfaces == [] then 0.0
    else
      var last := interfaces[|interfaces| - 1];
      var v := if received then last.received else last.sent;
      Sum(interfaces[..|interfaces| - 1], received) + (if v.Some? then v.value else 0.0)
  }

  function NetIoTotal(interfaces: seq<Interface>, received: bool): Option<real>
  {
    if interfaces == [] then None else Some(Sum(interfaces, received))
  }

  function OrElse<T>(x: Option<T>, y: Option<T>): Option<T>
  {
    if x.Some? then x else y
  }

  function CoreOf(e: Event): Core
  {
    var p := e.payload;
    Core(p.cpuPercent, p.memoryUsed, p.memoryTotal, p.load1,
         OrElse(p.inTotal, NetIoTotal(p.interfaces, true)), OrElse(p.outTotal, NetIoTotal(p.interfaces, false)),
         p.uptime, e.at)
  }

  /** Bytes per second between two counter readings; undefined after a counter reset. */
  function RateFromTotalDelta(next: Option<real>, previous: Option<real>, nextAt: int,
                              previousAt: int): (r: Option<real>)
    ensures r.Some? ==> r.value >= 0.0 && next.Some? && previous.Some? && previousAt < nextAt
    ensures r.Some? ==> r.value * ((nextAt - previousAt) as real / 1000.0) == next.value - previous.value
    ensures r.None? <==> next.None? || previous.None? || nextAt <= previousAt || next.value < previous.value
  {
    if next.None? || previous.None? || nextAt <= previousAt || next.value < previous.value then None
    else
      var elapsed := (nextAt - previousAt) as real / 1000.0;
      Some((next.value - previous.value) / elapsed)
  }

  function NormalizeLiveState(e: Event, previous: Option<LiveState>): LiveState
  {
    if previous.Some? && e.at <= previous.value.core.receivedAt then previous.value
    else
      var core := CoreOf(e);
      var rx := if previous.None? then None
                else RateFromTotalDelta(core.inTotal, previous.value.core.inTotal, e.at,
                                        previous.value.core.receivedAt);
      var tx := if previous.None? then None
                else RateFromTotalDelta(core.outTotal, previous.value.core.outTotal, e.at,
                                        previous.value.core.receivedAt);
      LiveState(core, OrElse(e.payload.rxBps, rx), OrElse(e.payload.txBps, tx),
                if e.snapshot then (if previous.None? then None else previous.value.confirmedAt) else Some(e.now))
  }

  function Get(live: Live, a: AgentId): Option<LiveState>
  {
    if a in live then Some(live[a]) else None
  }

  function Applied(live: Live, e: Event): Live
  {
    match e.agent
    case None => live
    case Some(a) => live[a := NormalizeLiveState(e, Get(live, a))]
  }

  function Flushed(live: Live, events: seq<Event>): Live
  {
    if events == [] then live else Applied(Flushed(live, events[..|events| - 1]), events[|events| - 1])
  }

  class LiveView {
    var live: Live

    constructor ()
      ensures live == map[]
    {
      live := map[];
    }

    /** Applies the pending events; an event that changes nothing is skipped. */
    method FlushLive(events: seq<Event>)
      modifies this
      ensures live == Flushed(old(live), events)
    {
      for i := 0 to |events|
        invariant live == Flushed(old(live), events[..i])
      {
        var e := events[i];
        assert events[..i + 1][..i] == events[..i];
        if e.agent.Some? {
          var current := Get(live, e.agent.value);
          var normalized := NormalizeLiveState(e, current);
          if Some(normalized) != current {
            live := live[e.agent.value := normalized];
          } else {
            assert live[e.agent.value := normalized] == live;
          }
        }
      }
      assert events[..|events|] == events;
    }
  }

  // ---- Splitting into flushes does not matter ----

  function FlushedAll(live: Live, flushes: seq<seq<Event>>): Live
  {
    if flushes == [] then live else Flushed(FlushedAll(live, flushes[..|flushes| - 1]), flushes[|flushes| - 1])
  }

  function Flatten(flushes: seq<seq<Event>>): seq<Event>
  {
    if flushes == [] then [] else Flatten(flushes[..|flushes| - 1]) + flushes[|flushes| - 1]
  }

  lemma {:induction false} FlushedConcat(live: Live, x: seq<Event>, y: seq<Event>)
    ensures Flushed(live, x + y) == Flushed(Flushed(live, x), y)
    decreases |y|
  {
    if y == [] {
      assert x + y == x;
    } else {
      assert (x + y)[..|x + y| - 1] == x + y[..|y| - 1];
      FlushedConcat(live, x, y[..|y| - 1]);
    }
  }

  lemma {:induction false} FlushBoundariesDoNotMatter(live: Live, flushes: seq<seq<Event>>)
    ensures FlushedAll(live, flushes) == Flushed(live, Flatten(flushes))
    decreases |flushes|
  {
    if flushes != [] {
      var init := flushes[..|flushes| - 1];
      FlushBoundariesDoNotMatter(live, init);
      FlushedConcat(live, Flatten(init), flushes[|flushes| - 1]);
    }
  }

  // ---- Delivery order does not matter ----

  predicate About(e: Event, a: AgentId)
  {
    e.agent == Some(a)
  }

  /** An event about `a` that no other event about `a` is newer than. */
  ghost predicate Newest(events: seq<Event>, a: AgentId, e: Event)
  {
    e in events && About(e, a) && forall x | x in events && About(x, a) :: x.at <= e.at
  }

  /** The merged metrics of an agent are those of one of its newest events. */
  lemma {:induction false} MergedIsNewest(events: seq<Event>, a: AgentId) returns (e: Event)
    requires exists x :: x in events && About(x, a)
    ensures Newest(events, a, e)
    ensures a in Flushed(map[], events) && Flushed(map[], events)[a].core == CoreOf(e)
    decreases |events|
  {
    var init, last := events[..|events| - 1], events[|events| - 1];
    assert events == init + [last];
    if exists x :: x in init && About(x, a) {
      var before := MergedIsNewest(init, a);
      e := if About(last, a) && before.at < last.at then last else before;
      assert forall x | x in events :: x in init || x == last;
    } else {
      NeverMentioned(init, a);
      e := last;
      var x :| x in events && About(x, a);
      assert x in init || x == last;
    }
  }

  lemma {:induction false} NeverMentioned(events: seq<Event>, a: AgentId)
    requires forall x | x in events :: !About(x, a)
    ensures a !in Flushed(map[], events)
    decreases |events|
  {
    if events != [] {
      var init := events[..|events| - 1];
      assert events == init + [events[|events| - 1]];
      assert events[|events| - 1] in events;
      NeverMentioned(init, a);
    }
  }

  function CoreAt(events: seq<Event>, a: AgentId): Option<Core>
  {
    match Get(Flushed(map[], events), a) case None => None case Some(s) => Some(s.core)
  }

  ghost predicate SameEvents(x: seq<Event>, y: seq<Event>)
  {
    forall e :: e in x <==> e in y
  }

  /** All newest events about `a` carry the same metrics; distinct timestamps imply it. */
  ghost predicate NewestAgree(events: seq<Event>, a: AgentId)
  {
    forall d, e | Newest(events, a, d) && Newest(events, a, e) :: CoreOf(d) == CoreOf(e)
  }

  lemma DistinctTimesAgree(events: seq<Event>, a: AgentId)
    requires forall d, e | d in events && e in events && About(d, a) && About(e, a) && d.at == e.at ::
             CoreOf(d) == CoreOf(e)
    ensures NewestAgree(events, a)
  {
  }

  lemma {:induction false} OrderIrrelevant(x: seq<Event>, y: seq<Event>, a: AgentId)
    requires SameEvents(x, y) && NewestAgree(x, a)
    ensures CoreAt(x, a) == CoreAt(y, a)
  {
    if e :| e in x && About(e, a) {
      var d := MergedIsNewest(x, a);
      assert e in y;
      var f := MergedIsNewest(y, a);
      assert Newest(x, a, f);
    } else {
      NeverMentioned(x, a);
      NeverMentioned(y, a);
    }
  }

  /** The first of several equally new events wins. */
  lemma {:induction false} FirstNewestWins(events: seq<Event>, a: AgentId, e: Event)
    requires Newest([e] + events, a, e)
    ensures CoreAt([e] + events, a) == Some(CoreOf(e))
    decreases |events|
  {
    var all := [e] + events;
    if events == [] {
      assert all == [e];
      assert all[..0] == [];
      assert Flushed(map[], []) == map[];
    } else {
      var init := events[..|events| - 1];
      var last := events[|events| - 1];
      assert all[..|all| - 1] == [e] + init;
      assert all == ([e] + init) + [last];
      assert forall x | x in [e] + init :: x in all;
      assert last in all;
      FirstNewestWins(init, a, e);
    }
  }

  /** What is shown for an agent does not depend on the order in which the same events are
      delivered exactly when its newest events agree. */
  lemma {:induction false} OrderIrrelevantIff(x: seq<Event>, a: AgentId)
    ensures (forall y | multiset(y) == multiset(x) :: CoreAt(y, a) == CoreAt(x, a)) <==> NewestAgree(x, a)
  {
    if NewestAgree(x, a) {
      forall y | multiset(y) == multiset(x)
        ensures CoreAt(y, a) == CoreAt(x, a)
      {
        assert forall e :: e in x <==> e in multiset(x);
        assert forall e :: e in y <==> e in multiset(y);
        OrderIrrelevant(x, y, a);
      }
    }
    if forall y | multiset(y) == multiset(x) :: CoreAt(y, a) == CoreAt(x, a) {
      forall d, e | Newest(x, a, d) && Newest(x, a, e)
        ensures CoreOf(d) == CoreOf(e)
      {
        var y := NewestFirst(x, a, d);
        var z := NewestFirst(x, a, e);
      }
    }
  }

  /** A newest event can be delivered first, and is then what is shown. */
  lemma NewestFirst(x: seq<Event>, a: AgentId, d: Event) returns (y: seq<Event>)
    requires Newest(x, a, d)
    ensures multiset(y) == multiset(x) && CoreAt(y, a) == Some(CoreOf(d))
  {
    var k :| 0 <= k < |x| && x[k] == d;
    var others := x[..k] + x[k + 1..];
    y := [d] + others;
    assert x == x[..k] + [d] + x[k + 1..];
    assert forall e :: e in y ==> e in x;
    FirstNewestWins(others, a, d);
  }

  /** An agent's `received_at` never decreases as events are applied. */
  lemma {:induction false} ReceivedAtNeverDecreases(live: Live, events: seq<Event>, a: AgentId)
    requires a in live
    ensures a in Flushed(live, events) && live[a].core.receivedAt <= Flushed(live, events)[a].core.receivedAt
    decreases |events|
  {
    if events != [] {
      ReceivedAtNeverDecreases(live, events[..|events| - 1], a);
    }
  }

  // ---- Rates add up to the counters ----

  // `received` selects the direction: bytes received, or bytes sent.

  function Counter(c: Core, received: bool): Option<real>
  {
    if received then c.inTotal else c.outTotal
  }

  function OwnRate(e: Event, received: bool): Option<real>
  {
    if received then e.payload.rxBps else e.payload.txBps
  }

  function ShownRate(shown: LiveState, received: bool): Option<real>
  {
    if received then shown.rxBps else shown.txBps
  }

  /** Bytes at `rate` per second in `ms` milliseconds. */
  function Amount(rate: real, ms: int): real
  {
    rate * (ms as real / 1000.0)
  }

  /** The event replaces what is shown for `a`. */
  predicate Advancing(live: Live, e: Event, a: AgentId)
  {
    About(e, a) && (a in live ==> live[a].core.receivedAt < e.at)
  }

  /** The events that replaced what was shown for `a`, in the order of delivery. */
  function Advances(events: seq<Event>, a: AgentId): seq<Event>
  {
    if events == [] then []
    else
      var init, last := events[..|events| - 1], events[|events| - 1];
      if Advancing(Flushed(map[], init), last, a) then Advances(init, a) + [last] else Advances(init, a)
  }

  /** Bytes as shown: whenever the view of `a` advances, the rate then shown times the time
      since the reading before. */
  function ShownBytes(events: seq<Event>, a: AgentId, received: bool): real
  {
    if events == [] then 0.0
    else
      var init, last := events[..|events| - 1], events[|events| - 1];
      var before, shown := Get(Flushed(map[], init), a), Get(Flushed(map[], events), a);
      ShownBytes(init, a, received) +
      (if Advancing(Flushed(map[], init), last, a) && before.Some? && shown.Some?
          && ShownRate(shown.value, received).Some?
       then Amount(ShownRate(shown.value, received).value, last.at - before.value.core.receivedAt) else 0.0)
  }

  /** Readings that carry the counter and no rate of their own. */
  predicate Metered(readings: seq<Event>, received: bool)
  {
    forall i | 0 <= i < |readings| ::
      OwnRate(readings[i], received).None? && Counter(CoreOf(readings[i]), received).Some?
  }

  /** How far a counter rose from one reading to the next; nothing after a reset. */
  function Rise(before: real, after: real): real
  {
    if before <= after then after - before else 0.0
  }

  function Rises(readings: seq<Event>, received: bool): real
    requires Metered(readings, received)
  {
    if |readings| <= 1 then 0.0
    else
      var n := |readings|;
      Rises(readings[..n - 1], received) +
      Rise(Counter(CoreOf(readings[n - 2]), received).value, Counter(CoreOf(readings[n - 1]), received).value)
  }

  /** What is shown for an agent is the last event that advanced it. */
  lemma {:induction false} LastAdvanceShown(events: seq<Event>, a: AgentId)
    ensures a in Flushed(map[], events) <==> Advances(events, a) != []
    ensures var r := Advances(events, a); r != [] ==> Flushed(map[], events)[a].core == CoreOf(r[|r| - 1])
    decreases |events|
  {
    hide CoreOf, RateFromTotalDelta;
    if events != [] {
      LastAdvanceShown(events[..|events| - 1], a);
    }
  }

  /** The rate shown after a reading covers exactly the counter's rise since the one before. */
  lemma ReadingRate(e: Event, before: LiveState, received: bool)
    requires before.core.receivedAt < e.at && OwnRate(e, received).None?
    requires Counter(CoreOf(e), received).Some? && Counter(before.core, received).Some?
    ensures var rate := ShownRate(NormalizeLiveState(e, Some(before)), received);
            (if rate.Some? then Amount(rate.value, e.at - before.core.receivedAt) else 0.0) ==
            Rise(Counter(before.core, received).value, Counter(CoreOf(e), received).value)
  {
  }

  /** For any delivery of events in which those that advance the view are metered, the rates
      shown account for exactly the rises of the counter between them. */
  lemma {:induction false} RatesCountRises(events: seq<Event>, a: AgentId, received: bool)
    requires Metered(Advances(events, a), received)
    ensures ShownBytes(events, a, received) == Rises(Advances(events, a), received)
    decreases |events|
  {
    hide CoreOf, Amount, Rise, NormalizeLiveState, ShownRate, OwnRate, Counter;
    if events != [] {
      var init, last := events[..|events| - 1], events[|events| - 1];
      var r := Advances(init, a);
      LastAdvanceShown(init, a);
      if Advancing(Flushed(map[], init), last, a) {
        assert Advances(events, a) == r + [last] && (r + [last])[..|r|] == r;
        assert forall i | 0 <= i < |r| :: r[i] == Advances(events, a)[i];
        RatesCountRises(init, a, received);
        if r != [] {
          var before := Flushed(map[], init)[a];
          assert Flushed(map[], events)[a] == NormalizeLiveState(last, Some(before));
          assert Advances(events, a)[|r|] == last && Advances(events, a)[|r| - 1] == r[|r| - 1];
          ReadingRate(last, before, received);
        }
      } else {
        RatesCountRises(init, a, received);
      }
    }
  }

  predicate Rising(readings: seq<Event>, received: bool)
    requires Metered(readings, received)
  {
    forall i | 0 < i < |readings| ::
      Counter(CoreOf(readings[i - 1]), received).value <= Counter(CoreOf(readings[i]), received).value
  }

  lemma {:induction false} RisesTelescope(readings: seq<Event>, received: bool)
    requires readings != [] && Metered(readings, received) && Rising(readings, received)
    ensures Rises(readings, received) ==
            Counter(CoreOf(readings[|readings| - 1]), received).value - Counter(CoreOf(readings[0]), received).value
    decreases |readings|
  {
    hide CoreOf, OwnRate, Counter;
    if |readings| > 1 {
      RisesTelescope(readings[..|readings| - 1], received);
    }
  }

  /** Without a counter reset, the rates shown integrate back to the counter difference. */
  lemma RatesIntegrate(events: seq<Event>, a: AgentId, received: bool)
    requires var r := Advances(events, a); r != [] && Metered(r, received) && Rising(r, received)
    ensures var r := Advances(events, a);
            ShownBytes(events, a, received) ==
            Counter(CoreOf(r[|r| - 1]), received).value - Counter(CoreOf(r[0]), received).value
  {
    hide CoreOf, OwnRate, Counter, ShownBytes, Rises, Advances;
    RatesCountRises(events, a, received);
    RisesTelescope(Advances(events, a), received);
  }

  /** Readings of one agent delivered in order all advance its view. */
  lemma {:induction false} InOrderAllAdvance(events: seq<Event>, a: AgentId)
    requires forall i | 0 <= i < |events| :: About(events[i], a)
    requires forall i, j | 0 <= i < j < |events| :: events[i].at < events[j].at
    ensures Advances(events, a) == events
    decreases |events|
  {
    if events != [] {
      var init, last := events[..|events| - 1], events[|events| - 1];
      InOrderAllAdvance(init, a);
      LastAdvanceShown(init, a);
      assert events == init + [last];
    }
  }
}
