/** The embedded time-series store: per-agent ordered maps, lazy age compaction, a per-agent
    cap, and cutoffs applied again on every read. Times are nanoseconds since the Unix epoch
    and unbounded: the source's fallbacks for date overflow clamp to the same results. */
module MetricStore {
  import opened Sets
  import opened NewestKeys
  import opened MetricPayload
  import opened Wrappers

  const MILLISECOND: int := 1_000_000
  const DAY: int := 86_400_000 * MILLISECOND
  const MAX_BATCH_SAMPLES: nat := 256_000
  const MAX_SAMPLES_PER_AGENT: nat := 50_000
  const MAX_RETENTION: int := 3650 * DAY
  const MAX_FUTURE_SKEW: int := 86_400_000 * MILLISECOND

  type AgentId = nat
  type Series = map<int, Json>

  datatype Sample = Sample(agent: AgentId, at: int, fields: Json)
  datatype MetricError = InvalidTimestamp | Backend
  datatype QueryRange = Day1 | Day7 | Day30

  datatype State = State(series: map<AgentId, Series>, retention: int)

  function RangeDuration(range: QueryRange): int
  {
    match range
    case Day1 => DAY
    case Day7 => 7 * DAY
    case Day30 => 30 * DAY
  }

  function NormalizeRetention(retention: int): int
  {
    if retention < MILLISECOND then MILLISECOND
    else if MAX_RETENTION < retention then MAX_RETENTION
    else retention
  }

  function Cutoff(now: int, retention: int): int
  {
    var clamped := if retention < 0 then 0 else retention;
    if now - clamped < 0 then 0 else now - clamped
  }

  function SeriesOf(series: map<AgentId, Series>, a: AgentId): Series
  {
    if a in series then series[a] else map[]
  }

  function Insert(series: map<AgentId, Series>, s: Sample): map<AgentId, Series>
  {
    series[s.agent := SeriesOf(series, s.agent)[s.at := s.fields]]
  }

  function InsertAll(series: map<AgentId, Series>, samples: seq<Sample>): map<AgentId, Series>
  {
    if samples == [] then series
    else Insert(InsertAll(series, samples[..|samples| - 1]), samples[|samples| - 1])
  }

  /** One series after losing what is older than the cutoff and then what exceeds the cap. */
  function Compacted(m: Series, cutoff: int): Series
  {
    KeepNewest(Since(m, cutoff), MAX_SAMPLES_PER_AGENT)
  }

  function CompactAgents(series: map<AgentId, Series>, agents: set<AgentId>, cutoff: int): map<AgentId, Series>
  {
    map a | a in series && (a in agents ==> Compacted(series[a], cutoff) != map[]) ::
      if a in agents then Compacted(series[a], cutoff) else series[a]
  }

  function AgentsOf(samples: seq<Sample>): set<AgentId>
  {
    set s | s in samples :: s.agent
  }

  function Entries(series: map<AgentId, Series>): set<(AgentId, int)>
  {
    set a, t | a in series && t in series[a] :: (a, t)
  }

  // ---- Validation ----

  predicate ValidSample(s: Sample, now: int)
  {
    0 <= s.at <= now + MAX_FUTURE_SKEW && Acceptable(s.fields)
  }

  predicate ValidBatch(samples: seq<Sample>, now: int)
  {
    |samples| <= MAX_BATCH_SAMPLES && forall i | 0 <= i < |samples| :: ValidSample(samples[i], now)
  }

  method ValidateSample(s: Sample, now: int) returns (r: Result<(), MetricError>)
    ensures r.Ok? <==> ValidSample(s, now)
    ensures r.Err? ==> (r.error.InvalidTimestamp? <==> !(0 <= s.at <= now + MAX_FUTURE_SKEW))
  {
    if s.at < 0 {
      return Err(InvalidTimestamp);
    }
    if now + MAX_FUTURE_SKEW < s.at {
      return Err(InvalidTimestamp);
    }
    var walked := ValidateSamplePayload(s.fields);
    if walked.Rejected? {
      return Err(Backend);
    }
    return Ok(());
  }

  // ---- Compaction ----

  method CompactSeries(m: Series, cutoff: int) returns (entries: Series, dropped: nat)
    ensures entries == Compacted(m, cutoff)
    ensures dropped + |entries| == |m|
  {
    entries := Since(m, cutoff);
    SubsetSize(entries.Keys, m.Keys);
    if MAX_SAMPLES_PER_AGENT < |entries| {
      var excess := |entries| - MAX_SAMPLES_PER_AGENT;
      for i := 0 to excess
        invariant |entries| == MAX_SAMPLES_PER_AGENT + excess - i
        invariant KeepNewest(entries, MAX_SAMPLES_PER_AGENT) == Compacted(m, cutoff)
      {
        entries := PopFirst(entries);
      }
    }
    KeepNewestAll(entries, MAX_SAMPLES_PER_AGENT);
    dropped := |m| - |entries|;
  }

  method PopFirst(m: Series) returns (rest: Series)
    requires MAX_SAMPLES_PER_AGENT < |m|
    ensures |rest| == |m| - 1
    ensures KeepNewest(rest, MAX_SAMPLES_PER_AGENT) == KeepNewest(m, MAX_SAMPLES_PER_AGENT)
  {
    var first := Min(m.Keys);
    rest := m - {first};
    assert rest.Keys == m.Keys - {first};
    NewestDropMin(m.Keys, MAX_SAMPLES_PER_AGENT);
  }

  lemma KeepNewestAll(m: Series, n: nat)
    requires |m| <= n
    ensures KeepNewest(m, n) == m
  {
    NewestSize(m.Keys, n);
    assert KeepNewest(m, n).Keys == m.Keys;
  }

  /** Compacting twice is compacting once, also when later samples arrive in between:
      age and cap eviction never disturb what a later compaction would keep. */
  lemma {:induction false} CompactedAbsorbs(m: Series, upd: Series, cutoff: int)
    ensures Compacted(Compacted(m, cutoff) + upd, cutoff) == Compacted(m + upd, cutoff)
  {
    var n := MAX_SAMPLES_PER_AGENT;
    var kept := Compacted(m, cutoff);
    calc {
      KeepNewest(Since(kept + upd, cutoff), n);
      { SinceMerge(kept, upd, cutoff); CompactedSince(m, cutoff); }
      KeepNewest(KeepNewest(Since(m, cutoff), n) + Since(upd, cutoff), n);
      { KeepNewestMerge(Since(m, cutoff), Since(upd, cutoff), n); }
      KeepNewest(Since(m, cutoff) + Since(upd, cutoff), n);
      { SinceMerge(m, upd, cutoff); }
      KeepNewest(Since(m + upd, cutoff), n);
    }
  }

  lemma CompactedSince(m: Series, cutoff: int)
    ensures Since(Compacted(m, cutoff), cutoff) == Compacted(m, cutoff)
  {
  }

  lemma CompactedIdempotent(m: Series, cutoff: int)
    ensures Compacted(Compacted(m, cutoff), cutoff) == Compacted(m, cutoff)
  {
    CompactedAbsorbs(m, map[], cutoff);
    assert m + map[] == m && Compacted(m, cutoff) + map[] == Compacted(m, cutoff);
  }

  // ---- The store ----

  lemma {:induction false} PairSize(a: AgentId, keys: set<int>)
    ensures |set t | t in keys :: (a, t)| == |keys|
    decreases keys
  {
    var pairs := set t | t in keys :: (a, t);
    if keys == {} {
      assert pairs == {};
    } else {
      var t := Member(keys);
      PairSize(a, keys - {t});
      assert pairs == (set u | u in keys - {t} :: (a, u)) + {(a, t)};
    }
  }

  lemma EntriesSplit(series: map<AgentId, Series>, a: AgentId)
    requires a in series
    ensures |Entries(series)| == |Entries(series - {a})| + |series[a]|
  {
    PairSize(a, series[a].Keys);
    var mine := set t | t in series[a].Keys :: (a, t);
    assert Entries(series) == Entries(series - {a}) + mine;
    assert Entries(series - {a}) !! mine;
  }

  class InMemoryMetricStore {
    var series: map<AgentId, Series>
    var retention: int

    ghost function Model(): State
      reads this
    {
      State(series, retention)
    }

    constructor (retention: int)
      ensures Model() == State(map[], NormalizeRetention(retention))
    {
      this.series := map[];
      this.retention := NormalizeRetention(retention);
    }

    method CompactAgent(a: AgentId, cutoff: int) returns (dropped: nat)
      modifies this
      ensures series == CompactAgents(old(series), {a}, cutoff) && retention == old(retention)
      ensures dropped + |Entries(series)| == |Entries(old(series))|
    {
      if a !in series {
        dropped := 0;
        assert CompactAgents(series, {a}, cutoff) == series;
        return;
      }
      ghost var before := series;
      var entries;
      entries, dropped := CompactSeries(series[a], cutoff);
      EntriesSplit(before, a);
      if entries == map[] {
        series := series - {a};
      } else {
        series := series[a := entries];
        EntriesSplit(series, a);
        assert series - {a} == before - {a};
      }
      assert series == CompactAgents(before, {a}, cutoff);
    }

    /** Compacts the given agents in any order. */
    method CompactEach(agents: set<AgentId>, cutoff: int) returns (dropped: nat)
      modifies this
      ensures series == CompactAgents(old(series), agents, cutoff) && retention == old(retention)
      ensures dropped + |Entries(series)| == |Entries(old(series))|
    {
      ghost var before, done := series, {};
      var todo := agents;
      dropped := 0;
      CompactNone(before, cutoff);
      while todo != {}
        invariant done !! todo && done + todo == agents && retention == old(retention)
        invariant series == CompactAgents(before, done, cutoff)
        invariant dropped + |Entries(series)| == |Entries(before)|
        decreases |todo|
      {
        ghost var some := Member(todo);
        var a :| a in todo;
        CompactOneMore(before, done, a, cutoff);
        var d := CompactAgent(a, cutoff);
        dropped := dropped + d;
        todo, done := todo - {a}, done + {a};
      }
      assert done == agents;
    }

    method Compact(now: int) returns (dropped: nat)
      modifies this
      ensures Model() == Apply(old(Model()), Timed(now, CompactNow))
      ensures dropped + |Entries(series)| == |Entries(old(series))|
    {
      dropped := CompactEach(series.Keys, Cutoff(now, retention));
    }

    method SetRetention(now: int, requested: int) returns (r: Result<(), MetricError>)
      modifies this
      ensures Model() == Apply(old(Model()), Timed(now, SetRetentionTo(requested)))
      ensures r.Ok? <==> 0 < requested <= MAX_RETENTION
    {
      if requested <= 0 {
        return Err(Backend);
      }
      if MAX_RETENTION < requested {
        return Err(Backend);
      }
      retention := NormalizeRetention(requested);
      var dropped := CompactEach(series.Keys, Cutoff(now, retention));
      return Ok(());
    }

    method Write(now: int, s: Sample) returns (r: Result<(), MetricError>)
      modifies this
      ensures Model() == Apply(old(Model()), Timed(now, Put(s)))
      ensures r.Ok? <==> ValidSample(s, now)
    {
      r := ValidateSample(s, now);
      if r.Err? {
        return;
      }
      var cutoff := Cutoff(now, retention);
      series := Insert(series, s);
      var dropped := CompactAgent(s.agent, cutoff);
    }

    /** All samples are checked before any is stored; compaction runs once per affected agent. */
    method WriteBatch(now: int, samples: seq<Sample>) returns (r: Result<nat, MetricError>)
      modifies this
      ensures Model() == Apply(old(Model()), Timed(now, PutBatch(samples)))
      ensures r.Ok? <==> ValidBatch(samples, now)
      ensures r.Ok? ==> r.value == |samples|
    {
      if MAX_BATCH_SAMPLES < |samples| {
        return Err(Backend);
      }
      for i := 0 to |samples|
        invariant Model() == old(Model())
        invariant forall j | 0 <= j < i :: ValidSample(samples[j], now)
      {
        var checked := ValidateSample(samples[i], now);
        if checked.Err? {
          return Err(checked.error);
        }
      }
      var cutoff := Cutoff(now, retention);
      var affected := InsertSamples(samples);
      var dropped := CompactEach(affected, cutoff);
      return Ok(|samples|);
    }

    method InsertSamples(samples: seq<Sample>) returns (affected: set<AgentId>)
      modifies this
      ensures series == InsertAll(old(series), samples) && retention == old(retention)
      ensures affected == AgentsOf(samples)
    {
      affected := {};
      for i := 0 to |samples|
        invariant retention == old(retention)
        invariant series == InsertAll(old(series), samples[..i])
        invariant affected == AgentsOf(samples[..i])
      {
        affected := affected + {samples[i].agent};
        series := Insert(series, samples[i]);
        assert samples[..i + 1][..i] == samples[..i];
        assert forall s :: s in samples[..i + 1] <==> s in samples[..i] || s == samples[i];
      }
      assert samples[..|samples|] == samples;
    }

    /** `len`: the sum of the series' sizes is the number of stored samples. */
    method Len() returns (n: nat)
      ensures n == |Entries(series)|
    {
      n := 0;
      var todo := series.Keys;
      ghost var counted: map<AgentId, Series> := map[];
      assert Entries(counted) == {};
      while todo != {}
        invariant todo <= series.Keys && counted == series - todo
        invariant n == |Entries(counted)|
        decreases |todo|
      {
        ghost var some := Member(todo);
        var a :| a in todo;
        n := n + |series[a]|;
        todo := todo - {a};
        ghost var longer := series - todo;
        EntriesSplit(longer, a);
        assert longer - {a} == counted;
        counted := longer;
      }
      assert counted == series;
    }

    /** Every live sample, sorted by agent and then by time. */
    method ExportSamples(now: int) returns (samples: seq<Sample>)
      ensures SortedBySampleKey(samples)
      ensures forall s :: s in samples <==> Visible(Model(), Cutoff(now, retention), s)
    {
      var cutoff := Cutoff(now, retention);
      samples := [];
      var todo := series.Keys;
      while todo != {}
        invariant todo <= series.Keys
        invariant forall s :: s in samples <==> Visible(Model(), cutoff, s) && s.agent !in todo
        invariant DistinctKeys(samples)
        decreases |todo|
      {
        ghost var some := Member(todo);
        var a :| a in todo;
        samples := samples + Ascending(a, Since(series[a], cutoff));
        todo := todo - {a};
      }
      samples := SortSamples(samples);
    }
  }

  lemma CompactNone(series: map<AgentId, Series>, cutoff: int)
    ensures CompactAgents(series, {}, cutoff) == series
  {
  }

  lemma CompactOneMore(series: map<AgentId, Series>, done: set<AgentId>, a: AgentId, cutoff: int)
    requires a !in done
    ensures CompactAgents(CompactAgents(series, done, cutoff), {a}, cutoff) == CompactAgents(series, done + {a}, cutoff)
  {
  }

  // ---- Reads ----

  predicate Visible(st: State, cutoff: int, s: Sample)
  {
    s.agent in st.series && s.at in st.series[s.agent] && cutoff <= s.at && st.series[s.agent][s.at] == s.fields
  }

  /** The samples of one series in ascending order of time. */
  function Ascending(a: AgentId, m: Series): (samples: seq<Sample>)
    ensures forall s :: s in samples <==> s.agent == a && s.at in m && m[s.at] == s.fields
    ensures forall i, j | 0 <= i < j < |samples| :: samples[i].at < samples[j].at
    decreases |m|
  {
    if m == map[] then []
    else
      var t := Min(m.Keys);
      var rest := Ascending(a, m - {t});
      [Sample(a, t, m[t])] + rest
  }

  function Query(st: State, now: int, a: AgentId, range: QueryRange): seq<Sample>
  {
    var rangeCutoff := Cutoff(now, RangeDuration(range));
    var retentionCutoff := Cutoff(now, st.retention);
    var cutoff := if rangeCutoff < retentionCutoff then retentionCutoff else rangeCutoff;
    if a in st.series then Ascending(a, Since(st.series[a], cutoff)) else []
  }

  function Last(m: Series): (t: int)
    requires m != map[]
    ensures t in m && forall u :: u in m ==> u <= t
  {
    Max(m.Keys)
  }

  /** Looks at the newest stored sample only. */
  function Latest(st: State, now: int, a: AgentId): Option<Sample>
  {
    if a in st.series && st.series[a] != map[] && Cutoff(now, st.retention) <= Last(st.series[a]) then
      Some(Sample(a, Last(st.series[a]), st.series[a][Last(st.series[a])]))
    else
      None
  }

  function ListAgents(st: State, now: int): set<AgentId>
  {
    set a | a in st.series && st.series[a] != map[] && Cutoff(now, st.retention) <= Last(st.series[a])
  }

  // ---- Sorting by (agent, time) ----

  predicate KeyBefore(x: Sample, y: Sample)
  {
    x.agent < y.agent || (x.agent == y.agent && x.at < y.at)
  }

  predicate SortedBySampleKey(s: seq<Sample>)
  {
    forall i, j | 0 <= i < j < |s| :: KeyBefore(s[i], s[j])
  }

  predicate DistinctKeys(s: seq<Sample>)
  {
    forall i, j | 0 <= i < j < |s| :: s[i].agent != s[j].agent || s[i].at != s[j].at
  }

  function InsertSorted(x: Sample, s: seq<Sample>): (r: seq<Sample>)
    requires SortedBySampleKey(s)
    requires forall y | y in s :: KeyBefore(x, y) || KeyBefore(y, x)
    ensures SortedBySampleKey(r)
    ensures forall y :: y in r <==> y == x || y in s
  {
    if s == [] || KeyBefore(x, s[0]) then [x] + s
    else
      assert s == [s[0]] + s[1..];
      var rest := InsertSorted(x, s[1..]);
      assert forall y | y in rest :: KeyBefore(s[0], y);
      [s[0]] + rest
  }

  function SortSamples(s: seq<Sample>): (r: seq<Sample>)
    requires DistinctKeys(s)
    ensures SortedBySampleKey(r)
    ensures forall y :: y in r <==> y in s
  {
    if s == [] then []
    else
      assert s == [s[0]] + s[1..];
      InsertSorted(s[0], SortSamples(s[1..]))
  }

  lemma HasMember<T>(s: seq<T>)
    requires s != []
    ensures exists x :: x in s
  {
    assert s[0] in s;
  }

  /** A sorted listing is determined by what it lists. */
  lemma {:induction false} SortedListingUnique(x: seq<Sample>, y: seq<Sample>)
    requires SortedBySampleKey(x) && SortedBySampleKey(y)
    requires forall s :: s in x <==> s in y
    ensures x == y
    decreases |x|
  {
    if x == [] {
      if y != [] {
        HasMember(y);
        assert false;
      }
    } else {
      assert x[0] in y;
      assert y[0] in x;
      assert x[0] == y[0];
      assert x == [x[0]] + x[1..] && y == [y[0]] + y[1..];
      assert x[0] !in x[1..] && y[0] !in y[1..];
      forall s
        ensures s in x[1..] <==> s in y[1..]
      {
        assert s in x <==> s == x[0] || s in x[1..];
        assert s in y <==> s == y[0] || s in y[1..];
      }
      SortedListingUnique(x[1..], y[1..]);
    }
  }

  // ---- Runs ----

  datatype Op = Put(sample: Sample) | PutBatch(samples: seq<Sample>) | CompactNow | SetRetentionTo(requested: int)
  datatype Timed = Timed(now: int, op: Op)

  function Apply(st: State, t: Timed): State
  {
    match t.op
    case Put(s) =>
      if ValidSample(s, t.now) then
        st.(series := CompactAgents(Insert(st.series, s), {s.agent}, Cutoff(t.now, st.retention)))
      else st
    case PutBatch(samples) =>
      if ValidBatch(samples, t.now) then
        st.(series := CompactAgents(InsertAll(st.series, samples), AgentsOf(samples), Cutoff(t.now, st.retention)))
      else st
    case CompactNow =>
      st.(series := CompactAgents(st.series, st.series.Keys, Cutoff(t.now, st.retention)))
    case SetRetentionTo(requested) =>
      if 0 < requested <= MAX_RETENTION then
        var retention := NormalizeRetention(requested);
        State(CompactAgents(st.series, st.series.Keys, Cutoff(t.now, retention)), retention)
      else st
  }

  function Run(st: State, ops: seq<Timed>): State
  {
    if ops == [] then st else Apply(Run(st, ops[..|ops| - 1]), ops[|ops| - 1])
  }

  // ---- The store that never forgets ----

  function Accepted(t: Timed): seq<Sample>
  {
    match t.op
    case Put(s) => if ValidSample(s, t.now) then [s] else []
    case PutBatch(samples) => if ValidBatch(samples, t.now) then samples else []
    case _ => []
  }

  /** Every sample ever accepted, in order of acceptance. */
  function Log(ops: seq<Timed>): seq<Sample>
  {
    if ops == [] then [] else Log(ops[..|ops| - 1]) + Accepted(ops[|ops| - 1])
  }

  /** Everything ever accepted for one agent; the last write to a timestamp wins. */
  function AllOf(log: seq<Sample>, a: AgentId): Series
  {
    if log == [] then map[]
    else
      var last := log[|log| - 1];
      var earlier := AllOf(log[..|log| - 1], a);
      if last.agent == a then earlier[last.at := last.fields] else earlier
  }

  /** What a read at `cutoff` should see of one agent. */
  function Reference(log: seq<Sample>, a: AgentId, cutoff: int): Series
  {
    Since(KeepNewest(AllOf(log, a), MAX_SAMPLES_PER_AGENT), cutoff)
  }

  /** The cutoff at which operation `t`, applied to `st`, compacts agent `a`, if it does. */
  function CompactionCutoff(st: State, t: Timed, a: AgentId): Option<int>
  {
    match t.op
    case CompactNow => Some(Cutoff(t.now, st.retention))
    case SetRetentionTo(requested) =>
      if 0 < requested <= MAX_RETENTION then Some(Cutoff(t.now, NormalizeRetention(requested))) else None
    case _ => if a in AgentsOf(Accepted(t)) then Some(Cutoff(t.now, st.retention)) else None
  }

  /** The highest cutoff at which agent `a` was compacted during the run. */
  function HighWater(st: State, ops: seq<Timed>, a: AgentId): int
  {
    if ops == [] then 0
    else
      var init := ops[..|ops| - 1];
      var earlier := HighWater(st, init, a);
      match CompactionCutoff(Run(st, init), ops[|ops| - 1], a)
      case None => earlier
      case Some(c) => if earlier < c then c else earlier
  }

  function Empty(retention: int): State
  {
    State(map[], NormalizeRetention(retention))
  }

  lemma {:induction false} AllOfConcat(log: seq<Sample>, more: seq<Sample>, a: AgentId)
    ensures AllOf(log + more, a) == AllOf(log, a) + AllOf(more, a)
    decreases |more|
  {
    if more == [] {
      assert log + more == log;
    } else {
      var init := more[..|more| - 1];
      assert (log + more)[..|log + more| - 1] == log + init;
      AllOfConcat(log, init, a);
    }
  }

  lemma {:induction false} InsertAllOf(series: map<AgentId, Series>, samples: seq<Sample>, a: AgentId)
    ensures SeriesOf(InsertAll(series, samples), a) == SeriesOf(series, a) + AllOf(samples, a)
    decreases |samples|
  {
    if samples != [] {
      InsertAllOf(series, samples[..|samples| - 1], a);
    }
  }

  lemma {:induction false} InsertAllKeys(series: map<AgentId, Series>, samples: seq<Sample>)
    ensures InsertAll(series, samples).Keys == series.Keys + AgentsOf(samples)
    decreases |samples|
  {
    if samples != [] {
      var init, last := samples[..|samples| - 1], samples[|samples| - 1];
      InsertAllKeys(series, init);
      assert samples == init + [last];
      assert AgentsOf(samples) == AgentsOf(init) + {last.agent};
    }
  }

  lemma {:induction false} AgentsOfAll(samples: seq<Sample>, a: AgentId)
    ensures a !in AgentsOf(samples) ==> AllOf(samples, a) == map[]
    decreases |samples|
  {
    if samples != [] {
      AgentsOfAll(samples[..|samples| - 1], a);
      assert samples[|samples| - 1] in samples;
      assert forall s :: s in samples[..|samples| - 1] ==> s in samples;
    }
  }

  /** One operation seen from one agent: merge what was accepted, then compact if it does. */
  lemma {:induction false} ApplyOnAgent(st: State, t: Timed, a: AgentId)
    ensures SeriesOf(Apply(st, t).series, a) ==
            match CompactionCutoff(st, t, a)
            case None => SeriesOf(st.series, a)
            case Some(c) => Compacted(SeriesOf(st.series, a) + AllOf(Accepted(t), a), c)
    ensures CompactionCutoff(st, t, a) == None ==> AllOf(Accepted(t), a) == map[]
    ensures t.op.Put? || t.op.PutBatch? ==>
              (a in Apply(st, t).series <==>
               match CompactionCutoff(st, t, a)
               case None => a in st.series
               case Some(c) => Compacted(SeriesOf(st.series, a) + AllOf(Accepted(t), a), c) != map[])
    ensures !t.op.SetRetentionTo? ==> Apply(st, t).retention == st.retention
  {
    hide InsertAll, Compacted, AllOf, ValidSample, ValidBatch, Cutoff, NormalizeRetention, AgentsOf;
    InsertAllKeys(st.series, Accepted(t));
    InsertAllOf(st.series, Accepted(t), a);
    AgentsOfAll(Accepted(t), a);
    NoSamples(a);
    assert SeriesOf(st.series, a) + map[] == SeriesOf(st.series, a);
    CompactedNothing(if CompactionCutoff(st, t, a).Some? then CompactionCutoff(st, t, a).value else 0);
    if t.op.Put? {
      InsertOne(st.series, t.op.sample);
    }
  }

  lemma CompactedNothing(cutoff: int)
    ensures Compacted(map[], cutoff) == map[]
  {
  }

  lemma NoSamples(a: AgentId)
    ensures AllOf([], a) == map[] && AgentsOf([]) == {}
  {
  }

  lemma InsertOne(series: map<AgentId, Series>, s: Sample)
    ensures InsertAll(series, [s]) == Insert(series, s) && AgentsOf([s]) == {s.agent}
  {
    assert [s][..0] == [] && s in [s];
  }

  /** Age and cap eviction seen through a cutoff that is at least as high as any used before. */
  lemma {:induction false} CompactedAgrees(m: Series, all: Series, upd: Series, h: int, c: int)
    requires Since(m, h) == Since(KeepNewest(all, MAX_SAMPLES_PER_AGENT), h)
    ensures var top := if h < c then c else h;
            Since(Compacted(m + upd, c), top) == Since(KeepNewest(all + upd, MAX_SAMPLES_PER_AGENT), top)
  {
    var n := MAX_SAMPLES_PER_AGENT;
    var top := if h < c then c else h;
    var kept := KeepNewest(all, n);
    calc {
      Since(Compacted(m + upd, c), top);
      { SinceNewest(Since(m + upd, c), n, top); }
      KeepNewest(Since(Since(m + upd, c), top), n);
      { SinceSince(m + upd, c, top); SinceMerge(m, upd, top); }
      KeepNewest(Since(m, top) + Since(upd, top), n);
      { SinceHigher(m, kept, h, top); SinceMerge(kept, upd, top); }
      KeepNewest(Since(kept + upd, top), n);
      { SinceNewest(kept + upd, n, top); }
      Since(KeepNewest(kept + upd, n), top);
      { KeepNewestMerge(all, upd, n); }
      Since(KeepNewest(all + upd, n), top);
    }
  }

  /** For every run of writes, batches, compactions and retention changes, any read whose
      cutoff is not below the cutoffs already used on an agent sees exactly what the store
      that never forgets would show: eviction and its laziness are unobservable. */
  lemma {:induction false} EvictionUnobservable(retention: int, ops: seq<Timed>, a: AgentId, cutoff: int)
    requires HighWater(Empty(retention), ops, a) <= cutoff
    ensures Since(SeriesOf(Run(Empty(retention), ops).series, a), cutoff) == Reference(Log(ops), a, cutoff)
    decreases |ops|
  {
    if ops != [] {
      var init, last := ops[..|ops| - 1], ops[|ops| - 1];
      var st := Run(Empty(retention), init);
      var h := HighWater(Empty(retention), init, a);
      EvictionUnobservable(retention, init, a, h);
      ApplyOnAgent(st, last, a);
      AllOfConcat(Log(init), Accepted(last), a);
      var all := AllOf(Log(init), a);
      match CompactionCutoff(st, last, a)
      case None =>
        assert AllOf(Log(ops), a) == all;
        SinceHigher(SeriesOf(st.series, a), KeepNewest(all, MAX_SAMPLES_PER_AGENT), h, cutoff);
      case Some(c) =>
        CompactedAgrees(SeriesOf(st.series, a), all, AllOf(Accepted(last), a), h, c);
        SinceHigher(Compacted(SeriesOf(st.series, a) + AllOf(Accepted(last), a), c),
                    KeepNewest(AllOf(Log(ops), a), MAX_SAMPLES_PER_AGENT), if h < c then c else h, cutoff);
    }
  }

  /** What the four reads at `now` return for one agent is what `live`, the reference content,
      says: the export is given by the samples it contains. */
  ghost predicate ReadsMatch(st: State, now: int, a: AgentId, live: Series)
  {
    && (forall range :: Query(st, now, a, range) == Ascending(a, Since(live, Cutoff(now, RangeDuration(range)))))
    && Latest(st, now, a) == (if live == map[] then None else Some(Sample(a, Last(live), live[Last(live)])))
    && (a in ListAgents(st, now) <==> live != map[])
    && (forall s: Sample | s.agent == a ::
          Visible(st, Cutoff(now, st.retention), s) <==> s.at in live && live[s.at] == s.fields)
  }

  /** All four reads at `now`, after the run `ops`, agree with the store that never forgets. */
  ghost predicate AllReadsAgree(retention: int, ops: seq<Timed>, now: int, a: AgentId)
  {
    var st := Run(Empty(retention), ops);
    ReadsMatch(st, now, a, Reference(Log(ops), a, Cutoff(now, st.retention)))
  }

  lemma {:induction false} ReadsAgree(retention: int, ops: seq<Timed>, now: int, a: AgentId)
    requires HighWater(Empty(retention), ops, a) <= Cutoff(now, Run(Empty(retention), ops).retention)
    ensures AllReadsAgree(retention, ops, now, a)
  {
    hide Run, HighWater, Log, Reference, Cutoff, Query, RangeDuration;
    var st := Run(Empty(retention), ops);
    var cutoff := Cutoff(now, st.retention);
    EvictionUnobservable(retention, ops, a, cutoff);
    var m := SeriesOf(st.series, a);
    var live := Reference(Log(ops), a, cutoff);
    forall range: QueryRange
      ensures Query(st, now, a, range) == Ascending(a, Since(live, Cutoff(now, RangeDuration(range))))
    {
      QueryReads(st, now, a, range);
    }
    if m != map[] {
      NewestDecides(m, cutoff);
    }
  }

  lemma QueryReads(st: State, now: int, a: AgentId, range: QueryRange)
    ensures Query(st, now, a, range) ==
            Ascending(a,
                      Since(Since(SeriesOf(st.series, a), Cutoff(now, st.retention)),
                            Cutoff(now, RangeDuration(range))))
  {
    var m := SeriesOf(st.series, a);
    var x, y := Cutoff(now, st.retention), Cutoff(now, RangeDuration(range));
    assert Since(Since(m, x), y) == Since(m, if y < x then x else y);
    if a !in st.series {
      assert Since(m, x) == map[];
      assert Since(Since(m, x), y) == map[];
    }
  }

  /** Looking only at the newest entry decides whether anything is live, and which is latest. */
  lemma NewestDecides(m: Series, cutoff: int)
    requires m != map[]
    ensures cutoff <= Last(m) <==> Since(m, cutoff) != map[]
    ensures cutoff <= Last(m) ==> Last(Since(m, cutoff)) == Last(m)
  {
    var live := Since(m, cutoff);
    if cutoff <= Last(m) {
      assert Last(m) in live;
    } else {
      assert forall t :: t !in live.Keys;
      EmptyIfNoMember(live.Keys);
    }
  }

  // ---- When the condition holds ----

  predicate ClockForward(ops: seq<Timed>, now: int)
  {
    ops == [] || (ops[|ops| - 1].now <= now && ClockForward(ops[..|ops| - 1], ops[|ops| - 1].now))
  }

  predicate RetentionNeverRaised(st: State, ops: seq<Timed>)
  {
    ops == [] ||
    (Run(st, ops).retention <= Run(st, ops[..|ops| - 1]).retention && RetentionNeverRaised(st, ops[..|ops| - 1]))
  }

  lemma CutoffMonotone(now: int, later: int, retention: int, shorter: int)
    requires now <= later && shorter <= retention
    ensures Cutoff(now, retention) <= Cutoff(later, shorter)
  {
  }

  /** The cutoff an operation compacts at is the one in force after it. */
  lemma CompactionCutoffInForce(st: State, t: Timed, a: AgentId)
    ensures var c := CompactionCutoff(st, t, a);
            c.Some? ==> c.value == Cutoff(t.now, Apply(st, t).retention)
  {
  }

  /** With a clock that does not run backwards and a retention that is never raised, every
      read at or after the last operation is covered, for every agent. */
  lemma {:induction false} HighWaterBelowNow(st: State, ops: seq<Timed>, now: int, a: AgentId)
    requires ClockForward(ops, now) && RetentionNeverRaised(st, ops)
    ensures HighWater(st, ops, a) <= Cutoff(now, Run(st, ops).retention)
    decreases |ops|
  {
    if ops != [] {
      var init, last := ops[..|ops| - 1], ops[|ops| - 1];
      HighWaterBelowNow(st, init, last.now, a);
      CompactionCutoffInForce(Run(st, init), last, a);
      CutoffMonotone(last.now, now, Run(st, init).retention, Run(st, ops).retention);
      CutoffMonotone(last.now, now, Run(st, ops).retention, Run(st, ops).retention);
    }
  }

  lemma ReadsAgreeOnForwardRuns(retention: int, ops: seq<Timed>, now: int, a: AgentId)
    requires ClockForward(ops, now) && RetentionNeverRaised(Empty(retention), ops)
    ensures AllReadsAgree(retention, ops, now, a)
  {
    hide AllReadsAgree;
    HighWaterBelowNow(Empty(retention), ops, now, a);
    ReadsAgree(retention, ops, now, a);
  }

  ghost predicate AgreesAt(retention: int, ops: seq<Timed>, a: AgentId, cutoff: int)
  {
    Since(SeriesOf(Run(Empty(retention), ops).series, a), cutoff) == Reference(Log(ops), a, cutoff)
  }

  // ---- When it does not ----

  function Raised(mark: int, cutoff: Option<int>): int
  {
    if cutoff.Some? && mark < cutoff.value then cutoff.value else mark
  }

  lemma OneMore(st: State, ops: seq<Timed>, t: Timed, a: AgentId, now: int)
    ensures Run(st, ops + [t]) == Apply(Run(st, ops), t)
    ensures Log(ops + [t]) == Log(ops) + Accepted(t)
    ensures HighWater(st, ops + [t], a) == Raised(HighWater(st, ops, a), CompactionCutoff(Run(st, ops), t, a))
    ensures ClockForward(ops + [t], now) <==> t.now <= now && ClockForward(ops, t.now)
  {
    assert (ops + [t])[..|ops|] == ops;
  }

  /** An operation adds only what it accepts, and what it compacts is at or above its cutoff. */
  lemma {:induction false} KeysAfter(st: State, t: Timed, a: AgentId, k: int)
    requires k in SeriesOf(Apply(st, t).series, a)
    ensures k in SeriesOf(st.series, a) || k in AllOf(Accepted(t), a)
    ensures CompactionCutoff(st, t, a).Some? ==> CompactionCutoff(st, t, a).value <= k
  {
    hide Apply, AllOf, Compacted, CompactionCutoff, Accepted;
    ApplyOnAgent(st, t, a);
    match CompactionCutoff(st, t, a)
    case None =>
    case Some(c) => CompactedKeys(SeriesOf(st.series, a) + AllOf(Accepted(t), a), c);
  }

  /** Below the high-water mark a read can miss a sample. The retention is short, a sample is
      written at `c`, a compaction at `h` drops it, and the retention is raised so far that
      reads reach back to `c`: the clock runs forward, every write was accepted, and `latest`
      returns nothing. */
  lemma {:induction false} DroppedSamplesStayDropped(retention: int, h: int, c: int, a: AgentId)
    returns (ops: seq<Timed>, now: int)
    requires 0 <= c < h && h - c <= MAX_RETENTION - MILLISECOND
    ensures ClockForward(ops, now) && HighWater(Empty(retention), ops, a) == h
    ensures var st := Run(Empty(retention), ops);
            && Cutoff(now, st.retention) == c
            && Latest(st, now, a) == None && Reference(Log(ops), a, c) != map[]
  {
    hide Apply, Run, Log, HighWater, AllOf, ClockForward, Reference;
    var st, s := Empty(retention), Sample(a, c, Null);
    var lower, put := Timed(c + MILLISECOND, SetRetentionTo(MILLISECOND)), Timed(c + MILLISECOND, Put(s));
    ops, now := [lower, put], c + MILLISECOND;
    OneWrite(retention, lower, put, s);
    ops, now := ForgetAndRaise(retention, ops, s, h);
    assert Log(ops) == [s];
    SoleReference(s);
  }

  /** A run that shortens the retention and then writes one sample. */
  lemma {:induction false} OneWrite(retention: int, lower: Timed, put: Timed, s: Sample)
    requires 0 <= s.at && s.fields == Null
    requires lower == Timed(s.at + MILLISECOND, SetRetentionTo(MILLISECOND)) && put == Timed(s.at + MILLISECOND, Put(s))
    ensures var st := Run(Empty(retention), [lower, put]);
            && st.retention == MILLISECOND && HighWater(Empty(retention), [lower, put], s.agent) == s.at
            && forall k :: k in SeriesOf(st.series, s.agent) ==> k == s.at
    ensures Log([lower, put]) == [s] && ClockForward([lower, put], s.at + MILLISECOND)
  {
    hide Apply, Run, Log, HighWater, AllOf, ClockForward, Compacted;
    var st := Empty(retention);
    Nothing(st, s.agent, lower.now);
    OneMore(st, [], lower, s.agent, put.now);
    OneMore(st, [lower], put, s.agent, put.now);
    assert [] + [lower] == [lower] && [lower] + [put] == [lower, put];
    RetentionSet(st, lower);
    var st1 := Apply(st, lower);
    PutOne(st1, put, s);
    NothingAccepted(lower, s.agent);
    forall k | k in SeriesOf(Apply(st1, put).series, s.agent)
      ensures k == s.at
    {
      KeysAfter(st1, put, s.agent, k);
      if k in SeriesOf(st1.series, s.agent) {
        KeysAfter(st, lower, s.agent, k);
      }
    }
  }

  lemma {:induction false} ForgetAndRaise(retention: int, before: seq<Timed>, s: Sample, h: int)
    returns (ops: seq<Timed>, now: int)
    requires 0 <= s.at < h && h - s.at <= MAX_RETENTION - MILLISECOND
    requires var st := Run(Empty(retention), before);
             && st.retention == MILLISECOND && HighWater(Empty(retention), before, s.agent) == s.at
             && forall k :: k in SeriesOf(st.series, s.agent) ==> k == s.at
    requires ClockForward(before, s.at + MILLISECOND)
    ensures ClockForward(ops, now) && HighWater(Empty(retention), ops, s.agent) == h
    ensures var st := Run(Empty(retention), ops);
            Cutoff(now, st.retention) == s.at && Latest(st, now, s.agent) == None && Log(ops) == Log(before)
  {
    hide Apply, Run, Log, HighWater, AllOf, ClockForward, Compacted;
    var st, c := Empty(retention), s.at;
    var compact := Timed(h + MILLISECOND, CompactNow);
    var raise := Timed(h + MILLISECOND, SetRetentionTo(MILLISECOND + h - c));
    now := h + MILLISECOND;
    ops := before + [compact] + [raise];
    LaterClock(before, c + MILLISECOND, now);
    OneMore(st, before, compact, s.agent, now);
    OneMore(st, before + [compact], raise, s.agent, now);
    var st1 := Run(st, before);
    var st2 := Apply(st1, compact);
    RetentionKept(st1, compact);
    RetentionSet(st2, raise);
    NothingAccepted(compact, s.agent);
    NothingAccepted(raise, s.agent);
    forall k | k in SeriesOf(Apply(st2, raise).series, s.agent)
      ensures false
    {
      KeysAfter(st2, raise, s.agent, k);
      KeysAfter(st1, compact, s.agent, k);
    }
    NoneShown(Apply(st2, raise), now, s.agent);
  }

  lemma Nothing(st: State, a: AgentId, now: int)
    ensures Run(st, []) == st && Log([]) == [] && HighWater(st, [], a) == 0 && ClockForward([], now)
  {
  }

  lemma NothingAccepted(t: Timed, a: AgentId)
    requires !t.op.Put? && !t.op.PutBatch?
    ensures Accepted(t) == [] && AllOf(Accepted(t), a) == map[]
  {
  }

  lemma RetentionSet(st: State, t: Timed)
    requires t.op.SetRetentionTo? && MILLISECOND <= t.op.requested <= MAX_RETENTION
    ensures Apply(st, t).retention == t.op.requested
  {
  }

  lemma RetentionKept(st: State, t: Timed)
    requires !t.op.SetRetentionTo?
    ensures Apply(st, t).retention == st.retention
  {
  }

  lemma LaterClock(ops: seq<Timed>, now: int, later: int)
    requires ClockForward(ops, now) && now <= later
    ensures ClockForward(ops, later)
  {
  }

  lemma NoneShown(st: State, now: int, a: AgentId)
    requires forall k :: k !in SeriesOf(st.series, a)
    ensures Latest(st, now, a) == None
  {
    var m := SeriesOf(st.series, a);
    forall k
      ensures k !in m.Keys
    {
      assert k !in m;
    }
    EmptyIfNoMember(m.Keys);
    assert m == map[];
  }

  /** A run with high-water mark `h`, read at cutoff `c` by a clock that never ran backwards. */
  ghost predicate ReadBack(retention: int, ops: seq<Timed>, now: int, a: AgentId, h: int, c: int)
  {
    && ClockForward(ops, now) && HighWater(Empty(retention), ops, a) == h
    && Cutoff(now, Run(Empty(retention), ops).retention) == c
  }

  lemma {:induction false} RetentionBounded(retention: int, ops: seq<Timed>)
    ensures MILLISECOND <= Run(Empty(retention), ops).retention <= MAX_RETENTION
    decreases |ops|
  {
    if ops != [] {
      RetentionBounded(retention, ops[..|ops| - 1]);
    }
  }

  lemma {:induction false} MarkBehindClock(retention: int, ops: seq<Timed>, now: int, a: AgentId)
    requires ClockForward(ops, now)
    ensures HighWater(Empty(retention), ops, a) <= Cutoff(now, MILLISECOND)
    decreases |ops|
  {
    if ops != [] {
      var init, last := ops[..|ops| - 1], ops[|ops| - 1];
      MarkBehindClock(retention, init, last.now, a);
      CompactionCutoffInForce(Run(Empty(retention), init), last, a);
      RetentionBounded(retention, ops);
      CutoffMonotone(last.now, now, Run(Empty(retention), ops).retention, MILLISECOND);
      CutoffMonotone(last.now, now, MILLISECOND, MILLISECOND);
    }
  }

  /** The condition is exact for reads the store really makes: with a forward clock, all reads
      at cutoff `c` after a high-water mark `h` agree if and only if the cutoff is not below
      the mark, or so far below that no admissible retention reaches it. */
  lemma {:induction false} ReadsAgreeExactlyFromHighWater(retention: int, h: int, c: int, a: AgentId)
    requires 0 <= c
    ensures (forall ops, now | ReadBack(retention, ops, now, a, h, c) :: AllReadsAgree(retention, ops, now, a))
            <==> h <= c || MAX_RETENTION - MILLISECOND < h - c
  {
    hide HighWater, Run, ClockForward, Reference, ReadsMatch, Latest;
    forall ops, now | ReadBack(retention, ops, now, a, h, c) && (h <= c || MAX_RETENTION - MILLISECOND < h - c)
      ensures AllReadsAgree(retention, ops, now, a)
    {
      MarkBehindClock(retention, ops, now, a);
      RetentionBounded(retention, ops);
      ReadsAgree(retention, ops, now, a);
    }
    if c < h && h - c <= MAX_RETENTION - MILLISECOND {
      var ops, now := DroppedSamplesStayDropped(retention, h, c, a);
      MissedLatest(Run(Empty(retention), ops), now, a, Reference(Log(ops), a, c));
      assert ReadBack(retention, ops, now, a, h, c) && !AllReadsAgree(retention, ops, now, a);
    }
  }

  lemma MissedLatest(st: State, now: int, a: AgentId, live: Series)
    requires Latest(st, now, a) == None && live != map[]
    ensures !ReadsMatch(st, now, a, live)
  {
  }

  /** What a compaction at `h` leaves of a sample written at `c` before. */
  lemma {:induction false} ForgottenBelowMark(retention: int, h: int, c: int, a: AgentId)
    returns (ops: seq<Timed>)
    requires 0 <= c < h
    ensures HighWater(Empty(retention), ops, a) == h && !AgreesAt(retention, ops, a, c)
  {
    hide Apply, Run, Log, HighWater, AllOf, Reference;
    var st0 := Empty(retention);
    var s := Sample(a, c, Null);
    var put, compact := Timed(c + st0.retention, Put(s)), Timed(h + st0.retention, CompactNow);
    ops := [put] + [compact];
    Nothing(st0, a, 0);
    OneMore(st0, [], put, a, 0);
    OneMore(st0, [put], compact, a, 0);
    assert [] + [put] == [put];
    PutOne(st0, put, s);
    if c in SeriesOf(Run(st0, ops).series, a) {
      KeysAfter(Apply(st0, put), compact, a, c);
    }
    assert Log(ops) == [s];
    SoleReference(s);
  }

  lemma PutOne(st: State, t: Timed, s: Sample)
    requires t.op == Put(s) && s.fields == Null && 0 <= s.at <= t.now
    ensures Accepted(t) == [s] && s.agent in AgentsOf([s])
    ensures AllOf([s], s.agent) == map[s.at := s.fields]
    ensures Apply(st, t).retention == st.retention
  {
    assert s in [s];
    SoleSample(s);
  }

  lemma SoleSample(s: Sample)
    ensures AllOf([s], s.agent) == map[s.at := s.fields]
  {
    assert [s][..0] == [];
    assert AllOf([], s.agent) == map[];
  }

  lemma SoleReference(s: Sample)
    ensures s.at in Reference([s], s.agent, s.at)
  {
    SoleSample(s);
    KeepNewestAll(AllOf([s], s.agent), MAX_SAMPLES_PER_AGENT);
  }

  lemma CompactedKeys(m: Series, cutoff: int)
    ensures forall t :: t in Compacted(m, cutoff) ==> t in m && cutoff <= t
  {
  }

  /** The same for the stored series, at any cutoff: it agrees at `c` in every run with mark
      `h` if and only if the cutoff is not below the mark. */
  lemma {:induction false} AgreementExactlyFromHighWater(retention: int, h: int, c: int, a: AgentId)
    requires 0 <= c
    ensures (forall ops | HighWater(Empty(retention), ops, a) == h :: AgreesAt(retention, ops, a, c)) <==> h <= c
  {
    if h <= c {
      forall ops | HighWater(Empty(retention), ops, a) == h
        ensures AgreesAt(retention, ops, a, c)
      {
        EvictionUnobservable(retention, ops, a, c);
      }
    } else {
      var ops := ForgottenBelowMark(retention, h, c, a);
    }
  }

  // ---- Batches, bounds, idempotence ----

  function Puts(now: int, samples: seq<Sample>): seq<Timed>
  {
    seq(|samples|, i requires 0 <= i < |samples| => Timed(now, Put(samples[i])))
  }

  lemma {:induction false} SplitBatchOnAgent(m: Series, init: seq<Sample>, last: Sample, c: int, a: AgentId)
    ensures var whole := if a in AgentsOf(init + [last]) then Compacted(m + AllOf(init + [last], a), c) else m;
            var mid := if a in AgentsOf(init) then Compacted(m + AllOf(init, a), c) else m;
            var end := if a in AgentsOf([last]) then Compacted(mid + AllOf([last], a), c) else mid;
            whole == end
    ensures AgentsOf(init + [last]) == AgentsOf(init) + AgentsOf([last])
  {
    hide AgentsOf, AllOf, Compacted;
    AgentsOfConcat(init, [last]);
    AllOfConcat(init, [last], a);
    AgentsOfAll([last], a);
    AgentsOfAll(init, a);
    var x, y := AllOf(init, a), AllOf([last], a);
    assert m + (x + y) == (m + x) + y;
    CompactedAbsorbs(m + x, y, c);
    if a !in AgentsOf(init) {
      assert m + x == m;
    }
    if a !in AgentsOf([last]) {
      assert x + y == x;
    }
  }

  lemma AgentsOfConcat(x: seq<Sample>, y: seq<Sample>)
    ensures AgentsOf(x + y) == AgentsOf(x) + AgentsOf(y)
  {
  }

  lemma {:induction false} BatchThenPut(st: State, now: int, samples: seq<Sample>, a: AgentId)
    requires samples != [] && ValidBatch(samples, now)
    ensures var init, last := samples[..|samples| - 1], samples[|samples| - 1];
            var x := Apply(st, Timed(now, PutBatch(samples))).series;
            var y := Apply(Apply(st, Timed(now, PutBatch(init))), Timed(now, Put(last))).series;
            (a in x <==> a in y) && (a in x ==> x[a] == y[a])
  {
    hide Apply, Compacted, AllOf;
    var init, last := samples[..|samples| - 1], samples[|samples| - 1];
    var c := Cutoff(now, st.retention);
    var whole, most, one := Timed(now, PutBatch(samples)), Timed(now, PutBatch(init)), Timed(now, Put(last));
    var mid := Apply(st, most);
    ApplyOnAgent(st, whole, a);
    ApplyOnAgent(st, most, a);
    ApplyOnAgent(mid, one, a);
    assert samples == init + [last];
    assert Accepted(one) == [last] && Accepted(most) == init;
    SplitBatchOnAgent(SeriesOf(st.series, a), init, last, c, a);
  }

  /** A valid batch leaves the state that its samples would leave one at a time, in order. */
  lemma {:induction false} BatchIsSequential(st: State, now: int, samples: seq<Sample>)
    requires ValidBatch(samples, now)
    ensures Apply(st, Timed(now, PutBatch(samples))) == Run(st, Puts(now, samples))
    decreases |samples|
  {
    if samples == [] {
      CompactNone(st.series, Cutoff(now, st.retention));
      assert AgentsOf(samples) == {};
    } else {
      var init, last := samples[..|samples| - 1], samples[|samples| - 1];
      BatchIsSequential(st, now, init);
      assert Puts(now, samples)[..|samples| - 1] == Puts(now, init);
      var x := Apply(st, Timed(now, PutBatch(samples)));
      var y := Apply(Apply(st, Timed(now, PutBatch(init))), Timed(now, Put(last)));
      forall a: AgentId
        ensures (a in x.series <==> a in y.series) && (a in x.series ==> x.series[a] == y.series[a])
      {
        BatchThenPut(st, now, samples, a);
      }
      assert x.series == y.series;
    }
  }

  lemma {:induction false} CompactingAgainDropsNothing(series: map<AgentId, Series>, cutoff: int)
    ensures var once := CompactAgents(series, series.Keys, cutoff);
            CompactAgents(once, once.Keys, cutoff) == once
  {
    forall a | a in series
      ensures Compacted(Compacted(series[a], cutoff), cutoff) == Compacted(series[a], cutoff)
    {
      CompactedIdempotent(series[a], cutoff);
    }
  }

  ghost predicate Bounded(st: State)
  {
    forall a | a in st.series :: 0 < |st.series[a]| <= MAX_SAMPLES_PER_AGENT
  }

  /** In every reachable state each agent holds between one sample and the cap. */
  lemma {:induction false} RunBounded(retention: int, ops: seq<Timed>)
    ensures Bounded(Run(Empty(retention), ops))
    decreases |ops|
  {
    if ops != [] {
      RunBounded(retention, ops[..|ops| - 1]);
      ApplyBounded(Run(Empty(retention), ops[..|ops| - 1]), ops[|ops| - 1]);
    }
  }

  lemma CompactedSize(m: Series, cutoff: int)
    ensures |Compacted(m, cutoff)| <= MAX_SAMPLES_PER_AGENT
  {
    NewestSize(Since(m, cutoff).Keys, MAX_SAMPLES_PER_AGENT);
    assert Compacted(m, cutoff).Keys == Newest(Since(m, cutoff).Keys, MAX_SAMPLES_PER_AGENT);
  }

  lemma {:induction false} ApplyBounded(st: State, t: Timed)
    requires Bounded(st)
    ensures Bounded(Apply(st, t))
  {
    forall a | a in Apply(st, t).series
      ensures 0 < |Apply(st, t).series[a]| <= MAX_SAMPLES_PER_AGENT
    {
      ApplyOnAgent(st, t, a);
      match CompactionCutoff(st, t, a)
      case None =>
      case Some(c) =>
        CompactedSize(SeriesOf(st.series, a) + AllOf(Accepted(t), a), c);
        assert Apply(st, t).series[a] != map[];
    }
  }
}
