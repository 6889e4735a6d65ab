/** `mapWithConcurrency`: a bounded pool of workers that share one index. Each worker claims
    an index, waits for its mapper, stores the result and goes on; the stretches between
    awaits interleave in any order. The mapper's results are given by `mapper`. */
module WorkerPool {
  import opened Wrappers

  /** A worker waits for the mapper of an index, or has returned. */
  datatype Worker = Waiting(index: nat) | Done

  datatype State<R> = State(nextIndex: nat, results: seq<Option<R>>, workers: seq<Worker>)

  /** `min(max(1, floor(limit)), n)`, for an integer limit. */
  function WorkerCount(limit: int, n: nat): (count: nat)
    ensures n > 0 ==> 1 <= count <= n
    ensures count <= if limit < 1 then 1 else limit
  {
    var wanted := if limit < 1 then 1 else limit;
    if wanted < n then wanted else n
  }

  /** A worker's loop head: claim the next index, or finish. */
  function Claim<R>(s: State<R>, w: nat, n: nat): State<R>
    requires w < |s.workers|
  {
    if s.nextIndex < n then s.(nextIndex := s.nextIndex + 1, workers := s.workers[w := Waiting(s.nextIndex)])
    else s.(workers := s.workers[w := Done])
  }

  /** A mapper settles: its worker stores the result and runs on to its next await. */
  function Resume<R>(s: State<R>, w: nat, n: nat, mapper: nat -> R): State<R>
  {
    if w < |s.workers| && s.workers[w].Waiting? && s.workers[w].index < |s.results| then
      var i := s.workers[w].index;
      Claim(s.(results := s.results[i := Some(mapper(i))]), w, n)
    else s
  }

  /** Workers are started one after the other; each runs to its first await. */
  function Started<R>(n: nat, count: nat): State<R>
    decreases count
  {
    if count == 0 then State(0, seq(n, i => None), [])
    else
      var s := Started<R>(n, count - 1);
      Claim(s.(workers := s.workers + [Done]), |s.workers|, n)
  }

  function Run<R>(n: nat, count: nat, schedule: seq<nat>, mapper: nat -> R): State<R>
  {
    if schedule == [] then Started(n, count)
    else Resume(Run(n, count, schedule[..|schedule| - 1], mapper), schedule[|schedule| - 1], n, mapper)
  }

  /** Every claimed index is either finished, with its own result, or held by exactly one
      worker; unclaimed indices are untouched. */
  ghost predicate Inv<R>(s: State<R>, n: nat, count: nat, mapper: nat -> R)
  {
    && s.nextIndex <= n && |s.results| == n && |s.workers| == count
    && (forall w | 0 <= w < count && s.workers[w].Waiting? ::
          s.workers[w].index < s.nextIndex && s.results[s.workers[w].index] == None)
    && (forall v, w | 0 <= v < w < count && s.workers[v].Waiting? && s.workers[w].Waiting? ::
          s.workers[v].index != s.workers[w].index)
    && (forall i | 0 <= i < n && s.results[i].Some? :: i < s.nextIndex && s.results[i].value == mapper(i))
    && (forall i | 0 <= i < s.nextIndex && s.results[i].None? ::
          exists w :: 0 <= w < count && s.workers[w] == Waiting(i))
    && (forall w | 0 <= w < count && s.workers[w].Done? :: s.nextIndex == n)
  }

  /** The invariant while worker `w` stands at its loop head and holds no index. */
  ghost predicate AtLoopHead<R>(s: State<R>, w: nat, n: nat, count: nat, mapper: nat -> R)
  {
    && s.nextIndex <= n && |s.results| == n && |s.workers| == count && w < count
    && (forall v | 0 <= v < count && v != w && s.workers[v].Waiting? ::
          s.workers[v].index < s.nextIndex && s.results[s.workers[v].index] == None)
    && (forall u, v | 0 <= u < v < count && u != w && v != w && s.workers[u].Waiting? && s.workers[v].Waiting? ::
          s.workers[u].index != s.workers[v].index)
    && (forall i | 0 <= i < n && s.results[i].Some? :: i < s.nextIndex && s.results[i].value == mapper(i))
    && (forall i | 0 <= i < s.nextIndex && s.results[i].None? ::
          exists v :: 0 <= v < count && v != w && s.workers[v] == Waiting(i))
    && (forall v | 0 <= v < count && v != w && s.workers[v].Done? :: s.nextIndex == n)
  }

  lemma {:induction false} ClaimKeeps<R>(s: State<R>, w: nat, n: nat, count: nat, mapper: nat -> R)
    requires AtLoopHead(s, w, n, count, mapper)
    ensures Inv(Claim(s, w, n), n, count, mapper)
  {
    var t := Claim(s, w, n);
    forall i | 0 <= i < t.nextIndex && t.results[i].None?
      ensures exists v :: 0 <= v < count && t.workers[v] == Waiting(i)
    {
      ClaimHeld(s, w, n, count, mapper, i);
    }
  }

  lemma {:induction false} ClaimHeld<R>(s: State<R>, w: nat, n: nat, count: nat, mapper: nat -> R, i: nat)
    requires AtLoopHead(s, w, n, count, mapper)
    requires var t := Claim(s, w, n); i < t.nextIndex && t.results[i].None?
    ensures exists v :: 0 <= v < count && Claim(s, w, n).workers[v] == Waiting(i)
  {
    var t := Claim(s, w, n);
    if i == s.nextIndex {
      assert t.workers[w] == Waiting(i);
    } else {
      var v :| 0 <= v < count && v != w && s.workers[v] == Waiting(i);
      assert t.workers[v] == Waiting(i);
    }
  }

  lemma {:induction false} StoreFreesWorker<R>(s: State<R>, w: nat, n: nat, count: nat, mapper: nat -> R)
    requires Inv(s, n, count, mapper) && w < count && s.workers[w].Waiting?
    ensures var k := s.workers[w].index;
            AtLoopHead(s.(results := s.results[k := Some(mapper(k))]), w, n, count, mapper)
  {
    var k := s.workers[w].index;
    var stored := s.(results := s.results[k := Some(mapper(k))]);
    forall i | 0 <= i < stored.nextIndex && stored.results[i].None?
      ensures exists v :: 0 <= v < count && v != w && stored.workers[v] == Waiting(i)
    {
      var v :| 0 <= v < count && s.workers[v] == Waiting(i);
      assert v != w;
    }
  }

  lemma {:induction false} ResumeKeeps<R>(s: State<R>, w: nat, n: nat, count: nat, mapper: nat -> R)
    requires Inv(s, n, count, mapper)
    ensures Inv(Resume(s, w, n, mapper), n, count, mapper)
  {
    hide Claim, AtLoopHead;
    if w < |s.workers| && s.workers[w].Waiting? && s.workers[w].index < |s.results| {
      var k := s.workers[w].index;
      StoreFreesWorker(s, w, n, count, mapper);
      ClaimKeeps(s.(results := s.results[k := Some(mapper(k))]), w, n, count, mapper);
    }
  }

  lemma {:induction false} AddWorker<R>(s: State<R>, n: nat, count: nat, mapper: nat -> R)
    requires Inv(s, n, count, mapper) && forall w | 0 <= w < count :: s.workers[w].Waiting?
    ensures AtLoopHead(s.(workers := s.workers + [Done]), count, n, count + 1, mapper)
  {
    var t := s.(workers := s.workers + [Done]);
    assert forall w | 0 <= w < count :: t.workers[w] == s.workers[w];
    forall i | 0 <= i < t.nextIndex && t.results[i].None?
      ensures exists v :: 0 <= v < count + 1 && v != count && t.workers[v] == Waiting(i)
    {
      var v :| 0 <= v < count && s.workers[v] == Waiting(i);
      assert t.workers[v] == Waiting(i);
    }
  }

  lemma {:induction false} StartedInv<R>(n: nat, count: nat, mapper: nat -> R)
    requires count <= n
    ensures Inv(Started<R>(n, count), n, count, mapper)
    decreases count
  {
    hide Claim, AtLoopHead;
    if count > 0 {
      var s := Started<R>(n, count - 1);
      StartedInv<R>(n, count - 1, mapper);
      StartedClaims<R>(n, count - 1);
      AddWorker(s, n, count - 1, mapper);
      ClaimKeeps(s.(workers := s.workers + [Done]), count - 1, n, count, mapper);
    }
  }

  lemma {:induction false} StartedClaims<R>(n: nat, count: nat)
    requires count <= n
    ensures Started<R>(n, count).nextIndex == count && |Started<R>(n, count).workers| == count
    ensures forall w | 0 <= w < count :: Started<R>(n, count).workers[w].Waiting?
    decreases count
  {
    if count > 0 {
      StartedClaims<R>(n, count - 1);
    }
  }

  lemma {:induction false} RunInv<R>(n: nat, count: nat, schedule: seq<nat>, mapper: nat -> R)
    requires count <= n
    ensures Inv(Run(n, count, schedule, mapper), n, count, mapper)
    decreases |schedule|
  {
    if schedule == [] {
      StartedInv(n, count, mapper);
    } else {
      RunInv(n, count, schedule[..|schedule| - 1], mapper);
      ResumeKeeps(Run(n, count, schedule[..|schedule| - 1], mapper), schedule[|schedule| - 1], n, count, mapper);
    }
  }

  /** For every limit and every interleaving: no two running mappers work on the same index,
      at most the configured number run, no index is worked on again once finished, and when
      all workers have returned every result is the mapping of its own item. */
  lemma {:induction false} PoolCorrect<R>(n: nat, limit: int, schedule: seq<nat>, mapper: nat -> R)
    requires n > 0
    ensures var s := Run(n, WorkerCount(limit, n), schedule, mapper);
            && |s.workers| == WorkerCount(limit, n) && |s.results| == n
            && (forall v, w | 0 <= v < w < |s.workers| && s.workers[v].Waiting? && s.workers[w].Waiting? ::
                  s.workers[v].index != s.workers[w].index)
            && (forall w | 0 <= w < |s.workers| && s.workers[w].Waiting? ::
                  s.workers[w].index < n && s.results[s.workers[w].index] == None)
            && ((forall w | 0 <= w < |s.workers| :: s.workers[w].Done?) ==>
                  forall i | 0 <= i < n :: s.results[i] == Some(mapper(i)))
  {
    var count := WorkerCount(limit, n);
    RunInv(n, count, schedule, mapper);
    var s := Run(n, count, schedule, mapper);
    if forall w | 0 <= w < |s.workers| :: s.workers[w].Done? {
      forall i | 0 <= i < n
        ensures s.results[i] == Some(mapper(i))
      {
        AllFinished(s, n, count, mapper, i);
      }
    }
  }

  /** The index a worker has just passed to the mapper, if it is waiting for one. */
  function CallOf(w: Worker): seq<nat>
  {
    match w case Waiting(i) => [i] case Done => []
  }

  /** The mapper calls made while the workers start. */
  function StartCalls<R>(n: nat, count: nat): seq<nat>
  {
    if count == 0 then []
    else
      var started := Started<R>(n, count);
      StartCalls<R>(n, count - 1) + CallOf(started.workers[|started.workers| - 1])
  }

  /** Every mapper call of a run, in order: a worker that resumes calls again or returns. */
  function MapperCalls<R>(n: nat, count: nat, schedule: seq<nat>, mapper: nat -> R): seq<nat>
  {
    if schedule == [] then StartCalls<R>(n, count)
    else
      var init, w := schedule[..|schedule| - 1], schedule[|schedule| - 1];
      var s := Run(n, count, init, mapper);
      MapperCalls(n, count, init, mapper) +
      if w < |s.workers| && s.workers[w].Waiting? && s.workers[w].index < |s.results|
      then CallOf(Resume(s, w, n, mapper).workers[w])
      else []
  }

  function UpTo(k: nat): seq<nat>
  {
    seq(k, i => i)
  }

  lemma {:induction false} StartCallsInOrder<R>(n: nat, count: nat)
    requires count <= n
    ensures StartCalls<R>(n, count) == UpTo(count)
    decreases count
  {
    StartedClaims<R>(n, count);
    if count > 0 {
      StartCallsInOrder<R>(n, count - 1);
      StartedClaims<R>(n, count - 1);
    }
  }

  lemma ResumeCalls<R>(s: State<R>, w: nat, n: nat, mapper: nat -> R)
    ensures var t := Resume(s, w, n, mapper);
            if w < |s.workers| && s.workers[w].Waiting? && s.workers[w].index < |s.results|
            then |t.workers| == |s.workers| && UpTo(s.nextIndex) + CallOf(t.workers[w]) == UpTo(t.nextIndex)
            else t == s
  {
  }

  lemma DoneAfterLast<R>(s: State<R>, n: nat, count: nat, mapper: nat -> R)
    requires Inv(s, n, count, mapper)
    ensures (exists w :: 0 <= w < |s.workers| && s.workers[w].Done?) ==> s.nextIndex == n
  {
  }

  /** In every interleaving the mapper is called on 0, 1, 2, … in turn: no index is skipped
      and none is claimed twice. */
  lemma {:induction false} EachIndexClaimedOnce<R>(n: nat, count: nat, schedule: seq<nat>, mapper: nat -> R)
    requires 0 < count <= n
    ensures var s := Run(n, count, schedule, mapper);
            && MapperCalls(n, count, schedule, mapper) == UpTo(s.nextIndex)
            && ((exists w :: 0 <= w < |s.workers| && s.workers[w].Done?) ==> s.nextIndex == n)
    decreases |schedule|
  {
    hide Inv, Resume, UpTo, CallOf;
    RunInv(n, count, schedule, mapper);
    DoneAfterLast(Run(n, count, schedule, mapper), n, count, mapper);
    if schedule == [] {
      StartCallsInOrder<R>(n, count);
      StartedClaims<R>(n, count);
    } else {
      var init, w := schedule[..|schedule| - 1], schedule[|schedule| - 1];
      EachIndexClaimedOnce(n, count, init, mapper);
      ResumeCalls(Run(n, count, init, mapper), w, n, mapper);
    }
  }

  function Open<R>(results: seq<Option<R>>): set<nat>
  {
    set i | 0 <= i < |results| && results[i].None?
  }

  /** Each resumption finishes one index for good. */
  lemma ResumeFinishesOne<R>(s: State<R>, w: nat, n: nat, count: nat, mapper: nat -> R)
    requires Inv(s, n, count, mapper) && w < |s.workers| && s.workers[w].Waiting?
    ensures s.workers[w].index in Open(s.results)
    ensures Open(Resume(s, w, n, mapper).results) == Open(s.results) - {s.workers[w].index}
  {
  }

  /** Runs the pool under an arbitrary scheduler until every worker has returned; it always
      gets there, after one resumption per index. */
  method RunToCompletion<R>(n: nat, count: nat, mapper: nat -> R) returns (s: State<R>, ghost resumptions: nat)
    requires 1 <= count <= n
    ensures Inv(s, n, count, mapper)
    ensures forall w | 0 <= w < |s.workers| :: s.workers[w].Done?
    ensures resumptions == n
  {
    hide Inv, Resume, Open, Started;
    s := Started<R>(n, count);
    resumptions := 0;
    StartedInv(n, count, mapper);
    NoneFinished<R>(n, count);
    OpenSize(s.results);
    while exists w :: 0 <= w < |s.workers| && s.workers[w].Waiting?
      invariant Inv(s, n, count, mapper)
      invariant resumptions + |Open(s.results)| == n
      decreases |Open(s.results)|
    {
      var w :| 0 <= w < |s.workers| && s.workers[w].Waiting?;
      ResumeFinishesOne(s, w, n, count, mapper);
      ResumeKeeps(s, w, n, count, mapper);
      s := Resume(s, w, n, mapper);
      resumptions := resumptions + 1;
    }
    NothingOpen(s, n, count, mapper);
  }

  lemma NothingOpen<R>(s: State<R>, n: nat, count: nat, mapper: nat -> R)
    requires Inv(s, n, count, mapper) && 0 < count
    requires forall w | 0 <= w < |s.workers| :: s.workers[w].Done?
    ensures Open(s.results) == {}
  {
    forall i: nat | i < n
      ensures s.results[i].Some?
    {
      AllFinished(s, n, count, mapper, i);
    }
  }

  lemma {:induction false} NoneFinished<R>(n: nat, count: nat)
    ensures |Started<R>(n, count).results| == n
    ensures forall i | 0 <= i < n :: Started<R>(n, count).results[i].None?
    decreases count
  {
    if count > 0 {
      NoneFinished<R>(n, count - 1);
    }
  }

  lemma {:induction false} OpenSize<R>(results: seq<Option<R>>)
    requires forall i | 0 <= i < |results| :: results[i].None?
    ensures |Open(results)| == |results|
    decreases |results|
  {
    if results != [] {
      var init := results[..|results| - 1];
      OpenSize(init);
      assert Open(results) == Open(init) + {|init|};
    }
  }

  method MapWithConcurrency<T, R>(items: seq<T>, limit: int, mapper: (T, nat) -> R) returns (results: seq<R>)
    ensures |results| == |items|
    ensures forall i | 0 <= i < |items| :: results[i] == mapper(items[i], i)
  {
    if items == [] {
      return [];
    }
    var n := |items|;
    var outcome := (i: nat) => if i < n then mapper(items[i], i) else mapper(items[0], 0);
    ghost var resumptions;
    var s;
    s, resumptions := RunToCompletion(n, WorkerCount(limit, n), outcome);
    forall i: nat | i < n
      ensures s.results[i] == Some(outcome(i))
    {
      AllFinished(s, n, WorkerCount(limit, n), outcome, i);
    }
    results := seq(n, i requires 0 <= i < n && |s.results| == n && s.results[i].Some? => s.results[i].value);
  }

  lemma AllFinished<R>(s: State<R>, n: nat, count: nat, mapper: nat -> R, i: nat)
    requires Inv(s, n, count, mapper) && i < n && 0 < count
    requires forall w | 0 <= w < |s.workers| :: s.workers[w].Done?
    ensures s.results[i] == Some(mapper(i))
  {
    assert s.workers[0].Done?;
    if s.results[i].None? {
      assert false;
    }
  }
}
