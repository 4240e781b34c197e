/**
 Runs of a plan in the terms of the caller: how many workers the request, the processors and the
 files allow, and that no more threads than requested are ever inside analysis code.
 */
module PlannedRuns {
  import opened Sets
  import opened Sums
  import opened Batches
  import opened Scheduler
  import opened SchedulerInvariant
  import opened SchedulerRuns

  /** The limits a run is set up with, file by file until one is large enough for the pool. */
  method SetUp(requested: int, processors: nat, procedures: seq<nat>) returns (limit: nat, workers: nat, helpers: nat)
    ensures var c := Plan(requested, processors, procedures); limit == c.limit && workers == c.workers && helpers == c.helpers
  {
    var executionLimit := requested;
    if executionLimit <= 0 { executionLimit := processors; }
    if executionLimit < 1 { executionLimit := 1; }
    limit, workers, helpers := executionLimit, executionLimit, 0;
    if workers > |procedures| { workers := |procedures|; }
    for i := 0 to |procedures|
      invariant helpers == 0 && forall n <- procedures[..i] :: n < PROCEDURE_PARALLEL_THRESHOLD
    {
      if procedures[i] >= PROCEDURE_PARALLEL_THRESHOLD {
        if limit > 1 { helpers := limit; }
        assert procedures[i] in procedures;
        return;
      }
      assert procedures[..i + 1] == procedures[..i] + [procedures[i]];
    }
    assert procedures[..|procedures|] == procedures;
  }

  /** The threads inside analysis code. */
  function Inside(s: State): set<nat> { set i: nat | i < |s.threads| && s.threads[i].Holds() }

  lemma {:induction false} InsideAreCounted(threads: seq<Pc>)
    ensures |set i: nat | i < |threads| && threads[i].Holds()| == Sum(threads, Holding())
  {
    if threads != [] {
      var n := |threads| - 1;
      var front := threads[..n];
      var all, some := set i: nat | i < |threads| && threads[i].Holds(), set i: nat | i < |front| && front[i].Holds();
      InsideAreCounted(front);
      assert all == some + (if threads[n].Holds() then {n} else {});
      assert n !in some;
    }
  }

  /** A limit that was asked for is kept; otherwise the processors, and at least one, are the limit. */
  lemma NeverMoreThanRequested(requested: int, processors: nat, procedures: seq<nat>, run: seq<State>)
    requires procedures != [] && Run(Plan(requested, processors, procedures), run)
    ensures requested > 0 ==> |Inside(Last(run))| <= requested
    ensures requested <= 0 && processors > 0 ==> |Inside(Last(run))| <= processors
    ensures requested <= 0 && processors == 0 ==> |Inside(Last(run))| <= 1
  {
    PlanIsValid(requested, processors, procedures);
    PermitsConserved(Plan(requested, processors, procedures), run);
    InsideAreCounted(Last(run).threads);
  }

  /** There is a file worker for every permit but no more than files, and a pool worker for every permit once some file is large. */
  lemma ThreadsOfPlan(requested: int, processors: nat, procedures: seq<nat>, permits: nat, run: seq<State>)
    requires procedures != [] && Run(Plan(requested, processors, procedures), run)
    requires if requested > 0 then permits == requested else if processors > 0 then permits == processors else permits == 1
    ensures var c := Plan(requested, processors, procedures);
      && c.limit == permits
      && (permits <= |procedures| ==> c.workers == permits) && (permits > |procedures| ==> c.workers == |procedures|)
      && (permits >= 2 && (exists n <- procedures :: n >= 500) ==> c.helpers == permits)
      && (permits < 2 || (forall n <- procedures :: n < 500) ==> c.helpers == 0)
    ensures var c, threads := Plan(requested, processors, procedures), Last(run).threads;
      && |threads| == c.workers + c.helpers
      && forall i :: 0 <= i < |threads| ==> (threads[i].OfPool() <==> i >= c.workers)
  {
    PlanIsValid(requested, processors, procedures);
    WrittenOnce(Plan(requested, processors, procedures), run);
  }

  /** The request is used up: as long as enough files wait, that many threads can be inside at once. */
  lemma LimitIsReached(requested: int, processors: nat, procedures: seq<nat>) returns (run: seq<State>)
    requires requested > 0 && |procedures| >= requested
    ensures Run(Plan(requested, processors, procedures), run) && |Inside(Last(run))| == requested
  {
    var c := Plan(requested, processors, procedures);
    PlanIsValid(requested, processors, procedures);
    run := AllInside(c, c.workers);
    InsideAreCounted(Last(run).threads);
    FirstInside(c.workers, Last(run).threads);
  }

  /** The first `k` file workers analyse the first `k` files and the others wait. */
  ghost predicate Filled(c: Config, s: State, k: nat) {
    && Shaped(c, s) && k <= c.workers && s.main == Sending(k) && s.permits == k && !WorkDone(s)
    && (forall i :: 0 <= i < k ==> s.threads[i] == Analyzing(i))
    && (forall i :: k <= i < c.workers ==> s.threads[i] == Idle)
    && (forall i :: c.workers <= i < |s.threads| ==> s.threads[i] == Ready)
  }

  lemma {:induction false} AllInside(c: Config, k: nat) returns (run: seq<State>)
    requires Valid(c) && k <= c.workers
    ensures Run(c, run) && Filled(c, Last(run), k)
  {
    if k == 0 {
      InitialIsShaped(c);
      run := [Initial(c)];
    } else {
      var before := AllInside(c, k - 1);
      var t, u, v := FillOne(c, Last(before), k - 1);
      run := before + [t, u, v];
    }
  }

  /** One more file is sent, its worker takes a permit, and sending goes on. */
  lemma FillOne(c: Config, s: State, k: nat) returns (t: State, u: State, v: State)
    requires Valid(c) && k < c.workers && Filled(c, s, k)
    ensures Step(c, s, t) && Step(c, t, u) && Step(c, u, v) && Filled(c, v, k + 1)
  {
    t := SendStep(c, s, k);
    u := WorkerDoes(c, t, k, AcquireForFile);
    WorkerKeepsShape(c, t, k, AcquireForFile);
    assert Enabled(c, t, ByWorker(k, AcquireForFile)) && Do(c, t, ByWorker(k, AcquireForFile)) == u;
    v := CheckStep(c, u);
  }

  lemma SendStep(c: Config, s: State, k: nat) returns (t: State)
    requires Valid(c) && k < c.workers && Filled(c, s, k)
    ensures Step(c, s, t) && Shaped(c, t) && t == Moved(s, k, Got(k)).(main := Checking(k))
  {
    t := MainDoes(c, s, SendFile(k));
    MainKeepsShape(c, s, SendFile(k));
    assert Enabled(c, s, ByMain(SendFile(k))) && Do(c, s, ByMain(SendFile(k))) == t;
  }

  lemma CheckStep(c: Config, u: State) returns (v: State)
    requires Shaped(c, u) && u.main.Checking? && !WorkDone(u)
    ensures Step(c, u, v) && Shaped(c, v) && v == u.(main := Sending(u.main.index + 1))
  {
    v := MainDoes(c, u, CheckSent);
    MainKeepsShape(c, u, CheckSent);
    assert Enabled(c, u, ByMain(CheckSent)) && Do(c, u, ByMain(CheckSent)) == v;
  }

  lemma {:induction false} FirstInside(k: nat, threads: seq<Pc>)
    requires k <= |threads| && (forall i :: 0 <= i < k ==> threads[i].Holds()) && (forall i :: k <= i < |threads| ==> !threads[i].Holds())
    ensures Sum(threads, Holding()) == k
  {
    if threads != [] { FirstInside(if k < |threads| then k else k - 1, threads[..|threads| - 1]); }
  }
}
