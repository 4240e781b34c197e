/**
 Whole runs of the scheduler: every run is finite, no state is stuck before all work has
 ended, and a run that returns no error has analysed everything exactly once.
 */
module SchedulerRuns {
  import opened Batches
  import opened Sums
  import opened Scheduler
  import opened SchedulerInvariant

  ghost predicate Run(c: Config, run: seq<State>) {
    run != [] && run[0] == Initial(c) && forall i :: 0 < i < |run| ==> Step(c, run[i - 1], run[i])
  }

  function Last(run: seq<State>): State
    requires run != []
  {
    run[|run| - 1]
  }

  lemma {:induction false} RunKeepsInv(c: Config, run: seq<State>)
    requires Valid(c) && Run(c, run)
    ensures Inv(c, Last(run))
    decreases |run|
  {
    if |run| == 1 {
      InitialHolds(c);
    } else {
      RunKeepsInv(c, run[..|run| - 1]);
      StepKeepsInv(c, run[|run| - 2], run[|run| - 1]);
    }
  }

  // ---- Every run is finite -------------------------------------------------------------

  function BatchesOf(c: Config, f: nat): nat { if f < |c.batches| then c.batches[f] else 0 }

  /** Batches of `f` not yet handed over once `k` have been. */
  function Left(c: Config, f: nat, k: nat): nat { if k <= BatchesOf(c, f) then BatchesOf(c, f) - k else 0 }

  /** How many steps a thread may still take, with those it sets off in others. */
  function Weight(c: Config): Pc -> nat {
    (pc: Pc) =>
      match pc
      case Idle => 1
      case Got(f) => 8 + 6 * BatchesOf(c, f)
      case Analyzing(f) => 7 + 6 * BatchesOf(c, f)
      case Submitting(f, k) => 6 + 6 * Left(c, f, k)
      case Offering(f, k) => 5 + 6 * Left(c, f, k)
      case Waiting(_) => 5
      case Reacquiring(_, _) => 4
      case Finishing(_, _) => 3
      case Storing(_, _) => 2
      case Left => 0
      case Ready => 1
      case Acquiring(_, _) => 4
      case Running(_, _) => 3
      case Completing(_, _, _) => 2
      case Gone => 0
  }

  /** The same for the files not yet sent. */
  function Unsent(c: Config, i: nat): nat
    decreases |c.batches| - i
  {
    if i >= |c.batches| then 0 else 10 + 6 * c.batches[i] + Unsent(c, i + 1)
  }

  function MainWeight(c: Config, m: Main): nat {
    match m
    case Sending(i) => 5 + Unsent(c, i)
    case Checking(i) => 6 + Unsent(c, i + 1)
    case Joining(_) => 4
    case Closing(_) => 3
    case Draining(_) => 2
    case Returned(_) => 1
  }

  function Measure(c: Config, s: State): nat {
    Sum(s.threads, Weight(c)) + MainWeight(c, s.main) + if s.cancelled then 0 else 1
  }

  lemma WorkerLighter(c: Config, s: State, i: nat, a: WorkerAction)
    requires Shaped(c, s) && i < c.workers && WorkerMay(c, s, s.threads[i], a) && !a.SendBatch?
    ensures var t := WorkerDoes(c, s, i, a);
      Weight(c)(t.threads[i]) < Weight(c)(s.threads[i]) && t.main == s.main && t.cancelled == s.cancelled
  {
  }

  lemma HandOverWeights(c: Config, f: nat, k: nat)
    requires k < BatchesOf(c, f)
    ensures Weight(c)(Submitting(f, k + 1)) + Weight(c)(Acquiring(f, k)) < Weight(c)(Offering(f, k)) + Weight(c)(Ready)
  {
  }

  lemma LighterTogether(s: State, i: nat, h: nat, pc: Pc, to: Pc, g: Pc -> nat)
    requires i < |s.threads| && h < |s.threads| && i != h && g(pc) + g(to) < g(s.threads[i]) + g(s.threads[h])
    ensures Sum(Moved(Moved(s, i, pc), h, to).threads, g) < Sum(s.threads, g)
  {
    HandOver(s, i, h, pc, to, g);
  }

  lemma HandOverLighter(c: Config, s: State, i: nat, h: nat)
    requires Shaped(c, s) && i < c.workers && WorkerMay(c, s, s.threads[i], SendBatch(h))
    ensures Measure(c, WorkerDoes(c, s, i, SendBatch(h))) < Measure(c, s)
  {
    HandOverMoves(c, s, i, h);
    HandingLighter(c, s, i, h, s.threads[i].file, s.threads[i].batch);
  }

  lemma HandingLighter(c: Config, s: State, i: nat, h: nat, f: nat, k: nat)
    requires i < |s.threads| && h < |s.threads| && s.threads[i] == Offering(f, k) && s.threads[h] == Ready && k < BatchesOf(c, f)
    ensures Measure(c, Moved(Moved(s, i, Submitting(f, k + 1)), h, Acquiring(f, k))) < Measure(c, s)
  {
    HandOverWeights(c, f, k);
    LighterTogether(s, i, h, Submitting(f, k + 1), Acquiring(f, k), Weight(c));
  }

  lemma WorkerDecreases(c: Config, s: State, i: nat, a: WorkerAction)
    requires Shaped(c, s) && i < c.workers && WorkerMay(c, s, s.threads[i], a)
    ensures Measure(c, WorkerDoes(c, s, i, a)) < Measure(c, s)
  {
    if a.SendBatch? {
      HandOverLighter(c, s, i, a.h);
    } else {
      WorkerAlone(c, s, i, a);
      WorkerLighter(c, s, i, a);
      SumUpdate(s.threads, i, WorkerDoes(c, s, i, a).threads[i], Weight(c));
    }
  }

  lemma HelperLighter(c: Config, s: State, i: nat, a: HelperAction)
    requires Shaped(c, s) && c.workers <= i < |s.threads| && HelperMay(c, s, s.threads[i], a)
    ensures var t := HelperDoes(c, s, i, a);
      && Weight(c)(t.threads[i]) < Weight(c)(s.threads[i]) && t.threads == s.threads[i := t.threads[i]]
      && t.main == s.main && t.cancelled == s.cancelled
  {
  }

  lemma HelperDecreases(c: Config, s: State, i: nat, a: HelperAction)
    requires Shaped(c, s) && c.workers <= i < |s.threads| && HelperMay(c, s, s.threads[i], a)
    ensures Measure(c, HelperDoes(c, s, i, a)) < Measure(c, s)
  {
    HelperLighter(c, s, i, a);
    SumUpdate(s.threads, i, HelperDoes(c, s, i, a).threads[i], Weight(c));
  }

  lemma SendingLighter(c: Config, i: nat)
    requires i < |c.batches|
    ensures Weight(c)(Got(i)) + MainWeight(c, Checking(i)) < Weight(c)(Idle) + MainWeight(c, Sending(i))
  {
  }

  lemma MainDecreases(c: Config, s: State, a: MainAction)
    requires Shaped(c, s) && MainMay(c, s, a)
    ensures Measure(c, MainDoes(c, s, a)) < Measure(c, s)
  {
    if a.SendFile? {
      SendingLighter(c, s.main.index);
      SumUpdate(s.threads, a.w, Got(s.main.index), Weight(c));
    }
  }

  lemma StepDecreases(c: Config, s: State, t: State)
    requires Step(c, s, t)
    ensures Measure(c, t) < Measure(c, s)
  {
    var a :| Enabled(c, s, a) && t == Do(c, s, a);
    match a
    case ByMain(m) => MainDecreases(c, s, m);
    case ByWorker(i, w) => WorkerDecreases(c, s, i, w);
    case ByHelper(i, h) => HelperDecreases(c, s, i, h);
  }

  lemma {:induction false} RunIsBounded(c: Config, run: seq<State>)
    requires Run(c, run)
    ensures |run| - 1 + Measure(c, Last(run)) <= Measure(c, Initial(c))
    decreases |run|
  {
    if |run| > 1 {
      RunIsBounded(c, run[..|run| - 1]);
      StepDecreases(c, run[|run| - 2], run[|run| - 1]);
    }
  }

  // ---- No state is stuck ---------------------------------------------------------------

  /** All work has ended. */
  ghost predicate Ended(s: State) {
    s.main.Returned? && forall i :: 0 <= i < |s.threads| ==> s.threads[i].Left? || s.threads[i].Gone?
  }

  predicate Busy(pc: Pc) { pc.Analyzing? || pc.Submitting? || pc.Finishing? || pc.Storing? || pc.Running? || pc.Completing? }

  predicate NeedsPermit(pc: Pc) { pc.Got? || pc.Reacquiring? || pc.Acquiring? }

  lemma BusyMoves(c: Config, s: State, i: nat) returns (a: Action)
    requires Inv(c, s) && i < |s.threads| && Busy(s.threads[i])
    ensures Enabled(c, s, a) && a != ByMain(CancelParent)
  {
    match s.threads[i]
    case Analyzing(f) => a := ByWorker(i, if c.batches[f] == 0 then AnalyzeSerially(Success) else Yield);
    case Submitting(f, k) => a := ByWorker(i, if k < c.batches[f] then AddBatch else NoMoreBatches);
    case Finishing(f, out) =>
      a := ByWorker(i, FinishFile(if out.Success? then Success else out));
    case Storing(_, _) => a := ByWorker(i, Store);
    case Running(_, _) => a := ByHelper(i, RunBatch(Success));
    case Completing(f, _, _) =>
      assert GroupBalances(s, f);
      SumAtLeast(s.threads, i, Pending(f));
      a := ByHelper(i, Complete);
  }

  /** When nobody is inside analysis code, a permit is free. */
  lemma PermitMoves(c: Config, s: State, i: nat) returns (a: Action)
    requires Inv(c, s) && i < |s.threads| && NeedsPermit(s.threads[i])
    requires forall j :: 0 <= j < |s.threads| ==> !Busy(s.threads[j])
    ensures Enabled(c, s, a) && a != ByMain(CancelParent)
  {
    SumZero(s.threads, Holding());
    match s.threads[i]
    case Got(_) => a := ByWorker(i, AcquireForFile);
    case Reacquiring(_, _) => a := ByWorker(i, Reacquire);
    case Acquiring(_, _) => a := ByHelper(i, AcquireForBatch);
  }

  /** A worker that waits for its batches, or for someone to take one. */
  lemma WaitingMoves(c: Config, s: State, i: nat) returns (a: Action)
    requires Inv(c, s) && i < |s.threads| && (s.threads[i].Waiting? || s.threads[i].Offering?)
    requires forall j :: 0 <= j < |s.threads| ==> !Busy(s.threads[j]) && !NeedsPermit(s.threads[j])
    requires forall j :: 0 <= j < |s.threads| && s.threads[j].Offering? ==> s.threads[i].Offering?
    ensures Enabled(c, s, a) && a != ByMain(CancelParent)
  {
    var f := s.threads[i].file;
    assert GroupBalances(s, f);
    if s.threads[i].Waiting? {
      SumZero(s.threads, Pending(f));
      a := ByWorker(i, AwaitBatches);
    } else {
      a := ByWorker(i, SendBatch(c.workers));
      assert c.batches[f] > 0 && s.threads[c.workers].OfPool();
      assert !PoolClosed(s);
    }
  }

  /** All threads are idle or have ended. */
  lemma IdleMoves(c: Config, s: State) returns (a: Action)
    requires Inv(c, s) && !Ended(s)
    requires forall j :: 0 <= j < |s.threads| ==> s.threads[j].Idle? || s.threads[j].Left? || s.threads[j].Ready? || s.threads[j].Gone?
    ensures Enabled(c, s, a) && a != ByMain(CancelParent)
  {
    match s.main
    case Sending(i) =>
      if i == |c.batches| { a := ByMain(CloseJobs); }
      else if WorkDone(s) { a := ByMain(StopSending); }
      else { assert s.threads[0].Idle?; a := ByMain(SendFile(0)); }
    case Checking(_) => a := ByMain(CheckSent);
    case Joining(_) =>
      if i :| 0 <= i < c.workers && s.threads[i].Idle? { a := ByWorker(i, Leave); } else { a := ByMain(JoinWorkers); }
    case Closing(_) => a := ByMain(ClosePool);
    case Draining(_) =>
      if i :| c.workers <= i < |s.threads| && s.threads[i].Ready? { a := ByHelper(i, Quit); } else { a := ByMain(DrainPool); }
    case Returned(_) => assert false;
  }

  /** Until all work has ended some goroutine can go on, whatever has failed or been cancelled. */
  lemma Progress(c: Config, s: State) returns (a: Action)
    requires Inv(c, s) && !Ended(s)
    ensures Enabled(c, s, a) && a != ByMain(CancelParent)
  {
    if i :| 0 <= i < |s.threads| && Busy(s.threads[i]) { a := BusyMoves(c, s, i); }
    else if i :| 0 <= i < |s.threads| && NeedsPermit(s.threads[i]) { a := PermitMoves(c, s, i); }
    else if i :| 0 <= i < |s.threads| && s.threads[i].Offering? { a := WaitingMoves(c, s, i); }
    else if i :| 0 <= i < |s.threads| && s.threads[i].Waiting? { a := WaitingMoves(c, s, i); }
    else { a := IdleMoves(c, s); }
  }

  // ---- What runs achieve ---------------------------------------------------------------

  ghost predicate Stuck(c: Config, s: State)
    requires Shaped(c, s)
  {
    forall a :: Enabled(c, s, a) ==> a == ByMain(CancelParent)
  }

  /** A run that cannot go on has ended: no permit is held and every wait group is empty. */
  lemma MaximalRunsEnd(c: Config, run: seq<State>)
    requires Valid(c) && Run(c, run) && Shaped(c, Last(run)) && Stuck(c, Last(run))
    ensures Ended(Last(run)) && Last(run).permits == 0 && forall f :: 0 <= f < |c.batches| ==> Last(run).pending[f] == 0
  {
    var s := Last(run);
    RunKeepsInv(c, run);
    if !Ended(s) {
      var a := Progress(c, s);
      assert false;
    }
    SumZero(s.threads, Holding());
    forall f | 0 <= f < |c.batches| ensures s.pending[f] == 0 {
      assert GroupBalances(s, f);
      SumZero(s.threads, Pending(f));
    }
  }

  /** Permits are held exactly by the threads inside analysis code, never more than the limit. */
  lemma PermitsConserved(c: Config, run: seq<State>)
    requires Valid(c) && Run(c, run)
    ensures Last(run).permits == Sum(Last(run).threads, Holding()) <= c.limit
    ensures forall i :: 0 <= i < |Last(run).threads| && Last(run).threads[i].Holds() ==> Last(run).permits > 0
  {
    var s := Last(run);
    RunKeepsInv(c, run);
    forall i | 0 <= i < |s.threads| && s.threads[i].Holds() ensures s.permits > 0 { SumAtLeast(s.threads, i, Holding()); }
  }

  /** No batch is offered, carried or completed once the procedure channel is closed. */
  lemma NoSendOnClosedChannel(c: Config, run: seq<State>)
    requires Valid(c) && Run(c, run) && PoolClosed(Last(run))
    ensures forall i :: 0 <= i < |Last(run).threads| ==>
      Last(run).threads[i].Left? || Last(run).threads[i].Ready? || Last(run).threads[i].Gone?
  {
    var s := Last(run);
    RunKeepsInv(c, run);
    forall i | 0 <= i < |s.threads| ensures s.threads[i].Left? || s.threads[i].Ready? || s.threads[i].Gone? {
      if i >= c.workers && HasFile(s.threads[i]) {
        var f := s.threads[i].file;
        assert GroupBalances(s, f);
        SumAtLeast(s.threads, i, Pending(f));
        SumZero(s.threads, Awaiting(f));
      }
    }
  }

  /** No error means: every file analysed once, every batch run once, all successfully. */
  lemma NilErrorIsComplete(c: Config, run: seq<State>)
    requires Valid(c) && Run(c, run) && Last(run).main.Returned?
    ensures Shaped(c, Last(run))
    ensures Last(run).main.ok ==> forall f :: 0 <= f < |c.batches| ==> Last(run).results[f] == [Success]
    ensures Last(run).main.ok ==>
      forall f, k :: 0 <= f < |c.batches| && 0 <= k < c.batches[f] ==> Last(run).completions[f][k] == [Success]
    ensures !Last(run).main.ok ==> WorkDone(Last(run))
  {
    var s := Last(run);
    RunKeepsInv(c, run);
    if s.main.ok {
      forall f, k | 0 <= f < |c.batches| && 0 <= k < c.batches[f] ensures s.completions[f][k] == [Success] {
        assert BatchPlaced(c, s, f, k);
      }
    }
  }

  /** In every state a slot or a batch is written at most once. */
  lemma WrittenOnce(c: Config, run: seq<State>)
    requires Valid(c) && Run(c, run)
    ensures Shaped(c, Last(run)) && (forall f :: 0 <= f < |c.batches| ==> |Last(run).results[f]| <= 1)
    ensures forall f, k :: 0 <= f < |c.batches| && 0 <= k < c.batches[f] ==> |Last(run).completions[f][k]| <= 1
  {
    var s := Last(run);
    RunKeepsInv(c, run);
    forall f | 0 <= f < |c.batches| ensures |s.results[f]| <= 1 { assert FilePlaced(c, s, f); }
    forall f, k | 0 <= f < |c.batches| && 0 <= k < c.batches[f] ensures |s.completions[f][k]| <= 1 { assert BatchPlaced(c, s, f, k); }
  }

  /** A file is never cut into more than four batches per worker, and only large files are cut. */
  lemma PlannedBatches(requested: int, processors: nat, procedures: seq<nat>, f: nat)
    requires f < |procedures|
    ensures var c := Plan(requested, processors, procedures);
      && c.batches[f] <= 4 * c.limit && (c.batches[f] > 0 <==> c.limit > 1 && procedures[f] >= PROCEDURE_PARALLEL_THRESHOLD)
  {
    var c := Plan(requested, processors, procedures);
    BatchesPartition(procedures[f], c.limit);
  }
}
