/**
 Why a run ends as it does: an error has a cause, sending stops at the first one, and a worker
 that has stored an error takes no further file.
 */
module SchedulerCauses {
  import opened Sums
  import opened Scheduler
  import opened SchedulerInvariant
  import opened SchedulerRuns

  /** The thread carries this outcome. */
  predicate Bears(pc: Pc, o: Outcome) {
    (pc.Reacquiring? || pc.Finishing? || pc.Storing? || pc.Completing?) && pc.outcome == o
  }

  /** Some thread carries the outcome, or it has been written. */
  ghost predicate Occurs(s: State, o: Outcome) { Carried(s, o) || Stored(s, o) || BatchEnded(s, o) }

  ghost predicate Carried(s: State, o: Outcome) { exists i :: 0 <= i < |s.threads| && Bears(s.threads[i], o) }

  ghost predicate Stored(s: State, o: Outcome) { exists f :: 0 <= f < |s.results| && o in s.results[f] }

  ghost predicate BatchEnded(s: State, o: Outcome) {
    exists f, k :: 0 <= f < |s.completions| && 0 <= k < |s.completions[f]| && o in s.completions[f][k]
  }

  /** Nobody has cancelled the run from outside and no analysis has failed. */
  ghost predicate Blameless(s: State) { !s.cancelled && !Occurs(s, Failed) }

  /** No error is recorded anywhere. */
  ghost predicate Fine(s: State) {
    !s.failed && !Occurs(s, Cancelled) && forall f :: 0 <= f < |s.fileFailed| ==> !s.fileFailed[f]
  }

  /** A failure stays on record, and without one nothing goes wrong. */
  ghost predicate Causal(s: State, t: State) {
    Blameless(t) ==> Blameless(s) && (Fine(s) ==> Fine(t))
  }

  lemma MainIsCausal(c: Config, s: State, a: MainAction)
    requires Shaped(c, s) && MainMay(c, s, a)
    ensures Causal(s, MainDoes(c, s, a))
  {
    var t := MainDoes(c, s, a);
    assert t.results == s.results && t.completions == s.completions && t.fileFailed == s.fileFailed;
    forall i, o | 0 <= i < |s.threads| ensures Bears(s.threads[i], o) <==> Bears(t.threads[i], o) {}
  }

  /** The outcomes on record after a step of thread `i`: the old ones and at most one more. */
  ghost predicate Outcomes(s: State, t: State, i: nat, h: nat) {
    && i < |s.threads| == |t.threads| && h < |s.threads|
    && (forall j :: 0 <= j < |s.threads| && j != i && j != h ==> t.threads[j] == s.threads[j])
    && |t.results| == |s.results| && |t.completions| == |s.completions| && |t.fileFailed| == |s.fileFailed|
    && (forall f :: 0 <= f < |s.results| ==> s.results[f] <= t.results[f])
    && (forall f :: 0 <= f < |s.completions| ==> |t.completions[f]| == |s.completions[f]|)
    && (forall f, k :: 0 <= f < |s.completions| && 0 <= k < |s.completions[f]| ==> s.completions[f][k] <= t.completions[f][k])
  }

  /** Nothing on record is lost, and what thread `i` carried is still carried or written. */
  lemma FailureStays(s: State, t: State, i: nat, h: nat)
    requires Outcomes(s, t, i, h) && (Bears(s.threads[i], Failed) || Bears(s.threads[h], Failed) ==> Occurs(t, Failed))
    ensures Occurs(s, Failed) ==> Occurs(t, Failed)
  {
    if j :| 0 <= j < |s.threads| && Bears(s.threads[j], Failed) {
      if j != i && j != h { assert Bears(t.threads[j], Failed); }
    }
    if f :| 0 <= f < |s.results| && Failed in s.results[f] { assert Failed in t.results[f]; }
    if f, k :| 0 <= f < |s.completions| && 0 <= k < |s.completions[f]| && Failed in s.completions[f][k] {
      assert Failed in t.completions[f][k];
    }
  }

  /** Thread `i` writes nothing. */
  lemma QuietIsCausal(s: State, t: State, i: nat, h: nat)
    requires Outcomes(s, t, i, h) && t.results == s.results && t.completions == s.completions && t.fileFailed == s.fileFailed
    requires t.cancelled == s.cancelled && t.failed == s.failed
    requires Bears(s.threads[i], Failed) ==> Bears(t.threads[i], Failed)
    requires !Bears(s.threads[h], Failed) || h == i
    requires Blameless(s) && Fine(s) ==> !Bears(t.threads[i], Cancelled) && !Bears(t.threads[h], Cancelled)
    ensures Causal(s, t)
  {
    FailureStays(s, t, i, h);
    if Blameless(t) && Fine(s) {
      forall j | 0 <= j < |t.threads| ensures !Bears(t.threads[j], Cancelled) {
        if j != i && j != h { assert t.threads[j] == s.threads[j]; }
      }
    }
  }

  lemma StoreIsCausal(c: Config, s: State, i: nat)
    requires Shaped(c, s) && i < c.workers && WorkerMay(c, s, s.threads[i], Store)
    ensures Causal(s, WorkerDoes(c, s, i, Store))
  {
    var t, pc := WorkerDoes(c, s, i, Store), s.threads[i];
    assert t.results[pc.file] == s.results[pc.file] + [pc.outcome];
    assert pc.outcome in t.results[pc.file] && Bears(pc, pc.outcome);
    FailureStays(s, t, i, i);
    if Blameless(t) && Fine(s) {
      assert !Bears(s.threads[i], Cancelled) && pc.outcome != Failed;
      forall f | 0 <= f < |t.results| ensures Cancelled !in t.results[f] { assert Cancelled !in s.results[f]; }
      forall j | 0 <= j < |t.threads| ensures !Bears(t.threads[j], Cancelled) { if j != i { assert t.threads[j] == s.threads[j]; } }
    }
  }

  lemma WorkerIsCausal(c: Config, s: State, i: nat, a: WorkerAction)
    requires Shaped(c, s) && i < c.workers && WorkerMay(c, s, s.threads[i], a) && !a.SendBatch?
    ensures Causal(s, WorkerDoes(c, s, i, a))
  {
    var t := WorkerDoes(c, s, i, a);
    if a.Store? {
      StoreIsCausal(c, s, i);
    } else {
      assert Blameless(s) && Fine(s) ==> !Bears(s.threads[i], Cancelled) && !WorkDone(s);
      assert t.threads == s.threads[i := t.threads[i]];
      QuietIsCausal(s, t, i, i);
    }
  }

  lemma HandOverIsCausal(c: Config, s: State, i: nat, h: nat)
    requires Shaped(c, s) && i < c.workers && WorkerMay(c, s, s.threads[i], SendBatch(h))
    ensures Causal(s, WorkerDoes(c, s, i, SendBatch(h)))
  {
    HandOverMoves(c, s, i, h);
    QuietIsCausal(s, WorkerDoes(c, s, i, SendBatch(h)), i, h);
  }

  lemma CompleteIsCausal(c: Config, s: State, i: nat)
    requires Shaped(c, s) && c.workers <= i < |s.threads| && HelperMay(c, s, s.threads[i], Complete)
    ensures Causal(s, HelperDoes(c, s, i, Complete))
  {
    var t, pc := HelperDoes(c, s, i, Complete), s.threads[i];
    assert t.completions[pc.file][pc.batch] == s.completions[pc.file][pc.batch] + [pc.outcome];
    assert pc.outcome in t.completions[pc.file][pc.batch] && Bears(pc, pc.outcome);
    assert Outcomes(s, t, i, i);
    FailureStays(s, t, i, i);
    if Blameless(t) && Fine(s) {
      assert !Bears(s.threads[i], Cancelled) && pc.outcome != Failed;
      forall f, k | 0 <= f < |t.completions| && 0 <= k < |t.completions[f]| ensures Cancelled !in t.completions[f][k] {
        assert Cancelled !in s.completions[f][k];
      }
      forall j | 0 <= j < |t.threads| ensures !Bears(t.threads[j], Cancelled) { if j != i { assert t.threads[j] == s.threads[j]; } }
    }
  }

  lemma HelperIsCausal(c: Config, s: State, i: nat, a: HelperAction)
    requires Shaped(c, s) && c.workers <= i < |s.threads| && HelperMay(c, s, s.threads[i], a)
    ensures Causal(s, HelperDoes(c, s, i, a))
  {
    if a.Complete? {
      CompleteIsCausal(c, s, i);
    } else {
      var t := HelperDoes(c, s, i, a);
      assert Blameless(s) && Fine(s) ==> !Bears(s.threads[i], Cancelled) && !WorkDone(s);
      assert t.threads == s.threads[i := t.threads[i]];
      QuietIsCausal(s, t, i, i);
    }
  }

  lemma StepIsCausal(c: Config, s: State, t: State)
    requires Step(c, s, t)
    ensures Causal(s, t)
  {
    var a :| Enabled(c, s, a) && t == Do(c, s, a);
    match a
    case ByMain(m) => MainIsCausal(c, s, m);
    case ByWorker(i, w) => if w.SendBatch? { HandOverIsCausal(c, s, i, w.h); } else { WorkerIsCausal(c, s, i, w); }
    case ByHelper(i, h) => HelperIsCausal(c, s, i, h);
  }

  lemma {:induction false} NoErrorWithoutCause(c: Config, run: seq<State>)
    requires Valid(c) && Run(c, run) && Blameless(Last(run))
    ensures Fine(Last(run))
    decreases |run|
  {
    if |run| > 1 {
      StepIsCausal(c, run[|run| - 2], run[|run| - 1]);
      NoErrorWithoutCause(c, run[..|run| - 1]);
    }
  }

  /** A run returns an error only if it was cancelled from outside or some file or batch failed. */
  lemma ErrorHasCause(c: Config, run: seq<State>)
    requires Valid(c) && Run(c, run) && Last(run).main == Returned(false)
    ensures Last(run).cancelled || Stored(Last(run), Failed) || BatchEnded(Last(run), Failed)
  {
    NilErrorIsComplete(c, run);
    NoSendOnClosedChannel(c, run);
    if Blameless(Last(run)) { NoErrorWithoutCause(c, run); }
  }

  // ---- How a file is judged ----------------------------------------------------------------

  ghost predicate SomeFailed(s: State, f: nat) {
    f < |s.completions| && exists k :: 0 <= k < |s.completions[f]| && Failed in s.completions[f][k]
  }

  /** The first error of a file is that of one of its batches. */
  ghost predicate FileFailures(s: State) { forall f :: 0 <= f < |s.fileFailed| ==> (s.fileFailed[f] <==> SomeFailed(s, f)) }

  lemma CompleteKeepsFailures(c: Config, s: State, i: nat)
    requires Shaped(c, s) && c.workers <= i < |s.threads| && HelperMay(c, s, s.threads[i], Complete) && FileFailures(s)
    ensures FileFailures(HelperDoes(c, s, i, Complete))
  {
    var t, pc := HelperDoes(c, s, i, Complete), s.threads[i];
    assert t.completions[pc.file][pc.batch] == s.completions[pc.file][pc.batch] + [pc.outcome];
    forall f | 0 <= f < |s.fileFailed| ensures t.fileFailed[f] <==> SomeFailed(t, f) {
      if f == pc.file {
        if SomeFailed(s, f) {
          var k :| 0 <= k < |s.completions[f]| && Failed in s.completions[f][k];
          assert Failed in t.completions[f][k];
        }
        if SomeFailed(t, f) {
          var k :| 0 <= k < |t.completions[f]| && Failed in t.completions[f][k];
          assert Failed in s.completions[f][k] || (k == pc.batch && pc.outcome == Failed);
        }
      } else {
        assert t.completions[f] == s.completions[f];
      }
    }
  }

  lemma StepKeepsFailures(c: Config, s: State, t: State)
    requires Step(c, s, t) && FileFailures(s)
    ensures FileFailures(t)
  {
    var a :| Enabled(c, s, a) && t == Do(c, s, a);
    if a.ByHelper? && a.h.Complete? {
      CompleteKeepsFailures(c, s, a.i);
    } else {
      QuietStep(c, s, a);
      forall f | 0 <= f < |s.fileFailed| ensures SomeFailed(t, f) <==> SomeFailed(s, f) {}
    }
  }

  lemma QuietStep(c: Config, s: State, a: Action)
    requires Shaped(c, s) && Enabled(c, s, a) && !(a.ByHelper? && a.h.Complete?)
    ensures Do(c, s, a).fileFailed == s.fileFailed && Do(c, s, a).completions == s.completions
  {
    match a
    case ByMain(m) =>
    case ByWorker(i, w) => QuietWorker(c, s, i, w);
    case ByHelper(i, h) =>
  }

  lemma QuietWorker(c: Config, s: State, i: nat, a: WorkerAction)
    requires Shaped(c, s) && i < c.workers && WorkerMay(c, s, s.threads[i], a)
    ensures WorkerDoes(c, s, i, a).fileFailed == s.fileFailed && WorkerDoes(c, s, i, a).completions == s.completions
  {
  }

  lemma {:induction false} FailuresOfRun(c: Config, run: seq<State>)
    requires Valid(c) && Run(c, run)
    ensures FileFailures(Last(run))
    decreases |run|
  {
    if |run| > 1 {
      FailuresOfRun(c, run[..|run| - 1]);
      StepKeepsFailures(c, run[|run| - 2], run[|run| - 1]);
    }
  }

  /**
   Whenever a worker stops waiting for its batches, the file counts as cancelled exactly when the
   run is being stopped, as failed exactly when a batch has failed, and as a success exactly when
   all batches have succeeded.
   */
  lemma JudgementIsExact(c: Config, run: seq<State>, i: nat)
    requires Valid(c) && Run(c, run) && Shaped(c, Last(run)) && i < c.workers && WorkerMay(c, Last(run), Last(run).threads[i], AwaitBatches)
    ensures var s := Last(run); var f := s.threads[i].file; var pc := WorkerDoes(c, s, i, AwaitBatches).threads[i];
      && pc.Reacquiring? && pc.file == f
      && (pc.outcome == Cancelled <==> WorkDone(s))
      && (pc.outcome == Failed <==> !WorkDone(s) && SomeFailed(s, f))
      && (pc.outcome == Success <==> !WorkDone(s) && forall k :: 0 <= k < c.batches[f] ==> s.completions[f][k] == [Success])
  {
    var s := Last(run);
    var f := s.threads[i].file;
    RunKeepsInv(c, run);
    FailuresOfRun(c, run);
    if !WorkDone(s) && !s.fileFailed[f] {
      forall k: nat | k < c.batches[f] ensures s.completions[f][k] == [Success] { AwaitedBatches(c, s, i, k); }
    }
    if SomeFailed(s, f) {
      var k :| 0 <= k < |s.completions[f]| && Failed in s.completions[f][k];
      assert s.completions[f][k] != [Success];
    }
  }

  /** A file is never stored as a success unless each of its batches succeeded once, however the run ends. */
  lemma SuccessIsEarned(c: Config, run: seq<State>, f: nat, k: nat)
    requires Valid(c) && Run(c, run) && Shaped(c, Last(run)) && f < |c.batches| && k < c.batches[f]
    ensures Success in Last(run).results[f] ==> Last(run).completions[f][k] == [Success]
  {
    RunKeepsInv(c, run);
    assert FilePlaced(c, Last(run), f) && BatchPlaced(c, Last(run), f, k);
  }

  // ---- After the first error ---------------------------------------------------------------

  lemma StepStopsSending(c: Config, s: State, t: State)
    requires Step(c, s, t) && WorkDone(s)
    ensures WorkDone(t) && (t.main.Sending? ==> t.main == s.main)
    ensures t.main.Checking? ==> s.main == t.main || s.main == Sending(t.main.index)
  {
    var a :| Enabled(c, s, a) && t == Do(c, s, a);
    match a
    case ByMain(m) => MainStopsSending(c, s, m);
    case ByWorker(i, w) => WorkerLeavesMain(c, s, i, w);
    case ByHelper(i, h) => HelperLeavesMain(c, s, i, h);
  }

  lemma MainStopsSending(c: Config, s: State, m: MainAction)
    requires Shaped(c, s) && MainMay(c, s, m) && WorkDone(s)
    ensures var t := MainDoes(c, s, m); WorkDone(t) && (t.main.Sending? ==> t.main == s.main)
    ensures var t := MainDoes(c, s, m); t.main.Checking? ==> s.main == t.main || s.main == Sending(t.main.index)
  {
  }

  lemma WorkerLeavesMain(c: Config, s: State, i: nat, a: WorkerAction)
    requires Shaped(c, s) && i < c.workers && WorkerMay(c, s, s.threads[i], a)
    ensures var t := WorkerDoes(c, s, i, a); t.main == s.main && (WorkDone(s) ==> WorkDone(t))
  {
  }

  lemma HelperLeavesMain(c: Config, s: State, i: nat, a: HelperAction)
    requires Shaped(c, s) && c.workers <= i < |s.threads| && HelperMay(c, s, s.threads[i], a)
    ensures var t := HelperDoes(c, s, i, a); t.main == s.main && (WorkDone(s) ==> WorkDone(t))
  {
  }

  /** After an error or a cancellation at most the file at hand is still sent. */
  lemma {:induction false} SendingStops(c: Config, run: seq<State>, j: nat, k: nat)
    requires Run(c, run) && j <= k < |run| && WorkDone(run[j])
    ensures WorkDone(run[k])
    ensures run[k].main.Sending? ==> run[k].main == run[j].main
    ensures run[k].main.Checking? ==> run[k].main == run[j].main || run[j].main == Sending(run[k].main.index)
    decreases k
  {
    if j < k {
      SendingStops(c, run, j, k - 1);
      StepStopsSending(c, run[k - 1], run[k]);
    }
  }

  // ---- A worker that stored an error -------------------------------------------------------

  function HasLeft(): Pc -> nat { (pc: Pc) => if pc.Left? then 1 else 0 }

  function Unsuccessful(): seq<Outcome> -> nat { (r: seq<Outcome>) => if r != [] && r[|r| - 1] != Success then 1 else 0 }

  /** Every unsuccessful file has cost a worker. */
  ghost predicate Retired(s: State) { Sum(s.results, Unsuccessful()) <= Sum(s.threads, HasLeft()) }

  lemma ThreadRetires(c: Config, s: State, i: nat, a: WorkerAction)
    requires Shaped(c, s) && i < c.workers && WorkerMay(c, s, s.threads[i], a) && !a.SendBatch?
    ensures var t := WorkerDoes(c, s, i, a);
      && HasLeft()(s.threads[i]) == 0 && t.threads == s.threads[i := t.threads[i]]
      && (t.results == s.results || (a.Store? && HasLeft()(t.threads[i]) == if s.threads[i].outcome.Success? then 0 else 1))
  {
  }

  lemma WorkerRetires(c: Config, s: State, i: nat, a: WorkerAction)
    requires Shaped(c, s) && i < c.workers && WorkerMay(c, s, s.threads[i], a) && Retired(s)
    ensures Retired(WorkerDoes(c, s, i, a))
  {
    var t := WorkerDoes(c, s, i, a);
    if a.SendBatch? {
      HandOverMoves(c, s, i, a.h);
      HandOver(s, i, a.h, t.threads[i], t.threads[a.h], HasLeft());
    } else {
      ThreadRetires(c, s, i, a);
      SumUpdate(s.threads, i, t.threads[i], HasLeft());
      if a.Store? {
        var f := s.threads[i].file;
        SumUpdate(s.results, f, t.results[f], Unsuccessful());
      }
    }
  }

  lemma OthersRetire(c: Config, s: State, a: Action)
    requires Shaped(c, s) && Enabled(c, s, a) && !a.ByWorker? && Retired(s)
    ensures Retired(Do(c, s, a))
  {
    var t := Do(c, s, a);
    match a
    case ByMain(m) => if m.SendFile? { SumUpdate(s.threads, m.w, Got(s.main.index), HasLeft()); }
    case ByHelper(i, h) => HelperLighter(c, s, i, h); SumUpdate(s.threads, i, t.threads[i], HasLeft());
  }

  /** A worker that stores an error takes no further file: there are never more unsuccessful files than workers that have left. */
  lemma {:induction false} ErrorsRetireWorkers(c: Config, run: seq<State>)
    requires Valid(c) && Run(c, run)
    ensures Retired(Last(run))
    decreases |run|
  {
    if |run| == 1 {
      SumZero(Initial(c).results, Unsuccessful());
    } else {
      var s, t := run[|run| - 2], run[|run| - 1];
      ErrorsRetireWorkers(c, run[..|run| - 1]);
      var a :| Enabled(c, s, a) && t == Do(c, s, a);
      if a.ByWorker? { WorkerRetires(c, s, a.i, a.w); } else { OthersRetire(c, s, a); }
    }
  }
}
