/**
 From the scheduler to the findings: a run that returns no error completes the batches of a
 large file in some order, and in that order the merged findings are those of the serial loop.
 */
module ScheduledFindings {
  import opened Batches
  import opened Scheduler
  import opened SchedulerInvariant
  import opened SchedulerRuns
  import opened ProcedureMerge

  /** Batch `k` of file `f` has completed successfully. */
  predicate Succeeded(s: State, f: nat, k: nat) {
    f < |s.completions| && k < |s.completions[f]| && Success in s.completions[f][k]
  }

  /** The first `n` batches of `f` that succeed between two states. */
  function Newly(s: State, t: State, f: nat, n: nat): seq<nat> {
    if n == 0 then [] else Newly(s, t, f, n - 1) + if Succeeded(t, f, n - 1) && !Succeeded(s, f, n - 1) then [n - 1] else []
  }

  /** The batches of `f` in the order in which the run completes them. */
  function Order(c: Config, run: seq<State>, f: nat): seq<nat>
    requires f < |c.batches|
  {
    if |run| <= 1 then []
    else Order(c, run[..|run| - 1], f) + Newly(run[|run| - 2], run[|run| - 1], f, c.batches[f])
  }

  lemma {:induction false} NewlyAre(s: State, t: State, f: nat, n: nat)
    ensures forall k: nat :: k in Newly(s, t, f, n) <==> k < n && Succeeded(t, f, k) && !Succeeded(s, f, k)
    ensures forall i, j :: 0 <= i < j < |Newly(s, t, f, n)| ==> Newly(s, t, f, n)[i] < Newly(s, t, f, n)[j]
  {
    if n > 0 {
      NewlyAre(s, t, f, n - 1);
      var front := Newly(s, t, f, n - 1);
      forall i | 0 <= i < |front| ensures front[i] < n - 1 { assert front[i] in front; }
    }
  }

  lemma MainCompletesNothing(c: Config, s: State, a: MainAction)
    requires Shaped(c, s) && MainMay(c, s, a)
    ensures MainDoes(c, s, a).completions == s.completions
  {
  }

  lemma WorkerCompletesNothing(c: Config, s: State, i: nat, a: WorkerAction)
    requires Shaped(c, s) && i < c.workers && WorkerMay(c, s, s.threads[i], a)
    ensures WorkerDoes(c, s, i, a).completions == s.completions
  {
  }

  lemma HelperAddsCompletions(c: Config, s: State, i: nat, a: HelperAction, f: nat, k: nat)
    requires Shaped(c, s) && c.workers <= i < |s.threads| && HelperMay(c, s, s.threads[i], a)
    requires Succeeded(s, f, k)
    ensures Succeeded(HelperDoes(c, s, i, a), f, k)
  {
    if a.Complete? && s.threads[i].file == f {
      var done, b := s.completions[f], s.threads[i].batch;
      assert HelperDoes(c, s, i, a).completions[f] == done[b := done[b] + [s.threads[i].outcome]];
    }
  }

  /** A completed batch stays completed. */
  lemma SuccessStays(c: Config, s: State, t: State, f: nat, k: nat)
    requires Step(c, s, t) && Succeeded(s, f, k)
    ensures Succeeded(t, f, k)
  {
    var a :| Enabled(c, s, a) && t == Do(c, s, a);
    match a
    case ByMain(m) => MainCompletesNothing(c, s, m);
    case ByWorker(i, w) => WorkerCompletesNothing(c, s, i, w);
    case ByHelper(i, h) => HelperAddsCompletions(c, s, i, h, f, k);
  }

  lemma {:induction false} OrderIsOfSuccesses(c: Config, run: seq<State>, f: nat)
    requires Valid(c) && Run(c, run) && f < |c.batches|
    ensures forall k: nat :: k in Order(c, run, f) <==> k < c.batches[f] && Succeeded(Last(run), f, k)
    decreases |run|
  {
    if |run| > 1 {
      var before, s, t := run[..|run| - 1], run[|run| - 2], run[|run| - 1];
      OrderIsOfSuccesses(c, before, f);
      assert Last(before) == s;
      NewlyAre(s, t, f, c.batches[f]);
      forall k: nat | Succeeded(s, f, k) ensures Succeeded(t, f, k) { SuccessStays(c, s, t, f, k); }
    }
  }

  /** No batch comes twice. */
  lemma {:induction false} OrderIsOnce(c: Config, run: seq<State>, f: nat, i: nat, j: nat)
    requires Valid(c) && Run(c, run) && f < |c.batches| && i < j < |Order(c, run, f)|
    ensures Order(c, run, f)[i] != Order(c, run, f)[j]
    decreases |run|
  {
    var before, s, t := run[..|run| - 1], run[|run| - 2], run[|run| - 1];
    var front, last := Order(c, before, f), Newly(s, t, f, c.batches[f]);
    assert Order(c, run, f) == front + last;
    OrderIsOfSuccesses(c, before, f);
    NewlyAre(s, t, f, c.batches[f]);
    if j < |front| {
      OrderIsOnce(c, before, f, i, j);
    } else if i < |front| {
      assert front[i] in front && last[j - |front|] in last;
    }
  }

  // ---- What the batches analyse ----------------------------------------------------------

  function Indices(start: nat, end: nat): seq<nat>
    decreases end - start
  {
    if end <= start then [] else Indices(start, end - 1) + [end - 1]
  }

  /** The procedures in the order in which these batches analyse them. */
  function Schedule(ranges: seq<(nat, nat)>, order: seq<nat>): seq<nat> {
    if order == [] then []
    else
      var k := order[|order| - 1];
      Schedule(ranges, order[..|order| - 1]) + if k < |ranges| then Indices(ranges[k].0, ranges[k].1) else []
  }

  lemma {:induction false} IndicesAre(start: nat, end: nat)
    ensures forall i :: i in Indices(start, end) <==> start <= i < end
    decreases end - start
  {
    if start < end { IndicesAre(start, end - 1); }
  }

  ghost predicate Covered(ranges: seq<(nat, nat)>, order: seq<nat>, i: nat) { exists k <- order :: Holds(ranges, k, i) }

  lemma CoveredByLast(ranges: seq<(nat, nat)>, front: seq<nat>, k: nat, i: nat)
    ensures Covered(ranges, front + [k], i) <==> Covered(ranges, front, i) || Holds(ranges, k, i)
  {
    forall j <- front + [k] ensures j in front || j == k {}
    assert k in front + [k] && forall j <- front :: j in front + [k];
  }

  lemma {:induction false} ScheduleHolds(ranges: seq<(nat, nat)>, order: seq<nat>, i: nat)
    ensures i in Schedule(ranges, order) <==> Covered(ranges, order, i)
  {
    if order != [] {
      var front, k := order[..|order| - 1], order[|order| - 1];
      ScheduleHolds(ranges, front, i);
      if k < |ranges| { IndicesAre(ranges[k].0, ranges[k].1); }
      CoveredByLast(ranges, front, k, i);
      assert order == front + [k];
    }
  }

  /** A run of a plan that returns no error has analysed every procedure of a large file, in batches that each ran once. */
  lemma RunCompletes(requested: int, processors: nat, procedures: seq<nat>, run: seq<State>, f: nat)
    requires f < |procedures|
    requires var c := Plan(requested, processors, procedures); c.batches[f] > 0 && Run(c, run) && Last(run).main == Returned(true)
    ensures Plan(requested, processors, procedures).limit > 0
    ensures var c := Plan(requested, processors, procedures);
      Completes(Schedule(BatchRanges(procedures[f], c.limit), Order(c, run, f)), procedures[f], c.limit)
  {
    var c := Plan(requested, processors, procedures);
    PlanIsValid(requested, processors, procedures);
    var ranges, order := BatchRanges(procedures[f], c.limit), Order(c, run, f);
    NilErrorIsComplete(c, run);
    OrderIsOfSuccesses(c, run, f);
    forall k: nat | k < |ranges| ensures k in order { assert Last(run).completions[f][k] == [Success]; }
    BatchesPartition(procedures[f], c.limit);
    forall i <- Schedule(ranges, order) ensures i < procedures[f] { ScheduleHolds(ranges, order, i); }
    forall k: nat, i: nat | Holds(ranges, k, i) ensures i in Schedule(ranges, order) { ScheduleHolds(ranges, order, i); }
  }
}
