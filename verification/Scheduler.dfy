/**
 The bounded scheduler: file workers and a procedure pool share one semaphore.  A file worker
 gives its permit back while the pool runs the batches of a large file, and takes it again
 afterwards.  Every goroutine is a thread with a program counter; one action is one
 communication, one semaphore operation or one stretch of private work.
 */
module Scheduler {
  import opened Batches

  datatype Outcome = Success | Failed | Cancelled

  /** Permits, batches per file (none for a file analysed serially), file workers, pool workers. */
  datatype Config = Config(limit: nat, batches: seq<nat>, workers: nat, helpers: nat)

  const PROCEDURE_PARALLEL_THRESHOLD := 500

  function BatchCount(procedures: nat, limit: nat): nat {
    if limit > 1 && procedures >= PROCEDURE_PARALLEL_THRESHOLD then |BatchRanges(procedures, limit)| else 0
  }

  /** What a run is started with; `procedures` counts the procedures of each file. */
  function Plan(requested: int, processors: nat, procedures: seq<nat>): Config {
    var wanted := if requested <= 0 then processors else requested;
    var limit := if wanted < 1 then 1 else wanted;
    Config(limit, seq(|procedures|, i requires 0 <= i < |procedures| => BatchCount(procedures[i], limit)),
           if limit > |procedures| then |procedures| else limit,
           if limit > 1 && exists n <- procedures :: n >= PROCEDURE_PARALLEL_THRESHOLD then limit else 0)
  }

  predicate Valid(c: Config) {
    0 < c.workers <= c.limit && c.workers <= |c.batches| && c.helpers <= c.limit &&
    forall f :: 0 <= f < |c.batches| && c.batches[f] > 0 ==> c.helpers > 0
  }

  lemma PlanIsValid(requested: int, processors: nat, procedures: seq<nat>)
    requires procedures != []
    ensures Valid(Plan(requested, processors, procedures))
  {
    var c := Plan(requested, processors, procedures);
    forall f | 0 <= f < |c.batches| && c.batches[f] > 0 ensures c.helpers > 0 { assert procedures[f] in procedures; }
  }

  // ---- Threads -------------------------------------------------------------------------

  datatype Pc =
    // file workers
    | Idle
    | Got(file: nat)
    | Analyzing(file: nat)
    | Submitting(file: nat, batch: nat)
    | Offering(file: nat, batch: nat)
    | Waiting(file: nat)
    | Reacquiring(file: nat, outcome: Outcome)
    | Finishing(file: nat, outcome: Outcome)
    | Storing(file: nat, outcome: Outcome)
    | Left
    // procedure workers
    | Ready
    | Acquiring(file: nat, batch: nat)
    | Running(file: nat, batch: nat)
    | Completing(file: nat, batch: nat, outcome: Outcome)
    | Gone
  {
    predicate OfPool() { Ready? || Acquiring? || Running? || Completing? || Gone? }

    /** Inside analysis code, with a permit. */
    predicate Holds() { Analyzing? || Finishing? || Running? }

    /** A file worker that has taken file `f`. */
    predicate Owns(f: nat) { !OfPool() && !Idle? && !Left? && file == f }

    /** A file worker that submits or awaits the batches of `f`. */
    predicate Awaits(f: nat) { (Submitting? || Offering? || Waiting?) && file == f }

    /** A pool worker that has taken batch `k` of file `f`. */
    predicate Carries(f: nat, k: nat) { (Acquiring? || Running? || Completing?) && file == f && batch == k }

    /** Registered with the wait group of `f`. */
    predicate Pends(f: nat) { (Offering? || Acquiring? || Running? || Completing?) && file == f }
  }

  datatype Main = Sending(index: nat) | Checking(index: nat) | Joining(sent: nat) | Closing(ok: bool)
        | Draining(ok: bool) | Returned(ok: bool)

  /**
   `results` and `completions` keep every write to a file's slot and every completion of a
   batch; `fileFailed` stands for a file's first error and the cancellation that goes with
   it, `failed` for the workers' first error and its cancellation.
   */
  datatype State = State(
    main: Main, threads: seq<Pc>, permits: nat, pending: seq<nat>, fileFailed: seq<bool>, failed: bool, cancelled: bool,
    results: seq<seq<Outcome>>, completions: seq<seq<seq<Outcome>>>)

  function Initial(c: Config): State {
    State(Sending(0), seq(c.workers, _ => Idle) + seq(c.helpers, _ => Ready), 0,
          seq(|c.batches|, _ => 0), seq(|c.batches|, _ => false), false, false,
          seq(|c.batches|, _ => []), seq(|c.batches|, i requires 0 <= i < |c.batches| => seq(c.batches[i], _ => [])))
  }

  /** The workers' context is done. */
  predicate WorkDone(s: State) { s.cancelled || s.failed }

  /** The context of the batches of `f` is done. */
  predicate BatchesDone(s: State, f: nat) { WorkDone(s) || (f < |s.fileFailed| && s.fileFailed[f]) }

  predicate PoolClosed(s: State) { s.main.Draining? || s.main.Returned? }

  predicate JobsClosed(s: State) { s.main.Joining? || s.main.Closing? || PoolClosed(s) }

  // ---- Actions -------------------------------------------------------------------------

  /** The goroutine that sends the files and waits, and the cancellation of its context from outside. */
  datatype MainAction = CancelParent | SendFile(w: nat) | StopSending | CheckSent | CloseJobs | JoinWorkers
        | ClosePool | DrainPool

  datatype WorkerAction =
    | Leave | AcquireForFile | AbandonFile | AnalyzeSerially(out: Outcome) | Yield
    | AddBatch | NoMoreBatches | SendBatch(h: nat) | GiveUpBatch | AwaitBatches
    | Reacquire | FinishFile(out: Outcome) | Store

  datatype HelperAction = AcquireForBatch | FailToAcquire | RunBatch(out: Outcome) | Complete | Quit

  datatype Action = ByMain(m: MainAction) | ByWorker(i: nat, w: WorkerAction) | ByHelper(i: nat, h: HelperAction)

  /** Shapes every state shares, so that files and batches can be looked up. */
  predicate Fits(c: Config, pc: Pc) {
    && (!pc.Idle? && !pc.Left? && !pc.Ready? && !pc.Gone? ==> pc.file < |c.batches|)
    && (pc.Submitting? ==> pc.batch <= c.batches[pc.file])
    && (pc.Offering? || pc.Acquiring? || pc.Running? || pc.Completing? ==> pc.batch < c.batches[pc.file])
    && (pc.Submitting? || pc.Waiting? || pc.Reacquiring? ==> c.batches[pc.file] > 0)
  }

  ghost predicate Shaped(c: Config, s: State) {
    && |s.threads| == c.workers + c.helpers
    && (forall i :: 0 <= i < |s.threads| ==> Fits(c, s.threads[i]) && (s.threads[i].OfPool() <==> i >= c.workers))
    && |s.pending| == |s.fileFailed| == |s.results| == |s.completions| == |c.batches|
    && (forall f :: 0 <= f < |c.batches| ==> |s.completions[f]| == c.batches[f])
    && match s.main
       case Sending(i) => i <= |c.batches|
       case Checking(i) => i < |c.batches|
       case Joining(sent) => sent <= |c.batches| && (sent < |c.batches| ==> WorkDone(s))
       case _ => true
  }

  ghost predicate MainMay(c: Config, s: State, a: MainAction)
    requires Shaped(c, s)
  {
    match a
    case CancelParent => !s.cancelled
    case SendFile(w) => s.main.Sending? && s.main.index < |c.batches| && w < c.workers && s.threads[w].Idle?
    case StopSending => s.main.Sending? && s.main.index < |c.batches| && WorkDone(s)
    case CheckSent => s.main.Checking?
    case CloseJobs => s.main.Sending? && s.main.index == |c.batches|
    case JoinWorkers => s.main.Joining? && forall i :: 0 <= i < c.workers ==> s.threads[i].Left?
    case ClosePool => s.main.Closing?
    case DrainPool => s.main.Draining? && forall i :: c.workers <= i < |s.threads| ==> s.threads[i].Gone?
  }

  predicate WorkerMay(c: Config, s: State, pc: Pc, a: WorkerAction)
    requires Fits(c, pc) && |s.pending| == |c.batches|
  {
    match a
    case Leave => pc.Idle? && (WorkDone(s) || JobsClosed(s))
    case AcquireForFile => pc.Got? && s.permits < c.limit
    case AbandonFile => pc.Got? && WorkDone(s)
    case AnalyzeSerially(out) => pc.Analyzing? && (c.batches[pc.file] == 0 || !out.Success?) && (out.Cancelled? ==> WorkDone(s))
    case Yield => pc.Analyzing? && c.batches[pc.file] > 0
    case AddBatch => pc.Submitting? && pc.batch < c.batches[pc.file]
    case NoMoreBatches => pc.Submitting? && pc.batch == c.batches[pc.file]
    case SendBatch(h) => pc.Offering? && c.workers <= h < |s.threads| && s.threads[h].Ready?
    case GiveUpBatch => pc.Offering? && BatchesDone(s, pc.file) && s.pending[pc.file] > 0
    case AwaitBatches => pc.Waiting? && s.pending[pc.file] == 0
    case Reacquire => pc.Reacquiring? && s.permits < c.limit
    case FinishFile(out) =>
      pc.Finishing? && (!pc.outcome.Success? ==> out == pc.outcome) && (out.Cancelled? ==> pc.outcome == out || WorkDone(s))
    case Store => pc.Storing?
  }

  predicate HelperMay(c: Config, s: State, pc: Pc, a: HelperAction)
    requires Fits(c, pc) && |s.pending| == |c.batches|
  {
    match a
    case AcquireForBatch => pc.Acquiring? && s.permits < c.limit
    case FailToAcquire => pc.Acquiring? && BatchesDone(s, pc.file)
    case RunBatch(out) => pc.Running? && (out.Cancelled? ==> BatchesDone(s, pc.file))
    case Complete => pc.Completing? && s.pending[pc.file] > 0
    case Quit => pc.Ready? && PoolClosed(s)
  }

  ghost predicate Enabled(c: Config, s: State, a: Action)
    requires Shaped(c, s)
  {
    match a
    case ByMain(m) => MainMay(c, s, m)
    case ByWorker(i, w) => i < c.workers && WorkerMay(c, s, s.threads[i], w)
    case ByHelper(i, h) => c.workers <= i < |s.threads| && HelperMay(c, s, s.threads[i], h)
  }

  function Moved(s: State, i: nat, pc: Pc): State
    requires i < |s.threads|
  {
    s.(threads := s.threads[i := pc])
  }

  /** Gives a permit back. */
  function Released(s: State): State { s.(permits := if s.permits > 0 then s.permits - 1 else 0) }

  /** What a file's waiting worker makes of its batches. */
  function Judged(s: State, f: nat): Outcome {
    if WorkDone(s) then Cancelled else if BatchesDone(s, f) then Failed else Success
  }

  ghost function MainDoes(c: Config, s: State, a: MainAction): State
    requires Shaped(c, s) && MainMay(c, s, a)
  {
    match a
    case CancelParent => s.(cancelled := true)
    case SendFile(w) => Moved(s, w, Got(s.main.index)).(main := Checking(s.main.index))
    case StopSending => s.(main := Joining(s.main.index))
    case CheckSent => s.(main := if WorkDone(s) then Joining(s.main.index + 1) else Sending(s.main.index + 1))
    case CloseJobs => s.(main := Joining(s.main.index))
    case JoinWorkers => s.(main := Closing(!WorkDone(s)))
    case ClosePool => s.(main := Draining(s.main.ok))
    case DrainPool => s.(main := Returned(s.main.ok))
  }

  ghost function WorkerDoes(c: Config, s: State, i: nat, a: WorkerAction): State
    requires Shaped(c, s) && i < c.workers && WorkerMay(c, s, s.threads[i], a)
  {
    var pc := s.threads[i];
    match a
    case Leave => Moved(s, i, Left)
    case AcquireForFile => Moved(s, i, Analyzing(pc.file)).(permits := s.permits + 1)
    case AbandonFile => Moved(s, i, Left)
    case AnalyzeSerially(out) => Released(Moved(s, i, Storing(pc.file, out)))
    case Yield => Released(Moved(s, i, Submitting(pc.file, 0)))
    case AddBatch => Moved(s, i, Offering(pc.file, pc.batch)).(pending := s.pending[pc.file := s.pending[pc.file] + 1])
    case NoMoreBatches => Moved(s, i, Waiting(pc.file))
    case SendBatch(h) => Moved(Moved(s, i, Submitting(pc.file, pc.batch + 1)), h, Acquiring(pc.file, pc.batch))
    case GiveUpBatch => Moved(s, i, Waiting(pc.file)).(pending := s.pending[pc.file := s.pending[pc.file] - 1])
    case AwaitBatches => Moved(s, i, Reacquiring(pc.file, Judged(s, pc.file)))
    case Reacquire => Moved(s, i, Finishing(pc.file, pc.outcome)).(permits := s.permits + 1)
    case FinishFile(out) => Released(Moved(s, i, Storing(pc.file, out)))
    case Store =>
      Moved(s, i, if pc.outcome.Success? then Idle else Left).(
        results := s.results[pc.file := s.results[pc.file] + [pc.outcome]], failed := s.failed || !pc.outcome.Success?)
  }

  ghost function HelperDoes(c: Config, s: State, i: nat, a: HelperAction): State
    requires Shaped(c, s) && c.workers <= i < |s.threads| && HelperMay(c, s, s.threads[i], a)
  {
    var pc := s.threads[i];
    match a
    case AcquireForBatch => Moved(s, i, Running(pc.file, pc.batch)).(permits := s.permits + 1)
    case FailToAcquire => Moved(s, i, Completing(pc.file, pc.batch, Cancelled))
    case RunBatch(out) => Released(Moved(s, i, Completing(pc.file, pc.batch, out)))
    case Complete =>
      var done := s.completions[pc.file];
      Moved(s, i, Ready).(
        pending := s.pending[pc.file := s.pending[pc.file] - 1],
        completions := s.completions[pc.file := done[pc.batch := done[pc.batch] + [pc.outcome]]],
        fileFailed := s.fileFailed[pc.file := s.fileFailed[pc.file] || pc.outcome.Failed?])
    case Quit => Moved(s, i, Gone)
  }

  ghost function Do(c: Config, s: State, a: Action): State
    requires Shaped(c, s) && Enabled(c, s, a)
  {
    match a
    case ByMain(m) => MainDoes(c, s, m)
    case ByWorker(i, w) => WorkerDoes(c, s, i, w)
    case ByHelper(i, h) => HelperDoes(c, s, i, h)
  }

  ghost predicate Step(c: Config, s: State, t: State) {
    Shaped(c, s) && exists a :: Enabled(c, s, a) && t == Do(c, s, a)
  }

  lemma MainKeepsShape(c: Config, s: State, a: MainAction)
    requires Shaped(c, s) && MainMay(c, s, a)
    ensures Shaped(c, MainDoes(c, s, a))
  {
  }

  lemma HandingOverKeepsShape(c: Config, s: State, i: nat, h: nat)
    requires Shaped(c, s) && i < c.workers && WorkerMay(c, s, s.threads[i], SendBatch(h))
    ensures Shaped(c, WorkerDoes(c, s, i, SendBatch(h)))
  {
  }

  lemma WorkerFitsAfter(c: Config, s: State, i: nat, a: WorkerAction)
    requires Shaped(c, s) && i < c.workers && WorkerMay(c, s, s.threads[i], a) && !a.SendBatch?
    ensures var t := WorkerDoes(c, s, i, a);
      && t.threads == s.threads[i := t.threads[i]] && Fits(c, t.threads[i]) && !t.threads[i].OfPool()
      && t.main == s.main && (WorkDone(s) ==> WorkDone(t)) && t.completions == s.completions
      && |t.pending| == |s.pending| && t.fileFailed == s.fileFailed && |t.results| == |s.results|
  {
  }

  lemma WorkerKeepsShape(c: Config, s: State, i: nat, a: WorkerAction)
    requires Shaped(c, s) && i < c.workers && WorkerMay(c, s, s.threads[i], a)
    ensures Shaped(c, WorkerDoes(c, s, i, a))
  {
    if a.SendBatch? { HandingOverKeepsShape(c, s, i, a.h); } else { WorkerFitsAfter(c, s, i, a); }
  }

  lemma HelperKeepsShape(c: Config, s: State, i: nat, a: HelperAction)
    requires Shaped(c, s) && c.workers <= i < |s.threads| && HelperMay(c, s, s.threads[i], a)
    ensures Shaped(c, HelperDoes(c, s, i, a))
  {
  }

  lemma InitialIsShaped(c: Config)
    requires Valid(c)
    ensures Shaped(c, Initial(c))
  {
  }
}
