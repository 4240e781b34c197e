/**
 What every state of the scheduler keeps: permits equal the threads inside analysis code,
 wait-group counts equal the registered threads, every file and every batch has one place,
 and nothing is lost without an error or a cancellation.
 */
module SchedulerInvariant {
  import opened Sums
  import opened Scheduler

  // ---- Counting threads ----------------------------------------------------------------

  function Holding(): Pc -> nat { (pc: Pc) => if pc.Holds() then 1 else 0 }

  function Pending(f: nat): Pc -> nat { (pc: Pc) => if pc.Pends(f) then 1 else 0 }

  function Owning(f: nat): Pc -> nat { (pc: Pc) => if pc.Owns(f) then 1 else 0 }

  function Awaiting(f: nat): Pc -> nat { (pc: Pc) => if pc.Awaits(f) then 1 else 0 }

  function Carrying(f: nat, k: nat): Pc -> nat { (pc: Pc) => if pc.Carries(f, k) then 1 else 0 }

  /** Every step of a worker but handing over a batch moves that worker alone. */
  lemma WorkerAlone(c: Config, s: State, i: nat, a: WorkerAction)
    requires Shaped(c, s) && i < c.workers && WorkerMay(c, s, s.threads[i], a) && !a.SendBatch?
    ensures WorkerDoes(c, s, i, a).threads == s.threads[i := WorkerDoes(c, s, i, a).threads[i]]
  {
  }

  lemma HandOverMoves(c: Config, s: State, i: nat, h: nat)
    requires Shaped(c, s) && i < c.workers && WorkerMay(c, s, s.threads[i], SendBatch(h))
    ensures var pc := s.threads[i];
      && WorkerDoes(c, s, i, SendBatch(h)) == Moved(Moved(s, i, Submitting(pc.file, pc.batch + 1)), h, Acquiring(pc.file, pc.batch))
      && pc == Offering(pc.file, pc.batch) && s.threads[h] == Ready
  {
  }

  /** Handing over a batch moves the worker and the helper. */
  lemma HandOver(s: State, i: nat, h: nat, pc: Pc, to: Pc, g: Pc -> nat)
    requires i < |s.threads| && h < |s.threads| && i != h
    ensures Sum(Moved(Moved(s, i, pc), h, to).threads, g) == Sum(s.threads, g) - g(s.threads[i]) + g(pc) - g(s.threads[h]) + g(to)
  {
    SumUpdate(s.threads, i, pc, g);
    SumUpdate(s.threads[i := pc], h, to, g);
  }

  // ---- Permits -------------------------------------------------------------------------

  /** Permits are conserved and bounded. */
  ghost predicate PermitsBalance(c: Config, s: State) {
    s.permits == Sum(s.threads, Holding()) <= c.limit
  }

  lemma WorkerPermits(c: Config, s: State, i: nat, a: WorkerAction)
    requires Shaped(c, s) && i < c.workers && WorkerMay(c, s, s.threads[i], a) && Holding()(s.threads[i]) <= s.permits <= c.limit
    ensures var t := WorkerDoes(c, s, i, a);
      t.permits == s.permits - Holding()(s.threads[i]) + Holding()(t.threads[i]) && t.permits <= c.limit
  {
  }

  lemma HandingOverKeepsPermits(c: Config, s: State, i: nat, h: nat)
    requires Shaped(c, s) && i < c.workers && WorkerMay(c, s, s.threads[i], SendBatch(h)) && PermitsBalance(c, s)
    ensures PermitsBalance(c, WorkerDoes(c, s, i, SendBatch(h)))
  {
    var pc := s.threads[i];
    HandOverMoves(c, s, i, h);
    HandOver(s, i, h, Submitting(pc.file, pc.batch + 1), Acquiring(pc.file, pc.batch), Holding());
  }

  lemma WorkerKeepsPermits(c: Config, s: State, i: nat, a: WorkerAction)
    requires Shaped(c, s) && i < c.workers && WorkerMay(c, s, s.threads[i], a) && PermitsBalance(c, s)
    ensures PermitsBalance(c, WorkerDoes(c, s, i, a))
  {
    SumAtLeast(s.threads, i, Holding());
    WorkerPermits(c, s, i, a);
    if a.SendBatch? {
      HandingOverKeepsPermits(c, s, i, a.h);
    } else {
      WorkerAlone(c, s, i, a);
      SumUpdate(s.threads, i, WorkerDoes(c, s, i, a).threads[i], Holding());
    }
  }

  lemma HelperKeepsPermits(c: Config, s: State, i: nat, a: HelperAction)
    requires Shaped(c, s) && c.workers <= i < |s.threads| && HelperMay(c, s, s.threads[i], a) && PermitsBalance(c, s)
    ensures PermitsBalance(c, HelperDoes(c, s, i, a))
  {
    SumAtLeast(s.threads, i, Holding());
    SumUpdate(s.threads, i, HelperDoes(c, s, i, a).threads[i], Holding());
  }

  lemma MainKeepsPermits(c: Config, s: State, a: MainAction)
    requires Shaped(c, s) && MainMay(c, s, a) && PermitsBalance(c, s)
    ensures PermitsBalance(c, MainDoes(c, s, a))
  {
    if a.SendFile? { SumUpdate(s.threads, a.w, Got(s.main.index), Holding()); }
  }

  // ---- Wait groups ---------------------------------------------------------------------

  /** A wait-group count is the number of registered threads, and someone awaits it. */
  ghost predicate GroupBalances(s: State, f: nat)
    requires f < |s.pending|
  {
    s.pending[f] == Sum(s.threads, Pending(f)) && (s.pending[f] > 0 ==> Sum(s.threads, Awaiting(f)) > 0)
  }

  ghost predicate GroupsBalance(c: Config, s: State) {
    |s.pending| == |c.batches| && forall f :: 0 <= f < |c.batches| ==> GroupBalances(s, f)
  }

  lemma WorkerGroup(c: Config, s: State, i: nat, a: WorkerAction, f: nat)
    requires Shaped(c, s) && i < c.workers && WorkerMay(c, s, s.threads[i], a) && f < |c.batches| && !a.SendBatch?
    ensures var t := WorkerDoes(c, s, i, a);
      && t.pending[f] == s.pending[f] - Pending(f)(s.threads[i]) + Pending(f)(t.threads[i])
      && (Awaiting(f)(t.threads[i]) < Awaiting(f)(s.threads[i]) ==> s.pending[f] == 0)
      && (t.pending[f] > s.pending[f] ==> Awaiting(f)(t.threads[i]) > 0)
  {
  }

  lemma HandingOverKeepsGroup(c: Config, s: State, i: nat, h: nat, f: nat)
    requires Shaped(c, s) && i < c.workers && WorkerMay(c, s, s.threads[i], SendBatch(h)) && f < |c.batches| && GroupBalances(s, f)
    ensures GroupBalances(WorkerDoes(c, s, i, SendBatch(h)), f)
  {
    var pc := s.threads[i];
    HandOverMoves(c, s, i, h);
    HandOver(s, i, h, Submitting(pc.file, pc.batch + 1), Acquiring(pc.file, pc.batch), Pending(f));
    HandOver(s, i, h, Submitting(pc.file, pc.batch + 1), Acquiring(pc.file, pc.batch), Awaiting(f));
  }

  lemma WorkerKeepsGroup(c: Config, s: State, i: nat, a: WorkerAction, f: nat)
    requires Shaped(c, s) && i < c.workers && WorkerMay(c, s, s.threads[i], a) && f < |c.batches| && GroupBalances(s, f)
    ensures GroupBalances(WorkerDoes(c, s, i, a), f)
  {
    if a.SendBatch? {
      HandingOverKeepsGroup(c, s, i, a.h, f);
    } else {
      var t := WorkerDoes(c, s, i, a);
      WorkerAlone(c, s, i, a);
      WorkerGroup(c, s, i, a, f);
      SumUpdate(s.threads, i, t.threads[i], Pending(f));
      SumUpdate(s.threads, i, t.threads[i], Awaiting(f));
      SumAtLeast(t.threads, i, Awaiting(f));
    }
  }

  lemma HelperKeepsGroup(c: Config, s: State, i: nat, a: HelperAction, f: nat)
    requires Shaped(c, s) && c.workers <= i < |s.threads| && HelperMay(c, s, s.threads[i], a) && f < |c.batches| && GroupBalances(s, f)
    ensures GroupBalances(HelperDoes(c, s, i, a), f)
  {
    SumUpdate(s.threads, i, HelperDoes(c, s, i, a).threads[i], Pending(f));
    SumUpdate(s.threads, i, HelperDoes(c, s, i, a).threads[i], Awaiting(f));
  }

  lemma MainKeepsGroup(c: Config, s: State, a: MainAction, f: nat)
    requires Shaped(c, s) && MainMay(c, s, a) && f < |c.batches| && GroupBalances(s, f)
    ensures GroupBalances(MainDoes(c, s, a), f)
  {
    if a.SendFile? {
      SumUpdate(s.threads, a.w, Got(s.main.index), Pending(f));
      SumUpdate(s.threads, a.w, Got(s.main.index), Awaiting(f));
    }
  }

  // ---- Files ---------------------------------------------------------------------------

  /** How many files have been handed out. */
  function Sent(c: Config, s: State): nat {
    match s.main
    case Sending(i) => i
    case Checking(i) => i + 1
    case Joining(sent) => sent
    case _ => |c.batches|
  }

  /** Workers that have file `f` and writes to its slot. */
  ghost function Places(s: State, f: nat): nat
    requires f < |s.results|
  {
    Sum(s.threads, Owning(f)) + |s.results[f]|
  }

  /** A file is in one place at most, and missing only before it is sent or after a cancellation. */
  ghost predicate FilePlaced(c: Config, s: State, f: nat)
    requires f < |s.results|
  {
    && Places(s, f) <= 1
    && (f >= Sent(c, s) ==> Places(s, f) == 0)
    && (f < Sent(c, s) && Places(s, f) == 0 ==> WorkDone(s))
    && (s.results[f] != [] && s.results[f][0] != Success ==> s.failed)
  }

  ghost predicate FilesPlaced(c: Config, s: State) {
    |s.results| == |c.batches| && forall f :: 0 <= f < |c.batches| ==> FilePlaced(c, s, f)
  }

  lemma WorkerFile(c: Config, s: State, i: nat, a: WorkerAction, f: nat)
    requires Shaped(c, s) && i < c.workers && WorkerMay(c, s, s.threads[i], a) && f < |c.batches|
    ensures var t := WorkerDoes(c, s, i, a); var before, after := Owning(f)(s.threads[i]), Owning(f)(t.threads[i]);
      && t.main == s.main && t.cancelled == s.cancelled && (s.failed ==> t.failed)
      && (s.results[f] <= t.results[f] && before + |s.results[f]| >= after + |t.results[f]|)
      && (before + |s.results[f]| > after + |t.results[f]| ==> WorkDone(s))
      && (t.results[f] != s.results[f] ==> t.results[f][|s.results[f]|..] == [Success] || t.failed)
  {
  }

  lemma WorkerKeepsFile(c: Config, s: State, i: nat, a: WorkerAction, f: nat)
    requires Shaped(c, s) && i < c.workers && WorkerMay(c, s, s.threads[i], a) && f < |c.batches| && FilePlaced(c, s, f)
    ensures FilePlaced(c, WorkerDoes(c, s, i, a), f)
  {
    var pc := s.threads[i];
    if a.SendBatch? {
      HandOver(s, i, a.h, Submitting(pc.file, pc.batch + 1), Acquiring(pc.file, pc.batch), Owning(f));
    } else {
      WorkerAlone(c, s, i, a);
      WorkerFile(c, s, i, a, f);
      SumUpdate(s.threads, i, WorkerDoes(c, s, i, a).threads[i], Owning(f));
    }
  }

  lemma HelperKeepsFile(c: Config, s: State, i: nat, a: HelperAction, f: nat)
    requires Shaped(c, s) && c.workers <= i < |s.threads| && HelperMay(c, s, s.threads[i], a) && f < |c.batches| && FilePlaced(c, s, f)
    ensures FilePlaced(c, HelperDoes(c, s, i, a), f)
  {
    SumUpdate(s.threads, i, HelperDoes(c, s, i, a).threads[i], Owning(f));
  }

  lemma MainKeepsFile(c: Config, s: State, a: MainAction, f: nat)
    requires Shaped(c, s) && MainMay(c, s, a) && f < |c.batches| && FilePlaced(c, s, f)
    ensures FilePlaced(c, MainDoes(c, s, a), f)
  {
    if a.SendFile? { SumUpdate(s.threads, a.w, Got(s.main.index), Owning(f)); }
  }

  // ---- Batches -------------------------------------------------------------------------

  /** Pool workers that have batch `k` of `f`, and its completions. */
  ghost function Uses(s: State, f: nat, k: nat): nat
    requires f < |s.completions| && k < |s.completions[f]|
  {
    Sum(s.threads, Carrying(f, k)) + |s.completions[f][k]|
  }

  ghost predicate Succeeded(s: State, f: nat, k: nat)
    requires f < |s.completions| && k < |s.completions[f]|
  {
    s.completions[f][k] == [Success]
  }

  /** A batch runs once at most, not before its file is sent, and fails only with a reason. */
  ghost predicate BatchPlaced(c: Config, s: State, f: nat, k: nat)
    requires f < |s.completions| && k < |s.completions[f]| && f < |s.results| && f < |s.fileFailed|
  {
    && Uses(s, f, k) <= 1
    && (f >= Sent(c, s) ==> Uses(s, f, k) == 0)
    && (s.completions[f][k] != [] && s.completions[f][k][0] != Success ==> BatchesDone(s, f))
    && (s.results[f] == [Success] ==> Succeeded(s, f, k))
  }

  /** What a thread's place says about batch `k` of the thread's file. */
  ghost predicate BatchFits(s: State, pc: Pc, k: nat)
    requires !pc.Idle? && !pc.Left? && !pc.Ready? && !pc.Gone?
    requires pc.file < |s.completions| && k < |s.completions[pc.file]|
  {
    match pc
    case Got(f) => Uses(s, f, k) == 0
    case Analyzing(f) => Uses(s, f, k) == 0
    case Submitting(f, j) => Uses(s, f, k) == if k < j then 1 else 0
    case Offering(f, j) => Uses(s, f, k) == if k < j then 1 else 0
    case Waiting(f) => Uses(s, f, k) == 1 || BatchesDone(s, f)
    case Reacquiring(f, out) => out.Success? ==> Succeeded(s, f, k)
    case Finishing(f, out) => out.Success? ==> Succeeded(s, f, k)
    case Storing(f, out) => out.Success? ==> Succeeded(s, f, k)
    case Completing(f, _, out) => !out.Success? ==> out.Failed? || BatchesDone(s, f)
    case _ => true
  }

  predicate HasFile(pc: Pc) { !pc.Idle? && !pc.Left? && !pc.Ready? && !pc.Gone? }

  ghost predicate BatchesPlaced(c: Config, s: State)
    requires Shaped(c, s)
  {
    && (forall f, k | 0 <= f < |c.batches| && 0 <= k < c.batches[f] :: BatchPlaced(c, s, f, k))
    && (forall i, k | 0 <= i < |s.threads| && HasFile(s.threads[i]) && 0 <= k < c.batches[s.threads[i].file] ::
          BatchFits(s, s.threads[i], k))
  }

  /** A worker's private step leaves every batch where it is. */
  lemma WorkerUses(c: Config, s: State, i: nat, a: WorkerAction, f: nat, k: nat)
    requires Shaped(c, s) && i < c.workers && WorkerMay(c, s, s.threads[i], a) && !a.SendBatch? && f < |c.batches| && k < c.batches[f]
    ensures var t := WorkerDoes(c, s, i, a);
      && t.completions == s.completions && t.fileFailed == s.fileFailed && t.main == s.main
      && (WorkDone(s) ==> WorkDone(t)) && Uses(t, f, k) == Uses(s, f, k)
  {
    WorkerAlone(c, s, i, a);
    SumUpdate(s.threads, i, WorkerDoes(c, s, i, a).threads[i], Carrying(f, k));
  }

  lemma WorkerKeepsBatch(c: Config, s: State, i: nat, a: WorkerAction, f: nat, k: nat)
    requires Shaped(c, s) && i < c.workers && WorkerMay(c, s, s.threads[i], a) && !a.SendBatch? && f < |c.batches| && k < c.batches[f]
    requires BatchesPlaced(c, s) && FilesPlaced(c, s)
    ensures BatchPlaced(c, WorkerDoes(c, s, i, a), f, k)
  {
    WorkerUses(c, s, i, a, f, k);
    assert BatchPlaced(c, s, f, k);
    if a.Store? && s.threads[i].file == f {
      assert BatchFits(s, s.threads[i], k);
      OwnedIsUnwritten(c, s, i);
      assert WorkerDoes(c, s, i, a).results[f][0] == s.threads[i].outcome;
    }
  }

  /** A slot is written only once its worker lets the file go. */
  lemma OwnedIsUnwritten(c: Config, s: State, i: nat)
    requires Shaped(c, s) && FilesPlaced(c, s) && i < c.workers && HasFile(s.threads[i])
    ensures var f := s.threads[i].file; s.results[f] == [] && f < Sent(c, s)
  {
    var f := s.threads[i].file;
    assert FilePlaced(c, s, f);
    SumAtLeast(s.threads, i, Owning(f));
  }

  /** What the worker knows of its batches after its own step. */
  lemma WorkerFits(c: Config, s: State, i: nat, a: WorkerAction, k: nat)
    requires Shaped(c, s) && i < c.workers && WorkerMay(c, s, s.threads[i], a) && !a.SendBatch?
    requires BatchesPlaced(c, s) && GroupsBalance(c, s)
    requires var pc := WorkerDoes(c, s, i, a).threads[i]; HasFile(pc) && k < c.batches[pc.file]
    ensures BatchFits(WorkerDoes(c, s, i, a), WorkerDoes(c, s, i, a).threads[i], k)
  {
    var f := s.threads[i].file;
    WorkerUses(c, s, i, a, f, k);
    assert BatchFits(s, s.threads[i], k);
    if a.AwaitBatches? { AwaitedBatches(c, s, i, k); }
  }

  /** Without error or cancellation, an empty wait group means that every batch has succeeded. */
  lemma AwaitedBatches(c: Config, s: State, i: nat, k: nat)
    requires Shaped(c, s) && BatchesPlaced(c, s) && GroupsBalance(c, s) && i < c.workers && s.threads[i].Waiting?
    requires s.pending[s.threads[i].file] == 0 && k < c.batches[s.threads[i].file]
    ensures BatchesDone(s, s.threads[i].file) || Succeeded(s, s.threads[i].file, k)
  {
    var f := s.threads[i].file;
    assert GroupBalances(s, f) && BatchFits(s, s.threads[i], k) && BatchPlaced(c, s, f, k);
    SumMonotone(s.threads, Carrying(f, k), Pending(f));
  }

  lemma WorkerKeepsFits(c: Config, s: State, i: nat, a: WorkerAction, j: nat, k: nat)
    requires Shaped(c, s) && i < c.workers && WorkerMay(c, s, s.threads[i], a) && !a.SendBatch?
    requires BatchesPlaced(c, s) && GroupsBalance(c, s) && j < |s.threads|
    requires var pc := WorkerDoes(c, s, i, a).threads[j]; HasFile(pc) && k < c.batches[pc.file]
    ensures BatchFits(WorkerDoes(c, s, i, a), WorkerDoes(c, s, i, a).threads[j], k)
  {
    WorkerAlone(c, s, i, a);
    if j == i {
      WorkerFits(c, s, i, a, k);
    } else {
      WorkerUses(c, s, i, a, s.threads[j].file, k);
      assert BatchFits(s, s.threads[j], k);
    }
  }

  // ---- Handing over a batch ------------------------------------------------------------

  lemma HandedOverUses(c: Config, s: State, i: nat, h: nat, f: nat, k: nat)
    requires Shaped(c, s) && i < c.workers && WorkerMay(c, s, s.threads[i], SendBatch(h)) && f < |c.batches| && k < c.batches[f]
    ensures var t := WorkerDoes(c, s, i, SendBatch(h)); var pc := s.threads[i];
      && t.completions == s.completions && t.fileFailed == s.fileFailed && t.results == s.results
      && t.main == s.main && WorkDone(t) == WorkDone(s)
      && Uses(t, f, k) == Uses(s, f, k) + if f == pc.file && k == pc.batch then 1 else 0
  {
    var pc := s.threads[i];
    HandOverMoves(c, s, i, h);
    HandOver(s, i, h, Submitting(pc.file, pc.batch + 1), Acquiring(pc.file, pc.batch), Carrying(f, k));
  }

  lemma HandingOverKeepsBatch(c: Config, s: State, i: nat, h: nat, f: nat, k: nat)
    requires Shaped(c, s) && i < c.workers && WorkerMay(c, s, s.threads[i], SendBatch(h)) && f < |c.batches| && k < c.batches[f]
    requires BatchesPlaced(c, s) && FilesPlaced(c, s)
    ensures BatchPlaced(c, WorkerDoes(c, s, i, SendBatch(h)), f, k)
  {
    HandedOverUses(c, s, i, h, f, k);
    assert BatchPlaced(c, s, f, k);
    if f == s.threads[i].file && k == s.threads[i].batch {
      assert BatchFits(s, s.threads[i], k);
      OwnedIsUnwritten(c, s, i);
    }
  }

  /** Two workers never have the same file. */
  lemma OneOwner(c: Config, s: State, i: nat, j: nat)
    requires Shaped(c, s) && FilesPlaced(c, s) && i < c.workers && j < c.workers && i != j && HasFile(s.threads[i]) && HasFile(s.threads[j])
    ensures s.threads[i].file != s.threads[j].file
  {
    var f := s.threads[i].file;
    assert FilePlaced(c, s, f);
    SumOfTwo(s.threads, i, j, Owning(f));
  }

  lemma HandingOverKeepsFits(c: Config, s: State, i: nat, h: nat, j: nat, k: nat)
    requires Shaped(c, s) && i < c.workers && WorkerMay(c, s, s.threads[i], SendBatch(h)) && j < |s.threads|
    requires BatchesPlaced(c, s) && FilesPlaced(c, s)
    requires var pc := WorkerDoes(c, s, i, SendBatch(h)).threads[j]; HasFile(pc) && k < c.batches[pc.file]
    ensures BatchFits(WorkerDoes(c, s, i, SendBatch(h)), WorkerDoes(c, s, i, SendBatch(h)).threads[j], k)
  {
    var t := WorkerDoes(c, s, i, SendBatch(h));
    if j == i {
      HandedOverUses(c, s, i, h, s.threads[i].file, k);
      assert BatchFits(s, s.threads[i], k);
    } else if j != h {
      HandedOverUses(c, s, i, h, s.threads[j].file, k);
      assert BatchFits(s, s.threads[j], k);
      if j < c.workers { OneOwner(c, s, i, j); }
    }
  }

  // ---- Helpers and batches -------------------------------------------------------------

  lemma HelperUses(c: Config, s: State, i: nat, a: HelperAction, f: nat, k: nat)
    requires Shaped(c, s) && c.workers <= i < |s.threads| && HelperMay(c, s, s.threads[i], a) && f < |c.batches| && k < c.batches[f]
    ensures var t := HelperDoes(c, s, i, a);
      && Uses(t, f, k) == Uses(s, f, k) && t.results == s.results && t.main == s.main && WorkDone(t) == WorkDone(s)
      && (BatchesDone(s, f) ==> BatchesDone(t, f))
  {
    SumUpdate(s.threads, i, HelperDoes(c, s, i, a).threads[i], Carrying(f, k));
  }

  /** A batch that is still carried has not completed. */
  lemma CarriedIsUnwritten(c: Config, s: State, i: nat)
    requires Shaped(c, s) && BatchesPlaced(c, s) && c.workers <= i < |s.threads| && HasFile(s.threads[i])
    ensures s.completions[s.threads[i].file][s.threads[i].batch] == []
  {
    var pc := s.threads[i];
    assert BatchPlaced(c, s, pc.file, pc.batch);
    SumAtLeast(s.threads, i, Carrying(pc.file, pc.batch));
  }

  lemma HelperKeepsSuccess(c: Config, s: State, i: nat, a: HelperAction, f: nat, k: nat)
    requires Shaped(c, s) && c.workers <= i < |s.threads| && HelperMay(c, s, s.threads[i], a) && f < |c.batches| && k < c.batches[f]
    requires BatchesPlaced(c, s) && Succeeded(s, f, k)
    ensures Succeeded(HelperDoes(c, s, i, a), f, k)
  {
    if HasFile(s.threads[i]) { CarriedIsUnwritten(c, s, i); }
  }

  lemma HelperKeepsBatch(c: Config, s: State, i: nat, a: HelperAction, f: nat, k: nat)
    requires Shaped(c, s) && c.workers <= i < |s.threads| && HelperMay(c, s, s.threads[i], a) && f < |c.batches| && k < c.batches[f]
    requires BatchesPlaced(c, s)
    ensures BatchPlaced(c, HelperDoes(c, s, i, a), f, k)
  {
    HelperUses(c, s, i, a, f, k);
    assert BatchPlaced(c, s, f, k);
    if Succeeded(s, f, k) { HelperKeepsSuccess(c, s, i, a, f, k); }
    if a.Complete? {
      CarriedIsUnwritten(c, s, i);
      assert BatchFits(s, s.threads[i], s.threads[i].batch);
    }
  }

  lemma HelperKeepsFits(c: Config, s: State, i: nat, a: HelperAction, j: nat, k: nat)
    requires Shaped(c, s) && c.workers <= i < |s.threads| && HelperMay(c, s, s.threads[i], a) && j < |s.threads|
    requires BatchesPlaced(c, s)
    requires var pc := HelperDoes(c, s, i, a).threads[j]; HasFile(pc) && k < c.batches[pc.file]
    ensures BatchFits(HelperDoes(c, s, i, a), HelperDoes(c, s, i, a).threads[j], k)
  {
    if j != i {
      var f := s.threads[j].file;
      HelperUses(c, s, i, a, f, k);
      assert BatchFits(s, s.threads[j], k);
      if Succeeded(s, f, k) { HelperKeepsSuccess(c, s, i, a, f, k); }
    }
  }

  // ---- The sending goroutine and batches -----------------------------------------------

  lemma MainUses(c: Config, s: State, a: MainAction, f: nat, k: nat)
    requires Shaped(c, s) && MainMay(c, s, a) && f < |c.batches| && k < c.batches[f]
    ensures var t := MainDoes(c, s, a);
      && Uses(t, f, k) == Uses(s, f, k) && t.results == s.results && t.completions == s.completions && t.fileFailed == s.fileFailed
      && (WorkDone(s) ==> WorkDone(t)) && (f >= Sent(c, t) ==> f >= Sent(c, s))
  {
    if a.SendFile? { SumUpdate(s.threads, a.w, Got(s.main.index), Carrying(f, k)); }
  }

  lemma MainKeepsBatch(c: Config, s: State, a: MainAction, f: nat, k: nat)
    requires Shaped(c, s) && MainMay(c, s, a) && f < |c.batches| && k < c.batches[f] && BatchesPlaced(c, s)
    ensures BatchPlaced(c, MainDoes(c, s, a), f, k)
  {
    MainUses(c, s, a, f, k);
    assert BatchPlaced(c, s, f, k);
  }

  lemma MainKeepsFits(c: Config, s: State, a: MainAction, j: nat, k: nat)
    requires Shaped(c, s) && MainMay(c, s, a) && j < |s.threads| && BatchesPlaced(c, s)
    requires var pc := MainDoes(c, s, a).threads[j]; HasFile(pc) && k < c.batches[pc.file]
    ensures BatchFits(MainDoes(c, s, a), MainDoes(c, s, a).threads[j], k)
  {
    var f := MainDoes(c, s, a).threads[j].file;
    MainUses(c, s, a, f, k);
    assert BatchPlaced(c, s, f, k);
    if !(a.SendFile? && a.w == j) { assert BatchFits(s, s.threads[j], k); }
  }

  // ---- How runs end --------------------------------------------------------------------

  /** Workers leave early only for a reason, the pool closes last, and success is earned. */
  ghost predicate Ends(c: Config, s: State)
    requires Shaped(c, s)
  {
    && (s.main.Sending? || s.main.Checking? ==> forall i :: 0 <= i < c.workers && s.threads[i].Left? ==> WorkDone(s))
    && (s.main.Closing? || PoolClosed(s) ==> forall i :: 0 <= i < c.workers ==> s.threads[i].Left?)
    && (forall i :: 0 <= i < |s.threads| && s.threads[i].Gone? ==> PoolClosed(s))
    && (s.main.Returned? ==> forall i :: c.workers <= i < |s.threads| ==> s.threads[i].Gone?)
    && ((s.main.Closing? || PoolClosed(s)) && s.main.ok ==> forall f :: 0 <= f < |c.batches| ==> s.results[f] == [Success])
    && ((s.main.Closing? || PoolClosed(s)) && !s.main.ok ==> WorkDone(s))
  }

  lemma WorkerKeepsEnds(c: Config, s: State, i: nat, a: WorkerAction)
    requires Shaped(c, s) && i < c.workers && WorkerMay(c, s, s.threads[i], a) && Ends(c, s)
    ensures Shaped(c, WorkerDoes(c, s, i, a)) && Ends(c, WorkerDoes(c, s, i, a))
  {
    WorkerKeepsShape(c, s, i, a);
  }

  lemma HelperKeepsEnds(c: Config, s: State, i: nat, a: HelperAction)
    requires Shaped(c, s) && c.workers <= i < |s.threads| && HelperMay(c, s, s.threads[i], a) && Ends(c, s)
    ensures Shaped(c, HelperDoes(c, s, i, a)) && Ends(c, HelperDoes(c, s, i, a))
  {
    HelperKeepsShape(c, s, i, a);
  }

  /** When all workers have left without error or cancellation, every slot holds one success. */
  lemma AllSucceeded(c: Config, s: State, f: nat)
    requires Shaped(c, s) && FilesPlaced(c, s) && s.main.Joining? && f < |c.batches| && !WorkDone(s)
    requires forall i :: 0 <= i < c.workers ==> s.threads[i].Left?
    ensures s.results[f] == [Success]
  {
    assert FilePlaced(c, s, f);
    SumZero(s.threads, Owning(f));
    assert |s.results[f]| == 1;
  }

  lemma MainKeepsEnds(c: Config, s: State, a: MainAction)
    requires Shaped(c, s) && MainMay(c, s, a) && Ends(c, s) && FilesPlaced(c, s)
    ensures Shaped(c, MainDoes(c, s, a)) && Ends(c, MainDoes(c, s, a))
  {
    MainKeepsShape(c, s, a);
    if a.JoinWorkers? && !WorkDone(s) {
      forall f | 0 <= f < |c.batches| ensures s.results[f] == [Success] { AllSucceeded(c, s, f); }
    }
  }

  // ---- The invariant -------------------------------------------------------------------

  ghost predicate Inv(c: Config, s: State) {
    Valid(c) && Shaped(c, s) && PermitsBalance(c, s) && GroupsBalance(c, s) && FilesPlaced(c, s) && BatchesPlaced(c, s) && Ends(c, s)
  }

  lemma InitialBatch(c: Config, f: nat, k: nat)
    requires Valid(c) && Shaped(c, Initial(c)) && f < |c.batches| && k < c.batches[f]
    ensures BatchPlaced(c, Initial(c), f, k)
  {
    SumZero(Initial(c).threads, Carrying(f, k));
  }

  lemma InitialHolds(c: Config)
    requires Valid(c)
    ensures Inv(c, Initial(c))
  {
    var s := Initial(c);
    InitialIsShaped(c);
    SumZero(s.threads, Holding());
    forall f | 0 <= f < |c.batches| ensures GroupBalances(s, f) && FilePlaced(c, s, f) {
      SumZero(s.threads, Pending(f));
      SumZero(s.threads, Owning(f));
    }
    forall f, k | 0 <= f < |c.batches| && 0 <= k < c.batches[f] ensures BatchPlaced(c, s, f, k) { InitialBatch(c, f, k); }
  }

  lemma WorkerKeepsInv(c: Config, s: State, i: nat, a: WorkerAction)
    requires Inv(c, s) && i < c.workers && WorkerMay(c, s, s.threads[i], a)
    ensures Inv(c, WorkerDoes(c, s, i, a))
  {
    var t := WorkerDoes(c, s, i, a);
    WorkerKeepsShape(c, s, i, a);
    WorkerKeepsPermits(c, s, i, a);
    WorkerKeepsEnds(c, s, i, a);
    forall f | 0 <= f < |c.batches| ensures GroupBalances(t, f) && FilePlaced(c, t, f) {
      WorkerKeepsGroup(c, s, i, a, f);
      WorkerKeepsFile(c, s, i, a, f);
    }
    forall f, k | 0 <= f < |c.batches| && 0 <= k < c.batches[f] ensures BatchPlaced(c, t, f, k) {
      if a.SendBatch? { HandingOverKeepsBatch(c, s, i, a.h, f, k); } else { WorkerKeepsBatch(c, s, i, a, f, k); }
    }
    forall j, k | 0 <= j < |t.threads| && HasFile(t.threads[j]) && 0 <= k < c.batches[t.threads[j].file]
      ensures BatchFits(t, t.threads[j], k)
    {
      if a.SendBatch? { HandingOverKeepsFits(c, s, i, a.h, j, k); } else { WorkerKeepsFits(c, s, i, a, j, k); }
    }
  }

  lemma HelperKeepsInv(c: Config, s: State, i: nat, a: HelperAction)
    requires Inv(c, s) && c.workers <= i < |s.threads| && HelperMay(c, s, s.threads[i], a)
    ensures Inv(c, HelperDoes(c, s, i, a))
  {
    var t := HelperDoes(c, s, i, a);
    HelperKeepsShape(c, s, i, a);
    HelperKeepsPermits(c, s, i, a);
    HelperKeepsEnds(c, s, i, a);
    forall f | 0 <= f < |c.batches| ensures GroupBalances(t, f) && FilePlaced(c, t, f) {
      HelperKeepsGroup(c, s, i, a, f);
      HelperKeepsFile(c, s, i, a, f);
    }
    forall f, k | 0 <= f < |c.batches| && 0 <= k < c.batches[f] ensures BatchPlaced(c, t, f, k) { HelperKeepsBatch(c, s, i, a, f, k); }
    forall j, k | 0 <= j < |t.threads| && HasFile(t.threads[j]) && 0 <= k < c.batches[t.threads[j].file]
      ensures BatchFits(t, t.threads[j], k)
    {
      HelperKeepsFits(c, s, i, a, j, k);
    }
  }

  lemma MainKeepsInv(c: Config, s: State, a: MainAction)
    requires Inv(c, s) && MainMay(c, s, a)
    ensures Inv(c, MainDoes(c, s, a))
  {
    var t := MainDoes(c, s, a);
    MainKeepsShape(c, s, a);
    MainKeepsPermits(c, s, a);
    MainKeepsEnds(c, s, a);
    forall f | 0 <= f < |c.batches| ensures GroupBalances(t, f) && FilePlaced(c, t, f) {
      MainKeepsGroup(c, s, a, f);
      MainKeepsFile(c, s, a, f);
    }
    forall f, k | 0 <= f < |c.batches| && 0 <= k < c.batches[f] ensures BatchPlaced(c, t, f, k) { MainKeepsBatch(c, s, a, f, k); }
    forall j, k | 0 <= j < |t.threads| && HasFile(t.threads[j]) && 0 <= k < c.batches[t.threads[j].file]
      ensures BatchFits(t, t.threads[j], k)
    {
      MainKeepsFits(c, s, a, j, k);
    }
  }

  lemma StepKeepsInv(c: Config, s: State, t: State)
    requires Inv(c, s) && Step(c, s, t)
    ensures Inv(c, t)
  {
    var a :| Enabled(c, s, a) && t == Do(c, s, a);
    match a
    case ByMain(m) => MainKeepsInv(c, s, m);
    case ByWorker(i, w) => WorkerKeepsInv(c, s, i, w);
    case ByHelper(i, h) => HelperKeepsInv(c, s, i, h);
  }
}
