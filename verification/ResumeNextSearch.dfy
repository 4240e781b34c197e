/**
 The breadth-first search over Resume Next states.  It ends on every procedure and reports
 exactly the outcomes of all finite paths, although it skips every state whose text key it
 has seen before.
 */
module ResumeNextSearch {
  import opened Wrappers
  import opened ConditionalCompilation
  import Count = ConditionalCount
  import opened Text
  import opened ResumeNext

  ghost predicate Next(p: Procedure, judge: Judge, s: State, t: State) {
    GoesOn(p, s) && exists e <- p.edges ::
      e.source == s.block && Followed(p, e) && !IsExit(p, e.target) && t == After(p, judge, s).(block := e.target)
  }

  ghost predicate First(p: Procedure, start: int, t: State) {
    exists e <- p.edges :: e.source == start && !e.exceptional && !IsExit(p, e.target) && t == Entered(e.target)
  }

  ghost predicate LeavesAtOnce(p: Procedure, start: int, o: Outcome) {
    exists e <- p.edges :: e.source == start && !e.exceptional && IsExit(p, e.target) && o == Outcome(EndLine(p, e), UNRESTORED)
  }

  // ---- Visited states ------------------------------------------------------------------

  lemma FirstIsVisited(p: Procedure, judge: Judge, start: int, t: State)
    requires First(p, start, t)
    ensures Visits(p, judge, start, t)
  {
    var e :| e in p.edges && e.source == start && !e.exceptional && !IsExit(p, e.target) && t == Entered(e.target);
    assert Along(p, judge, start, [e]) == Some(t);
  }

  lemma PathExtends(p: Procedure, judge: Judge, start: int, path: seq<Edge>, s: State, e: Edge)
    requires Along(p, judge, start, path) == Some(s) && GoesOn(p, s)
    requires e in p.edges && e.source == s.block && Followed(p, e) && !IsExit(p, e.target)
    ensures Along(p, judge, start, path + [e]) == Some(After(p, judge, s).(block := e.target))
  {
    var longer := path + [e];
    assert longer[..|longer| - 1] == path && longer[|longer| - 1] == e && path != [];
  }

  lemma NextIsVisited(p: Procedure, judge: Judge, start: int, s: State, t: State)
    requires Visits(p, judge, start, s) && Next(p, judge, s, t)
    ensures Visits(p, judge, start, t)
  {
    var path :| Along(p, judge, start, path) == Some(s);
    var e :| e in p.edges && e.source == s.block && Followed(p, e) && !IsExit(p, e.target) && t == After(p, judge, s).(block := e.target);
    PathExtends(p, judge, start, path, s, e);
  }

  /** A set that holds the first states and everything next to its members holds every visited state. */
  lemma {:induction false} ClosedHoldsVisited(p: Procedure, judge: Judge, start: int, done: set<State>, path: seq<Edge>)
    requires forall t | First(p, start, t) :: t in done
    requires forall s, t | s in done && Next(p, judge, s, t) :: t in done
    ensures Along(p, judge, start, path).Some? ==> Along(p, judge, start, path).value in done
    decreases |path|
  {
    if path != [] && Along(p, judge, start, path).Some? {
      var e, t := path[|path| - 1], Along(p, judge, start, path).value;
      if |path| == 1 {
        assert First(p, start, t);
      } else {
        ClosedHoldsVisited(p, judge, start, done, path[..|path| - 1]);
        assert Next(p, judge, Along(p, judge, start, path[..|path| - 1]).value, t);
      }
    }
  }

  lemma FirstIsPossible(p: Procedure, start: int, t: State)
    requires First(p, start, t)
    ensures Possible(p, t)
  {
    assert Mirrors(t.counter.frames, []);
    assert [] in Paths(p);
  }

  lemma NextIsPossible(p: Procedure, judge: Judge, s: State, t: State)
    requires Possible(p, s) && Next(p, judge, s, t)
    ensures Possible(p, t)
  {
    var x := StatementAt(p, s.block).value;
    assert p.blocks[s.block - 1] in p.blocks && x in Statements(p);
    ApplyKeeps(p, judge, s, x);
  }

  // ---- What a path leaves behind ---------------------------------------------------------

  /** Reasons found on the way to `s` still stand in `t`; an open scope has not met an exit. */
  ghost predicate KeepsReasons(s: State, t: State) {
    && (s.counter.multiple ==> t.counter.multiple) && (s.controlFlow ==> t.controlFlow) && (s.projectCall ==> t.projectCall)
    && t.unrestored == s.unrestored
  }

  lemma {:induction false} CommitKeepsFlag(c: Counter, n: nat)
    ensures Count.CommitTo(c, n).multiple == c.multiple
    decreases |c.frames|
  {
    if |c.frames| > n { CommitKeepsFlag(Commit(c), n); }
  }

  lemma {:induction false} ExtendKeepsFlag(c: Counter, path: seq<Branch>)
    ensures Extend(c, path).multiple == c.multiple
    decreases |path| - |c.frames|
  {
    if |c.frames| < |path| {
      var b := path[|c.frames|];
      ExtendKeepsFlag(c.(frames := c.frames + [Frame(b.group, b.branch, Current(c), 0, 0)]), path);
    }
  }

  lemma SyncKeepsFlag(c: Counter, path: seq<Branch>)
    requires Count.Small(c)
    ensures Sync(c, path).multiple == c.multiple
  {
    var n := Common(c.frames, path);
    CommonMatches(c.frames, path);
    Count.UnwindIs(c, n, path);
    CommitKeepsFlag(c, if SameGroupAt(c, n, path) then n + 1 else n);
    ExtendKeepsFlag(Switch(Unwind(c, n, path), n, path), path);
  }

  lemma ExplainKeepsReasons(p: Procedure, judge: Judge, s: State, x: Statement, inspects: bool)
    ensures KeepsReasons(s, Explain(p, judge, s, x, inspects))
  {
  }

  lemma ProbedKeepsReasons(p: Procedure, judge: Judge, s: State, x: Statement)
    ensures KeepsReasons(s, Probed(p, judge, s, x))
  {
    forall t: State, covered: bool, inspects: bool | KeepsReasons(s, t)
      ensures KeepsReasons(s, Explain(p, judge, Risk(t, x, covered), x, inspects))
    {
      ExplainKeepsReasons(p, judge, Risk(t, x, covered), x, inspects);
    }
  }

  lemma ApplyKeepsReasons(p: Procedure, judge: Judge, s: State, x: Statement)
    requires Count.Small(s.counter)
    ensures KeepsReasons(s, Apply(p, judge, s, x))
  {
    SyncKeepsFlag(s.counter, x.path);
    ProbedKeepsReasons(p, judge, Synced(s, x), x);
  }

  lemma NextKeepsReasons(p: Procedure, judge: Judge, s: State, t: State)
    requires Possible(p, s) && Next(p, judge, s, t)
    ensures KeepsReasons(s, t)
  {
    ApplyKeepsReasons(p, judge, s, StatementAt(p, s.block).value);
  }

  lemma LastStep(p: Procedure, judge: Judge, start: int, path: seq<Edge>)
    requires |path| > 1 && Along(p, judge, start, path).Some?
    ensures var s := Along(p, judge, start, path[..|path| - 1]); s.Some? && Next(p, judge, s.value, Along(p, judge, start, path).value)
  {
  }

  lemma {:induction false} VisitedIsPossible(p: Procedure, judge: Judge, start: int, path: seq<Edge>)
    requires Along(p, judge, start, path).Some?
    ensures Possible(p, Along(p, judge, start, path).value) && !Along(p, judge, start, path).value.unrestored
    decreases |path|
  {
    var t := Along(p, judge, start, path).value;
    if |path| == 1 {
      assert First(p, start, t);
      FirstIsPossible(p, start, t);
    } else {
      var before := path[..|path| - 1];
      LastStep(p, judge, start, path);
      VisitedIsPossible(p, judge, start, before);
      var s := Along(p, judge, start, before).value;
      NextIsPossible(p, judge, s, t);
      NextKeepsReasons(p, judge, s, t);
    }
  }

  /** However a path goes on, it keeps the reasons it has, and its scope has met no exit. */
  lemma {:induction false} ReasonsPersist(p: Procedure, judge: Judge, start: int, path: seq<Edge>, rest: seq<Edge>)
    requires path != [] && Along(p, judge, start, path + rest).Some?
    ensures Along(p, judge, start, path).Some?
    ensures KeepsReasons(Along(p, judge, start, path).value, Along(p, judge, start, path + rest).value)
    ensures !Along(p, judge, start, path + rest).value.unrestored
    decreases |rest|
  {
    var all := path + rest;
    VisitedIsPossible(p, judge, start, all);
    if rest == [] {
      assert all == path;
    } else {
      assert all[..|all| - 1] == path + rest[..|rest| - 1];
      LastStep(p, judge, start, all);
      ReasonsPersist(p, judge, start, path, rest[..|rest| - 1]);
      VisitedIsPossible(p, judge, start, all[..|all| - 1]);
      NextKeepsReasons(p, judge, Along(p, judge, start, all[..|all| - 1]).value, Along(p, judge, start, all).value);
    }
  }

  /** The statement runs a resolved project procedure that no probe rule covers. */
  predicate UncoveredProjectCall(judge: Judge, before: State, x: Statement) {
    var s := Synced(before, x);
    && x.projectCall && !x.resumes && !x.restores && !(Current(s.counter) == 0 && x.safeInitialization)
    && !judge(s, x).memberProbe && !judge(s, x).projectProbe && !ContinuesBounds(s, x) && !(x.errProbe && !x.conditionCall)
  }

  lemma CallRaisesFlag(p: Procedure, judge: Judge, before: State, x: Statement)
    requires UncoveredProjectCall(judge, before, x)
    ensures Apply(p, judge, before, x).projectCall
  {
    var s := Synced(before, x);
    ExplainKeepsReasons(p, judge, Risk(s, x, false), x, false);
  }

  /** The project-call bit of a reported outcome. */
  predicate ReportsProjectCall(o: Outcome) { o.flags / 8 % 2 == 1 }

  lemma FlagBit(s: State)
    ensures Flags(s) / 8 % 2 == 1 <==> s.projectCall
  {
  }

  lemma OutcomeReports(p: Procedure, judge: Judge, t: State, o: Outcome)
    requires Possible(p, t) && t.projectCall && EndsAt(p, judge, t, o)
    ensures ReportsProjectCall(o)
  {
    var x := StatementAt(p, t.block).value;
    if x.restores {
      FlagBit(t);
    } else {
      ApplyKeepsReasons(p, judge, t, x);
      FlagBit(After(p, judge, t).(unrestored := true));
    }
  }

  /** Also an outcome that leaves from the call's own block reports it. */
  lemma CallReportsAtOnce(p: Procedure, judge: Judge, s: State, o: Outcome)
    requires StatementAt(p, s.block).Some? && UncoveredProjectCall(judge, s, StatementAt(p, s.block).value) && EndsAt(p, judge, s, o)
    ensures ReportsProjectCall(o)
  {
    CallRaisesFlag(p, judge, s, StatementAt(p, s.block).value);
    FlagBit(After(p, judge, s).(unrestored := true));
  }

  /** The path leads to an uncovered project call. */
  ghost predicate LeadsToCall(p: Procedure, judge: Judge, start: int, path: seq<Edge>) {
    var s := Along(p, judge, start, path);
    path != [] && s.Some? && StatementAt(p, s.value.block).Some? &&
    UncoveredProjectCall(judge, s.value, StatementAt(p, s.value.block).value)
  }

  /** The path leads to a state in which the outcome is reported. */
  ghost predicate LeadsToOutcome(p: Procedure, judge: Judge, start: int, path: seq<Edge>, o: Outcome) {
    Along(p, judge, start, path).Some? && EndsAt(p, judge, Along(p, judge, start, path).value, o)
  }

  /** The state after the block of an uncovered project call carries the reason. */
  lemma CallIsRemembered(p: Procedure, judge: Judge, start: int, path: seq<Edge>, e: Edge)
    requires LeadsToCall(p, judge, start, path) && Along(p, judge, start, path + [e]).Some?
    ensures Along(p, judge, start, path + [e]).value.projectCall
  {
    var s := Along(p, judge, start, path).value;
    LastStep(p, judge, start, path + [e]);
    assert (path + [e])[..|path|] == path;
    CallRaisesFlag(p, judge, s, StatementAt(p, s.block).value);
  }

  lemma LaterOutcomeReports(p: Procedure, judge: Judge, start: int, path: seq<Edge>, e: Edge, later: seq<Edge>, o: Outcome)
    requires LeadsToCall(p, judge, start, path) && LeadsToOutcome(p, judge, start, (path + [e]) + later, o)
    ensures ReportsProjectCall(o)
  {
    var next := path + [e];
    ReasonsPersist(p, judge, start, next, later);
    CallIsRemembered(p, judge, start, path, e);
    VisitedIsPossible(p, judge, start, next + later);
    OutcomeReports(p, judge, Along(p, judge, start, next + later).value, o);
  }

  /** However a path goes on after reaching an uncovered project call, every outcome on it reports the call. */
  lemma ProjectCallIsReported(p: Procedure, judge: Judge, start: int, path: seq<Edge>, rest: seq<Edge>, o: Outcome)
    requires LeadsToCall(p, judge, start, path) && LeadsToOutcome(p, judge, start, path + rest, o)
    ensures ReportsProjectCall(o)
  {
    if rest == [] {
      assert path + rest == path;
      CallReportsAtOnce(p, judge, Along(p, judge, start, path).value, o);
    } else {
      assert path + rest == (path + [rest[0]]) + rest[1..];
      LaterOutcomeReports(p, judge, start, path, rest[0], rest[1..], o);
    }
  }

  // ---- Queue -----------------------------------------------------------------------------

  method FollowsEdge(p: Procedure, e: Edge) returns (follows: bool)
    ensures follows <==> Followed(p, e)
  {
    if !e.exceptional { return true; }
    if e.kind != ErrorEdge { return false; }
    for i := 0 to |p.edges|
      invariant forall j :: 0 <= j < i ==> !(p.edges[j].source == e.source && p.edges[j].target == e.target && !p.edges[j].exceptional)
    {
      var n := p.edges[i];
      if n.source == e.source && n.target == e.target && !n.exceptional { return true; }
    }
    return false;
  }

  /** The edges that leave the opening statement. */
  method Seed(p: Procedure, start: int) returns (queue: seq<State>, outcomes: seq<Outcome>)
    ensures forall t :: t in queue <==> First(p, start, t)
    ensures forall o :: o in outcomes <==> LeavesAtOnce(p, start, o)
  {
    queue, outcomes := [], [];
    for i := 0 to |p.edges|
      invariant forall t :: t in queue <==> First(p.(edges := p.edges[..i]), start, t)
      invariant forall o :: o in outcomes <==> LeavesAtOnce(p.(edges := p.edges[..i]), start, o)
    {
      var e := p.edges[i];
      assert p.edges[..i + 1] == p.edges[..i] + [e];
      if e.source != start || e.exceptional { continue; }
      if IsExit(p, e.target) {
        outcomes := outcomes + [Outcome(EndLine(p, e), UNRESTORED)];
        continue;
      }
      queue := queue + [Entered(e.target)];
    }
    assert p.edges[..|p.edges|] == p.edges;
  }

  /** The edge leads from `s` to `t`. */
  ghost predicate Steps(p: Procedure, s: State, after: State, e: Edge, t: State) {
    e.source == s.block && Followed(p, e) && !IsExit(p, e.target) && t == after.(block := e.target)
  }

  ghost predicate Exits(p: Procedure, s: State, after: State, e: Edge, o: Outcome) {
    e.source == s.block && Followed(p, e) && IsExit(p, e.target) && o == Outcome(EndLine(p, e), Flags(after.(unrestored := true)))
  }

  /** The edges that leave an ordinary statement. */
  method Expand(p: Procedure, s: State, after: State, queue: seq<State>, outcomes: seq<Outcome>)
    returns (queue': seq<State>, outcomes': seq<Outcome>)
    ensures forall t :: t in queue' <==> t in queue || exists j :: 0 <= j < |p.edges| && Steps(p, s, after, p.edges[j], t)
    ensures forall o :: o in outcomes' <==> o in outcomes || exists j :: 0 <= j < |p.edges| && Exits(p, s, after, p.edges[j], o)
  {
    queue', outcomes' := queue, outcomes;
    for i := 0 to |p.edges|
      invariant forall t :: t in queue' <==> t in queue || exists j :: 0 <= j < i && Steps(p, s, after, p.edges[j], t)
      invariant forall o :: o in outcomes' <==> o in outcomes || exists j :: 0 <= j < i && Exits(p, s, after, p.edges[j], o)
    {
      var e := p.edges[i];
      if e.source != s.block { continue; }
      var follows := FollowsEdge(p, e);
      if !follows { continue; }
      if IsExit(p, e.target) {
        outcomes' := outcomes' + [Outcome(EndLine(p, e), Flags(after.(unrestored := true)))];
        continue;
      }
      queue' := queue' + [after.(block := e.target)];
    }
  }

  // ---- Search ----------------------------------------------------------------------------

  /** Everything pending is reachable, and everything found so far is accounted for. */
  ghost predicate Searching(p: Procedure, judge: Judge, start: int, queue: seq<State>, done: set<State>,
        outcomes: seq<Outcome>) {
    && (forall s | s in queue || s in done :: Visits(p, judge, start, s) && Possible(p, s))
    && (forall t | First(p, start, t) :: t in queue || t in done)
    && (forall s, t | s in done && Next(p, judge, s, t) :: t in queue || t in done)
    && (forall o :: o in outcomes <==> LeavesAtOnce(p, start, o) || exists s <- done :: EndsAt(p, judge, s, o))
  }

  lemma SearchStarts(p: Procedure, judge: Judge, start: int, queue: seq<State>, outcomes: seq<Outcome>)
    requires forall t :: t in queue <==> First(p, start, t)
    requires forall o :: o in outcomes <==> LeavesAtOnce(p, start, o)
    ensures Searching(p, judge, start, queue, {}, outcomes)
  {
    forall s <- queue ensures Visits(p, judge, start, s) && Possible(p, s) {
      FirstIsVisited(p, judge, start, s);
      FirstIsPossible(p, start, s);
    }
  }

  /** One state has been taken from the queue and its successors and outcomes added. */
  lemma SearchContinues(p: Procedure, judge: Judge, start: int, s: State, queue: seq<State>, done: set<State>,
        outcomes: seq<Outcome>,
                        queue': seq<State>, outcomes': seq<Outcome>)
    requires Searching(p, judge, start, [s] + queue, done, outcomes)
    requires forall t :: t in queue' <==> t in queue || Next(p, judge, s, t)
    requires forall o :: o in outcomes' <==> o in outcomes || EndsAt(p, judge, s, o)
    ensures Searching(p, judge, start, queue', done + {s}, outcomes')
  {
    var before := [s] + queue;
    assert s in before && forall t <- queue :: t in before;
    forall t | t in queue' || t in done + {s} ensures Visits(p, judge, start, t) && Possible(p, t) {
      if t !in queue && t !in done + {s} {
        NextIsVisited(p, judge, start, s, t);
        NextIsPossible(p, judge, s, t);
      }
    }
    forall t, u | t in done + {s} && Next(p, judge, t, u) ensures u in queue' || u in done + {s} {
      if t in done { assert u in before || u in done; }
    }
  }

  lemma SearchSkips(p: Procedure, judge: Judge, start: int, s: State, queue: seq<State>, done: set<State>,
        outcomes: seq<Outcome>)
    requires Searching(p, judge, start, [s] + queue, done, outcomes) && s in done
    ensures Searching(p, judge, start, queue, done, outcomes)
  {
    forall t <- queue ensures t in [s] + queue {}
    forall t | t in [s] + queue ensures t in queue || t in done {}
  }

  lemma SearchEnds(p: Procedure, judge: Judge, start: int, done: set<State>, outcomes: seq<Outcome>)
    requires Searching(p, judge, start, [], done, outcomes)
    ensures forall o :: o in outcomes <==> HasOutcome(p, judge, start, o)
  {
    forall s | Visits(p, judge, start, s) ensures s in done {
      var path :| Along(p, judge, start, path) == Some(s);
      ClosedHoldsVisited(p, judge, start, done, path);
    }
  }

  ghost function KeysOf(done: set<State>): set<string> { set s <- done :: StateKey(s) }

  lemma OneKeyMore(done: set<State>, s: State)
    ensures KeysOf(done + {s}) == KeysOf(done) + {StateKey(s)}
  {
  }

  lemma HeadAndTail<T>(queue: seq<T>)
    requires queue != []
    ensures [queue[0]] + queue[1..] == queue
  {
  }

  /** A seen key belongs to the same state. */
  lemma SeenIsDone(p: Procedure, s: State, done: set<State>)
    requires WellFormed(p) && Possible(p, s) && forall t <- done :: Possible(p, t)
    ensures StateKey(s) in KeysOf(done) <==> s in done
  {
    forall t <- done | StateKey(t) == StateKey(s) ensures t == s {
      PossibleIsPrintable(p, s);
      PossibleIsPrintable(p, t);
      StateKeyInjective(s, t);
    }
  }

  lemma Remaining(p: Procedure, s: State, done: set<State>)
    requires Possible(p, s) && s !in done
    ensures |Universe(p) - (done + {s})| < |Universe(p) - done|
  {
    PossibleIsListed(p, s);
    assert Universe(p) - (done + {s}) == (Universe(p) - done) - {s};
  }

  // ---- One statement, rule by rule ---------------------------------------------------------

  /** The second half of an array-bounds probe names the variable that receives the length. */
  method ResumeNextScopeArrayBoundsContinuation(before: State, x: Statement) returns (state: State, continues: bool)
    ensures continues == ContinuesBounds(before, x)
    ensures state == if continues then before.(probe := before.probe.(resultTarget := x.target, target := x.target)) else before
  {
    state, continues := before, false;
    var q := state.probe;
    if x.recovered || q.boundsArray == "" || q.lowerTarget == "" || q.resultTarget != "" || Current(state.counter) != 1 { return; }
    if !x.kind.Assignment? && !x.kind.Set? { return; }
    match x.bounds {
      case NoBounds => return;
      case LowerBound(_, _) => return;
      case Length(arrayName, lower) => if arrayName != q.boundsArray || lower != q.lowerTarget { return; }
    }
    if x.target == "" || x.target == q.lowerTarget { return; }
    q := q.(resultTarget := x.target);
    q := q.(target := x.target);
    state, continues := state.(probe := q), true;
  }

  /** A literal stored in the error branch for the bound or for the length, each once. */
  method ResumeNextScopeBoundsProbeFallback(before: State, x: Statement, j: Signs) returns (lower: bool, result: bool)
    ensures lower == LowerFallback(before, x, j) && result == ResultFallback(before, x, j)
  {
    lower, result := false, false;
    var q := before.probe;
    if q.boundsArray == "" || q.lowerTarget == "" || q.resultTarget == "" || q.errCheckParent == 0 { return; }
    if Current(before.counter) != 1 || !j.errorBranch || (!x.kind.Assignment? && !x.kind.Set?) || !x.safeLiteral { return; }
    if x.target == q.lowerTarget && !q.lowerFallback {
      lower := true;
    } else if x.target == q.resultTarget && !q.resultFallback {
      result := true;
    }
  }

  /** Any other value stored in place of what the probe did not deliver. */
  method ResumeNextScopeProbeFallback(before: State, x: Statement, j: Signs) returns (falls: bool)
    ensures falls == FallsBack(before, x, j)
  {
    var q := before.probe;
    if q.fallbackUsed || q.resultTarget != "" || q.errCheckParent == 0 || q.target == "" || Current(before.counter) != 1 { return false; }
    if !j.errorBranch && !j.statusBranch { return false; }
    if !x.kind.Assignment? && !x.kind.Set? { return false; }
    if x.target == q.target && x.safeFallback { return true; }
    return j.statusBranch;
  }

  /** The rules in the order in which they are tried; the first that explains the statement ends it. */
  method ApplyResumeNextScopeStatement(p: Procedure, judge: Judge, before: State, x: Statement) returns (state: State)
    ensures state == Apply(p, judge, before, x)
  {
    state := before.(counter := Sync(before.counter, x.path));
    if x.resumes { return; }
    if Current(state.counter) == 0 && x.safeInitialization { return; }
    var j := judge(state, x);
    if j.memberProbe { return state.(counter := Record(state.counter)); }
    var projectProbe := x.projectCall && j.projectProbe;
    var coercion := x.call && !x.projectCall && j.coercionProbe;
    if coercion { state := state.(probe := state.probe.(coercionUsed := true)); }
    var continues;
    state, continues := ResumeNextScopeArrayBoundsContinuation(state, x);
    if continues { return; }
    var inspection := !state.probe.inspectionUsed && !x.projectCall && judge(state, x).inspection;
    if !inspection && !projectProbe && !coercion && (!x.errProbe || x.conditionCall) {
      state := state.(call := state.call || x.call || x.conditionCall || x.unsafeValue);
      if x.projectCall { state := state.(projectCall := true); }
    }
    state := Explained(p, judge, state, x, inspection);
  }

  method Fallback(before: State, x: Statement, j: Signs) returns (state: State, explained: bool)
    ensures explained == FallenBack(before, x, j).Some?
    ensures state == if explained then FallenBack(before, x, j).value else before
  {
    state, explained := before, true;
    var lower, result := ResumeNextScopeBoundsProbeFallback(state, x, j);
    if lower { return state.(probe := state.probe.(lowerFallback := true), call := false), true; }
    if result { return state.(probe := state.probe.(resultFallback := true), call := false), true; }
    explained := ResumeNextScopeProbeFallback(state, x, j);
    if explained {
      state := state.(probe := state.probe.(fallbackUsed := true));
      if !x.projectCall { state := state.(call := false); }
    }
  }

  method Explained(p: Procedure, judge: Judge, before: State, x: Statement, inspection: bool) returns (state: State)
    ensures state == Explain(p, judge, before, x, inspection)
  {
    state := before;
    if x.errProbe {
      if !x.conditionCall && x.errCheck { state := state.(probe := state.probe.(errCheckParent := x.id)); }
      return;
    }
    var explained;
    state, explained := Fallback(state, x, judge(state, x));
    if explained { return; }
    if inspection { return state.(probe := state.probe.(inspectionUsed := true), call := false); }
    state := Unexplained(p, state, x);
  }

  /** Markers, control statements, and what remains: operations. */
  method Unexplained(p: Procedure, before: State, x: Statement) returns (state: State)
    ensures state ==
      if Unremarkable(p, before, x) then before
      else if x.kind.If? || x.kind.Else? || x.kind.OtherControl? then before.(controlFlow := true)
      else Operation(before, x)
  {
    state := before;
    var parent := state.probe.errCheckParent;
    if parent != 0 && x.kind.Else? && x.parent == parent && parent in p.ifStatements { return; }
    match x.kind {
      case Declaration | Label | End => return;
      case If | Else | OtherControl => return state.(controlFlow := true);
      case Assignment | Set | OtherKind =>
    }
    var operations := Current(state.counter);
    state := state.(counter := Record(state.counter));
    if operations == 0 && state.probe.target == "" {
      state := state.(probe := state.probe.(target := x.target));
      if x.bounds.LowerBound? {
        state := state.(probe := state.probe.(boundsArray := x.bounds.arrayName, lowerTarget := x.bounds.lower));
      }
    }
  }

  /** What one state adds to the search. */
  method Visit(p: Procedure, judge: Judge, state: State, queue: seq<State>, outcomes: seq<Outcome>)
    returns (queue': seq<State>, outcomes': seq<Outcome>)
    ensures forall t :: t in queue' <==> t in queue || Next(p, judge, state, t)
    ensures forall o :: o in outcomes' <==> o in outcomes || EndsAt(p, judge, state, o)
  {
    queue', outcomes' := queue, outcomes;
    var block := StatementAt(p, state.block);
    if block.None? { return; }
    var x := block.value;
    if x.restores {
      if Flags(state) != 0 { outcomes' := outcomes + [Outcome(x.line, Flags(state))]; }
      return;
    }
    var after := ApplyResumeNextScopeStatement(p, judge, state, x);
    queue', outcomes' := Expand(p, state, after, queue, outcomes);
    forall t ensures Next(p, judge, state, t) <==> exists j :: 0 <= j < |p.edges| && Steps(p, state, after, p.edges[j], t) {}
    forall o ensures EndsAt(p, judge, state, o) <==> exists j :: 0 <= j < |p.edges| && Exits(p, state, after, p.edges[j], o) {}
  }

  method ResumeNextScopeOutcomes(p: Procedure, judge: Judge, start: int) returns (outcomes: seq<Outcome>)
    requires WellFormed(p)
    ensures forall o :: o in outcomes <==> HasOutcome(p, judge, start, o)
  {
    var queue;
    queue, outcomes := Seed(p, start);
    SearchStarts(p, judge, start, queue, outcomes);
    var seen: set<string> := {};
    ghost var done: set<State> := {};
    while queue != []
      invariant Searching(p, judge, start, queue, done, outcomes)
      invariant seen == KeysOf(done)
      decreases |Universe(p) - done|, |queue|
    {
      HeadAndTail(queue);
      var state := queue[0];
      queue := queue[1..];
      var key := ResumeNextScopeStateKey(state);
      assert state in [state] + queue;
      SeenIsDone(p, state, done);
      if key in seen {
        SearchSkips(p, judge, start, state, queue, done, outcomes);
        continue;
      }
      seen := seen + {key};
      var queue', outcomes' := Visit(p, judge, state, queue, outcomes);
      SearchContinues(p, judge, start, state, queue, done, outcomes, queue', outcomes');
      Remaining(p, state, done);
      OneKeyMore(done, state);
      queue, outcomes, done := queue', outcomes', done + {state};
    }
    SearchEnds(p, judge, start, done, outcomes);
  }
}
