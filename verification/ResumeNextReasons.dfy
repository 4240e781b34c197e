/**
 Why an outcome is reported: each flag of an outcome is set exactly when the path has passed a
 statement that raises it, later statements that clear it excepted; and what a scope remembers
 about its probe is exactly what the statements passed have left behind.
 */
module ResumeNextReasons {
  import opened Wrappers
  import opened ConditionalCompilation
  import opened ResumeNext
  import opened ResumeNextSearch

  // ---- One statement ---------------------------------------------------------------------

  predicate Skipped(before: State, x: Statement) {
    x.resumes || (Current(Sync(before.counter, x.path)) == 0 && x.safeInitialization)
  }

  /** A call the Boolean coercion probe covers. */
  predicate Coerces(judge: Judge, before: State, x: Statement) {
    var j := judge(Synced(before, x), x);
    !Skipped(before, x) && !j.memberProbe && x.call && !x.projectCall && j.coercionProbe
  }

  /** The state in which the remaining rules are tried. */
  function Tried(judge: Judge, before: State, x: Statement): State {
    var s := Synced(before, x);
    s.(probe := s.probe.(coercionUsed := s.probe.coercionUsed || Coerces(judge, before, x)))
  }

  predicate Stores(x: Statement) { x.kind.Assignment? || x.kind.Set? }

  /** The scope has run one operation, whichever `#If` branches were taken. */
  predicate OneOperation(before: State, x: Statement) { Current(Sync(before.counter, x.path)) == 1 }

  /**
   The second half of an array-bounds probe: after the lower bound, the length of the same array is
   stored in another variable, once.
   */
  predicate MeasuresLength(before: State, x: Statement) {
    var q := before.probe;
    && Stores(x) && !x.recovered && OneOperation(before, x)
    && x.bounds.Length? && x.bounds.arrayName == q.boundsArray != "" && x.bounds.lower == q.lowerTarget != ""
    && q.resultTarget == "" && x.target !in {"", q.lowerTarget}
  }

  /** Neither skipped nor taken by a member probe or by the second half of an array-bounds probe. */
  predicate Open(judge: Judge, before: State, x: Statement) {
    !Skipped(before, x) && !judge(Synced(before, x), x).memberProbe && !MeasuresLength(before, x)
  }

  predicate Inspects(judge: Judge, before: State, x: Statement) {
    Open(judge, before, x) && !before.probe.inspectionUsed && !x.projectCall && judge(Tried(judge, before, x), x).inspection
  }

  /** Some rule vouches for the calls of the statement. */
  predicate Vouched(judge: Judge, before: State, x: Statement) {
    || Inspects(judge, before, x) || Coerces(judge, before, x)
    || (x.projectCall && judge(Synced(before, x), x).projectProbe)
    || (x.errProbe && !x.conditionCall)
  }

  predicate RaisesCall(judge: Judge, before: State, x: Statement) {
    Open(judge, before, x) && !Vouched(judge, before, x) && (x.call || x.conditionCall || x.unsafeValue)
  }

  predicate RaisesProjectCall(judge: Judge, before: State, x: Statement) {
    Open(judge, before, x) && !Vouched(judge, before, x) && x.projectCall
  }

  /** The state once the statement's own calls are noted. */
  function Noted(judge: Judge, before: State, x: Statement): State {
    Tried(judge, before, x).(
      call := before.call || RaisesCall(judge, before, x), projectCall := before.projectCall || RaisesProjectCall(judge, before, x))
  }

  /** A fallback: a value stored after the check of the error, while the probe is the scope's one operation. */
  predicate Replaces(judge: Judge, before: State, x: Statement) {
    Open(judge, before, x) && !x.errProbe && Stores(x) && OneOperation(before, x) && before.probe.errCheckParent != 0
  }

  /** In the branch of the error a literal replaces a bound that could not be read. */
  predicate ReplacesBound(judge: Judge, before: State, x: Statement) {
    var q := before.probe;
    && Replaces(judge, before, x) && judge(Noted(judge, before, x), x).errorBranch && x.safeLiteral
    && q.boundsArray != "" && q.lowerTarget != "" && q.resultTarget != ""
  }

  /** Each of the two bounds is replaced once; where one variable holds both, the lower comes first. */
  predicate StoresBound(judge: Judge, before: State, x: Statement, lower: bool) {
    var q := before.probe;
    var storesLower := x.target == q.lowerTarget && !q.lowerFallback;
    && ReplacesBound(judge, before, x)
    && if lower then storesLower else !storesLower && x.target == q.resultTarget && !q.resultFallback
  }

  /**
   In the branch of the error, or of a status variable, a value replaces what the probe did not
   deliver, once and unless the probe reads array bounds.
   */
  predicate StoresValue(judge: Judge, before: State, x: Statement) {
    var q, j := before.probe, judge(Noted(judge, before, x), x);
    && Replaces(judge, before, x) && q.target != "" && q.resultTarget == "" && !q.fallbackUsed
    && (j.statusBranch || (j.errorBranch && x.target == q.target && x.safeFallback))
  }

  predicate FallsBackOn(judge: Judge, before: State, x: Statement) {
    StoresBound(judge, before, x, true) || StoresBound(judge, before, x, false) || StoresValue(judge, before, x)
  }

  /** The statement looks at what the probe delivered, and nothing earlier explains it. */
  predicate LooksAtResult(judge: Judge, before: State, x: Statement) {
    Inspects(judge, before, x) && !x.errProbe && !FallsBackOn(judge, before, x)
  }

  predicate ClearsCall(judge: Judge, before: State, x: Statement) {
    || StoresBound(judge, before, x, true) || StoresBound(judge, before, x, false)
    || (StoresValue(judge, before, x) && !x.projectCall) || LooksAtResult(judge, before, x)
  }

  predicate IsCheck(judge: Judge, before: State, x: Statement) {
    Open(judge, before, x) && x.errProbe && !x.conditionCall && x.errCheck
  }

  /** The `Else` of the `If` that checks the error. */
  predicate MarksCheck(p: Procedure, before: State, x: Statement) {
    var parent := before.probe.errCheckParent;
    x.kind.Else? && parent != 0 && x.parent == parent && parent in p.ifStatements
  }

  predicate Controls(x: Statement) { x.kind.If? || x.kind.Else? || x.kind.OtherControl? }

  /** A control statement that no probe, check, inspection or marker rule explains; fallbacks are assignments. */
  predicate UnexplainedControl(p: Procedure, judge: Judge, before: State, x: Statement) {
    && Controls(x)
    && Open(judge, before, x) && !x.errProbe && !Inspects(judge, before, x) && !MarksCheck(p, before, x)
  }

  predicate ContinuesProbe(judge: Judge, before: State, x: Statement) {
    !Skipped(before, x) && !judge(Synced(before, x), x).memberProbe && MeasuresLength(before, x)
  }

  /** No rule explains the statement at all. */
  predicate UnexplainedOperation(p: Procedure, judge: Judge, before: State, x: Statement) {
    && Open(judge, before, x) && !x.errProbe && !FallsBackOn(judge, before, x) && !Inspects(judge, before, x)
    && !MarksCheck(p, before, x) && !Controls(x) && !x.kind.Declaration? && !x.kind.Label? && !x.kind.End?
  }

  /** The first operation of a scope names what a probe would deliver. */
  predicate StartsProbe(p: Procedure, judge: Judge, before: State, x: Statement) {
    UnexplainedOperation(p, judge, before, x) && Current(Sync(before.counter, x.path)) == 0 && before.probe.target == ""
  }

  /** The rules as the transfer tries them. */
  lemma RulesAgree(judge: Judge, before: State, x: Statement)
    ensures var t, u := Tried(judge, before, x), Noted(judge, before, x); var j := judge(u, x);
      && (ContinuesBounds(t, x) <==> MeasuresLength(before, x))
      && (Open(judge, before, x) && !x.errProbe ==>
            (LowerFallback(u, x, j) <==> StoresBound(judge, before, x, true)) &&
            (ResultFallback(u, x, j) <==> StoresBound(judge, before, x, false)))
      && (Open(judge, before, x) && !x.errProbe ==> (FallsBack(u, x, j) <==> StoresValue(judge, before, x)))
  {
  }

  // ---- What the transfer does with it --------------------------------------------------------

  lemma ApplyCloses(p: Procedure, judge: Judge, before: State, x: Statement)
    requires !Open(judge, before, x)
    ensures var r := Apply(p, judge, before, x);
      && r.controlFlow == before.controlFlow && r.projectCall == before.projectCall && r.call == before.call
      && r.unrestored == before.unrestored && r.block == before.block
  {
    if !Skipped(before, x) && !judge(Synced(before, x), x).memberProbe { TriedIs(judge, before, x); }
  }

  lemma ApplyOpens(p: Procedure, judge: Judge, before: State, x: Statement)
    requires Open(judge, before, x)
    ensures Apply(p, judge, before, x) == Explain(p, judge, Noted(judge, before, x), x, Inspects(judge, before, x))
  {
    var t := Tried(judge, before, x);
    TriedIs(judge, before, x);
    NotedIs(judge, before, x);
    assert Apply(p, judge, before, x) == Probed(p, judge, Synced(before, x), x);
    assert Probed(p, judge, Synced(before, x), x) == Explain(p, judge, Risk(t, x, Vouched(judge, before, x)), x, Inspects(judge, before, x));
  }

  lemma TriedIs(judge: Judge, before: State, x: Statement)
    ensures var s := Synced(before, x);
      Tried(judge, before, x) == if Coerces(judge, before, x) then s.(probe := s.probe.(coercionUsed := true)) else s
  {
  }

  lemma NotedIs(judge: Judge, before: State, x: Statement)
    requires Open(judge, before, x)
    ensures Risk(Tried(judge, before, x), x, Vouched(judge, before, x)) == Noted(judge, before, x)
  {
  }

  lemma ExplainReasons(p: Procedure, judge: Judge, u: State, x: Statement, inspects: bool)
    ensures var r := Explain(p, judge, u, x, inspects); var j := judge(u, x);
      && (r.controlFlow <==> (u.controlFlow || (Controls(x) && !x.errProbe && !inspects && !Unremarkable(p, u, x))))
      && r.projectCall == u.projectCall && r.unrestored == u.unrestored && r.block == u.block
      && (r.call <==>
            if x.errProbe then u.call
            else if LowerFallback(u, x, j) || ResultFallback(u, x, j) then false
            else if FallsBack(u, x, j) then u.call && x.projectCall
            else u.call && !inspects)
  {
  }

  /** What one statement adds to the reasons and takes from them. */
  lemma ApplyReasons(p: Procedure, judge: Judge, before: State, x: Statement)
    ensures var r := Apply(p, judge, before, x);
      && (r.controlFlow <==> before.controlFlow || UnexplainedControl(p, judge, before, x))
      && (r.projectCall <==> before.projectCall || RaisesProjectCall(judge, before, x))
      && (r.call <==> (before.call || RaisesCall(judge, before, x)) && !ClearsCall(judge, before, x))
      && r.unrestored == before.unrestored && r.block == before.block
  {
    if Open(judge, before, x) {
      ApplyOpens(p, judge, before, x);
      ExplainReasons(p, judge, Noted(judge, before, x), x, Inspects(judge, before, x));
    } else {
      ApplyCloses(p, judge, before, x);
    }
  }

  /** The probe once its first operation is known. */
  function Started(q: Probe, x: Statement): Probe {
    var named := q.(target := x.target);
    if x.bounds.LowerBound? then named.(boundsArray := x.bounds.arrayName, lowerTarget := x.bounds.lower) else named
  }

  predicate Starts(p: Procedure, u: State, x: Statement) {
    !Unremarkable(p, u, x) && !Controls(x) && Current(u.counter) == 0 && u.probe.target == ""
  }

  lemma FallenBackStores(u: State, x: Statement, j: Signs)
    ensures FallenBack(u, x, j).Some? <==> LowerFallback(u, x, j) || ResultFallback(u, x, j) || FallsBack(u, x, j)
    ensures FallenBack(u, x, j).Some? ==> (FallenBack(u, x, j).value.probe ==
      if LowerFallback(u, x, j) then u.probe.(lowerFallback := true)
      else if ResultFallback(u, x, j) then u.probe.(resultFallback := true)
      else u.probe.(fallbackUsed := true))
  {
  }

  lemma ExplainProbe(p: Procedure, judge: Judge, u: State, x: Statement, inspects: bool)
    ensures Explain(p, judge, u, x, inspects).probe == Written(p, u, x, judge(u, x), inspects)
  {
    FallenBackStores(u, x, judge(u, x));
    OperationProbe(u, x);
  }

  function Written(p: Procedure, u: State, x: Statement, j: Signs, inspects: bool): Probe {
    var q := u.probe;
    if x.errProbe then (if !x.conditionCall && x.errCheck then q.(errCheckParent := x.id) else q)
    else if LowerFallback(u, x, j) then q.(lowerFallback := true)
    else if ResultFallback(u, x, j) then q.(resultFallback := true)
    else if FallsBack(u, x, j) then q.(fallbackUsed := true)
    else if inspects then q.(inspectionUsed := true)
    else if Starts(p, u, x) then Started(q, x)
    else q
  }

  lemma OperationProbe(u: State, x: Statement)
    ensures Operation(u, x).probe == if Current(u.counter) == 0 && u.probe.target == "" then Started(u.probe, x) else u.probe
  {
  }

  lemma ClosedProbe(p: Procedure, judge: Judge, before: State, x: Statement)
    requires !Open(judge, before, x)
    ensures Apply(p, judge, before, x).probe ==
      if ContinuesProbe(judge, before, x) then Tried(judge, before, x).probe.(resultTarget := x.target, target := x.target)
      else before.probe
  {
    TriedIs(judge, before, x);
  }

  /** What the scope remembers of a statement: the first rule that explains it leaves its mark. */
  function Remembered(p: Procedure, judge: Judge, before: State, x: Statement): Probe {
    var q := Tried(judge, before, x).probe;
    if ContinuesProbe(judge, before, x) then q.(resultTarget := x.target, target := x.target)
    else if IsCheck(judge, before, x) then q.(errCheckParent := x.id)
    else if StoresBound(judge, before, x, true) then q.(lowerFallback := true)
    else if StoresBound(judge, before, x, false) then q.(resultFallback := true)
    else if StoresValue(judge, before, x) then q.(fallbackUsed := true)
    else if LooksAtResult(judge, before, x) then q.(inspectionUsed := true)
    else if StartsProbe(p, judge, before, x) then Started(q, x)
    else q
  }

  lemma ApplyRemembers(p: Procedure, judge: Judge, before: State, x: Statement)
    ensures Apply(p, judge, before, x).probe == Remembered(p, judge, before, x)
  {
    if Open(judge, before, x) {
      OpenRemembers(p, judge, before, x);
    } else {
      ClosedProbe(p, judge, before, x);
      TriedIs(judge, before, x);
    }
  }

  lemma OpenRemembers(p: Procedure, judge: Judge, before: State, x: Statement)
    requires Open(judge, before, x)
    ensures Apply(p, judge, before, x).probe == Remembered(p, judge, before, x)
  {
    var u := Noted(judge, before, x);
    RulesAgree(judge, before, x);
    ApplyOpens(p, judge, before, x);
    ExplainProbe(p, judge, u, x, Inspects(judge, before, x));
    OpenWritten(p, judge, before, x);
  }

  lemma OpenWritten(p: Procedure, judge: Judge, before: State, x: Statement)
    requires Open(judge, before, x)
    ensures var u := Noted(judge, before, x);
      Written(p, u, x, judge(u, x), Inspects(judge, before, x)) == Remembered(p, judge, before, x)
  {
    var u := Noted(judge, before, x);
    RulesAgree(judge, before, x);
    assert u.probe == Tried(judge, before, x).probe && u.counter == Synced(before, x).counter;
    assert Starts(p, u, x) <==> !Unremarkable(p, u, x) && !Controls(x) && Current(Sync(before.counter, x.path)) == 0 && before.probe.target == "";
  }

  // ---- Along a path ------------------------------------------------------------------------

  /** What one statement means for the flags. */
  datatype Event = Event(control: bool, call: bool, cleared: bool, projectCall: bool)

  function EventOf(p: Procedure, judge: Judge, before: State, x: Statement): Event {
    Event(UnexplainedControl(p, judge, before, x), RaisesCall(judge, before, x), ClearsCall(judge, before, x),
      RaisesProjectCall(judge, before, x))
  }

  /** The statements a path has passed before it reaches its last block. */
  ghost function EventsAlong(p: Procedure, judge: Judge, start: int, path: seq<Edge>): seq<Event>
    requires Along(p, judge, start, path).Some?
    decreases |path|
  {
    if |path| <= 1 then []
    else
      var before := Along(p, judge, start, path[..|path| - 1]).value;
      EventsAlong(p, judge, start, path[..|path| - 1]) + [EventOf(p, judge, before, StatementAt(p, before.block).value)]
  }

  /** The front of a path passes the front of its events. */
  lemma {:induction false} EventsOfFront(p: Procedure, judge: Judge, start: int, path: seq<Edge>, m: nat)
    requires Along(p, judge, start, path).Some? && 0 < m <= |path|
    ensures Along(p, judge, start, path[..m]).Some? && EventsAlong(p, judge, start, path[..m]) <= EventsAlong(p, judge, start, path)
    decreases |path|
  {
    if m == |path| {
      assert path[..m] == path;
    } else {
      EventsGrow(p, judge, start, path);
      EventsOfFront(p, judge, start, path[..|path| - 1], m);
      assert path[..|path| - 1][..m] == path[..m];
    }
  }

  /** Event `k` is that of the statement the path reaches with its edge `k`, in the state it has there. */
  lemma EventsAreOfStatements(p: Procedure, judge: Judge, start: int, path: seq<Edge>, k: nat)
    requires Along(p, judge, start, path).Some? && k < |path| - 1
    ensures k < |EventsAlong(p, judge, start, path)|
    ensures IsEventOf(p, judge, Along(p, judge, start, path[..k + 1]), EventsAlong(p, judge, start, path)[k])
  {
    var longer := path[..k + 2];
    EventsOfFront(p, judge, start, path, k + 2);
    EventsGrow(p, judge, start, longer);
    EventsCount(p, judge, start, longer);
    assert longer[..|longer| - 1] == path[..k + 1];
  }

  lemma EventsGrow(p: Procedure, judge: Judge, start: int, path: seq<Edge>)
    requires |path| > 1 && Along(p, judge, start, path).Some?
    ensures var front := path[..|path| - 1]; var events := EventsAlong(p, judge, start, path);
      && Along(p, judge, start, front).Some? && |events| == |EventsAlong(p, judge, start, front)| + 1
      && events[..|events| - 1] == EventsAlong(p, judge, start, front)
      && IsEventOf(p, judge, Along(p, judge, start, front), events[|events| - 1])
  {
    LastStep(p, judge, start, path);
  }

  ghost predicate IsEventOf(p: Procedure, judge: Judge, s: Option<State>, e: Event) {
    s.Some? && StatementAt(p, s.value.block).Some? && e == EventOf(p, judge, s.value, StatementAt(p, s.value.block).value)
  }

  lemma {:induction false} EventsCount(p: Procedure, judge: Judge, start: int, path: seq<Edge>)
    requires Along(p, judge, start, path).Some?
    ensures |EventsAlong(p, judge, start, path)| == |path| - 1
    decreases |path|
  {
    if |path| > 1 {
      LastStep(p, judge, start, path);
      EventsCount(p, judge, start, path[..|path| - 1]);
    }
  }

  predicate PassesControl(events: seq<Event>) { exists e <- events :: e.control }

  predicate PassesProjectCall(events: seq<Event>) { exists e <- events :: e.projectCall }

  /** The call of event `k` is still uncleared at the end. */
  predicate Pending(events: seq<Event>, k: nat) {
    k < |events| && events[k].call && forall m :: k <= m < |events| ==> !events[m].cleared
  }

  ghost predicate PassesCall(events: seq<Event>) { exists k: nat :: Pending(events, k) }

  /** The state has exactly the flags of these events. */
  ghost predicate FlagsOf(events: seq<Event>, s: State) {
    && (s.controlFlow <==> PassesControl(events)) && (s.call <==> PassesCall(events))
    && (s.projectCall <==> PassesProjectCall(events))
  }

  lemma OneMoreReason(events: seq<Event>, e: Event)
    ensures PassesControl(events + [e]) <==> PassesControl(events) || e.control
    ensures PassesProjectCall(events + [e]) <==> PassesProjectCall(events) || e.projectCall
  {
    assert e in events + [e] && forall d <- events :: d in events + [e];
  }

  lemma OneMoreCall(events: seq<Event>, e: Event)
    ensures PassesCall(events + [e]) <==> (PassesCall(events) || e.call) && !e.cleared
  {
    var n, longer := |events|, events + [e];
    if k: nat :| Pending(longer, k) {
      assert !longer[n].cleared;
      if k < n {
        assert forall m :: k <= m < n ==> longer[m] == events[m];
        assert Pending(events, k);
      }
    }
    if !e.cleared {
      if k: nat :| Pending(events, k) { assert Pending(longer, k); }
      if e.call { assert Pending(longer, n); }
    }
  }

  /** One more statement. */
  lemma StatementAdds(p: Procedure, judge: Judge, events: seq<Event>, before: State, x: Statement, t: State)
    requires FlagsOf(events, before)
    requires var r := Apply(p, judge, before, x); t.controlFlow == r.controlFlow && t.call == r.call && t.projectCall == r.projectCall
    ensures FlagsOf(events + [EventOf(p, judge, before, x)], t)
  {
    ApplyReasons(p, judge, before, x);
    OneMoreReason(events, EventOf(p, judge, before, x));
    OneMoreCall(events, EventOf(p, judge, before, x));
  }

  /** The flags of a scope are exactly those of the statements it has passed. */
  lemma {:induction false} AlongFlags(p: Procedure, judge: Judge, start: int, path: seq<Edge>)
    requires Along(p, judge, start, path).Some?
    ensures FlagsOf(EventsAlong(p, judge, start, path), Along(p, judge, start, path).value)
    decreases |path|
  {
    var n := |path| - 1;
    if n > 0 {
      AlongFlags(p, judge, start, path[..n]);
      LastStep(p, judge, start, path);
      var s := Along(p, judge, start, path[..n]).value;
      var x, t := StatementAt(p, s.block).value, Along(p, judge, start, path).value;
      var events := EventsAlong(p, judge, start, path[..n]);
      assert t == Apply(p, judge, s, x).(block := t.block);
      StatementAdds(p, judge, events, s, x, t);
      assert EventsAlong(p, judge, start, path) == events + [EventOf(p, judge, s, x)];
    }
  }

  /** The statements that have run when an outcome is reported: a restore reports before it takes effect. */
  ghost function EventsBefore(p: Procedure, judge: Judge, start: int, path: seq<Edge>): seq<Event>
    requires Along(p, judge, start, path).Some? && StatementAt(p, Along(p, judge, start, path).value.block).Some?
  {
    var s := Along(p, judge, start, path).value;
    var x := StatementAt(p, s.block).value;
    EventsAlong(p, judge, start, path) + if x.restores then [] else [EventOf(p, judge, s, x)]
  }

  /**
   An outcome carries the control-flow bit exactly when the path has passed an unexplained control
   statement, the call bit exactly when it has passed a call that was not cleared since, the
   project-call bit exactly when it has passed an uncovered project call, and the unrestored bit
   exactly when it leaves the procedure.
   */
  lemma OutcomeReasons(p: Procedure, judge: Judge, start: int, path: seq<Edge>, o: Outcome)
    requires LeadsToOutcome(p, judge, start, path, o)
    ensures Tells(EventsBefore(p, judge, start, path), o.flags)
    ensures (o.flags / 16 % 2 == 1 <==> !StatementAt(p, Along(p, judge, start, path).value.block).value.restores)
  {
    var s := Along(p, judge, start, path).value;
    var x := StatementAt(p, s.block).value;
    AlongFlags(p, judge, start, path);
    VisitedIsPossible(p, judge, start, path);
    var events := EventsAlong(p, judge, start, path);
    if x.restores {
      assert EventsBefore(p, judge, start, path) == events;
      FlagsTell(events, s);
    } else {
      LeavingTells(p, judge, events, s, x);
    }
  }

  lemma LeavingTells(p: Procedure, judge: Judge, events: seq<Event>, s: State, x: Statement)
    requires FlagsOf(events, s) && Possible(p, s) && StatementAt(p, s.block) == Some(x) && !x.restores
    ensures var t := After(p, judge, s).(unrestored := true);
      Tells(events + [EventOf(p, judge, s, x)], Flags(t)) && Flags(t) / 16 % 2 == 1
  {
    var t := After(p, judge, s).(unrestored := true);
    StatementAdds(p, judge, events, s, x, t);
    FlagsTell(events + [EventOf(p, judge, s, x)], t);
  }

  /** The three bits say what the events say. */
  ghost predicate Tells(events: seq<Event>, flags: nat) {
    && (flags / 2 % 2 == 1 <==> PassesControl(events))
    && (flags / 4 % 2 == 1 <==> PassesCall(events))
    && (flags / 8 % 2 == 1 <==> PassesProjectCall(events))
  }

  lemma FlagsTell(events: seq<Event>, s: State)
    requires FlagsOf(events, s)
    ensures Tells(events, Flags(s)) && (Flags(s) / 16 % 2 == 1 <==> s.unrestored)
  {
    FlagBits(s);
  }

  lemma FlagBits(s: State)
    ensures Flags(s) / 2 % 2 == 1 <==> s.controlFlow
    ensures Flags(s) / 4 % 2 == 1 <==> s.call
    ensures Flags(s) / 8 % 2 == 1 <==> s.projectCall
    ensures Flags(s) / 16 % 2 == 1 <==> s.unrestored
    ensures Flags(s) == 0 <==> !s.counter.multiple && !s.controlFlow && !s.call && !s.projectCall && !s.unrestored
  {
  }

  /** A restore is reported exactly when the path to it has passed a reason. */
  lemma RestoreIsReported(p: Procedure, judge: Judge, start: int, path: seq<Edge>)
    requires Along(p, judge, start, path).Some?
    requires var x := StatementAt(p, Along(p, judge, start, path).value.block); x.Some? && x.value.restores
    ensures var s, events := Along(p, judge, start, path).value, EventsAlong(p, judge, start, path);
      (exists o :: EndsAt(p, judge, s, o)) <==>
        s.counter.multiple || PassesControl(events) || PassesCall(events) || PassesProjectCall(events)
  {
    var s := Along(p, judge, start, path).value;
    var x := StatementAt(p, s.block).value;
    AlongFlags(p, judge, start, path);
    VisitedIsPossible(p, judge, start, path);
    FlagBits(s);
    if Flags(s) != 0 { assert EndsAt(p, judge, s, Outcome(x.line, Flags(s))); }
  }

  // ---- Which paths, and what is reported at their ends -------------------------------------

  /** The block holds this statement; blocks are numbered from one. */
  predicate At(p: Procedure, b: int, x: Statement) { 1 <= b <= |p.blocks| && p.blocks[b - 1] == Some(x) }

  predicate LeavesProcedure(p: Procedure, e: Edge) {
    e.target in {p.normalExit, p.exceptionalExit, p.terminationExit, p.unknownExit}
  }

  /** An error edge counts only where execution may also go on normally (`Resume Next`). */
  ghost predicate MayFollow(p: Procedure, e: Edge) {
    !e.exceptional || (e.kind == ErrorEdge && exists n <- p.edges :: n.source == e.source && n.target == e.target && !n.exceptional)
  }

  /** A run of edges inside the scope: it starts on a normal edge and passes no restore. */
  ghost predicate Inside(p: Procedure, start: int, path: seq<Edge>) {
    && path != [] && path[0].source == start && !path[0].exceptional
    && (forall i :: 0 <= i < |path| ==> path[i] in p.edges && !LeavesProcedure(p, path[i]))
    && (forall i :: 0 < i < |path| ==> path[i].source == path[i - 1].target && MayFollow(p, path[i]))
    && (forall i :: 0 < i < |path| ==> exists x :: At(p, path[i].source, x) && !x.restores)
  }

  /** The edge goes on from block `b` inside the scope. */
  ghost predicate GoesOnBy(p: Procedure, b: int, e: Edge) {
    && e in p.edges && !LeavesProcedure(p, e) && e.source == b && MayFollow(p, e)
    && exists x :: At(p, b, x) && !x.restores
  }

  lemma InsideStep(p: Procedure, start: int, path: seq<Edge>)
    requires |path| > 1
    ensures var n := |path| - 1;
      Inside(p, start, path) <==> Inside(p, start, path[..n]) && GoesOnBy(p, path[n - 1].target, path[n])
  {
    var n := |path| - 1;
    var front := path[..n];
    assert forall i :: 0 <= i < n ==> front[i] == path[i];
    if Inside(p, start, front) && GoesOnBy(p, path[n - 1].target, path[n]) {
      forall i | 0 < i < |path| ensures path[i].source == path[i - 1].target && MayFollow(p, path[i]) {
        if i < n { assert front[i].source == front[i - 1].target; }
      }
    }
  }

  lemma AlongStep(p: Procedure, judge: Judge, start: int, path: seq<Edge>)
    requires |path| > 1
    ensures var n := |path| - 1; var s := Along(p, judge, start, path[..n]);
      && (Along(p, judge, start, path).Some? <==> s.Some? && GoesOnBy(p, s.value.block, path[n]))
      && (Along(p, judge, start, path).Some? ==> Along(p, judge, start, path).value.block == path[n].target)
  {
    var n := |path| - 1;
    var s := Along(p, judge, start, path[..n]);
    if s.Some? { GoesOnMeans(p, s.value, path[n]); }
  }

  lemma GoesOnMeans(p: Procedure, s: State, e: Edge)
    ensures GoesOnBy(p, s.block, e) <==> e in p.edges && !IsExit(p, e.target) && GoesOn(p, s) && e.source == s.block && Followed(p, e)
  {
    if GoesOn(p, s) { assert At(p, s.block, StatementAt(p, s.block).value); }
  }

  /** The paths of the search are exactly the runs of edges inside the scope, whatever the probe rules answer. */
  lemma {:induction false} PathsAreInside(p: Procedure, judge: Judge, start: int, path: seq<Edge>)
    ensures Along(p, judge, start, path).Some? <==> Inside(p, start, path)
    ensures Along(p, judge, start, path).Some? ==> Along(p, judge, start, path).value.block == path[|path| - 1].target
    decreases |path|
  {
    if |path| > 1 {
      PathsAreInside(p, judge, start, path[..|path| - 1]);
      AlongStep(p, judge, start, path);
      InsideStep(p, start, path);
    }
  }

  /** The line an exit is reported at: `End Sub` for falling out, otherwise the line of the edge if it has one. */
  predicate ReportedAt(p: Procedure, e: Edge, line: int) {
    var falls := e.target == p.normalExit && e.kind != ProcedureExit;
    && (falls ==> line == p.endLine)
    && (!falls && e.line >= 1 ==> line == e.line)
    && (!falls && e.line < 1 ==> line == p.endLine)
  }

  /** At a restore the flags as they stand are reported, if there are any; at an exit the flags after the statement, and that it was left. */
  ghost predicate ReportedFrom(p: Procedure, judge: Judge, s: State, x: Statement, o: Outcome) {
    if x.restores then o == Outcome(x.line, Flags(s)) && o.flags > 0
    else exists e <- p.edges ::
      && e.source == s.block && MayFollow(p, e) && LeavesProcedure(p, e) && ReportedAt(p, e, o.endLine)
      && o.flags == Flags(Apply(p, judge, s, x).(unrestored := true))
  }

  ghost predicate LeftAtOnce(p: Procedure, start: int, o: Outcome) {
    o.flags == 16 && exists e <- p.edges :: e.source == start && !e.exceptional && LeavesProcedure(p, e) && ReportedAt(p, e, o.endLine)
  }

  ghost predicate ReportedOn(p: Procedure, judge: Judge, start: int, path: seq<Edge>, o: Outcome) {
    Inside(p, start, path) && Along(p, judge, start, path).Some? &&
    exists x :: At(p, path[|path| - 1].target, x) && ReportedFrom(p, judge, Along(p, judge, start, path).value, x, o)
  }

  lemma EndsAreReported(p: Procedure, judge: Judge, s: State, o: Outcome)
    ensures EndsAt(p, judge, s, o) <==> exists x :: At(p, s.block, x) && ReportedFrom(p, judge, s, x, o)
  {
    if EndsAt(p, judge, s, o) {
      var x := StatementAt(p, s.block).value;
      assert At(p, s.block, x) && ReportedFrom(p, judge, s, x, o);
    }
    if x :| At(p, s.block, x) && ReportedFrom(p, judge, s, x, o) {
      assert StatementAt(p, s.block) == Some(x);
      if !x.restores {
        var e :| e in p.edges && e.source == s.block && MayFollow(p, e) && LeavesProcedure(p, e) && ReportedAt(p, e, o.endLine);
        assert Followed(p, e) && IsExit(p, e.target) && o.endLine == EndLine(p, e);
      }
    }
  }

  /** All that the search reports, edge by edge and line by line. */
  lemma ReportIs(p: Procedure, judge: Judge, start: int, o: Outcome)
    ensures HasOutcome(p, judge, start, o) <==> LeftAtOnce(p, start, o) || exists path :: ReportedOn(p, judge, start, path, o)
  {
    if s :| Visits(p, judge, start, s) && EndsAt(p, judge, s, o) {
      var path :| Along(p, judge, start, path) == Some(s);
      PathsAreInside(p, judge, start, path);
      EndsAreReported(p, judge, s, o);
      assert ReportedOn(p, judge, start, path, o);
    }
    if path :| ReportedOn(p, judge, start, path, o) {
      var s := Along(p, judge, start, path).value;
      PathsAreInside(p, judge, start, path);
      EndsAreReported(p, judge, s, o);
      assert Visits(p, judge, start, s) && EndsAt(p, judge, s, o);
    }
    if e :| e in p.edges && e.source == start && !e.exceptional && IsExit(p, e.target) && o == Outcome(EndLine(p, e), UNRESTORED) {
      assert LeavesProcedure(p, e) && ReportedAt(p, e, o.endLine);
    }
    if LeftAtOnce(p, start, o) {
      var e :| e in p.edges && e.source == start && !e.exceptional && LeavesProcedure(p, e) && ReportedAt(p, e, o.endLine);
      assert IsExit(p, e.target) && o == Outcome(EndLine(p, e), UNRESTORED);
    }
  }
}
