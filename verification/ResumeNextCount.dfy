/**
 What the search counts on a path: the operations of a scope, with alternatives of one `#If`
 group counted once.  On a path through well-nested code the multiple-operations flag is set
 exactly when some choice of branches executes two operations.
 */
module ResumeNextCount {
  import opened Wrappers
  import opened ConditionalCompilation
  import opened ConditionalCount
  import Scope = ResumeNext
  import Search = ResumeNextSearch
  import opened ResumeNextReasons

  /** A protected operation: a checked member probe, or a statement nothing else explains. */
  predicate Operates(p: Scope.Procedure, judge: Scope.Judge, before: Scope.State, x: Scope.Statement) {
    !Skipped(before, x) && (judge(Scope.Synced(before, x), x).memberProbe || UnexplainedOperation(p, judge, before, x))
  }

  lemma ExplainCounts(p: Scope.Procedure, judge: Scope.Judge, u: Scope.State, x: Scope.Statement, inspects: bool)
    ensures Scope.Explain(p, judge, u, x, inspects).counter ==
      if !x.errProbe && Scope.FallenBack(u, x, judge(u, x)).None? && !inspects && !Scope.Unremarkable(p, u, x) && !Controls(x)
      then Record(u.counter) else u.counter
  {
  }

  lemma ApplyCounts(p: Scope.Procedure, judge: Scope.Judge, before: Scope.State, x: Scope.Statement)
    ensures Scope.Apply(p, judge, before, x).counter == Advance(before.counter, Step(x.path, Operates(p, judge, before, x)))
  {
    RulesAgree(judge, before, x);
    if Open(judge, before, x) { OpenCounts(p, judge, before, x); }
  }

  lemma OpenCounts(p: Scope.Procedure, judge: Scope.Judge, before: Scope.State, x: Scope.Statement)
    requires Open(judge, before, x)
    ensures Scope.Apply(p, judge, before, x).counter ==
      if UnexplainedOperation(p, judge, before, x) then Record(Sync(before.counter, x.path)) else Sync(before.counter, x.path)
  {
    var u := Noted(judge, before, x);
    RulesAgree(judge, before, x);
    ApplyOpens(p, judge, before, x);
    ExplainCounts(p, judge, u, x, Inspects(judge, before, x));
    FallenBackStores(u, x, judge(u, x));
    assert u.counter == Sync(before.counter, x.path) && u.probe.errCheckParent == before.probe.errCheckParent;
  }

  /** The statements a path has passed, each with its branch path and whether it operates. */
  ghost function StepsAlong(p: Scope.Procedure, judge: Scope.Judge, start: int, path: seq<Scope.Edge>): seq<Step>
    requires Scope.Along(p, judge, start, path).Some?
    decreases |path|
  {
    if |path| <= 1 then []
    else
      var before := Scope.Along(p, judge, start, path[..|path| - 1]).value;
      var x := Scope.StatementAt(p, before.block).value;
      StepsAlong(p, judge, start, path[..|path| - 1]) + [Step(x.path, Operates(p, judge, before, x))]
  }

  lemma {:induction false} PathCounts(p: Scope.Procedure, judge: Scope.Judge, start: int, path: seq<Scope.Edge>)
    requires Scope.Along(p, judge, start, path).Some?
    ensures Scope.Along(p, judge, start, path).value.counter == Run(FRESH, StepsAlong(p, judge, start, path))
    decreases |path|
  {
    if |path| > 1 {
      var shorter := path[..|path| - 1];
      PathCounts(p, judge, start, shorter);
      var before := Scope.Along(p, judge, start, shorter).value;
      var x := Scope.StatementAt(p, before.block).value;
      var step := Step(x.path, Operates(p, judge, before, x));
      ApplyCounts(p, judge, before, x);
      RunConcat(FRESH, StepsAlong(p, judge, start, shorter), [step]);
      OneMore(Run(FRESH, StepsAlong(p, judge, start, shorter)), step);
    }
  }

  lemma OneMore(c: Counter, s: Step)
    ensures Run(c, [s]) == Advance(c, s)
  {
  }

  /** On a path through well-nested code the flag tells whether some choice of branches operates twice. */
  lemma FlagIsMaximum(p: Scope.Procedure, judge: Scope.Judge, start: int, path: seq<Scope.Edge>, code: Code)
    returns (best: Selection)
    requires Scope.Along(p, judge, start, path).Some? && Distinct(code)
    requires StepsAlong(p, judge, start, path) == Flatten(code, [])
    ensures forall c: Selection :: OpsUnder(code, c) <= OpsUnder(code, best)
    ensures Scope.Along(p, judge, start, path).value.counter.multiple <==> OpsUnder(code, best) >= 2
    ensures Sync(Scope.Along(p, judge, start, path).value.counter, []).operations == Min2(OpsUnder(code, best))
  {
    PathCounts(p, judge, start, path);
    best := CountIsMaximum(code);
    Search.VisitedIsPossible(p, judge, start, path);
    Search.SyncKeepsFlag(Scope.Along(p, judge, start, path).value.counter, []);
  }
}
