/**
 What a saved-value restore achieves: writing a captured value back, from the capturing variable
 or from a copy, undoes everything since the capture; along a single path the flow is exactly what
 the statements passed say; and a path that never dirtied an origin does not spoil its coverage at
 a join.
 */
module ApplicationStateRestores {
  import opened Wrappers
  import opened ApplicationState

  /** A statement together with the kind of edge that leaves it. */
  datatype Step = Step(statement: Statement, edgeClass: EdgeClass)

  function AcrossAll(f: Flow, steps: seq<Step>, pairs: GuardPairs): Flow {
    if steps == [] then f
    else
      var n := |steps| - 1;
      AcrossEdge(AcrossAll(f, steps[..n], pairs), steps[n].statement, steps[n].edgeClass, pairs)
  }

  predicate Writes(s: Statement, v: string) {
    (s.Capture? || s.CopyVariable? || s.AssignVariable?) && s.target == v
  }

  /** The variable is proven to hold the value the property had when these origins were dirty. */
  predicate Keeps(f: Flow, v: string, dirty: set<int>) {
    v in f.saved && !f.saved[v].unknown && f.saved[v].dirty == dirty
  }

  lemma StepKeeps(f: Flow, v: string, dirty: set<int>, s: Statement, edgeClass: EdgeClass, pairs: GuardPairs)
    requires Keeps(f, v, dirty) && !Writes(s, v)
    ensures Keeps(AcrossEdge(f, s, edgeClass, pairs), v, dirty)
  {
  }

  lemma {:induction false} StepsKeep(f: Flow, v: string, dirty: set<int>, steps: seq<Step>, pairs: GuardPairs)
    requires Keeps(f, v, dirty) && forall s <- steps :: !Writes(s.statement, v)
    ensures Keeps(AcrossAll(f, steps, pairs), v, dirty)
  {
    if steps != [] {
      var n := |steps| - 1;
      assert forall s <- steps[..n] :: s in steps;
      StepsKeep(f, v, dirty, steps[..n], pairs);
      StepKeeps(AcrossAll(f, steps[..n], pairs), v, dirty, steps[n].statement, steps[n].edgeClass, pairs);
    }
  }

  /**
   Save, change, restore: after any statements and faults that leave the variable alone, writing
   it back leaves exactly the origins that were dirty at the capture, on a fault of the restore too.
   */
  lemma SaveAndRestore(f: Flow, v: string, guards: set<int>, steps: seq<Step>, id: int, edgeClass: EdgeClass, pairs: GuardPairs)
    requires forall s <- steps :: !Writes(s.statement, v)
    ensures var captured := AcrossEdge(f, Capture(v, guards), Normal, pairs);
      AcrossEdge(AcrossAll(captured, steps, pairs), WriteProperty(id, Some(v), false), edgeClass, pairs).dirty == f.dirty
  {
    StepsKeep(AcrossEdge(f, Capture(v, guards), Normal, pairs), v, f.dirty, steps, pairs);
  }

  /** An assignment made while a proven snapshot stands is covered by that snapshot. */
  lemma ChangeIsCovered(f: Flow, v: string, dirty: set<int>, id: int, pairs: GuardPairs)
    requires Keeps(f, v, dirty) && id !in dirty
    ensures var g := AcrossEdge(f, WriteProperty(id, None, false), Normal, pairs);
      id in g.dirty && id in g.saved[v].restores
  {
  }

  /**
   At a join with a path that never dirtied the origin, a write from the variable still clears
   it, although the variable is no longer proven there.
   */
  lemma CleanPathIsNeutral(a: Flow, b: Flow, v: string, o: int, id: int, pairs: GuardPairs)
    requires o in Lookup(a, v).restores && o !in b.dirty && id != o
    ensures var s := WriteProperty(id, Some(v), false); var joined := Merge(a, b);
      && o in Lookup(joined, v).restores
      && (Lookup(joined, v).unknown && !MatchingGuard(Lookup(joined, v), id, pairs) ==> o !in AcrossEdge(joined, s, Normal, pairs).dirty)
  {
    assert v in a.saved;
  }

  /** A path that dirtied the origin without covering it removes the coverage at the join. */
  lemma UncoveredPathSpoils(a: Flow, b: Flow, v: string, o: int, id: int, pairs: GuardPairs)
    requires v in a.saved && o in b.dirty && o !in Lookup(b, v).restores && Lookup(b, v).unknown
    ensures var s := WriteProperty(id, Some(v), false); var joined := Merge(a, b);
      && o in joined.dirty && o !in Lookup(joined, v).restores
      && (!MatchingGuard(Lookup(joined, v), id, pairs) ==> o in AcrossEdge(joined, s, Normal, pairs).dirty)
  {
  }

  // ---- Captures, copies and restores along one path --------------------------------------

  /** The step of the capture that the variable's value comes from, by copies alone. */
  function Provenance(steps: seq<Step>, v: string): Option<nat> {
    if steps == [] then None
    else
      var n := |steps| - 1;
      if steps[n].edgeClass == Exceptional then Provenance(steps[..n], v)
      else match steps[n].statement
        case Capture(t, _) => if t == v then Some(n) else Provenance(steps[..n], v)
        case CopyVariable(t, w) => Provenance(steps[..n], if t == v then w else v)
        case AssignVariable(t) => if t == v then None else Provenance(steps[..n], v)
        case _ => Provenance(steps[..n], v)
  }

  lemma {:induction false} ProvenanceIsCapture(steps: seq<Step>, v: string)
    ensures Provenance(steps, v).Some? ==>
      var k := Provenance(steps, v).value;
      k < |steps| && steps[k].statement.Capture? && steps[k].edgeClass == Normal && (k == |steps| - 1 ==> steps[k].statement.target == v)
  {
    if steps != [] {
      var n := |steps| - 1;
      var s := steps[n].statement;
      ProvenanceIsCapture(steps[..n], v);
      if s.CopyVariable? { ProvenanceIsCapture(steps[..n], s.from); }
    }
  }

  /** From any flow, a variable whose value comes from a capture holds what was dirty at that capture. */
  lemma {:induction false} CopiesKeep(f: Flow, steps: seq<Step>, v: string, pairs: GuardPairs)
    requires Provenance(steps, v).Some?
    ensures Provenance(steps, v).value < |steps|
    ensures Keeps(AcrossAll(f, steps, pairs), v, AcrossAll(f, steps[..Provenance(steps, v).value], pairs).dirty)
    decreases |steps|
  {
    var n, k := |steps| - 1, Provenance(steps, v).value;
    var s := steps[n].statement;
    var h := AcrossAll(f, steps[..n], pairs);
    ProvenanceIsCapture(steps, v);
    assert AcrossAll(f, steps, pairs) == AcrossEdge(h, s, steps[n].edgeClass, pairs);
    if k < n { assert steps[..n][..k] == steps[..k]; }
    if steps[n].edgeClass == Normal && s.CopyVariable? && s.target == v {
      ProvenanceIsCapture(steps[..n], s.from);
      CopiesKeep(f, steps[..n], s.from, pairs);
      CopyKeeps(h, s, AcrossAll(f, steps[..k], pairs).dirty, pairs);
    } else if k == n {
      assert s.target == v && Keeps(AcrossEdge(h, s, Normal, pairs), v, h.dirty);
    } else {
      CopiesKeep(f, steps[..n], v, pairs);
      StepMayKeep(h, v, AcrossAll(f, steps[..k], pairs).dirty, steps[n], pairs);
    }
  }

  lemma CopyKeeps(f: Flow, s: Statement, dirty: set<int>, pairs: GuardPairs)
    requires s.CopyVariable? && Keeps(f, s.from, dirty)
    ensures Keeps(AcrossEdge(f, s, Normal, pairs), s.target, dirty)
  {
  }

  /** A step that does not complete an assignment of the variable leaves it alone. */
  lemma StepMayKeep(f: Flow, v: string, dirty: set<int>, step: Step, pairs: GuardPairs)
    requires Keeps(f, v, dirty) && (step.edgeClass == Exceptional || !Writes(step.statement, v))
    ensures Keeps(AcrossEdge(f, step.statement, step.edgeClass, pairs), v, dirty)
  {
  }

  /**
   Save, copy, change, restore: from any flow and along any steps, writing the property from a
   variable that got its value from a capture, through any chain of copies not overwritten since,
   leaves exactly what was dirty at the capture, on a fault of the restore too.
   */
  lemma CopyAndRestore(f: Flow, steps: seq<Step>, v: string, id: int, edgeClass: EdgeClass, pairs: GuardPairs)
    requires Provenance(steps, v).Some?
    ensures Provenance(steps, v).value < |steps|
    ensures AcrossEdge(AcrossAll(f, steps, pairs), WriteProperty(id, Some(v), false), edgeClass, pairs).dirty ==
      AcrossAll(f, steps[..Provenance(steps, v).value], pairs).dirty
  {
    CopiesKeep(f, steps, v, pairs);
  }

  /** A later change is covered by every copy of the captured value. */
  lemma ChangeIsCoveredByCopies(f: Flow, steps: seq<Step>, v: string, id: int, pairs: GuardPairs)
    requires Provenance(steps, v).Some?
    ensures Provenance(steps, v).value < |steps|
    ensures id !in AcrossAll(f, steps[..Provenance(steps, v).value], pairs).dirty ==>
      var g := AcrossEdge(AcrossAll(f, steps, pairs), WriteProperty(id, None, false), Normal, pairs);
      id in g.dirty && v in g.saved && id in g.saved[v].restores
  {
    CopiesKeep(f, steps, v, pairs);
    var h := AcrossAll(f, steps, pairs);
    if id !in h.saved[v].dirty { ChangeIsCovered(h, v, h.saved[v].dirty, id, pairs); }
  }

  // ---- A single path is exact --------------------------------------------------------------

  /** Step `n` writes a captured value back, whether or not it faults. */
  predicate WritesBack(steps: seq<Step>, n: nat)
    requires n < |steps|
  {
    var s := steps[n].statement;
    s.WriteProperty? && !s.inert && s.source.Some? && Provenance(steps[..n], s.source.value).Some?
  }

  /** Step `n` completes any other effective write. */
  predicate Changes(steps: seq<Step>, n: nat)
    requires n < |steps|
  {
    var s := steps[n].statement;
    s.WriteProperty? && !s.inert && steps[n].edgeClass == Normal && !WritesBack(steps, n)
  }

  /** The assignments whose value may still be in the property, read off the steps alone. */
  function Remaining(steps: seq<Step>): set<int>
    decreases |steps|
  {
    if steps == [] then {}
    else
      var n := |steps| - 1;
      if WritesBack(steps, n) then
        ProvenanceIsCapture(steps[..n], steps[n].statement.source.value);
        Remaining(steps[..n][..Provenance(steps[..n], steps[n].statement.source.value).value])
      else if Changes(steps, n) then Remaining(steps[..n]) + {steps[n].statement.id}
      else Remaining(steps[..n])
  }

  /** The changes after step `k` that were not already in force there. */
  function ChangedSince(steps: seq<Step>, k: nat): set<int>
    requires k <= |steps|
  {
    (set j | k <= j < |steps| && Changes(steps, j) :: steps[j].statement.id) - Remaining(steps[..k])
  }

  /** What the flow must say about a variable. */
  ghost function Described(steps: seq<Step>, v: string): Snapshot {
    var k := Provenance(steps, v);
    if k.None? then ABSENT
    else
      ProvenanceIsCapture(steps, v);
      Snapshot(Remaining(steps[..k.value]), ChangedSince(steps, k.value), steps[k.value].statement.guards, false)
  }

  lemma ChangedSinceStep(steps: seq<Step>, k: nat)
    requires k < |steps|
    ensures var n := |steps| - 1;
      ChangedSince(steps, k) == ChangedSince(steps[..n], k) +
        if Changes(steps, n) && steps[n].statement.id !in Remaining(steps[..k]) then {steps[n].statement.id} else {}
  {
    var n := |steps| - 1;
    assert steps[..n][..k] == steps[..k];
    forall j | 0 <= j < n ensures Changes(steps[..n], j) <==> Changes(steps, j) { assert steps[..n][..j] == steps[..j]; }
  }

  /** The flow at the end of the steps is exactly what they say. */
  ghost predicate Exact(steps: seq<Step>, pairs: GuardPairs) {
    var f := AcrossAll(START, steps, pairs);
    && f.dirty == Remaining(steps)
    && (f.viaExceptional <==> exists i :: 0 <= i < |steps| && steps[i].edgeClass == Exceptional)
    && forall v :: Lookup(f, v) == Described(steps, v)
  }

  lemma NothingMatches(id: int, pairs: GuardPairs)
    ensures !MatchingGuard(ABSENT, id, pairs)
  {
  }

  lemma DirtyIsExact(steps: seq<Step>, pairs: GuardPairs)
    requires steps != [] && Exact(steps[..|steps| - 1], pairs)
    ensures AcrossAll(START, steps, pairs).dirty == Remaining(steps)
  {
    var n := |steps| - 1;
    var s := steps[n].statement;
    NothingMatches(if s.WriteProperty? then s.id else 0, pairs);
    if s.WriteProperty? && s.source.Some? {
      var f := AcrossAll(START, steps[..n], pairs);
      assert Lookup(f, s.source.value) == Described(steps[..n], s.source.value);
    }
  }

  lemma {:induction false} HandlerIsExact(steps: seq<Step>, pairs: GuardPairs)
    ensures AcrossAll(START, steps, pairs).viaExceptional <==> exists i :: 0 <= i < |steps| && steps[i].edgeClass == Exceptional
  {
    if steps != [] {
      var n := |steps| - 1;
      HandlerIsExact(steps[..n], pairs);
      assert forall i :: 0 <= i < n ==> steps[..n][i] == steps[i];
      FlagAcross(AcrossAll(START, steps[..n], pairs), steps[n], pairs);
    }
  }

  lemma FlagAcross(f: Flow, step: Step, pairs: GuardPairs)
    ensures AcrossEdge(f, step.statement, step.edgeClass, pairs).viaExceptional <==> f.viaExceptional || step.edgeClass == Exceptional
  {
  }

  /** What one step does to a variable of a flow whose unproven variables are all absent. */
  lemma VariableStep(f: Flow, step: Step, v: string, pairs: GuardPairs)
    requires forall w :: Lookup(f, w).unknown ==> Lookup(f, w) == ABSENT
    ensures var g := AcrossEdge(f, step.statement, step.edgeClass, pairs); var s := step.statement;
      Lookup(g, v) ==
        if step.edgeClass == Exceptional then Lookup(f, v)
        else match s
          case Capture(t, guards) => if t == v then Snapshot(f.dirty, {}, guards, false) else Lookup(f, v)
          case CopyVariable(t, w) => if t == v then Lookup(f, w) else Lookup(f, v)
          case AssignVariable(t) => if t == v then ABSENT else Lookup(f, v)
          case WriteProperty(id, source, inert) =>
            if !inert && !SavedRestore(f, s) && !Lookup(f, v).unknown && id !in Lookup(f, v).dirty
            then Lookup(f, v).(restores := Lookup(f, v).restores + {id}) else Lookup(f, v)
          case Other => Lookup(f, v)
  {
    var s := step.statement;
    NothingMatches(if s.WriteProperty? then s.id else 0, pairs);
    if s.WriteProperty? && s.source.Some? && s.source.value in f.saved { assert Lookup(f, s.source.value) == f.saved[s.source.value]; }
    if step.edgeClass == Normal && s.WriteProperty? && !s.inert { assert Lookup(f, v) == if v in f.saved then f.saved[v] else ABSENT; }
  }

  lemma VariableIsExact(steps: seq<Step>, v: string, pairs: GuardPairs)
    requires steps != [] && Exact(steps[..|steps| - 1], pairs)
    ensures Lookup(AcrossAll(START, steps, pairs), v) == Described(steps, v)
  {
    var n := |steps| - 1;
    var front, s := steps[..n], steps[n].statement;
    var f := AcrossAll(START, front, pairs);
    forall w ensures Lookup(f, w).unknown ==> Lookup(f, w) == ABSENT { assert Lookup(f, w) == Described(front, w); }
    VariableStep(f, steps[n], v, pairs);
    assert Lookup(f, v) == Described(front, v);
    if s.CopyVariable? && s.target == v && steps[n].edgeClass == Normal {
      assert Lookup(f, s.from) == Described(front, s.from);
      DescribedLonger(steps, v, s.from);
    } else if Provenance(steps, v) == Some(n) {
      ProvenanceIsCapture(steps, v);
      assert ChangedSince(steps, n) == {};
    } else if Provenance(steps, v).Some? {
      DescribedLonger(steps, v, v);
      if s.WriteProperty? && s.source.Some? { assert Lookup(f, s.source.value) == Described(front, s.source.value); }
    }
  }

  /** The last step changes what is said about a capture only by a change of its own. */
  lemma DescribedLonger(steps: seq<Step>, v: string, w: string)
    requires steps != [] && Provenance(steps, v) == Provenance(steps[..|steps| - 1], w)
    ensures var n := |steps| - 1; var d := Described(steps[..n], w);
      Described(steps, v) ==
        if Changes(steps, n) && !d.unknown && steps[n].statement.id !in d.dirty then d.(restores := d.restores + {steps[n].statement.id}) else d
  {
    var n := |steps| - 1;
    ProvenanceIsCapture(steps[..n], w);
    if Provenance(steps, v).Some? {
      var k := Provenance(steps, v).value;
      assert steps[..n][..k] == steps[..k];
      ChangedSinceStep(steps, k);
    }
  }

  /** Along a single path from the entry the flow is exactly what the steps say. */
  lemma {:induction false} PathIsExact(steps: seq<Step>, pairs: GuardPairs)
    ensures Exact(steps, pairs)
    decreases |steps|
  {
    HandlerIsExact(steps, pairs);
    if steps != [] {
      PathIsExact(steps[..|steps| - 1], pairs);
      DirtyIsExact(steps, pairs);
      forall v ensures Lookup(AcrossAll(START, steps, pairs), v) == Described(steps, v) { VariableIsExact(steps, v, pairs); }
    }
  }
}
