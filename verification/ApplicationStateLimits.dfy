/**
 Where VBA203 stops being sound: one procedure for each way of leaving the lifecycle model.
 In both the property keeps a foreign value on exit and the analysis reports nothing.
 */
module ApplicationStateLimits {
  import opened Wrappers
  import opened ApplicationState
  import opened ApplicationStateFixpoint
  import opened ApplicationStateSoundness

  const ENTRY_MACHINE := Machine(7, map[], {})

  ghost predicate Silent(g: Graph) {
    forall t, w :: Stable(g, t) && WitnessesOf(Exits(g, t), w) ==> w == map[]
  }

  /** Some walk to `b` leaves the machine as `m`. */
  ghost predicate Reaches(g: Graph, b: int, m: Machine) {
    exists walk, inputs :: Leads(g, walk, inputs, b, m)
  }

  ghost predicate Leads(g: Graph, walk: seq<Edge>, inputs: seq<int>, b: int, m: Machine) {
    |inputs| == |walk| && InGraph(g, walk) && Walk(g, g.entry, walk, b) && Run(g, ENTRY_MACHINE, walk, inputs) == m
  }

  /** Some walk leaves the procedure with a foreign value in the property. */
  ghost predicate Leaky(g: Graph) {
    Initial(ENTRY_MACHINE) && exists b, m :: Reaches(g, b, m) && KindOfExit(g, b).Some? && m.property != ENTRY_MACHINE.property
  }

  lemma NoExitNoWitness(g: Graph, t: Table, w: map<int, Witness>)
    requires WitnessesOf(Exits(g, t), w) && forall e <- g.edges :: ExitOf(g, t, e).origins == {}
    ensures w == map[]
  {
    forall j: nat | j < |g.edges| ensures Exits(g, t)[j].origins == {} {
      assert g.edges[j] in g.edges;
    }
    assert forall o :: o !in w;
  }

  lemma Starts(g: Graph)
    ensures Reaches(g, g.entry, ENTRY_MACHINE)
  {
    assert Leads(g, [], [], g.entry, ENTRY_MACHINE);
  }

  /** The edge leaves the block of this statement. */
  ghost predicate Leaves(g: Graph, e: Edge, s: Statement) {
    e in g.edges && e.source in g.blocks && g.blocks[e.source] == s
  }

  lemma Next(g: Graph, m: Machine, e: Edge, s: Statement, input: int, m': Machine)
    requires Reaches(g, e.source, m) && Leaves(g, e, s)
    requires m' == StepAlong(m, s, e.edgeClass, input)
    ensures Reaches(g, e.target, m')
  {
    var walk, inputs :| Leads(g, walk, inputs, e.source, m);
    assert (walk + [e])[..|walk|] == walk && (inputs + [input])[..|walk|] == inputs;
    assert Leads(g, walk + [e], inputs + [input], e.target, m');
  }

  /** The flow and its snapshots name no origin. */
  ghost predicate Blameless(f: Flow) {
    f.dirty == {} && forall k <- f.saved :: f.saved[k].dirty == {}
  }

  lemma BlamelessStep(f: Flow, s: Statement, edgeClass: EdgeClass, pairs: GuardPairs)
    requires Blameless(f) && !s.WriteProperty?
    ensures Blameless(AcrossEdge(f, s, edgeClass, pairs))
  {
  }

  // ---- A restore that faults -----------------------------------------------------------

  const F12 := Edge(1, 2, Normal, 1)
  const F23 := Edge(2, 3, Normal, 2)
  const F3EXIT := Edge(3, 10, Normal, 3)
  const F3FAULT := Edge(3, 11, Exceptional, 3)

  /** saved = property; property = expression; property = saved, where the last line faults. */
  const FAULTING_RESTORE := Graph(
    map[1 := Capture("saved", {}), 2 := WriteProperty(2, None, false), 3 := WriteProperty(3, Some("saved"), false)],
    [F12, F23, F3EXIT, F3FAULT], 1, 10, 11, 12, 13, {})

  /** The property is proven captured before anything is dirty. */
  ghost predicate Proven(f: Flow) {
    "saved" in f.saved && !f.saved["saved"].unknown && f.saved["saved"].dirty == {}
  }

  lemma ProvenStep(f: Flow, edgeClass: EdgeClass)
    ensures f == START ==> Proven(AcrossEdge(f, Capture("saved", {}), Normal, {}))
    ensures Proven(f) ==> Proven(AcrossEdge(f, WriteProperty(2, None, false), Normal, {}))
    ensures Proven(f) ==> AcrossEdge(f, WriteProperty(3, Some("saved"), false), edgeClass, {}).dirty == {}
  {
  }

  lemma {:induction false} FaultingRestoreShape(d: Derivation)
    requires Sound(FAULTING_RESTORE, d)
    ensures Place(FAULTING_RESTORE, d) == 1 ==> Derived(FAULTING_RESTORE, d) == START
    ensures Place(FAULTING_RESTORE, d) in {2, 3} ==> Proven(Derived(FAULTING_RESTORE, d))
  {
    match d
    case Root =>
    case Along(p, e) => FaultingRestoreShape(p); ProvenStep(Derived(FAULTING_RESTORE, p), e.edgeClass);
    case Join(l, r) => FaultingRestoreShape(l); FaultingRestoreShape(r);
  }

  lemma FaultingRestoreExit(t: Table, e: Edge)
    requires Stable(FAULTING_RESTORE, t) && e in FAULTING_RESTORE.edges
    ensures ExitOf(FAULTING_RESTORE, t, e).origins == {}
  {
    var g := FAULTING_RESTORE;
    if e.source == 3 && 3 in t {
      var d :| Sound(g, d) && Place(g, d) == 3 && Derived(g, d) == t[3];
      FaultingRestoreShape(d);
      ProvenStep(t[3], e.edgeClass);
    }
  }

  lemma FaultingRestoreIsMissed()
    ensures Silent(FAULTING_RESTORE)
    ensures Leaky(FAULTING_RESTORE)
  {
    var g := FAULTING_RESTORE;
    forall t, w | Stable(g, t) && WitnessesOf(Exits(g, t), w) ensures w == map[] {
      forall e <- g.edges ensures ExitOf(g, t, e).origins == {} { FaultingRestoreExit(t, e); }
      NoExitNoWitness(g, t, w);
    }
    FaultingRestoreRun();
  }

  lemma FaultingRestoreRun()
    ensures Leaky(FAULTING_RESTORE)
  {
    var g := FAULTING_RESTORE;
    assert F12 in g.edges && F23 in g.edges && F3FAULT in g.edges;
    Starts(g);
    var captured := Machine(7, map["saved" := Held(7, true)], {});
    var written := Machine(5, map["saved" := Held(7, true)], {2});
    Next(g, ENTRY_MACHINE, F12, Capture("saved", {}), 0, captured);
    Next(g, captured, F23, WriteProperty(2, None, false), 5, written);
    Next(g, written, F3FAULT, WriteProperty(3, Some("saved"), false), 0, written);
  }

  // ---- A guarded restore of an overwritten variable ------------------------------------

  const G12 := Edge(1, 2, Normal, 1)
  const G13 := Edge(1, 3, Normal, 1)
  const G23 := Edge(2, 3, Normal, 2)
  const G34 := Edge(3, 4, Normal, 3)
  const G35 := Edge(3, 5, Normal, 3)
  const G45 := Edge(4, 5, Normal, 4)
  const G56 := Edge(5, 6, Normal, 5)
  const G5EXIT := Edge(5, 10, Normal, 5)
  const G6EXIT := Edge(6, 10, Normal, 6)

  /** If c: saved = property; If d: saved = expression; If c: property = saved. */
  const GUARDED_OVERWRITE := Graph(
    map[1 := Other, 2 := Capture("saved", {1}), 3 := Other, 4 := AssignVariable("saved"), 5 := Other,
        6 := WriteProperty(6, Some("saved"), false)],
    [G12, G13, G23, G34, G35, G45, G56, G5EXIT, G6EXIT], 1, 10, 11, 12, 13, {(1, 6)})

  lemma GuardedOverwriteEdges(e: Edge)
    requires e in GUARDED_OVERWRITE.edges && e.target != 10
    ensures e.source in GUARDED_OVERWRITE.blocks && !GUARDED_OVERWRITE.blocks[e.source].WriteProperty? && e.source != 10
  {
  }

  lemma {:induction false} GuardedOverwriteShape(d: Derivation)
    requires Sound(GUARDED_OVERWRITE, d) && Place(GUARDED_OVERWRITE, d) != 10
    ensures Blameless(Derived(GUARDED_OVERWRITE, d))
  {
    var g := GUARDED_OVERWRITE;
    match d
    case Root =>
    case Along(p, e) =>
      GuardedOverwriteEdges(e);
      GuardedOverwriteShape(p);
      BlamelessStep(Derived(g, p), g.blocks[e.source], e.edgeClass, g.pairs);
    case Join(l, r) => GuardedOverwriteShape(l); GuardedOverwriteShape(r);
  }

  /** The correlated restore of a blameless flow leaves no origin. */
  lemma GuardedRestoreClears(f: Flow)
    requires Blameless(f) && "saved" in f.saved && 1 in f.saved["saved"].guardedBy
    ensures AcrossEdge(f, WriteProperty(6, Some("saved"), false), Normal, {(1, 6)}).dirty == {}
  {
  }

  /** The guard of the capture is still recorded where the restore is reached. */
  lemma GuardSurvives(t: Table)
    requires Stable(GUARDED_OVERWRITE, t)
    ensures 6 in t && "saved" in t[6].saved && 1 in t[6].saved["saved"].guardedBy
  {
    var kept := GuardedBy("saved", 1);
    FactCrosses(t, G12, Dirty(0));
    assert Holds(OutState(GUARDED_OVERWRITE, t[2], G23), kept);
    FactCrosses(t, G23, kept);
    FactCrosses(t, G35, kept);
    FactCrosses(t, G56, kept);
  }

  lemma FactCrosses(t: Table, e: Edge, x: Fact)
    requires Stable(GUARDED_OVERWRITE, t) && e in GUARDED_OVERWRITE.edges && e.source in t && e.source in GUARDED_OVERWRITE.blocks
    ensures e.target in t && (Holds(OutState(GUARDED_OVERWRITE, t[e.source], e), x) ==> Holds(t[e.target], x))
  {
  }

  lemma GuardedOverwriteIsMissed()
    ensures Silent(GUARDED_OVERWRITE)
    ensures Leaky(GUARDED_OVERWRITE)
  {
    var g := GUARDED_OVERWRITE;
    forall t, w | Stable(g, t) && WitnessesOf(Exits(g, t), w) ensures w == map[] {
      forall e <- g.edges ensures ExitOf(g, t, e).origins == {} { GuardedOverwriteExit(t, e); }
      NoExitNoWitness(g, t, w);
    }
    GuardedOverwriteRun();
  }

  lemma GuardedOverwriteExit(t: Table, e: Edge)
    requires Stable(GUARDED_OVERWRITE, t) && e in GUARDED_OVERWRITE.edges
    ensures ExitOf(GUARDED_OVERWRITE, t, e).origins == {}
  {
    var g := GUARDED_OVERWRITE;
    if e.target == 10 && e.source in t {
      var d :| Sound(g, d) && Place(g, d) == e.source && Derived(g, d) == t[e.source];
      GuardedOverwriteShape(d);
      if e == G6EXIT {
        GuardSurvives(t);
        GuardedRestoreClears(t[6]);
        assert OutState(g, t[6], e).dirty == {};
      } else {
        BlamelessStep(t[e.source], Other, Normal, g.pairs);
        assert e == G5EXIT && OutState(g, t[5], e).dirty == {};
      }
    }
  }

  const CAPTURED := Machine(7, map["saved" := Held(7, true)], {})
  const OVERWRITTEN := Machine(7, map["saved" := Held(5, false)], {})

  lemma CaptureThenOverwrite()
    ensures Execute(ENTRY_MACHINE, Capture("saved", {1}), 0) == CAPTURED
    ensures Execute(CAPTURED, AssignVariable("saved"), 5) == OVERWRITTEN
  {
  }

  lemma OverwriteLeaves()
    ensures Leaves(GUARDED_OVERWRITE, G12, Other) && Leaves(GUARDED_OVERWRITE, G23, Capture("saved", {1}))
    ensures Leaves(GUARDED_OVERWRITE, G34, Other) && Leaves(GUARDED_OVERWRITE, G45, AssignVariable("saved"))
    ensures Leaves(GUARDED_OVERWRITE, G56, Other) && Leaves(GUARDED_OVERWRITE, G6EXIT, WriteProperty(6, Some("saved"), false))
  {
    var es := GUARDED_OVERWRITE.edges;
    assert es[0] == G12 && es[2] == G23 && es[3] == G34 && es[5] == G45 && es[6] == G56 && es[8] == G6EXIT;
  }

  /** The capture runs, its guard's second use runs the overwrite. */
  lemma OverwriteWalk(g: Graph)
    requires g.entry == 1 && Leaves(g, G12, Other) && Leaves(g, G23, Capture("saved", {1})) && Leaves(g, G34, Other)
    requires Leaves(g, G45, AssignVariable("saved")) && Leaves(g, G56, Other)
    ensures Reaches(g, 6, OVERWRITTEN)
  {
    CaptureThenOverwrite();
    Starts(g);
    Next(g, ENTRY_MACHINE, G12, Other, 0, ENTRY_MACHINE);
    Next(g, ENTRY_MACHINE, G23, Capture("saved", {1}), 0, CAPTURED);
    Next(g, CAPTURED, G34, Other, 0, CAPTURED);
    Next(g, CAPTURED, G45, AssignVariable("saved"), 5, OVERWRITTEN);
    Next(g, OVERWRITTEN, G56, Other, 0, OVERWRITTEN);
  }

  lemma GuardedOverwriteRun()
    ensures Leaky(GUARDED_OVERWRITE)
  {
    OverwriteLeaves();
    OverwriteWalk(GUARDED_OVERWRITE);
    var s := WriteProperty(6, Some("saved"), false);
    Next(GUARDED_OVERWRITE, OVERWRITTEN, G6EXIT, s, 0, Execute(OVERWRITTEN, s, 0));
  }
}
