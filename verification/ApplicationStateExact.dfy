/**
 Where the VBA203 report is exact: on procedures without joins it lists the assignments that remain
 on some path to an exit, and on every procedure the kind of a witness is the most telling kind of
 exit the origin can leave by.
 */
module ApplicationStateExact {
  import opened Wrappers
  import opened ApplicationState
  import opened ApplicationStateFixpoint
  import opened ApplicationStateRestores

  /** The statements a walk passes, with the way it leaves each. */
  function StepsOf(g: Graph, walk: seq<Edge>): seq<Step>
    requires forall e <- walk :: e.source in g.blocks
  {
    seq(|walk|, i requires 0 <= i < |walk| => Step(g.blocks[walk[i].source], walk[i].edgeClass))
  }

  lemma {:induction false} WalkHasBlocks(g: Graph, start: int, walk: seq<Edge>, b: int)
    requires Walk(g, start, walk, b)
    ensures forall e <- walk :: e in g.edges && e.source in g.blocks
  {
    if walk != [] {
      var n := |walk| - 1;
      WalkHasBlocks(g, start, walk[..n], walk[n].source);
      assert walk == walk[..n] + [walk[n]];
    }
  }

  // ---- Procedures without joins ----------------------------------------------------------

  /** Every block but the entry is entered by one edge, and the entry by none. */
  ghost predicate JoinFree(g: Graph) {
    && (forall e <- g.edges :: e.target != g.entry)
    && (forall e <- g.edges, h <- g.edges :: e.target == h.target ==> e == h)
  }

  lemma {:induction false} DerivedIsPath(g: Graph, d: Derivation, walk: seq<Edge>)
    requires JoinFree(g) && Sound(g, d) && Walk(g, g.entry, walk, Place(g, d))
    requires forall e <- walk :: e.source in g.blocks
    ensures Derived(g, d) == AcrossAll(START, StepsOf(g, walk), g.pairs)
  {
    match d
    case Root => assert walk == [];
    case Along(p, e) =>
      var n := |walk| - 1;
      assert walk != [] && walk[n] == e;
      DerivedIsPath(g, p, walk[..n]);
      PathAcross(g, walk);
    case Join(l, r) =>
      DerivedIsPath(g, l, walk);
      DerivedIsPath(g, r, walk);
      MergeAbsorbs(Derived(g, l), Derived(g, l));
  }

  /** The four ways out of a procedure. */
  predicate IsExit(g: Graph, b: int) { b in {g.normalExit, g.exceptionalExit, g.terminationExit, g.unknownExit} }

  /** Some path to an exit leaves the assignment in the property. */
  ghost predicate Leaks(g: Graph, o: int) { exists walk, b :: LeaksAlong(g, walk, b, o) }

  ghost predicate LeaksAlong(g: Graph, walk: seq<Edge>, b: int, o: int) {
    Walk(g, g.entry, walk, b) && walk != [] && IsExit(g, b) &&
    (forall e <- walk :: e.source in g.blocks) && o in Remaining(StepsOf(g, walk))
  }

  lemma ExitIsPath(g: Graph, t: Table, walk: seq<Edge>, b: int)
    requires JoinFree(g) && Stable(g, t) && Walk(g, g.entry, walk, b) && walk != [] && IsExit(g, b)
    requires forall e <- walk :: e.source in g.blocks
    ensures ExitOf(g, t, walk[|walk| - 1]).origins == Remaining(StepsOf(g, walk))
  {
    var n := |walk| - 1;
    var e := walk[n];
    WalkStaysInTable(g, t, walk[..n], e.source);
    var d :| Sound(g, d) && Place(g, d) == e.source && Derived(g, d) == t[e.source];
    DerivedIsPath(g, d, walk[..n]);
    PathAcross(g, walk);
    PathIsExact(StepsOf(g, walk), g.pairs);
    assert ExitOf(g, t, e).origins == OutState(g, t[e.source], e).dirty;
  }

  lemma PathAcross(g: Graph, walk: seq<Edge>)
    requires walk != [] && forall e <- walk :: e.source in g.blocks
    ensures var n := |walk| - 1;
      AcrossAll(START, StepsOf(g, walk), g.pairs) == OutState(g, AcrossAll(START, StepsOf(g, walk[..n]), g.pairs), walk[n])
  {
    assert StepsOf(g, walk)[..|walk| - 1] == StepsOf(g, walk[..|walk| - 1]);
  }

  /** Without joins the report is exact: a fully restored procedure is silent and every leak is listed. */
  lemma JoinFreeReport(g: Graph, t: Table, w: map<int, Witness>, o: int)
    requires JoinFree(g) && Stable(g, t) && WitnessesOf(Exits(g, t), w)
    ensures o in w <==> Leaks(g, o)
  {
    if o in w {
      var j: nat :| j < |Exits(g, t)| && o in Exits(g, t)[j].origins;
      var e := g.edges[j];
      StableIsExact(g, t);
      var walk :| Walk(g, g.entry, walk, e.source);
      var longer := walk + [e];
      assert longer[..|longer| - 1] == walk && Walk(g, g.entry, longer, e.target);
      WalkHasBlocks(g, g.entry, longer, e.target);
      ExitIsPath(g, t, longer, e.target);
      assert LeaksAlong(g, longer, e.target, o);
    }
    if walk, b :| LeaksAlong(g, walk, b, o) {
      ExitIsPath(g, t, walk, b);
      var e := walk[|walk| - 1];
      assert e in g.edges;
      var j :| 0 <= j < |g.edges| && g.edges[j] == e;
      assert o in Exits(g, t)[j].origins;
    }
  }

  // ---- Kinds of exits ----------------------------------------------------------------------

  ghost predicate PassesFault(walk: seq<Edge>) { exists e <- walk :: e.edgeClass == Exceptional }

  /** Some walk to the block passes an exceptional edge. */
  ghost predicate Handled(g: Graph, b: int) { exists walk :: Walk(g, g.entry, walk, b) && PassesFault(walk) }

  lemma HandledAlong(g: Graph, e: Edge)
    requires e in g.edges && e.source in g.blocks && Reachable(g, e.source) && (e.edgeClass == Exceptional || Handled(g, e.source))
    ensures Handled(g, e.target)
  {
    var walk :| Walk(g, g.entry, walk, e.source) && (e.edgeClass == Exceptional || PassesFault(walk));
    var longer := walk + [e];
    assert longer[..|walk|] == walk && Walk(g, g.entry, longer, e.target);
    assert e in longer && forall x <- walk :: x in longer;
  }

  lemma {:induction false} DerivedHandled(g: Graph, d: Derivation)
    requires Sound(g, d) && Derived(g, d).viaExceptional
    ensures Handled(g, Place(g, d))
  {
    match d
    case Root =>
    case Along(p, e) =>
      DerivationReaches(g, p);
      FlagAcross(Derived(g, p), Step(g.blocks[e.source], e.edgeClass), g.pairs);
      if e.edgeClass != Exceptional { DerivedHandled(g, p); }
      HandledAlong(g, e);
    case Join(l, r) => if Derived(g, l).viaExceptional { DerivedHandled(g, l); } else { DerivedHandled(g, r); }
  }

  lemma {:induction false} FaultIsRemembered(g: Graph, t: Table, walk: seq<Edge>, b: int)
    requires Stable(g, t) && Walk(g, g.entry, walk, b) && PassesFault(walk)
    ensures b in t && t[b].viaExceptional
  {
    var n := |walk| - 1;
    var e := walk[n];
    WalkStaysInTable(g, t, walk, b);
    WalkStaysInTable(g, t, walk[..n], e.source);
    assert walk == walk[..n] + [e];
    if e.edgeClass != Exceptional { FaultIsRemembered(g, t, walk[..n], e.source); }
    FlagAcross(t[e.source], Step(g.blocks[e.source], e.edgeClass), g.pairs);
    assert Settled(g, t, e);
    assert Holds(OutState(g, t[e.source], e), ViaExceptional);
  }

  /** The flag of an in-state tells exactly whether some walk to the block passes a fault. */
  lemma HandlerFlagIsExact(g: Graph, t: Table, b: int)
    requires Stable(g, t) && b in t
    ensures t[b].viaExceptional <==> Handled(g, b)
  {
    if t[b].viaExceptional {
      var d :| Sound(g, d) && Place(g, d) == b && Derived(g, d) == t[b];
      DerivedHandled(g, d);
    }
    if walk :| Walk(g, g.entry, walk, b) && PassesFault(walk) { FaultIsRemembered(g, t, walk, b); }
  }

  /** The origin is still dirty as this edge leaves the procedure. */
  ghost predicate Retains(g: Graph, t: Table, o: int, e: Edge) {
    e in g.edges && e.source in t && e.source in g.blocks && IsExit(g, e.target) && o in OutState(g, t[e.source], e).dirty
  }

  /** What leaving by the edge means. */
  ghost predicate LeavesAs(g: Graph, e: Edge, kind: ExitKind) {
    var handled := e.edgeClass == Exceptional || Handled(g, e.source);
    match kind
    case ErrorHandlerToNormalExit => e.target == g.normalExit && handled
    case ErrorExit => e.target == g.exceptionalExit
    case UnknownExit => e.target == g.unknownExit
    case TerminationExit => e.target == g.terminationExit
    case NormalExit => e.target == g.normalExit && !handled
  }

  ghost predicate DistinctExits(g: Graph) {
    g.normalExit !in {g.exceptionalExit, g.terminationExit, g.unknownExit} &&
    g.exceptionalExit !in {g.terminationExit, g.unknownExit} && g.terminationExit != g.unknownExit
  }

  lemma ExitMeans(g: Graph, t: Table, e: Edge)
    requires Stable(g, t) && DistinctExits(g) && e in g.edges && e.source in t && e.source in g.blocks && IsExit(g, e.target)
    ensures forall kind :: LeavesAs(g, e, kind) <==> ExitOf(g, t, e).report.kind == kind
    ensures ExitOf(g, t, e).origins == OutState(g, t[e.source], e).dirty && ExitOf(g, t, e).report.line == e.line
  {
    HandlerFlagIsExact(g, t, e.source);
    FlagAcross(t[e.source], Step(g.blocks[e.source], e.edgeClass), g.pairs);
  }

  const PREFERENCE := [ErrorHandlerToNormalExit, ErrorExit, UnknownExit, TerminationExit, NormalExit]

  /** An error-handler path is preferred to an error exit, then unknown, termination and plain exits. */
  lemma WitnessIsPreferred(g: Graph, t: Table, w: map<int, Witness>, o: int) returns (e: Edge, i: nat)
    requires Stable(g, t) && DistinctExits(g) && WitnessesOf(Exits(g, t), w) && o in w
    ensures Retains(g, t, o, e) && w[o].line == e.line && LeavesAs(g, e, w[o].kind)
    ensures i < |PREFERENCE| && PREFERENCE[i] == w[o].kind
    ensures forall h, j: nat | j < i && Retains(g, t, o, h) :: !LeavesAs(g, h, PREFERENCE[j])
  {
    var k: nat :| IsWitness(Exits(g, t), k, o) && w[o] == Exits(g, t)[k].report;
    e := g.edges[k];
    ExitMeans(g, t, e);
    i := 4 - Rank(w[o].kind);
    forall h, j: nat | j < i && Retains(g, t, o, h) ensures !LeavesAs(g, h, PREFERENCE[j]) { OutrankedKind(g, t, k, o, h, j); }
  }

  lemma OutrankedKind(g: Graph, t: Table, k: nat, o: int, h: Edge, j: nat)
    requires Stable(g, t) && DistinctExits(g) && IsWitness(Exits(g, t), k, o) && Retains(g, t, o, h)
    requires j < 4 - Rank(Exits(g, t)[k].report.kind)
    ensures !LeavesAs(g, h, PREFERENCE[j])
  {
    NoBetterExit(g, t, k, o, h);
    ExitMeans(g, t, h);
    assert Rank(PREFERENCE[j]) == 4 - j;
  }

  lemma NoBetterExit(g: Graph, t: Table, k: nat, o: int, h: Edge)
    requires Stable(g, t) && DistinctExits(g) && IsWitness(Exits(g, t), k, o) && Retains(g, t, o, h)
    ensures Rank(ExitOf(g, t, h).report.kind) <= Rank(Exits(g, t)[k].report.kind)
  {
    ExitMeans(g, t, h);
    var m :| 0 <= m < |g.edges| && g.edges[m] == h;
    assert o in Exits(g, t)[m].origins;
  }
}
