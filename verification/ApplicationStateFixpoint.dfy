/**
 What the VBA203 worklist must compute: the graph it runs on, when a table of in-states is
 stable, why accumulating in-states must end, and which exit witnesses a table justifies.
 */
module ApplicationStateFixpoint {
  import opened Wrappers
  import opened Sets
  import opened ApplicationState

  datatype Edge = Edge(source: int, target: int, edgeClass: EdgeClass, line: int)

  datatype Graph = Graph(
    blocks: map<int, Statement>,
    edges: seq<Edge>,
    entry: int,
    normalExit: int,
    exceptionalExit: int,
    terminationExit: int,
    unknownExit: int,
    pairs: GuardPairs)

  type Table = map<int, Flow>

  function OutState(g: Graph, f: Flow, e: Edge): Flow
    requires e.source in g.blocks
  {
    AcrossEdge(f, g.blocks[e.source], e.edgeClass, g.pairs)
  }

  // ---- Stability -----------------------------------------------------------------------

  /** The edge can add nothing to its target any more. */
  ghost predicate Settled(g: Graph, t: Table, e: Edge) {
    e.source in t && e.source in g.blocks ==> e.target in t && Leq(OutState(g, t[e.source], e), t[e.target])
  }

  /** A consecutive run of edges of the graph. */
  ghost predicate Walk(g: Graph, start: int, walk: seq<Edge>, end: int) {
    if walk == [] then start == end
    else
      var e := walk[|walk| - 1];
      e in g.edges && e.source in g.blocks && e.target == end && Walk(g, start, walk[..|walk| - 1], e.source)
  }

  ghost predicate Reachable(g: Graph, b: int) {
    exists walk :: Walk(g, g.entry, walk, b)
  }

  lemma ReachableStep(g: Graph, e: Edge)
    requires e in g.edges && e.source in g.blocks && Reachable(g, e.source)
    ensures Reachable(g, e.target)
  {
    var walk :| Walk(g, g.entry, walk, e.source);
    assert (walk + [e])[..|walk|] == walk;
    assert Walk(g, g.entry, walk + [e], e.target);
  }

  /** How a flow can come about: from the start, along an edge, or by joining two flows of one block. */
  datatype Derivation = Root | Along(before: Derivation, e: Edge) | Join(left: Derivation, right: Derivation)

  ghost function Place(g: Graph, d: Derivation): int {
    match d
    case Root => g.entry
    case Along(_, e) => e.target
    case Join(l, _) => Place(g, l)
  }

  ghost predicate Sound(g: Graph, d: Derivation) {
    match d
    case Root => true
    case Along(p, e) => Sound(g, p) && e in g.edges && e.source in g.blocks && Place(g, p) == e.source
    case Join(l, r) => Sound(g, l) && Sound(g, r) && Place(g, l) == Place(g, r)
  }

  ghost function Derived(g: Graph, d: Derivation): Flow
    requires Sound(g, d)
  {
    match d
    case Root => START
    case Along(p, e) => OutState(g, Derived(g, p), e)
    case Join(l, r) => Merge(Derived(g, l), Derived(g, r))
  }

  ghost predicate Derivable(g: Graph, b: int, f: Flow) {
    exists d :: Sound(g, d) && Place(g, d) == b && Derived(g, d) == f
  }

  lemma DerivableAlong(g: Graph, f: Flow, e: Edge)
    requires e in g.edges && e.source in g.blocks && Derivable(g, e.source, f)
    ensures Derivable(g, e.target, OutState(g, f, e))
  {
    var d :| Sound(g, d) && Place(g, d) == e.source && Derived(g, d) == f;
    assert Sound(g, Along(d, e));
  }

  lemma DerivableJoin(g: Graph, b: int, f: Flow, h: Flow)
    requires Derivable(g, b, f) && Derivable(g, b, h)
    ensures Derivable(g, b, Merge(f, h))
  {
    var d :| Sound(g, d) && Place(g, d) == b && Derived(g, d) == f;
    var c :| Sound(g, c) && Place(g, c) == b && Derived(g, c) == h;
    assert Sound(g, Join(d, c));
  }

  lemma {:induction false} DerivationReaches(g: Graph, d: Derivation)
    requires Sound(g, d)
    ensures Reachable(g, Place(g, d))
  {
    match d
    case Root => assert Walk(g, g.entry, [], g.entry);
    case Along(p, e) => DerivationReaches(g, p); ReachableStep(g, e);
    case Join(l, _) => DerivationReaches(g, l);
  }

  /** The table the solver must return: it covers the start, absorbs every edge, and invents nothing. */
  ghost predicate Stable(g: Graph, t: Table) {
    && g.entry in t && Leq(START, t[g.entry])
    && (forall e <- g.edges :: Settled(g, t, e))
    && (forall b <- t :: Derivable(g, b, t[b]))
  }

  /** A stable table describes exactly the reachable blocks, and merging any edge changes nothing. */
  lemma StableIsExact(g: Graph, t: Table)
    requires Stable(g, t)
    ensures forall b :: b in t <==> Reachable(g, b)
    ensures forall e <- g.edges | e.source in t && e.source in g.blocks ::
      e.target in t && Merge(t[e.target], OutState(g, t[e.source], e)) == t[e.target]
  {
    forall b <- t ensures Reachable(g, b) {
      var d :| Sound(g, d) && Place(g, d) == b && Derived(g, d) == t[b];
      DerivationReaches(g, d);
    }
    forall b | Reachable(g, b) ensures b in t {
      var walk :| Walk(g, g.entry, walk, b);
      WalkStaysInTable(g, t, walk, b);
    }
    forall e <- g.edges | e.source in t && e.source in g.blocks
      ensures e.target in t && Merge(t[e.target], OutState(g, t[e.source], e)) == t[e.target]
    {
      assert Settled(g, t, e);
      MergeAbsorbs(t[e.target], OutState(g, t[e.source], e));
    }
  }

  lemma {:induction false} WalkStaysInTable(g: Graph, t: Table, walk: seq<Edge>, b: int)
    requires Stable(g, t) && Walk(g, g.entry, walk, b)
    ensures b in t
  {
    if walk != [] {
      var e := walk[|walk| - 1];
      WalkStaysInTable(g, t, walk[..|walk| - 1], e.source);
      assert Settled(g, t, e);
    }
  }

  // ---- Termination ---------------------------------------------------------------------

  ghost function Origins(g: Graph): set<int> {
    set b | b in g.blocks && g.blocks[b].WriteProperty? :: g.blocks[b].id
  }

  ghost function Keys(g: Graph): set<string> {
    set b | b in g.blocks && (g.blocks[b].Capture? || g.blocks[b].CopyVariable? || g.blocks[b].AssignVariable?)
      :: g.blocks[b].target
  }

  ghost function Guards(g: Graph): set<int> {
    set b, q | b in g.blocks && g.blocks[b].Capture? && q in g.blocks[b].guards :: q
  }

  ghost function Nodes(g: Graph): set<int> {
    {g.entry} + set e | e in g.edges :: e.target
  }

  /** The flow speaks only of the statements, variables and guards of the graph. */
  ghost predicate Within(g: Graph, f: Flow) {
    && f.dirty <= Origins(g) && f.saved.Keys <= Keys(g)
    && forall k <- f.saved :: f.saved[k].dirty <= Origins(g) && f.saved[k].restores <= Origins(g) && f.saved[k].guardedBy <= Guards(g)
  }

  lemma OutStateWithin(g: Graph, f: Flow, e: Edge)
    requires Within(g, f) && e.source in g.blocks
    ensures Within(g, OutState(g, f, e))
  {
    var s := g.blocks[e.source];
    if s.WriteProperty? { assert s.id in Origins(g); }
    if s.Capture? || s.CopyVariable? || s.AssignVariable? { assert s.target in Keys(g); }
    if s.Capture? {
      forall q <- s.guards ensures q in Guards(g) { assert q in g.blocks[e.source].guards; }
    }
  }

  lemma MergeWithin(g: Graph, a: Flow, b: Flow)
    requires Within(g, a) && Within(g, b)
    ensures Within(g, Merge(a, b))
  {
  }

  /** Every fact two flows of the graph can disagree on, plus the presence of a flow. */
  ghost function Universe(g: Graph): set<Option<Fact>> {
    var origins, keys, guards := Origins(g), Keys(g), Guards(g);
    {None, Some(Fact.ViaExceptional)}
    + (set o | o in origins :: Some(Dirty(o)))
    + (set k | k in keys :: Some(Tracked(k)))
    + (set k | k in keys :: Some(Unknown(k)))
    + (set k, o | k in keys && o in origins :: Some(SavedDirty(k, o)))
    + (set k, q | k in keys && q in guards :: Some(GuardedBy(k, q)))
    + (set k, o | k in keys && o in origins :: Some(Touched(k, o)))
    + (set k, o | k in keys && o in origins :: Some(Uncovered(k, o)))
  }

  ghost predicate Known(t: Table, b: int, x: Option<Fact>) {
    b in t && (x.Some? ==> Holds(t[b], x.value))
  }

  /** The facts a table does not hold yet: what accumulation can still add. */
  ghost function Pending(g: Graph, t: Table): set<(int, Option<Fact>)> {
    set b, x | b in Nodes(g) && x in Universe(g) && !Known(t, b, x) :: (b, x)
  }

  /** Two flows of the graph that differ disagree on a fact of the universe. */
  lemma NewFact(g: Graph, a: Flow, b: Flow) returns (x: Fact)
    requires Within(g, a) && Within(g, b) && !Leq(b, a)
    ensures Some(x) in Universe(g) && Holds(b, x) && !Holds(a, x)
  {
    x :| Holds(b, x) && !Holds(a, x);
    if (x.Touched? || x.Uncovered?) && x.key !in Keys(g) { x := Dirty(x.origin); }
  }

  lemma LosingOneShrinks(g: Graph, t: Table, t': Table, b: int, x: Option<Fact>)
    requires forall c, y :: Known(t, c, y) ==> Known(t', c, y)
    requires b in Nodes(g) && x in Universe(g) && !Known(t, b, x) && Known(t', b, x)
    ensures |Pending(g, t')| < |Pending(g, t)|
  {
    var p, q := Pending(g, t'), Pending(g, t);
    assert (b, x) in q && (b, x) !in p;
    assert p <= q - {(b, x)};
    SubsetIsSmaller(p, q - {(b, x)});
  }

  /** A merge that changes the table uses up part of what is pending. */
  lemma Accumulates(g: Graph, t: Table, b: int, out: Flow, next: Flow)
    requires b in Nodes(g) && Within(g, out)
    requires b in t ==> Within(g, t[b]) && next == Merge(t[b], out) && next != t[b]
    requires b !in t ==> next == out
    ensures |Pending(g, t[b := next])| < |Pending(g, t)|
  {
    var x := None;
    if b in t {
      MergeFacts(t[b], out);
      MergeAbsorbs(t[b], out);
      var fact := NewFact(g, t[b], out);
      x := Some(fact);
    }
    LosingOneShrinks(g, t, t[b := next], b, x);
  }

  // ---- Witnesses -----------------------------------------------------------------------

  datatype ExitKind = NormalExit | ErrorHandlerToNormalExit | ErrorExit | TerminationExit | UnknownExit

  datatype Witness = Witness(kind: ExitKind, line: int)

  function Rank(k: ExitKind): nat {
    match k
    case ErrorHandlerToNormalExit => 4
    case ErrorExit => 3
    case UnknownExit => 2
    case TerminationExit => 1
    case NormalExit => 0
  }

  function KindOfExit(g: Graph, b: int): Option<ExitKind> {
    if b == g.normalExit then Some(NormalExit)
    else if b == g.exceptionalExit then Some(ErrorExit)
    else if b == g.terminationExit then Some(TerminationExit)
    else if b == g.unknownExit then Some(UnknownExit)
    else None
  }

  /** What one edge reports: the origins still dirty as it leaves the procedure, and how it leaves. */
  datatype Exit = Exit(origins: set<int>, report: Witness)

  ghost function ExitOf(g: Graph, t: Table, e: Edge): Exit {
    var kind := KindOfExit(g, e.target);
    if kind.Some? && e.source in t && e.source in g.blocks then
      var out := OutState(g, t[e.source], e);
      var handled := kind.value == NormalExit && out.viaExceptional;
      Exit(out.dirty, Witness(if handled then ErrorHandlerToNormalExit else kind.value, e.line))
    else Exit({}, Witness(NormalExit, 0))
  }

  ghost function Exits(g: Graph, t: Table): (r: seq<Exit>)
    ensures |r| == |g.edges|
  {
    seq(|g.edges|, i requires 0 <= i < |g.edges| => ExitOf(g, t, g.edges[i]))
  }

  /** Exit `i` is the earliest of the highest-ranked exits that report the origin. */
  ghost predicate IsWitness(exits: seq<Exit>, i: nat, origin: int) {
    && i < |exits| && origin in exits[i].origins
    && forall j: nat | j < |exits| && origin in exits[j].origins ::
         var rank, best := Rank(exits[j].report.kind), Rank(exits[i].report.kind);
         rank <= best && (j < i ==> rank < best)
  }

  /** The map reports exactly the leaking origins, each with its best exit. */
  ghost predicate WitnessesOf(exits: seq<Exit>, w: map<int, Witness>) {
    && (forall o :: o in w <==> exists j: nat :: j < |exits| && o in exits[j].origins)
    && (forall o <- w :: exists i: nat :: IsWitness(exits, i, o) && w[o] == exits[i].report)
  }

  /** A further exit that reports nothing changes nothing. */
  lemma IgnoreExit(exits: seq<Exit>, x: Exit, w: map<int, Witness>)
    requires WitnessesOf(exits, w) && x.origins == {}
    ensures WitnessesOf(exits + [x], w)
  {
    forall o <- w ensures exists i: nat :: IsWitness(exits + [x], i, o) && w[o] == (exits + [x])[i].report {
      var i: nat :| IsWitness(exits, i, o) && w[o] == exits[i].report;
      assert IsWitness(exits + [x], i, o);
    }
    forall o ensures o in w <==> exists j: nat :: j < |exits + [x]| && o in (exits + [x])[j].origins {
      if o in w { var j: nat :| j < |exits| && o in exits[j].origins; assert (exits + [x])[j] == exits[j]; }
    }
  }

  /** The last exit reports one more origin: it wins if it outranks what is known. */
  lemma OfferOrigin(exits: seq<Exit>, x: Exit, w: map<int, Witness>, o: int)
    requires WitnessesOf(exits + [x], w) && o !in x.origins
    ensures WitnessesOf(exits + [x.(origins := x.origins + {o})],
                        if o !in w || Rank(x.report.kind) > Rank(w[o].kind) then w[o := x.report] else w)
  {
    var before, after := exits + [x], exits + [x.(origins := x.origins + {o})];
    var w' := if o !in w || Rank(x.report.kind) > Rank(w[o].kind) then w[o := x.report] else w;
    forall p <- w' ensures exists i: nat :: IsWitness(after, i, p) && w'[p] == after[i].report {
      if p != o || o in w {
        var i: nat :| IsWitness(before, i, p) && w[p] == before[i].report;
        assert forall j: nat :: j < |after| ==> after[j].report == before[j].report && (j < |exits| ==> after[j] == before[j]);
        assert IsWitness(after, if p == o && Rank(x.report.kind) > Rank(w[o].kind) then |exits| else i, p);
      } else {
        forall j: nat | j < |exits| ensures o !in after[j].origins { assert before[j] == exits[j]; }
        assert IsWitness(after, |exits|, o);
      }
    }
    forall p ensures p in w' <==> exists j: nat :: j < |after| && p in after[j].origins {
      if p == o { assert o in after[|exits|].origins; }
      else if p in w { var j: nat :| j < |before| && p in before[j].origins; assert p in after[j].origins; }
      else { assert forall j: nat | j < |after| :: p in after[j].origins <==> p in before[j].origins; }
    }
  }
}
