/**
 The VBA203 worklist over shared flows.  It ends on every finite graph, returns a stable
 table although the transfer is not monotone, and reports exactly the witnesses that table
 justifies.
 */
module ApplicationStateSolver {
  import opened Wrappers
  import opened Sets
  import opened ApplicationState
  import opened ApplicationStateHeap
  import opened ApplicationStateFixpoint

  /** The stored records show the table. */
  ghost predicate Shows(states: map<int, FlowRef>, t: Table)
    reads *
  {
    states.Keys == t.Keys && forall b <- states :: states[b].Valid() && states[b].view == t[b]
  }

  /** The target's in-state once the edge's out-state has been joined into it. */
  ghost function Raised(g: Graph, t: Table, f: Flow, e: Edge): Flow
    requires e.source in g.blocks
  {
    if e.target in t then Merge(t[e.target], OutState(g, f, e)) else OutState(g, f, e)
  }

  ghost predicate Changes(g: Graph, t: Table, f: Flow, e: Edge)
    requires e.source in g.blocks
  {
    e.target !in t || Raised(g, t, f, e) != t[e.target]
  }

  /** Carries one edge's out-state into its target. */
  method PropagateEdge(g: Graph, states: map<int, FlowRef>, ghost t: Table, state: FlowRef, e: Edge)
    returns (next: map<int, FlowRef>, changed: bool)
    requires Shows(states, t) && state.Valid() && e.source in g.blocks
    ensures Shows(states, t) && state.Valid()
    ensures changed <==> Changes(g, t, state.view, e)
    ensures Shows(next, if changed then t[e.target := Raised(g, t, state.view, e)] else t)
  {
    var out := FlowAcrossEdge(state, g.blocks[e.source], e.edgeClass, g.pairs);
    var merged: FlowRef;
    merged, changed := MergeFlow(if e.target in states then states[e.target] else null, out);
    next := if changed then states[e.target := merged] else states;
  }

  // ---- The worklist --------------------------------------------------------------------

  ghost predicate Distinct(queue: seq<int>) {
    forall i, j :: 0 <= i < j < |queue| ==> queue[i] != queue[j]
  }

  /** The table is made of reachable flows of the graph, and `queued` mirrors the queue. */
  ghost predicate Accurate(g: Graph, t: Table, queue: seq<int>, queued: set<int>) {
    && g.entry in t && Leq(START, t[g.entry]) && t.Keys <= Nodes(g)
    && (forall b <- t :: Derivable(g, b, t[b]) && Within(g, t[b]))
    && Distinct(queue) && (forall b :: b in queued <==> b in queue) && queued <= t.Keys
  }

  /** While block `id` is visited with flow `f`, its first `n` edges have been carried over. */
  ghost predicate Visited(g: Graph, t: Table, queued: set<int>, id: int, f: Flow, n: nat)
    requires n <= |g.edges|
  {
    && id in t && Leq(f, t[id]) && (id !in queued ==> t[id] == f)
    && (forall e <- g.edges | e.source != id && e.source !in queued :: Settled(g, t, e))
    && (id in g.blocks ==> forall j: nat | j < n && g.edges[j].source == id ::
          g.edges[j].target in t && Leq(OutState(g, f, g.edges[j]), t[g.edges[j].target]))
  }

  /** Everything a visit keeps true. */
  ghost predicate Visiting(g: Graph, t: Table, queue: seq<int>, queued: set<int>, id: int, f: Flow, n: nat) {
    n <= |g.edges| && Accurate(g, t, queue, queued) && Within(g, f) && Derivable(g, id, f) && Visited(g, t, queued, id, f, n)
  }

  /** Raising one block keeps every edge settled whose source is not that block. */
  lemma RaiseKeepsVisited(g: Graph, t: Table, queued: set<int>, id: int, f: Flow, n: nat, b: int, raised: Flow)
    requires n <= |g.edges| && Visited(g, t, queued, id, f, n) && (b in t ==> Leq(t[b], raised))
    ensures Visited(g, t[b := raised], queued + {b}, id, f, n)
  {
  }

  lemma RaiseKeepsAccurate(g: Graph, t: Table, queue: seq<int>, queued: set<int>, e: Edge, raised: Flow)
    requires Accurate(g, t, queue, queued) && e in g.edges
    requires Within(g, raised) && Derivable(g, e.target, raised) && (e.target in t ==> Leq(t[e.target], raised))
    ensures Accurate(g, t[e.target := raised], if e.target in queued then queue else queue + [e.target], queued + {e.target})
  {
  }

  /** Carrying edge `n` keeps what the visit has achieved. */
  lemma CarryEdge(g: Graph, t: Table, queue: seq<int>, queued: set<int>, id: int, f: Flow, n: nat)
    requires n < |g.edges| && g.edges[n].source == id && id in g.blocks && Visiting(g, t, queue, queued, id, f, n)
    ensures var e := g.edges[n];
      if !Changes(g, t, f, e) then Visiting(g, t, queue, queued, id, f, n + 1)
      else
        var next := t[e.target := Raised(g, t, f, e)];
        && |Pending(g, next)| < |Pending(g, t)|
        && Visiting(g, next, if e.target in queued then queue else queue + [e.target], queued + {e.target}, id, f, n + 1)
  {
    var e := g.edges[n];
    var out, merged := OutState(g, f, e), Raised(g, t, f, e);
    OutStateWithin(g, f, e);
    DerivableAlong(g, f, e);
    if e.target in t {
      MergeAbsorbs(t[e.target], out);
      MergeIsLeastUpperBound(t[e.target], out, merged);
      MergeWithin(g, t[e.target], out);
      DerivableJoin(g, e.target, t[e.target], out);
    }
    if Changes(g, t, f, e) {
      assert e.target in Nodes(g);
      Accumulates(g, t, e.target, out, merged);
      RaiseKeepsAccurate(g, t, queue, queued, e, merged);
      RaiseKeepsVisited(g, t, queued, id, f, n, e.target, merged);
    }
  }

  lemma SkipEdge(g: Graph, t: Table, queue: seq<int>, queued: set<int>, id: int, f: Flow, n: nat)
    requires n < |g.edges| && g.edges[n].source != id && Visiting(g, t, queue, queued, id, f, n)
    ensures Visiting(g, t, queue, queued, id, f, n + 1)
  {
  }

  lemma BlockDone(g: Graph, t: Table, queue: seq<int>, queued: set<int>, id: int, f: Flow)
    requires Visiting(g, t, queue, queued, id, f, |g.edges|)
    ensures Accurate(g, t, queue, queued) && forall e <- g.edges | e.source !in queued :: Settled(g, t, e)
  {
  }

  /** The table after carrying every edge of block `id`, and the work that adds. */
  method VisitBlock(g: Graph, states: map<int, FlowRef>, ghost t: Table, queue: seq<int>, queued: set<int>, id: int)
    returns (states': map<int, FlowRef>, ghost t': Table, queue': seq<int>, queued': set<int>)
    requires Shows(states, t) && id in t && id in g.blocks && Visiting(g, t, queue, queued, id, t[id], 0)
    ensures Shows(states', t') && Accurate(g, t', queue', queued')
    ensures forall e <- g.edges | e.source !in queued' :: Settled(g, t', e)
    ensures (t' == t && queue' == queue) || |Pending(g, t')| < |Pending(g, t)|
  {
    states', t', queue', queued' := states, t, queue, queued;
    var state := states[id];
    ghost var f := t[id];
    for n := 0 to |g.edges|
      invariant Shows(states', t') && state.Valid() && state.view == f
      invariant Visiting(g, t', queue', queued', id, f, n)
      invariant (t' == t && queue' == queue) || |Pending(g, t')| < |Pending(g, t)|
    {
      var e := g.edges[n];
      if e.source == id {
        CarryEdge(g, t', queue', queued', id, f, n);
        var changed;
        states', changed := PropagateEdge(g, states', t', state, e);
        if changed {
          t' := t'[e.target := Raised(g, t', f, e)];
          if e.target !in queued' {
            queue' := queue' + [e.target];
          }
          queued' := queued' + {e.target};
        }
      } else {
        SkipEdge(g, t', queue', queued', id, f, n);
      }
    }
    BlockDone(g, t', queue', queued', id, f);
  }

  /** Removing the head of the queue. */
  lemma PopHead(g: Graph, t: Table, queue: seq<int>, queued: set<int>)
    requires Accurate(g, t, queue, queued) && queue != []
    ensures Accurate(g, t, queue[1..], queued - {queue[0]})
  {
  }

  method Solve(g: Graph) returns (states: map<int, FlowRef>, ghost t: Table)
    ensures Shows(states, t) && Stable(g, t)
  {
    var start := new FlowRef.Start();
    states, t := map[g.entry := start], map[g.entry := START];
    var queue, queued := [g.entry], {g.entry};
    MergeAbsorbs(START, START);
    assert Sound(g, Root) && Derived(g, Root) == START;
    while queue != []
      invariant Shows(states, t) && Accurate(g, t, queue, queued)
      invariant forall e <- g.edges | e.source !in queued :: Settled(g, t, e)
      decreases |Pending(g, t)|, |queue|
    {
      var id := queue[0];
      PopHead(g, t, queue, queued);
      queue, queued := queue[1..], queued - {id};
      if id !in g.blocks { continue; }
      states, t, queue, queued := VisitBlock(g, states, t, queue, queued, id);
    }
  }

  // ---- Witnesses -----------------------------------------------------------------------

  /** Offers one leaving edge to every origin that is dirty on it. */
  method OfferEdge(ghost exits: seq<Exit>, dirty: set<int>, report: Witness, w: map<int, Witness>)
    returns (w': map<int, Witness>)
    requires WitnessesOf(exits, w)
    ensures WitnessesOf(exits + [Exit(dirty, report)], w')
  {
    w' := w;
    var todo := dirty;
    ghost var offered: set<int> := {};
    IgnoreExit(exits, Exit({}, report), w);
    while todo != {}
      invariant todo !! offered && todo + offered == dirty
      invariant WitnessesOf(exits + [Exit(offered, report)], w')
    {
      var o := AnyOf(todo);
      OfferOrigin(exits, Exit(offered, report), w', o);
      if o !in w' || Rank(report.kind) > Rank(w'[o].kind) {
        w' := w'[o := report];
      }
      todo, offered := todo - {o}, offered + {o};
    }
  }

  /** Adds what edge `n` reports. */
  method ReportEdge(g: Graph, states: map<int, FlowRef>, ghost t: Table, n: nat, w: map<int, Witness>)
    returns (w': map<int, Witness>)
    requires n < |g.edges| && Shows(states, t) && WitnessesOf(Exits(g, t)[..n], w)
    ensures Shows(states, t) && WitnessesOf(Exits(g, t)[..n + 1], w')
  {
    ghost var exits := Exits(g, t);
    assert exits[..n + 1] == exits[..n] + [exits[n]];
    var e := g.edges[n];
    var kind := KindOfExit(g, e.target);
    if kind.Some? && e.source in states && e.source in g.blocks {
      var out := FlowAcrossEdge(states[e.source], g.blocks[e.source], e.edgeClass, g.pairs);
      var handled := out.viaExceptional && kind.value == NormalExit;
      w' := OfferEdge(exits[..n], out.dirty.elems, Witness(if handled then ErrorHandlerToNormalExit else kind.value, e.line), w);
    } else {
      IgnoreExit(exits[..n], exits[n], w);
      w' := w;
    }
  }

  /** The analysis of one property: exactly the witnesses that a stable table justifies. */
  method ApplicationStateExitWitnesses(g: Graph) returns (witnesses: map<int, Witness>)
    ensures exists t :: Stable(g, t) && WitnessesOf(Exits(g, t), witnesses)
  {
    var states, t := Solve(g);
    witnesses := map[];
    for n := 0 to |g.edges|
      invariant Shows(states, t) && WitnessesOf(Exits(g, t)[..n], witnesses)
    {
      witnesses := ReportEdge(g, states, t, n, witnesses);
    }
    assert Exits(g, t)[..|g.edges|] == Exits(g, t);
  }
}
