/** The worklist loops: smallest queued block first, states merged edge by edge. */
module LaneWalk {
  import opened Sets
  import opened Wrappers
  import opened LaneTransfer
  import opened LaneSolver

  /** Ranges over the candidates in no promised order. */
  method SmallestQueued(queued: set<int>) returns (id: int)
    requires queued != {}
    ensures Least(id, queued)
  {
    id := AnyOf(queued);
    var rest := queued - {id};
    while rest != {}
      invariant id in queued && rest <= queued && forall x <- queued :: x in rest || id <= x
    {
      var candidate := AnyOf(rest);
      if candidate < id { id := candidate; }
      rest := rest - {candidate};
    }
  }

  /** Carries one block's result along its edges. */
  method OfferAlongEdges<S(==)>(meet: Meet<S>, lane: Lane<S>, id: int, before: S, out: S,
        ghost offers: seq<Offer<S>>, states: map<int, S>, queued: set<int>)
    returns (states': map<int, S>, queued': set<int>)
    requires lane.graph.Some? && id in lane.graph.value.blocks
    requires var b := lane.graph.value.blocks[id]; offers == OffersOf(lane, b, id, before, Continues(out))
    ensures Progress(states', queued') == Deliver(meet, Progress(states, queued), offers)
  {
    states', queued' := states, queued;
    var b := lane.graph.value.blocks[id];
    var edges := Outgoing(lane.graph.value, id);
    for n := 0 to |edges|
      invariant Progress(states', queued') == Deliver(meet, Progress(states, queued), offers[..n])
    {
      assert offers[..n + 1][..n] == offers[..n];
      var e := edges[n];
      var next := out;
      if e.exceptional || e.uncertain {
        next := before;
        if SourceLines(lane, b) && e.exceptional && lane.reliable.Some? && lane.reliable.value(b.statement, before, out) { next := out; }
      } else if lane.edgeState.Some? {
        next := lane.edgeState.value(b, e, next);
      }
      if e.target !in states' {
        states', queued' := states'[e.target := next], queued' + {e.target};
      } else {
        var merged := meet(states'[e.target], next);
        if merged != states'[e.target] {
          states', queued' := states'[e.target := merged], queued' + {e.target};
        }
      }
    }
    assert offers[..|edges|] == offers;
  }

  /** One pop in every lane that has a state for the block. */
  method VisitInLanes<S(==)>(meet: Meet<S>, lanes: seq<Lane<S>>, lines: seq<string>, id: int,
        states: seq<map<int, S>>, queued: set<int>)
    returns (states': seq<map<int, S>>, queued': set<int>)
    requires |states| == |lanes|
    ensures Combined(states', queued') == Round(meet, lanes, lines, Combined(states, queued), id, |lanes|)
  {
    ghost var c := Combined(states, queued);
    states', queued' := states, queued - {id};
    for n := 0 to |lanes|
      invariant |states'| == |lanes| && Combined(states', queued') == Round(meet, lanes, lines, c, id, n)
    {
      var lane := lanes[n];
      if id !in states[n] { continue; }
      if lane.graph.None? || lane.visit.None? || id !in lane.graph.value.blocks {
        assert Offers(lane, lines, id, states[n][id]) == [];
        assert states'[n := states'[n]] == states';
        continue;
      }
      var transfer, _ := TransferBlock(lane, lines, lane.graph.value.blocks[id], states[n][id]);
      if transfer.Stopped? {
        assert states'[n := states'[n]] == states';
        continue;
      }
      var merged;
      ghost var offers := Offers(lane, lines, id, states[n][id]);
      merged, queued' := OfferAlongEdges(meet, lane, id, states[n][id], transfer.out, offers, states[n], queued');
      states' := states'[n := merged];
    }
  }

  /** What every lane ends with on the shared queue, whenever the walk ends at all. */
  method WalkArrayCFGCombined<S(==)>(meet: Meet<S>, lines: seq<string>, lanes: seq<Lane<S>>,
        ghost pops: nat) returns (states: seq<map<int, S>>)
    requires Together(meet, lanes, lines, pops).queued == {}
    ensures states == Together(meet, lanes, lines, pops).states
  {
    states := [];
    var queued: set<int> := {};
    for i := 0 to |lanes|
      invariant |states| == i && (forall j :: 0 <= j < i ==> states[j] == Start(lanes[j]).states)
      invariant queued == Entries(lanes[..i])
    {
      assert lanes[..i + 1][..i] == lanes[..i];
      var lane := lanes[i];
      if lane.graph.None? {
        states := states + [map[]];
      } else {
        states, queued := states + [map[lane.graph.value.entry := lane.initial]], queued + {lane.graph.value.entry};
      }
    }
    assert lanes[..|lanes|] == lanes;
    ghost var n := 0;
    assert states == StartAll(lanes).states;
    while queued != {}
      invariant Combined(states, queued) == Together(meet, lanes, lines, n) && n <= pops
      decreases pops - n
    {
      if n == pops { assert false; }
      var id := SmallestQueued(queued);
      assert Min(queued) == id;
      states, queued := VisitInLanes(meet, lanes, lines, id, states, queued);
      n := n + 1;
      TogetherStays(meet, lanes, lines, n, pops);
    }
    TogetherStays(meet, lanes, lines, n, pops);
  }

  lemma {:induction false} TogetherStays<S>(meet: Meet<S>, lanes: seq<Lane<S>>, lines: seq<string>, k: nat, n: nat)
    requires k <= n
    ensures Together(meet, lanes, lines, k).queued == {} ==> Together(meet, lanes, lines, n) == Together(meet, lanes, lines, k)
    decreases n
  {
    if k < n { TogetherStays(meet, lanes, lines, k, n - 1); }
  }

  /** The older walk of a single lane. */
  method WalkArrayCFGWorklistLegacy<S(==)>(meet: Meet<S>, lane: Lane<S>, lines: seq<string>,
        ghost pops: nat) returns (states: map<int, S>)
    requires Plain(lane) && Alone(meet, lane, lines, pops).queued == {}
    ensures states == Alone(meet, lane, lines, pops).states
  {
    var g := lane.graph.value;
    states := map[g.entry := lane.initial];
    var queued := {g.entry};
    ghost var n := 0;
    while queued != {}
      invariant Progress(states, queued) == Alone(meet, lane, lines, n) && n <= pops && queued <= states.Keys
      decreases pops - n
    {
      if n == pops { assert false; }
      var id := SmallestQueued(queued);
      assert Min(queued) == id;
      queued := queued - {id};
      n := n + 1;
      if id !in g.blocks {
        assert Offers(lane, lines, id, states[id]) == [];
        continue;
      }
      LegacyOffersAgree(lane, lines, id, states[id]);
      DeliverQueuesKnown(meet, Progress(states, queued), Offers(lane, lines, id, states[id]));
      var transfer, _ := TransferBlockLegacy(lane, lines, g.blocks[id], states[id]);
      if transfer.Stopped? { continue; }
      states, queued := OfferAlongEdges(meet, lane, id, states[id], transfer.out, Offers(lane, lines, id, states[id]), states, queued);
    }
    AloneStays(meet, lane, lines, n, pops);
  }

  lemma {:induction false} DeliverQueuesKnown<S>(meet: Meet<S>, p: Progress<S>, offers: seq<Offer<S>>)
    requires p.queued <= p.states.Keys
    ensures var r := Deliver(meet, p, offers); r.queued <= r.states.Keys && p.states.Keys <= r.states.Keys
  {
    if offers != [] { DeliverQueuesKnown(meet, p, offers[..|offers| - 1]); }
  }

  /** The shared queue gives each plain lane what the older walk gives it, when every lane is steady in a space of its own. */
  lemma CombinedAgreesWithLegacy<S(!new)>(meet: Meet<S>, lanes: seq<Lane<S>>, lines: seq<string>, spaces: seq<iset<S>>,
        ends: seq<nat>) returns (pops: nat)
    requires AllSteady(meet, lanes, lines, spaces) && |ends| == |lanes|
    requires forall i :: 0 <= i < |lanes| ==> Alone(meet, lanes[i], lines, ends[i]).queued == {}
    ensures Together(meet, lanes, lines, pops).queued == {}
    ensures forall i :: 0 <= i < |lanes| ==> Together(meet, lanes, lines, pops).states[i] == Alone(meet, lanes[i], lines, ends[i]).states
  {
    pops := CombinedEnds(meet, lanes, lines, spaces, ends);
    forall i | 0 <= i < |lanes| ensures Together(meet, lanes, lines, pops).states[i] == Alone(meet, lanes[i], lines, ends[i]).states {
      LaneIndependence(meet, lanes, lines, spaces[i], pops, i);
      if ends[i] <= pops { AloneStays(meet, lanes[i], lines, ends[i], pops); } else { AloneStays(meet, lanes[i], lines, pops, ends[i]); }
    }
  }

  /** The merge goes down in rank inside every lane's space. */
  ghost predicate AllDescend<S(!new)>(meet: Meet<S>, spaces: seq<iset<S>>, ranks: seq<S -> nat>) {
    |ranks| == |spaces| && forall i :: 0 <= i < |spaces| ==> Descends(meet, spaces[i], ranks[i])
  }

  lemma {:induction false} AllEnd<S(!new)>(meet: Meet<S>, lanes: seq<Lane<S>>, lines: seq<string>, spaces: seq<iset<S>>,
        ranks: seq<S -> nat>, n: nat) returns (ends: seq<nat>)
    requires n <= |lanes| && AllSteady(meet, lanes, lines, spaces) && AllDescend(meet, spaces, ranks)
    ensures |ends| == n && forall i :: 0 <= i < n ==> Alone(meet, lanes[i], lines, ends[i]).queued == {}
  {
    if n == 0 { return []; }
    var front := AllEnd(meet, lanes, lines, spaces, ranks, n - 1);
    var last := LaneEnds(meet, lanes[n - 1], lines, spaces[n - 1], ranks[n - 1]);
    ends := front + [last];
  }

  /** Then both walks end, and agree. */
  lemma WalksEndAndAgree<S(!new)>(meet: Meet<S>, lanes: seq<Lane<S>>, lines: seq<string>, spaces: seq<iset<S>>,
        ranks: seq<S -> nat>) returns (pops: nat, ends: seq<nat>)
    requires AllSteady(meet, lanes, lines, spaces) && AllDescend(meet, spaces, ranks)
    ensures Together(meet, lanes, lines, pops).queued == {} && |ends| == |lanes|
    ensures forall i :: 0 <= i < |lanes| ==>
      Alone(meet, lanes[i], lines, ends[i]) == Progress(Together(meet, lanes, lines, pops).states[i], {})
  {
    ends := AllEnd(meet, lanes, lines, spaces, ranks, |lanes|);
    pops := CombinedAgreesWithLegacy(meet, lanes, lines, spaces, ends);
  }
}
