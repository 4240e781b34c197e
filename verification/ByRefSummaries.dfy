/**
 Allocation summaries of private procedures with ByRef array parameters: a worklist over
 mutually recursive procedures that re-runs a procedure when a callee's summary has grown.
 */
module ByRefSummaries {
  import opened Sets

  /** Parameters a procedure is sure to leave allocated, by procedure key; absent means none. */
  type Summaries = map<string, set<int>>

  function Of(s: Summaries, key: string): set<int> { if key in s then s[key] else {} }

  /** `summarize` stands for the control-flow walk of one procedure under the summaries so far. */
  datatype Procedure = Procedure(key: string, parameters: nat, callees: seq<string>, summarize: Summaries -> set<int>)

  ghost predicate Leq(s: Summaries, t: Summaries) { forall key: string :: Of(s, key) <= Of(t, key) }

  /** A summary speaks of the procedure's own parameters, grows with its callees' and reads nothing else. */
  ghost predicate WellBehaved(p: Procedure) {
    && (forall s, x | x in p.summarize(s) :: 0 <= x < p.parameters)
    && (forall s, t | Leq(s, t) :: p.summarize(s) <= p.summarize(t))
    && (forall s, t | (forall key <- p.callees :: Of(s, key) == Of(t, key)) :: p.summarize(s) == p.summarize(t))
  }

  ghost predicate Solvable(ps: seq<Procedure>) {
    && (forall p <- ps :: WellBehaved(p))
    && (forall i, j :: 0 <= i < j < |ps| ==> ps[i].key != ps[j].key)
  }

  /** Every equation holds. */
  ghost predicate Solves(ps: seq<Procedure>, s: Summaries) {
    && (forall i :: 0 <= i < |ps| ==> Of(s, ps[i].key) == ps[i].summarize(s))
    && forall key <- s :: exists i :: 0 <= i < |ps| && ps[i].key == key
  }

  /** Every equation holds from above. */
  ghost predicate Covers(ps: seq<Procedure>, t: Summaries) {
    forall i :: 0 <= i < |ps| ==> ps[i].summarize(t) <= Of(t, ps[i].key)
  }

  ghost predicate LeastSolution(ps: seq<Procedure>, s: Summaries) {
    Solves(ps, s) && forall t | Covers(ps, t) :: Leq(s, t)
  }

  /** There is one least solution, so neither the order of procedures nor that of the queue shows. */
  lemma LeastSolutionIsUnique(ps: seq<Procedure>, s: Summaries, t: Summaries, key: string)
    requires LeastSolution(ps, s) && LeastSolution(ps, t)
    ensures Of(s, key) == Of(t, key)
  {
    assert Covers(ps, s) && Covers(ps, t);
    assert Leq(s, t) && Leq(t, s);
  }

  // ---- Progress ------------------------------------------------------------------------

  ghost predicate Keyed(ps: seq<Procedure>, s: Summaries) {
    forall key <- s :: exists i :: 0 <= i < |ps| && ps[i].key == key
  }

  /** Summaries stay below every covering table and below their own next value; queued procedures may lag. */
  ghost predicate Ascending(ps: seq<Procedure>, s: Summaries, queued: seq<bool>) {
    && |queued| == |ps| && Keyed(ps, s)
    && (forall t | Covers(ps, t) :: Leq(s, t))
    && (forall i :: 0 <= i < |ps| ==> Of(s, ps[i].key) <= ps[i].summarize(s))
    && (forall i :: 0 <= i < |ps| && !queued[i] ==> Of(s, ps[i].key) == ps[i].summarize(s))
  }

  /** Facts that can still be added. */
  ghost function Lacking(ps: seq<Procedure>, s: Summaries): set<(nat, int)> {
    set i: nat, x: int | i < |ps| && 0 <= x < ps[i].parameters && x !in Of(s, ps[i].key) :: (i, x)
  }

  lemma GrowthIsProgress(ps: seq<Procedure>, s: Summaries, n: nat)
    requires Solvable(ps) && n < |ps| && Of(s, ps[n].key) <= ps[n].summarize(s) != Of(s, ps[n].key)
    ensures |Lacking(ps, s[ps[n].key := ps[n].summarize(s)])| < |Lacking(ps, s)|
  {
    var p, t := ps[n], s[ps[n].key := ps[n].summarize(s)];
    assert WellBehaved(p);
    var x := Missing(p.summarize(s), Of(s, p.key));
    assert 0 <= x < p.parameters;
    assert (n as nat, x) in Lacking(ps, s) - Lacking(ps, t);
    forall f <- Lacking(ps, t) ensures f in Lacking(ps, s) {}
    ProperSubsetIsSmaller(Lacking(ps, t), Lacking(ps, s), (n as nat, x));
  }

  /** A larger table covers more, and the new value is below every covering table. */
  lemma GrowthAscends(ps: seq<Procedure>, s: Summaries, queued: seq<bool>, n: nat, again: seq<bool>)
    requires Solvable(ps) && n < |ps| == |queued| && Ascending(ps, s, queued[n := true]) && !queued[n]
    requires |again| == |ps| && forall i :: 0 <= i < |ps| ==> again[i] == (queued[i] || ps[n].key in ps[i].callees)
    ensures Ascending(ps, s[ps[n].key := ps[n].summarize(s)], again)
  {
    var p, t := ps[n], s[ps[n].key := ps[n].summarize(s)];
    assert Leq(s, t);
    forall i | 0 <= i < |ps| ensures Of(t, ps[i].key) <= ps[i].summarize(t) && (!again[i] ==> Of(t, ps[i].key) == ps[i].summarize(t)) {
      assert WellBehaved(ps[i]);
      if !again[i] { assert ps[i].summarize(s) == ps[i].summarize(t); }
    }
    forall u | Covers(ps, u) ensures Leq(t, u) {
      assert WellBehaved(p) && Leq(s, u) && p.summarize(s) <= p.summarize(u);
    }
  }

  // ---- The worklist --------------------------------------------------------------------

  /** Indices of the procedures that call `key`. */
  method DependentsOf(ps: seq<Procedure>, key: string) returns (dependents: seq<nat>)
    ensures forall i: nat :: i in dependents <==> i < |ps| && key in ps[i].callees
  {
    dependents := [];
    for i := 0 to |ps|
      invariant forall j: nat :: j in dependents <==> j < i && key in ps[j].callees
    {
      if key in ps[i].callees { dependents := dependents + [i]; }
    }
  }

  /** Puts the dependents of a grown summary back on the queue, each once. */
  method Requeue(dependents: seq<nat>, queue: seq<nat>, queued: seq<bool>)
    returns (queue': seq<nat>, queued': seq<bool>)
    requires forall d <- dependents :: d < |queued|
    requires forall i <- queue :: i < |queued|
    ensures |queued'| == |queued| && forall i :: 0 <= i < |queued| ==> queued'[i] == (queued[i] || i in dependents)
    ensures queue <= queue' && (forall i <- queue' :: i < |queued|)
    ensures forall i: nat :: i < |queued| && queued'[i] && !queued[i] ==> i in queue'[|queue|..]
  {
    queue', queued' := queue, queued;
    for n := 0 to |dependents|
      invariant |queued'| == |queued| && forall i :: 0 <= i < |queued| ==> queued'[i] == (queued[i] || i in dependents[..n])
      invariant queue <= queue' && (forall i <- queue' :: i < |queued|)
      invariant forall i: nat :: i < |queued| && queued'[i] && !queued[i] ==> i in queue'[|queue|..]
    {
      var d := dependents[n];
      assert dependents[..n + 1] == dependents[..n] + [d] && d in dependents;
      if !queued'[d] {
        queued' := queued'[d := true];
        assert (queue' + [d])[|queue|..] == queue'[|queue|..] + [d];
        queue' := queue' + [d];
      }
    }
    assert dependents[..|dependents|] == dependents;
  }

  /** Whatever is marked as queued is still ahead of the head. */
  ghost predicate QueueHolds(queue: seq<nat>, head: nat, queued: seq<bool>) {
    head <= |queue| && (forall i <- queue :: i < |queued|) && forall i: nat | i < |queued| && queued[i] :: i in queue[head..]
  }

  lemma TakeHead(queue: seq<nat>, head: nat, queued: seq<bool>)
    requires head < |queue| && QueueHolds(queue, head, queued)
    ensures queue[head] < |queued| && QueueHolds(queue, head + 1, queued[queue[head] := false])
  {
    assert queue[head] in queue;
    var rest := queued[queue[head] := false];
    forall i: nat | i < |rest| && rest[i] ensures i in queue[head + 1..] {
      assert i in queue[head..] && queue[head..] == [queue[head]] + queue[head + 1..];
    }
  }

  lemma AppendHolds(queue: seq<nat>, head: nat, queued: seq<bool>, queue': seq<nat>, queued': seq<bool>)
    requires QueueHolds(queue, head, queued) && queue <= queue' && |queued'| == |queued| && forall i <- queue' :: i < |queued|
    requires forall i: nat :: i < |queued| && queued'[i] && !queued[i] ==> i in queue'[|queue|..]
    ensures QueueHolds(queue', head, queued')
  {
  }

  lemma Start(ps: seq<Procedure>, queue: seq<nat>, queued: seq<bool>)
    requires Solvable(ps) && |queue| == |queued| == |ps| && forall i :: 0 <= i < |ps| ==> queue[i] == i && queued[i]
    ensures QueueHolds(queue, 0, queued) && Ascending(ps, map[], queued)
  {
  }

  method InferArrayByRefAllocationSummaries(ps: seq<Procedure>) returns (summaries: Summaries)
    requires Solvable(ps)
    ensures LeastSolution(ps, summaries)
  {
    summaries := map[];
    var contributions: Summaries := map[];
    var queue: seq<nat> := seq(|ps|, (i: nat) => i);
    var queued := seq(|ps|, i => true);
    var head := 0;
    Start(ps, queue, queued);
    while head < |queue|
      invariant contributions == summaries
      invariant QueueHolds(queue, head, queued) && Ascending(ps, summaries, queued)
      decreases |Lacking(ps, summaries)|, |queue| - head
    {
      TakeHead(queue, head, queued);
      var index := queue[head];
      ghost var before := queued;
      queued := queued[index := false];
      head := head + 1;
      var p := ps[index];
      var value := p.summarize(summaries);
      if Of(contributions, p.key) == value { continue; }
      var dependents := DependentsOf(ps, p.key);
      var queue', queued' := Requeue(dependents, queue, queued);
      GrowthIsProgress(ps, summaries, index);
      assert Ascending(ps, summaries, queued[index := true]);
      GrowthAscends(ps, summaries, queued, index, queued');
      AppendHolds(queue, head, queued, queue', queued');
      if value == {} {
        contributions, summaries := contributions - {p.key}, summaries - {p.key};
      } else {
        contributions, summaries := contributions[p.key := value], summaries[p.key := value];
      }
      queue, queued := queue', queued';
    }
    assert queue[head..] == [];
  }
}
