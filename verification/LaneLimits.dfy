/**
 Lanes over one graph are independent exactly when the merge absorbs on the states they stay
 in.  For any other merge there are two lanes over one graph, entered at one block, of which
 one ends on the shared queue in a state its own walk never ends in.
 */
module LaneLimits {
  import opened Wrappers
  import opened LaneTransfer
  import opened LaneSolver

  /** The lanes read one graph and stay in one space. */
  ghost predicate Beside<S(!new)>(lanes: seq<Lane<S>>, lines: seq<string>, space: iset<S>) {
    forall i :: 0 <= i < |lanes| ==> lanes[i].graph == lanes[0].graph && StaysIn(lanes[i], lines, space)
  }

  ghost predicate EndsAsAlone<S>(meet: Meet<S>, lanes: seq<Lane<S>>, lines: seq<string>, n: nat, i: nat)
    requires i < |lanes|
  {
    Together(meet, lanes, lines, n).queued == {} ==>
      Alone(meet, lanes[i], lines, n) == Progress(Together(meet, lanes, lines, n).states[i], {})
  }

  /** Whenever lanes over one graph stay in the space, each ends as if alone. */
  ghost predicate IndependentOn<S(!new)>(meet: Meet<S>, space: iset<S>) {
    forall lanes: seq<Lane<S>>, lines: seq<string>, n: nat, i: nat ::
      i < |lanes| && Beside(lanes, lines, space) ==> EndsAsAlone(meet, lanes, lines, n, i)
  }

  // ---- Two lanes over one graph --------------------------------------------------------

  function StatementAt(id: int): Block { Block(Some(Statement(OtherKind, "s", id, id)), id) }

  function To(target: int): Edge { Edge(target, target, false, false) }

  /** Block 5 receives `before` from block 2, `x` from block 3 and `after` from block 4. */
  datatype Probe<S> = Probe(before: Option<S>, x: S, after: Option<S>) {
    function Shape(): Graph {
      Graph(1, map id: int | 1 <= id <= 6 :: StatementAt(id), map[
        1 := [To(2), To(3), To(4), To(6)],
        2 := if before.Some? then [To(5)] else [],
        3 := [To(5)],
        4 := if after.Some? then [To(5)] else [],
        6 := [To(3)]])
    }

    ghost predicate In(space: iset<S>) {
      x in space && (before.Some? ==> before.value in space) && (after.Some? ==> after.value in space)
    }

    /** Each statement but the fifth sets its own state; the lane may stop at the sixth. */
    function Effect(here: S): Visit<S> {
      (text: string, line: int, s: S) =>
        if line == 1 then here
        else if line == 2 && before.Some? then before.value
        else if line == 4 && after.Some? then after.value
        else if line == 3 || line == 6 then x
        else s
    }

    function LaneFrom(here: S, stops: bool): Lane<S> {
      Lane(Some(Shape()), x, Some(Effect(here)), None, None, Some((text: string, line: int) => stops && line == 6),
        None, false, None)
    }
  }

  ghost function Join<S>(meet: Meet<S>, held: Option<S>, o: Option<S>): Option<S> {
    match (held, o)
    case (_, None) => held
    case (None, _) => o
    case (Some(a), Some(b)) => Some(meet(a, b))
  }

  /** What block 5 holds once the first `k` blocks have been visited. */
  ghost function Fifth<S>(meet: Meet<S>, p: Probe<S>, k: nat): Option<S> {
    if k < 2 then None
    else if k == 2 then p.before
    else if k == 3 then Join(meet, p.before, Some(p.x))
    else Join(meet, Join(meet, p.before, Some(p.x)), p.after)
  }

  ghost function At<S>(p: Probe<S>, here: S, third: S, fifth: Option<S>): map<int, S> {
    var m := map[1 := p.x, 2 := here, 3 := third, 4 := here, 6 := here];
    if fifth.Some? then m[5 := fifth.value] else m
  }

  /** The lane's states after the visits to blocks 1 to `k`. */
  ghost function Seen<S>(meet: Meet<S>, p: Probe<S>, here: S, k: nat): map<int, S> {
    if k == 0 then map[1 := p.x] else At(p, here, here, Fifth(meet, p, k))
  }

  function Pending<S>(p: Probe<S>, k: nat): set<int> {
    if k == 0 then {1}
    else if k == 1 then {2, 3, 4, 6}
    else if k == 2 then if p.before.Some? then {3, 4, 5, 6} else {3, 4, 6}
    else if k == 3 then {4, 5, 6}
    else if k == 4 then {5, 6}
    else if k == 5 then {6}
    else {}
  }

  function Value<S>(p: Probe<S>, id: int): Option<S> {
    if id == 2 then p.before else if id == 3 then Some(p.x) else if id == 4 then p.after else None
  }

  lemma ProbeTransfer<S>(p: Probe<S>, here: S, stops: bool, id: int, s: S)
    requires 1 <= id <= 6
    ensures var lane := p.LaneFrom(here, stops);
      BlockTransfer(lane, [], StatementAt(id), s) == if stops && id == 6 then Stopped else Continues(p.Effect(here)("s", id, s))
  {
    var lane := p.LaneFrom(here, stops);
    assert OwnText([], StatementAt(id), StatementAt(id).statement.value) == "s";
    RunOne(lane, p.Effect(here), LaneTransfer.Call("s", id), s);
  }

  lemma ProbeOffers<S>(p: Probe<S>, here: S, stops: bool, id: int, s: S)
    ensures var lane := p.LaneFrom(here, stops);
      && (id == 1 ==> Offers(lane, [], id, s) == [Offer(2, here), Offer(3, here), Offer(4, here), Offer(6, here)])
      && (2 <= id <= 5 ==> Offers(lane, [], id, s) == if Value(p, id).Some? then [Offer(5, Value(p, id).value)] else [])
      && (id == 6 ==> Offers(lane, [], id, s) == if stops then [] else [Offer(3, p.x)])
      && (!(1 <= id <= 6) ==> Offers(lane, [], id, s) == [])
  {
    var lane := p.LaneFrom(here, stops);
    if 1 <= id <= 6 {
      ProbeTransfer(p, here, stops, id, s);
      assert lane.graph.value.blocks[id] == StatementAt(id);
    }
  }

  // ---- Both lanes visit blocks 1 to 5 alike ---------------------------------------------

  lemma DeliverOne<S>(meet: Meet<S>, p: Progress<S>, o: Offer<S>)
    ensures Deliver(meet, p, [o]) == MergeArrayState(meet, p, o)
  {
  }

  lemma DeliverFour<S>(meet: Meet<S>, p: Progress<S>, a: Offer<S>, b: Offer<S>, c: Offer<S>, d: Offer<S>)
    ensures Deliver(meet, p, [a, b, c, d]) ==
      MergeArrayState(meet, MergeArrayState(meet, MergeArrayState(meet, MergeArrayState(meet, p, a), b), c), d)
  {
    assert [a, b, c, d][..3] == [a, b, c] && [a, b, c][..2] == [a, b] && [a, b][..1] == [a];
    DeliverOne(meet, p, a);
    assert Deliver(meet, p, [a, b]) == MergeArrayState(meet, MergeArrayState(meet, p, a), b);
    assert Deliver(meet, p, [a, b, c]) == MergeArrayState(meet, MergeArrayState(meet, MergeArrayState(meet, p, a), b), c);
  }

  /** What one lane makes of a visit to block `id`. */
  ghost function VisitOf<S>(meet: Meet<S>, lane: Lane<S>, states: map<int, S>, q: set<int>, id: int): Progress<S> {
    if id in states then Deliver(meet, Progress(states, q), Offers(lane, [], id, states[id])) else Progress(states, q)
  }

  lemma VisitFirst<S>(meet: Meet<S>, p: Probe<S>, here: S, stops: bool, q: set<int>)
    requires q <= Pending(p, 1)
    ensures VisitOf(meet, p.LaneFrom(here, stops), Seen(meet, p, here, 0), q, 1) == Progress(Seen(meet, p, here, 1), Pending(p, 1))
  {
    ProbeOffers(p, here, stops, 1, p.x);
    DeliverFour(meet, Progress(map[1 := p.x], q), Offer(2, here), Offer(3, here), Offer(4, here), Offer(6, here));
    assert map[1 := p.x][2 := here][3 := here][4 := here][6 := here] == Seen(meet, p, here, 1);
    assert q + {2} + {3} + {4} + {6} == Pending(p, 1);
  }

  lemma QueueNext<S>(meet: Meet<S>, p: Probe<S>, k: nat, q: set<int>)
    requires 0 < k < 5 && Pending(p, k) - {k + 1} <= q <= Pending(p, k + 1)
    ensures q + (if Fifth(meet, p, k + 1) != Fifth(meet, p, k) then {5} else {}) == Pending(p, k + 1)
  {
  }

  /** One offer to block 5. */
  lemma JoinFifth<S>(meet: Meet<S>, p: Probe<S>, here: S, held: Option<S>, q: set<int>, value: S)
    ensures Deliver(meet, Progress(At(p, here, here, held), q), [Offer(5, value)]) ==
      Progress(At(p, here, here, Join(meet, held, Some(value))), q + (if Join(meet, held, Some(value)) != held then {5} else {}))
  {
    DeliverOne(meet, Progress(At(p, here, here, held), q), Offer(5, value));
    var m := At(p, here, here, None);
    if held.Some? { assert m[5 := held.value][5 := meet(held.value, value)] == m[5 := meet(held.value, value)]; }
  }

  /** However far the shared queue has come in between, a visit leaves it with what is pending. */
  lemma VisitNext<S>(meet: Meet<S>, p: Probe<S>, here: S, stops: bool, k: nat, q: set<int>)
    requires k < 5 && Pending(p, k) - {k + 1} <= q <= Pending(p, k + 1)
    ensures VisitOf(meet, p.LaneFrom(here, stops), Seen(meet, p, here, k), q, k + 1) ==
      Progress(Seen(meet, p, here, k + 1), Pending(p, k + 1))
  {
    if k == 0 {
      VisitFirst(meet, p, here, stops, q);
    } else {
      var states, o := Seen(meet, p, here, k), Value(p, k + 1);
      ProbeOffers(p, here, stops, k + 1, if k + 1 in states then states[k + 1] else here);
      assert Fifth(meet, p, k + 1) == Join(meet, Fifth(meet, p, k), o);
      QueueNext(meet, p, k, q);
      if o.Some? { JoinFifth(meet, p, here, Fifth(meet, p, k), q, o.value); }
    }
  }

  lemma LeastPending<S>(p: Probe<S>, k: nat)
    requires k <= 5
    ensures Least(k + 1, Pending(p, k)) && Min(Pending(p, k)) == k + 1
  {
    assert Least(k + 1, Pending(p, k));
  }

  /** Alone, either lane visits blocks 1 to 5 in order. */
  lemma {:induction false} AloneGoes<S>(meet: Meet<S>, p: Probe<S>, here: S, stops: bool, k: nat)
    requires k <= 5
    ensures Alone(meet, p.LaneFrom(here, stops), [], k) == Progress(Seen(meet, p, here, k), Pending(p, k))
  {
    if k > 0 {
      AloneGoes(meet, p, here, stops, k - 1);
      LeastPending(p, k - 1);
      VisitNext(meet, p, here, stops, k - 1, Pending(p, k - 1) - {k});
    }
  }

  // ---- The sixth block disturbs one of them ---------------------------------------------

  /** The watching lane offers block 3 nothing it has not got. */
  lemma WatcherAtSixth<S>(meet: Meet<S>, p: Probe<S>, q: set<int>)
    ensures VisitOf(meet, p.LaneFrom(p.x, meet(p.x, p.x) != p.x), Seen(meet, p, p.x, 5), q, 6) == Progress(Seen(meet, p, p.x, 5), q)
  {
    ProbeOffers(p, p.x, meet(p.x, p.x) != p.x, 6, p.x);
    DeliverOne(meet, Progress(Seen(meet, p, p.x, 5), q), Offer(3, p.x));
  }

  lemma WatcherAlone<S>(meet: Meet<S>, p: Probe<S>)
    ensures Alone(meet, p.LaneFrom(p.x, meet(p.x, p.x) != p.x), [], 6) == Progress(Seen(meet, p, p.x, 5), {})
  {
    AloneGoes(meet, p, p.x, meet(p.x, p.x) != p.x, 5);
    LeastPending(p, 5);
    assert {6} - {6} == {};
    WatcherAtSixth(meet, p, {});
  }

  /** What block 5 holds after the first six pops. */
  ghost function Last<S>(meet: Meet<S>, p: Probe<S>): (d: S)
    ensures Fifth(meet, p, 5) == Some(d)
  {
    Fifth(meet, p, 5).value
  }

  ghost function Pair<S>(meet: Meet<S>, p: Probe<S>): seq<Lane<S>> {
    [p.LaneFrom(p.x, meet(p.x, p.x) != p.x), p.LaneFrom(Last(meet, p), false)]
  }

  /** One pop of a two-lane walk. */
  lemma PopOfTwo<S>(meet: Meet<S>, lanes: seq<Lane<S>>, n: nat, c: Combined<S>, id: int, r: Progress<S>, t: Progress<S>)
    requires |lanes| == 2 && Together(meet, lanes, [], n) == c && Least(id, c.queued)
    requires VisitOf(meet, lanes[0], c.states[0], c.queued - {id}, id) == r && VisitOf(meet, lanes[1], c.states[1], r.queued, id) == t
    ensures Together(meet, lanes, [], n + 1) == Combined([r.states, t.states], t.queued)
  {
    var first := Round(meet, lanes, [], c, id, 1);
    assert Round(meet, lanes, [], c, id, 0) == Combined(c.states, c.queued - {id});
    assert first.states == [r.states, c.states[1]] && first.queued == r.queued;
    assert Min(c.queued) == id;
  }

  lemma PairStarts<S>(meet: Meet<S>, p: Probe<S>)
    ensures Together(meet, Pair(meet, p), [], 0) == Combined([map[1 := p.x], map[1 := p.x]], {1})
  {
    var lanes := Pair(meet, p);
    assert lanes[..1] == [lanes[0]] && lanes[..1][..0] == [];
    assert Entries(lanes[..1]) == {1};
  }

  lemma {:induction false} PairGoes<S>(meet: Meet<S>, p: Probe<S>, k: nat)
    requires k <= 5
    ensures Together(meet, Pair(meet, p), [], k) ==
      Combined([Seen(meet, p, p.x, k), Seen(meet, p, Last(meet, p), k)], Pending(p, k))
  {
    if k == 0 {
      PairStarts(meet, p);
    } else {
      PairGoes(meet, p, k - 1);
      LeastPending(p, k - 1);
      var q, d := Pending(p, k - 1) - {k}, Last(meet, p);
      VisitNext(meet, p, p.x, meet(p.x, p.x) != p.x, k - 1, q);
      VisitNext(meet, p, d, false, k - 1, Pending(p, k));
      PopOfTwo(meet, Pair(meet, p), k - 1, Together(meet, Pair(meet, p), [], k - 1), k,
        Progress(Seen(meet, p, p.x, k), Pending(p, k)), Progress(Seen(meet, p, d, k), Pending(p, k)));
    }
  }

  /** The other lane changes its block 3. */
  lemma DisturberAtSixth<S>(meet: Meet<S>, p: Probe<S>)
    requires var d := Last(meet, p); meet(d, p.x) != d
    ensures var d := Last(meet, p);
      VisitOf(meet, p.LaneFrom(d, false), Seen(meet, p, d, 5), {}, 6) == Progress(At(p, d, meet(d, p.x), Some(d)), {3})
  {
    var d := Last(meet, p);
    ProbeOffers(p, d, false, 6, d);
    DeliverOne(meet, Progress(Seen(meet, p, d, 5), {}), Offer(3, p.x));
    assert Seen(meet, p, d, 5)[3 := meet(d, p.x)] == At(p, d, meet(d, p.x), Some(d));
  }

  /** A visit to block 3 delivers `x` to block 5 once more. */
  lemma ThirdAgain<S>(meet: Meet<S>, p: Probe<S>, here: S, stops: bool, third: S, q: set<int>)
    requires q <= {5} && (var d := Last(meet, p); meet(d, p.x) != d)
    ensures var d := Last(meet, p);
      VisitOf(meet, p.LaneFrom(here, stops), At(p, here, third, Some(d)), q, 3) ==
        Progress(At(p, here, third, Some(meet(d, p.x))), {5})
  {
    var d := Last(meet, p);
    ProbeOffers(p, here, stops, 3, third);
    DeliverOne(meet, Progress(At(p, here, third, Some(d)), q), Offer(5, p.x));
    assert q + {5} == {5};
    assert At(p, here, third, Some(d))[5 := meet(d, p.x)] == At(p, here, third, Some(meet(d, p.x)));
  }

  lemma PairEnds<S>(meet: Meet<S>, p: Probe<S>)
    requires var d := Last(meet, p); meet(d, p.x) != d
    ensures var c := Together(meet, Pair(meet, p), [], 8); var d := Last(meet, p);
      c.queued == {} && 5 in c.states[0] && c.states[0][5] == meet(d, p.x)
  {
    var lanes, d, stops := Pair(meet, p), Last(meet, p), meet(p.x, p.x) != p.x;
    var e := meet(d, p.x);
    PairGoes(meet, p, 5);
    WatcherAtSixth(meet, p, {});
    DisturberAtSixth(meet, p);
    assert {6} - {6} == {};
    PopOfTwo(meet, lanes, 5, Together(meet, lanes, [], 5), 6, Progress(Seen(meet, p, p.x, 5), {}), Progress(At(p, d, e, Some(d)), {3}));
    ThirdAgain(meet, p, p.x, stops, p.x, {});
    ThirdAgain(meet, p, d, false, e, {5});
    assert {3} - {3} == {};
    PopOfTwo(meet, lanes, 6, Together(meet, lanes, [], 6), 3,
      Progress(At(p, p.x, p.x, Some(e)), {5}), Progress(At(p, d, e, Some(e)), {5}));
    LastPop(meet, p, 7);
  }

  /** Block 5 has no edges. */
  lemma LastPop<S>(meet: Meet<S>, p: Probe<S>, n: nat)
    requires var c := Together(meet, Pair(meet, p), [], n); c.queued == {5} && 5 in c.states[0] && 5 in c.states[1]
    ensures var c := Together(meet, Pair(meet, p), [], n); Together(meet, Pair(meet, p), [], n + 1) == Combined(c.states, {})
  {
    var c, d := Together(meet, Pair(meet, p), [], n), Last(meet, p);
    ProbeOffers(p, p.x, meet(p.x, p.x) != p.x, 5, c.states[0][5]);
    ProbeOffers(p, d, false, 5, c.states[1][5]);
    assert {5} - {5} == {};
    PopOfTwo(meet, Pair(meet, p), n, c, 5, Progress(c.states[0], {}), Progress(c.states[1], {}));
  }

  // ---- Exactly the absorbing merges -----------------------------------------------------

  lemma ProbeStaysIn<S(!new)>(p: Probe<S>, here: S, stops: bool, space: iset<S>)
    requires p.In(space) && here in space
    ensures StaysIn(p.LaneFrom(here, stops), [], space)
  {
    forall id: int, s, o | s in space && o in Offers(p.LaneFrom(here, stops), [], id, s) ensures o.incoming in space {
      ProbeOffers(p, here, stops, id, s);
    }
  }

  lemma NotIndependent<S(!new)>(meet: Meet<S>, space: iset<S>, p: Probe<S>)
    requires Closed(meet, space) && p.In(space) && (var d := Last(meet, p); meet(d, p.x) != d)
    ensures Beside(Pair(meet, p), [], space) && !EndsAsAlone(meet, Pair(meet, p), [], 8, 0)
  {
    var lanes := Pair(meet, p);
    ProbeStaysIn(p, p.x, meet(p.x, p.x) != p.x, space);
    ProbeStaysIn(p, Last(meet, p), false, space);
    WatcherAlone(meet, p);
    AloneStays(meet, lanes[0], [], 6, 8);
    PairEnds(meet, p);
    assert Alone(meet, lanes[0], [], 8).states[5] == Last(meet, p);
  }

  /** Inside a space closed under the merge, lanes are independent exactly when the merge absorbs there. */
  lemma IndependentIffAbsorbing<S(!new)>(meet: Meet<S>, space: iset<S>)
    requires Closed(meet, space)
    ensures IndependentOn(meet, space) <==> Absorbing(meet, space)
  {
    if Absorbing(meet, space) {
      forall lanes: seq<Lane<S>>, lines: seq<string>, n: nat, i: nat | i < |lanes| && Beside(lanes, lines, space)
        ensures EndsAsAlone(meet, lanes, lines, n, i)
      {
        if Together(meet, lanes, lines, n).queued == {} { LaneIndependence(meet, lanes, lines, space, n, i); }
      }
    } else if s :| s in space && meet(s, s) != s {
      NotIndependent(meet, space, Probe(None, s, None));
    } else if a, s :| a in space && s in space && meet(meet(a, s), s) != meet(a, s) {
      NotIndependent(meet, space, Probe(Some(a), s, None));
    } else {
      var c, s, o :| c in space && s in space && o in space && meet(c, s) == c && meet(meet(c, o), s) != meet(c, o);
      NotIndependent(meet, space, Probe(Some(c), s, Some(o)));
    }
  }
}
