/**
 Several array lanes on one queue of block IDs.  Every pop visits the block in each lane that
 has a state for it, whether or not that lane asked for the visit.  When the merge absorbs
 what it has merged before, each lane still goes through exactly the states of a walk of its
 own; when it does not, some lanes do not.  All that matters is the merge on the states a lane can
 reach, so every statement is relative to a space of states the lane stays in.
 */
module LaneSolver {
  import opened Sets
  import opened Sums
  import opened Wrappers
  import opened LaneTransfer

  type Meet<!S> = (S, S) -> S

  datatype Progress<S> = Progress(states: map<int, S>, queued: set<int>)

  /** Joins one offer into its target; a change puts the target on the queue. */
  ghost function MergeArrayState<S>(meet: Meet<S>, p: Progress<S>, o: Offer<S>): Progress<S> {
    if o.target !in p.states then Progress(p.states[o.target := o.incoming], p.queued + {o.target})
    else
      var merged := meet(p.states[o.target], o.incoming);
      if merged == p.states[o.target] then p else Progress(p.states[o.target := merged], p.queued + {o.target})
  }

  ghost function Deliver<S>(meet: Meet<S>, p: Progress<S>, offers: seq<Offer<S>>): Progress<S> {
    if offers == [] then p else MergeArrayState(meet, Deliver(meet, p, offers[..|offers| - 1]), offers[|offers| - 1])
  }

  ghost predicate Least(id: int, s: set<int>) { id in s && forall x <- s :: id <= x }

  lemma {:induction false} LeastExists(s: set<int>)
    requires s != {}
    ensures exists id :: Least(id, s)
    decreases |s|
  {
    var x := Missing(s, {});
    if s == {x} { assert Least(x, s); }
    else {
      assert |s - {x}| < |s|;
      LeastExists(s - {x});
      var y :| Least(y, s - {x});
      assert forall z <- s :: z == x || z in s - {x};
      assert Least(x, s) || Least(y, s);
    }
  }

  ghost function Min(s: set<int>): (id: int)
    requires s != {}
    ensures Least(id, s)
  {
    LeastExists(s);
    var id :| Least(id, s);
    id
  }

  // ---- One lane alone ------------------------------------------------------------------

  ghost function Pop<S>(meet: Meet<S>, lane: Lane<S>, lines: seq<string>, p: Progress<S>, id: int): Progress<S> {
    var q := Progress(p.states, p.queued - {id});
    if id in p.states then Deliver(meet, q, Offers(lane, lines, id, p.states[id])) else q
  }

  ghost function Start<S>(lane: Lane<S>): Progress<S> {
    if lane.graph.None? then Progress(map[], {}) else Progress(map[lane.graph.value.entry := lane.initial], {lane.graph.value.entry})
  }

  /** The walk of one lane after `n` pops. */
  ghost function Alone<S>(meet: Meet<S>, lane: Lane<S>, lines: seq<string>, n: nat): Progress<S> {
    if n == 0 then Start(lane)
    else
      var p := Alone(meet, lane, lines, n - 1);
      if p.queued == {} then p else Pop(meet, lane, lines, p, Min(p.queued))
  }

  // ---- All lanes together --------------------------------------------------------------

  datatype Combined<S> = Combined(states: seq<map<int, S>>, queued: set<int>)

  ghost function Entries<S>(lanes: seq<Lane<S>>): set<int> {
    if lanes == [] then {} else Entries(lanes[..|lanes| - 1]) + Start(lanes[|lanes| - 1]).queued
  }

  ghost function StartAll<S>(lanes: seq<Lane<S>>): Combined<S> {
    Combined(seq(|lanes|, i requires 0 <= i < |lanes| => Start(lanes[i]).states), Entries(lanes))
  }

  /** The first `n` lanes have visited block `id`. */
  ghost function Round<S>(meet: Meet<S>, lanes: seq<Lane<S>>, lines: seq<string>, c: Combined<S>, id: int,
        n: nat): (r: Combined<S>)
    requires n <= |lanes| == |c.states|
    ensures |r.states| == |lanes| && forall i :: n <= i < |lanes| ==> r.states[i] == c.states[i]
  {
    if n == 0 then Combined(c.states, c.queued - {id})
    else
      var r := Round(meet, lanes, lines, c, id, n - 1);
      if id !in c.states[n - 1] then r
      else
        var p := Deliver(meet, Progress(c.states[n - 1], r.queued), Offers(lanes[n - 1], lines, id, c.states[n - 1][id]));
        Combined(r.states[n - 1 := p.states], p.queued)
  }

  ghost function Together<S>(meet: Meet<S>, lanes: seq<Lane<S>>, lines: seq<string>, n: nat): (c: Combined<S>)
    ensures |c.states| == |lanes|
  {
    if n == 0 then StartAll(lanes)
    else
      var c := Together(meet, lanes, lines, n - 1);
      if c.queued == {} then c else Round(meet, lanes, lines, c, Min(c.queued), |lanes|)
  }

  // ---- Absorbing merges ----------------------------------------------------------------

  /** On these states, what has been merged once changes nothing when it is merged again. */
  ghost predicate Absorbing<S(!new)>(meet: Meet<S>, space: iset<S>) {
    && (forall s <- space :: meet(s, s) == s)
    && (forall a <- space, s <- space :: meet(meet(a, s), s) == meet(a, s))
    && (forall c <- space, s <- space, o <- space :: meet(c, s) == c ==> meet(meet(c, o), s) == meet(c, o))
  }

  ghost predicate Closed<S(!new)>(meet: Meet<S>, space: iset<S>) {
    forall a <- space, b <- space :: meet(a, b) in space
  }

  /** From states of the space the lane offers only states of the space. */
  ghost predicate StaysIn<S(!new)>(lane: Lane<S>, lines: seq<string>, space: iset<S>) {
    lane.initial in space &&
    forall id: int, s, o | s in space && o in Offers(lane, lines, id, s) :: o.incoming in space
  }

  ghost predicate Steady<S(!new)>(meet: Meet<S>, lane: Lane<S>, lines: seq<string>, space: iset<S>) {
    Closed(meet, space) && Absorbing(meet, space) && StaysIn(lane, lines, space)
  }

  ghost predicate Within<S>(p: Progress<S>, space: iset<S>) { forall id <- p.states :: p.states[id] in space }

  /** A meet semilattice absorbs everywhere. */
  lemma SemilatticeAbsorbs<S(!new)>(meet: Meet<S>, space: iset<S>)
    requires forall s :: meet(s, s) == s
    requires forall a, b :: meet(a, b) == meet(b, a)
    requires forall a, b, c :: meet(meet(a, b), c) == meet(a, meet(b, c))
    ensures Absorbing(meet, space)
  {
  }

  ghost predicate Absorbed<S>(meet: Meet<S>, states: map<int, S>, o: Offer<S>) {
    o.target in states && meet(states[o.target], o.incoming) == states[o.target]
  }

  /** Every block that is not pending has delivered all it can. */
  ghost predicate Settled<S>(meet: Meet<S>, lane: Lane<S>, lines: seq<string>, p: Progress<S>) {
    forall id <- p.states | id !in p.queued :: forall o <- Offers(lane, lines, id, p.states[id]) :: Absorbed(meet, p.states, o)
  }

  lemma MergeStaysWithin<S(!new)>(meet: Meet<S>, space: iset<S>, p: Progress<S>, o: Offer<S>)
    requires Closed(meet, space) && Within(p, space) && o.incoming in space
    ensures Within(MergeArrayState(meet, p, o), space)
  {
  }

  lemma MergeKeepsAbsorbed<S(!new)>(meet: Meet<S>, space: iset<S>, p: Progress<S>, o: Offer<S>, earlier: Offer<S>)
    requires Absorbing(meet, space) && Within(p, space) && o.incoming in space && earlier.incoming in space
    ensures Absorbed(meet, MergeArrayState(meet, p, o).states, o)
    ensures Absorbed(meet, p.states, earlier) ==> Absorbed(meet, MergeArrayState(meet, p, o).states, earlier)
  {
  }

  /** Every offer stays in the space. */
  ghost predicate Offered<S>(offers: seq<Offer<S>>, space: iset<S>) {
    forall i :: 0 <= i < |offers| ==> offers[i].incoming in space
  }

  lemma {:induction false} DeliverStaysWithin<S(!new)>(meet: Meet<S>, space: iset<S>, p: Progress<S>, offers: seq<Offer<S>>)
    requires Closed(meet, space) && Within(p, space) && Offered(offers, space)
    ensures Within(Deliver(meet, p, offers), space)
  {
    if offers != [] {
      var n := |offers| - 1;
      DeliverStaysWithin(meet, space, p, offers[..n]);
      MergeStaysWithin(meet, space, Deliver(meet, p, offers[..n]), offers[n]);
    }
  }

  /** A block that is not queued after a delivery has the state it had before. */
  lemma {:induction false} DeliverQueuesChanges<S>(meet: Meet<S>, p: Progress<S>, offers: seq<Offer<S>>)
    ensures var r := Deliver(meet, p, offers);
      && p.queued <= r.queued && p.states.Keys <= r.states.Keys
      && (forall id <- r.states | id !in r.queued :: id in p.states && r.states[id] == p.states[id])
  {
    if offers != [] { DeliverQueuesChanges(meet, p, offers[..|offers| - 1]); }
  }

  /** A delivery keeps what is absorbed. */
  lemma {:induction false} DeliverKeepsAbsorbed<S(!new)>(meet: Meet<S>, space: iset<S>, p: Progress<S>, offers: seq<Offer<S>>,
        earlier: Offer<S>)
    requires Closed(meet, space) && Absorbing(meet, space) && Within(p, space) && Offered(offers, space)
    requires earlier.incoming in space && Absorbed(meet, p.states, earlier)
    ensures Absorbed(meet, Deliver(meet, p, offers).states, earlier)
  {
    if offers != [] {
      var n := |offers| - 1;
      DeliverKeepsAbsorbed(meet, space, p, offers[..n], earlier);
      DeliverStaysWithin(meet, space, p, offers[..n]);
      MergeKeepsAbsorbed(meet, space, Deliver(meet, p, offers[..n]), offers[n], earlier);
    }
  }

  /** A delivery absorbs its own offers. */
  lemma {:induction false} DeliverAbsorbs<S(!new)>(meet: Meet<S>, space: iset<S>, p: Progress<S>, offers: seq<Offer<S>>, i: nat)
    requires Closed(meet, space) && Absorbing(meet, space) && Within(p, space) && Offered(offers, space) && i < |offers|
    ensures Absorbed(meet, Deliver(meet, p, offers).states, offers[i])
  {
    var n := |offers| - 1;
    var before := Deliver(meet, p, offers[..n]);
    DeliverStaysWithin(meet, space, p, offers[..n]);
    MergeKeepsAbsorbed(meet, space, before, offers[n], offers[i]);
    if i < n { DeliverAbsorbs(meet, space, p, offers[..n], i); }
  }

  lemma PopKeepsSettled<S(!new)>(meet: Meet<S>, lane: Lane<S>, lines: seq<string>, space: iset<S>, p: Progress<S>, id: int)
    requires Steady(meet, lane, lines, space) && Settled(meet, lane, lines, p) && Within(p, space)
    ensures Settled(meet, lane, lines, Pop(meet, lane, lines, p, id)) && Within(Pop(meet, lane, lines, p, id), space)
  {
    if id in p.states {
      var q, offers := Progress(p.states, p.queued - {id}), Offers(lane, lines, id, p.states[id]);
      var r := Deliver(meet, q, offers);
      OffersStay(lane, lines, space, id, p.states[id]);
      DeliverStaysWithin(meet, space, q, offers);
      DeliverQueuesChanges(meet, q, offers);
      forall b <- r.states, o | b !in r.queued && o in Offers(lane, lines, b, r.states[b]) ensures Absorbed(meet, r.states, o) {
        if b == id {
          var i :| 0 <= i < |offers| && offers[i] == o;
          DeliverAbsorbs(meet, space, q, offers, i);
        } else {
          OffersStay(lane, lines, space, b, p.states[b]);
          DeliverKeepsAbsorbed(meet, space, q, offers, o);
        }
      }
    }
  }

  lemma OffersStay<S(!new)>(lane: Lane<S>, lines: seq<string>, space: iset<S>, id: int, s: S)
    requires StaysIn(lane, lines, space) && s in space
    ensures Offered(Offers(lane, lines, id, s), space)
    ensures forall o <- Offers(lane, lines, id, s) :: o.incoming in space
  {
  }

  lemma {:induction false} AloneIsSettled<S(!new)>(meet: Meet<S>, lane: Lane<S>, lines: seq<string>, space: iset<S>, n: nat)
    requires Steady(meet, lane, lines, space)
    ensures Settled(meet, lane, lines, Alone(meet, lane, lines, n)) && Within(Alone(meet, lane, lines, n), space)
  {
    if n > 0 {
      AloneIsSettled(meet, lane, lines, space, n - 1);
      var p := Alone(meet, lane, lines, n - 1);
      if p.queued != {} { PopKeepsSettled(meet, lane, lines, space, p, Min(p.queued)); }
    }
  }

  /** Visiting a settled block changes nothing. */
  lemma {:induction false} Stutters<S>(meet: Meet<S>, p: Progress<S>, offers: seq<Offer<S>>)
    requires forall o <- offers :: Absorbed(meet, p.states, o)
    ensures Deliver(meet, p, offers) == p
  {
    if offers != [] {
      var n := |offers| - 1;
      forall o <- offers[..n] ensures Absorbed(meet, p.states, o) { assert o in offers; }
      Stutters(meet, p, offers[..n]);
      assert Absorbed(meet, p.states, offers[n]);
    }
  }

  /** A delivery does not look at the queue. */
  lemma {:induction false} DeliverIgnoresQueue<S>(meet: Meet<S>, states: map<int, S>, q: set<int>, more: set<int>,
        offers: seq<Offer<S>>)
    ensures Deliver(meet, Progress(states, q + more), offers) ==
      Progress(Deliver(meet, Progress(states, q), offers).states, Deliver(meet, Progress(states, q), offers).queued + more)
  {
    if offers != [] {
      var n := |offers| - 1;
      DeliverIgnoresQueue(meet, states, q, more, offers[..n]);
      var r := Deliver(meet, Progress(states, q), offers[..n]);
      assert (r.queued + more) + {offers[n].target} == (r.queued + {offers[n].target}) + more;
    }
  }

  // ---- Each lane of a round ------------------------------------------------------------

  /** A round treats every lane on its own and queues whatever any lane changes. */
  lemma {:induction false} RoundOfLane<S>(meet: Meet<S>, lanes: seq<Lane<S>>, lines: seq<string>, c: Combined<S>,
        id: int, n: nat, i: nat, pending: set<int>)
    requires i < n <= |lanes| == |c.states| && pending <= c.queued
    ensures var r := Round(meet, lanes, lines, c, id, n); var p := Pop(meet, lanes[i], lines, Progress(c.states[i], pending), id);
      r.states[i] == p.states && p.queued <= r.queued && c.queued - {id} <= r.queued
  {
    var before := Round(meet, lanes, lines, c, id, n - 1);
    RoundKeepsQueue(meet, lanes, lines, c, id, n - 1);
    if i < n - 1 {
      RoundOfLane(meet, lanes, lines, c, id, n - 1, i, pending);
      if id in c.states[n - 1] {
        DeliverQueuesChanges(meet, Progress(c.states[n - 1], before.queued), Offers(lanes[n - 1], lines, id, c.states[n - 1][id]));
      }
    } else if id in c.states[i] {
      var offers := Offers(lanes[i], lines, id, c.states[i][id]);
      DeliverIgnoresQueue(meet, c.states[i], pending - {id}, before.queued, offers);
      assert (pending - {id}) + before.queued == before.queued;
    }
  }

  lemma {:induction false} RoundKeepsQueue<S>(meet: Meet<S>, lanes: seq<Lane<S>>, lines: seq<string>, c: Combined<S>,
        id: int, n: nat)
    requires n <= |lanes| == |c.states|
    ensures c.queued - {id} <= Round(meet, lanes, lines, c, id, n).queued
  {
    if n > 0 {
      RoundKeepsQueue(meet, lanes, lines, c, id, n - 1);
      var r := Round(meet, lanes, lines, c, id, n - 1);
      if id in c.states[n - 1] {
        DeliverQueuesChanges(meet, Progress(c.states[n - 1], r.queued), Offers(lanes[n - 1], lines, id, c.states[n - 1][id]));
      }
    }
  }

  /** When the block is settled in every lane, the round only takes it off the queue. */
  lemma {:induction false} QuietRound<S>(meet: Meet<S>, lanes: seq<Lane<S>>, lines: seq<string>, c: Combined<S>,
        id: int, n: nat)
    requires n <= |lanes| == |c.states|
    requires forall i | 0 <= i < |lanes| && id in c.states[i] ::
      forall o <- Offers(lanes[i], lines, id, c.states[i][id]) :: Absorbed(meet, c.states[i], o)
    ensures Round(meet, lanes, lines, c, id, n) == Combined(c.states, c.queued - {id})
  {
    if n > 0 {
      QuietRound(meet, lanes, lines, c, id, n - 1);
      if id in c.states[n - 1] {
        Stutters(meet, Progress(c.states[n - 1], c.queued - {id}), Offers(lanes[n - 1], lines, id, c.states[n - 1][id]));
      }
    }
  }

  // ---- Lanes keep step with their own walks --------------------------------------------

  /** Lane `i` stands where its own walk stands after `k` pops, and everything it waits for is queued. */
  ghost predicate InStep<S>(meet: Meet<S>, lanes: seq<Lane<S>>, lines: seq<string>, c: Combined<S>, i: nat, k: nat)
    requires i < |lanes| == |c.states|
  {
    var p := Alone(meet, lanes[i], lines, k);
    c.states[i] == p.states && p.queued <= c.queued
  }

  lemma {:induction false} EntriesQueued<S>(lanes: seq<Lane<S>>, i: nat)
    requires i < |lanes|
    ensures Start(lanes[i]).queued <= Entries(lanes)
  {
    if i < |lanes| - 1 { EntriesQueued(lanes[..|lanes| - 1], i); }
  }

  lemma StartInStep<S>(meet: Meet<S>, lanes: seq<Lane<S>>, lines: seq<string>, i: nat)
    requires i < |lanes|
    ensures InStep(meet, lanes, lines, StartAll(lanes), i, 0)
  {
    EntriesQueued(lanes, i);
  }

  /** One shared pop is one pop of the lane's own walk, or none. */
  lemma RoundInStep<S(!new)>(meet: Meet<S>, lanes: seq<Lane<S>>, lines: seq<string>, space: iset<S>, c: Combined<S>,
        i: nat, k: nat)
    requires i < |lanes| == |c.states| && Steady(meet, lanes[i], lines, space) && c.queued != {} && InStep(meet, lanes, lines, c, i, k)
    ensures var own := Min(c.queued) in Alone(meet, lanes[i], lines, k).queued;
      InStep(meet, lanes, lines, Round(meet, lanes, lines, c, Min(c.queued), |lanes|), i, if own then k + 1 else k)
  {
    var id, p := Min(c.queued), Alone(meet, lanes[i], lines, k);
    assert Progress(c.states[i], p.queued) == p;
    RoundOfLane(meet, lanes, lines, c, id, |lanes|, i, p.queued);
    if id in p.queued {
      assert Min(p.queued) == id;
    } else {
      AloneIsSettled(meet, lanes[i], lines, space, k);
      assert p.queued - {id} == p.queued;
      if id in p.states { Stutters(meet, p, Offers(lanes[i], lines, id, p.states[id])); }
    }
  }

  /** At every moment of the combined walk a steady lane is in a state of its own walk, whatever the other lanes do. */
  lemma {:induction false} LanesKeepStep<S(!new)>(meet: Meet<S>, lanes: seq<Lane<S>>, lines: seq<string>, space: iset<S>,
        n: nat, i: nat) returns (k: nat)
    requires i < |lanes| && Steady(meet, lanes[i], lines, space)
    ensures k <= n && InStep(meet, lanes, lines, Together(meet, lanes, lines, n), i, k)
  {
    if n == 0 {
      StartInStep(meet, lanes, lines, i);
      k := 0;
    } else {
      k := LanesKeepStep(meet, lanes, lines, space, n - 1, i);
      var c := Together(meet, lanes, lines, n - 1);
      if c.queued != {} {
        RoundInStep(meet, lanes, lines, space, c, i, k);
        if Min(c.queued) in Alone(meet, lanes[i], lines, k).queued { k := k + 1; }
      }
    }
  }

  lemma {:induction false} AloneStays<S>(meet: Meet<S>, lane: Lane<S>, lines: seq<string>, k: nat, n: nat)
    requires k <= n && Alone(meet, lane, lines, k).queued == {}
    ensures Alone(meet, lane, lines, n) == Alone(meet, lane, lines, k)
    decreases n
  {
    if k < n { AloneStays(meet, lane, lines, k, n - 1); }
  }

  /** What the combined walk leaves to a steady lane is what the lane's own walk ends with. */
  lemma LaneIndependence<S(!new)>(meet: Meet<S>, lanes: seq<Lane<S>>, lines: seq<string>, space: iset<S>, n: nat, i: nat)
    requires i < |lanes| && Steady(meet, lanes[i], lines, space) && Together(meet, lanes, lines, n).queued == {}
    ensures Alone(meet, lanes[i], lines, n) == Progress(Together(meet, lanes, lines, n).states[i], {})
  {
    var k := LanesKeepStep(meet, lanes, lines, space, n, i);
    AloneStays(meet, lanes[i], lines, k, n);
  }

  // ---- What a block has received -----------------------------------------------------------

  /** All the lane has sent in the first `n` shared pops, its initial state included, in order. */
  ghost function Sent<S>(meet: Meet<S>, lanes: seq<Lane<S>>, lines: seq<string>, i: nat, n: nat): seq<Offer<S>>
    requires i < |lanes|
  {
    if n == 0 then if lanes[i].graph.None? then [] else [Offer(lanes[i].graph.value.entry, lanes[i].initial)]
    else
      var c := Together(meet, lanes, lines, n - 1);
      Sent(meet, lanes, lines, i, n - 1) +
      if c.queued != {} && Min(c.queued) in c.states[i] then Offers(lanes[i], lines, Min(c.queued), c.states[i][Min(c.queued)])
      else []
  }

  function Arrived<S>(offers: seq<Offer<S>>, b: int): seq<S> {
    if offers == [] then []
    else
      var o := offers[|offers| - 1];
      Arrived(offers[..|offers| - 1], b) + if o.target == b then [o.incoming] else []
  }

  function Met<S>(meet: Meet<S>, states: seq<S>): S
    requires states != []
  {
    if |states| == 1 then states[0] else meet(Met(meet, states[..|states| - 1]), states[|states| - 1])
  }

  /** The table holds for each block the meet of what has arrived there. */
  ghost predicate Meets<S>(meet: Meet<S>, states: map<int, S>, offers: seq<Offer<S>>) {
    forall b :: (b in states <==> Arrived(offers, b) != []) && (b in states ==> states[b] == Met(meet, Arrived(offers, b)))
  }

  lemma MergeMeets<S>(meet: Meet<S>, p: Progress<S>, offers: seq<Offer<S>>, o: Offer<S>)
    requires Meets(meet, p.states, offers)
    ensures Meets(meet, MergeArrayState(meet, p, o).states, offers + [o])
  {
    assert (offers + [o])[..|offers|] == offers;
    var before := Arrived(offers, o.target);
    assert (before + [o.incoming])[..|before|] == before;
    forall b | b != o.target ensures Arrived(offers + [o], b) == Arrived(offers, b) {}
  }

  lemma {:induction false} DeliverMeets<S>(meet: Meet<S>, p: Progress<S>, sent: seq<Offer<S>>, offers: seq<Offer<S>>)
    requires Meets(meet, p.states, sent)
    ensures Meets(meet, Deliver(meet, p, offers).states, sent + offers)
  {
    if offers == [] {
      assert sent + offers == sent;
    } else {
      var n := |offers| - 1;
      DeliverMeets(meet, p, sent, offers[..n]);
      MergeMeets(meet, Deliver(meet, p, offers[..n]), sent + offers[..n], offers[n]);
      assert sent + offers == (sent + offers[..n]) + [offers[n]];
    }
  }

  ghost predicate TableMeets<S>(meet: Meet<S>, lanes: seq<Lane<S>>, lines: seq<string>, i: nat, n: nat)
    requires i < |lanes|
  {
    Meets(meet, Together(meet, lanes, lines, n).states[i], Sent(meet, lanes, lines, i, n))
  }

  /** At every moment a lane's state of a block is the meet of all the lane has sent there. */
  lemma TableMeetsSent<S>(meet: Meet<S>, lanes: seq<Lane<S>>, lines: seq<string>, i: nat, n: nat)
    requires i < |lanes|
    ensures TableMeets(meet, lanes, lines, i, n)
  {
    StartMeetsSent(meet, lanes, lines, i);
    for k := 0 to n
      invariant TableMeets(meet, lanes, lines, i, k)
    {
      PopMeetsSent(meet, lanes, lines, i, k + 1);
    }
  }

  lemma PopMeetsSent<S>(meet: Meet<S>, lanes: seq<Lane<S>>, lines: seq<string>, i: nat, n: nat)
    requires i < |lanes| && n > 0 && TableMeets(meet, lanes, lines, i, n - 1)
    ensures TableMeets(meet, lanes, lines, i, n)
  {
    var c, sent := Together(meet, lanes, lines, n - 1), Sent(meet, lanes, lines, i, n - 1);
    if c.queued == {} {
      assert Sent(meet, lanes, lines, i, n) == sent;
    } else {
      var id := Min(c.queued);
      RoundMeets(meet, lanes, lines, c, id, i, sent);
      assert Together(meet, lanes, lines, n) == Round(meet, lanes, lines, c, id, |lanes|);
    }
  }

  lemma StartMeetsSent<S>(meet: Meet<S>, lanes: seq<Lane<S>>, lines: seq<string>, i: nat)
    requires i < |lanes|
    ensures TableMeets(meet, lanes, lines, i, 0)
  {
    StartMeets(meet, lanes[i]);
    assert Together(meet, lanes, lines, 0).states[i] == Start(lanes[i]).states;
  }

  lemma StartMeets<S>(meet: Meet<S>, lane: Lane<S>)
    ensures Meets(meet, Start(lane).states, if lane.graph.None? then [] else [Offer(lane.graph.value.entry, lane.initial)])
  {
    if lane.graph.Some? {
      var o := Offer(lane.graph.value.entry, lane.initial);
      MergeMeets(meet, Progress(map[], {}), [], o);
      assert [] + [o] == [o];
    }
  }

  lemma RoundMeets<S>(meet: Meet<S>, lanes: seq<Lane<S>>, lines: seq<string>, c: Combined<S>, id: int, i: nat, sent: seq<Offer<S>>)
    requires i < |lanes| == |c.states| && Meets(meet, c.states[i], sent)
    ensures Meets(meet, Round(meet, lanes, lines, c, id, |lanes|).states[i],
      sent + if id in c.states[i] then Offers(lanes[i], lines, id, c.states[i][id]) else [])
  {
    RoundOfLane(meet, lanes, lines, c, id, |lanes|, i, {});
    if id in c.states[i] {
      DeliverMeets(meet, Progress(c.states[i], {} - {id}), sent, Offers(lanes[i], lines, id, c.states[i][id]));
    } else {
      assert sent + [] == sent;
    }
  }

  /** A fact that holds of a meet exactly when it holds of both sides. */
  ghost predicate NeedsBoth<S(!new)>(meet: Meet<S>, space: iset<S>, fact: S -> bool) {
    forall a <- space, b <- space :: fact(meet(a, b)) <==> fact(a) && fact(b)
  }

  lemma {:induction false} MetHasFact<S(!new)>(meet: Meet<S>, space: iset<S>, fact: S -> bool, states: seq<S>)
    requires Closed(meet, space) && NeedsBoth(meet, space, fact) && states != [] && forall s <- states :: s in space
    ensures Met(meet, states) in space && (fact(Met(meet, states)) <==> forall s <- states :: fact(s))
  {
    if |states| > 1 {
      var n := |states| - 1;
      assert states == states[..n] + [states[n]];
      MetHasFact(meet, space, fact, states[..n]);
    }
  }

  /** Such a fact holds at a block exactly when it holds of everything the lane has sent there. */
  lemma FactAtBlock<S(!new)>(meet: Meet<S>, lanes: seq<Lane<S>>, lines: seq<string>, space: iset<S>, fact: S -> bool,
        i: nat, n: nat, b: int)
    requires i < |lanes| && b in Together(meet, lanes, lines, n).states[i]
    requires Closed(meet, space) && NeedsBoth(meet, space, fact)
    requires forall s <- Arrived(Sent(meet, lanes, lines, i, n), b) :: s in space
    ensures fact(Together(meet, lanes, lines, n).states[i][b]) <==> forall s <- Arrived(Sent(meet, lanes, lines, i, n), b) :: fact(s)
  {
    TableMeetsSent(meet, lanes, lines, i, n);
    MetHasFact(meet, space, fact, Arrived(Sent(meet, lanes, lines, i, n), b));
  }

  lemma ArrivedWithin<S(!new)>(offers: seq<Offer<S>>, space: iset<S>, b: int)
    requires Offered(offers, space)
    ensures forall s <- Arrived(offers, b) :: s in space
  {
    if offers != [] {
      assert Offered(offers[..|offers| - 1], space);
      ArrivedWithin(offers[..|offers| - 1], space, b);
    }
  }

  /** A lane that stays in a space sends only its states. */
  lemma {:induction false} SentStays<S(!new)>(meet: Meet<S>, lanes: seq<Lane<S>>, lines: seq<string>, space: iset<S>, i: nat, n: nat)
    requires i < |lanes| && Closed(meet, space) && StaysIn(lanes[i], lines, space)
    ensures Offered(Sent(meet, lanes, lines, i, n), space)
    ensures forall b <- Together(meet, lanes, lines, n).states[i] :: Together(meet, lanes, lines, n).states[i][b] in space
  {
    if n > 0 {
      SentStays(meet, lanes, lines, space, i, n - 1);
      var c := Together(meet, lanes, lines, n - 1);
      if c.queued != {} && Min(c.queued) in c.states[i] {
        OffersStay(lanes[i], lines, space, Min(c.queued), c.states[i][Min(c.queued)]);
      }
    }
    TableMeetsSent(meet, lanes, lines, i, n);
    forall b <- Together(meet, lanes, lines, n).states[i] ensures Together(meet, lanes, lines, n).states[i][b] in space {
      ArrivedWithin(Sent(meet, lanes, lines, i, n), space, b);
      MetHasFact(meet, space, s => true, Arrived(Sent(meet, lanes, lines, i, n), b));
    }
  }

  /**
   When the walk is over, the target of an edge that may stand for a fault has absorbed the state
   before the block, and the target of every edge what the edge carries.
   */
  lemma FaultsAreAbsorbed<S(!new)>(meet: Meet<S>, lanes: seq<Lane<S>>, lines: seq<string>, space: iset<S>, n: nat, i: nat,
        id: int, j: nat)
    requires i < |lanes| && Steady(meet, lanes[i], lines, space) && Together(meet, lanes, lines, n).queued == {}
    requires id in Together(meet, lanes, lines, n).states[i]
    requires Leaves(lanes[i], lines, id, Together(meet, lanes, lines, n).states[i][id], j)
    ensures var states := Together(meet, lanes, lines, n).states[i]; var e := Outgoing(lanes[i].graph.value, id)[j];
      && e.target in states && j < |Offers(lanes[i], lines, id, states[id])|
      && meet(states[e.target], Offers(lanes[i], lines, id, states[id])[j].incoming) == states[e.target]
      && ((e.exceptional || e.uncertain) && !Reliable(lanes[i], lines, id, states[id], e) ==>
            meet(states[e.target], states[id]) == states[e.target])
  {
    var states := Together(meet, lanes, lines, n).states[i];
    LaneIndependence(meet, lanes, lines, space, n, i);
    AloneIsSettled(meet, lanes[i], lines, space, n);
    var offers, e := Offers(lanes[i], lines, id, states[id]), Outgoing(lanes[i].graph.value, id)[j];
    if (e.exceptional || e.uncertain) && !Reliable(lanes[i], lines, id, states[id], e) {
      FaultKeepsBefore(lanes[i], lines, id, states[id], j);
    }
    assert offers[j] in offers && Absorbed(meet, states, offers[j]);
  }

  // ---- Termination ---------------------------------------------------------------------

  ghost function Total(ks: seq<nat>): nat { if ks == [] then 0 else ks[|ks| - 1] + Total(ks[..|ks| - 1]) }

  lemma {:induction false} TotalGrows(ks: seq<nat>, ls: seq<nat>)
    requires |ks| == |ls| && forall i :: 0 <= i < |ks| ==> ks[i] <= ls[i]
    ensures Total(ks) <= Total(ls) && (Total(ks) == Total(ls) ==> ks == ls)
  {
    if ks != [] {
      var n := |ks| - 1;
      TotalGrows(ks[..n], ls[..n]);
      if Total(ks) == Total(ls) { assert ks == ks[..n] + [ks[n]] && ls == ls[..n] + [ls[n]]; }
    }
  }

  /** Every lane is steady in a space of its own. */
  ghost predicate AllSteady<S(!new)>(meet: Meet<S>, lanes: seq<Lane<S>>, lines: seq<string>, spaces: seq<iset<S>>) {
    |spaces| == |lanes| && forall i :: 0 <= i < |lanes| ==> Steady(meet, lanes[i], lines, spaces[i])
  }

  /** Each lane stands where its own walk stands after so many pops, and no further than its end. */
  ghost predicate AllInStep<S>(meet: Meet<S>, lanes: seq<Lane<S>>, lines: seq<string>, c: Combined<S>, ends: seq<nat>, ks: seq<nat>) {
    |ends| == |lanes| == |ks| == |c.states| &&
    forall i :: 0 <= i < |lanes| ==>
      Alone(meet, lanes[i], lines, ends[i]).queued == {} && ks[i] <= ends[i] && InStep(meet, lanes, lines, c, i, ks[i])
  }

  ghost function NextStep<S>(meet: Meet<S>, lane: Lane<S>, lines: seq<string>, id: int, k: nat): nat {
    if id in Alone(meet, lane, lines, k).queued then k + 1 else k
  }

  lemma RoundAllInStep<S(!new)>(meet: Meet<S>, lanes: seq<Lane<S>>, lines: seq<string>, spaces: seq<iset<S>>,
        c: Combined<S>, ends: seq<nat>, ks: seq<nat>) returns (next: seq<nat>)
    requires AllSteady(meet, lanes, lines, spaces) && c.queued != {} && AllInStep(meet, lanes, lines, c, ends, ks)
    ensures |next| == |lanes| && forall i :: 0 <= i < |lanes| ==> next[i] == NextStep(meet, lanes[i], lines, Min(c.queued), ks[i])
    ensures AllInStep(meet, lanes, lines, Round(meet, lanes, lines, c, Min(c.queued), |lanes|), ends, next)
  {
    next := seq(|lanes|, i requires 0 <= i < |lanes| => NextStep(meet, lanes[i], lines, Min(c.queued), ks[i]));
    forall i | 0 <= i < |lanes|
      ensures next[i] <= ends[i] && InStep(meet, lanes, lines, Round(meet, lanes, lines, c, Min(c.queued), |lanes|), i, next[i])
    {
      RoundInStep(meet, lanes, lines, spaces[i], c, i, ks[i]);
    }
  }

  /** A pop no lane asked for only takes the block off the queue. */
  lemma UnaskedRound<S(!new)>(meet: Meet<S>, lanes: seq<Lane<S>>, lines: seq<string>, spaces: seq<iset<S>>,
        c: Combined<S>, ends: seq<nat>, ks: seq<nat>)
    requires AllSteady(meet, lanes, lines, spaces) && c.queued != {} && AllInStep(meet, lanes, lines, c, ends, ks)
    requires forall i :: 0 <= i < |lanes| ==> NextStep(meet, lanes[i], lines, Min(c.queued), ks[i]) == ks[i]
    ensures Round(meet, lanes, lines, c, Min(c.queued), |lanes|) == Combined(c.states, c.queued - {Min(c.queued)})
  {
    var id := Min(c.queued);
    forall i | 0 <= i < |lanes| && id in c.states[i]
      ensures forall o <- Offers(lanes[i], lines, id, c.states[i][id]) :: Absorbed(meet, c.states[i], o)
    {
      AloneIsSettled(meet, lanes[i], lines, spaces[i], ks[i]);
      assert InStep(meet, lanes, lines, c, i, ks[i]);
    }
    QuietRound(meet, lanes, lines, c, id, |lanes|);
  }

  /** Once every lane's own walk has an end, so has the combined walk. */
  lemma {:induction false} CombinedEndsAfter<S(!new)>(meet: Meet<S>, lanes: seq<Lane<S>>, lines: seq<string>,
        spaces: seq<iset<S>>, ends: seq<nat>, n: nat, c: Combined<S>, ks: seq<nat>) returns (m: nat)
    requires AllSteady(meet, lanes, lines, spaces)
    requires c == Together(meet, lanes, lines, n) && AllInStep(meet, lanes, lines, c, ends, ks)
    ensures Together(meet, lanes, lines, m).queued == {}
    decreases Total(ends) - Total(ks), |c.queued|
  {
    if c.queued == {} { return n; }
    var next := RoundAllInStep(meet, lanes, lines, spaces, c, ends, ks);
    TotalGrows(ks, next);
    TotalGrows(next, ends);
    if Total(ks) == Total(next) {
      UnaskedRound(meet, lanes, lines, spaces, c, ends, ks);
      assert |c.queued - {Min(c.queued)}| < |c.queued|;
    }
    m := CombinedEndsAfter(meet, lanes, lines, spaces, ends, n + 1, Round(meet, lanes, lines, c, Min(c.queued), |lanes|), next);
  }

  /** Once every lane's own walk has an end, so has the combined walk. */
  lemma CombinedEnds<S(!new)>(meet: Meet<S>, lanes: seq<Lane<S>>, lines: seq<string>, spaces: seq<iset<S>>,
        ends: seq<nat>) returns (m: nat)
    requires AllSteady(meet, lanes, lines, spaces) && |ends| == |lanes|
    requires forall i :: 0 <= i < |lanes| ==> Alone(meet, lanes[i], lines, ends[i]).queued == {}
    ensures Together(meet, lanes, lines, m).queued == {}
  {
    var zeros: seq<nat> := seq(|lanes|, i => 0);
    var c := Together(meet, lanes, lines, 0);
    forall i | 0 <= i < |lanes| ensures InStep(meet, lanes, lines, c, i, zeros[i]) {
      StartInStep(meet, lanes, lines, i);
    }
    m := CombinedEndsAfter(meet, lanes, lines, spaces, ends, 0, c, zeros);
  }

  // ---- Walks that end ------------------------------------------------------------------

  /** Every change by a merge goes down in rank. */
  ghost predicate Descends<S(!new)>(meet: Meet<S>, space: iset<S>, rank: S -> nat) {
    forall a <- space, b <- space :: meet(a, b) == a || rank(meet(a, b)) < rank(a)
  }

  function Targets<S>(lane: Lane<S>): set<int> {
    if lane.graph.None? then {}
    else
      {lane.graph.value.entry} +
      (set id, i | id in lane.graph.value.outgoing && 0 <= i < |lane.graph.value.outgoing[id]| :: lane.graph.value.outgoing[id][i].target)
  }

  function RankAt<S>(states: map<int, S>, rank: S -> nat): int -> nat {
    id => if id in states then rank(states[id]) else 0
  }

  /** The second table holds more blocks, or a lower rank somewhere and nowhere a higher one. */
  ghost predicate Lower<S>(before: map<int, S>, after: map<int, S>, rank: S -> nat) {
    && before.Keys <= after.Keys
    && (before.Keys == after.Keys ==>
          (forall id <- before :: rank(after[id]) <= rank(before[id])) && exists id <- before :: rank(after[id]) < rank(before[id]))
  }

  lemma LowerTransitive<S>(a: map<int, S>, b: map<int, S>, c: map<int, S>, rank: S -> nat)
    requires Lower(a, b, rank) && (b == c || Lower(b, c, rank))
    ensures Lower(a, c, rank)
  {
  }

  lemma {:induction false} DeliverDescends<S(!new)>(meet: Meet<S>, space: iset<S>, rank: S -> nat, p: Progress<S>,
        offers: seq<Offer<S>>)
    requires Closed(meet, space) && Descends(meet, space, rank) && Within(p, space) && Offered(offers, space)
    ensures Deliver(meet, p, offers) == p || Lower(p.states, Deliver(meet, p, offers).states, rank)
  {
    if offers != [] {
      var n := |offers| - 1;
      DeliverDescends(meet, space, rank, p, offers[..n]);
      DeliverStaysWithin(meet, space, p, offers[..n]);
      var q, r := Deliver(meet, p, offers[..n]), Deliver(meet, p, offers);
      if r != q {
        assert Lower(q.states, r.states, rank);
        if q != p { LowerTransitive(p.states, q.states, r.states, rank); }
      }
    }
  }

  lemma {:induction false} DeliverHitsTargets<S>(meet: Meet<S>, p: Progress<S>, offers: seq<Offer<S>>)
    ensures Deliver(meet, p, offers).states.Keys <= p.states.Keys + set o <- offers :: o.target
  {
    if offers != [] { DeliverHitsTargets(meet, p, offers[..|offers| - 1]); }
  }

  lemma OffersHitTargets<S>(lane: Lane<S>, lines: seq<string>, id: int, s: S)
    ensures forall o <- Offers(lane, lines, id, s) :: o.target in Targets(lane)
  {
  }

  ghost predicate Lists(l: seq<int>, ids: set<int>) { forall x :: x in l <==> x in ids }

  lemma {:induction false} Listed(ids: set<int>) returns (l: seq<int>)
    ensures Lists(l, ids)
  {
    if ids == {} { l := []; }
    else {
      var x := Missing(ids, {});
      var rest := Listed(ids - {x});
      l := rest + [x];
    }
  }

  lemma LowerSums<S>(l: seq<int>, before: map<int, S>, after: map<int, S>, rank: S -> nat)
    requires Lower(before, after, rank) && before.Keys == after.Keys && forall id <- before :: id in l
    ensures Sum(l, RankAt(after, rank)) < Sum(l, RankAt(before, rank))
  {
    var id :| id in before && rank(after[id]) < rank(before[id]);
    var i :| 0 <= i < |l| && l[i] == id;
    forall j | 0 <= j < |l| ensures RankAt(after, rank)(l[j]) <= RankAt(before, rank)(l[j]) {
      var x := l[j];
      if x in before { assert rank(after[x]) <= rank(before[x]); }
    }
    SumLess(l, i, RankAt(after, rank), RankAt(before, rank));
  }

  ghost function RankSum<S>(l: seq<int>, states: map<int, S>, rank: S -> nat): nat { Sum(l, RankAt(states, rank)) }

  /** The states are those of targets, and inside the space. */
  ghost predicate Targeted<S>(lane: Lane<S>, space: iset<S>, p: Progress<S>) {
    Within(p, space) && p.states.Keys <= Targets(lane)
  }

  ghost function Unreached<S>(lane: Lane<S>, states: map<int, S>): nat { |Targets(lane) - states.Keys| }

  ghost predicate Falls<S>(lane: Lane<S>, rank: S -> nat, l: seq<int>, before: Progress<S>, after: Progress<S>) {
    var u, v := Unreached(lane, before.states), Unreached(lane, after.states);
    var x, y := RankSum(l, before.states, rank), RankSum(l, after.states, rank);
    v < u || (v == u && (y < x || (y == x && |after.queued| < |before.queued|)))
  }

  /** A pop reaches a new target, lowers the ranks, or only takes the block off the queue. */
  lemma PopDescends<S(!new)>(meet: Meet<S>, lane: Lane<S>, lines: seq<string>, space: iset<S>, rank: S -> nat,
        l: seq<int>, p: Progress<S>, id: int)
    requires Closed(meet, space) && StaysIn(lane, lines, space) && Descends(meet, space, rank) && Targeted(lane, space, p)
    requires Lists(l, Targets(lane)) && id in p.queued
    ensures Targeted(lane, space, Pop(meet, lane, lines, p, id))
    ensures Falls(lane, rank, l, p, Pop(meet, lane, lines, p, id))
  {
    assert |p.queued - {id}| < |p.queued|;
    if id in p.states {
      var q, offers := Progress(p.states, p.queued - {id}), Offers(lane, lines, id, p.states[id]);
      var r := Deliver(meet, q, offers);
      OffersHitTargets(lane, lines, id, p.states[id]);
      OffersStay(lane, lines, space, id, p.states[id]);
      DeliverStaysWithin(meet, space, q, offers);
      DeliverDescends(meet, space, rank, q, offers);
      DeliverHitsTargets(meet, q, offers);
      if r != q {
        if p.states.Keys == r.states.Keys {
          LowerSums(l, p.states, r.states, rank);
        } else {
          var newly := Missing(r.states.Keys, p.states.Keys);
          ProperSubsetIsSmaller(Targets(lane) - r.states.Keys, Targets(lane) - p.states.Keys, newly);
        }
      }
    }
  }

  lemma {:induction false} EndsAfter<S(!new)>(meet: Meet<S>, lane: Lane<S>, lines: seq<string>, space: iset<S>, rank: S -> nat,
        l: seq<int>, k: nat, p: Progress<S>) returns (n: nat)
    requires Closed(meet, space) && StaysIn(lane, lines, space) && Descends(meet, space, rank)
    requires Lists(l, Targets(lane))
    requires p == Alone(meet, lane, lines, k) && Targeted(lane, space, p)
    ensures Alone(meet, lane, lines, n).queued == {}
    decreases Unreached(lane, p.states), RankSum(l, p.states, rank), |p.queued|
  {
    if p.queued == {} { return k; }
    var id := Min(p.queued);
    var r := Pop(meet, lane, lines, p, id);
    assert r == Alone(meet, lane, lines, k + 1);
    PopDescends(meet, lane, lines, space, rank, l, p, id);
    assert Falls(lane, rank, l, p, r);
    n := EndsAfter(meet, lane, lines, space, rank, l, k + 1, r);
  }

  /** Where merges go down in rank, the lane's own walk ends. */
  lemma LaneEnds<S(!new)>(meet: Meet<S>, lane: Lane<S>, lines: seq<string>, space: iset<S>, rank: S -> nat) returns (n: nat)
    requires Closed(meet, space) && StaysIn(lane, lines, space) && Descends(meet, space, rank)
    ensures Alone(meet, lane, lines, n).queued == {}
  {
    var l := Listed(Targets(lane));
    n := EndsAfter(meet, lane, lines, space, rank, l, 0, Start(lane));
  }
}
