/**
 What VBA203 promises about real executions.  The machine holds the value of one Application
 property and of every variable; a walk through the graph either completes a statement or
 faults before it takes effect.  If the value differs on exit, the analysis has reported an
 assignment that ran on that very walk, unless the walk left the lifecycle model: by a fault
 on which the analysis itself clears an origin, or through a guarded restore whose variable
 no longer holds a captured value.
 */
module ApplicationStateSoundness {
  import opened Wrappers
  import opened Sets
  import opened ApplicationState
  import opened ApplicationStateFixpoint

  /** `captured` tells whether the value came from the property by capture and copying alone. */
  datatype Held = Held(value: int, captured: bool)

  datatype Machine = Machine(property: int, vars: map<string, Held>, writers: set<int>)

  ghost predicate Initial(m: Machine) {
    m.writers == {} && forall v <- m.vars :: !m.vars[v].captured
  }

  /** A completed statement; `input` is the value of any expression the analysis does not follow. */
  function Execute(m: Machine, s: Statement, input: int): Machine {
    match s
    case Other => m
    case WriteProperty(id, source, inert) =>
      if inert then m
      else
        var value := if source.Some? && source.value in m.vars then m.vars[source.value].value else input;
        m.(property := value, writers := m.writers + {id})
    case Capture(v, _) => m.(vars := m.vars[v := Held(m.property, true)])
    case CopyVariable(v, w) => m.(vars := m.vars[v := if w in m.vars then m.vars[w] else Held(input, false)])
    case AssignVariable(v) => m.(vars := m.vars[v := Held(input, false)])
  }

  function StepAlong(m: Machine, s: Statement, edgeClass: EdgeClass, input: int): Machine {
    if edgeClass == Normal then Execute(m, s, input) else m
  }

  ghost predicate InGraph(g: Graph, walk: seq<Edge>) {
    forall e <- walk :: e in g.edges && e.source in g.blocks
  }

  ghost function Run(g: Graph, m: Machine, walk: seq<Edge>, inputs: seq<int>): Machine
    requires |inputs| == |walk| && InGraph(g, walk)
  {
    if walk == [] then m
    else
      var n := |walk| - 1;
      StepAlong(Run(g, m, walk[..n], inputs[..n]), g.blocks[walk[n].source], walk[n].edgeClass, inputs[n])
  }

  // ---- What a flow says about a machine ------------------------------------------------

  /** A value that differs from the entry value is blamed on an origin that ran. */
  ghost predicate Explained(value: int, entry: int, dirty: set<int>, writers: set<int>) {
    value != entry ==> exists o :: o in dirty && o in writers
  }

  ghost predicate Describes(f: Flow, m: Machine, entry: int) {
    && Explained(m.property, entry, f.dirty, m.writers)
    && (forall v <- m.vars | m.vars[v].captured ::
          v in f.saved && Explained(m.vars[v].value, entry, f.saved[v].dirty, m.writers))
    && (forall v <- f.saved | !f.saved[v].unknown :: v in m.vars && m.vars[v].captured)
  }

  /** Joining further flows keeps the description. */
  lemma DescribesGrows(f: Flow, h: Flow, m: Machine, entry: int)
    requires Describes(f, m, entry) && Leq(f, h)
    ensures Describes(h, m, entry)
  {
    forall o ensures o in f.dirty ==> o in h.dirty { assert Holds(f, Dirty(o)) ==> Holds(h, Dirty(o)); }
    forall v <- m.vars | m.vars[v].captured
      ensures v in h.saved && Explained(m.vars[v].value, entry, h.saved[v].dirty, m.writers)
    {
      assert Holds(f, Tracked(v)) ==> Holds(h, Tracked(v));
      forall o ensures o in f.saved[v].dirty ==> o in h.saved[v].dirty {
        assert Holds(f, SavedDirty(v, o)) ==> Holds(h, SavedDirty(v, o));
      }
    }
    forall v <- h.saved | !h.saved[v].unknown ensures v in m.vars && m.vars[v].captured {
      assert Holds(f, Unknown(v)) ==> Holds(h, Unknown(v));
    }
  }

  // ---- The lifecycle model -------------------------------------------------------------

  /**
   A write of the property from a tracked variable takes origins back even if it faults: from a
   proven variable, or under an accepted guard, all but those dirty at the capture; from another
   variable those its snapshot covers.  The code treats such a fault as the cleanup boundary.
   */
  predicate FaultLosesOrigins(f: Flow, s: Statement, pairs: GuardPairs) {
    s.WriteProperty? && s.source.Some? && s.source.value in f.saved &&
    var saved := f.saved[s.source.value];
    if !saved.unknown then !s.inert && !(f.dirty <= saved.dirty)
    else if MatchingGuard(saved, s.id, pairs) then !(f.dirty <= saved.dirty)
    else f.dirty * saved.restores != {}
  }

  /** The guard correlation accepts a restore from a variable that is not proven to hold a captured value. */
  predicate AcceptedByGuard(f: Flow, s: Statement, pairs: GuardPairs) {
    && s.WriteProperty? && !s.inert && s.source.Some? && s.source.value in f.saved && f.saved[s.source.value].unknown
    && MatchingGuard(f.saved[s.source.value], s.id, pairs)
  }

  /** The accepted assignment was dirty at the capture, or is dirty now and not covered. */
  predicate WriterStaysDirty(f: Flow, s: Statement, pairs: GuardPairs)
    requires AcceptedByGuard(f, s, pairs)
  {
    var saved := f.saved[s.source.value];
    s.id in saved.dirty || (s.id in f.dirty && s.id !in saved.restores)
  }

  /** An accepted restore writes a captured value, or stays reported itself. */
  predicate GuardIsHonest(f: Flow, m: Machine, s: Statement, pairs: GuardPairs) {
    AcceptedByGuard(f, s, pairs) ==>
      WriterStaysDirty(f, s, pairs) || (s.source.value in m.vars && m.vars[s.source.value].captured)
  }

  predicate StepInScope(f: Flow, m: Machine, s: Statement, edgeClass: EdgeClass, pairs: GuardPairs) {
    if edgeClass == Normal then GuardIsHonest(f, m, s, pairs) else !FaultLosesOrigins(f, s, pairs)
  }

  ghost predicate InScope(g: Graph, t: Table, m: Machine, walk: seq<Edge>, inputs: seq<int>)
    requires |inputs| == |walk| && InGraph(g, walk)
  {
    forall n: nat | n < |walk| && walk[n].source in t ::
      StepInScope(t[walk[n].source], Run(g, m, walk[..n], inputs[..n]), g.blocks[walk[n].source], walk[n].edgeClass, g.pairs)
  }

  /** One completed statement. */
  lemma ExecuteIsDescribed(f: Flow, m: Machine, s: Statement, input: int, pairs: GuardPairs, entry: int)
    requires Describes(f, m, entry) && GuardIsHonest(f, m, s, pairs)
    ensures Describes(Apply(f, s, pairs), Execute(m, s, input), entry)
  {
    var h, k := Apply(f, s, pairs), Execute(m, s, input);
    if s.WriteProperty? && !s.inert {
      assert s.id in k.writers;
      if !SavedRestore(f, s) && !(s.source.Some? && s.source.value in f.saved && MatchingGuard(f.saved[s.source.value], s.id, pairs)) {
        assert s.id in h.dirty;
      }
      forall v <- k.vars | k.vars[v].captured
        ensures v in h.saved && Explained(k.vars[v].value, entry, h.saved[v].dirty, k.writers)
      {
        assert h.saved[v].dirty == f.saved[v].dirty;
      }
    }
  }

  lemma FaultKeepsTheRest(f: Flow, s: Statement, pairs: GuardPairs)
    ensures AcrossEdge(f, s, Exceptional, pairs).saved == f.saved
    ensures f.dirty <= AcrossEdge(f, s, Exceptional, pairs).dirty <==> !FaultLosesOrigins(f, s, pairs)
  {
    if s.WriteProperty? && s.source.Some? && s.source.value in f.saved { RemovesNothing(f.dirty, f.saved[s.source.value].restores); }
  }

  /** One step, along either kind of edge. */
  lemma StepIsDescribed(f: Flow, m: Machine, s: Statement, edgeClass: EdgeClass, input: int, pairs: GuardPairs,
        entry: int)
    requires Describes(f, m, entry) && StepInScope(f, m, s, edgeClass, pairs)
    ensures Describes(AcrossEdge(f, s, edgeClass, pairs), StepAlong(m, s, edgeClass, input), entry)
  {
    var out := f.(viaExceptional := f.viaExceptional || edgeClass == Exceptional);
    if edgeClass == Normal {
      ExecuteIsDescribed(out, m, s, input, pairs, entry);
    } else {
      FaultKeepsTheRest(f, s, pairs);
    }
  }

  /** Every in-scope walk is described by the table of the block it reaches. */
  lemma {:induction false} WalkIsDescribed(g: Graph, t: Table, m: Machine, walk: seq<Edge>, inputs: seq<int>, b: int)
    requires Stable(g, t) && Initial(m) && Walk(g, g.entry, walk, b)
    requires |inputs| == |walk| && InGraph(g, walk) && InScope(g, t, m, walk, inputs)
    ensures b in t && Describes(t[b], Run(g, m, walk, inputs), m.property)
  {
    if walk == [] {
      DescribesGrows(START, t[b], m, m.property);
    } else {
      var n := |walk| - 1;
      var e := walk[n];
      assert forall k: nat | k < n :: walk[..n][..k] == walk[..k] && inputs[..n][..k] == inputs[..k] && walk[..n][k] == walk[k];
      WalkIsDescribed(g, t, m, walk[..n], inputs[..n], e.source);
      StepIsDescribed(t[e.source], Run(g, m, walk[..n], inputs[..n]), g.blocks[e.source], e.edgeClass, inputs[n], g.pairs, m.property);
      assert Settled(g, t, e);
      DescribesGrows(OutState(g, t[e.source], e), t[b], Run(g, m, walk, inputs), m.property);
    }
  }

  /**
   Soundness: whatever the graph, walk and inputs, if an in-scope walk ends in an exit with
   a value other than the entry value, some assignment that ran on it has been reported.
   */
  lemma LeakIsReported(g: Graph, t: Table, w: map<int, Witness>, m: Machine, walk: seq<Edge>, inputs: seq<int>, b: int)
    requires Stable(g, t) && WitnessesOf(Exits(g, t), w)
    requires Initial(m) && Walk(g, g.entry, walk, b) && KindOfExit(g, b).Some?
    requires |inputs| == |walk| && InGraph(g, walk) && InScope(g, t, m, walk, inputs)
    requires Run(g, m, walk, inputs).property != m.property
    ensures exists o :: o in w && o in Run(g, m, walk, inputs).writers
  {
    var n := |walk| - 1;
    var e := walk[n];
    assert forall k: nat | k < n :: walk[..n][..k] == walk[..k] && inputs[..n][..k] == inputs[..k] && walk[..n][k] == walk[k];
    WalkIsDescribed(g, t, m, walk[..n], inputs[..n], e.source);
    StepIsDescribed(t[e.source], Run(g, m, walk[..n], inputs[..n]), g.blocks[e.source], e.edgeClass, inputs[n], g.pairs, m.property);
    var o :| o in OutState(g, t[e.source], e).dirty && o in Run(g, m, walk, inputs).writers;
    var j :| 0 <= j < |g.edges| && g.edges[j] == e;
    assert o in Exits(g, t)[j].origins;
  }

  // ---- A scope that shows in the procedure ---------------------------------------------

  /** No variable is captured under an `If` guard. */
  predicate CapturesUnguarded(g: Graph) {
    forall b <- g.blocks :: g.blocks[b].Capture? ==> g.blocks[b].guards == {}
  }

  ghost predicate CarriesNoGuard(f: Flow) {
    forall k <- f.saved :: f.saved[k].guardedBy == {}
  }

  lemma StepCarriesNoGuard(f: Flow, s: Statement, edgeClass: EdgeClass, pairs: GuardPairs)
    requires CarriesNoGuard(f) && (s.Capture? ==> s.guards == {})
    ensures CarriesNoGuard(AcrossEdge(f, s, edgeClass, pairs))
  {
  }

  lemma MergeCarriesNoGuard(f: Flow, h: Flow)
    requires CarriesNoGuard(f) && CarriesNoGuard(h)
    ensures CarriesNoGuard(Merge(f, h))
  {
  }

  lemma {:induction false} DerivedCarriesNoGuard(g: Graph, d: Derivation)
    requires CapturesUnguarded(g) && Sound(g, d)
    ensures CarriesNoGuard(Derived(g, d))
  {
    match d
    case Root =>
    case Along(p, e) =>
      DerivedCarriesNoGuard(g, p);
      StepCarriesNoGuard(Derived(g, p), g.blocks[e.source], e.edgeClass, g.pairs);
    case Join(l, r) =>
      DerivedCarriesNoGuard(g, l);
      DerivedCarriesNoGuard(g, r);
      MergeCarriesNoGuard(Derived(g, l), Derived(g, r));
  }

  /** No write of the property from a variable faults on the walk. */
  predicate RestoresComplete(g: Graph, walk: seq<Edge>)
    requires InGraph(g, walk)
  {
    forall e <- walk | e.edgeClass == Exceptional ::
      g.blocks[e.source].WriteProperty? ==> g.blocks[e.source].source.None?
  }

  /** A walk on which no write from a variable faults, in a procedure without guarded captures, is in scope. */
  lemma PlainWalkIsInScope(g: Graph, t: Table, m: Machine, walk: seq<Edge>, inputs: seq<int>)
    requires |inputs| == |walk| && InGraph(g, walk) && Stable(g, t)
    requires CapturesUnguarded(g) && RestoresComplete(g, walk)
    ensures InScope(g, t, m, walk, inputs)
  {
    forall b <- t ensures CarriesNoGuard(t[b]) {
      var d :| Sound(g, d) && Place(g, d) == b && Derived(g, d) == t[b];
      DerivedCarriesNoGuard(g, d);
    }
  }

  /**
   Soundness over procedures: without guarded captures, every walk on which no write from a
   variable faults and which ends in an exit with a foreign value has a reported assignment.
   */
  lemma PlainLeakIsReported(g: Graph, w: map<int, Witness>, m: Machine, walk: seq<Edge>, inputs: seq<int>, b: int)
    requires exists t :: Stable(g, t) && WitnessesOf(Exits(g, t), w)
    requires CapturesUnguarded(g) && Initial(m) && Walk(g, g.entry, walk, b) && KindOfExit(g, b).Some?
    requires |inputs| == |walk| && InGraph(g, walk) && RestoresComplete(g, walk)
    requires Run(g, m, walk, inputs).property != m.property
    ensures exists o :: o in w && o in Run(g, m, walk, inputs).writers
  {
    var t :| Stable(g, t) && WitnessesOf(Exits(g, t), w);
    PlainWalkIsInScope(g, t, m, walk, inputs);
    LeakIsReported(g, t, w, m, walk, inputs, b);
  }

  // ---- The scope is exact --------------------------------------------------------------

  /**
   Accepting a guarded restore is sound for every machine and input exactly when the restoring
   assignment itself stays dirty: nothing else is known to have run.
   */
  lemma GuardIsSafeIffWriterStays(f: Flow, s: Statement, pairs: GuardPairs, entry: int)
    requires AcceptedByGuard(f, s, pairs)
    ensures (forall m, input :: Describes(f, m, entry) ==> Describes(Apply(f, s, pairs), Execute(m, s, input), entry))
            <==> WriterStaysDirty(f, s, pairs)
  {
    var out := Apply(f, s, pairs);
    if WriterStaysDirty(f, s, pairs) {
      forall m, input | Describes(f, m, entry) ensures Describes(out, Execute(m, s, input), entry) {
        ExecuteIsDescribed(f, m, s, input, pairs, entry);
      }
    } else {
      var m := Machine(entry, map v | v in f.saved && !f.saved[v].unknown :: Held(entry, true), {});
      assert s.source.value !in m.vars;
      assert Describes(f, m, entry);
      var k := Execute(m, s, entry + 1);
      assert k.property == entry + 1 && k.writers == {s.id};
      assert !Explained(k.property, entry, out.dirty, k.writers);
      assert !Describes(out, k, entry);
    }
  }

  /**
   A fault may be taken into account without risk exactly when it takes no origin back: only then
   does the flow behind the fault still describe every machine the flow before it describes.
   */
  lemma FaultIsSafeIffItKeepsOrigins(f: Flow, s: Statement, pairs: GuardPairs, entry: int)
    ensures (forall m :: Describes(f, m, entry) ==> Describes(AcrossEdge(f, s, Exceptional, pairs), m, entry))
            <==> !FaultLosesOrigins(f, s, pairs)
  {
    var out := AcrossEdge(f, s, Exceptional, pairs);
    FaultKeepsTheRest(f, s, pairs);
    if FaultLosesOrigins(f, s, pairs) {
      var o := Missing(f.dirty, out.dirty);
      var m := Machine(entry + 1, map v | v in f.saved && !f.saved[v].unknown :: Held(entry, true), {o});
      assert o in f.dirty && o in m.writers;
      assert Describes(f, m, entry);
      assert !Explained(m.property, entry, out.dirty, m.writers);
      assert !Describes(out, m, entry);
    } else {
      forall m | Describes(f, m, entry) ensures Describes(out, m, entry) {
        if m.property != entry { var p :| p in f.dirty && p in m.writers; assert p in out.dirty; }
      }
    }
  }
}
