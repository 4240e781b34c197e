/**
 The value-level domain of the VBA203 leak analysis: what one program point knows about
 one Application property.  `dirty` holds the assignments whose value may still be in the
 property; `saved` describes every variable that may hold a captured value.

 A flow is studied through its facts.  Merging two flows is the union of their facts, and
 a flow is determined by its facts, so the merge laws and the height of the domain follow.
 */
module ApplicationState {
  import opened Wrappers

  datatype Snapshot = Snapshot(dirty: set<int>, restores: set<int>, guardedBy: set<int>, unknown: bool)

  datatype Flow = Flow(dirty: set<int>, saved: map<string, Snapshot>, viaExceptional: bool)

  const START := Flow({}, map[], false)

  /** How a variable with no entry takes part in a merge. */
  const ABSENT := Snapshot({}, {}, {}, true)

  datatype EdgeClass = Normal | Exceptional

  /**
   One statement, seen by the analysis of one property.  `WriteProperty` assigns the
   property from a resolvable variable or from any other expression; it is `inert` when
   the statement was recovered by the parser or is not a plain assignment.
   */
  datatype Statement =
    | Other
    | WriteProperty(id: int, source: Option<string>, inert: bool)
    | Capture(target: string, guards: set<int>)
    | CopyVariable(target: string, from: string)
    | AssignVariable(target: string)

  /** Pairs (guard of a capture, restoring statement) accepted by the guard correlation. */
  type GuardPairs = set<(int, int)>

  // ---- Merge ---------------------------------------------------------------------------

  function Lookup(f: Flow, k: string): Snapshot {
    if k in f.saved then f.saved[k] else ABSENT
  }

  /** A restore survives a join when neither side is dirty without being covered. */
  function MergeSnapshot(a: Flow, b: Flow, k: string): Snapshot {
    var l, r := Lookup(a, k), Lookup(b, k);
    Snapshot(
      l.dirty + r.dirty,
      (set o | o in l.restores + r.restores && (o in a.dirty ==> o in l.restores) && (o in b.dirty ==> o in r.restores)),
      l.guardedBy + r.guardedBy,
      l.unknown || r.unknown)
  }

  function Merge(a: Flow, b: Flow): Flow {
    Flow(
      a.dirty + b.dirty,
      map k | k in a.saved.Keys + b.saved.Keys :: MergeSnapshot(a, b, k),
      a.viaExceptional || b.viaExceptional)
  }

  // ---- Facts ---------------------------------------------------------------------------

  datatype Fact =
    | Dirty(origin: int)
    | ViaExceptional
    | Tracked(key: string)
    | Unknown(key: string)
    | SavedDirty(key: string, origin: int)
    | GuardedBy(key: string, guard: int)
    | Touched(key: string, origin: int)    // the origin is dirty or restored: above the bottom of the chain
    | Uncovered(key: string, origin: int)  // the origin is dirty and not restored: the top of the chain

  predicate Holds(f: Flow, x: Fact) {
    match x
    case Dirty(o) => o in f.dirty
    case ViaExceptional => f.viaExceptional
    case Tracked(k) => k in f.saved
    case Unknown(k) => Lookup(f, k).unknown
    case SavedDirty(k, o) => o in Lookup(f, k).dirty
    case GuardedBy(k, g) => g in Lookup(f, k).guardedBy
    case Touched(k, o) => o in f.dirty || o in Lookup(f, k).restores
    case Uncovered(k, o) => o in f.dirty && o !in Lookup(f, k).restores
  }

  ghost predicate Leq(a: Flow, b: Flow) {
    forall x :: Holds(a, x) ==> Holds(b, x)
  }

  lemma MergeIsUnionOfFacts(a: Flow, b: Flow, x: Fact)
    ensures Holds(Merge(a, b), x) <==> Holds(a, x) || Holds(b, x)
  {
  }

  lemma FactsDetermineSnapshot(a: Flow, b: Flow, k: string)
    requires forall x :: Holds(a, x) <==> Holds(b, x)
    ensures Lookup(a, k) == Lookup(b, k)
  {
    var l, r := Lookup(a, k), Lookup(b, k);
    assert forall o :: Holds(a, Dirty(o)) <==> Holds(b, Dirty(o));
    forall o ensures o in l.dirty <==> o in r.dirty { assert Holds(a, SavedDirty(k, o)) <==> Holds(b, SavedDirty(k, o)); }
    forall o ensures o in l.guardedBy <==> o in r.guardedBy { assert Holds(a, GuardedBy(k, o)) <==> Holds(b, GuardedBy(k, o)); }
    forall o ensures o in l.restores <==> o in r.restores {
      assert Holds(a, Touched(k, o)) <==> Holds(b, Touched(k, o));
      assert Holds(a, Uncovered(k, o)) <==> Holds(b, Uncovered(k, o));
      assert Holds(a, Dirty(o)) <==> Holds(b, Dirty(o));
    }
    assert Holds(a, Unknown(k)) <==> Holds(b, Unknown(k));
  }

  /** Two flows with the same facts are the same flow. */
  lemma FactsDetermineFlow(a: Flow, b: Flow)
    requires forall x :: Holds(a, x) <==> Holds(b, x)
    ensures a == b
  {
    forall o ensures o in a.dirty <==> o in b.dirty { assert Holds(a, Dirty(o)) <==> Holds(b, Dirty(o)); }
    assert Holds(a, Fact.ViaExceptional) <==> Holds(b, Fact.ViaExceptional);
    forall k ensures k in a.saved <==> k in b.saved { assert Holds(a, Tracked(k)) <==> Holds(b, Tracked(k)); }
    forall k | k in a.saved ensures a.saved[k] == b.saved[k] { FactsDetermineSnapshot(a, b, k); }
    assert a.saved == b.saved;
  }

  lemma MergeFacts(a: Flow, b: Flow)
    ensures forall x :: Holds(Merge(a, b), x) <==> Holds(a, x) || Holds(b, x)
  {
    forall x ensures Holds(Merge(a, b), x) <==> Holds(a, x) || Holds(b, x) { MergeIsUnionOfFacts(a, b, x); }
  }

  lemma MergeCommutative(a: Flow, b: Flow)
    ensures Merge(a, b) == Merge(b, a)
  {
    MergeFacts(a, b);
    MergeFacts(b, a);
    FactsDetermineFlow(Merge(a, b), Merge(b, a));
  }

  lemma MergeAssociative(a: Flow, b: Flow, c: Flow)
    ensures Merge(Merge(a, b), c) == Merge(a, Merge(b, c))
  {
    MergeFacts(a, b);
    MergeFacts(Merge(a, b), c);
    MergeFacts(b, c);
    MergeFacts(a, Merge(b, c));
    FactsDetermineFlow(Merge(Merge(a, b), c), Merge(a, Merge(b, c)));
  }

  /** Merging changes nothing exactly when the incoming facts are already there; so a flow absorbs itself. */
  lemma MergeAbsorbs(a: Flow, b: Flow)
    ensures Merge(a, b) == a <==> Leq(b, a)
    ensures Merge(a, a) == a
  {
    MergeFacts(a, b);
    MergeFacts(a, a);
    FactsDetermineFlow(Merge(a, a), a);
    if Leq(b, a) { FactsDetermineFlow(Merge(a, b), a); }
  }

  /** Merge is the least upper bound of the facts order, and that order is antisymmetric. */
  lemma MergeIsLeastUpperBound(a: Flow, b: Flow, upper: Flow)
    ensures Leq(a, Merge(a, b)) && Leq(b, Merge(a, b))
    ensures Leq(a, upper) && Leq(b, upper) ==> Leq(Merge(a, b), upper)
    ensures Leq(a, b) && Leq(b, a) ==> a == b
  {
    MergeFacts(a, b);
    if Leq(a, b) && Leq(b, a) { FactsDetermineFlow(a, b); }
  }

  // ---- Transfer ------------------------------------------------------------------------

  predicate MatchingGuard(saved: Snapshot, id: int, pairs: GuardPairs) {
    exists g <- saved.guardedBy :: (g, id) in pairs
  }

  /** The statement writes the property from a variable whose captured value is proven. */
  predicate SavedRestore(f: Flow, s: Statement) {
    s.WriteProperty? && s.source.Some? && s.source.value in f.saved && !f.saved[s.source.value].unknown
  }

  /** Marks a new origin: every proven snapshot taken before it can restore it. */
  function RecordOrigin(f: Flow, id: int): Flow {
    Flow(
      f.dirty + {id},
      map k | k in f.saved ::
        if f.saved[k].unknown || id in f.saved[k].dirty then f.saved[k]
        else f.saved[k].(restores := f.saved[k].restores + {id}),
      f.viaExceptional)
  }

  function Apply(f: Flow, s: Statement, pairs: GuardPairs): Flow {
    match s
    case Other => f
    case WriteProperty(id, source, inert) =>
      if inert then f
      else if SavedRestore(f, s) then f.(dirty := f.saved[source.value].dirty)
      else if source.Some? && source.value in f.saved then
        var saved := f.saved[source.value];
        var cleared := f.(dirty := f.dirty - saved.restores);
        if MatchingGuard(saved, id, pairs) then cleared.(dirty := cleared.dirty + saved.dirty)
        else RecordOrigin(cleared, id)
      else RecordOrigin(f, id)
    case Capture(v, guards) => f.(saved := f.saved[v := Snapshot(f.dirty, {}, guards, false)])
    case CopyVariable(v, w) =>
      if w in f.saved then f.(saved := f.saved[v := f.saved[w]])
      else f.(saved := f.saved[v := ABSENT])
    case AssignVariable(v) => f.(saved := f.saved[v := ABSENT])
  }

  /** The restore effect of a property write that faults. */
  function ExceptionalRestore(f: Flow, s: Statement, pairs: GuardPairs): Flow {
    if !s.WriteProperty? || s.source.None? || s.source.value !in f.saved then f
    else
      var saved := f.saved[s.source.value];
      if MatchingGuard(saved, s.id, pairs) then f.(dirty := saved.dirty)
      else f.(dirty := f.dirty - saved.restores)
  }

  function AcrossEdge(f: Flow, s: Statement, edgeClass: EdgeClass, pairs: GuardPairs): Flow {
    var out := f.(viaExceptional := f.viaExceptional || edgeClass == Exceptional);
    if edgeClass == Normal || SavedRestore(f, s) then Apply(out, s, pairs)
    else ExceptionalRestore(out, s, pairs)
  }
}
