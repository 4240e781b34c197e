/**
 The facts an array lane keeps about each variable and how two of them meet where paths join.
 The merge is no semilattice: the sources of conditional allocations and of allocation flags
 grow where one side has none and cancel where two differ, a variable only one side knows is
 forgotten, and the bounds kept for `ReDim Preserve` are those of the left side.
 */
module ArrayState {
  import opened Sets
  import opened Sums
  import opened Wrappers
  import opened LaneTransfer
  import opened LaneSolver
  import opened LaneLimits
  import opened LaneWalk

  datatype Allocation = Unknown | Unallocated | Allocated

  datatype Origin = OriginUnknown | OriginLocal | OriginRangeValue

  datatype Bound = Bound(known: bool, value: int, expression: string)

  datatype Dimension = Dimension(lower: Bound, upper: Bound)

  datatype FailureFlag = FailureFlag(source: string, successOnTrue: bool)

  datatype Descriptor = Descriptor(source: string, start: string, length: string, lower: string)

  datatype BoundsProof = BoundsProof(
    loopEndLine: int, priorKind: Allocation, priorKnownArray: bool, priorMayBeEmpty: bool,
    priorMayBeUnallocated: bool, priorAllocationCount: string, priorConditionalAllocationSource: string)

  const NO_BOUND := Bound(false, 0, "")
  const NO_FLAG := FailureFlag("", false)
  const NO_DESCRIPTOR := Descriptor("", "", "", "")
  const NO_PROOF := BoundsProof(0, Unknown, false, false, false, "", "")

  /** What both sides must agree on. */
  datatype Allocating = Allocating(
    kind: Allocation, knownArray: bool, objectValue: bool, failureFlag: FailureFlag, dimensions: seq<Dimension>,
    origin: Origin, boundsProof: BoundsProof)

  /** Names both sides must agree on. */
  datatype Named = Named(
    allocationProbe: string, safeBoundProbe: string, allocationCountSource: string, returnNonEmptyArrayParameter: string,
    returnPositiveScalarParameter: string, nonEmptySource: string, descriptor: Descriptor)

  /** What either side may fear. */
  datatype Doubts = Doubts(mayBeEmpty: bool, mayBeUnallocated: bool, resumeBoundsFailurePossible: bool)

  datatype Value = Value(
    allocating: Allocating, named: Named, doubts: Doubts, preserveShape: seq<Dimension>,
    conditionalAllocationSource: string, allocationFlagSource: string)

  type State = map<string, Value>

  /** What is left of a variable that one side does not know. */
  const FORGOTTEN := Value(
    Allocating(Unknown, false, false, NO_FLAG, [], OriginUnknown, NO_PROOF), Named("", "", "", "", "", "", NO_DESCRIPTOR),
    Doubts(false, false, false), [], "", "")

  // ---- Meeting -------------------------------------------------------------------------

  function Agreed<T(==)>(left: T, right: T, otherwise: T): T { if left == right then left else otherwise }

  function MeetAllocating(left: Allocating, right: Allocating): Allocating {
    Allocating(
      Agreed(left.kind, right.kind, Unknown), Agreed(left.knownArray, right.knownArray, false),
      Agreed(left.objectValue, right.objectValue, false), Agreed(left.failureFlag, right.failureFlag, NO_FLAG),
      Agreed(left.dimensions, right.dimensions, []), Agreed(left.origin, right.origin, OriginUnknown),
      Agreed(left.boundsProof, right.boundsProof, NO_PROOF))
  }

  function MeetNamed(left: Named, right: Named): Named {
    Named(
      Agreed(left.allocationProbe, right.allocationProbe, ""), Agreed(left.safeBoundProbe, right.safeBoundProbe, ""),
      Agreed(left.allocationCountSource, right.allocationCountSource, ""),
      Agreed(left.returnNonEmptyArrayParameter, right.returnNonEmptyArrayParameter, ""),
      Agreed(left.returnPositiveScalarParameter, right.returnPositiveScalarParameter, ""),
      Agreed(left.nonEmptySource, right.nonEmptySource, ""), Agreed(left.descriptor, right.descriptor, NO_DESCRIPTOR))
  }

  function MeetDoubts(left: Doubts, right: Doubts): Doubts {
    Doubts(left.mayBeEmpty || right.mayBeEmpty, left.mayBeUnallocated || right.mayBeUnallocated,
      left.resumeBoundsFailurePossible || right.resumeBoundsFailurePossible)
  }

  /** An absent source yields, two different ones cancel. */
  function MeetSource(left: string, right: string): string {
    if left == right then left else if left == "" then right else if right == "" then left else ""
  }

  predicate BoundsEquivalent(left: Bound, right: Bound) {
    if left.known && right.known then left.value == right.value
    else left.expression != "" && left.expression == right.expression
  }

  function MeetBound(left: Bound, right: Bound): Bound { if BoundsEquivalent(left, right) then left else NO_BOUND }

  function MeetDimension(left: Dimension, right: Dimension): Dimension {
    Dimension(MeetBound(left.lower, right.lower), MeetBound(left.upper, right.upper))
  }

  function MeetShape(left: seq<Dimension>, right: seq<Dimension>): seq<Dimension> {
    if |left| != |right| then [] else seq(|left|, i requires 0 <= i < |left| => MeetDimension(left[i], right[i]))
  }

  function MeetValue(left: Value, right: Value): Value {
    Value(MeetAllocating(left.allocating, right.allocating), MeetNamed(left.named, right.named), MeetDoubts(left.doubts, right.doubts),
      MeetShape(left.preserveShape, right.preserveShape),
      MeetSource(left.conditionalAllocationSource, right.conditionalAllocationSource),
      MeetSource(left.allocationFlagSource, right.allocationFlagSource))
  }

  function MeetKey(left: State, right: State, key: string): Value {
    if key in left && key in right then MeetValue(left[key], right[key]) else FORGOTTEN
  }

  function MeetState(left: State, right: State): State {
    map key | key in left.Keys + right.Keys :: MeetKey(left, right, key)
  }

  /** Visits the keys of both sides in no promised order. */
  method MeetArrayState(left: State, right: State) returns (out: State)
    ensures out == MeetState(left, right)
  {
    out := map[];
    var keys := left.Keys + right.Keys;
    while keys != {}
      invariant keys <= left.Keys + right.Keys && out.Keys == left.Keys + right.Keys - keys
      invariant forall key <- out :: out[key] == MeetKey(left, right, key)
    {
      var key := AnyOf(keys);
      if key !in left || key !in right {
        out := out[key := FORGOTTEN];
      } else {
        var shape := MeetArrayDimensions(left[key].preserveShape, right[key].preserveShape);
        out := out[key := MeetValue(left[key], right[key]).(preserveShape := shape)];
      }
      keys := keys - {key};
    }
  }

  method MeetArrayDimensions(left: seq<Dimension>, right: seq<Dimension>) returns (out: seq<Dimension>)
    ensures out == MeetShape(left, right)
  {
    if |left| == 0 || |left| != |right| { return []; }
    out := [];
    for i := 0 to |left|
      invariant |out| == i && forall j :: 0 <= j < i ==> out[j] == MeetDimension(left[j], right[j])
    {
      out := out + [MeetDimension(left[i], right[i])];
    }
  }

  // ---- What a meet means ---------------------------------------------------------------------

  /** What a state can say of a variable; each claim says more than the absence of one. */
  datatype Claim =
    | Kind(kind: Allocation) | KnownArray | ObjectValue | Flag(flag: FailureFlag) | Dimensions(dimensions: seq<Dimension>)
    | From(origin: Origin) | Proof(proof: BoundsProof) | AllocationProbe(name: string) | SafeBoundProbe(name: string)
    | CountSource(name: string) | NonEmptyParameter(name: string) | PositiveParameter(name: string) | NonEmptySource(name: string)
    | Described(descriptor: Descriptor)

  predicate Substantial(c: Claim) {
    match c
    case Kind(k) => k != Unknown
    case KnownArray | ObjectValue => true
    case Flag(f) => f != NO_FLAG
    case Dimensions(d) => d != []
    case From(o) => o != OriginUnknown
    case Proof(p) => p != NO_PROOF
    case AllocationProbe(n) => n != ""
    case SafeBoundProbe(n) => n != ""
    case CountSource(n) => n != ""
    case NonEmptyParameter(n) => n != ""
    case PositiveParameter(n) => n != ""
    case NonEmptySource(n) => n != ""
    case Described(d) => d != NO_DESCRIPTOR
  }

  predicate Claims(v: Value, c: Claim) {
    match c
    case Kind(k) => v.allocating.kind == k
    case KnownArray => v.allocating.knownArray
    case ObjectValue => v.allocating.objectValue
    case Flag(f) => v.allocating.failureFlag == f
    case Dimensions(d) => v.allocating.dimensions == d
    case From(o) => v.allocating.origin == o
    case Proof(p) => v.allocating.boundsProof == p
    case AllocationProbe(n) => v.named.allocationProbe == n
    case SafeBoundProbe(n) => v.named.safeBoundProbe == n
    case CountSource(n) => v.named.allocationCountSource == n
    case NonEmptyParameter(n) => v.named.returnNonEmptyArrayParameter == n
    case PositiveParameter(n) => v.named.returnPositiveScalarParameter == n
    case NonEmptySource(n) => v.named.nonEmptySource == n
    case Described(d) => v.named.descriptor == d
  }

  predicate Says(s: State, key: string, c: Claim) { key in s && Claims(s[key], c) }

  /** A meet knows the variables of either side, and claims of one what both sides claim. */
  lemma MeetClaims(left: State, right: State, key: string, c: Claim)
    requires Substantial(c)
    ensures MeetState(left, right).Keys == left.Keys + right.Keys
    ensures Says(MeetState(left, right), key, c) <==> Says(left, key, c) && Says(right, key, c)
  {
    if key in left && key in right {
      ValueClaims(left[key], right[key], c);
    } else if key in left.Keys + right.Keys {
      NothingClaimed(c);
    }
  }

  lemma ValueClaims(u: Value, v: Value, c: Claim)
    requires Substantial(c)
    ensures Claims(MeetValue(u, v), c) <==> Claims(u, c) && Claims(v, c)
  {
  }

  lemma NothingClaimed(c: Claim)
    requires Substantial(c)
    ensures !Claims(FORGOTTEN, c)
  {
  }

  /** The claims are all there is to the parts both sides must agree on. */
  lemma ClaimsDetermine(u: Value, v: Value)
    requires forall c | Substantial(c) :: Claims(u, c) <==> Claims(v, c)
    ensures u.allocating == v.allocating && u.named == v.named
  {
    AllocatingDetermined(u, v);
    NamedDetermined(u, v);
  }

  lemma AllocatingDetermined(u: Value, v: Value)
    requires forall c | Substantial(c) :: Claims(u, c) <==> Claims(v, c)
    ensures u.allocating == v.allocating
  {
    var a, b := u.allocating, v.allocating;
    assert Substantial(KnownArray) && Substantial(ObjectValue);
    assert Claims(u, KnownArray) <==> Claims(v, KnownArray);
    assert Claims(u, ObjectValue) <==> Claims(v, ObjectValue);
    assert Claims(u, Kind(a.kind)) && Claims(v, Kind(b.kind));
    assert Claims(u, Flag(a.failureFlag)) && Claims(v, Flag(b.failureFlag));
    assert Claims(u, Dimensions(a.dimensions)) && Claims(v, Dimensions(b.dimensions));
    assert Claims(u, From(a.origin)) && Claims(v, From(b.origin));
    assert Claims(u, Proof(a.boundsProof)) && Claims(v, Proof(b.boundsProof));
  }

  lemma ProbesDetermined(u: Value, v: Value)
    requires forall c | Substantial(c) :: Claims(u, c) <==> Claims(v, c)
    ensures u.named.allocationProbe == v.named.allocationProbe && u.named.safeBoundProbe == v.named.safeBoundProbe
    ensures u.named.allocationCountSource == v.named.allocationCountSource
  {
    var a, b := u.named, v.named;
    assert Claims(u, AllocationProbe(a.allocationProbe)) && Claims(v, AllocationProbe(b.allocationProbe));
    assert Claims(u, SafeBoundProbe(a.safeBoundProbe)) && Claims(v, SafeBoundProbe(b.safeBoundProbe));
    assert Claims(u, CountSource(a.allocationCountSource)) && Claims(v, CountSource(b.allocationCountSource));
  }

  lemma NamedDetermined(u: Value, v: Value)
    requires forall c | Substantial(c) :: Claims(u, c) <==> Claims(v, c)
    ensures u.named == v.named
  {
    var a, b := u.named, v.named;
    ProbesDetermined(u, v);
    assert Claims(u, NonEmptyParameter(a.returnNonEmptyArrayParameter)) && Claims(v, NonEmptyParameter(b.returnNonEmptyArrayParameter));
    assert Claims(u, PositiveParameter(a.returnPositiveScalarParameter)) && Claims(v, PositiveParameter(b.returnPositiveScalarParameter));
    assert Claims(u, NonEmptySource(a.nonEmptySource)) && Claims(v, NonEmptySource(b.nonEmptySource));
    assert Claims(u, Described(a.descriptor)) && Claims(v, Described(b.descriptor));
  }

  datatype Doubt = MayBeEmpty | MayBeUnallocated | BoundsFailure

  predicate Fears(s: State, key: string, d: Doubt) {
    key in s &&
    match d
    case MayBeEmpty => s[key].doubts.mayBeEmpty
    case MayBeUnallocated => s[key].doubts.mayBeUnallocated
    case BoundsFailure => s[key].doubts.resumeBoundsFailurePossible
  }

  /** A meet has the doubts of either side about the variables both know, and no others. */
  lemma MeetFears(left: State, right: State, key: string, d: Doubt)
    ensures Fears(MeetState(left, right), key, d) <==>
      key in left && key in right && (Fears(left, key, d) || Fears(right, key, d))
  {
  }

  /** A source stands in a meet exactly when one side has it and the other, which knows the variable, has no other. */
  lemma MeetSources(left: State, right: State, key: string, source: string)
    requires source != "" && key in MeetState(left, right)
    ensures MeetState(left, right)[key].conditionalAllocationSource == source <==>
      key in left && key in right &&
      StandsIn(left[key].conditionalAllocationSource, right[key].conditionalAllocationSource, source)
    ensures MeetState(left, right)[key].allocationFlagSource == source <==>
      key in left && key in right && StandsIn(left[key].allocationFlagSource, right[key].allocationFlagSource, source)
  {
  }

  predicate StandsIn(l: string, r: string, source: string) { (l == source && r in {"", source}) || (r == source && l in {"", source}) }

  /** Two bounds are the same number, or without two numbers the same expression. */
  lemma EquivalentBounds(l: Bound, r: Bound)
    ensures BoundsEquivalent(l, r) <==>
      (l.known && r.known && l.value == r.value) || (!(l.known && r.known) && l.expression == r.expression && r.expression != "")
    ensures BoundsEquivalent(l, r) <==> BoundsEquivalent(r, l)
  {
  }

  /** A kept bound is the left one, and only if the right one is equivalent; differing ranks keep none. */
  lemma MeetKeepsBounds(u: Value, v: Value, i: nat)
    ensures var k := MeetValue(u, v).preserveShape;
      && |k| == (if |u.preserveShape| == |v.preserveShape| then |u.preserveShape| else 0)
      && (i < |k| ==>
            (k[i].lower == if BoundsEquivalent(u.preserveShape[i].lower, v.preserveShape[i].lower) then u.preserveShape[i].lower else NO_BOUND) &&
            (k[i].upper == if BoundsEquivalent(u.preserveShape[i].upper, v.preserveShape[i].upper) then u.preserveShape[i].upper else NO_BOUND))
  {
  }

  /** But for the wording of kept bounds the order of the sides does not matter. */
  lemma MeetCommutes(left: State, right: State, key: string)
    ensures MeetState(left, right).Keys == MeetState(right, left).Keys
    ensures key in MeetState(left, right) ==>
      var u, v := MeetState(left, right)[key], MeetState(right, left)[key];
      u == v.(preserveShape := u.preserveShape) && |u.preserveShape| == |v.preserveShape|
  {
    if key in left && key in right {
      var a, b := left[key], right[key];
      assert MeetAllocating(a.allocating, b.allocating) == MeetAllocating(b.allocating, a.allocating);
      assert MeetNamed(a.named, b.named) == MeetNamed(b.named, a.named);
    }
  }

  // ---- Which states the merge absorbs ---------------------------------------------------

  /** A bound that says nothing holds no value; every other bound meets itself. */
  predicate ProperBound(b: Bound) { b.known || b.expression != "" || b.value == 0 }

  predicate Proper(v: Value) {
    forall i :: 0 <= i < |v.preserveShape| ==> ProperBound(v.preserveShape[i].lower) && ProperBound(v.preserveShape[i].upper)
  }

  predicate Compatible(u: string, v: string) { u == "" || v == "" || u == v }

  predicate OneSource(u: Value, v: Value) {
    Compatible(u.conditionalAllocationSource, v.conditionalAllocationSource) && Compatible(u.allocationFlagSource, v.allocationFlagSource)
  }

  /** Meeting it with a forgotten variable leaves no trace. */
  predicate Traceless(v: Value) {
    v.conditionalAllocationSource == "" && v.allocationFlagSource == "" && v.doubts == Doubts(false, false, false)
  }

  /** Proper bounds, no two sources for one variable, and what one state forgets leaves no trace in another. */
  ghost predicate Harmless(space: iset<State>) {
    && (forall s <- space, key | key in s :: Proper(s[key]))
    && (forall u <- space, v <- space, key | key in u && key in v :: OneSource(u[key], v[key]))
    && (forall u <- space, v <- space, key | key in u && key !in v :: Traceless(u[key]))
  }

  lemma AllocatingAbsorbs(c: Allocating, s: Allocating, o: Allocating)
    ensures MeetAllocating(s, s) == s && MeetAllocating(MeetAllocating(c, s), s) == MeetAllocating(c, s)
    ensures MeetAllocating(c, s) == c ==> MeetAllocating(MeetAllocating(c, o), s) == MeetAllocating(c, o)
  {
  }

  lemma NamedAbsorbs(c: Named, s: Named, o: Named)
    ensures MeetNamed(s, s) == s && MeetNamed(MeetNamed(c, s), s) == MeetNamed(c, s)
    ensures MeetNamed(c, s) == c ==> MeetNamed(MeetNamed(c, o), s) == MeetNamed(c, o)
  {
  }

  lemma BoundAbsorbs(c: Bound, s: Bound, o: Bound)
    ensures MeetBound(s, s) == s <==> ProperBound(s)
    ensures MeetBound(MeetBound(c, s), s) == MeetBound(c, s)
    ensures MeetBound(c, s) == c ==> MeetBound(MeetBound(c, o), s) == MeetBound(c, o)
  {
  }

  lemma ShapeAbsorbs(c: seq<Dimension>, s: seq<Dimension>, o: seq<Dimension>)
    ensures MeetShape(MeetShape(c, s), s) == MeetShape(c, s)
    ensures MeetShape(c, s) == c ==> MeetShape(MeetShape(c, o), s) == MeetShape(c, o)
  {
    forall i | 0 <= i < |c| == |s|
      ensures MeetDimension(MeetDimension(c[i], s[i]), s[i]) == MeetDimension(c[i], s[i])
    {
      BoundAbsorbs(c[i].lower, s[i].lower, NO_BOUND);
      BoundAbsorbs(c[i].upper, s[i].upper, NO_BOUND);
    }
    if MeetShape(c, s) == c {
      forall i | 0 <= i < |c| == |s| == |o|
        ensures MeetDimension(MeetDimension(c[i], o[i]), s[i]) == MeetDimension(c[i], o[i])
      {
        assert c[i] == MeetDimension(c[i], s[i]);
        BoundAbsorbs(c[i].lower, s[i].lower, o[i].lower);
        BoundAbsorbs(c[i].upper, s[i].upper, o[i].upper);
      }
    }
  }

  lemma ShapeMeetsItself(v: Value)
    ensures MeetShape(v.preserveShape, v.preserveShape) == v.preserveShape <==> Proper(v)
  {
    var d := v.preserveShape;
    forall i | 0 <= i < |d|
      ensures MeetDimension(d[i], d[i]) == d[i] <==> ProperBound(d[i].lower) && ProperBound(d[i].upper)
    {
      BoundAbsorbs(d[i].lower, d[i].lower, d[i].lower);
      BoundAbsorbs(d[i].upper, d[i].upper, d[i].upper);
    }
    if MeetShape(d, d) == d {
      forall i | 0 <= i < |d| ensures MeetDimension(d[i], d[i]) == d[i] { assert MeetShape(d, d)[i] == d[i]; }
    }
  }

  lemma ValueMeetsItself(v: Value)
    ensures MeetValue(v, v) == v <==> Proper(v)
  {
    AllocatingAbsorbs(v.allocating, v.allocating, v.allocating);
    NamedAbsorbs(v.named, v.named, v.named);
    ShapeMeetsItself(v);
  }

  lemma ValueAbsorbs(c: Value, s: Value)
    ensures MeetValue(MeetValue(c, s), s) == MeetValue(c, s) <==> OneSource(c, s)
  {
    AllocatingAbsorbs(c.allocating, s.allocating, c.allocating);
    NamedAbsorbs(c.named, s.named, c.named);
    ShapeAbsorbs(c.preserveShape, s.preserveShape, c.preserveShape);
  }

  lemma ValueStaysAbsorbed(c: Value, s: Value, o: Value)
    requires MeetValue(c, s) == c && OneSource(s, o)
    ensures MeetValue(MeetValue(c, o), s) == MeetValue(c, o)
  {
    AllocatingAbsorbs(c.allocating, s.allocating, o.allocating);
    NamedAbsorbs(c.named, s.named, o.named);
    ShapeAbsorbs(c.preserveShape, s.preserveShape, o.preserveShape);
  }

  lemma ForgottenAbsorbs(v: Value)
    ensures MeetValue(FORGOTTEN, v) == FORGOTTEN <==> Traceless(v)
  {
  }

  lemma MeetsItself(s: State)
    ensures MeetState(s, s) == s <==> forall key <- s :: Proper(s[key])
  {
    forall key <- s ensures MeetKey(s, s, key) == s[key] <==> Proper(s[key]) { ValueMeetsItself(s[key]); }
  }

  lemma KeyAbsorbsTwice(a: State, s: State, key: string)
    requires key in a.Keys + s.Keys
    ensures MeetKey(MeetState(a, s), s, key) == MeetKey(a, s, key) <==>
      (key in s ==> if key in a then OneSource(a[key], s[key]) else Traceless(s[key]))
  {
    assert MeetState(a, s)[key] == MeetKey(a, s, key);
    if key in s {
      if key in a { ValueAbsorbs(a[key], s[key]); } else { ForgottenAbsorbs(s[key]); }
    }
  }

  /** What one state leaves in another. */
  ghost predicate Bears(a: State, s: State) {
    forall key <- s :: if key in a then OneSource(a[key], s[key]) else Traceless(s[key])
  }

  lemma AbsorbsTwice(a: State, s: State)
    ensures MeetState(MeetState(a, s), s) == MeetState(a, s) <==> Bears(a, s)
  {
    var m, t := MeetState(a, s), MeetState(MeetState(a, s), s);
    assert t.Keys == m.Keys == a.Keys + s.Keys;
    if t == m {
      forall key <- s ensures if key in a then OneSource(a[key], s[key]) else Traceless(s[key]) {
        assert t[key] == m[key];
        KeyAbsorbsTwice(a, s, key);
      }
    }
    if Bears(a, s) {
      forall key <- m ensures t[key] == m[key] { KeyAbsorbsTwice(a, s, key); }
    }
  }

  lemma StaysAbsorbed(c: State, s: State, o: State, key: string)
    requires MeetState(c, s) == c && key in MeetState(MeetState(c, o), s)
    requires key in s && key in o ==> OneSource(s[key], o[key])
    requires key in s && key !in o ==> Traceless(s[key])
    requires key in o && key !in s ==> Traceless(o[key])
    ensures MeetKey(MeetState(c, o), s, key) == MeetKey(c, o, key)
  {
    assert key in c ==> MeetKey(c, s, key) == c[key];
    if key in s {
      assert key in MeetState(c, s);
      if key in o { ValueStaysAbsorbed(c[key], s[key], o[key]); } else { ForgottenAbsorbs(s[key]); }
    } else if key in c && key in o {
      ForgottenAbsorbs(o[key]);
    }
  }

  lemma StateStaysAbsorbed(c: State, s: State, o: State)
    requires MeetState(c, s) == c && Bears(o, s) && Bears(s, o)
    ensures MeetState(MeetState(c, o), s) == MeetState(c, o)
  {
    var before, m := MeetState(c, o), MeetState(MeetState(c, o), s);
    assert s.Keys <= MeetState(c, s).Keys;
    assert m.Keys == before.Keys;
    forall key | key in m ensures m[key] == before[key] { StaysAbsorbed(c, s, o, key); }
  }

  lemma BearsIfHarmless(space: iset<State>, u: State, v: State)
    requires Harmless(space) && u in space && v in space
    ensures Bears(u, v)
  {
  }

  lemma HarmlessAbsorbs(space: iset<State>)
    requires Harmless(space)
    ensures Absorbing(MeetState, space)
  {
    forall s <- space ensures MeetState(s, s) == s { MeetsItself(s); }
    forall a <- space, s <- space ensures MeetState(MeetState(a, s), s) == MeetState(a, s) {
      BearsIfHarmless(space, a, s);
      AbsorbsTwice(a, s);
    }
    forall c <- space, s <- space, o <- space | MeetState(c, s) == c ensures MeetState(MeetState(c, o), s) == MeetState(c, o) {
      BearsIfHarmless(space, s, o);
      BearsIfHarmless(space, o, s);
      StateStaysAbsorbed(c, s, o);
    }
  }

  lemma AbsorbingIsHarmless(space: iset<State>)
    requires Absorbing(MeetState, space)
    ensures Harmless(space)
  {
    forall s <- space, key | key in s ensures Proper(s[key]) { MeetsItself(s); }
    forall u <- space, v <- space, key | key in u && key in v ensures OneSource(u[key], v[key]) { AbsorbsTwice(u, v); }
    forall u <- space, v <- space, key | key in u && key !in v ensures Traceless(u[key]) { AbsorbsTwice(v, u); }
  }

  /** The merge absorbs on a set of states exactly when they are harmless to each other. */
  lemma AbsorbsIffHarmless(space: iset<State>)
    ensures Absorbing(MeetState, space) <==> Harmless(space)
  {
    if Harmless(space) { HarmlessAbsorbs(space); }
    if Absorbing(MeetState, space) { AbsorbingIsHarmless(space); }
  }

  // ---- Which lanes are independent -------------------------------------------------------

  /** Inside a closed space, lanes over one graph are independent exactly when the states are harmless to each other. */
  lemma IndependentIffHarmless(space: iset<State>)
    requires Closed(MeetState, space)
    ensures IndependentOn(MeetState, space) <==> Harmless(space)
  {
    IndependentIffAbsorbing(MeetState, space);
    AbsorbsIffHarmless(space);
  }

  function Allocate(condition: string, flag: string): Value {
    FORGOTTEN.(allocating := FORGOTTEN.allocating.(kind := Allocated, knownArray := true),
      conditionalAllocationSource := condition, allocationFlagSource := flag)
  }

  /** Of two conditions for one array the last comes back. */
  lemma CancelledSourceReturns(name: string, condition: string, other: string)
    requires condition != "" && other != "" && condition != other
    ensures var u, v: State := map[name := Allocate(condition, "")], map[name := Allocate(other, "")];
      MeetState(v, u) == map[name := Allocate("", "")] && MeetState(MeetState(v, u), u) == u
  {
    var u, v: State := map[name := Allocate(condition, "")], map[name := Allocate(other, "")];
    assert MeetKey(v, u, name) == Allocate("", "");
    var m: State := map[name := Allocate("", "")];
    assert MeetState(v, u) == m;
    assert MeetKey(m, u, name) == Allocate(condition, "");
  }

  /** A flag that was forgotten comes back. */
  lemma ForgottenSourceReturns(name: string, flag: string)
    requires flag != ""
    ensures var u: State := map[name := Allocate("", flag)];
      MeetState(map[], u) == map[name := FORGOTTEN] &&
      MeetState(MeetState(map[], u), u) == map[name := FORGOTTEN.(allocationFlagSource := flag)]
  {
    var u: State := map[name := Allocate("", flag)];
    var m: State := map[name := FORGOTTEN];
    assert MeetKey(map[], u, name) == FORGOTTEN;
    assert MeetState(map[], u) == m;
    assert MeetKey(m, u, name) == FORGOTTEN.(allocationFlagSource := flag);
  }

  /** Two different sources for one array make lanes depend on one another. */
  lemma SourcesDoNotAbsorb(space: iset<State>, u: State, v: State, key: string)
    requires Closed(MeetState, space) && u in space && v in space && key in u && key in v && !OneSource(u[key], v[key])
    ensures !IndependentOn(MeetState, space)
  {
    IndependentIffHarmless(space);
  }

  /** So does a source that one state knows and another has no entry for. */
  lemma ForgottenSourcesDoNotAbsorb(space: iset<State>, u: State, v: State, key: string)
    requires Closed(MeetState, space) && u in space && v in space && key in u && key !in v && !Traceless(u[key])
    ensures !IndependentOn(MeetState, space)
  {
    IndependentIffHarmless(space);
  }

  // ---- Lanes with one source for each array ----------------------------------------------

  /** Which condition and which flag may guard a variable's allocation. */
  datatype Sources = Sources(condition: string, flag: string)

  ghost predicate Guarded(v: Value, g: Sources) {
    Proper(v) && v.conditionalAllocationSource in {"", g.condition} && v.allocationFlagSource in {"", g.flag}
  }

  /** States that know these variables, each with one condition and one flag of its own. */
  ghost function Keyed(guards: map<string, Sources>): iset<State> {
    iset s: State | s.Keys == guards.Keys && forall key <- s :: Guarded(s[key], guards[key])
  }

  lemma MeetIsGuarded(u: Value, v: Value, g: Sources)
    requires Guarded(u, g) && Guarded(v, g)
    ensures Guarded(MeetValue(u, v), g)
  {
    var d := MeetValue(u, v).preserveShape;
    forall i | 0 <= i < |d| ensures ProperBound(d[i].lower) && ProperBound(d[i].upper) {
      assert ProperBound(u.preserveShape[i].lower) && ProperBound(u.preserveShape[i].upper);
    }
  }

  lemma MeetIsKeyed(guards: map<string, Sources>, a: State, b: State)
    requires a in Keyed(guards) && b in Keyed(guards)
    ensures MeetState(a, b) in Keyed(guards)
  {
    forall key <- guards ensures Guarded(MeetKey(a, b, key), guards[key]) { MeetIsGuarded(a[key], b[key], guards[key]); }
  }

  lemma KeyedIsHarmless(guards: map<string, Sources>)
    ensures Harmless(Keyed(guards))
  {
    forall u <- Keyed(guards), v <- Keyed(guards), key | key in u && key in v ensures OneSource(u[key], v[key]) {
      assert Guarded(u[key], guards[key]) && Guarded(v[key], guards[key]);
    }
  }

  /** With the same variables and one source each, lanes are independent. */
  lemma OneSourceAbsorbs(guards: map<string, Sources>)
    ensures Closed(MeetState, Keyed(guards)) && Absorbing(MeetState, Keyed(guards)) && IndependentOn(MeetState, Keyed(guards))
  {
    forall a <- Keyed(guards), b <- Keyed(guards) ensures MeetState(a, b) in Keyed(guards) { MeetIsKeyed(guards, a, b); }
    KeyedIsHarmless(guards);
    AbsorbsIffHarmless(Keyed(guards));
    IndependentIffHarmless(Keyed(guards));
  }

  // ---- Their walks end -------------------------------------------------------------------

  function Bit(b: bool): nat { if b then 1 else 0 }

  function AllocatingRank(v: Allocating): nat {
    Bit(v.kind != Unknown) + Bit(v.knownArray) + Bit(v.objectValue) + Bit(v.failureFlag != NO_FLAG) + Bit(v.dimensions != []) +
    Bit(v.origin != OriginUnknown) + Bit(v.boundsProof != NO_PROOF)
  }

  function NamedRank(v: Named): nat {
    Bit(v.allocationProbe != "") + Bit(v.safeBoundProbe != "") + Bit(v.allocationCountSource != "") +
    Bit(v.returnNonEmptyArrayParameter != "") + Bit(v.returnPositiveScalarParameter != "") + Bit(v.nonEmptySource != "") +
    Bit(v.descriptor != NO_DESCRIPTOR)
  }

  function DoubtsRank(v: Doubts): nat { Bit(!v.mayBeEmpty) + Bit(!v.mayBeUnallocated) + Bit(!v.resumeBoundsFailurePossible) }

  function DimensionRank(): Dimension -> nat { (d: Dimension) => 1 + Bit(d.lower != NO_BOUND) + Bit(d.upper != NO_BOUND) }

  function ValueRank(v: Value): nat {
    AllocatingRank(v.allocating) + NamedRank(v.named) + DoubtsRank(v.doubts) + Sum(v.preserveShape, DimensionRank()) +
    Bit(v.conditionalAllocationSource == "") + Bit(v.allocationFlagSource == "")
  }

  lemma AllocatingFalls(u: Allocating, v: Allocating)
    ensures MeetAllocating(u, v) == u || AllocatingRank(MeetAllocating(u, v)) < AllocatingRank(u)
  {
  }

  lemma NamedFalls(u: Named, v: Named)
    ensures MeetNamed(u, v) == u || NamedRank(MeetNamed(u, v)) < NamedRank(u)
  {
  }

  lemma ShapeFalls(u: seq<Dimension>, v: seq<Dimension>)
    ensures MeetShape(u, v) == u || Sum(MeetShape(u, v), DimensionRank()) < Sum(u, DimensionRank())
  {
    var m := MeetShape(u, v);
    if m != u {
      if |u| != |v| {
        SumAtLeast(u, 0, DimensionRank());
      } else {
        var i :| 0 <= i < |u| && m[i] != u[i];
        SumLessPointwise(m, u, i, DimensionRank());
      }
    }
  }

  lemma SourceFalls(u: string, v: string, source: string)
    requires u in {"", source} && v in {"", source}
    ensures MeetSource(u, v) == u || Bit(MeetSource(u, v) == "") < Bit(u == "")
  {
  }

  lemma DoubtsFall(u: Doubts, v: Doubts)
    ensures MeetDoubts(u, v) == u || DoubtsRank(MeetDoubts(u, v)) < DoubtsRank(u)
  {
  }

  lemma ValueFalls(u: Value, v: Value, g: Sources)
    requires Guarded(u, g) && Guarded(v, g)
    ensures MeetValue(u, v) == u || ValueRank(MeetValue(u, v)) < ValueRank(u)
  {
    AllocatingFalls(u.allocating, v.allocating);
    NamedFalls(u.named, v.named);
    ShapeFalls(u.preserveShape, v.preserveShape);
    DoubtsFall(u.doubts, v.doubts);
    SourceFalls(u.conditionalAllocationSource, v.conditionalAllocationSource, g.condition);
    SourceFalls(u.allocationFlagSource, v.allocationFlagSource, g.flag);
  }

  function KeyRank(s: State): string -> nat { key => if key in s then ValueRank(s[key]) else 0 }

  function StateRank(keys: seq<string>): State -> nat { s => Sum(keys, KeyRank(s)) }

  ghost predicate Lists(guards: map<string, Sources>, keys: seq<string>) { forall key <- guards :: key in keys }

  lemma KeyFalls(guards: map<string, Sources>, a: State, b: State, key: string)
    requires a in Keyed(guards) && b in Keyed(guards)
    ensures var m := MeetState(a, b);
      KeyRank(m)(key) <= KeyRank(a)(key) && (key in a && m[key] != a[key] ==> KeyRank(m)(key) < KeyRank(a)(key))
  {
    if key in guards { ValueFalls(a[key], b[key], guards[key]); }
  }

  lemma Differing(u: State, v: State) returns (key: string)
    requires u.Keys == v.Keys && u != v
    ensures key in u && u[key] != v[key]
  {
    key :| key in u && u[key] != v[key];
  }

  lemma StateFalls(guards: map<string, Sources>, keys: seq<string>, a: State, b: State)
    requires Lists(guards, keys) && a in Keyed(guards) && b in Keyed(guards)
    ensures MeetState(a, b) == a || Sum(keys, KeyRank(MeetState(a, b))) < Sum(keys, KeyRank(a))
  {
    var m := MeetState(a, b);
    if m != a {
      var key := Differing(m, a);
      KeyFalls(guards, a, b, key);
      var i :| 0 <= i < |keys| && keys[i] == key;
      forall j | 0 <= j < |keys| ensures KeyRank(m)(keys[j]) <= KeyRank(a)(keys[j]) { KeyFalls(guards, a, b, keys[j]); }
      SumLess(keys, i, KeyRank(m), KeyRank(a));
    }
  }

  lemma KeyedDescends(guards: map<string, Sources>, keys: seq<string>)
    requires Lists(guards, keys)
    ensures Descends(MeetState, Keyed(guards), StateRank(keys))
  {
    forall a <- Keyed(guards), b <- Keyed(guards)
      ensures MeetState(a, b) == a || StateRank(keys)(MeetState(a, b)) < StateRank(keys)(a)
    {
      StateFalls(guards, keys, a, b);
    }
  }

  lemma {:induction false} ListKeys(names: set<string>) returns (keys: seq<string>)
    ensures forall name <- names :: name in keys
  {
    if names == {} { keys := []; }
    else {
      var name := Missing(names, {});
      var rest := ListKeys(names - {name});
      keys := rest + [name];
    }
  }

  lemma {:induction false} ListAllKeys(guards: seq<map<string, Sources>>) returns (lists: seq<seq<string>>)
    ensures |lists| == |guards| && forall i :: 0 <= i < |guards| ==> Lists(guards[i], lists[i])
  {
    if guards == [] { return []; }
    var n := |guards| - 1;
    var front := ListAllKeys(guards[..n]);
    var last := ListKeys(guards[n].Keys);
    lists := front + [last];
  }

  /** Each lane has its own variables and sources: the walks end, and the shared queue gives each lane what its own walk gives it. */
  lemma GuardedLanesAgree(lanes: seq<Lane<State>>, lines: seq<string>, guards: seq<map<string, Sources>>)
    returns (pops: nat, ends: seq<nat>)
    requires |guards| == |lanes| && forall i :: 0 <= i < |lanes| ==> StaysIn(lanes[i], lines, Keyed(guards[i]))
    ensures Together(MeetState, lanes, lines, pops).queued == {} && |ends| == |lanes|
    ensures forall i :: 0 <= i < |lanes| ==>
      Alone(MeetState, lanes[i], lines, ends[i]) == Progress(Together(MeetState, lanes, lines, pops).states[i], {})
  {
    var spaces := seq(|lanes|, i requires 0 <= i < |lanes| => Keyed(guards[i]));
    var lists := ListAllKeys(guards);
    var ranks := seq(|lanes|, i requires 0 <= i < |lanes| => StateRank(lists[i]));
    forall i | 0 <= i < |lanes| ensures Descends(MeetState, spaces[i], ranks[i]) { KeyedDescends(guards[i], lists[i]); }
    forall i | 0 <= i < |lanes| ensures Steady(MeetState, lanes[i], lines, spaces[i]) {
      OneSourceAbsorbs(guards[i]);
    }
    pops, ends := WalksEndAndAgree(MeetState, lanes, lines, spaces, ranks);
  }

  /** The lane's own walk ends in these states. */
  ghost predicate EndsWith(lane: Lane<State>, lines: seq<string>, states: map<int, State>) {
    exists n: nat :: Alone(MeetState, lane, lines, n) == Progress(states, {})
  }

  /** The combined walk over the real merge ends, and returns to each lane what its own walk ends with. */
  method WalkGuardedLanes(lines: seq<string>, lanes: seq<Lane<State>>, ghost guards: seq<map<string, Sources>>)
    returns (states: seq<map<int, State>>)
    requires |guards| == |lanes| && forall i :: 0 <= i < |lanes| ==> StaysIn(lanes[i], lines, Keyed(guards[i]))
    ensures |states| == |lanes| && forall i :: 0 <= i < |lanes| ==> EndsWith(lanes[i], lines, states[i])
  {
    ghost var pops, ends := GuardedLanesAgree(lanes, lines, guards);
    states := WalkArrayCFGCombined(MeetState, lines, lanes, pops);
    forall i | 0 <= i < |lanes| ensures EndsWith(lanes[i], lines, states[i]) {
      assert Alone(MeetState, lanes[i], lines, ends[i]) == Progress(states[i], {});
    }
  }

  // ---- What a block knows --------------------------------------------------------------------

  predicate Any(s: State) { true }

  ghost function AnyState(): iset<State> { iset s: State | Any(s) }

  /** A block claims something of a variable exactly when every state the lane has sent there claims it. */
  lemma ClaimAtBlock(lanes: seq<Lane<State>>, lines: seq<string>, i: nat, n: nat, b: int, key: string, c: Claim)
    requires i < |lanes| && b in Together(MeetState, lanes, lines, n).states[i] && Substantial(c)
    ensures Says(Together(MeetState, lanes, lines, n).states[i][b], key, c) <==>
      forall s <- Arrived(Sent(MeetState, lanes, lines, i, n), b) :: Says(s, key, c)
  {
    forall u, v ensures Says(MeetState(u, v), key, c) <==> Says(u, key, c) && Says(v, key, c) { MeetClaims(u, v, key, c); }
    FactAtBlock(MeetState, lanes, lines, AnyState(), s => Says(s, key, c), i, n, b);
  }

  ghost function KnowsAll(names: set<string>): iset<State> { iset s: State | s.Keys == names }

  /** Among states over the same variables a block fears what some state sent there fears. */
  lemma FearAtBlock(lanes: seq<Lane<State>>, lines: seq<string>, names: set<string>, i: nat, n: nat, b: int, key: string, d: Doubt)
    requires i < |lanes| && b in Together(MeetState, lanes, lines, n).states[i] && StaysIn(lanes[i], lines, KnowsAll(names))
    ensures Fears(Together(MeetState, lanes, lines, n).states[i][b], key, d) <==>
      exists s <- Arrived(Sent(MeetState, lanes, lines, i, n), b) :: Fears(s, key, d)
  {
    forall u, v | u in KnowsAll(names) && v in KnowsAll(names)
      ensures MeetState(u, v) in KnowsAll(names) && (Fears(MeetState(u, v), key, d) <==> Fears(u, key, d) || Fears(v, key, d))
    {
      MeetFears(u, v, key, d);
    }
    SentStays(MeetState, lanes, lines, KnowsAll(names), i, n);
    ArrivedWithin(Sent(MeetState, lanes, lines, i, n), KnowsAll(names), b);
    FactAtBlock(MeetState, lanes, lines, KnowsAll(names), s => !Fears(s, key, d), i, n, b);
  }

  /** What the end of a walk claims behind a fault was claimed before the block that may have faulted. */
  lemma ClaimSurvivesFault(lanes: seq<Lane<State>>, lines: seq<string>, space: iset<State>, n: nat, i: nat, id: int, j: nat,
        key: string, c: Claim)
    requires i < |lanes| && Steady(MeetState, lanes[i], lines, space) && Together(MeetState, lanes, lines, n).queued == {}
    requires id in Together(MeetState, lanes, lines, n).states[i] && Substantial(c)
    requires Leaves(lanes[i], lines, id, Together(MeetState, lanes, lines, n).states[i][id], j)
    requires var e := Outgoing(lanes[i].graph.value, id)[j];
      (e.exceptional || e.uncertain) && !Reliable(lanes[i], lines, id, Together(MeetState, lanes, lines, n).states[i][id], e)
    ensures var states, target := Together(MeetState, lanes, lines, n).states[i], Outgoing(lanes[i].graph.value, id)[j].target;
      target in states && (Says(states[target], key, c) ==> Says(states[id], key, c))
  {
    var states := Together(MeetState, lanes, lines, n).states[i];
    var target := Outgoing(lanes[i].graph.value, id)[j].target;
    FaultsAreAbsorbed(MeetState, lanes, lines, space, n, i, id, j);
    MeetClaims(states[target], states[id], key, c);
  }
}
