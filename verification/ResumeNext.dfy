/**
 Scopes opened by `On Error Resume Next` (VBA214): one statement's effect on what the scope has
 executed so far, the text key that stands for a state, and the search over all paths.
 */
module ResumeNext {
  import opened Wrappers
  import opened ConditionalCompilation
  import Count = ConditionalCount
  import opened Text

  // ---- Procedures ----------------------------------------------------------------------

  datatype Kind = Assignment | Set | Declaration | Label | End | If | Else | OtherControl | OtherKind

  /** The two assignments of an array-bounds probe. */
  datatype BoundsShape = NoBounds | LowerBound(arrayName: string, lower: string)
        | Length(arrayName: string, lower: string)

  /** A statement with what its own text and calls decide. */
  datatype Statement = Statement(
    id: int, line: int, kind: Kind, parent: int, recovered: bool,
    restores: bool, resumes: bool, path: seq<Branch>,
    target: string, bounds: BoundsShape,
    safeInitialization: bool, safeLiteral: bool, safeFallback: bool, unsafeValue: bool,
    call: bool, projectCall: bool, conditionCall: bool, errProbe: bool, errCheck: bool)

  datatype EdgeKind = ErrorEdge | ProcedureExit | OtherEdge

  datatype Edge = Edge(source: int, target: int, exceptional: bool, kind: EdgeKind, line: int)

  datatype Procedure = Procedure(
    blocks: seq<Option<Statement>>, edges: seq<Edge>,
    normalExit: int, exceptionalExit: int, terminationExit: int, unknownExit: int,
    endLine: int, ifStatements: set<int>)

  /** Facts about the compatibility probe the scope may be. */
  datatype Probe = Probe(
    target: string, boundsArray: string, lowerTarget: string, resultTarget: string,
    lowerFallback: bool, resultFallback: bool, errCheckParent: int,
    fallbackUsed: bool, inspectionUsed: bool, coercionUsed: bool)

  datatype State = State(
    block: int, counter: Counter, controlFlow: bool, call: bool, projectCall: bool, unrestored: bool, probe: Probe)

  /** What the probe recognisers answer about a statement in a state. */
  datatype Signs = Signs(
    memberProbe: bool, projectProbe: bool, coercionProbe: bool, inspection: bool, errorBranch: bool, statusBranch: bool)

  type Judge = (State, Statement) -> Signs

  const NO_PROBE := Probe("", "", "", "", false, false, 0, false, false, false)

  function Entered(block: int): State {
    State(block, Counter(0, false, []), false, false, false, false, NO_PROBE)
  }

  function Bit(b: bool, weight: nat): nat { if b then weight else 0 }

  /** The flag byte. */
  function Flags(s: State): nat {
    Bit(s.counter.multiple, 1) + Bit(s.controlFlow, 2) + Bit(s.call, 4) + Bit(s.projectCall, 8) + Bit(s.unrestored, 16)
  }

  const UNRESTORED := 16

  // ---- One statement -------------------------------------------------------------------

  function Recorded(s: State): State { s.(counter := Record(s.counter)) }

  predicate Assigns(x: Statement) { x.kind.Assignment? || x.kind.Set? }

  predicate ContinuesBounds(s: State, x: Statement) {
    && !x.recovered && s.probe.boundsArray != "" && s.probe.lowerTarget != "" && s.probe.resultTarget == ""
    && Current(s.counter) == 1 && Assigns(x)
    && x.bounds == Length(s.probe.boundsArray, s.probe.lowerTarget)
    && x.target != "" && x.target != s.probe.lowerTarget
  }

  /** The flags a statement raises when no probe covers it. */
  function Risk(s: State, x: Statement, covered: bool): State {
    if covered then s
    else s.(call := s.call || x.call || x.conditionCall || x.unsafeValue, projectCall := s.projectCall || x.projectCall)
  }

  predicate FallsBackOnBounds(s: State, x: Statement, j: Signs) {
    && s.probe.boundsArray != "" && s.probe.lowerTarget != "" && s.probe.resultTarget != ""
    && s.probe.errCheckParent != 0 && Current(s.counter) == 1 && j.errorBranch && Assigns(x) && x.safeLiteral
  }

  predicate LowerFallback(s: State, x: Statement, j: Signs) {
    FallsBackOnBounds(s, x, j) && x.target == s.probe.lowerTarget && !s.probe.lowerFallback
  }

  predicate ResultFallback(s: State, x: Statement, j: Signs) {
    FallsBackOnBounds(s, x, j) && !LowerFallback(s, x, j) && x.target == s.probe.resultTarget && !s.probe.resultFallback
  }

  predicate FallsBack(s: State, x: Statement, j: Signs) {
    && !s.probe.fallbackUsed && s.probe.resultTarget == "" && s.probe.errCheckParent != 0 && s.probe.target != ""
    && Current(s.counter) == 1 && (j.errorBranch || j.statusBranch) && Assigns(x)
    && ((x.target == s.probe.target && x.safeFallback) || j.statusBranch)
  }

  predicate Unremarkable(p: Procedure, s: State, x: Statement) {
    || (s.probe.errCheckParent != 0 && x.kind.Else? && x.parent == s.probe.errCheckParent && s.probe.errCheckParent in p.ifStatements)
    || x.kind.Declaration? || x.kind.Label? || x.kind.End?
  }

  /** A statement that nothing else explains is an operation; the first one may start a probe. */
  function Operation(s: State, x: Statement): State {
    var r := Recorded(s);
    if Current(s.counter) == 0 && s.probe.target == "" then
      var q := r.probe.(target := x.target);
      r.(probe := if x.bounds.LowerBound? then q.(boundsArray := x.bounds.arrayName, lowerTarget := x.bounds.lower) else q)
    else r
  }

  /** A value stored in the error branch in place of what the probe did not deliver. */
  function FallenBack(s: State, x: Statement, j: Signs): Option<State> {
    if LowerFallback(s, x, j) then Some(s.(probe := s.probe.(lowerFallback := true), call := false))
    else if ResultFallback(s, x, j) then Some(s.(probe := s.probe.(resultFallback := true), call := false))
    else if FallsBack(s, x, j) then Some(s.(probe := s.probe.(fallbackUsed := true), call := s.call && x.projectCall))
    else None
  }

  /** The statement after its risk has been taken into account. */
  function Explain(p: Procedure, judge: Judge, s: State, x: Statement, inspects: bool): State {
    if x.errProbe then
      if !x.conditionCall && x.errCheck then s.(probe := s.probe.(errCheckParent := x.id)) else s
    else if FallenBack(s, x, judge(s, x)).Some? then FallenBack(s, x, judge(s, x)).value
    else if inspects then s.(probe := s.probe.(inspectionUsed := true), call := false)
    else if Unremarkable(p, s, x) then s
    else if x.kind.If? || x.kind.Else? || x.kind.OtherControl? then s.(controlFlow := true)
    else Operation(s, x)
  }

  function Synced(s: State, x: Statement): State {
    s.(counter := Sync(s.counter, x.path))
  }

  /** Probes first, then risk, then what remains. */
  function Probed(p: Procedure, judge: Judge, s: State, x: Statement): State {
    var j := judge(s, x);
    if j.memberProbe then Recorded(s)
    else
      var projectProbe := x.projectCall && j.projectProbe;
      var coercion := x.call && !x.projectCall && j.coercionProbe;
      var t := if coercion then s.(probe := s.probe.(coercionUsed := true)) else s;
      if ContinuesBounds(t, x) then t.(probe := t.probe.(resultTarget := x.target, target := x.target))
      else
        var inspects := !t.probe.inspectionUsed && !x.projectCall && judge(t, x).inspection;
        var covered := inspects || projectProbe || coercion || (x.errProbe && !x.conditionCall);
        Explain(p, judge, Risk(t, x, covered), x, inspects)
  }

  function Apply(p: Procedure, judge: Judge, before: State, x: Statement): State {
    var s := Synced(before, x);
    if x.resumes || (Current(s.counter) == 0 && x.safeInitialization) then s else Probed(p, judge, s, x)
  }

  // ---- Paths and outcomes --------------------------------------------------------------

  datatype Outcome = Outcome(endLine: int, flags: nat)

  predicate IsExit(p: Procedure, b: int) {
    b == p.normalExit || b == p.exceptionalExit || b == p.terminationExit || b == p.unknownExit
  }

  function StatementAt(p: Procedure, b: int): Option<Statement> {
    if 0 < b <= |p.blocks| then p.blocks[b - 1] else None
  }

  function EndLine(p: Procedure, e: Edge): int {
    if e.target == p.normalExit && !e.kind.ProcedureExit? then p.endLine
    else if e.line > 0 then e.line
    else p.endLine
  }

  /** An exceptional edge continues the scope only when it is an error edge beside a normal one. */
  ghost predicate Followed(p: Procedure, e: Edge) {
    e.exceptional ==>
      e.kind.ErrorEdge? && exists n <- p.edges :: n.source == e.source && n.target == e.target && !n.exceptional
  }

  /** The scope is still open after the statement of the state's block. */
  predicate GoesOn(p: Procedure, s: State) {
    var x := StatementAt(p, s.block);
    x.Some? && !x.value.restores
  }

  function After(p: Procedure, judge: Judge, s: State): State
    requires GoesOn(p, s)
  {
    Apply(p, judge, s, StatementAt(p, s.block).value)
  }

  /** The state at the end of a path: its first edge leaves `start`, every other one its predecessor. */
  ghost function Along(p: Procedure, judge: Judge, start: int, path: seq<Edge>): Option<State>
    decreases |path|
  {
    if path == [] then None
    else
      var e := path[|path| - 1];
      if e !in p.edges || IsExit(p, e.target) then None
      else if |path| == 1 then
        if e.source == start && !e.exceptional then Some(Entered(e.target)) else None
      else
        var s := Along(p, judge, start, path[..|path| - 1]);
        if s.Some? && GoesOn(p, s.value) && e.source == s.value.block && Followed(p, e)
        then Some(After(p, judge, s.value).(block := e.target))
        else None
  }

  ghost predicate Visits(p: Procedure, judge: Judge, start: int, s: State) {
    exists path :: Along(p, judge, start, path) == Some(s)
  }

  /** An outcome reported when the scope stands in `s`. */
  ghost predicate EndsAt(p: Procedure, judge: Judge, s: State, o: Outcome) {
    var x := StatementAt(p, s.block);
    && x.Some?
    && if x.value.restores then Flags(s) != 0 && o == Outcome(x.value.line, Flags(s))
       else exists e <- p.edges ::
         && e.source == s.block && Followed(p, e) && IsExit(p, e.target)
         && o == Outcome(EndLine(p, e), Flags(After(p, judge, s).(unrestored := true)))
  }

  /** The outcomes of all finite paths: straight into an exit, or through any visited state. */
  ghost predicate HasOutcome(p: Procedure, judge: Judge, start: int, o: Outcome) {
    || (exists e <- p.edges :: e.source == start && !e.exceptional && IsExit(p, e.target) && o == Outcome(EndLine(p, e), UNRESTORED))
    || (exists s :: Visits(p, judge, start, s) && EndsAt(p, judge, s, o))
  }

  // ---- Well-formed procedures ----------------------------------------------------------

  predicate IdentifierChar(c: char) {
    'a' <= c <= 'z' || 'A' <= c <= 'Z' || '0' <= c <= '9' || c == '_'
  }

  predicate Identifier(t: string) { forall c <- t :: IdentifierChar(c) }

  /** Names are identifiers, groups are byte offsets in decimal, numbers count from zero. */
  predicate WellFormedStatement(x: Statement) {
    && x.id >= 0 && Identifier(x.target)
    && (x.bounds.NoBounds? || (Identifier(x.bounds.arrayName) && Identifier(x.bounds.lower)))
    && forall b <- x.path :: Identifier(b.group) && b.branch >= 0
  }

  predicate WellFormed(p: Procedure) {
    && (forall e <- p.edges :: e.target >= 0)
    && (forall x <- p.blocks :: x.Some? ==> WellFormedStatement(x.value))
  }

  // ---- Finitely many states ------------------------------------------------------------

  function Statements(p: Procedure): set<Statement> {
    set x <- p.blocks | x.Some? :: x.value
  }

  function Names(p: Procedure): set<string> {
    {""} + (set x <- Statements(p) :: x.target)
    + (set x <- Statements(p) | !x.bounds.NoBounds? :: x.bounds.arrayName)
    + (set x <- Statements(p) | !x.bounds.NoBounds? :: x.bounds.lower)
  }

  function Ids(p: Procedure): set<int> { {0} + (set x <- Statements(p) :: x.id) }

  function Paths(p: Procedure): set<seq<Branch>> { {[]} + (set x <- Statements(p) :: x.path) }

  function Targets(p: Procedure): set<int> { set e <- p.edges :: e.target }

  /** All frame stacks that stand for one branch path. */
  function Stacks(path: seq<Branch>): set<seq<Frame>> {
    if path == [] then {[]}
    else
      var b := path[|path| - 1];
      set fs <- Stacks(path[..|path| - 1]), base, ops, best | 0 <= base <= 2 && 0 <= ops <= 2 && 0 <= best <= 2 ::
        fs + [Frame(b.group, b.branch, base, ops, best)]
  }

  ghost predicate Mirrors(fs: seq<Frame>, path: seq<Branch>) {
    |fs| == |path| && forall i :: 0 <= i < |fs| ==> Branch(fs[i].group, fs[i].branch) == path[i]
  }

  ghost predicate SmallCounter(p: Procedure, c: Counter) {
    Count.Small(c) && exists path <- Paths(p) :: Mirrors(c.frames, path)
  }

  ghost predicate KnownProbe(names: set<string>, ids: set<int>, q: Probe) {
    q.target in names && q.boundsArray in names && q.lowerTarget in names && q.resultTarget in names && q.errCheckParent in ids
  }

  ghost predicate KnownStatement(names: set<string>, ids: set<int>, x: Statement) {
    x.target in names && x.id in ids && (x.bounds.NoBounds? || (x.bounds.arrayName in names && x.bounds.lower in names))
  }

  /** What every state of a search looks like. */
  ghost predicate Possible(p: Procedure, s: State) {
    s.block in Targets(p) && SmallCounter(p, s.counter) && KnownProbe(Names(p), Ids(p), s.probe)
  }

  function Counters(p: Procedure): set<Counter> {
    set n, m: bool, path, fs | 0 <= n <= 2 && path in Paths(p) && fs in Stacks(path) :: Counter(n, m, fs)
  }

  function Probes(p: Procedure): set<Probe> {
    set t <- Names(p), a <- Names(p), l <- Names(p), r <- Names(p), i <- Ids(p), b: bool, c: bool, d: bool, e: bool, f: bool ::
      Probe(t, a, l, r, b, c, i, d, e, f)
  }

  function Universe(p: Procedure): set<State> {
    set n <- Targets(p), c <- Counters(p), q <- Probes(p), e: bool, f: bool, g: bool, h: bool :: State(n, c, e, f, g, h, q)
  }

  lemma {:induction false} StackListed(fs: seq<Frame>, path: seq<Branch>)
    requires Mirrors(fs, path) && forall f <- fs :: f.base <= 2 && f.ops <= 2 && f.best <= 2
    ensures fs in Stacks(path)
  {
    if path != [] {
      var n := |path| - 1;
      StackListed(fs[..n], path[..n]);
      assert fs == fs[..n] + [Frame(path[n].group, path[n].branch, fs[n].base, fs[n].ops, fs[n].best)];
    }
  }

  lemma PossibleIsListed(p: Procedure, s: State)
    requires Possible(p, s)
    ensures s in Universe(p)
  {
    var c, q := s.counter, s.probe;
    var path :| path in Paths(p) && Mirrors(c.frames, path);
    StackListed(c.frames, path);
    assert c == Counter(c.operations, c.multiple, c.frames) && c in Counters(p);
    assert q in Probes(p);
  }

  // ---- A statement keeps the state possible --------------------------------------------

  lemma {:induction false} CommonMatches(fs: seq<Frame>, path: seq<Branch>)
    ensures Common(fs, path) <= |fs| && Common(fs, path) <= |path|
    ensures forall i :: 0 <= i < Common(fs, path) ==> Branch(fs[i].group, fs[i].branch) == path[i]
  {
    if fs != [] && path != [] { CommonMatches(fs[1..], path[1..]); }
  }

  /** After synchronising, the frames stand for exactly the statement's branch path. */
  lemma SyncMirrors(c: Counter, path: seq<Branch>)
    requires Count.Small(c)
    ensures Count.Small(Sync(c, path)) && Mirrors(Sync(c, path).frames, path)
  {
    var n := Common(c.frames, path);
    CommonMatches(c.frames, path);
    Count.UnwindIs(c, n, path);
    var m := if SameGroupAt(c, n, path) then n + 1 else n;
    Count.CommitToShape(c, m);
    var d := Switch(Count.CommitTo(c, m), n, path);
    Count.ExtendVia(d, path, path);
    assert forall i :: 0 <= i < |d.frames| ==> Branch(d.frames[i].group, d.frames[i].branch) == path[i];
  }

  lemma RecordKeeps(p: Procedure, c: Counter)
    requires SmallCounter(p, c)
    ensures SmallCounter(p, Record(c))
  {
    Count.RecordGrows(c);
    var path :| path in Paths(p) && Mirrors(c.frames, path);
    assert Mirrors(Record(c).frames, path);
  }

  /** At most one operation more, and only names and numbers of the procedure. */
  ghost predicate Follows(names: set<string>, ids: set<int>, s: State, r: State) {
    r.block == s.block && (r.counter == s.counter || r.counter == Record(s.counter)) && KnownProbe(names, ids, r.probe)
  }

  lemma ExplainFollows(names: set<string>, ids: set<int>, p: Procedure, judge: Judge, s: State, x: Statement,
        inspects: bool)
    requires KnownProbe(names, ids, s.probe) && KnownStatement(names, ids, x)
    ensures Follows(names, ids, s, Explain(p, judge, s, x, inspects))
  {
    FallenBackFollows(names, ids, s, x, judge(s, x));
    OperationFollows(names, ids, s, x);
  }

  lemma FallenBackFollows(names: set<string>, ids: set<int>, s: State, x: Statement, j: Signs)
    requires KnownProbe(names, ids, s.probe)
    ensures FallenBack(s, x, j).Some? ==> Follows(names, ids, s, FallenBack(s, x, j).value)
  {
    FlagsKeepNames(names, ids, s.probe);
    if FallenBack(s, x, j).Some? {
      var r := FallenBack(s, x, j).value;
      assert r.block == s.block && r.counter == s.counter;
      assert r.probe in {s.probe.(lowerFallback := true), s.probe.(resultFallback := true), s.probe.(fallbackUsed := true)};
    }
  }

  lemma FlagsKeepNames(names: set<string>, ids: set<int>, q: Probe)
    requires KnownProbe(names, ids, q)
    ensures KnownProbe(names, ids, q.(lowerFallback := true)) && KnownProbe(names, ids, q.(resultFallback := true))
    ensures KnownProbe(names, ids, q.(fallbackUsed := true))
  {
  }

  lemma OperationFollows(names: set<string>, ids: set<int>, s: State, x: Statement)
    requires KnownProbe(names, ids, s.probe) && KnownStatement(names, ids, x)
    ensures Follows(names, ids, s, Operation(s, x))
  {
  }

  lemma ProbedFollows(names: set<string>, ids: set<int>, p: Procedure, judge: Judge, s: State, x: Statement)
    requires KnownProbe(names, ids, s.probe) && KnownStatement(names, ids, x)
    ensures Follows(names, ids, s, Probed(p, judge, s, x))
  {
    forall t: State, covered: bool, inspects: bool | t.counter == s.counter && t.block == s.block && KnownProbe(names, ids, t.probe)
      ensures Follows(names, ids, s, Explain(p, judge, Risk(t, x, covered), x, inspects))
    {
      ExplainFollows(names, ids, p, judge, Risk(t, x, covered), x, inspects);
    }
  }

  lemma ApplyKeeps(p: Procedure, judge: Judge, s: State, x: Statement)
    requires Possible(p, s) && x in Statements(p)
    ensures Possible(p, Apply(p, judge, s, x))
  {
    var t := Synced(s, x);
    SyncMirrors(s.counter, x.path);
    assert x.path in Paths(p);
    RecordKeeps(p, t.counter);
    KnownStatements(p, x);
    ProbedFollows(Names(p), Ids(p), p, judge, t, x);
  }

  lemma KnownStatements(p: Procedure, x: Statement)
    requires x in Statements(p)
    ensures KnownStatement(Names(p), Ids(p), x)
  {
  }

  // ---- Keys ----------------------------------------------------------------------------

  function FrameParts(f: Frame): seq<string> {
    [f.group, Itoa(f.branch), Itoa(f.base), Itoa(f.ops), Itoa(f.best)]
  }

  function FramesParts(fs: seq<Frame>): seq<string> {
    if fs == [] then [] else FramesParts(fs[..|fs| - 1]) + FrameParts(fs[|fs| - 1])
  }

  function FactParts(s: State): seq<string> {
    var q := s.probe;
    [Itoa(s.block), Itoa(s.counter.operations), Itoa(Flags(s)),
     q.target, q.boundsArray, q.lowerTarget, q.resultTarget,
     Itoa(Bit(q.lowerFallback, 1) + Bit(q.resultFallback, 2)), Itoa(q.errCheckParent),
     Itoa(Bit(q.fallbackUsed, 1)), Itoa(Bit(q.inspectionUsed, 1)), Itoa(Bit(q.coercionUsed, 1))]
  }

  function StateKey(s: State): string {
    Join(FactParts(s) + FramesParts(s.counter.frames), ':')
  }

  method ResumeNextScopeStateKey(s: State) returns (key: string)
    ensures key == StateKey(s)
  {
    var q := s.probe;
    var parts := [
      Itoa(s.block), Itoa(s.counter.operations), Itoa(Flags(s)),
      q.target, q.boundsArray, q.lowerTarget, q.resultTarget,
      Itoa(Bit(q.lowerFallback, 1) + Bit(q.resultFallback, 2)), Itoa(q.errCheckParent),
      if q.fallbackUsed then "1" else "0", if q.inspectionUsed then "1" else "0", if q.coercionUsed then "1" else "0"];
    assert parts == FactParts(s) by { assert Itoa(1) == "1" by { assert Digits(0) == ""; } }
    var fs := s.counter.frames;
    for i := 0 to |fs|
      invariant parts == FactParts(s) + FramesParts(fs[..i])
    {
      assert fs[..i + 1][..i] == fs[..i];
      parts := parts + [fs[i].group, Itoa(fs[i].branch), Itoa(fs[i].base), Itoa(fs[i].ops), Itoa(fs[i].best)];
    }
    assert fs[..|fs|] == fs;
    key := Join(parts, ':');
  }

  /** Texts without the separator and numbers that print. */
  ghost predicate Printable(s: State) {
    && s.block >= 0 && s.probe.errCheckParent >= 0
    && Free(s.probe.target, ':') && Free(s.probe.boundsArray, ':') && Free(s.probe.lowerTarget, ':') && Free(s.probe.resultTarget, ':')
    && forall f <- s.counter.frames :: Free(f.group, ':') && f.branch >= 0
  }

  lemma DigitsAreFree(v: int)
    ensures Free(Itoa(v), ':')
  {
    if v > 0 { ItoaInjective(v, v); }
  }

  lemma {:induction false} FramesPartsFree(fs: seq<Frame>)
    requires forall f <- fs :: Free(f.group, ':')
    ensures AllFree(FramesParts(fs), ':') && |FramesParts(fs)| == 5 * |fs|
  {
    if fs != [] {
      var f := fs[|fs| - 1];
      FramesPartsFree(fs[..|fs| - 1]);
      DigitsAreFree(f.branch); DigitsAreFree(f.base); DigitsAreFree(f.ops); DigitsAreFree(f.best);
    }
  }

  lemma FactPartsFree(s: State)
    requires Printable(s)
    ensures AllFree(FactParts(s), ':')
  {
    forall t <- FactParts(s) ensures Free(t, ':') {
      DigitsAreFree(s.block); DigitsAreFree(s.counter.operations); DigitsAreFree(Flags(s)); DigitsAreFree(s.probe.errCheckParent);
      DigitsAreFree(Bit(s.probe.lowerFallback, 1) + Bit(s.probe.resultFallback, 2));
      DigitsAreFree(Bit(s.probe.fallbackUsed, 1));
      DigitsAreFree(Bit(s.probe.inspectionUsed, 1));
      DigitsAreFree(Bit(s.probe.coercionUsed, 1));
    }
  }

  lemma FramePartsDetermine(f: Frame, g: Frame)
    requires f.branch >= 0 && g.branch >= 0 && FrameParts(f) == FrameParts(g)
    ensures f == g
  {
    assert FrameParts(f)[0] == FrameParts(g)[0] && FrameParts(f)[1] == FrameParts(g)[1] && FrameParts(f)[2] == FrameParts(g)[2]
        && FrameParts(f)[3] == FrameParts(g)[3] && FrameParts(f)[4] == FrameParts(g)[4];
    ItoaInjective(f.branch, g.branch);
    ItoaInjective(f.base, g.base);
    ItoaInjective(f.ops, g.ops);
    ItoaInjective(f.best, g.best);
  }

  ghost predicate PrintableFrames(fs: seq<Frame>) { forall i :: 0 <= i < |fs| ==> Free(fs[i].group, ':') && fs[i].branch >= 0 }

  lemma LastFrame(fs: seq<Frame>)
    requires fs != [] && PrintableFrames(fs)
    ensures var n := |fs| - 1; var p := FramesParts(fs);
      |p| == 5 * |fs| && FramesParts(fs[..n]) == p[..5 * n] && FrameParts(fs[n]) == p[5 * n..]
  {
    FramesPartsFree(fs);
    FramesPartsFree(fs[..|fs| - 1]);
  }

  lemma {:induction false} FramesPartsDetermine(fs: seq<Frame>, gs: seq<Frame>)
    requires PrintableFrames(fs) && PrintableFrames(gs) && FramesParts(fs) == FramesParts(gs)
    ensures fs == gs
  {
    FramesPartsFree(fs);
    FramesPartsFree(gs);
    assert |fs| == |gs|;
    if fs != [] {
      var n := |fs| - 1;
      LastFrame(fs);
      LastFrame(gs);
      FramePartsDetermine(fs[n], gs[n]);
      FramesPartsDetermine(fs[..n], gs[..n]);
      assert fs == fs[..n] + [fs[n]] && gs == gs[..n] + [gs[n]];
    }
  }

  lemma FactPartsDetermine(s: State, t: State)
    requires Printable(s) && Printable(t) && FactParts(s) == FactParts(t)
    ensures s.block == t.block && s.counter.operations == t.counter.operations && Flags(s) == Flags(t) && s.probe == t.probe
  {
    var a, b := FactParts(s), FactParts(t);
    assert a[0] == b[0] && a[1] == b[1] && a[2] == b[2] && a[3] == b[3] && a[4] == b[4] && a[5] == b[5];
    assert a[6] == b[6] && a[7] == b[7] && a[8] == b[8] && a[9] == b[9] && a[10] == b[10] && a[11] == b[11];
    ItoaInjective(s.block, t.block);
    ItoaInjective(s.counter.operations, t.counter.operations);
    ItoaInjective(Flags(s), Flags(t));
    ItoaInjective(s.probe.errCheckParent, t.probe.errCheckParent);
    ItoaInjective(Bit(s.probe.lowerFallback, 1) + Bit(s.probe.resultFallback, 2),
                  Bit(t.probe.lowerFallback, 1) + Bit(t.probe.resultFallback, 2));
    ItoaInjective(Bit(s.probe.fallbackUsed, 1), Bit(t.probe.fallbackUsed, 1));
    ItoaInjective(Bit(s.probe.inspectionUsed, 1), Bit(t.probe.inspectionUsed, 1));
    ItoaInjective(Bit(s.probe.coercionUsed, 1), Bit(t.probe.coercionUsed, 1));
  }

  lemma FlagsDetermine(s: State, t: State)
    requires Flags(s) == Flags(t)
    ensures s.counter.multiple == t.counter.multiple && s.controlFlow == t.controlFlow && s.call == t.call
    ensures s.projectCall == t.projectCall && s.unrestored == t.unrestored
  {
  }

  /** The key stands for the state. */
  lemma StateKeyInjective(s: State, t: State)
    requires Printable(s) && Printable(t) && StateKey(s) == StateKey(t)
    ensures s == t
  {
    var fs, gs := s.counter.frames, t.counter.frames;
    var a, b := FactParts(s) + FramesParts(fs), FactParts(t) + FramesParts(gs);
    FactPartsFree(s);
    FactPartsFree(t);
    FramesPartsFree(fs);
    FramesPartsFree(gs);
    JoinInjective(a, b, ':');
    assert FactParts(s) == a[..12] && FactParts(t) == b[..12] && FramesParts(fs) == a[12..] && FramesParts(gs) == b[12..];
    FactPartsDetermine(s, t);
    FlagsDetermine(s, t);
    FramesPartsDetermine(fs, gs);
  }

  /** With the separator inside a text, two states can share a key. */
  lemma SeparatorCollides()
    ensures exists s: State, t: State :: s != t && s.block == t.block && StateKey(s) == StateKey(t)
  {
    var s := Entered(1).(probe := NO_PROBE.(target := ":"));
    var t := Entered(1).(probe := NO_PROBE.(boundsArray := ":"));
    var rest := ["", "", Itoa(0), Itoa(0), Itoa(0), Itoa(0), Itoa(0)];
    var head := [Itoa(1), Itoa(0), Itoa(0)];
    ColonMoves(head, rest);
    assert FactParts(s) + [] == head + ([":", ""] + rest);
    assert FactParts(t) + [] == head + (["", ":"] + rest);
    assert s.probe.target != t.probe.target;
  }

  lemma ColonMoves(head: seq<string>, rest: seq<string>)
    requires rest != []
    ensures Join(head + ([":", ""] + rest), ':') == Join(head + (["", ":"] + rest), ':')
  {
    JoinOfTwo(":", "", rest);
    JoinOfTwo("", ":", rest);
    JoinAfter(head, [":", ""] + rest, ["", ":"] + rest);
  }

  lemma JoinOfTwo(a: string, b: string, rest: seq<string>)
    requires rest != []
    ensures Join([a, b] + rest, ':') == a + ":" + (b + ":" + Join(rest, ':'))
  {
  }

  lemma {:induction false} JoinAfter(head: seq<string>, a: seq<string>, b: seq<string>)
    requires a != [] && b != [] && Join(a, ':') == Join(b, ':')
    ensures Join(head + a, ':') == Join(head + b, ':')
  {
    if head == [] {
      assert head + a == a && head + b == b;
    } else {
      assert (head + a)[1..] == head[1..] + a && (head + b)[1..] == head[1..] + b;
      JoinAfter(head[1..], a, b);
    }
  }

  lemma NamesAreFree(p: Procedure, n: string)
    requires WellFormed(p) && n in Names(p)
    ensures Free(n, ':')
  {
    assert Identifier(n);
  }

  lemma MirrorsArePrintable(p: Procedure, fs: seq<Frame>, path: seq<Branch>)
    requires WellFormed(p) && path in Paths(p) && Mirrors(fs, path)
    ensures forall f <- fs :: Free(f.group, ':') && f.branch >= 0
  {
    forall f <- fs ensures Free(f.group, ':') && f.branch >= 0 {
      var i :| 0 <= i < |path| && fs[i] == f;
      assert path[i] in path && Identifier(path[i].group);
    }
  }

  lemma PossibleIsPrintable(p: Procedure, s: State)
    requires WellFormed(p) && Possible(p, s)
    ensures Printable(s)
  {
    NamesAreFree(p, s.probe.target);
    NamesAreFree(p, s.probe.boundsArray);
    NamesAreFree(p, s.probe.lowerTarget);
    NamesAreFree(p, s.probe.resultTarget);
    var path: seq<Branch> :| path in Paths(p) && Mirrors(s.counter.frames, path);
    MirrorsArePrintable(p, s.counter.frames, path);
  }
}
