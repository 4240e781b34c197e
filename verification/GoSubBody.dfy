/**
 Does a local GoSub body always hand an array back allocated?  The search runs over pairs of a
 block and the allocation bit replayed so far; it accepts exactly the bodies of which every
 path that leaves does so at the first Return or at an exit, with the bit set.
 */
module GoSubBody {
  import opened Sets
  import opened Wrappers

  datatype BlockKind = StatementBlock | NormalExit | ExceptionalExit | TerminationExit | UnknownExit | OtherBlock

  datatype Edge = Edge(target: int, unknown: bool)

  /** `byStatement` finds the block of a statement. */
  datatype View = View(blocks: map<int, BlockKind>, outgoing: map<int, seq<Edge>>, byStatement: map<int, int>)

  /** What one part of a statement's text does to the array. */
  datatype Part = Part(allocates: bool, preserves: bool, mutates: bool)

  datatype CallEffect = NoEffect | UnknownCall | GuaranteedCall

  datatype Statement = Statement(id: int, parts: seq<Part>, call: CallEffect)

  /** The statements from the label up to the first Return, which is at `end`. */
  datatype Body = Body(statements: seq<Statement>, labelIndex: int, end: int, named: bool)

  // ---- Replaying a statement -----------------------------------------------------------

  function AfterPart(part: Part, proven: bool): bool {
    if part.allocates then true
    else if proven && part.preserves then true
    else if part.mutates then false
    else proven
  }

  function AfterParts(parts: seq<Part>, proven: bool): bool {
    if parts == [] then proven else AfterPart(parts[|parts| - 1], AfterParts(parts[..|parts| - 1], proven))
  }

  function AfterStatement(x: Statement, proven: bool): bool {
    match x.call
    case UnknownCall => false
    case GuaranteedCall => true
    case NoEffect => AfterParts(x.parts, proven)
  }

  /** The bit after a statement is what the last part that decides it says. */
  lemma {:induction false} LastDecides(parts: seq<Part>, k: nat, proven: bool)
    requires k < |parts| && forall j :: k < j < |parts| ==> !parts[j].allocates && !parts[j].mutates
    requires parts[k].allocates || (parts[k].mutates && !parts[k].preserves)
    ensures AfterParts(parts, proven) == parts[k].allocates
  {
    if k < |parts| - 1 { LastDecides(parts[..|parts| - 1], k, proven); }
  }

  /** A part that takes a proven allocation away. */
  predicate Loses(part: Part) { part.mutates && !part.allocates && !part.preserves }

  /** Some part allocates and no later one loses. */
  ghost predicate PartsGain(parts: seq<Part>) { exists k: nat :: GainsAt(parts, k) }

  predicate PartsLose(parts: seq<Part>) { exists part <- parts :: Loses(part) }

  /** The statement leaves the array allocated whatever was known before: by a guaranteed call, or by its own text if no call is unknown. */
  ghost predicate Gains(x: Statement) { x.call == GuaranteedCall || (x.call == NoEffect && PartsGain(x.parts)) }

  /** The statement may lose the allocation: an unknown call does, whatever its text says. */
  predicate Drops(x: Statement) { x.call == UnknownCall || (x.call == NoEffect && PartsLose(x.parts)) }

  /** Part `k` allocates and no later one loses. */
  predicate GainsAt(parts: seq<Part>, k: nat) { k < |parts| && parts[k].allocates && forall j :: k < j < |parts| ==> !Loses(parts[j]) }

  lemma OnePartMore(parts: seq<Part>, part: Part)
    ensures PartsGain(parts + [part]) <==> part.allocates || (PartsGain(parts) && !Loses(part))
    ensures PartsLose(parts + [part]) <==> PartsLose(parts) || Loses(part)
  {
    var n, longer := |parts|, parts + [part];
    if part.allocates { assert GainsAt(longer, n); }
    if k: nat :| GainsAt(parts, k) {
      if !Loses(part) { assert GainsAt(longer, k); }
    }
    if k: nat :| GainsAt(longer, k) {
      if k < n {
        assert forall j :: k < j < n ==> longer[j] == parts[j];
        assert GainsAt(parts, k) && !Loses(longer[n]);
      }
    }
    assert part in longer && forall x <- parts :: x in longer;
  }

  lemma {:induction false} PartsDecide(parts: seq<Part>, proven: bool)
    ensures AfterParts(parts, proven) <==> PartsGain(parts) || (proven && !PartsLose(parts))
  {
    if parts != [] {
      var n := |parts| - 1;
      PartsDecide(parts[..n], proven);
      OnePartMore(parts[..n], parts[n]);
      assert parts == parts[..n] + [parts[n]];
    }
  }

  /** A statement leaves the array allocated if it allocates it, or finds it allocated and does not drop it. */
  lemma StatementDecides(x: Statement, proven: bool)
    ensures AfterStatement(x, proven) <==> Gains(x) || (proven && !Drops(x))
  {
    PartsDecide(x.parts, proven);
  }

  method StateAfterStatement(x: Statement, before: bool) returns (proven: bool)
    ensures proven == AfterStatement(x, before)
  {
    proven := before;
    for i := 0 to |x.parts|
      invariant proven == AfterParts(x.parts[..i], before)
    {
      assert x.parts[..i + 1][..i] == x.parts[..i];
      var part := x.parts[i];
      if part.allocates {
        proven := true;
        continue;
      }
      if proven && part.preserves { continue; }
      if part.mutates { proven := false; }
    }
    assert x.parts[..|x.parts|] == x.parts;
    if x.call == UnknownCall { proven := false; } else if x.call == GuaranteedCall { proven := true; }
  }

  // ---- The body as a graph -------------------------------------------------------------

  predicate WellPlaced(b: Body) { 0 <= b.labelIndex < b.end < |b.statements| }

  /** Every statement of the body and its Return has a block. */
  predicate Located(v: View, b: Body)
    requires WellPlaced(b)
  {
    forall i :: b.labelIndex <= i <= b.end ==> b.statements[i].id in v.byStatement
  }

  /** The blocks of the body; where two statements share one, the later statement counts. */
  function Allowed(v: View, b: Body, n: int): map<int, Statement>
    requires WellPlaced(b) && b.labelIndex <= n <= b.end && forall i :: b.labelIndex <= i < n ==> b.statements[i].id in v.byStatement
    decreases n
  {
    if n == b.labelIndex then map[] else Allowed(v, b, n - 1)[v.byStatement[b.statements[n - 1].id] := b.statements[n - 1]]
  }

  datatype Place = Place(block: int, proven: bool)

  function Outgoing(v: View, id: int): seq<Edge> { if id in v.outgoing then v.outgoing[id] else [] }

  predicate Terminal(k: BlockKind) { k.NormalExit? || k.ExceptionalExit? || k.TerminationExit? || k.UnknownExit? }

  predicate Followable(v: View, e: Edge) { e.target in v.blocks && !e.unknown && !v.blocks[e.target].UnknownExit? }

  /** An edge is safe when it stays inside, or leaves at the Return or an exit with the bit set. */
  predicate Safe(v: View, inside: map<int, Statement>, returnBlock: int, e: Edge, proven: bool) {
    Followable(v, e) && (e.target in inside || ((e.target == returnBlock || Terminal(v.blocks[e.target])) && proven))
  }

  /** The block and bit at the end of a path from the label that stays inside; the label's own text is not replayed. */
  ghost function Along(v: View, inside: map<int, Statement>, start: int, path: seq<Edge>): Option<Place>
    decreases |path|
  {
    if path == [] then Some(Place(start, false))
    else
      var before := Along(v, inside, start, path[..|path| - 1]);
      var e := path[|path| - 1];
      if before.Some? && e in Outgoing(v, before.value.block) && Followable(v, e) && e.target in inside
      then Some(Place(e.target, AfterStatement(inside[e.target], before.value.proven)))
      else None
  }

  ghost predicate Visits(v: View, inside: map<int, Statement>, start: int, at: Place) {
    exists path :: Along(v, inside, start, path) == Some(at)
  }

  ghost predicate SafeAt(v: View, inside: map<int, Statement>, returnBlock: int, at: Place) {
    at.block in v.blocks && forall e <- Outgoing(v, at.block) :: Safe(v, inside, returnBlock, e, at.proven)
  }

  /** Every way out of the body is safe. */
  ghost predicate ReturnsAllocated(v: View, b: Body)
    requires WellPlaced(b) && Located(v, b)
  {
    var inside := Allowed(v, b, b.end);
    forall at | Visits(v, inside, v.byStatement[b.statements[b.labelIndex].id], at) ::
      SafeAt(v, inside, v.byStatement[b.statements[b.end].id], at)
  }

  /** A statement on the path allocates the array and no later one drops it. */
  ghost predicate Gained(inside: map<int, Statement>, path: seq<Edge>, k: nat) {
    && k < |path| && path[k].target in inside && Gains(inside[path[k].target])
    && forall j :: k < j < |path| ==> path[j].target in inside && !Drops(inside[path[j].target])
  }

  /** The bit at the end of a path: the array was allocated on the way and not dropped since. */
  lemma {:induction false} PathDecides(v: View, inside: map<int, Statement>, start: int, path: seq<Edge>)
    requires Along(v, inside, start, path).Some?
    ensures Along(v, inside, start, path).value.proven <==> exists k: nat :: Gained(inside, path, k)
    decreases |path|
  {
    if path != [] {
      var n := |path| - 1;
      var x := inside[path[n].target];
      PathDecides(v, inside, start, path[..n]);
      StatementDecides(x, Along(v, inside, start, path[..n]).value.proven);
      if Gains(x) { assert Gained(inside, path, n); }
      if k: nat :| Gained(inside, path[..n], k) {
        if !Drops(x) {
          assert forall j :: k < j < n ==> path[..n][j] == path[j];
          assert Gained(inside, path, k);
        }
      }
      if k: nat :| Gained(inside, path, k) && !Gains(x) {
        assert k < n && forall j :: k < j < n ==> path[..n][j] == path[j];
        assert Gained(inside, path[..n], k);
      }
    }
  }

  // ---- What is decided ---------------------------------------------------------------------

  predicate HasEdge(v: View, id: int, e: Edge) { id in v.outgoing && e in v.outgoing[id] }

  /** The edge leads to a known block, and not by an unknown transfer. */
  predicate LeadsToKnown(v: View, e: Edge) { e.target in v.blocks && v.blocks[e.target] != UnknownExit && !e.unknown }

  function End(start: int, path: seq<Edge>): int { if path == [] then start else path[|path| - 1].target }

  /** A run of edges from the label that stays inside the body. */
  ghost predicate Runs(v: View, inside: map<int, Statement>, start: int, path: seq<Edge>) {
    forall i :: 0 <= i < |path| ==>
      HasEdge(v, End(start, path[..i]), path[i]) && LeadsToKnown(v, path[i]) && path[i].target in inside
  }

  lemma {:induction false} PathsAre(v: View, inside: map<int, Statement>, start: int, path: seq<Edge>)
    ensures Along(v, inside, start, path).Some? <==> Runs(v, inside, start, path)
    ensures Along(v, inside, start, path).Some? ==> Along(v, inside, start, path).value.block == End(start, path)
    decreases |path|
  {
    if path != [] {
      var n := |path| - 1;
      PathsAre(v, inside, start, path[..n]);
      assert forall i :: 0 <= i < n ==> path[..n][..i] == path[..i] && path[..n][i] == path[i];
      var last := HasEdge(v, End(start, path[..n]), path[n]) && LeadsToKnown(v, path[n]) && path[n].target in inside;
      assert Runs(v, inside, start, path) <==> Runs(v, inside, start, path[..n]) && last;
    }
  }

  /** The edge stays inside the body, or leaves it at the Return or an exit with the array allocated on the way and not dropped since. */
  ghost predicate LeavesAllocated(v: View, inside: map<int, Statement>, returnBlock: int, path: seq<Edge>, e: Edge) {
    LeadsToKnown(v, e) &&
    (e.target in inside ||
      ((e.target == returnBlock || v.blocks[e.target] in {NormalExit, ExceptionalExit, TerminationExit}) &&
       exists k: nat :: Gained(inside, path, k)))
  }

  lemma SafeMeans(v: View, inside: map<int, Statement>, start: int, returnBlock: int, path: seq<Edge>)
    requires Along(v, inside, start, path).Some?
    ensures SafeAt(v, inside, returnBlock, Along(v, inside, start, path).value) <==>
      End(start, path) in v.blocks &&
      forall e | HasEdge(v, End(start, path), e) :: LeavesAllocated(v, inside, returnBlock, path, e)
  {
    var at := Along(v, inside, start, path).value;
    PathsAre(v, inside, start, path);
    PathDecides(v, inside, start, path);
    forall e ensures Safe(v, inside, returnBlock, e, at.proven) <==> LeavesAllocated(v, inside, returnBlock, path, e) {}
    forall e ensures e in Outgoing(v, at.block) <==> HasEdge(v, End(start, path), e) {}
  }

  /** Accepted is a named body in place, all of whose statements are found, and which every path leaves allocated. */
  lemma AcceptedMeans(v: View, b: Body)
    ensures b.named && WellPlaced(b) && Located(v, b) && ReturnsAllocated(v, b) <==>
      && b.named && b.labelIndex >= 0 && b.labelIndex + 1 <= b.end && b.end + 1 <= |b.statements|
      && (forall i | b.labelIndex <= i <= b.end :: b.statements[i].id in v.byStatement)
      && var start, returnBlock := v.byStatement[b.statements[b.labelIndex].id], v.byStatement[b.statements[b.end].id];
         forall path | Runs(v, Allowed(v, b, b.end), start, path) ::
           End(start, path) in v.blocks &&
           forall e | HasEdge(v, End(start, path), e) :: LeavesAllocated(v, Allowed(v, b, b.end), returnBlock, path, e)
  {
    if b.named && WellPlaced(b) && Located(v, b) {
      var start, returnBlock := v.byStatement[b.statements[b.labelIndex].id], v.byStatement[b.statements[b.end].id];
      AllPathsMean(v, Allowed(v, b, b.end), start, returnBlock);
    }
  }

  lemma AllPathsMean(v: View, inside: map<int, Statement>, start: int, returnBlock: int)
    ensures (forall at | Visits(v, inside, start, at) :: SafeAt(v, inside, returnBlock, at)) <==>
      forall path | Runs(v, inside, start, path) ::
        End(start, path) in v.blocks && forall e | HasEdge(v, End(start, path), e) :: LeavesAllocated(v, inside, returnBlock, path, e)
  {
    forall path | Runs(v, inside, start, path)
      ensures Along(v, inside, start, path).Some?
      ensures SafeAt(v, inside, returnBlock, Along(v, inside, start, path).value) <==>
        End(start, path) in v.blocks && forall e | HasEdge(v, End(start, path), e) :: LeavesAllocated(v, inside, returnBlock, path, e)
    {
      PathsAre(v, inside, start, path);
      SafeMeans(v, inside, start, returnBlock, path);
    }
    forall at | Visits(v, inside, start, at) ensures exists path :: Runs(v, inside, start, path) && Along(v, inside, start, path) == Some(at) {
      var path :| Along(v, inside, start, path) == Some(at);
      PathsAre(v, inside, start, path);
    }
  }

  /** The body's blocks are those of its statements; of several statements in one block the last counts. */
  lemma {:induction false} AllowedIs(v: View, b: Body, n: int, i: int)
    requires WellPlaced(b) && b.labelIndex <= i < n <= b.end && forall j :: b.labelIndex <= j < n ==> b.statements[j].id in v.byStatement
    ensures v.byStatement[b.statements[i].id] in Allowed(v, b, n)
    ensures (forall j :: i < j < n ==> v.byStatement[b.statements[j].id] != v.byStatement[b.statements[i].id]) ==>
      Allowed(v, b, n)[v.byStatement[b.statements[i].id]] == b.statements[i]
    decreases n
  {
    if i < n - 1 { AllowedIs(v, b, n - 1, i); }
  }

  lemma {:induction false} NothingElseAllowed(v: View, b: Body, n: int, id: int)
    requires WellPlaced(b) && b.labelIndex <= n <= b.end && forall j :: b.labelIndex <= j < n ==> b.statements[j].id in v.byStatement
    requires id in Allowed(v, b, n)
    ensures exists i :: b.labelIndex <= i < n && v.byStatement[b.statements[i].id] == id
    decreases n
  {
    if n > b.labelIndex && v.byStatement[b.statements[n - 1].id] != id { NothingElseAllowed(v, b, n - 1, id); }
  }

  // ---- The search ----------------------------------------------------------------------

  function Places(inside: map<int, Statement>, start: int): set<Place> {
    (set id <- inside :: Place(id, false)) + (set id <- inside :: Place(id, true)) + {Place(start, false)}
  }

  ghost predicate Leads(v: View, inside: map<int, Statement>, at: Place, e: Edge, to: Place) {
    Followable(v, e) && e.target in inside && to == Place(e.target, AfterStatement(inside[e.target], at.proven))
  }

  ghost predicate Next(v: View, inside: map<int, Statement>, at: Place, to: Place) {
    exists e <- Outgoing(v, at.block) :: Leads(v, inside, at, e, to)
  }

  lemma NextIsVisited(v: View, inside: map<int, Statement>, start: int, at: Place, next: Place)
    requires Visits(v, inside, start, at) && Next(v, inside, at, next)
    ensures Visits(v, inside, start, next) && next in Places(inside, start)
  {
    var path :| Along(v, inside, start, path) == Some(at);
    var e :| e in Outgoing(v, at.block) && Leads(v, inside, at, e, next);
    assert (path + [e])[..|path|] == path;
    assert Along(v, inside, start, path + [e]) == Some(next);
  }

  /** Places seen are visited and known; those no longer queued are safe and expanded. */
  ghost predicate Searching(v: View, inside: map<int, Statement>, start: int, returnBlock: int, seen: set<Place>,
        queue: seq<Place>) {
    && Place(start, false) in seen && seen <= Places(inside, start)
    && (forall at <- queue :: at in seen)
    && (forall at <- seen :: Visits(v, inside, start, at))
    && (forall at <- seen | at !in queue :: SafeAt(v, inside, returnBlock, at) && forall to | Next(v, inside, at, to) :: to in seen)
  }

  lemma {:induction false} SeenAll(v: View, inside: map<int, Statement>, start: int, returnBlock: int,
        seen: set<Place>, path: seq<Edge>)
    requires Searching(v, inside, start, returnBlock, seen, [])
    ensures Along(v, inside, start, path).Some? ==> Along(v, inside, start, path).value in seen
    decreases |path|
  {
    if path != [] && Along(v, inside, start, path).Some? {
      SeenAll(v, inside, start, returnBlock, seen, path[..|path| - 1]);
      var before := Along(v, inside, start, path[..|path| - 1]).value;
      assert Leads(v, inside, before, path[|path| - 1], Along(v, inside, start, path).value);
    }
  }

  /** Visits one place: all its edges, or a failure. */
  method Expand(v: View, inside: map<int, Statement>, returnBlock: int, at: Place, seen: set<Place>, queue: seq<Place>)
    returns (failed: bool, seen': set<Place>, queue': seq<Place>)
    requires at.block in v.blocks
    ensures failed <==> !SafeAt(v, inside, returnBlock, at)
    ensures !failed ==> forall p :: p in seen' <==> p in seen || Next(v, inside, at, p)
    ensures !failed ==> forall p :: p in queue' <==> p in queue || (p !in seen && Next(v, inside, at, p))
    ensures seen <= seen' && (seen' == seen ==> queue' == queue)
  {
    failed, seen', queue' := false, seen, queue;
    var edges := Outgoing(v, at.block);
    for i := 0 to |edges|
      invariant failed <==> exists j :: 0 <= j < i && !Safe(v, inside, returnBlock, edges[j], at.proven)
      invariant forall p :: p in seen' <==> p in seen || exists j :: 0 <= j < i && Leads(v, inside, at, edges[j], p)
      invariant forall p :: p in queue' <==> p in queue || (p !in seen && p in seen')
      invariant seen <= seen' && (queue' == queue || exists p :: p in seen' && p !in seen)
    {
      var e := edges[i];
      if e.target !in v.blocks {
        failed := true;
        continue;
      }
      if e.unknown || v.blocks[e.target].UnknownExit? {
        failed := true;
        continue;
      }
      if e.target !in inside {
        if e.target != returnBlock && !Terminal(v.blocks[e.target]) {
          failed := true;
          continue;
        }
        if !at.proven { failed := true; }
        continue;
      }
      var next := StateAfterStatement(inside[e.target], at.proven);
      var to := Place(e.target, next);
      assert Leads(v, inside, at, e, to);
      if to !in seen' { seen', queue' := seen' + {to}, queue' + [to]; }
    }
    assert forall p :: Next(v, inside, at, p) <==> exists j :: 0 <= j < |edges| && Leads(v, inside, at, edges[j], p);
  }

  lemma SearchContinues(v: View, inside: map<int, Statement>, start: int, returnBlock: int, seen: set<Place>,
        queue: seq<Place>, seen': set<Place>, queue': seq<Place>)
    requires queue != [] && Searching(v, inside, start, returnBlock, seen, queue) && SafeAt(v, inside, returnBlock, queue[0])
    requires forall p :: p in seen' <==> p in seen || Next(v, inside, queue[0], p)
    requires forall p :: p in queue' <==> p in queue[1..] || (p !in seen && Next(v, inside, queue[0], p))
    ensures Searching(v, inside, start, returnBlock, seen', queue')
  {
    var at := queue[0];
    assert at in queue && queue == [at] + queue[1..];
    forall p | p in seen' && p !in seen ensures Visits(v, inside, start, p) && p in Places(inside, start) {
      NextIsVisited(v, inside, start, at, p);
    }
    assert forall p <- queue[1..] :: p in queue;
  }

  lemma LessToSee(all: set<Place>, seen: set<Place>, seen': set<Place>)
    requires seen <= seen' <= all
    ensures |all - seen'| < |all - seen| || seen' == seen
  {
    if seen' != seen {
      var p :| p in seen' && p !in seen;
      assert all - seen' <= (all - seen) - {p};
      SubsetIsSmaller(all - seen', (all - seen) - {p});
    }
  }

  /** Finds the blocks of the body, or misses one. */
  method CollectAllowed(v: View, b: Body) returns (allowed: map<int, Statement>, found: bool)
    requires WellPlaced(b)
    ensures found <==> Located(v, b)
    ensures found ==> allowed == Allowed(v, b, b.end)
  {
    allowed := map[];
    var index := b.labelIndex;
    while index < b.end
      invariant b.labelIndex <= index <= b.end
      invariant forall i :: b.labelIndex <= i < index ==> b.statements[i].id in v.byStatement
      invariant allowed == Allowed(v, b, index)
    {
      if b.statements[index].id !in v.byStatement { return allowed, false; }
      allowed := allowed[v.byStatement[b.statements[index].id] := b.statements[index]];
      index := index + 1;
    }
    found := b.statements[b.end].id in v.byStatement;
  }

  method Search(v: View, inside: map<int, Statement>, start: int, returnBlock: int) returns (r: bool)
    ensures r <==> forall at | Visits(v, inside, start, at) :: SafeAt(v, inside, returnBlock, at)
  {
    var seen, queue := {Place(start, false)}, [Place(start, false)];
    assert Along(v, inside, start, []) == Some(Place(start, false));
    while queue != []
      invariant Searching(v, inside, start, returnBlock, seen, queue)
      decreases |Places(inside, start) - seen|, |queue|
    {
      var at := queue[0];
      assert at in queue;
      if at.block !in v.blocks {
        assert !SafeAt(v, inside, returnBlock, at);
        return false;
      }
      var failed, seen', queue' := Expand(v, inside, returnBlock, at, seen, queue[1..]);
      if failed { return false; }
      SearchContinues(v, inside, start, returnBlock, seen, queue, seen', queue');
      LessToSee(Places(inside, start), seen, seen');
      seen, queue := seen', queue';
    }
    forall at | Visits(v, inside, start, at) ensures SafeAt(v, inside, returnBlock, at) {
      var path :| Along(v, inside, start, path) == Some(at);
      SeenAll(v, inside, start, returnBlock, seen, path);
    }
    return true;
  }

  method ArrayLocalGoSubAllocationInvariant(v: View, b: Body) returns (r: bool)
    ensures r <==> b.named && WellPlaced(b) && Located(v, b) && ReturnsAllocated(v, b)
  {
    if b.labelIndex < 0 || b.labelIndex >= b.end || b.end >= |b.statements| { return false; }
    if !b.named { return false; }
    var allowed, found := CollectAllowed(v, b);
    if !found { return false; }
    r := Search(v, allowed, v.byStatement[b.statements[b.labelIndex].id], v.byStatement[b.statements[b.end].id]);
  }
}
