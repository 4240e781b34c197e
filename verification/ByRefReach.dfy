/**
 Can a procedure lose, or change at all, the array passed as one of its ByRef parameters?
 The recursive scans of the analyzer cut cycles with the set of parameters on the current
 path; asked from outside, they decide exactly whether a direct cause is reachable along the
 ByRef bindings that are not already proven safe.
 */
module ByRefReach {
  import opened Text

  /** A procedure and the index of one of its parameters. */
  datatype Node = Node(procedure: nat, parameter: nat)

  datatype Binding = Binding(direct: bool, parameter: nat, proven: bool)

  /** A call at a statement, seen from the parameter that is asked about. */
  datatype Call = Call(readOnly: bool, passesArray: bool, resolved: bool, mapped: bool, target: nat, bindings: seq<Binding>)

  datatype Statement = Statement(reachable: bool, recovered: bool, loses: bool, changes: bool, calls: seq<Call>)

  /** `byRefArray` and `scans` have one entry per parameter; `uncertain` stands for unknown array features, recovery or unknown flow. */
  datatype Procedure = Procedure(key: string, byRefArray: seq<bool>, uncertain: bool, scans: seq<seq<Statement>>)

  datatype Question = MayInvalidate | MayMutate

  type Program = seq<Procedure>

  predicate WellFormed(p: Program) {
    && (forall f <- p :: |f.scans| == |f.byRefArray|)
    && (forall f <- p, scan <- f.scans, x <- scan, call <- x.calls :: call.resolved ==> call.target < |p|)
  }

  predicate IsParameter(p: Program, n: Node) {
    n.procedure < |p| && n.parameter < |p[n.procedure].byRefArray| && p[n.procedure].byRefArray[n.parameter]
  }

  function Scan(p: Program, n: Node): seq<Statement>
    requires WellFormed(p) && IsParameter(p, n)
  {
    p[n.procedure].scans[n.parameter]
  }

  // ---- The graph -----------------------------------------------------------------------

  predicate Follows(call: Call) { !call.readOnly && call.passesArray }

  predicate LostInCall(call: Call) { Follows(call) && (!call.resolved || !call.mapped) }

  predicate Causes(q: Question, x: Statement) {
    x.recovered || (if q == MayInvalidate then x.loses else x.changes) || exists call <- x.calls :: LostInCall(call)
  }

  /** A direct cause in the parameter's own scan. */
  predicate Trigger(p: Program, q: Question, n: Node)
    requires WellFormed(p) && IsParameter(p, n)
  {
    (q == MayMutate && p[n.procedure].uncertain) || exists x <- Scan(p, n) :: x.reachable && Causes(q, x)
  }

  /** What the two questions look at: losing the allocation, or any change; and the certainty of the procedure. */
  lemma QuestionsRead(p: Program, n: Node)
    requires WellFormed(p) && IsParameter(p, n)
    ensures Trigger(p, MayInvalidate, n) <==>
      exists x <- Scan(p, n) :: x.reachable && (x.recovered || x.loses || HasLostCall(x))
    ensures Trigger(p, MayMutate, n) <==>
      p[n.procedure].uncertain || exists x <- Scan(p, n) :: x.reachable && (x.recovered || x.changes || HasLostCall(x))
  {
  }

  /** A call that hands the array itself on to a procedure the analysis cannot see into. */
  predicate HasLostCall(x: Statement) {
    exists call <- x.calls :: !call.readOnly && call.passesArray && !(call.resolved && call.mapped)
  }

  predicate Binds(p: Program, call: Call, m: Node) {
    && Follows(call) && call.resolved && call.mapped && m.procedure == call.target && IsParameter(p, m)
    && exists b <- call.bindings :: b.direct && !b.proven && b.parameter == m.parameter
  }

  /** The array is handed on to parameter `m` by a binding nobody has proven safe. */
  predicate Edge(p: Program, n: Node, m: Node)
    requires WellFormed(p) && IsParameter(p, n)
  {
    exists x <- Scan(p, n) :: x.reachable && exists call <- x.calls :: Binds(p, call, m)
  }

  /** The call hands the array on to ByRef parameter `m` by a direct binding nobody has proven safe. */
  ghost predicate HandsOn(p: Program, call: Call, m: Node) {
    && !call.readOnly && call.passesArray && call.resolved && call.mapped && call.target == m.procedure
    && m.procedure < |p| && m.parameter < |p[m.procedure].byRefArray| && p[m.procedure].byRefArray[m.parameter]
    && exists i :: 0 <= i < |call.bindings| && call.bindings[i] == Binding(true, m.parameter, false)
  }

  /** An edge is a call in a reachable statement that hands the array on. */
  lemma EdgeMeans(p: Program, n: Node, m: Node)
    requires WellFormed(p) && IsParameter(p, n)
    ensures Edge(p, n, m) <==>
      exists x: Statement, call: Call :: x in p[n.procedure].scans[n.parameter] && x.reachable && call in x.calls && HandsOn(p, call, m)
  {
    forall call ensures Binds(p, call, m) <==> HandsOn(p, call, m) {
      if Binds(p, call, m) {
        var b :| b in call.bindings && b.direct && !b.proven && b.parameter == m.parameter;
        var i :| 0 <= i < |call.bindings| && call.bindings[i] == b;
        assert b == Binding(true, m.parameter, false);
      }
      if HandsOn(p, call, m) {
        var i :| 0 <= i < |call.bindings| && call.bindings[i] == Binding(true, m.parameter, false);
        assert call.bindings[i] in call.bindings;
      }
    }
  }

  /** A path of bindings from the first node to the last, outside `cut`. */
  ghost predicate Path(p: Program, path: seq<Node>, cut: set<Node>)
    requires WellFormed(p)
  {
    && path != []
    && (forall i :: 0 <= i < |path| ==> IsParameter(p, path[i]) && path[i] !in cut)
    && (forall i :: 0 < i < |path| ==> Edge(p, path[i - 1], path[i]))
  }

  ghost predicate Leads(p: Program, q: Question, n: Node, cut: set<Node>)
    requires WellFormed(p)
  {
    exists path :: Path(p, path, cut) && path[0] == n && Trigger(p, q, path[|path| - 1])
  }

  // ---- What the recursion computes -----------------------------------------------------

  function Nodes(p: Program): set<Node> {
    set i, j | 0 <= i < |p| && 0 <= j < |p[i].byRefArray| :: Node(i, j)
  }

  ghost function Successors(p: Program, n: Node): set<Node>
    requires WellFormed(p) && IsParameter(p, n)
  {
    set m <- Nodes(p) | IsParameter(p, m) && Edge(p, n, m)
  }

  ghost predicate Found(p: Program, q: Question, n: Node, visiting: set<Node>)
    requires WellFormed(p)
    decreases Nodes(p) - visiting
  {
    if !IsParameter(p, n) then true
    else if n in visiting then false
    else Trigger(p, q, n) || (n in Nodes(p) && exists m <- Successors(p, n) :: Found(p, q, m, visiting + {n}))
  }

  /** One more binding in front of a path. */
  lemma LeadsBefore(p: Program, q: Question, n: Node, m: Node, cut: set<Node>)
    requires WellFormed(p) && IsParameter(p, n) && n !in cut && Edge(p, n, m) && Leads(p, q, m, cut + {n})
    ensures Leads(p, q, n, cut)
  {
    var path :| Path(p, path, cut + {n}) && path[0] == m && Trigger(p, q, path[|path| - 1]);
    var longer := [n] + path;
    forall i | 0 < i < |longer| ensures Edge(p, longer[i - 1], longer[i]) {
      if i > 1 { assert Edge(p, path[i - 2], path[i - 1]); }
    }
    assert Path(p, longer, cut) && longer[|longer| - 1] == path[|path| - 1];
  }

  lemma {:induction false} FoundLeads(p: Program, q: Question, n: Node, visiting: set<Node>)
    requires WellFormed(p) && IsParameter(p, n) && Found(p, q, n, visiting)
    ensures Leads(p, q, n, visiting)
    decreases Nodes(p) - visiting
  {
    if Trigger(p, q, n) {
      assert Path(p, [n], visiting);
    } else {
      var m :| m in Successors(p, n) && Found(p, q, m, visiting + {n});
      FoundLeads(p, q, m, visiting + {n});
      LeadsBefore(p, q, n, m, visiting);
    }
  }

  /** The rest of the path after the last occurrence of `n` keeps clear of `n`. */
  lemma {:induction false} AfterLast(p: Program, path: seq<Node>, cut: set<Node>, n: Node) returns (rest: seq<Node>)
    requires WellFormed(p) && Path(p, path, cut) && path[0] == n && path[|path| - 1] != n
    ensures Path(p, rest, cut + {n}) && Edge(p, n, rest[0]) && rest[|rest| - 1] == path[|path| - 1]
    decreases |path|
  {
    var tail := path[1..];
    assert forall i :: 0 <= i < |tail| ==> tail[i] == path[i + 1];
    if i :| 0 <= i < |tail| && tail[i] == n {
      var later := tail[i..];
      assert forall j :: 0 <= j < |later| ==> later[j] == tail[i + j];
      assert Path(p, later, cut);
      rest := AfterLast(p, later, cut, n);
    } else {
      rest := tail;
    }
  }

  lemma {:induction false} LeadsFound(p: Program, q: Question, n: Node, visiting: set<Node>)
    requires WellFormed(p) && Leads(p, q, n, visiting)
    ensures Found(p, q, n, visiting)
    decreases Nodes(p) - visiting
  {
    var path :| Path(p, path, visiting) && path[0] == n && Trigger(p, q, path[|path| - 1]);
    if !Trigger(p, q, n) {
      var rest := AfterLast(p, path, visiting, n);
      assert n in Nodes(p) && rest[0] in Successors(p, n);
      LeadsFound(p, q, rest[0], visiting + {n});
    }
  }

  /** Asked from outside, the scan decides reachability of a direct cause. */
  lemma QueryIsExact(p: Program, q: Question, n: Node)
    requires WellFormed(p) && IsParameter(p, n)
    ensures Found(p, q, n, {}) <==> Leads(p, q, n, {})
  {
    if Found(p, q, n, {}) { FoundLeads(p, q, n, {}); }
    if Leads(p, q, n, {}) { LeadsFound(p, q, n, {}); }
  }

  /** Where a loss is a change, a parameter that may be invalidated may be mutated. */
  lemma InvalidatedIsMutated(p: Program, n: Node)
    requires WellFormed(p) && IsParameter(p, n)
    requires forall f: Procedure, scan: seq<Statement>, x: Statement | f in p && scan in f.scans && x in scan :: x.loses ==> x.changes
    ensures Leads(p, MayInvalidate, n, {}) ==> Leads(p, MayMutate, n, {})
  {
    if path: seq<Node> :| Path(p, path, {}) && path[0] == n && Trigger(p, MayInvalidate, path[|path| - 1]) {
      var last := path[|path| - 1];
      assert p[last.procedure] in p && Scan(p, last) in p[last.procedure].scans;
      QuestionsRead(p, last);
      assert Trigger(p, MayMutate, last);
    }
  }

  const WRITE := Statement(true, false, false, true, [])
  const HAND_ON := Call(false, true, true, true, 1, [Binding(true, 0, false)])
  const WRITING_CALLEE := [
    Procedure("a", [true], false, [[Statement(true, false, false, false, [HAND_ON])]]), Procedure("b", [true], false, [[WRITE]])]

  /** An element write in a callee changes the caller's array without invalidating it. */
  lemma ElementWriteOnlyMutates()
    ensures WellFormed(WRITING_CALLEE)
    ensures Leads(WRITING_CALLEE, MayMutate, Node(0, 0), {}) && !Leads(WRITING_CALLEE, MayInvalidate, Node(0, 0), {})
  {
    CalleeIsReached();
    forall n | IsParameter(WRITING_CALLEE, n) ensures !Trigger(WRITING_CALLEE, MayInvalidate, n) { CalleeKeeps(n); }
  }

  lemma CalleeIsReached()
    ensures WellFormed(WRITING_CALLEE) && Leads(WRITING_CALLEE, MayMutate, Node(0, 0), {})
  {
    var p := WRITING_CALLEE;
    var x := Statement(true, false, false, false, [HAND_ON]);
    assert Scan(p, Node(0, 0)) == [x] && Scan(p, Node(1, 0)) == [WRITE];
    assert HAND_ON.bindings[0] in HAND_ON.bindings && HAND_ON in x.calls && x in [x] && WRITE in [WRITE];
    assert Binds(p, HAND_ON, Node(1, 0)) && Edge(p, Node(0, 0), Node(1, 0)) && Trigger(p, MayMutate, Node(1, 0));
    assert Path(p, [Node(0, 0), Node(1, 0)], {});
  }

  lemma CalleeKeeps(n: Node)
    requires WellFormed(WRITING_CALLEE) && IsParameter(WRITING_CALLEE, n)
    ensures !Trigger(WRITING_CALLEE, MayInvalidate, n)
  {
    assert n == Node(0, 0) || n == Node(1, 0);
    QuestionsRead(WRITING_CALLEE, n);
  }

  // ---- The recursive scans -------------------------------------------------------------

  /** The shared record of what is on the current path. */
  class Visiting {
    var nodes: set<Node>

    constructor ()
      ensures nodes == {}
    {
      nodes := {};
    }
  }

  /** Part of a scan whose answer is already settled. */
  ghost predicate CallAnswers(p: Program, q: Question, call: Call, cut: set<Node>)
    requires WellFormed(p)
  {
    LostInCall(call) || exists m <- Nodes(p) :: Binds(p, call, m) && Found(p, q, m, cut)
  }

  ghost predicate StatementAnswers(p: Program, q: Question, x: Statement, cut: set<Node>)
    requires WellFormed(p)
  {
    x.reachable && (Causes(q, x) || exists call <- x.calls :: CallAnswers(p, q, call, cut))
  }

  lemma ScanAnswers(p: Program, q: Question, n: Node, visiting: set<Node>)
    requires WellFormed(p) && IsParameter(p, n) && n !in visiting
    ensures Found(p, q, n, visiting) <==>
      (q == MayMutate && p[n.procedure].uncertain) || exists x <- Scan(p, n) :: StatementAnswers(p, q, x, visiting + {n})
  {
  }

  /** Follows the bindings of one resolved call. */
  method AskBindings(p: Program, q: Question, call: Call, visiting: Visiting) returns (found: bool)
    requires WellFormed(p) && Follows(call) && call.resolved && call.mapped && call.target < |p|
    modifies visiting
    ensures visiting.nodes == old(visiting.nodes)
    ensures found <==> exists m <- Nodes(p) :: Binds(p, call, m) && Found(p, q, m, old(visiting.nodes))
    decreases Nodes(p) - visiting.nodes, 1
  {
    ghost var cut := visiting.nodes;
    for i := 0 to |call.bindings|
      invariant visiting.nodes == cut
      invariant forall j, m |
        0 <= j < i && call.bindings[j].direct && !call.bindings[j].proven && m == Node(call.target, call.bindings[j].parameter) ::
        IsParameter(p, m) ==> !Found(p, q, m, cut)
    {
      var b := call.bindings[i];
      var m := Node(call.target, b.parameter);
      if !b.direct || !IsParameter(p, m) { continue; }
      if b.proven { continue; }
      var inner := ParameterMay(p, q, m, visiting);
      if inner {
        assert b in call.bindings && Binds(p, call, m) && m in Nodes(p);
        return true;
      }
    }
    return false;
  }

  /** One statement of a scan. */
  method AskStatement(p: Program, q: Question, x: Statement, visiting: Visiting) returns (found: bool)
    requires WellFormed(p) && forall call <- x.calls :: call.resolved ==> call.target < |p|
    modifies visiting
    ensures visiting.nodes == old(visiting.nodes)
    ensures found <==> StatementAnswers(p, q, x, old(visiting.nodes))
    decreases Nodes(p) - visiting.nodes, 2
  {
    if !x.reachable { return false; }
    if x.recovered { return true; }
    if if q == MayInvalidate then x.loses else x.changes { return true; }
    ghost var cut := visiting.nodes;
    for i := 0 to |x.calls|
      invariant visiting.nodes == cut
      invariant forall j :: 0 <= j < i ==> !CallAnswers(p, q, x.calls[j], cut)
    {
      var call := x.calls[i];
      if call.readOnly { continue; }
      if !call.passesArray { continue; }
      if !call.resolved || !call.mapped {
        assert LostInCall(x.calls[i]);
        return true;
      }
      var inner := AskBindings(p, q, call, visiting);
      if inner {
        assert CallAnswers(p, q, x.calls[i], cut);
        return true;
      }
    }
    return false;
  }

  /** `arrayByRefParameterMayInvalidate` and `arrayByRefParameterMayMutate`. */
  method ParameterMay(p: Program, q: Question, n: Node, visiting: Visiting) returns (found: bool)
    requires WellFormed(p)
    modifies visiting
    ensures visiting.nodes == old(visiting.nodes)
    ensures found <==> Found(p, q, n, old(visiting.nodes))
    decreases Nodes(p) - visiting.nodes, 0
  {
    if n.procedure >= |p| || n.parameter >= |p[n.procedure].byRefArray| || !p[n.procedure].byRefArray[n.parameter] { return true; }
    if n in visiting.nodes { return false; }
    ghost var before := visiting.nodes;
    ScanAnswers(p, q, n, before);
    assert n in Nodes(p);
    visiting.nodes := visiting.nodes + {n};
    found := q == MayMutate && p[n.procedure].uncertain;
    var scan := Scan(p, n);
    var i := 0;
    while !found && i < |scan|
      invariant i <= |scan| && visiting.nodes == before + {n}
      invariant found <==> (q == MayMutate && p[n.procedure].uncertain) ||
                           exists j :: 0 <= j < i && StatementAnswers(p, q, scan[j], before + {n})
    {
      assert p[n.procedure] in p && scan in p[n.procedure].scans && scan[i] in scan;
      found := AskStatement(p, q, scan[i], visiting);
      i := i + 1;
    }
    visiting.nodes := visiting.nodes - {n};
  }

  /** The question as callers ask it. */
  method AskParameter(p: Program, q: Question, n: Node) returns (found: bool)
    requires WellFormed(p)
    ensures found <==> !IsParameter(p, n) || Leads(p, q, n, {})
  {
    var visiting := new Visiting();
    found := ParameterMay(p, q, n, visiting);
    if IsParameter(p, n) { QueryIsExact(p, q, n); }
  }

  // ---- Keys ----------------------------------------------------------------------------

  /** The text under which the path set remembers a parameter. */
  function VisitKey(q: Question, key: string, parameter: nat): string {
    key + (if q == MayInvalidate then "#" else "#mutate#") + Itoa(parameter)
  }

  /** Within one question the text stands for the procedure key and the parameter. */
  lemma VisitKeysSeparate(q: Question, key: string, i: nat, other: string, j: nat)
    ensures VisitKey(q, key, i) == VisitKey(q, other, j) <==> key == other && i == j
  {
    if VisitKey(q, key, i) == VisitKey(q, other, j) {
      var middle := if q == MayInvalidate then "" else "#mutate";
      assert VisitKey(q, key, i) == (key + middle) + ['#'] + Itoa(i);
      assert VisitKey(q, other, j) == (other + middle) + ['#'] + Itoa(j);
      ItoaInjective(i, j);
      ItoaInjective(j, i);
      SplitLast(key + middle, Itoa(i), other + middle, Itoa(j), '#');
      assert key == (key + middle)[..|key|] && other == (other + middle)[..|other|];
    }
  }
}
