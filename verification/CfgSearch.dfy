/** Does the false branch of a guard always run into a required block of the control-flow graph? */
module CfgSearch {
  datatype Kind = BranchFalse | OtherEdge

  datatype Edge = Edge(source: int, target: int, normal: bool, kind: Kind)

  datatype Graph = Graph(edges: seq<Edge>, normalExit: int)

  // ---- The required block --------------------------------------------------------------

  predicate OpensTo(e: Edge, guard: int, b: int) { e.source == guard && e.kind == BranchFalse && e.normal && e.target == b }

  predicate LinksTo(e: Edge, b: int, c: int) { e.source == b && e.normal && e.target == c }

  ghost predicate Opens(g: Graph, guard: int, b: int) { exists e <- g.edges :: OpensTo(e, guard, b) }

  ghost predicate Link(g: Graph, b: int, c: int) { exists e <- g.edges :: LinksTo(e, b, c) }

  /** The blocks of a normal path that starts on the guard's false branch. */
  ghost predicate FalsePath(g: Graph, guard: int, path: seq<int>) {
    path != [] && Opens(g, guard, path[0]) && forall i :: 0 < i < |path| ==> Link(g, path[i - 1], path[i])
  }

  /** Some normal path meets the block, and none reaches the normal exit without it. */
  ghost predicate Requires(g: Graph, guard: int, required: int) {
    && (exists path :: FalsePath(g, guard, path) && path[|path| - 1] == required)
    && forall path | FalsePath(g, guard, path) && path[|path| - 1] == g.normalExit :: required in path
  }

  /** Some normal edge leads from one block to another, as the false branch if that is asked for. */
  ghost predicate Connected(g: Graph, a: int, b: int, falseBranch: bool) {
    exists i :: 0 <= i < |g.edges| && g.edges[i].source == a && g.edges[i].target == b && g.edges[i].normal &&
      (falseBranch ==> g.edges[i].kind == BranchFalse)
  }

  ghost predicate NormalPath(g: Graph, guard: int, path: seq<int>) {
    path != [] && Connected(g, guard, path[0], true) && forall i :: 0 < i < |path| ==> Connected(g, path[i - 1], path[i], false)
  }

  lemma ConnectedMeans(g: Graph, a: int, b: int)
    ensures Opens(g, a, b) <==> Connected(g, a, b, true)
    ensures Link(g, a, b) <==> Connected(g, a, b, false)
  {
    if e :| e in g.edges && OpensTo(e, a, b) { var i :| 0 <= i < |g.edges| && g.edges[i] == e; }
    if e :| e in g.edges && LinksTo(e, a, b) { var i :| 0 <= i < |g.edges| && g.edges[i] == e; }
    if i :| 0 <= i < |g.edges| && g.edges[i].source == a && g.edges[i].target == b && g.edges[i].normal { assert g.edges[i] in g.edges; }
    if i :| 0 <= i < |g.edges| && g.edges[i].source == a && g.edges[i].target == b && g.edges[i].normal && g.edges[i].kind == BranchFalse {
      assert g.edges[i] in g.edges && OpensTo(g.edges[i], a, b);
    }
  }

  /** What is decided, edge by edge: normal paths from the false branch reach the block, and the normal exit only through it. */
  lemma RequiresMeans(g: Graph, guard: int, required: int)
    ensures Requires(g, guard, required) <==>
      && (exists path :: NormalPath(g, guard, path) && path[|path| - 1] == required)
      && forall path | NormalPath(g, guard, path) && path[|path| - 1] == g.normalExit :: required in path
  {
    forall path ensures FalsePath(g, guard, path) <==> NormalPath(g, guard, path) {
      forall a, b ensures (Opens(g, a, b) <==> Connected(g, a, b, true)) && (Link(g, a, b) <==> Connected(g, a, b, false)) {
        ConnectedMeans(g, a, b);
      }
    }
  }

  function Blocks(g: Graph): set<int> { set e <- g.edges :: e.target }

  ghost predicate Reached(g: Graph, guard: int, required: int, b: int) {
    exists path :: FalsePath(g, guard, path) && path[|path| - 1] == b && required !in path[..|path| - 1]
  }

  lemma OpensIsReached(g: Graph, guard: int, required: int, b: int)
    requires Opens(g, guard, b)
    ensures Reached(g, guard, required, b)
  {
    assert FalsePath(g, guard, [b]);
  }

  lemma LinkIsReached(g: Graph, guard: int, required: int, b: int, c: int)
    requires Reached(g, guard, required, b) && b != required && Link(g, b, c)
    ensures Reached(g, guard, required, c)
  {
    var path :| FalsePath(g, guard, path) && path[|path| - 1] == b && required !in path[..|path| - 1];
    var longer := path + [c];
    assert longer[..|path|] == path && path == path[..|path| - 1] + [b];
    assert FalsePath(g, guard, longer);
  }

  /** The search so far: what is queued or visited is reached, and visited blocks are expanded. */
  ghost predicate Searching(g: Graph, guard: int, required: int, queue: seq<int>, visited: set<int>) {
    && (forall b | b in queue || b in visited :: Reached(g, guard, required, b) && b in Blocks(g))
    && (forall b | Opens(g, guard, b) :: b in queue || b in visited)
    && (forall b, c | b in visited && b != required && Link(g, b, c) :: c in queue || c in visited)
    && (g.normalExit in visited ==> g.normalExit == required)
  }

  /** A finished search has visited every block that is reached. */
  lemma {:induction false} VisitedAll(g: Graph, guard: int, required: int, visited: set<int>, path: seq<int>)
    requires Searching(g, guard, required, [], visited) && FalsePath(g, guard, path) && required !in path[..|path| - 1]
    ensures path[|path| - 1] in visited
    decreases |path|
  {
    var n := |path| - 1;
    if n > 0 {
      var before := path[..n];
      assert before[..n - 1] == path[..n - 1] && before[n - 1] == path[n - 1];
      forall x | x in before[..n - 1] ensures x in before { }
      VisitedAll(g, guard, required, visited, before);
      assert path[n - 1] in before;
    }
  }

  /** Cutting a path at the first required block. */
  lemma {:induction false} FirstRequired(g: Graph, guard: int, required: int, path: seq<int>) returns (cut: seq<int>)
    requires FalsePath(g, guard, path) && required in path
    ensures FalsePath(g, guard, cut) && cut[|cut| - 1] == required && required !in cut[..|cut| - 1]
    decreases |path|
  {
    var n := |path| - 1;
    if required in path[..n] {
      cut := FirstRequired(g, guard, required, path[..n]);
    } else {
      cut := path;
    }
  }

  lemma SearchDecides(g: Graph, guard: int, required: int, visited: set<int>)
    requires Searching(g, guard, required, [], visited)
    ensures Requires(g, guard, required) <==> required in visited
  {
    if required in visited {
      forall path | FalsePath(g, guard, path) && path[|path| - 1] == g.normalExit ensures required in path {
        assert path[|path| - 1] in path;
        if required !in path { VisitedAll(g, guard, required, visited, path); }
      }
    }
    if path :| FalsePath(g, guard, path) && path[|path| - 1] == required {
      assert required in path;
      var cut := FirstRequired(g, guard, required, path);
      VisitedAll(g, guard, required, visited, cut);
    }
  }

  lemma ExitWithout(g: Graph, guard: int, required: int)
    requires Reached(g, guard, required, g.normalExit) && g.normalExit != required
    ensures !Requires(g, guard, required)
  {
  }

  method FalseTargets(g: Graph, guard: int) returns (queue: seq<int>)
    ensures forall b :: b in queue <==> Opens(g, guard, b)
  {
    queue := [];
    for i := 0 to |g.edges|
      invariant forall b :: b in queue <==> exists j :: 0 <= j < i && OpensTo(g.edges[j], guard, b)
    {
      var e := g.edges[i];
      if e.source == guard && e.kind == BranchFalse && e.normal { queue := queue + [e.target]; }
    }
  }

  method NormalTargets(g: Graph, current: int, queue: seq<int>) returns (queue': seq<int>)
    ensures forall b :: b in queue' <==> b in queue || Link(g, current, b)
    ensures queue <= queue'
  {
    queue' := queue;
    for i := 0 to |g.edges|
      invariant queue <= queue'
      invariant forall b :: b in queue' <==> b in queue || exists j :: 0 <= j < i && LinksTo(g.edges[j], current, b)
    {
      var e := g.edges[i];
      if e.source != current || !e.normal { continue; }
      queue' := queue' + [e.target];
    }
  }

  lemma Tail(queue: seq<int>)
    requires queue != []
    ensures forall b :: b in queue <==> b == queue[0] || b in queue[1..]
  {
  }

  lemma SearchStarts(g: Graph, guard: int, required: int, queue: seq<int>)
    requires forall b :: b in queue <==> Opens(g, guard, b)
    ensures Searching(g, guard, required, queue, {})
  {
    forall b | b in queue ensures Reached(g, guard, required, b) && b in Blocks(g) { OpensIsReached(g, guard, required, b); }
  }

  lemma SearchSkips(g: Graph, guard: int, required: int, queue: seq<int>, visited: set<int>)
    requires queue != [] && Searching(g, guard, required, queue, visited) && queue[0] in visited
    ensures Searching(g, guard, required, queue[1..], visited)
  {
  }

  /** The head of the queue has been visited and its normal successors queued, unless it is the required block. */
  lemma SearchContinues(g: Graph, guard: int, required: int, queue: seq<int>, visited: set<int>, queue': seq<int>)
    requires queue != [] && Searching(g, guard, required, queue, visited)
    requires queue[0] == g.normalExit ==> queue[0] == required
    requires forall b :: b in queue' <==> b in queue[1..] || (queue[0] != required && Link(g, queue[0], b))
    ensures Searching(g, guard, required, queue', visited + {queue[0]})
  {
    var current := queue[0];
    Tail(queue);
    assert current in queue;
    forall b | b in queue' && b !in queue ensures Reached(g, guard, required, b) && b in Blocks(g) {
      LinkIsReached(g, guard, required, current, b);
    }
  }

  ghost function Unvisited(g: Graph, visited: set<int>): nat { |Blocks(g) - visited| }

  lemma HeadIsReached(g: Graph, guard: int, required: int, queue: seq<int>, visited: set<int>)
    requires queue != [] && Searching(g, guard, required, queue, visited)
    ensures Reached(g, guard, required, queue[0])
    ensures queue[0] !in visited ==> Unvisited(g, visited + {queue[0]}) < Unvisited(g, visited)
  {
    var b := queue[0];
    assert b in queue;
    assert Blocks(g) - (visited + {b}) == (Blocks(g) - visited) - {b};
  }

  method ArrayFalseBranchRequiresBlock(g: Graph, guard: int, required: int) returns (r: bool)
    ensures r <==> Requires(g, guard, required)
  {
    var queue := FalseTargets(g, guard);
    if queue == [] { return false; }
    var visited: set<int> := {};
    var reachedRequired := false;
    SearchStarts(g, guard, required, queue);
    while queue != []
      invariant Searching(g, guard, required, queue, visited)
      invariant reachedRequired <==> required in visited
      decreases Unvisited(g, visited), |queue|
    {
      var current := queue[0];
      HeadIsReached(g, guard, required, queue, visited);
      if current in visited {
        SearchSkips(g, guard, required, queue, visited);
        queue := queue[1..];
        continue;
      }
      if current == required {
        SearchContinues(g, guard, required, queue, visited, queue[1..]);
        queue, visited, reachedRequired := queue[1..], visited + {current}, true;
        continue;
      }
      if current == g.normalExit {
        ExitWithout(g, guard, required);
        return false;
      }
      var next := NormalTargets(g, current, queue[1..]);
      SearchContinues(g, guard, required, queue, visited, next);
      queue, visited := next, visited + {current};
    }
    SearchDecides(g, guard, required, visited);
    r := reachedRequired;
  }
}
