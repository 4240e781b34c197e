/**
 One array policy ("lane") at one block of a control-flow graph: which physical lines it
 visits, when it stops, and what it offers along each outgoing edge.
 */
module LaneTransfer {
  import opened Wrappers

  datatype Edge = Edge(id: int, target: int, exceptional: bool, uncertain: bool)

  datatype Kind = Select | Case | OtherKind

  datatype Statement = Statement(kind: Kind, text: string, startLine: int, endLine: int)

  datatype Block = Block(statement: Option<Statement>, startLine: int)

  datatype Graph = Graph(entry: int, blocks: map<int, Block>, outgoing: map<int, seq<Edge>>)

  type Visit<!S> = (string, int, S) -> S

  /** The callbacks are deterministic; a missing one is `None`. */
  datatype Lane<!S> = Lane(
    graph: Option<Graph>, initial: S, visit: Option<Visit<S>>, sourceLineVisit: Option<Visit<S>>,
    edgeState: Option<(Block, Edge, S) -> S>, stop: Option<(string, int) -> bool>,
    reliable: Option<(Option<Statement>, S, S) -> bool>,
    sourceLines: bool, sourceLinesFor: Option<Statement -> bool>)

  /** A stopped block offers nothing. */
  datatype Transfer<S> = Stopped | Continues(out: S)

  predicate Blank(text: string) { forall c <- text :: c in " \t\r\n" }

  predicate IsLine(lines: seq<string>, n: int) { 1 <= n <= |lines| }

  function StartLine(b: Block, x: Statement): int { if x.startLine == 0 then b.startLine else x.startLine }

  function EndLine(b: Block, x: Statement): int { if x.endLine < StartLine(b, x) then StartLine(b, x) else x.endLine }

  /** The statement's own text, or the physical line when it has none. */
  function OwnText(lines: seq<string>, b: Block, x: Statement): string {
    if Blank(x.text) && IsLine(lines, StartLine(b, x)) then lines[StartLine(b, x) - 1] else x.text
  }

  // ---- What a visit to a block does ----------------------------------------------------

  /** One call of the visit callback. */
  datatype Call = Call(text: string, line: int)

  function Own(lines: seq<string>, b: Block, x: Statement): Call { Call(OwnText(lines, b, x), StartLine(b, x)) }

  predicate Stops<S>(lane: Lane<S>, c: Call) { lane.stop.Some? && lane.stop.value(c.text, c.line) }

  function Fold<S>(visit: Visit<S>, calls: seq<Call>, s: S): S {
    if calls == [] then s
    else
      var last := calls[|calls| - 1];
      visit(last.text, last.line, Fold(visit, calls[..|calls| - 1], s))
  }

  /** All calls feed one another unless one of them stops the lane. */
  ghost function Run<S>(lane: Lane<S>, visit: Visit<S>, calls: seq<Call>, s: S): Transfer<S> {
    if exists c <- calls :: Stops(lane, c) then Stopped else Continues(Fold(visit, calls, s))
  }

  /** The calls that are made: none after the first that stops the lane. */
  ghost function Made<S>(lane: Lane<S>, calls: seq<Call>): (m: seq<Call>) {
    if calls == [] then []
    else
      var m := Made(lane, calls[..|calls| - 1]);
      if m == calls[..|calls| - 1] && (m == [] || !Stops(lane, m[|m| - 1])) then calls else m
  }

  lemma {:induction false} MadeUpToStop<S>(lane: Lane<S>, calls: seq<Call>)
    ensures var m := Made(lane, calls);
      && m <= calls
      && (forall i :: 0 <= i < |m| - 1 ==> !Stops(lane, m[i]))
      && (m == calls || (m != [] && Stops(lane, m[|m| - 1])))
  {
    if calls != [] { MadeUpToStop(lane, calls[..|calls| - 1]); }
  }

  lemma RunExtends<S>(lane: Lane<S>, visit: Visit<S>, calls: seq<Call>, c: Call, s: S)
    ensures Run(lane, visit, calls + [c], s) ==
      match Run(lane, visit, calls, s)
      case Stopped => Stopped
      case Continues(out) => if Stops(lane, c) then Stopped else Continues(visit(c.text, c.line, out))
  {
    assert (calls + [c])[..|calls|] == calls;
    assert c in calls + [c] && forall d <- calls :: d in calls + [c];
    assert forall d <- calls + [c] :: d in calls || d == c;
  }

  lemma RunOne<S>(lane: Lane<S>, visit: Visit<S>, c: Call, s: S)
    ensures Run(lane, visit, [c], s) == if Stops(lane, c) then Stopped else Continues(visit(c.text, c.line, s))
    ensures Made(lane, [c]) == [c]
  {
    RunExtends(lane, visit, [], c, s);
    assert [] + [c] == [c];
  }

  /** A block's lines one after the other are its front and then its rest. */
  lemma {:induction false} RunSplits<S>(lane: Lane<S>, visit: Visit<S>, front: seq<Call>, rest: seq<Call>, s: S)
    ensures Run(lane, visit, front + rest, s) ==
      match Run(lane, visit, front, s)
      case Stopped => Stopped
      case Continues(out) => Run(lane, visit, rest, out)
  {
    if rest == [] {
      assert front + rest == front;
    } else {
      var n := |rest| - 1;
      assert front + rest == (front + rest[..n]) + [rest[n]] && rest == rest[..n] + [rest[n]];
      RunSplits(lane, visit, front, rest[..n], s);
      RunExtends(lane, visit, front + rest[..n], rest[n], s);
      match Run(lane, visit, front, s)
      case Stopped =>
      case Continues(out) => RunExtends(lane, visit, rest[..n], rest[n], out);
    }
  }

  /** The physical lines that hold text, from the first to the last. */
  function LineCalls(lines: seq<string>, start: int, end: int): seq<Call>
    requires 1 <= start && end <= |lines|
    decreases end - start
  {
    if end < start then []
    else LineCalls(lines, start, end - 1) + if Blank(lines[end - 1]) then [] else [Call(lines[end - 1], end)]
  }

  predicate IsTextLine(lines: seq<string>, c: Call) {
    IsLine(lines, c.line) && c.text == lines[c.line - 1] && !Blank(c.text)
  }

  lemma {:induction false} LineCallsHoldText(lines: seq<string>, start: int, end: int, i: nat)
    requires 1 <= start && end <= |lines| && i < |LineCalls(lines, start, end)|
    ensures var c := LineCalls(lines, start, end)[i]; start <= c.line <= end && IsTextLine(lines, c)
    decreases end - start
  {
    if i < |LineCalls(lines, start, end - 1)| { LineCallsHoldText(lines, start, end - 1, i); }
  }

  lemma {:induction false} TextLinesAreCalled(lines: seq<string>, start: int, end: int, c: Call)
    requires 1 <= start <= c.line <= end <= |lines| && IsTextLine(lines, c)
    ensures c in LineCalls(lines, start, end)
    decreases end - start
  {
    if c.line < end { TextLinesAreCalled(lines, start, end - 1, c); }
  }

  lemma {:induction false} LineCallsRise(lines: seq<string>, start: int, end: int, i: nat, j: nat)
    requires 1 <= start && end <= |lines| && i < j < |LineCalls(lines, start, end)|
    ensures LineCalls(lines, start, end)[i].line < LineCalls(lines, start, end)[j].line
    decreases end - start
  {
    var front := LineCalls(lines, start, end - 1);
    if j < |front| { LineCallsRise(lines, start, end - 1, i, j); } else { LineCallsHoldText(lines, start, end - 1, i); }
  }

  /** Every line that holds text once, in rising order, and nothing else. */
  lemma LineCallsAreTextLines(lines: seq<string>, start: int, end: int)
    requires 1 <= start && end <= |lines|
    ensures var calls := LineCalls(lines, start, end);
      && (forall c :: c in calls <==> start <= c.line <= end && IsTextLine(lines, c))
      && (forall i, j :: 0 <= i < j < |calls| ==> calls[i].line < calls[j].line)
  {
    var calls := LineCalls(lines, start, end);
    forall c ensures c in calls <==> start <= c.line <= end && IsTextLine(lines, c) {
      if c in calls {
        var i :| 0 <= i < |calls| && calls[i] == c;
        LineCallsHoldText(lines, start, end, i);
      } else if start <= c.line <= end && IsTextLine(lines, c) {
        TextLinesAreCalled(lines, start, end, c);
      }
    }
    forall i, j | 0 <= i < j < |calls| ensures calls[i].line < calls[j].line { LineCallsRise(lines, start, end, i, j); }
  }

  /** The calls a statement's block asks for; a header's block owns only its first physical line. */
  function SourceCalls(lines: seq<string>, b: Block, x: Statement, header: bool): seq<Call> {
    var start, end := StartLine(b, x), EndLine(b, x);
    if header && IsLine(lines, start) then [Call(lines[start - 1], start)]
    else if start < end && IsLine(lines, start) && IsLine(lines, end) then LineCalls(lines, start, end)
    else [Own(lines, b, x)]
  }

  // ---- The combined walk ---------------------------------------------------------------

  predicate SourceLines<S>(lane: Lane<S>, b: Block) {
    if lane.sourceLinesFor.Some? && b.statement.Some? then lane.sourceLinesFor.value(b.statement.value) else lane.sourceLines
  }

  predicate HeaderOnly<S>(lane: Lane<S>, x: Statement) { x.kind.Select? || (x.kind.Case? && lane.sourceLinesFor.None?) }

  function VisitFor<S>(lane: Lane<S>, b: Block): Visit<S>
    requires lane.visit.Some?
  {
    if SourceLines(lane, b) && lane.sourceLineVisit.Some? then lane.sourceLineVisit.value else lane.visit.value
  }

  function BlockCalls<S>(lane: Lane<S>, lines: seq<string>, b: Block): seq<Call> {
    if b.statement.None? then []
    else if !SourceLines(lane, b) then [Own(lines, b, b.statement.value)]
    else SourceCalls(lines, b, b.statement.value, HeaderOnly(lane, b.statement.value))
  }

  ghost function BlockTransfer<S>(lane: Lane<S>, lines: seq<string>, b: Block, s: S): Transfer<S>
    requires lane.visit.Some?
  {
    Run(lane, VisitFor(lane, b), BlockCalls(lane, lines, b), s)
  }

  /** What reaches an edge: exceptional and uncertain edges keep the state before the block. */
  function EdgeNext<S>(lane: Lane<S>, b: Block, sourceLines: bool, before: S, out: S, e: Edge): S {
    if e.exceptional || e.uncertain then
      if sourceLines && e.exceptional && lane.reliable.Some? && lane.reliable.value(b.statement, before, out) then out else before
    else if lane.edgeState.Some? then lane.edgeState.value(b, e, out)
    else out
  }

  datatype Offer<S> = Offer(target: int, incoming: S)

  function Outgoing(g: Graph, id: int): seq<Edge> { if id in g.outgoing then g.outgoing[id] else [] }

  ghost function OffersOf<S>(lane: Lane<S>, b: Block, id: int, before: S, t: Transfer<S>): seq<Offer<S>>
    requires lane.graph.Some?
  {
    match t
    case Stopped => []
    case Continues(out) =>
      var es := Outgoing(lane.graph.value, id);
      seq(|es|, i requires 0 <= i < |es| => Offer(es[i].target, EdgeNext(lane, b, SourceLines(lane, b), before, out, es[i])))
  }

  ghost function Offers<S>(lane: Lane<S>, lines: seq<string>, id: int, before: S): seq<Offer<S>> {
    if lane.graph.None? || lane.visit.None? || id !in lane.graph.value.blocks then []
    else
      var b := lane.graph.value.blocks[id];
      OffersOf(lane, b, id, before, BlockTransfer(lane, lines, b, before))
  }

  // ---- The single-lane walk ------------------------------------------------------------

  /** A lane the older walk can express: no selective source lines, no separate source-line visit. */
  predicate Plain<S>(lane: Lane<S>) {
    lane.graph.Some? && lane.visit.Some? && lane.sourceLineVisit.None? && lane.sourceLinesFor.None?
  }

  /** The older walk also keeps every `Case` at its header. */
  function LegacyCalls<S>(lane: Lane<S>, lines: seq<string>, b: Block): seq<Call> {
    if b.statement.None? then []
    else if !lane.sourceLines then [Own(lines, b, b.statement.value)]
    else SourceCalls(lines, b, b.statement.value, b.statement.value.kind.Select? || b.statement.value.kind.Case?)
  }

  ghost function LegacyTransfer<S>(lane: Lane<S>, lines: seq<string>, b: Block, s: S): Transfer<S>
    requires Plain(lane)
  {
    Run(lane, lane.visit.value, LegacyCalls(lane, lines, b), s)
  }

  ghost function LegacyOffers<S>(lane: Lane<S>, lines: seq<string>, id: int, before: S): seq<Offer<S>>
    requires Plain(lane)
  {
    if id !in lane.graph.value.blocks then []
    else
      var b := lane.graph.value.blocks[id];
      OffersOf(lane, b, id, before, LegacyTransfer(lane, lines, b, before))
  }

  lemma LegacyOffersAgree<S>(lane: Lane<S>, lines: seq<string>, id: int, before: S)
    requires Plain(lane)
    ensures LegacyOffers(lane, lines, id, before) == Offers(lane, lines, id, before)
  {
  }

  // ---- Line by line --------------------------------------------------------------------

  method VisitOne<S>(lane: Lane<S>, visit: Visit<S>, c: Call, before: S) returns (r: Transfer<S>, ghost made: seq<Call>)
    ensures r == Run(lane, visit, [c], before) && made == Made(lane, [c])
  {
    RunOne(lane, visit, c, before);
    var out := visit(c.text, c.line, before);
    made := [c];
    r := if lane.stop.Some? && lane.stop.value(c.text, c.line) then Stopped else Continues(out);
  }

  lemma {:induction false} MadeBefore<S>(lane: Lane<S>, front: seq<Call>, calls: seq<Call>)
    requires front <= calls
    ensures (forall c <- front :: !Stops(lane, c)) ==> Made(lane, front) == front
    ensures Made(lane, front) == front && front != [] && Stops(lane, front[|front| - 1]) ==> Made(lane, calls) == front
    decreases |calls|
  {
    if |front| < |calls| {
      MadeBefore(lane, front, calls[..|calls| - 1]);
    } else if front != [] {
      assert front == calls;
      MadeBefore(lane, front[..|front| - 1], front[..|front| - 1]);
    }
  }

  lemma {:induction false} LineCallsGrow(lines: seq<string>, start: int, mid: int, end: int)
    requires 1 <= start && mid <= end <= |lines|
    ensures LineCalls(lines, start, mid) <= LineCalls(lines, start, end)
    decreases end - mid
  {
    if mid < end { LineCallsGrow(lines, start, mid, end - 1); }
  }

  /** The lines before `line` have been visited with these calls, and none stopped the lane. */
  ghost predicate Passed<S>(lane: Lane<S>, visit: Visit<S>, lines: seq<string>, start: int, line: int, before: S, out: S, made: seq<Call>) {
    && 1 <= start && line <= |lines| + 1 && made == LineCalls(lines, start, line - 1)
    && Run(lane, visit, made, before) == Continues(out)
  }

  lemma SkipLine<S>(lane: Lane<S>, visit: Visit<S>, lines: seq<string>, start: int, line: int, before: S, out: S, made: seq<Call>)
    requires 1 <= start <= line <= |lines| && Passed(lane, visit, lines, start, line, before, out, made) && Blank(lines[line - 1])
    ensures Passed(lane, visit, lines, start, line + 1, before, out, made)
  {
    assert LineCalls(lines, start, line) == LineCalls(lines, start, line - 1);
  }

  lemma PassLine<S>(lane: Lane<S>, visit: Visit<S>, lines: seq<string>, start: int, line: int, before: S, out: S, made: seq<Call>)
    requires 1 <= start <= line <= |lines| && Passed(lane, visit, lines, start, line, before, out, made) && !Blank(lines[line - 1])
    requires !Stops(lane, Call(lines[line - 1], line))
    ensures Passed(lane, visit, lines, start, line + 1, before, visit(lines[line - 1], line, out), made + [Call(lines[line - 1], line)])
  {
    RunExtends(lane, visit, made, Call(lines[line - 1], line), before);
  }

  /** What the loop over the lines has to establish. */
  ghost predicate VisitedAll<S>(lane: Lane<S>, visit: Visit<S>, lines: seq<string>, start: int, end: int, before: S,
        r: Transfer<S>, made: seq<Call>)
    requires 1 <= start && end <= |lines|
  {
    r == Run(lane, visit, LineCalls(lines, start, end), before) && made == Made(lane, LineCalls(lines, start, end))
  }

  method VisitSourceLines<S>(lane: Lane<S>, visit: Visit<S>, lines: seq<string>, start: int, end: int,
        before: S) returns (r: Transfer<S>, ghost made: seq<Call>)
    requires 1 <= start <= end <= |lines|
    ensures VisitedAll(lane, visit, lines, start, end, before, r, made)
  {
    var out, line := before, start;
    made := [];
    while line <= end
      invariant start <= line <= end + 1 && Passed(lane, visit, lines, start, line, before, out, made)
      decreases end - line
    {
      var text := lines[line - 1];
      if Blank(text) {
        SkipLine(lane, visit, lines, start, line, before, out, made);
        line := line + 1;
        continue;
      }
      if lane.stop.Some? && lane.stop.value(text, line) {
        StopsHere(lane, visit, lines, start, line, end, before, out, made);
        return Stopped, made + [Call(text, line)];
      }
      PassLine(lane, visit, lines, start, line, before, out, made);
      made := made + [Call(text, line)];
      out := visit(text, line, out);
      line := line + 1;
    }
    AllPassed(lane, visit, lines, start, end, before, out, made);
    return Continues(out), made;
  }

  lemma AllPassed<S>(lane: Lane<S>, visit: Visit<S>, lines: seq<string>, start: int, end: int, before: S, out: S, made: seq<Call>)
    requires end <= |lines| && Passed(lane, visit, lines, start, end + 1, before, out, made)
    ensures VisitedAll(lane, visit, lines, start, end, before, Continues(out), made)
  {
    MadeBefore(lane, made, made);
  }

  lemma StopsHere<S>(lane: Lane<S>, visit: Visit<S>, lines: seq<string>, start: int, line: int, end: int, before: S, out: S, made: seq<Call>)
    requires 1 <= start <= line <= end <= |lines| && !Blank(lines[line - 1]) && Stops(lane, Call(lines[line - 1], line))
    requires Passed(lane, visit, lines, start, line, before, out, made)
    ensures VisitedAll(lane, visit, lines, start, end, before, Stopped, made + [Call(lines[line - 1], line)])
  {
    var front, calls := LineCalls(lines, start, line), LineCalls(lines, start, end);
    LineCallsGrow(lines, start, line, end);
    assert front[|front| - 1] == Call(lines[line - 1], line) && front[|front| - 1] in calls;
    assert front[..|front| - 1] == LineCalls(lines, start, line - 1);
    MadeBefore(lane, front[..|front| - 1], front[..|front| - 1]);
    MadeBefore(lane, front, calls);
  }

  method TransferBlock<S>(lane: Lane<S>, lines: seq<string>, b: Block, before: S)
    returns (r: Transfer<S>, ghost made: seq<Call>)
    requires lane.visit.Some?
    ensures r == BlockTransfer(lane, lines, b, before) && made == Made(lane, BlockCalls(lane, lines, b))
  {
    if b.statement.None? { return Continues(before), []; }
    var x := b.statement.value;
    var start, end := StartLine(b, x), EndLine(b, x);
    if !SourceLines(lane, b) {
      r, made := VisitOne(lane, lane.visit.value, Call(OwnText(lines, b, x), start), before);
      return;
    }
    var visit := if lane.sourceLineVisit.Some? then lane.sourceLineVisit.value else lane.visit.value;
    var caseHeaderOnly := x.kind.Case? && lane.sourceLinesFor.None?;
    if (x.kind.Select? || caseHeaderOnly) && start >= 1 && start <= |lines| {
      r, made := VisitOne(lane, visit, Call(lines[start - 1], start), before);
    } else if start == end && start >= 1 && start <= |lines| {
      r, made := VisitOne(lane, visit, Call(OwnText(lines, b, x), start), before);
    } else if start >= 1 && end <= |lines| {
      r, made := VisitSourceLines(lane, visit, lines, start, end, before);
    } else {
      r, made := VisitOne(lane, visit, Call(OwnText(lines, b, x), start), before);
    }
  }

  method TransferBlockLegacy<S>(lane: Lane<S>, lines: seq<string>, b: Block, before: S)
    returns (r: Transfer<S>, ghost made: seq<Call>)
    requires Plain(lane)
    ensures r == LegacyTransfer(lane, lines, b, before) && made == Made(lane, LegacyCalls(lane, lines, b))
  {
    if b.statement.None? { return Continues(before), []; }
    var x := b.statement.value;
    var start, end := StartLine(b, x), EndLine(b, x);
    var visit := lane.visit.value;
    if !lane.sourceLines {
      r, made := VisitOne(lane, visit, Call(OwnText(lines, b, x), start), before);
      return;
    }
    if (x.kind.Select? || x.kind.Case?) && start >= 1 && start <= |lines| {
      r, made := VisitOne(lane, visit, Call(lines[start - 1], start), before);
    } else if start == end && start >= 1 && start <= |lines| {
      r, made := VisitOne(lane, visit, Call(OwnText(lines, b, x), start), before);
    } else if start >= 1 && end <= |lines| {
      r, made := VisitSourceLines(lane, visit, lines, start, end, before);
    } else {
      r, made := VisitOne(lane, visit, Call(OwnText(lines, b, x), start), before);
    }
  }

  // ---- What follows --------------------------------------------------------------------

  predicate Visits(calls: seq<Call>, line: int) { exists c <- calls :: c.line == line }

  /** Which blocks visit a single line, and what the others visit. */
  lemma BlockVisits<S>(lane: Lane<S>, lines: seq<string>, b: Block)
    requires b.statement.Some?
    ensures var x := b.statement.value; var start, end := StartLine(b, x), EndLine(b, x); var calls := BlockCalls(lane, lines, b);
      && (!SourceLines(lane, b) || HeaderOnly(lane, x) || start == end || start < 1 || end > |lines| ==>
            |calls| == 1 && calls[0].line == start)
      && (SourceLines(lane, b) && !HeaderOnly(lane, x) && 1 <= start < end <= |lines| ==>
            forall n :: start <= n <= end ==> (Visits(calls, n) <==> !Blank(lines[n - 1])))
  {
    var x := b.statement.value;
    var start, end := StartLine(b, x), EndLine(b, x);
    if SourceLines(lane, b) && !HeaderOnly(lane, x) && 1 <= start < end <= |lines| {
      LineCallsAreTextLines(lines, start, end);
      forall n | start <= n <= end ensures Visits(LineCalls(lines, start, end), n) <==> !Blank(lines[n - 1]) {
        if !Blank(lines[n - 1]) { assert Call(lines[n - 1], n) in LineCalls(lines, start, end); }
      }
    }
  }

  /** Blank lines inside a block's range never matter: what they hold may be exchanged freely. */
  lemma {:induction false} BlankLinesAreNeutral(lines: seq<string>, other: seq<string>, start: int, end: int)
    requires 1 <= start && end <= |lines| == |other|
    requires forall i :: 0 <= i < |lines| ==> lines[i] == other[i] || (Blank(lines[i]) && Blank(other[i]))
    ensures LineCalls(lines, start, end) == LineCalls(other, start, end)
    decreases end - start
  {
    if start <= end { BlankLinesAreNeutral(lines, other, start, end - 1); }
  }

  // ---- What an edge carries ------------------------------------------------------------------

  /** The lane is at block `b`, does not stop there, and its edge `i` leaves the block. */
  ghost predicate Leaves<S>(lane: Lane<S>, lines: seq<string>, id: int, s: S, i: nat) {
    && lane.graph.Some? && lane.visit.Some? && id in lane.graph.value.blocks && i < |Outgoing(lane.graph.value, id)|
    && forall c <- BlockCalls(lane, lines, lane.graph.value.blocks[id]) :: !Stops(lane, c)
  }

  /** The allocation is certain even if the statement faults. */
  ghost predicate Reliable<S>(lane: Lane<S>, lines: seq<string>, id: int, s: S, e: Edge)
    requires lane.graph.Some? && lane.visit.Some? && id in lane.graph.value.blocks
  {
    var b := lane.graph.value.blocks[id];
    e.exceptional && SourceLines(lane, b) && lane.reliable.Some? &&
    lane.reliable.value(b.statement, s, Fold(VisitFor(lane, b), BlockCalls(lane, lines, b), s))
  }

  /**
   An edge that may stand for a fault carries the state before the block, whatever the visits and
   edge refinements make of it, unless a reliable allocation is carried across an exceptional edge;
   an uncertain edge that is not exceptional never carries what the block does.
   */
  lemma FaultKeepsBefore<S>(lane: Lane<S>, lines: seq<string>, id: int, s: S, i: nat)
    requires Leaves(lane, lines, id, s, i)
    requires var e := Outgoing(lane.graph.value, id)[i]; (e.exceptional || e.uncertain) && !Reliable(lane, lines, id, s, e)
    ensures |Offers(lane, lines, id, s)| == |Outgoing(lane.graph.value, id)|
    ensures Offers(lane, lines, id, s)[i] == Offer(Outgoing(lane.graph.value, id)[i].target, s)
  {
  }

  /** A reliable allocation crosses the exceptional edge. */
  lemma ReliableCrosses<S>(lane: Lane<S>, lines: seq<string>, id: int, s: S, i: nat)
    requires Leaves(lane, lines, id, s, i) && Reliable(lane, lines, id, s, Outgoing(lane.graph.value, id)[i])
    ensures var b := lane.graph.value.blocks[id];
      |Offers(lane, lines, id, s)| == |Outgoing(lane.graph.value, id)| &&
      Offers(lane, lines, id, s)[i] ==
        Offer(Outgoing(lane.graph.value, id)[i].target, Fold(VisitFor(lane, b), BlockCalls(lane, lines, b), s))
  {
  }

  /** A certain normal edge carries what the block's calls make of the state, as the edge refines it. */
  lemma NormalCarriesFold<S>(lane: Lane<S>, lines: seq<string>, id: int, s: S, i: nat)
    requires Leaves(lane, lines, id, s, i)
    requires var e := Outgoing(lane.graph.value, id)[i]; !e.exceptional && !e.uncertain
    ensures var b, e := lane.graph.value.blocks[id], Outgoing(lane.graph.value, id)[i];
      var out := Fold(VisitFor(lane, b), BlockCalls(lane, lines, b), s);
      |Offers(lane, lines, id, s)| == |Outgoing(lane.graph.value, id)| &&
      Offers(lane, lines, id, s)[i] == Offer(e.target, if lane.edgeState.Some? then lane.edgeState.value(b, e, out) else out)
  {
  }

  /** A lane that stops at a block offers nothing from it. */
  lemma StoppedOffersNothing<S>(lane: Lane<S>, lines: seq<string>, id: int, s: S)
    requires lane.graph.Some? && lane.visit.Some? && id in lane.graph.value.blocks
    requires exists c <- BlockCalls(lane, lines, lane.graph.value.blocks[id]) :: Stops(lane, c)
    ensures Offers(lane, lines, id, s) == []
  {
  }

  /** Two policies that differ only in visits and edge refinements send the same along a fault they do not trust. */
  lemma FaultIgnoresPolicy<S>(lane: Lane<S>, other: Lane<S>, lines: seq<string>, id: int, s: S, i: nat)
    requires other == lane.(visit := other.visit, sourceLineVisit := other.sourceLineVisit, edgeState := other.edgeState)
    requires lane.reliable.None? && other.visit.Some? && Leaves(lane, lines, id, s, i)
    requires var e := Outgoing(lane.graph.value, id)[i]; e.exceptional || e.uncertain
    ensures |Offers(lane, lines, id, s)| == |Offers(other, lines, id, s)| > i
    ensures Offers(lane, lines, id, s)[i] == Offers(other, lines, id, s)[i]
  {
    FaultKeepsBefore(lane, lines, id, s, i);
    FaultKeepsBefore(other, lines, id, s, i);
  }

  // ---- Which lines, and which text -----------------------------------------------------------

  predicate OnlyBlanks(text: string) {
    forall i :: 0 <= i < |text| ==> text[i] == ' ' || text[i] == '\t' || text[i] == '\r' || text[i] == '\n'
  }

  /** A statement starts at its own line, or at its block's if it has none, and never ends before it starts. */
  predicate Spans(b: Block, x: Statement, first: int, last: int) {
    && (x.startLine != 0 ==> first == x.startLine) && (x.startLine == 0 ==> first == b.startLine)
    && (x.endLine >= first ==> last == x.endLine) && (x.endLine < first ==> last == first)
  }

  /** The lane reads the physical lines of the statement: as its selection says, or as it does for all statements. */
  predicate ReadsLines<S>(lane: Lane<S>, x: Statement) {
    match lane.sourceLinesFor
    case Some(selects) => selects(x)
    case None => lane.sourceLines
  }

  /** One visit with the statement's own text, or with the physical line if that text is blank and the line exists. */
  predicate VisitsText(lines: seq<string>, x: Statement, first: int, calls: seq<Call>) {
    |calls| == 1 && calls[0].line == first &&
    (OnlyBlanks(x.text) && 1 <= first && first <= |lines| ==> calls[0].text == lines[first - 1]) &&
    (!OnlyBlanks(x.text) || first < 1 || first > |lines| ==> calls[0].text == x.text)
  }

  /** The calls of a block, by the shape of its statement. */
  lemma CallsMean<S>(lane: Lane<S>, lines: seq<string>, b: Block, x: Statement, first: int, last: int)
    requires b.statement == Some(x) && Spans(b, x, first, last)
    ensures var calls := BlockCalls(lane, lines, b);
      var header := x.kind == Select || (x.kind == Case && lane.sourceLinesFor == None);
      && (!ReadsLines(lane, x) ==> VisitsText(lines, x, first, calls))
      && (ReadsLines(lane, x) && header && 1 <= first && first <= |lines| ==> calls == [Call(lines[first - 1], first)])
      && (ReadsLines(lane, x) && header && (first < 1 || first > |lines|) ==> VisitsText(lines, x, first, calls))
      && (ReadsLines(lane, x) && !header && (first == last || first < 1 || last > |lines|) ==> VisitsText(lines, x, first, calls))
      && (ReadsLines(lane, x) && !header && 1 <= first && first < last && last <= |lines| ==>
            forall c :: c in calls <==> first <= c.line <= last && c.text == lines[c.line - 1] && !OnlyBlanks(c.text))
  {
    OwnMeans(lines, b, x, first, last);
    if ReadsLines(lane, x) && 1 <= first < last <= |lines| && !HeaderOnly(lane, x) { RangeMeans(lines, first, last); }
  }

  lemma OwnMeans(lines: seq<string>, b: Block, x: Statement, first: int, last: int)
    requires Spans(b, x, first, last)
    ensures StartLine(b, x) == first && EndLine(b, x) == last && VisitsText(lines, x, first, [Own(lines, b, x)])
  {
    BlankMeans(x.text);
  }

  lemma RangeMeans(lines: seq<string>, first: int, last: int)
    requires 1 <= first <= last <= |lines|
    ensures forall c :: c in LineCalls(lines, first, last) <==>
      first <= c.line <= last && c.text == lines[c.line - 1] && !OnlyBlanks(c.text)
  {
    LineCallsAreTextLines(lines, first, last);
    forall t: string ensures OnlyBlanks(t) <==> Blank(t) { BlankMeans(t); }
  }

  lemma BlankMeans(t: string)
    ensures OnlyBlanks(t) <==> Blank(t)
  {
    if Blank(t) { forall i | 0 <= i < |t| ensures t[i] in " \t\r\n" { assert t[i] in t; } }
  }
}
