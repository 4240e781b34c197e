/**
 What the conditional-compilation bookkeeping counts: on every well-nested procedure, two at
 most, the largest number of operations any choice of one branch per `#If` group executes.
 */
module ConditionalCount {
  import opened ConditionalCompilation

  // ---- Well-nested code ----------------------------------------------------------------

  /** Statements in source order; a choice is one `#If` group with its alternatives. */
  datatype Code = End | Plain(records: bool, rest: Code) | Choice(group: string, alternatives: Alternatives, rest: Code)

  datatype Alternatives = NoMore | Alternative(body: Code, others: Alternatives)

  /** One statement of the flattened code: its branch path, and whether it records an operation. */
  datatype Step = Step(path: seq<Branch>, records: bool)

  function Flatten(code: Code, path: seq<Branch>): seq<Step> {
    match code
    case End => []
    case Plain(records, rest) => [Step(path, records)] + Flatten(rest, path)
    case Choice(g, alts, rest) => FlattenAlternatives(alts, g, 0, path) + Flatten(rest, path)
  }

  function FlattenAlternatives(alts: Alternatives, g: string, n: nat, path: seq<Branch>): seq<Step> {
    match alts
    case NoMore => []
    case Alternative(body, others) => Flatten(body, path + [Branch(g, n)]) + FlattenAlternatives(others, g, n + 1, path)
  }

  function Groups(code: Code): set<string> {
    match code
    case End => {}
    case Plain(_, rest) => Groups(rest)
    case Choice(g, alts, rest) => {g} + AlternativeGroups(alts) + Groups(rest)
  }

  function AlternativeGroups(alts: Alternatives): set<string> {
    match alts
    case NoMore => {}
    case Alternative(body, others) => Groups(body) + AlternativeGroups(others)
  }

  /** Group names come from source positions, so no two groups share one. */
  ghost predicate Distinct(code: Code) {
    match code
    case End => true
    case Plain(_, rest) => Distinct(rest)
    case Choice(g, alts, rest) =>
      && g !in AlternativeGroups(alts) + Groups(rest) && AlternativeGroups(alts) !! Groups(rest)
      && DistinctAlternatives(alts) && Distinct(rest)
  }

  ghost predicate DistinctAlternatives(alts: Alternatives) {
    match alts
    case NoMore => true
    case Alternative(body, others) =>
      Distinct(body) && DistinctAlternatives(others) && Groups(body) !! AlternativeGroups(others)
  }

  // ---- The maximum over all choices ----------------------------------------------------

  function Max(a: nat, b: nat): nat { if a < b then b else a }

  function MaxOps(code: Code): nat {
    match code
    case End => 0
    case Plain(records, rest) => (if records then 1 else 0) + MaxOps(rest)
    case Choice(_, alts, rest) => MaxAlternative(alts) + MaxOps(rest)
  }

  function MaxAlternative(alts: Alternatives): nat {
    match alts
    case NoMore => 0
    case Alternative(body, others) => Max(MaxOps(body), MaxAlternative(others))
  }

  /** A compiled module picks one branch of a group, or none when no condition holds. */
  type Selection = map<string, nat>

  function OpsUnder(code: Code, c: Selection): nat {
    match code
    case End => 0
    case Plain(records, rest) => (if records then 1 else 0) + OpsUnder(rest, c)
    case Choice(g, alts, rest) => (if g in c then OpsOfBranch(alts, c[g], c) else 0) + OpsUnder(rest, c)
  }

  function OpsOfBranch(alts: Alternatives, n: nat, c: Selection): nat {
    match alts
    case NoMore => 0
    case Alternative(body, others) => if n == 0 then OpsUnder(body, c) else OpsOfBranch(others, n - 1, c)
  }

  lemma {:induction false} NoSelectionExceeds(code: Code, c: Selection)
    ensures OpsUnder(code, c) <= MaxOps(code)
  {
    match code
    case End =>
    case Plain(_, rest) => NoSelectionExceeds(rest, c);
    case Choice(g, alts, rest) =>
      NoSelectionExceeds(rest, c);
      if g in c { NoBranchExceeds(alts, c[g], c); }
  }

  lemma {:induction false} NoBranchExceeds(alts: Alternatives, n: nat, c: Selection)
    ensures OpsOfBranch(alts, n, c) <= MaxAlternative(alts)
  {
    match alts
    case NoMore =>
    case Alternative(body, others) =>
      if n == 0 { NoSelectionExceeds(body, c); } else { NoBranchExceeds(others, n - 1, c); }
  }

  ghost predicate Agree(c: Selection, d: Selection, groups: set<string>) {
    forall g <- groups :: (g in c <==> g in d) && (g in c ==> c[g] == d[g])
  }

  lemma {:induction false} OnlyOwnGroupsMatter(code: Code, c: Selection, d: Selection)
    requires Agree(c, d, Groups(code))
    ensures OpsUnder(code, c) == OpsUnder(code, d)
  {
    match code
    case End =>
    case Plain(_, rest) => OnlyOwnGroupsMatter(rest, c, d);
    case Choice(g, alts, rest) =>
      OnlyOwnGroupsMatter(rest, c, d);
      if g in c { OnlyOwnGroupsMatterInBranch(alts, c[g], c, d); }
  }

  lemma {:induction false} OnlyOwnGroupsMatterInBranch(alts: Alternatives, n: nat, c: Selection, d: Selection)
    requires Agree(c, d, AlternativeGroups(alts))
    ensures OpsOfBranch(alts, n, c) == OpsOfBranch(alts, n, d)
  {
    match alts
    case NoMore =>
    case Alternative(body, others) =>
      if n == 0 { OnlyOwnGroupsMatter(body, c, d); } else { OnlyOwnGroupsMatterInBranch(others, n - 1, c, d); }
  }

  /** A selection that attains the maximum. */
  lemma {:induction false} BestSelection(code: Code) returns (c: Selection)
    requires Distinct(code)
    ensures c.Keys <= Groups(code) && OpsUnder(code, c) == MaxOps(code)
  {
    match code
    case End => c := map[];
    case Plain(_, rest) => c := BestSelection(rest);
    case Choice(g, alts, rest) =>
      var d := BestSelection(rest);
      var n, e := BestBranch(alts);
      c := d + e + map[g := n];
      OnlyOwnGroupsMatter(rest, c, d);
      OnlyOwnGroupsMatterInBranch(alts, n, c, e);
  }

  lemma {:induction false} BestBranch(alts: Alternatives) returns (n: nat, c: Selection)
    requires DistinctAlternatives(alts)
    ensures c.Keys <= AlternativeGroups(alts) && OpsOfBranch(alts, n, c) == MaxAlternative(alts)
  {
    match alts
    case NoMore => n, c := 0, map[];
    case Alternative(body, others) =>
      var d := BestSelection(body);
      var m, e := BestBranch(others);
      if MaxOps(body) >= MaxAlternative(others) {
        n, c := 0, d;
      } else {
        n, c := m + 1, e;
      }
  }

  // ---- Running the bookkeeping ---------------------------------------------------------

  function Advance(c: Counter, s: Step): Counter {
    var d := Sync(c, s.path);
    if s.records then Record(d) else d
  }

  function Run(c: Counter, steps: seq<Step>): Counter
    decreases |steps|
  {
    if steps == [] then c else Run(Advance(c, steps[0]), steps[1..])
  }

  lemma {:induction false} RunConcat(c: Counter, a: seq<Step>, b: seq<Step>)
    ensures Run(c, a + b) == Run(Run(c, a), b)
    decreases |a|
  {
    if a == [] {
      assert a + b == b;
    } else {
      assert (a + b)[1..] == a[1..] + b;
      RunConcat(Advance(c, a[0]), a[1..], b);
    }
  }

  function Min2(n: nat): nat { if n < 2 then n else 2 }

  /** The counters never leave the range 0..2. */
  ghost predicate Small(c: Counter) {
    c.operations <= 2 && forall f <- c.frames :: f.base <= 2 && f.ops <= 2 && f.best <= 2
  }

  /** The first frames of the stack are exactly the given branches. */
  ghost predicate Inside(c: Counter, path: seq<Branch>) {
    Small(c) && |path| <= |c.frames| && forall i :: 0 <= i < |path| ==> Branch(c.frames[i].group, c.frames[i].branch) == path[i]
  }

  /** The next frame, if any, belongs to another group. */
  ghost predicate Outside(c: Counter, n: nat, groups: set<string>) {
    |c.frames| > n ==> c.frames[n].group !in groups
  }

  /** Closes every frame beyond the first `n`. */
  function CommitTo(c: Counter, n: nat): Counter
    decreases |c.frames|
  {
    if |c.frames| <= n then c else CommitTo(Commit(c), n)
  }

  /** `d` has counted `k` more operations than `c` in the innermost branch and changed nothing else. */
  ghost predicate Grown(c: Counter, d: Counter, k: nat) {
    && |d.frames| == |c.frames|
    && d.multiple == (c.multiple || (k > 0 && Current(c) + k >= 2))
    && if c.frames == [] then d.operations == Min2(c.operations + k)
       else
         && d.operations == c.operations && d.frames == c.frames[|c.frames| - 1 := Top(c).(ops := Top(d).ops)]
         && Current(d) == Min2(Current(c) + k)
  }

  lemma GrownSum(c: Counter, d: Counter, e: Counter, k: nat, l: nat)
    requires Small(c) && Grown(c, d, k) && Grown(d, e, l)
    ensures Grown(c, e, k + l)
  {
  }

  lemma RecordGrows(c: Counter)
    requires Small(c)
    ensures Small(Record(c)) && Grown(c, Record(c), 1)
  {
  }

  lemma CommitShape(c: Counter)
    requires Small(c) && c.frames != []
    ensures Small(Commit(c)) && |Commit(c).frames| == |c.frames| - 1
    ensures forall i :: 0 <= i < |c.frames| - 1 ==>
      Commit(c).frames[i] == if i == |c.frames| - 2 then c.frames[i].(ops := Commit(c).frames[i].ops) else c.frames[i]
  {
  }

  lemma {:induction false} CommitToShape(c: Counter, n: nat)
    requires Small(c) && n <= |c.frames|
    ensures Small(CommitTo(c, n)) && |CommitTo(c, n).frames| == n
    ensures forall i :: 0 <= i < n ==>
      CommitTo(c, n).frames[i] == if i == n - 1 then c.frames[i].(ops := CommitTo(c, n).frames[i].ops) else c.frames[i]
    decreases |c.frames|
  {
    if |c.frames| > n {
      CommitShape(c);
      CommitToShape(Commit(c), n);
    }
  }

  lemma {:induction false} CommitToTwice(c: Counter, m: nat, n: nat)
    requires Small(c) && n <= m <= |c.frames|
    ensures CommitTo(CommitTo(c, m), n) == CommitTo(c, n)
    decreases |c.frames|
  {
    if |c.frames| > m {
      CommitShape(c);
      CommitToTwice(Commit(c), m, n);
    }
  }

  // ---- Synchronising with a branch path ------------------------------------------------

  lemma {:induction false} CommonIs(frames: seq<Frame>, path: seq<Branch>, n: nat)
    requires n <= |frames| && n <= |path|
    requires forall i :: 0 <= i < n ==> Branch(frames[i].group, frames[i].branch) == path[i]
    requires n < |frames| && n < |path| ==> Branch(frames[n].group, frames[n].branch) != path[n]
    ensures Common(frames, path) == n
  {
    if n > 0 { CommonIs(frames[1..], path[1..], n - 1); }
  }

  lemma {:induction false} UnwindIs(c: Counter, n: nat, path: seq<Branch>)
    requires Small(c) && n <= |c.frames| && n <= |path|
    ensures Unwind(c, n, path) == CommitTo(c, if SameGroupAt(c, n, path) then n + 1 else n)
    decreases |c.frames|
  {
    if |c.frames| > n && !(|c.frames| == n + 1 && SameGroupAt(c, n, path)) {
      CommitShape(c);
      UnwindIs(Commit(c), n, path);
    }
  }

  /** Returning to an enclosing branch closes what was open beyond it. */
  lemma SyncReturns(c: Counter, path: seq<Branch>)
    requires Inside(c, path)
    ensures Sync(c, path) == CommitTo(c, |path|) && Inside(CommitTo(c, |path|), path)
  {
    CommonIs(c.frames, path, |path|);
    UnwindIs(c, |path|, path);
    CommitToShape(c, |path|);
  }

  lemma {:induction false} ExtendVia(c: Counter, path: seq<Branch>, longer: seq<Branch>)
    requires |c.frames| <= |path| && path <= longer
    ensures Extend(Extend(c, path), longer) == Extend(c, longer)
    ensures |Extend(c, path).frames| == |path| && c.frames <= Extend(c, path).frames
    ensures forall i :: |c.frames| <= i < |path| ==> Branch(Extend(c, path).frames[i].group, Extend(c, path).frames[i].branch) == path[i]
    ensures Small(c) ==> Small(Extend(c, path))
    decreases |path| - |c.frames|
  {
    if |c.frames| < |path| {
      var b := path[|c.frames|];
      ExtendVia(c.(frames := c.frames + [Frame(b.group, b.branch, Current(c), 0, 0)]), path, longer);
    }
  }

  /** Opening branch `b` of a group, whether the group is new or another branch of it is open. */
  function Enter(c: Counter, n: nat, b: Branch): Counter
    requires n <= |c.frames|
  {
    if n < |c.frames| && c.frames[n].group == b.group then
      var d := CommitTo(c, n + 1);
      if n < |d.frames| then d.(frames := d.frames[n := Remember(d.frames[n]).(branch := b.branch, ops := 0)]) else d
    else
      var d := CommitTo(c, n);
      d.(frames := d.frames + [Frame(b.group, b.branch, Current(d), 0, 0)])
  }

  lemma EnterIsInside(c: Counter, path: seq<Branch>, b: Branch)
    requires Inside(c, path)
    ensures var e := Enter(c, |path|, b); Inside(e, path + [b]) && |e.frames| == |path| + 1
  {
    var n := |path|;
    CommitToShape(c, n);
    if n < |c.frames| { CommitToShape(c, n + 1); }
  }

  /** The first statement of another branch enters that branch before anything nested in it. */
  lemma SyncEnters(c: Counter, path: seq<Branch>, b: Branch, q: seq<Branch>)
    requires Inside(c, path) && path + [b] <= q
    requires |c.frames| > |path| ==> Branch(c.frames[|path|].group, c.frames[|path|].branch) != b
    ensures Sync(c, q) == Sync(Enter(c, |path|, b), q)
  {
    var n := |path|;
    var e := Enter(c, n, b);
    assert q[n] == b && forall i :: 0 <= i < n ==> q[i] == path[i];
    EnterIsInside(c, path, b);
    CommonIs(c.frames, q, n);
    UnwindIs(c, n, q);
    CommonIs(e.frames, q, n + 1);
    UnwindIs(e, n + 1, q);
    CommitToShape(c, n);
    if n < |c.frames| { CommitToShape(c, n + 1); }
    var d := Switch(Unwind(c, n, q), n, q);
    if n < |c.frames| && c.frames[n].group == b.group {
      assert d == e;
    } else {
      assert Extend(d, path + [b]) == e by { assert (path + [b])[n] == b; assert Extend(e, path + [b]) == e; }
      ExtendVia(d, path + [b], q);
    }
  }

  // ---- Running well-nested code --------------------------------------------------------

  lemma {:induction false} FlattenExtends(code: Code, path: seq<Branch>)
    ensures forall s <- Flatten(code, path) :: path <= s.path
    ensures Flatten(code, path) == [] ==> MaxOps(code) == 0
  {
    match code
    case End =>
    case Plain(_, rest) => FlattenExtends(rest, path);
    case Choice(g, alts, rest) => FlattenExtends(rest, path); FlattenAlternativesExtends(alts, g, 0, path);
  }

  lemma {:induction false} FlattenAlternativesExtends(alts: Alternatives, g: string, n: nat, path: seq<Branch>)
    ensures forall s <- FlattenAlternatives(alts, g, n, path) :: path <= s.path
    ensures FlattenAlternatives(alts, g, n, path) == [] ==> MaxAlternative(alts) == 0
  {
    match alts
    case NoMore =>
    case Alternative(body, others) =>
      FlattenExtends(body, path + [Branch(g, n)]);
      FlattenAlternativesExtends(others, g, n + 1, path);
  }

  /** Group `g` under `path` has counted `k` operations at most per branch, starting from `d`. */
  ghost predicate Counted(c: Counter, path: seq<Branch>, g: string, d: Counter, k: nat) {
    var n := |path|;
    && Inside(c, path) && Small(d) && |d.frames| == n
    && if n < |c.frames| && c.frames[n].group == g then
         var e := CommitTo(c, n + 1);
         && c.frames[..n] == d.frames && c.frames[n].base == Current(d) && |e.frames| == n + 1
         && (var f := Remember(e.frames[n]); SaturatedAdd(f.base, f.best) == Min2(Current(d) + k))
         && e.operations == d.operations
         && e.multiple == (d.multiple || (k > 0 && Current(d) + k >= 2))
       else k == 0 && CommitTo(c, n) == d
  }

  /** Closing the group adds its best branch to the enclosing one. */
  lemma CountedCloses(c: Counter, path: seq<Branch>, g: string, d: Counter, k: nat)
    requires Counted(c, path, g, d, k)
    ensures Grown(d, CommitTo(c, |path|), k)
  {
    var n := |path|;
    if n < |c.frames| && c.frames[n].group == g {
      var e := CommitTo(c, n + 1);
      CommitToShape(c, n + 1);
      CommitToTwice(c, n + 1, n);
      assert e.frames[..n] == d.frames;
      assert CommitTo(e, n) == Commit(e);
      CommitAdds(e, d, k);
    }
  }

  /** Closing the innermost frame leaves the branch below with what it had and what the frame adds. */
  lemma CommitAdds(e: Counter, d: Counter, k: nat)
    requires Small(d) && |e.frames| == |d.frames| + 1 && e.frames[..|d.frames|] == d.frames && e.operations == d.operations
    requires var f := Remember(Top(e)); SaturatedAdd(f.base, f.best) == Min2(Current(d) + k)
    requires e.multiple == (d.multiple || (k > 0 && Current(d) + k >= 2))
    ensures Grown(d, Commit(e), k)
  {
    var g := Commit(e);
    if d.frames == [] {
      assert g.frames == [] && g.operations == Min2(d.operations + k);
    } else {
      var n := |d.frames| - 1;
      assert Top(d) == d.frames[n];
      assert g.frames == d.frames[n := Top(d).(ops := Top(g).ops)];
    }
  }

  /** The state in which another branch of the group starts. */
  lemma EnterCounts(c: Counter, path: seq<Branch>, b: Branch, d: Counter, k: nat)
    requires Counted(c, path, b.group, d, k)
    ensures var e := Enter(c, |path|, b);
      && Inside(e, path + [b]) && |e.frames| == |path| + 1 && e.frames[..|path|] == d.frames
      && Current(e) == Current(d) && Top(e).base == Current(d) && Top(e).ops == 0
      && SaturatedAdd(Top(e).base, Top(e).best) == Min2(Current(d) + k) && e.operations == d.operations
      && e.multiple == (d.multiple || (k > 0 && Current(d) + k >= 2))
  {
    var n := |path|;
    EnterIsInside(c, path, b);
    CommitToShape(c, n);
    if n < |c.frames| && c.frames[n].group == b.group {
      CommitToShape(c, n + 1);
      assert CommitTo(c, n + 1).frames[..n] == d.frames;
    }
  }

  lemma BestOfTwo(base: nat, best: nat, ops: nat, k: nat, l: nat)
    requires base <= 2 && best <= 2 && ops <= 2
    requires SaturatedAdd(base, best) == Min2(base + k) && SaturatedAdd(base, ops) == Min2(base + l)
    ensures SaturatedAdd(base, if ops > best then ops else best) == Min2(base + Max(k, l))
  {
  }

  /** One more branch has run from where `EnterCounts` left it. */
  lemma BranchCounted(e: Counter, f: Counter, path: seq<Branch>, b: Branch, d: Counter, k: nat, l: nat)
    requires Inside(e, path + [b]) && |e.frames| == |path| + 1 && e.frames[..|path|] == d.frames && Small(d)
    requires Current(e) == Current(d) && Top(e).base == Current(d) && Top(e).ops == 0
    requires SaturatedAdd(Top(e).base, Top(e).best) == Min2(Current(d) + k) && e.operations == d.operations
    requires e.multiple == (d.multiple || (k > 0 && Current(d) + k >= 2))
    requires Inside(f, path + [b]) && Grown(e, CommitTo(f, |path| + 1), l)
    ensures Counted(f, path, b.group, d, Max(k, l))
  {
    var n := |path|;
    var h := CommitTo(f, n + 1);
    CommitToShape(f, n + 1);
    assert (path + [b])[n] == b && forall i :: 0 <= i < n ==> (path + [b])[i] == path[i];
    assert f.frames[..n] == d.frames;
    BestOfTwo(Top(e).base, Top(e).best, Top(h).ops, k, l);
  }

  lemma RunEnters(c: Counter, steps: seq<Step>, path: seq<Branch>, b: Branch)
    requires Inside(c, path) && steps != [] && forall s <- steps :: path + [b] <= s.path
    requires |c.frames| > |path| ==> Branch(c.frames[|path|].group, c.frames[|path|].branch) != b
    ensures Run(c, steps) == Run(Enter(c, |path|, b), steps)
  {
    assert path + [b] <= steps[0].path;
    SyncEnters(c, path, b, steps[0].path);
  }

  /** From `c` to `d`, code with these groups ran in branch `path` and counted `k` operations. */
  ghost predicate Ran(c: Counter, d: Counter, path: seq<Branch>, groups: set<string>, k: nat) {
    var n := |path|;
    && Inside(c, path) && Inside(d, path) && Grown(CommitTo(c, n), CommitTo(d, n), k)
    && (|d.frames| > n && d.frames[n].group !in groups ==> |c.frames| > n && d.frames[n].group == c.frames[n].group)
  }

  lemma RanSum(c: Counter, d: Counter, e: Counter, path: seq<Branch>, g: set<string>, h: set<string>, k: nat, l: nat)
    requires Ran(c, d, path, g, k) && Ran(d, e, path, h, l)
    ensures Ran(c, e, path, g + h, k + l)
  {
    CommitToShape(c, |path|);
    GrownSum(CommitTo(c, |path|), CommitTo(d, |path|), CommitTo(e, |path|), k, l);
  }

  lemma NothingRan(c: Counter, path: seq<Branch>)
    requires Inside(c, path)
    ensures Ran(c, c, path, {}, 0)
  {
    CommitToShape(c, |path|);
  }

  /** Code that runs next still finds no open group of its own. */
  lemma StaysOutside(c: Counter, d: Counter, path: seq<Branch>, groups: set<string>, k: nat, later: set<string>)
    requires Ran(c, d, path, groups, k) && Outside(c, |path|, later) && groups !! later
    ensures Outside(d, |path|, later)
  {
  }

  /** Two stretches of code that run one after the other. */
  lemma RanInSequence(c: Counter, a: seq<Step>, b: seq<Step>, path: seq<Branch>, g: set<string>, h: set<string>,
        k: nat, l: nat)
    requires Ran(c, Run(c, a), path, g, k) && Ran(Run(c, a), Run(Run(c, a), b), path, h, l)
    ensures Ran(c, Run(c, a + b), path, g + h, k + l)
  {
    RunConcat(c, a, b);
    RanSum(c, Run(c, a), Run(Run(c, a), b), path, g, h, k, l);
  }

  /** A state closed back to `path` may count there. */
  lemma GrowthRan(c: Counter, e: Counter, path: seq<Branch>, k: nat)
    requires Inside(c, path) && Small(e) && Grown(CommitTo(c, |path|), e, k)
    ensures Ran(c, e, path, {}, k)
  {
    CommitToShape(c, |path|);
  }

  lemma OneStep(c: Counter, path: seq<Branch>, records: bool)
    requires Inside(c, path)
    ensures Run(c, [Step(path, records)]) == if records then Record(CommitTo(c, |path|)) else CommitTo(c, |path|)
  {
    SyncReturns(c, path);
  }

  lemma NothingGrows(c: Counter)
    requires Small(c)
    ensures Grown(c, c, 0)
  {
  }

  lemma StepRan(c: Counter, path: seq<Branch>, records: bool)
    requires Inside(c, path)
    ensures Ran(c, Run(c, [Step(path, records)]), path, {}, if records then 1 else 0)
  {
    var d := CommitTo(c, |path|);
    OneStep(c, path, records);
    CommitToShape(c, |path|);
    if records {
      RecordGrows(d);
      GrowthRan(c, Record(d), path, 1);
    } else {
      NothingGrows(d);
      GrowthRan(c, d, path, 0);
    }
  }

  /** Running code adds exactly its best selection to the branch it stands in. */
  lemma {:induction false} RunCode(c: Counter, code: Code, path: seq<Branch>)
    requires Distinct(code) && Inside(c, path) && Outside(c, |path|, Groups(code))
    ensures Ran(c, Run(c, Flatten(code, path)), path, Groups(code), MaxOps(code))
    decreases code, 1
  {
    match code
    case End => NothingRan(c, path);
    case Plain(records, rest) => RunPlain(c, records, rest, path);
    case Choice(_, _, _) => RunChoiceThen(c, code, path);
  }

  lemma RanAfterStep(c: Counter, s: Step, b: seq<Step>, path: seq<Branch>, h: set<string>, k: nat, l: nat)
    requires Ran(c, Run(c, [s]), path, {}, k) && Ran(Run(c, [s]), Run(Run(c, [s]), b), path, h, l)
    ensures Ran(c, Run(c, [s] + b), path, h, k + l)
  {
    RanInSequence(c, [s], b, path, {}, h, k, l);
    assert {} + h == h;
  }

  lemma {:induction false} RunPlain(c: Counter, records: bool, rest: Code, path: seq<Branch>)
    requires Distinct(rest) && Inside(c, path) && Outside(c, |path|, Groups(rest))
    ensures Ran(c, Run(c, [Step(path, records)] + Flatten(rest, path)), path, Groups(rest), (if records then 1 else 0) + MaxOps(rest))
    decreases rest, 2
  {
    var k := if records then 1 else 0;
    var next := Run(c, [Step(path, records)]);
    StepRan(c, path, records);
    StaysOutside(c, next, path, {}, k, Groups(rest));
    RunCode(next, rest, path);
    RanAfterStep(c, Step(path, records), Flatten(rest, path), path, Groups(rest), k, MaxOps(rest));
  }

  lemma {:induction false} RunChoiceThen(c: Counter, code: Code, path: seq<Branch>)
    requires code.Choice? && Distinct(code) && Inside(c, path) && Outside(c, |path|, Groups(code))
    ensures Ran(c, Run(c, Flatten(code, path)), path, Groups(code), MaxOps(code))
    decreases code, 0
  {
    var Choice(g, alts, rest) := code;
    var own := {g} + AlternativeGroups(alts);
    var mid := Run(c, FlattenAlternatives(alts, g, 0, path));
    RunChoice(c, g, alts, path);
    StaysOutside(c, mid, path, own, MaxAlternative(alts), Groups(rest));
    RunCode(mid, rest, path);
    RanInSequence(c, FlattenAlternatives(alts, g, 0, path), Flatten(rest, path), path, own, Groups(rest), MaxAlternative(alts), MaxOps(rest));
  }

  lemma {:induction false} RunChoice(c: Counter, g: string, alts: Alternatives, path: seq<Branch>)
    requires DistinctAlternatives(alts) && Inside(c, path) && Outside(c, |path|, {g})
    ensures Ran(c, Run(c, FlattenAlternatives(alts, g, 0, path)), path, {g} + AlternativeGroups(alts), MaxAlternative(alts))
    decreases alts, 1
  {
    CommitToShape(c, |path|);
    RunAlternatives(c, alts, g, 0, path, CommitTo(c, |path|), 0);
    CountedCloses(Run(c, FlattenAlternatives(alts, g, 0, path)), path, g, CommitTo(c, |path|), MaxAlternative(alts));
  }

  /** One branch of an open group. */
  lemma {:induction false} RunBranch(c: Counter, body: Code, b: Branch, path: seq<Branch>, d: Counter, k: nat)
    requires Distinct(body) && Counted(c, path, b.group, d, k)
    requires |c.frames| > |path| ==> Branch(c.frames[|path|].group, c.frames[|path|].branch) != b
    ensures var e := Run(c, Flatten(body, path + [b]));
      && Counted(e, path, b.group, d, Max(k, MaxOps(body)))
      && (e == c || (|e.frames| > |path| && Branch(e.frames[|path|].group, e.frames[|path|].branch) == b))
    decreases body, 2
  {
    var steps := Flatten(body, path + [b]);
    FlattenExtends(body, path + [b]);
    if steps != [] {
      var e := Enter(c, |path|, b);
      EnterCounts(c, path, b, d, k);
      RunEnters(c, steps, path, b);
      RunCode(e, body, path + [b]);
      assert CommitTo(e, |path| + 1) == e;
      BranchCounted(e, Run(c, steps), path, b, d, k, MaxOps(body));
      assert (path + [b])[|path|] == b;
    }
  }

  lemma {:induction false} RunAlternatives(c: Counter, alts: Alternatives, g: string, m: nat, path: seq<Branch>,
        d: Counter, k: nat)
    requires DistinctAlternatives(alts) && Counted(c, path, g, d, k)
    requires |c.frames| > |path| && c.frames[|path|].group == g ==> c.frames[|path|].branch < m
    ensures var e := Run(c, FlattenAlternatives(alts, g, m, path));
      Counted(e, path, g, d, Max(k, MaxAlternative(alts))) && (|e.frames| > |path| && e.frames[|path|].group != g ==> e == c)
    decreases alts, 0
  {
    match alts
    case NoMore =>
    case Alternative(body, others) =>
      var b := Branch(g, m);
      RunConcat(c, Flatten(body, path + [b]), FlattenAlternatives(others, g, m + 1, path));
      RunBranch(c, body, b, path, d, k);
      RunAlternatives(Run(c, Flatten(body, path + [b])), others, g, m + 1, path, d, Max(k, MaxOps(body)));
  }

  const FRESH := Counter(0, false, [])

  /**
   The count on every well-nested procedure: after returning to the empty branch path it is
   the maximum over all selections, saturated at two, and the flag says that two is reached.
   */
  lemma CountIsMaximum(code: Code) returns (best: Selection)
    requires Distinct(code)
    ensures var d := Sync(Run(FRESH, Flatten(code, [])), []);
      && d.operations == Min2(OpsUnder(code, best)) && d.frames == []
      && (d.multiple <==> OpsUnder(code, best) >= 2)
    ensures forall c: Selection :: OpsUnder(code, c) <= OpsUnder(code, best)
  {
    best := BestSelection(code);
    forall c: Selection ensures OpsUnder(code, c) <= OpsUnder(code, best) { NoSelectionExceeds(code, c); }
    RunCode(FRESH, code, []);
    SyncReturns(Run(FRESH, Flatten(code, [])), []);
  }
}
