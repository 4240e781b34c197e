/**
 What callers say about the arrays they pass: facts recorded call by call, merged caller by
 caller in an order nobody promises, and read off as entry facts.
 */
module CallerEvidence {
  import opened Sets

  /** One recorded call: the argument is allocated, allocated under a condition, or neither. */
  datatype Mention = Allocated | Conditional(condition: string) | Unknown

  datatype Fact = Fact(proven: bool, compatible: bool, condition: string, seen: bool)

  /** Letter-case-insensitive comparison; all that matters is that it is an equivalence. */
  type Same = (string, string) -> bool

  ghost predicate Equivalence(same: Same) {
    && (forall a: string :: same(a, a))
    && (forall a: string, b: string :: same(a, b) ==> same(b, a))
    && (forall a: string, b: string, c: string :: same(a, b) && same(b, c) ==> same(a, c))
  }

  // ---- Recording and merging -----------------------------------------------------------

  /** One more call seen by a caller; the condition is empty when there is none. */
  function Record(same: Same, f: Fact, proven: bool, condition: string): Fact {
    if !f.seen then Fact(proven, proven || condition != "", condition, true)
    else
      var lost := !proven && condition == "";
      var clash := condition != "" && f.condition != "" && !same(f.condition, condition);
      Fact(f.proven && proven, f.compatible && !lost && !clash, if f.condition == "" then condition else f.condition, true)
  }

  function Merge(same: Same, current: Fact, incoming: Fact): Fact {
    var lost := !incoming.proven && incoming.condition == "";
    var clash := incoming.condition != "" && current.condition != "" && !same(current.condition, incoming.condition);
    Fact(current.proven && incoming.proven,
         current.compatible && !lost && !clash && incoming.compatible,
         if current.condition == "" then incoming.condition else current.condition,
         current.seen || incoming.seen)
  }

  type Parameters = map<nat, Fact>

  function MergeParameters(same: Same, into: Parameters, src: Parameters): Parameters {
    map i | i in into.Keys + src.Keys :: if i !in src then into[i] else if i !in into then src[i] else Merge(same, into[i], src[i])
  }

  // ---- What a fact says about the calls it came from -----------------------------------

  predicate Proper(ms: set<Mention>) { forall m <- ms :: m.Conditional? ==> m.condition != "" }

  /** The fact tells exactly this about its calls, whatever their order. */
  ghost predicate Describes(same: Same, f: Fact, ms: set<Mention>) {
    && f.seen && ms != {} && Proper(ms)
    && (f.proven <==> forall m <- ms :: m.Allocated?)
    && (f.compatible <==>
          Unknown !in ms && forall m <- ms, n <- ms :: m.Conditional? && n.Conditional? ==> same(m.condition, n.condition))
    && (f.condition == "" ==> forall m <- ms :: !m.Conditional?)
    && (f.condition != "" ==> Conditional(f.condition) in ms)
  }

  function MentionOf(proven: bool, condition: string): Mention {
    if proven then Allocated else if condition != "" then Conditional(condition) else Unknown
  }

  lemma RecordDescribes(same: Same, f: Fact, ms: set<Mention>, proven: bool, condition: string)
    requires Equivalence(same) && (proven ==> condition == "")
    requires if f.seen then Describes(same, f, ms) else ms == {}
    ensures Describes(same, Record(same, f, proven, condition), ms + {MentionOf(proven, condition)})
  {
  }

  lemma MergeDescribes(same: Same, f: Fact, ms: set<Mention>, g: Fact, ns: set<Mention>)
    requires Equivalence(same) && Describes(same, f, ms) && Describes(same, g, ns)
    ensures Describes(same, Merge(same, f, g), ms + ns)
  {
  }

  // ---- Order does not matter -----------------------------------------------------------

  /** Equal, except for the condition of an incompatible fact and letter case. */
  ghost predicate Equivalent(same: Same, f: Fact, g: Fact) {
    && f.seen == g.seen && f.proven == g.proven && f.compatible == g.compatible
    && (f.condition == "" <==> g.condition == "") && (f.compatible && f.condition != "" ==> same(f.condition, g.condition))
  }

  lemma SameCallsEquivalent(same: Same, f: Fact, g: Fact, ms: set<Mention>)
    requires Describes(same, f, ms) && Describes(same, g, ms)
    ensures Equivalent(same, f, g)
  {
  }

  lemma MergeCommutes(same: Same, f: Fact, ms: set<Mention>, g: Fact, ns: set<Mention>)
    requires Equivalence(same) && Describes(same, f, ms) && Describes(same, g, ns)
    ensures Equivalent(same, Merge(same, f, g), Merge(same, g, f))
  {
  }

  lemma MergeAssociates(same: Same, f: Fact, ms: set<Mention>, g: Fact, ns: set<Mention>, h: Fact, os: set<Mention>)
    requires Equivalence(same) && Describes(same, f, ms) && Describes(same, g, ns) && Describes(same, h, os)
    ensures Equivalent(same, Merge(same, Merge(same, f, g), h), Merge(same, f, Merge(same, g, h)))
  {
  }

  // ---- Aggregation ---------------------------------------------------------------------

  /** For one target: what each caller recorded about each parameter. */
  type Calls = map<string, map<nat, set<Mention>>>

  ghost predicate Recorded(same: Same, facts: map<string, Parameters>, calls: Calls) {
    && facts.Keys == calls.Keys
    && forall c <- facts :: facts[c].Keys == calls[c].Keys && forall i <- facts[c] :: Describes(same, facts[c][i], calls[c][i])
  }

  /** Everything the given callers recorded about parameter `i`. */
  ghost function Said(calls: Calls, callers: set<string>, i: nat): set<Mention> {
    set c, m | c in callers && c in calls && i in calls[c] && m in calls[c][i] :: m
  }

  /** The table describes what these callers said. */
  ghost predicate Sums(same: Same, calls: Calls, callers: set<string>, out: Parameters) {
    forall i: nat :: SumsAt(same, out, i, Said(calls, callers, i))
  }

  ghost predicate SumsAt(same: Same, out: Parameters, i: nat, ms: set<Mention>) {
    (i in out <==> ms != {}) && (i in out ==> Describes(same, out[i], ms))
  }

  /** Merges one caller's parameters, in any order. */
  method MergeArrayByRefEntryParameters(same: Same, into: Parameters, src: Parameters) returns (out: Parameters)
    ensures out == MergeParameters(same, into, src)
  {
    out := into;
    var rest := src.Keys;
    while rest != {}
      invariant rest <= src.Keys
      invariant out.Keys == into.Keys + (src.Keys - rest)
      invariant forall i <- out :: out[i] == if i in src && i !in rest then MergeParameters(same, into, src)[i] else into[i]
    {
      var index := AnyOf(rest);
      rest := rest - {index};
      var incoming := src[index];
      if index !in out {
        out := out[index := incoming];
        continue;
      }
      var merged := MergeFact(same, out[index], incoming);
      out := out[index := merged];
    }
  }

  /** What two callers say about one parameter. */
  method MergeFact(same: Same, into: Fact, incoming: Fact) returns (current: Fact)
    ensures current == Merge(same, into, incoming)
  {
    current := into;
    current := current.(proven := current.proven && incoming.proven);
    if !incoming.proven && incoming.condition == "" { current := current.(compatible := false); }
    if incoming.condition != "" {
      if current.condition == "" {
        current := current.(condition := incoming.condition);
      } else if !same(current.condition, incoming.condition) {
        current := current.(compatible := false);
      }
    }
    current := current.(compatible := current.compatible && incoming.compatible, seen := current.seen || incoming.seen);
  }

  ghost function Own(calls: Calls, c: string, i: nat): set<Mention> {
    if c in calls && i in calls[c] then calls[c][i] else {}
  }

  lemma SaidGrows(calls: Calls, callers: set<string>, c: string, i: nat)
    requires c in calls
    ensures Said(calls, callers + {c}, i) == Said(calls, callers, i) + Own(calls, c, i)
  {
  }

  lemma MergeSumsAt(same: Same, out: Parameters, src: Parameters, i: nat, ms: set<Mention>, ns: set<Mention>)
    requires Equivalence(same) && SumsAt(same, out, i, ms) && SumsAt(same, src, i, ns)
    ensures SumsAt(same, MergeParameters(same, out, src), i, ms + ns)
  {
  }

  lemma OneCallerMore(same: Same, facts: map<string, Parameters>, calls: Calls, callers: set<string>, c: string,
        out: Parameters)
    requires Equivalence(same) && Recorded(same, facts, calls) && c in facts && Sums(same, calls, callers, out)
    ensures Sums(same, calls, callers + {c}, MergeParameters(same, out, facts[c]))
  {
    forall i: nat ensures SumsAt(same, MergeParameters(same, out, facts[c]), i, Said(calls, callers + {c}, i)) {
      assert SumsAt(same, facts[c], i, Own(calls, c, i));
      SaidGrows(calls, callers, c, i);
      MergeSumsAt(same, out, facts[c], i, Said(calls, callers, i), Own(calls, c, i));
    }
  }

  lemma NobodySaysNothing(same: Same, calls: Calls)
    ensures Sums(same, calls, {}, map[])
  {
  }

  /** Go through the callers in whatever order the map yields them. */
  method AggregateTarget(same: Same, facts: map<string, Parameters>, ghost calls: Calls) returns (out: Parameters)
    requires Equivalence(same) && Recorded(same, facts, calls)
    ensures Sums(same, calls, facts.Keys, out)
  {
    out := map[];
    var rest := facts.Keys;
    ghost var seen: set<string> := {};
    NobodySaysNothing(same, calls);
    while rest != {}
      invariant rest + seen == facts.Keys && Sums(same, calls, seen, out)
    {
      var c := AnyOf(rest);
      OneCallerMore(same, facts, calls, seen, c, out);
      out := MergeArrayByRefEntryParameters(same, out, facts[c]);
      rest, seen := rest - {c}, seen + {c};
    }
  }

  // ---- Entry facts ---------------------------------------------------------------------

  predicate EntryAllocated(f: Fact) { f.seen && f.proven }

  predicate EntryConditional(f: Fact) { f.seen && !f.proven && f.compatible && f.condition != "" }

  /** Two aggregations of the same callers yield the same entry facts, up to the letter case of conditions. */
  lemma AnyOrderAgrees(same: Same, calls: Calls, callers: set<string>, out: Parameters, other: Parameters, i: nat)
    requires Sums(same, calls, callers, out) && Sums(same, calls, callers, other)
    ensures i in out <==> i in other
    ensures i in out ==> EntryAllocated(out[i]) == EntryAllocated(other[i]) && EntryConditional(out[i]) == EntryConditional(other[i])
    ensures i in out && EntryConditional(out[i]) ==> same(out[i].condition, other[i].condition)
  {
    assert SumsAt(same, out, i, Said(calls, callers, i)) && SumsAt(same, other, i, Said(calls, callers, i));
    if i in out { SameCallsEquivalent(same, out[i], other[i], Said(calls, callers, i)); }
  }

  /** An entry is taken as allocated exactly when every recorded call passes an allocated array. */
  lemma EntryMeaning(same: Same, calls: Calls, callers: set<string>, out: Parameters, i: nat)
    requires Sums(same, calls, callers, out) && i in out
    ensures EntryAllocated(out[i]) <==> forall m <- Said(calls, callers, i) :: m.Allocated?
    ensures EntryConditional(out[i]) <==>
      && (exists m <- Said(calls, callers, i) :: m.Conditional?) && Unknown !in Said(calls, callers, i)
      && forall m <- Said(calls, callers, i), n <- Said(calls, callers, i) ::
           m.Conditional? && n.Conditional? ==> same(m.condition, n.condition)
  {
    var ms, f := Said(calls, callers, i), out[i];
    assert SumsAt(same, out, i, ms) && Describes(same, f, ms);
    if EntryConditional(f) { assert Conditional(f.condition) in ms; }
    if m :| m in ms && m.Conditional? {
      assert !m.Allocated? && !f.proven;
      assert f.condition != "";
    }
  }
}
