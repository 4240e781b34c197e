/**
 The index over VBA203 results that callers consult instead of re-running the analysis.
 Agreement with recomputation rests on the NUL-joined key being injective.
 */
module LeakIndex {
  import opened Wrappers
  import opened Text
  import Fixpoint = ApplicationStateFixpoint

  /** An identity key is any text, and may itself contain separators. */
  type Identity = string

  datatype Statement = Statement(id: int, line: int, writes: Option<string>)

  /** `unsafe` holds the exit witnesses per property, `paired` the properties a Push/Pop pair restores. */
  datatype Procedure = Procedure(
    identity: Identity,
    analysed: bool,
    statements: seq<Statement>,
    unsafe: map<string, map<int, Fixpoint.Witness>>,
    paired: set<string>)

  datatype Origin = Origin(property: string, identity: Identity, statementId: int, line: int, report: Fixpoint.Witness)

  const NUL := '\0'

  const PROPERTIES := ["screenupdating", "enableevents", "displayalerts", "calculation", "statusbar", "cursor",
                       "interactive", "asktoupdatelinks", "automationsecurity", "cutcopymode"]

  lemma PropertiesAreFree()
    ensures AllFree(PROPERTIES, NUL)
  {
  }

  // ---- Leaking origins of one procedure ------------------------------------------------

  /** The procedure leaks: it is analysed, the property has witnesses and no pair restores it. */
  predicate Leaks(p: Procedure, property: string) {
    p.analysed && property in p.unsafe && p.unsafe[property] != map[] && property !in p.paired
  }

  /** The statement is a leaking assignment of the property. */
  predicate IsOrigin(p: Procedure, property: string, s: Statement) {
    Leaks(p, property) && s.id in p.unsafe[property] && s.writes == Some(property)
  }

  function OriginOf(p: Procedure, property: string, s: Statement): Origin
    requires IsOrigin(p, property, s)
  {
    Origin(property, p.identity, s.id, s.line, p.unsafe[property][s.id])
  }

  function OriginsIn(p: Procedure, property: string, statements: seq<Statement>): seq<Origin> {
    if statements == [] then []
    else
      var n := |statements| - 1;
      OriginsIn(p, property, statements[..n]) +
      if IsOrigin(p, property, statements[n]) then [OriginOf(p, property, statements[n])] else []
  }

  function OriginsFor(p: Procedure, properties: seq<string>): seq<Origin> {
    if properties == [] then []
    else
      var n := |properties| - 1;
      OriginsFor(p, properties[..n]) + OriginsIn(p, properties[n], p.statements)
  }

  function LeakOrigins(p: Procedure): seq<Origin> { OriginsFor(p, PROPERTIES) }

  lemma {:induction false} OriginsInExactly(p: Procedure, property: string, statements: seq<Statement>, o: Origin)
    ensures o in OriginsIn(p, property, statements) <==>
            exists s <- statements :: IsOrigin(p, property, s) && o == OriginOf(p, property, s)
  {
    if statements != [] {
      var n := |statements| - 1;
      OriginsInExactly(p, property, statements[..n], o);
      assert statements == statements[..n] + [statements[n]];
    }
  }

  lemma {:induction false} OriginsForExactly(p: Procedure, properties: seq<string>, o: Origin)
    ensures o in OriginsFor(p, properties) <==>
            o.property in properties && exists s <- p.statements :: IsOrigin(p, o.property, s) && o == OriginOf(p, o.property, s)
  {
    if properties != [] {
      var n := |properties| - 1;
      OriginsForExactly(p, properties[..n], o);
      OriginsInExactly(p, properties[n], p.statements, o);
      assert properties == properties[..n] + [properties[n]];
    }
  }

  /** What is listed: an assignment of the property that reaches an exit unrestored, in an analysed procedure that no Push or Pop pair restores. */
  lemma ListedOrigins(p: Procedure, o: Origin)
    ensures o in LeakOrigins(p) ==> o.property !in p.paired && p.analysed && o.identity == p.identity && o.property in PROPERTIES
    ensures o in LeakOrigins(p) <==>
      && p.analysed && o.property in PROPERTIES && o.property !in p.paired && o.property in p.unsafe && o.identity == p.identity
      && exists s <- p.statements ::
           && s.writes == Some(o.property) && s.id in p.unsafe[o.property]
           && o.statementId == s.id && o.line == s.line && o.report == p.unsafe[o.property][s.id]
  {
    OriginsForExactly(p, PROPERTIES, o);
    if o in LeakOrigins(p) {
      var s :| s in p.statements && IsOrigin(p, o.property, s) && o == OriginOf(p, o.property, s);
    }
    if p.analysed && o.property in PROPERTIES && o.property !in p.paired && o.property in p.unsafe && o.identity == p.identity {
      forall s <- p.statements | s.writes == Some(o.property) && s.id in p.unsafe[o.property]
        && o.statementId == s.id && o.line == s.line && o.report == p.unsafe[o.property][s.id]
        ensures IsOrigin(p, o.property, s) && o == OriginOf(p, o.property, s)
      {
        assert s.id in p.unsafe[o.property];
      }
    }
  }

  /** The scan in source order: every property, then every statement. */
  method ApplicationStateLeakOrigins(p: Procedure) returns (out: seq<Origin>)
    ensures out == LeakOrigins(p)
  {
    out := [];
    if !p.analysed {
      NotAnalysed(p, PROPERTIES);
      return;
    }
    for i := 0 to |PROPERTIES|
      invariant out == OriginsFor(p, PROPERTIES[..i])
    {
      var property := PROPERTIES[i];
      assert PROPERTIES[..i + 1][..i] == PROPERTIES[..i];
      ghost var before := out;
      var unsafe := property in p.unsafe && p.unsafe[property].Keys != {};
      if unsafe && property !in p.paired {
        for j := 0 to |p.statements|
          invariant out == before + OriginsIn(p, property, p.statements[..j])
        {
          assert p.statements[..j + 1][..j] == p.statements[..j];
          var s := p.statements[j];
          if s.id in p.unsafe[property] && s.writes == Some(property) {
            out := out + [OriginOf(p, property, s)];
          }
        }
        assert p.statements[..|p.statements|] == p.statements;
      } else {
        NoLeak(p, property, p.statements);
      }
    }
    assert PROPERTIES[..|PROPERTIES|] == PROPERTIES;
  }

  lemma {:induction false} NoLeak(p: Procedure, property: string, statements: seq<Statement>)
    requires !Leaks(p, property)
    ensures OriginsIn(p, property, statements) == []
  {
    if statements != [] { NoLeak(p, property, statements[..|statements| - 1]); }
  }

  lemma {:induction false} NotAnalysed(p: Procedure, properties: seq<string>)
    requires !p.analysed
    ensures OriginsFor(p, properties) == []
  {
    if properties != [] {
      NotAnalysed(p, properties[..|properties| - 1]);
      NoLeak(p, properties[|properties| - 1], p.statements);
    }
  }

  // ---- The key -------------------------------------------------------------------------

  function Key(identity: Identity, statementId: int, property: string): string {
    Join([identity, Itoa(statementId), property], NUL)
  }

  /**
   The key separates any two triples with NUL-free properties, whatever the identities
   contain, except statement IDs that are both negative: those print as nothing.
   */
  lemma KeySeparates(i: Identity, s: int, p: string, j: Identity, t: int, q: string)
    requires Free(p, NUL) && Free(q, NUL)
    ensures Key(i, s, p) == Key(j, t, q) <==> i == j && p == q && (s == t || (s < 0 && t < 0))
  {
    KeyShape(i, s, p);
    KeyShape(j, t, q);
    ItoaSeparates(s, t);
    if Key(i, s, p) == Key(j, t, q) {
      ItoaIsFree(s);
      ItoaIsFree(t);
      SplitLast(i + [NUL] + Itoa(s), p, j + [NUL] + Itoa(t), q, NUL);
      SplitLast(i, Itoa(s), j, Itoa(t), NUL);
    }
  }

  lemma KeyShape(i: Identity, s: int, p: string)
    ensures Key(i, s, p) == i + [NUL] + Itoa(s) + [NUL] + p
  {
    var parts := [i, Itoa(s), p];
    assert parts[1..] == [Itoa(s), p] && parts[1..][1..] == [p];
    assert Join([p], NUL) == p && Join([Itoa(s), p], NUL) == Itoa(s) + [NUL] + p;
    assert i + [NUL] + (Itoa(s) + [NUL] + p) == i + [NUL] + Itoa(s) + [NUL] + p;
  }

  lemma ItoaIsFree(s: int)
    ensures Free(Itoa(s), NUL)
  {
    if s >= 0 { ItoaInjective(s, s); }
  }

  // ---- The index -----------------------------------------------------------------------

  ghost predicate DistinctIdentities(procs: seq<Procedure>) {
    forall i, j :: 0 <= i < j < |procs| ==> procs[i].identity != procs[j].identity
  }

  ghost predicate NaturalIds(procs: seq<Procedure>) {
    forall p <- procs, s <- p.statements :: s.id >= 0
  }

  ghost function AllOrigins(procs: seq<Procedure>): seq<Origin> {
    if procs == [] then [] else AllOrigins(procs[..|procs| - 1]) + LeakOrigins(procs[|procs| - 1])
  }

  lemma {:induction false} AllOriginsExactly(procs: seq<Procedure>, o: Origin)
    ensures o in AllOrigins(procs) <==> exists p <- procs :: o in LeakOrigins(p)
  {
    if procs != [] {
      AllOriginsExactly(procs[..|procs| - 1], o);
      assert procs == procs[..|procs| - 1] + [procs[|procs| - 1]];
    }
  }

  function KeyOf(o: Origin): string { Key(o.identity, o.statementId, o.property) }

  /** `byEffect` knows exactly the keys of the listed origins and maps each to one of them. */
  ghost predicate EffectsIndexed(byEffect: map<string, Origin>, listed: seq<Origin>) {
    && (forall o <- listed :: KeyOf(o) in byEffect)
    && (forall k <- byEffect :: byEffect[k] in listed && KeyOf(byEffect[k]) == k)
  }

  /** The origins of the listed ones that belong to one identity, in order. */
  ghost function Of(listed: seq<Origin>, identity: Identity): seq<Origin> {
    if listed == [] then []
    else
      var n := |listed| - 1;
      Of(listed[..n], identity) + if listed[n].identity == identity then [listed[n]] else []
  }

  ghost predicate ProceduresIndexed(byProcedure: map<string, seq<Origin>>, listed: seq<Origin>) {
    forall i :: (if i in byProcedure then byProcedure[i] else []) == Of(listed, i)
  }

  lemma {:induction false} OfConcat(a: seq<Origin>, b: seq<Origin>, i: Identity)
    ensures Of(a + b, i) == Of(a, i) + Of(b, i)
  {
    if b == [] {
      assert a + b == a;
    } else {
      var n := |b| - 1;
      assert (a + b)[..|a + b| - 1] == a + b[..n];
      OfConcat(a, b[..n], i);
    }
  }

  lemma {:induction false} OfOwn(listed: seq<Origin>, i: Identity)
    ensures (forall o <- listed :: o.identity == i) ==> Of(listed, i) == listed
    ensures (forall o <- listed :: o.identity != i) ==> Of(listed, i) == []
  {
    if listed != [] {
      var n := |listed| - 1;
      assert listed == listed[..n] + [listed[n]];
      assert forall o <- listed[..n] :: o in listed;
      OfOwn(listed[..n], i);
    }
  }

  lemma OwnIdentity(p: Procedure)
    ensures forall o <- LeakOrigins(p) :: o.identity == p.identity
  {
    forall o <- LeakOrigins(p) ensures o.identity == p.identity { OriginsForExactly(p, PROPERTIES, o); }
  }

  /** With distinct identities, one procedure's share of all origins is what recomputing it yields. */
  lemma {:induction false} ShareOf(procs: seq<Procedure>, i: Identity)
    requires DistinctIdentities(procs)
    ensures forall p <- procs | p.identity == i :: Of(AllOrigins(procs), i) == LeakOrigins(p)
    ensures (forall p <- procs :: p.identity != i) ==> Of(AllOrigins(procs), i) == []
  {
    if procs != [] {
      var n := |procs| - 1;
      var last := procs[n];
      assert procs == procs[..n] + [last];
      ShareOf(procs[..n], i);
      OfConcat(AllOrigins(procs[..n]), LeakOrigins(last), i);
      OwnIdentity(last);
      OfOwn(LeakOrigins(last), i);
      forall p <- procs[..n] ensures p.identity != last.identity {}
      forall p <- procs | p.identity == i ensures Of(AllOrigins(procs), i) == LeakOrigins(p) {
        if last.identity == i { assert p == last; } else { assert p in procs[..n]; }
      }
    }
  }

  datatype EffectKind = ChangesApplicationState | OtherEffect

  datatype Evidence = Evidence(effect: EffectKind, origin: Identity, statementId: int, target: string)

  const APPLICATION := "application."

  /** The property a state-change target names; the target is already lower case and trimmed. */
  function PropertyKey(target: string): Option<string> {
    if |target| >= |APPLICATION| && target[..|APPLICATION|] == APPLICATION && target[|APPLICATION|..] in PROPERTIES
    then Some(target[|APPLICATION|..])
    else None
  }

  /** A target names a listed property after the word `Application.`, and only so. */
  lemma PropertyKeyMeans(target: string, property: string)
    ensures PropertyKey(target) == Some(property) <==> property in PROPERTIES && target == "application." + property
  {
    if target == APPLICATION + property {
      assert target[..|APPLICATION|] == APPLICATION && target[|APPLICATION|..] == property;
    }
    if PropertyKey(target) == Some(property) { assert target == target[..|APPLICATION|] + target[|APPLICATION|..]; }
  }

  class Index {
    var byEffect: map<string, Origin>
    var byProcedure: map<string, seq<Origin>>

    ghost predicate Indexes(listed: seq<Origin>)
      reads this
    {
      EffectsIndexed(byEffect, listed) && ProceduresIndexed(byProcedure, listed)
    }

    constructor Build(procs: seq<Procedure>)
      ensures Indexes(AllOrigins(procs))
    {
      byEffect, byProcedure := map[], map[];
      new;
      for n := 0 to |procs|
        invariant Indexes(AllOrigins(procs[..n]))
      {
        var origins := ApplicationStateLeakOrigins(procs[n]);
        AddAll(origins, AllOrigins(procs[..n]));
        assert procs[..n + 1][..n] == procs[..n];
      }
      assert procs[..|procs|] == procs;
    }

    /** The origins of one procedure, in order. */
    method AddAll(origins: seq<Origin>, ghost listed: seq<Origin>)
      requires Indexes(listed)
      modifies this
      ensures Indexes(listed + origins)
    {
      assert listed + origins[..0] == listed;
      for i := 0 to |origins|
        invariant Indexes(listed + origins[..i])
      {
        Add(origins[i], listed + origins[..i]);
        assert listed + origins[..i + 1] == listed + origins[..i] + [origins[i]];
      }
      assert origins[..|origins|] == origins;
    }

    method Add(o: Origin, ghost listed: seq<Origin>)
      requires Indexes(listed)
      modifies this
      ensures Indexes(listed + [o])
    {
      byEffect := byEffect[KeyOf(o) := o];
      var sofar := if o.identity in byProcedure then byProcedure[o.identity] else [];
      byProcedure := byProcedure[o.identity := sofar + [o]];
      assert (listed + [o])[..|listed|] == listed;
    }

    /** What the index lists for a procedure is what recomputing its leaks would list. */
    method OriginsFor(p: Procedure, ghost procs: seq<Procedure>) returns (out: seq<Origin>)
      requires Indexes(AllOrigins(procs)) && DistinctIdentities(procs) && p in procs
      ensures out == LeakOrigins(p)
    {
      ShareOf(procs, p.identity);
      if !p.analysed {
        NotAnalysed(p, PROPERTIES);
        return [];
      }
      out := if p.identity in byProcedure then byProcedure[p.identity] else [];
    }

    /** A lookup finds exactly the state-change evidence that names a leaking triple. */
    method Lookup(e: Evidence, ghost procs: seq<Procedure>) returns (found: Option<Origin>)
      requires Indexes(AllOrigins(procs)) && NaturalIds(procs) && e.statementId >= 0
      ensures found.Some? <==>
        && e.effect == ChangesApplicationState && PropertyKey(e.target).Some?
        && exists p <- procs, o <- LeakOrigins(p) ::
             p.identity == e.origin && o.statementId == e.statementId && o.property == PropertyKey(e.target).value
      ensures found.Some? ==>
        && found.value.identity == e.origin && found.value.statementId == e.statementId
        && Some(found.value.property) == PropertyKey(e.target)
        && exists p <- procs :: p.identity == e.origin && found.value in LeakOrigins(p)
    {
      if e.effect != ChangesApplicationState { return None; }
      var property := PropertyKey(e.target);
      if property.None? { return None; }
      var k := Key(e.origin, e.statementId, property.value);
      LookupIsExact(byEffect, procs, e.origin, e.statementId, property.value);
      found := if k in byEffect then Some(byEffect[k]) else None;
    }
  }

  lemma LookupIsExact(byEffect: map<string, Origin>, procs: seq<Procedure>, identity: Identity, id: int,
        property: string)
    requires EffectsIndexed(byEffect, AllOrigins(procs)) && NaturalIds(procs) && id >= 0 && property in PROPERTIES
    ensures var k := Key(identity, id, property);
      && (k in byEffect <==>
            exists p <- procs, o <- LeakOrigins(p) :: p.identity == identity && o.statementId == id && o.property == property)
      && (k in byEffect ==>
            && byEffect[k].identity == identity && byEffect[k].statementId == id && byEffect[k].property == property
            && exists p <- procs :: p.identity == identity && byEffect[k] in LeakOrigins(p))
  {
    var k := Key(identity, id, property);
    PropertiesAreFree();
    if k in byEffect {
      var o := byEffect[k];
      AllOriginsExactly(procs, o);
      var p :| p in procs && o in LeakOrigins(p);
      OriginsForExactly(p, PROPERTIES, o);
      KeySeparates(o.identity, o.statementId, o.property, identity, id, property);
    }
    if p, o :| p in procs && o in LeakOrigins(p) && p.identity == identity && o.statementId == id && o.property == property {
      AllOriginsExactly(procs, o);
      OwnIdentity(p);
    }
  }
}
