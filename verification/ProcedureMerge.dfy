/**
 Findings of one file: the serial loop shares one map of helpers already reported, the
 parallel path gives every procedure its own map, stores the results by source index and
 drops repeated helper codes while merging.
 */
module ProcedureMerge {
  import opened Batches

  datatype Finding = Finding(code: string, text: string)

  /** What scanning a procedure meets, in order: a finding of its own, or a reference to a helper. */
  datatype Event = Emit(finding: Finding) | Refer(helper: string, text: string)

  /** From lower-cased helper names to codes. */
  type Rules = map<string, string>

  const TRACE_HELPER_DEPENDENCIES: Rules := map["xlflowlog" := "VBA105", "xlflowsettracefile" := "VBA106"]

  predicate OneCodeEach(rules: Rules) {
    forall h, k | h in rules && k in rules && rules[h] == rules[k] :: h == k
  }

  /** Only references produce helper codes. */
  predicate Ordinary(rules: Rules, events: seq<Event>) {
    forall e <- events :: e.Emit? ==> e.finding.code !in rules.Values
  }

  // ---- The serial loop -----------------------------------------------------------------

  /** One event, with the findings and the reported helpers so far. */
  function Meet(rules: Rules, sofar: (seq<Finding>, set<string>), e: Event): (seq<Finding>, set<string>) {
    match e
    case Emit(f) => (sofar.0 + [f], sofar.1)
    case Refer(h, text) =>
      if h in sofar.1 || h !in rules then sofar else (sofar.0 + [Finding(rules[h], text)], sofar.1 + {h})
  }

  /** Scanning with the helpers reported so far; each known helper is reported once. */
  function Scan(rules: Rules, events: seq<Event>, reported: set<string>): (seq<Finding>, set<string>) {
    if events == [] then ([], reported)
    else Meet(rules, Scan(rules, events[..|events| - 1], reported), events[|events| - 1])
  }

  function Events(procedures: seq<seq<Event>>): seq<Event> {
    if procedures == [] then [] else Events(procedures[..|procedures| - 1]) + procedures[|procedures| - 1]
  }

  lemma {:induction false} ScanConcat(rules: Rules, a: seq<Event>, b: seq<Event>, reported: set<string>)
    ensures var (x, seen) := Scan(rules, a, reported); var (y, end) := Scan(rules, b, seen);
      Scan(rules, a + b, reported) == (x + y, end)
  {
    if b == [] {
      assert a + b == a && Scan(rules, a, reported).0 + [] == Scan(rules, a, reported).0;
    } else {
      var n := |b| - 1;
      assert (a + b)[..|a + b| - 1] == a + b[..n];
      ScanConcat(rules, a, b[..n], reported);
      var (x, seen) := Scan(rules, a, reported);
      var (y, end) := Scan(rules, b[..n], seen);
      var f :=
        if b[n].Emit? then b[n].finding
        else if b[n].helper in rules then Finding(rules[b[n].helper], b[n].text)
        else Finding("", "");
      assert x + (y + [f]) == (x + y) + [f];
    }
  }

  method AnalyzeProcedure(rules: Rules, events: seq<Event>, reported: set<string>)
    returns (findings: seq<Finding>, reported': set<string>)
    ensures (findings, reported') == Scan(rules, events, reported)
  {
    findings, reported' := [], reported;
    for i := 0 to |events|
      invariant (findings, reported') == Scan(rules, events[..i], reported)
    {
      assert events[..i + 1][..i] == events[..i];
      match events[i] {
        case Emit(f) => findings := findings + [f];
        case Refer(h, text) =>
          if h in reported' { continue; }
          if h in rules {
            findings := findings + [Finding(rules[h], text)];
            reported' := reported' + {h};
          }
      }
    }
    assert events[..|events|] == events;
  }

  method SerialFindings(rules: Rules, procedures: seq<seq<Event>>) returns (findings: seq<Finding>)
    ensures findings == Scan(rules, Events(procedures), {}).0
  {
    findings := [];
    var reported: set<string> := {};
    for i := 0 to |procedures|
      invariant (findings, reported) == Scan(rules, Events(procedures[..i]), {})
    {
      var own;
      ScanConcat(rules, Events(procedures[..i]), procedures[i], {});
      assert procedures[..i + 1][..i] == procedures[..i];
      own, reported := AnalyzeProcedure(rules, procedures[i], reported);
      findings := findings + own;
    }
    assert procedures[..|procedures|] == procedures;
  }

  // ---- The merge -----------------------------------------------------------------------

  /** Keeps the first finding of each helper code. */
  function Drop(codes: set<string>, findings: seq<Finding>, seen: set<string>): (r: (seq<Finding>, set<string>)) {
    if findings == [] then ([], seen)
    else
      var (out, s) := Drop(codes, findings[..|findings| - 1], seen);
      var f := findings[|findings| - 1];
      if f.code !in codes then (out + [f], s)
      else if f.code in s then (out, s)
      else (out + [f], s + {f.code})
  }

  lemma {:induction false} DropConcat(codes: set<string>, a: seq<Finding>, b: seq<Finding>, seen: set<string>)
    ensures var (x, s) := Drop(codes, a, seen); var (y, end) := Drop(codes, b, s);
      Drop(codes, a + b, seen) == (x + y, end)
  {
    if b == [] {
      assert a + b == a && Drop(codes, a, seen).0 + [] == Drop(codes, a, seen).0;
    } else {
      var n := |b| - 1;
      assert (a + b)[..|a + b| - 1] == a + b[..n];
      DropConcat(codes, a, b[..n], seen);
      var (x, s) := Drop(codes, a, seen);
      var y := Drop(codes, b[..n], s).0;
      assert x + (y + [b[n]]) == (x + y) + [b[n]];
    }
  }

  /** Each procedure scanned with its own empty map. */
  function Alone(rules: Rules, procedures: seq<seq<Event>>): seq<Finding> {
    if procedures == [] then []
    else Alone(rules, procedures[..|procedures| - 1]) + Scan(rules, procedures[|procedures| - 1], {}).0
  }

  function Codes(rules: Rules, helpers: set<string>): set<string> { set h <- helpers | h in rules :: rules[h] }

  lemma DropOneMore(codes: set<string>, findings: seq<Finding>, f: Finding, seen: set<string>)
    ensures var (out, s) := Drop(codes, findings, seen);
      Drop(codes, findings + [f], seen) ==
        (if f.code !in codes then (out + [f], s) else if f.code in s then (out, s) else (out + [f], s + {f.code}))
  {
    assert (findings + [f])[..|findings|] == findings;
  }

  /** A helper reported for the first time adds its own code. */
  lemma OneCodeMore(rules: Rules, helpers: set<string>, h: string)
    requires OneCodeEach(rules) && helpers <= rules.Keys && h in rules
    ensures Codes(rules, helpers + {h}) == Codes(rules, helpers) + {rules[h]}
    ensures rules[h] in Codes(rules, helpers) <==> h in helpers
  {
  }

  /** Dropping from `alone` has given `shared` so far, and `own` helpers were met. */
  ghost predicate InStep(rules: Rules, reported: set<string>, alone: (seq<Finding>, set<string>), shared: (seq<Finding>, set<string>)) {
    && Drop(rules.Values, alone.0, Codes(rules, reported)) == (shared.0, Codes(rules, shared.1))
    && shared.1 == reported + alone.1 && alone.1 <= rules.Keys
  }

  lemma MeetInStep(
      rules: Rules, reported: set<string>, alone: (seq<Finding>, set<string>), shared: (seq<Finding>, set<string>), e: Event)
    requires OneCodeEach(rules) && reported <= rules.Keys && (e.Emit? ==> e.finding.code !in rules.Values)
    requires InStep(rules, reported, alone, shared)
    ensures InStep(rules, reported, Meet(rules, alone, e), Meet(rules, shared, e))
  {
    match e
    case Emit(f) => DropOneMore(rules.Values, alone.0, f, Codes(rules, reported));
    case Refer(h, text) => if h in rules && h !in alone.1 { ReferInStep(rules, reported, alone, shared, h, text); }
  }

  lemma ReferInStep(
      rules: Rules, reported: set<string>, alone: (seq<Finding>, set<string>), shared: (seq<Finding>, set<string>), h: string, text: string)
    requires OneCodeEach(rules) && reported <= rules.Keys && InStep(rules, reported, alone, shared)
    requires h in rules && h !in alone.1
    ensures InStep(rules, reported, Meet(rules, alone, Refer(h, text)), Meet(rules, shared, Refer(h, text)))
  {
    var f := Finding(rules[h], text);
    DropOneMore(rules.Values, alone.0, f, Codes(rules, reported));
    OneCodeMore(rules, shared.1, h);
    assert f.code in rules.Values;
    assert Meet(rules, alone, Refer(h, text)) == (alone.0 + [f], alone.1 + {h});
    if h in shared.1 {
      assert reported + (alone.1 + {h}) == shared.1;
    } else {
      assert reported + (alone.1 + {h}) == shared.1 + {h};
    }
  }

  /** Dropping repeated codes from a procedure scanned alone gives what the shared map would have given. */
  lemma {:induction false} DropIsShared(rules: Rules, events: seq<Event>, reported: set<string>)
    requires OneCodeEach(rules) && Ordinary(rules, events) && reported <= rules.Keys
    ensures InStep(rules, reported, Scan(rules, events, {}), Scan(rules, events, reported))
  {
    if events != [] {
      var n := |events| - 1;
      DropIsShared(rules, events[..n], reported);
      assert events[n] in events;
      MeetInStep(rules, reported, Scan(rules, events[..n], {}), Scan(rules, events[..n], reported), events[n]);
    }
  }

  lemma {:induction false} MergeIsSerial(rules: Rules, procedures: seq<seq<Event>>)
    requires OneCodeEach(rules) && forall p <- procedures :: Ordinary(rules, p)
    ensures var (serial, reported) := Scan(rules, Events(procedures), {});
      Drop(rules.Values, Alone(rules, procedures), {}) == (serial, Codes(rules, reported)) && reported <= rules.Keys
  {
    if procedures == [] {
      assert Codes(rules, {}) == {};
    } else {
      var n := |procedures| - 1;
      MergeIsSerial(rules, procedures[..n]);
      var (serial, reported) := Scan(rules, Events(procedures[..n]), {});
      ScanConcat(rules, Events(procedures[..n]), procedures[n], {});
      DropConcat(rules.Values, Alone(rules, procedures[..n]), Scan(rules, procedures[n], {}).0, {});
      DropIsShared(rules, procedures[n], reported);
    }
  }

  lemma OneReference(rules: Rules, h: string, reported: set<string>)
    requires h in rules && h !in reported
    ensures Scan(rules, [Refer(h, "")], reported) == ([Finding(rules[h], "")], reported + {h})
    ensures Drop(rules.Values, [Finding(rules[h], "")], {}) == ([Finding(rules[h], "")], {rules[h]})
    ensures Drop(rules.Values, [Finding(rules[h], "")], {rules[h]}) == ([], {rules[h]})
  {
    var e, f := [Refer(h, "")], [Finding(rules[h], "")];
    assert e[..0] == [] && f[..0] == [];
    assert Drop(rules.Values, f[..0], {}) == ([], {}) && Drop(rules.Values, f[..0], {rules[h]}) == ([], {rules[h]});
    assert [] + [f[0]] == f && {} + {f[0].code} == {rules[h]} && f[0].code in rules.Values;
  }

  /** When two helpers shared a code, the merge would lose findings the serial loop reports. */
  lemma SharedCodeLosesFindings(rules: Rules, h: string, k: string)
    requires h in rules && k in rules && h != k && rules[h] == rules[k]
    ensures var procedures := [[Refer(h, "")], [Refer(k, "")]];
      Drop(rules.Values, Alone(rules, procedures), {}).0 != Scan(rules, Events(procedures), {}).0
  {
    var first, second := [Refer(h, "")], [Refer(k, "")];
    var procedures := [first, second];
    var f := Finding(rules[h], "");
    EventsOfTwo(first, second);
    AloneOfTwo(rules, first, second);
    OneReference(rules, h, {});
    OneReference(rules, k, {});
    OneReference(rules, k, {h});
    ScanConcat(rules, first, second, {});
    assert Alone(rules, procedures) == [f] + [f];
    DropConcat(rules.Values, [f], [f], {});
  }

  lemma EventsOfTwo(first: seq<Event>, second: seq<Event>)
    ensures Events([first, second]) == first + second
  {
    var procedures := [first, second];
    assert procedures[..1] == [first] && [first][..0] == [];
    assert Events([]) == [] && Events([first]) == Events([first][..0]) + first;
    assert Events(procedures) == Events(procedures[..1]) + second;
  }

  lemma AloneOfTwo(rules: Rules, first: seq<Event>, second: seq<Event>)
    ensures Alone(rules, [first, second]) == Scan(rules, first, {}).0 + Scan(rules, second, {}).0
  {
    var procedures := [first, second];
    assert procedures[..1] == [first] && [first][..0] == [];
    assert Alone(rules, []) == [] && Alone(rules, [first]) == Alone(rules, [first][..0]) + Scan(rules, first, {}).0;
    assert Alone(rules, procedures) == Alone(rules, procedures[..1]) + Scan(rules, second, {}).0;
  }

  /** The merge agrees with the serial loop on every file exactly when each helper has its own code. */
  lemma MergeIsSerialIff(rules: Rules)
    ensures OneCodeEach(rules) <==>
      forall procedures: seq<seq<Event>> | (forall p <- procedures :: Ordinary(rules, p)) ::
        Drop(rules.Values, Alone(rules, procedures), {}).0 == Scan(rules, Events(procedures), {}).0
  {
    if OneCodeEach(rules) {
      forall procedures: seq<seq<Event>> | (forall p <- procedures :: Ordinary(rules, p))
        ensures Drop(rules.Values, Alone(rules, procedures), {}).0 == Scan(rules, Events(procedures), {}).0
      {
        MergeIsSerial(rules, procedures);
      }
    } else {
      var h, k :| h in rules && k in rules && rules[h] == rules[k] && h != k;
      var procedures := [[Refer(h, "")], [Refer(k, "")]];
      SharedCodeLosesFindings(rules, h, k);
      assert forall p <- procedures :: Ordinary(rules, p);
    }
  }

  // ---- The parallel path ---------------------------------------------------------------

  /** The workers' part: each index is analysed on its own, in the order `schedule` happens to give. */
  method AnalyzeAlone(rules: Rules, procedures: seq<seq<Event>>, schedule: seq<nat>, results: array<seq<Finding>>)
    requires results.Length == |procedures|
    requires forall i <- schedule :: i < |procedures|
    modifies results
    ensures forall i :: 0 <= i < results.Length && i in schedule ==> results[i] == Scan(rules, procedures[i], {}).0
  {
    for n := 0 to |schedule|
      invariant forall i :: 0 <= i < results.Length && i in schedule[..n] ==> results[i] == Scan(rules, procedures[i], {}).0
    {
      var index := schedule[n];
      assert index in schedule;
      var findings, _ := AnalyzeProcedure(rules, procedures[index], {});
      results[index] := findings;
      assert schedule[..n + 1] == schedule[..n] + [index];
    }
    assert schedule[..|schedule|] == schedule;
  }

  /** The source-order merge of the slots. */
  method MergeResults(results: array<seq<Finding>>) returns (findings: seq<Finding>)
    ensures findings == Drop({"VBA105", "VBA106"}, Joined(results[..]), {}).0
  {
    var codes := {"VBA105", "VBA106"};
    findings := [];
    var seen: set<string> := {};
    for index := 0 to results.Length
      invariant (findings, seen) == Drop(codes, Joined(results[..index]), {})
    {
      var slot := results[index];
      ghost var before := Joined(results[..index]);
      assert before + slot[..0] == before;
      for j := 0 to |slot|
        invariant (findings, seen) == Drop(codes, before + slot[..j], {})
      {
        var f := slot[j];
        assert (before + slot[..j + 1])[..|before| + j] == before + slot[..j];
        if f.code == "VBA105" || f.code == "VBA106" {
          if f.code in seen { continue; }
          seen := seen + {f.code};
        }
        findings := findings + [f];
      }
      assert slot[..|slot|] == slot;
      assert results[..index + 1][..index] == results[..index];
    }
    assert results[..results.Length] == results[..];
  }

  function Joined(slots: seq<seq<Finding>>): seq<Finding> {
    if slots == [] then [] else Joined(slots[..|slots| - 1]) + slots[|slots| - 1]
  }

  lemma {:induction false} SlotsAreAlone(rules: Rules, procedures: seq<seq<Event>>, slots: seq<seq<Finding>>)
    requires |slots| == |procedures| && forall i :: 0 <= i < |slots| ==> slots[i] == Scan(rules, procedures[i], {}).0
    ensures Joined(slots) == Alone(rules, procedures)
  {
    if slots != [] { SlotsAreAlone(rules, procedures[..|procedures| - 1], slots[..|slots| - 1]); }
  }

  lemma TraceCodes()
    ensures TRACE_HELPER_DEPENDENCIES.Values == {"VBA105", "VBA106"} && OneCodeEach(TRACE_HELPER_DEPENDENCIES)
  {
    var rules := TRACE_HELPER_DEPENDENCIES;
    assert rules["xlflowlog"] == "VBA105" && rules["xlflowsettracefile"] == "VBA106";
    assert "VBA105"[5] != "VBA106"[5];
  }

  /** The first reference to a removed helper is reported under that helper's own code. */
  lemma HelperCodes(text: string, other: string)
    ensures Scan(TRACE_HELPER_DEPENDENCIES, [Refer("xlflowlog", text), Refer("xlflowlog", other)], {}).0 == [Finding("VBA105", text)]
    ensures Scan(TRACE_HELPER_DEPENDENCIES, [Refer("xlflowsettracefile", text), Refer("xlflowsettracefile", other)], {}).0 ==
      [Finding("VBA106", text)]
    ensures forall h | h !in {"xlflowlog", "xlflowsettracefile"} ::
      Scan(TRACE_HELPER_DEPENDENCIES, [Refer(h, text)], {}).0 == []
  {
    HelperReported("xlflowlog", "VBA105", text, other);
    HelperReported("xlflowsettracefile", "VBA106", text, other);
  }

  lemma HelperReported(h: string, code: string, text: string, other: string)
    requires h in TRACE_HELPER_DEPENDENCIES && TRACE_HELPER_DEPENDENCIES[h] == code
    ensures Scan(TRACE_HELPER_DEPENDENCIES, [Refer(h, text), Refer(h, other)], {}).0 == [Finding(code, text)]
  {
    var events := [Refer(h, text), Refer(h, other)];
    assert events[..1] == [Refer(h, text)] && events[..1][..0] == [];
    assert Scan(TRACE_HELPER_DEPENDENCIES, events[..1][..0], {}) == ([], {});
    assert Scan(TRACE_HELPER_DEPENDENCIES, events[..1], {}) == Meet(TRACE_HELPER_DEPENDENCIES, ([], {}), Refer(h, text));
  }

  /** Every index some batch holds is analysed. */
  predicate Completes(schedule: seq<nat>, procedures: nat, limit: nat)
    requires limit > 0
  {
    && (forall i <- schedule :: i < procedures)
    && var batches := BatchRanges(procedures, limit);
       forall k, i: nat | 0 <= k < |batches| && i < procedures && Holds(batches, k, i) :: i in schedule
  }

  /** Whatever the worker limit and the order in which batches run, the findings are the serial ones. */
  method ParallelFindings(procedures: seq<seq<Event>>, limit: nat, schedule: seq<nat>) returns (findings: seq<Finding>)
    requires limit > 0 && Completes(schedule, |procedures|, limit)
    requires forall p <- procedures :: Ordinary(TRACE_HELPER_DEPENDENCIES, p)
    ensures findings == Scan(TRACE_HELPER_DEPENDENCIES, Events(procedures), {}).0
  {
    var results := new seq<Finding>[|procedures|](_ => []);
    AnalyzeAlone(TRACE_HELPER_DEPENDENCIES, procedures, schedule, results);
    BatchesPartition(|procedures|, limit);
    forall i | 0 <= i < |procedures| ensures i in schedule {
      assert HeldBySome(BatchRanges(|procedures|, limit), i);
      var k: nat :| Holds(BatchRanges(|procedures|, limit), k, i);
    }
    findings := MergeResults(results);
    SlotsAreAlone(TRACE_HELPER_DEPENDENCIES, procedures, results[..]);
    TraceCodes();
    MergeIsSerial(TRACE_HELPER_DEPENDENCIES, procedures);
  }
}
