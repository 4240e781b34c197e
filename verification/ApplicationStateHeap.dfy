/**
 The shared representation of VBA203 flows.  A flow is a record of references to maps that
 several flows, and several snapshots of one flow, may share; flags say which maps must be
 copied before they are written.  No method here may modify a map that existed before the
 call, which is the copy-on-write promise; each states the value-level result it computes.
 */
module ApplicationStateHeap {
  import opened Wrappers
  import opened ApplicationState

  /** A set of statement IDs held by reference. */
  class IntSet {
    var elems: set<int>

    constructor (elems: set<int>)
      ensures this.elems == elems
    {
      this.elems := elems;
    }
  }

  /** The value stored per variable: the record is copied, the three sets stay shared. */
  datatype SnapshotRef = SnapshotRef(dirty: IntSet, restores: IntSet, guardedBy: IntSet, unknown: bool)
  {
    ghost function Sets(): set<object> { {dirty, restores, guardedBy} }

    ghost predicate Avoids(o: IntSet) { dirty != o && restores != o && guardedBy != o }

    function Read(): Snapshot
      reads Sets()
    {
      Snapshot(dirty.elems, restores.elems, guardedBy.elems, unknown)
    }

    ghost predicate Shows(s: Snapshot)
      reads Sets()
    {
      dirty.elems == s.dirty && restores.elems == s.restores && guardedBy.elems == s.guardedBy && unknown == s.unknown
    }

    /** The same snapshot in three new sets. */
    method PrivateCopy() returns (copy: SnapshotRef)
      ensures fresh(copy.Sets()) && copy.restores !in {copy.dirty, copy.guardedBy}
      ensures copy.Shows(Snapshot(dirty.elems, restores.elems, guardedBy.elems, unknown))
    {
      var d := new IntSet(dirty.elems);
      var r := new IntSet(restores.elems);
      var g := new IntSet(guardedBy.elems);
      copy := SnapshotRef(d, r, g, unknown);
    }
  }

  class SavedMap {
    var entries: map<string, SnapshotRef>

    constructor (entries: map<string, SnapshotRef>)
      ensures this.entries == entries
    {
      this.entries := entries;
    }
  }

  class FlowRef {
    var dirty: IntSet
    var saved: SavedMap
    var viaExceptional: bool
    var dirtyShared: bool
    var savedShared: bool
    var snapshotMapsShared: bool
    ghost var view: Flow  // the flow this record stands for

    /** The maps show the flow, and an unshared `dirty` belongs to this record alone. */
    ghost predicate Valid()
      reads *
    {
      && (!dirtyShared ==> forall k <- saved.entries :: saved.entries[k].Avoids(dirty))
      && dirty.elems == view.dirty
      && viaExceptional == view.viaExceptional
      && saved.entries.Keys == view.saved.Keys
      && forall k <- saved.entries :: saved.entries[k].Shows(view.saved[k])
    }

    /** Reads every map of the flow. */
    function Contents(): (f: Flow)
      requires Valid()
      reads *
      ensures f == view
    {
      Flow(dirty.elems, map k | k in saved.entries :: saved.entries[k].Read(), viaExceptional)
    }

    predicate AllShared()
      reads this
    {
      dirtyShared && savedShared && snapshotMapsShared
    }

    constructor Start()
      ensures Valid() && view == START
      ensures fresh(dirty) && fresh(saved)
    {
      dirty := new IntSet({});
      saved := new SavedMap(map[]);
      viaExceptional := false;
      dirtyShared, savedShared, snapshotMapsShared := false, false, false;
      view := START;
    }

    /** Passing a flow by value copies the record and shares every map. */
    constructor ByValue(f: FlowRef)
      requires f.Valid()
      ensures Valid() && view == f.view && dirty == f.dirty && saved == f.saved
      ensures dirtyShared == f.dirtyShared && savedShared == f.savedShared
      ensures snapshotMapsShared == f.snapshotMapsShared
    {
      dirty, saved, viaExceptional := f.dirty, f.saved, f.viaExceptional;
      dirtyShared, savedShared, snapshotMapsShared := f.dirtyShared, f.savedShared, f.snapshotMapsShared;
      view := f.view;
    }

    /** Forks a flow: both sides must copy a map before they write it. */
    method Clone() returns (out: FlowRef)
      requires Valid()
      modifies `dirtyShared, `savedShared, `snapshotMapsShared
      ensures Valid() && AllShared()
      ensures fresh(out) && out.Valid() && out.AllShared()
      ensures out.dirty == dirty && out.saved == saved && out.view == view
    {
      dirtyShared, savedShared, snapshotMapsShared := true, true, true;
      out := new FlowRef.ByValue(this);
    }

    method EnsureDirty()
      requires Valid()
      modifies `dirty, `dirtyShared
      ensures Valid() && view == old(view) && !dirtyShared
      ensures if old(dirtyShared) then fresh(dirty) else dirty == old(dirty)
    {
      if !dirtyShared { return; }
      dirty := new IntSet(dirty.elems);
      dirtyShared := false;
    }

    method EnsureSaved()
      requires Valid()
      modifies `saved, `savedShared
      ensures Valid() && view == old(view) && !savedShared && saved.entries == old(saved.entries)
      ensures if old(savedShared) then fresh(saved) else saved == old(saved)
    {
      if !savedShared { return; }
      saved := new SavedMap(saved.entries);
      savedShared := false;
    }

    /** A snapshot whose sets may be written without any other snapshot noticing. */
    method MutableSavedSnapshot(key: string) returns (snapshot: Option<SnapshotRef>)
      requires Valid()
      modifies `saved, `savedShared
      ensures Valid() && view == old(view) && !savedShared && saved.entries == old(saved.entries)
      ensures if old(savedShared) then fresh(saved) else saved == old(saved)
      ensures snapshot.Some? <==> key in view.saved
      ensures snapshot.Some? ==> snapshot.value.Shows(view.saved[key])
      ensures snapshot.Some? && snapshotMapsShared ==>
        fresh(snapshot.value.Sets()) && snapshot.value.restores !in {snapshot.value.dirty, snapshot.value.guardedBy}
      ensures snapshot.Some? && !snapshotMapsShared ==> snapshot.value == saved.entries[key]
    {
      EnsureSaved();
      if key !in saved.entries { return None; }
      var s := saved.entries[key];
      if snapshotMapsShared { s := s.PrivateCopy(); }
      snapshot := Some(s);
    }

    /** Stores one snapshot in a map of snapshots this flow owns. */
    method PutOwned(key: string, snapshot: SnapshotRef, ghost value: Snapshot)
      requires Valid() && !savedShared && snapshot.Shows(value) && (!dirtyShared ==> snapshot.Avoids(dirty))
      modifies `view, saved
      ensures saved == old(saved) && !savedShared
      ensures Valid() && view == old(view).(saved := old(view).saved[key := value])
      ensures dirty == old(dirty) && dirtyShared == old(dirtyShared) && snapshotMapsShared == old(snapshotMapsShared)
    {
      saved.entries := saved.entries[key := snapshot];
      view := view.(saved := view.saved[key := value]);
    }

    /** Stores one snapshot, copying the map of snapshots first when it is shared. */
    method Put(key: string, snapshot: SnapshotRef, ghost value: Snapshot)
      requires Valid() && snapshot.Shows(value) && (!dirtyShared ==> snapshot.Avoids(dirty))
      modifies `saved, `savedShared, `view, if savedShared then {} else {saved}
      ensures Valid() && !savedShared && view == old(view).(saved := old(view).saved[key := value])
      ensures if old(savedShared) then fresh(saved) else saved == old(saved)
      ensures dirty == old(dirty) && dirtyShared == old(dirtyShared) && snapshotMapsShared == old(snapshotMapsShared)
    {
      EnsureSaved();
      PutOwned(key, snapshot, value);
    }

    method NoteClass(edgeClass: EdgeClass)
      requires Valid()
      modifies `viaExceptional, `view
      ensures Valid() && view == old(view).(viaExceptional := old(view).viaExceptional || edgeClass == Exceptional)
    {
      viaExceptional := viaExceptional || edgeClass == Exceptional;
      view := view.(viaExceptional := viaExceptional);
    }

    /** Adds origins, copying the set of origins first when it is shared. */
    method AddDirty(origins: set<int>)
      requires Valid()
      modifies `dirty, `dirtyShared, `view, if dirtyShared then {} else {dirty}
      ensures Valid() && view == old(view).(dirty := old(view).dirty + origins)
      ensures !dirtyShared && (if old(dirtyShared) then fresh(dirty) else dirty == old(dirty))
    {
      EnsureDirty();
      dirty.elems := dirty.elems + origins;
      view := view.(dirty := view.dirty + origins);
    }

    /** Drops origins, copying the set of origins first when it is shared. */
    method RemoveDirty(origins: set<int>)
      requires Valid() && dirtyShared
      modifies `dirty, `dirtyShared, `view
      ensures Valid() && view == old(view).(dirty := old(view).dirty - origins)
      ensures if dirtyShared then dirty == old(dirty) else fresh(dirty)
    {
      if origins != {} {
        EnsureDirty();
        dirty.elems := dirty.elems - origins;
      }
      view := view.(dirty := view.dirty - origins);
    }

    /** Gives the flow a private set of origins. */
    method ReplaceDirty(origins: set<int>)
      requires Valid()
      modifies `dirty, `dirtyShared, `view
      ensures Valid() && view == old(view).(dirty := origins)
    {
      dirty := new IntSet(origins);
      dirtyShared := false;
      view := view.(dirty := origins);
    }

    /** A private copy of a snapshot with `id` added to what it restores. */
    method RestoringCopy(key: string, id: int) returns (s: SnapshotRef)
      requires Valid() && key in view.saved && snapshotMapsShared
      modifies `saved, `savedShared
      ensures Valid() && view == old(view) && !savedShared
      ensures if old(savedShared) then fresh(saved) else saved == old(saved)
      ensures dirty == old(dirty) && dirtyShared == old(dirtyShared) && snapshotMapsShared == old(snapshotMapsShared)
      ensures s.Avoids(dirty) && s.Shows(view.saved[key].(restores := view.saved[key].restores + {id}))
    {
      var mutable := MutableSavedSnapshot(key);
      s := mutable.value;
      s.restores.elems := s.restores.elems + {id};
    }

    /** Marks `id` as restorable by one snapshot unless the snapshot is unproven or already holds it. */
    method MarkSnapshot(key: string, id: int)
      requires Valid() && key in view.saved && snapshotMapsShared
      modifies `saved, `savedShared, `view, if savedShared then {} else {saved}
      ensures Valid() && view == old(view).(saved := old(view).saved[key := Marked(old(view).saved[key], id)])
      ensures savedShared ==> old(savedShared)
      ensures !old(savedShared) ==> saved == old(saved)
      ensures old(savedShared) && !savedShared ==> fresh(saved)
      ensures dirty == old(dirty) && dirtyShared == old(dirtyShared) && snapshotMapsShared
    {
      var snapshot := saved.entries[key];
      if !snapshot.unknown && id !in snapshot.dirty.elems {
        var s := RestoringCopy(key, id);
        Put(key, s, Marked(view.saved[key], id));
      } else {
        assert view.saved == view.saved[key := Marked(view.saved[key], id)];
      }
    }
  }

  /** What recording origin `id` does to one snapshot. */
  ghost function Marked(s: Snapshot, id: int): Snapshot {
    if s.unknown || id in s.dirty then s else s.(restores := s.restores + {id})
  }

  /** The flow in which all snapshots but those still in `todo` are marked. */
  ghost function MarkedExcept(f: Flow, todo: set<string>, id: int): Flow {
    f.(saved := map k | k in f.saved :: if k in todo then f.saved[k] else Marked(f.saved[k], id))
  }

  lemma MarkOneMore(f: Flow, todo: set<string>, key: string, id: int)
    requires key in todo && todo <= f.saved.Keys
    ensures var g := MarkedExcept(f, todo, id);
      MarkedExcept(f, todo - {key}, id) == g.(saved := g.saved[key := Marked(g.saved[key], id)])
    ensures MarkedExcept(f, f.saved.Keys, id) == f
    ensures MarkedExcept(f, {}, id).(dirty := f.dirty + {id}) == RecordOrigin(f, id)
  {
  }

  lemma MarkEnds(f: Flow, id: int)
    ensures MarkedExcept(f, f.saved.Keys, id) == f
    ensures MarkedExcept(f, {}, id).(dirty := f.dirty + {id}) == RecordOrigin(f, id)
  {
  }

  /** Marks `id` dirty and as restorable by every proven snapshot, copying what is shared. */
  method MarkOrigin(state: FlowRef, id: int)
    requires state.Valid() && state.savedShared && state.snapshotMapsShared
    modifies state, if state.dirtyShared then {} else {state.dirty}
    ensures state.Valid() && state.view == RecordOrigin(old(state.view), id)
  {
    ghost var before := state.view;
    var todo := state.saved.entries.Keys;
    MarkEnds(before, id);
    while todo != {}
      invariant state.Valid() && todo <= before.saved.Keys
      invariant state.savedShared || fresh(state.saved)
      invariant state.snapshotMapsShared && state.dirty == old(state.dirty) && state.dirtyShared == old(state.dirtyShared)
      invariant state.view == MarkedExcept(before, todo, id)
    {
      var key :| key in todo;
      MarkOneMore(before, todo, key, id);
      state.MarkSnapshot(key, id);
      todo := todo - {key};
    }
    state.AddDirty({id});
  }

  /** Does the guard correlation accept this restore? */
  predicate MatchesGuard(saved: SnapshotRef, id: int, pairs: GuardPairs)
    reads saved.guardedBy
  {
    exists g <- saved.guardedBy.elems :: (g, id) in pairs
  }

  /** Is the statement a write from a variable with a proven snapshot? */
  predicate RestoresSaved(state: FlowRef, s: Statement)
    reads state, state.saved
  {
    s.WriteProperty? && s.source.Some? && s.source.value in state.saved.entries &&
    !state.saved.entries[s.source.value].unknown
  }

  /** The write of the property by an effective assignment that proves no restore. */
  method WriteUnproven(state: FlowRef, s: Statement, pairs: GuardPairs)
    requires state.Valid() && state.AllShared() && s.WriteProperty? && !s.inert && !SavedRestore(state.view, s)
    modifies state
    ensures state.Valid() && state.view == Apply(old(state.view), s, pairs)
  {
    if s.source.Some? && s.source.value in state.saved.entries {
      var saved := state.saved.entries[s.source.value];
      state.RemoveDirty(saved.restores.elems);
      if MatchesGuard(saved, s.id, pairs) {
        state.AddDirty(saved.dirty.elems);
        return;
      }
    }
    MarkOrigin(state, s.id);
  }

  /** The transfer of one completed statement, on the caller's private record. */
  method ApplyStatement(state: FlowRef, s: Statement, pairs: GuardPairs)
    requires state.Valid() && state.AllShared()
    modifies state
    ensures state.Valid() && state.view == Apply(old(state.view), s, pairs)
  {
    match s
    case Other =>
    case WriteProperty(_, _, inert) =>
      if inert { return; }
      if RestoresSaved(state, s) {
        state.ReplaceDirty(state.saved.entries[s.source.value].dirty.elems);
      } else {
        WriteUnproven(state, s, pairs);
      }
    case Capture(v, guards) => CaptureVariable(state, v, guards);
    case CopyVariable(v, w) =>
      if w in state.saved.entries { ShareSnapshot(state, v, w); } else { ForgetVariable(state, v); }
    case AssignVariable(v) => ForgetVariable(state, v);
  }

  /** The variable now shares the snapshot of another. */
  method ShareSnapshot(state: FlowRef, v: string, w: string)
    requires state.Valid() && state.AllShared() && w in state.view.saved
    modifies state
    ensures state.Valid() && state.view == old(state.view).(saved := old(state.view).saved[v := old(state.view).saved[w]])
  {
    state.Put(v, state.saved.entries[w], state.view.saved[w]);
    state.snapshotMapsShared := true;
  }

  /** The variable now holds the current setting, taken under these guards. */
  method CaptureVariable(state: FlowRef, v: string, guards: set<int>)
    requires state.Valid() && state.AllShared()
    modifies state
    ensures state.Valid() && state.view == old(state.view).(saved := old(state.view).saved[v := Snapshot(old(state.view).dirty, {}, guards, false)])
  {
    var d := new IntSet(state.dirty.elems);
    var r := new IntSet({});
    var g := new IntSet(guards);
    state.Put(v, SnapshotRef(d, r, g, false), Snapshot(d.elems, {}, guards, false));
  }

  /** Any other assignment leaves the variable unproven. */
  method ForgetVariable(state: FlowRef, v: string)
    requires state.Valid() && state.AllShared()
    modifies state
    ensures state.Valid() && state.view == old(state.view).(saved := old(state.view).saved[v := ABSENT])
  {
    var d := new IntSet({});
    var r := new IntSet({});
    var g := new IntSet({});
    state.Put(v, SnapshotRef(d, r, g, true), ABSENT);
  }

  /** The transfer of a property write that faults, on the caller's private record. */
  method ApplyExceptionalRestore(state: FlowRef, s: Statement, pairs: GuardPairs)
    requires state.Valid() && state.AllShared()
    modifies state
    ensures state.Valid() && state.view == ExceptionalRestore(old(state.view), s, pairs)
  {
    if !s.WriteProperty? || s.source.None? || s.source.value !in state.saved.entries { return; }
    var saved := state.saved.entries[s.source.value];
    if MatchesGuard(saved, s.id, pairs) {
      state.ReplaceDirty(saved.dirty.elems);
    } else {
      state.RemoveDirty(saved.restores.elems);
    }
  }

  /** A private record that shares every map with `state`. */
  method Fork(state: FlowRef) returns (out: FlowRef)
    requires state.Valid()
    ensures fresh(out) && out.Valid() && out.AllShared()
    ensures out.view == state.view && out.dirty == state.dirty && out.saved == state.saved
  {
    var copy := new FlowRef.ByValue(state);
    out := copy.Clone();
  }

  /** A private record for one edge that still shares every map with `state`. */
  method CopyForEdge(state: FlowRef, edgeClass: EdgeClass) returns (out: FlowRef)
    requires state.Valid()
    ensures fresh(out) && out.Valid() && out.AllShared()
    ensures out.view == state.view.(viaExceptional := state.view.viaExceptional || edgeClass == Exceptional)
  {
    out := Fork(state);
    out.NoteClass(edgeClass);
  }

  /** What one edge carries out of a block; `state` and every map it reaches are left alone. */
  method FlowAcrossEdge(state: FlowRef, s: Statement, edgeClass: EdgeClass, pairs: GuardPairs) returns (out: FlowRef)
    requires state.Valid()
    ensures fresh(out) && out.Valid() && out.view == AcrossEdge(state.view, s, edgeClass, pairs)
  {
    out := CopyForEdge(state, edgeClass);
    if edgeClass == Normal || RestoresSaved(out, s) {
      ApplyStatement(out, s, pairs);
    } else {
      ApplyExceptionalRestore(out, s, pairs);
    }
  }

  // ---- Merge ---------------------------------------------------------------------------

  /** What a lookup of a missing key yields when two snapshots are compared. */
  const ZERO := Snapshot({}, {}, {}, false)

  /** Joins one variable's snapshots into fresh sets and compares the result with what is stored. */
  method MergeOne(a: Flow, b: Flow, key: string) returns (merged: SnapshotRef, differs: bool)
    requires key in a.saved.Keys + b.saved.Keys
    ensures fresh(merged.Sets()) && merged.Shows(MergeSnapshot(a, b, key))
    ensures differs <==> KeyDiffers(a, b, key)
  {
    var left, right := Lookup(a, key), Lookup(b, key);
    var d := new IntSet(left.dirty + right.dirty);
    var g := new IntSet(left.guardedBy + right.guardedBy);
    var r := new IntSet(set o | o in left.restores + right.restores &&
                         (o in a.dirty ==> o in left.restores) && (o in b.dirty ==> o in right.restores));
    merged := SnapshotRef(d, r, g, left.unknown || right.unknown);
    var stored := if key in a.saved then left else ZERO;
    differs := stored.unknown != merged.unknown || stored.dirty != d.elems ||
               stored.restores != r.elems || stored.guardedBy != g.elems;
  }

  /** The merge with the snapshots of `done` already joined. */
  ghost function Joined(a: Flow, b: Flow, done: set<string>): Flow {
    Flow(
      a.dirty + b.dirty,
      map k | k in a.saved.Keys + done :: if k in done then MergeSnapshot(a, b, k) else a.saved[k],
      a.viaExceptional || b.viaExceptional)
  }

  /** Does joining the flows change what is stored for `key`? */
  ghost predicate KeyDiffers(a: Flow, b: Flow, key: string) {
    key !in a.saved || a.saved[key] != MergeSnapshot(a, b, key)
  }

  ghost predicate AnyDiffers(a: Flow, b: Flow, keys: set<string>) { exists k <- keys :: KeyDiffers(a, b, k) }

  lemma AnyDiffersGrows(a: Flow, b: Flow, keys: set<string>, todo: set<string>, key: string)
    requires key in todo && todo <= keys
    ensures AnyDiffers(a, b, keys - (todo - {key})) <==> AnyDiffers(a, b, keys - todo) || KeyDiffers(a, b, key)
  {
    assert keys - (todo - {key}) == (keys - todo) + {key};
    assert key in (keys - todo) + {key} && forall k <- keys - todo :: k in (keys - todo) + {key};
  }

  lemma JoinOneMore(a: Flow, b: Flow, todo: set<string>, key: string)
    requires var keys := a.saved.Keys + b.saved.Keys; key in todo && todo <= keys
    ensures var keys := a.saved.Keys + b.saved.Keys;
      var f, g := Joined(a, b, keys - todo), Joined(a, b, keys - (todo - {key}));
      && g == f.(saved := f.saved[key := MergeSnapshot(a, b, key)])
      && (!KeyDiffers(a, b, key) ==> g == f)
  {
  }

  lemma JoinEnds(a: Flow, b: Flow)
    ensures Joined(a, b, {}) == a.(dirty := a.dirty + b.dirty, viaExceptional := a.viaExceptional || b.viaExceptional)
    ensures var keys := a.saved.Keys + b.saved.Keys; Joined(a, b, keys) == Joined(a, b, keys - {}) == Merge(a, b)
    ensures Joined(a, b, {}) == Merge(a, b) <==> !AnyDiffers(a, b, a.saved.Keys + b.saved.Keys)
  {
    var keys := a.saved.Keys + b.saved.Keys;
    assert Joined(a, b, {}).saved == a.saved;
    assert Joined(a, b, keys).saved == Merge(a, b).saved;
    assert keys - {} == keys;
    if forall k <- keys :: !KeyDiffers(a, b, k) { assert a.saved == Merge(a, b).saved; }
    if a.saved == Merge(a, b).saved {
      forall k <- keys ensures !KeyDiffers(a, b, k) { assert k in Merge(a, b).saved; }
    }
  }

  /** Joins the origins and the path flag of `incoming` into a private copy of `current`. */
  method MergeHead(current: FlowRef, incoming: FlowRef) returns (next: FlowRef, changed: bool)
    requires current.Valid() && incoming.Valid()
    ensures fresh(next) && next.Valid() && next.savedShared && next.saved == current.saved
    ensures next.view == Joined(current.view, incoming.view, {})
    ensures changed <==> next.view != current.view
  {
    ghost var f := current.view;
    next := Fork(current);
    changed := false;
    if !(incoming.dirty.elems <= next.dirty.elems) {
      next.AddDirty(incoming.dirty.elems);
      changed := true;
    }
    if incoming.viaExceptional && !next.viaExceptional {
      next.NoteClass(Exceptional);
      changed := true;
    }
    assert next.view == f.(dirty := f.dirty + incoming.view.dirty, viaExceptional := f.viaExceptional || incoming.view.viaExceptional);
    JoinEnds(f, incoming.view);
  }

  /** Joins one variable's snapshots into `next`, copying its map of snapshots if it is shared. */
  method MergeKey(next: FlowRef, a: Flow, b: Flow, key: string, ghost todo: set<string>, changed: bool) returns (changed': bool)
    requires next.Valid() && key in todo && todo <= a.saved.Keys + b.saved.Keys
    requires next.view == Joined(a, b, a.saved.Keys + b.saved.Keys - todo)
    requires changed <==> AnyDiffers(a, b, a.saved.Keys + b.saved.Keys - todo)
    modifies next`saved, next`savedShared, next`view, if next.savedShared then {} else {next.saved}
    ensures next.Valid() && (if old(next.savedShared) then next.savedShared || fresh(next.saved) else next.saved == old(next.saved))
    ensures next.view == Joined(a, b, a.saved.Keys + b.saved.Keys - (todo - {key}))
    ensures changed' <==> AnyDiffers(a, b, a.saved.Keys + b.saved.Keys - (todo - {key}))
  {
    JoinOneMore(a, b, todo, key);
    AnyDiffersGrows(a, b, a.saved.Keys + b.saved.Keys, todo, key);
    var merged, differs;
    merged, differs := MergeOne(a, b, key);
    if differs {
      next.EnsureSaved();
      next.PutOwned(key, merged, MergeSnapshot(a, b, key));
    }
    changed' := changed || differs;
  }

  /** Joins the snapshots of two flows into a private copy of the first. */
  method MergeSaved(next: FlowRef, a: Flow, b: Flow) returns (changed: bool)
    requires next.Valid() && next.savedShared && next.view == Joined(a, b, {})
    modifies next
    ensures next.Valid() && next.view == Merge(a, b)
    ensures changed <==> next.view != old(next.view)
  {
    var keys := a.saved.Keys + b.saved.Keys;
    var todo := keys;
    changed := false;
    JoinEnds(a, b);
    assert keys - todo == {};
    while todo != {}
      invariant todo <= keys && next.Valid()
      invariant next.savedShared || fresh(next.saved)
      invariant next.view == Joined(a, b, keys - todo)
      invariant changed <==> AnyDiffers(a, b, keys - todo)
    {
      var key :| key in todo;
      changed := MergeKey(next, a, b, key, todo, changed);
      todo := todo - {key};
    }
  }

  /** Joins two flows; `changed` tells exactly whether the result differs from `current`. */
  method MergeFlow(current: FlowRef?, incoming: FlowRef) returns (next: FlowRef, changed: bool)
    requires current != null ==> current.Valid()
    requires incoming.Valid()
    ensures fresh(next) && next.Valid()
    ensures current == null ==> changed && next.view == incoming.view
    ensures current != null ==> next.view == Merge(current.view, incoming.view)
    ensures current != null ==> (changed <==> next.view != current.view)
  {
    if current == null {
      next := Fork(incoming);
      return next, true;
    }
    var head, saved;
    next, head := MergeHead(current, incoming);
    saved := MergeSaved(next, current.Contents(), incoming.Contents());
    changed := head || saved;
  }
}
