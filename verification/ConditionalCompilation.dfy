/**
 Counting operations under `On Error Resume Next` when only one branch of each `#If` group
 exists in a compiled module (MS-VBAL section 3.4.2).  The control flow is source
 sequential, so a stack of frames keeps, per open group, the best of the branches seen.

 The functions here are the saturating bookkeeping of the analyzer; `ScopeCounter` performs
 the same steps in place.
 */
module ConditionalCompilation {
  datatype Branch = Branch(group: string, branch: int)

  datatype Frame = Frame(group: string, branch: int, base: nat, ops: nat, best: nat)

  /** The part of a Resume Next state that counts; `multiple` is the multiple-operations flag. */
  datatype Counter = Counter(operations: nat, multiple: bool, frames: seq<Frame>)

  function SaturatedAdd(left: nat, right: nat): nat {
    if left >= 2 || right >= 2 || left + right >= 2 then 2 else left + right
  }

  function Current(c: Counter): nat {
    if c.frames == [] then c.operations
    else var f := c.frames[|c.frames| - 1]; SaturatedAdd(f.base, f.ops)
  }

  function Top(c: Counter): Frame
    requires c.frames != []
  {
    c.frames[|c.frames| - 1]
  }

  function WithTop(c: Counter, f: Frame): Counter
    requires c.frames != []
  {
    c.(frames := c.frames[|c.frames| - 1 := f])
  }

  function Record(c: Counter): Counter {
    if c.frames == [] then
      var n := if c.operations < 2 then c.operations + 1 else c.operations;
      c.(operations := n, multiple := c.multiple || n >= 2)
    else
      var f := Top(c);
      var d := WithTop(c, f.(ops := if f.ops < 2 then f.ops + 1 else f.ops));
      d.(multiple := d.multiple || Current(d) >= 2)
  }

  function Remember(f: Frame): Frame {
    if f.ops > f.best then f.(best := f.ops) else f
  }

  /** Closes the innermost group: its best branch is what the enclosing branch has done. */
  function Commit(c: Counter): Counter
    requires c.frames != []
  {
    var f := Remember(Top(c));
    var completed := SaturatedAdd(f.base, f.best);
    var d := c.(frames := c.frames[..|c.frames| - 1]);
    if d.frames == [] then d.(operations := completed)
    else
      var parent := Top(d);
      WithTop(d, parent.(ops :=
        if completed <= parent.base then 0 else if completed - parent.base > 2 then 2 else completed - parent.base))
  }

  function Common(frames: seq<Frame>, path: seq<Branch>): nat {
    if frames == [] || path == [] || frames[0].group != path[0].group || frames[0].branch != path[0].branch then 0
    else 1 + Common(frames[1..], path[1..])
  }

  predicate SameGroupAt(c: Counter, n: nat, path: seq<Branch>) {
    n < |path| && n < |c.frames| && c.frames[n].group == path[n].group
  }

  /** Closes what lies beyond the common prefix, but keeps a group whose branch merely changes. */
  function Unwind(c: Counter, n: nat, path: seq<Branch>): Counter
    decreases |c.frames|
  {
    if |c.frames| <= n || (|c.frames| == n + 1 && SameGroupAt(c, n, path)) then c
    else Unwind(Commit(c), n, path)
  }

  function Switch(c: Counter, n: nat, path: seq<Branch>): Counter {
    if SameGroupAt(c, n, path) then
      c.(frames := c.frames[n := Remember(c.frames[n]).(branch := path[n].branch, ops := 0)])
    else c
  }

  function Extend(c: Counter, path: seq<Branch>): Counter
    decreases |path| - |c.frames|
  {
    if |c.frames| >= |path| then c
    else
      var b := path[|c.frames|];
      Extend(c.(frames := c.frames + [Frame(b.group, b.branch, Current(c), 0, 0)]), path)
  }

  function Sync(c: Counter, path: seq<Branch>): Counter {
    var n := Common(c.frames, path);
    Extend(Switch(Unwind(c, n, path), n, path), path)
  }

  // ---- In place ------------------------------------------------------------------------

  /** The same bookkeeping on a state whose frame stack is written through a reference. */
  class ScopeCounter {
    var operations: nat
    var multiple: bool
    var frames: seq<Frame>

    function Value(): Counter
      reads this
    {
      Counter(operations, multiple, frames)
    }

    constructor ()
      ensures Value() == Counter(0, false, [])
    {
      operations, multiple, frames := 0, false, [];
    }

    method RecordOperation()
      modifies this
      ensures Value() == Record(old(Value()))
    {
      if frames == [] {
        if operations < 2 { operations := operations + 1; }
        if operations >= 2 { multiple := true; }
        return;
      }
      var n := |frames| - 1;
      if frames[n].ops < 2 {
        frames := frames[n := frames[n].(ops := frames[n].ops + 1)];
      } else {
        assert frames[n := frames[n]] == frames;
      }
      if Current(Value()) >= 2 { multiple := true; }
    }

    method CommitConditionalBranch()
      requires frames != []
      modifies this
      ensures Value() == Commit(old(Value()))
    {
      var index := |frames| - 1;
      frames := frames[index := Remember(frames[index])];
      var completed := SaturatedAdd(frames[index].base, frames[index].best);
      frames := frames[..index];
      if frames == [] {
        operations := completed;
        return;
      }
      var n := |frames| - 1;
      var parent := frames[n];
      if completed <= parent.base {
        frames := frames[n := parent.(ops := 0)];
        return;
      }
      var gained: int := completed - parent.base;
      if gained > 2 { gained := 2; }
      frames := frames[n := parent.(ops := gained)];
    }

    method CommonLength(path: seq<Branch>) returns (common: nat)
      ensures common == Common(frames, path)
    {
      common := 0;
      while common < |frames| && common < |path|
        invariant common <= |frames| && common <= |path|
        invariant Common(frames, path) == common + Common(frames[common..], path[common..])
      {
        if frames[common].group != path[common].group || frames[common].branch != path[common].branch { return; }
        assert frames[common..][1..] == frames[common + 1..] && path[common..][1..] == path[common + 1..];
        common := common + 1;
      }
    }

    method SyncConditionalBranches(path: seq<Branch>)
      modifies this
      ensures Value() == Sync(old(Value()), path)
    {
      var common := CommonLength(path);
      ghost var start := Value();
      while |frames| > common
        invariant Unwind(Value(), common, path) == Unwind(start, common, path)
        decreases |frames|
      {
        if common < |path| && |frames| == common + 1 && frames[common].group == path[common].group { break; }
        CommitConditionalBranch();
      }
      ghost var unwound := Value();
      if common < |path| && common < |frames| && frames[common].group == path[common].group {
        frames := frames[common := Remember(frames[common]).(branch := path[common].branch, ops := 0)];
      }
      ghost var switched := Value();
      while |frames| < |path|
        invariant Extend(Value(), path) == Extend(switched, path)
      {
        var b := path[|frames|];
        frames := frames + [Frame(b.group, b.branch, Current(Value()), 0, 0)];
      }
    }
  }
}
