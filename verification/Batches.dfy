/** How the procedures of one file are cut into batches for the shared pool. */
module Batches {
  /** The ceiling division that keeps one file at four batches per worker at most. */
  function BatchSize(procedures: nat, limit: nat): nat
    requires limit > 0
  {
    var size := (procedures + limit * 4 - 1) / (limit * 4);
    if size < 1 then 1 else size
  }

  /** The half-open ranges the submitting loop hands out, in order. */
  function Ranges(start: nat, procedures: nat, size: nat): seq<(nat, nat)>
    requires size > 0
    decreases procedures - start
  {
    if start >= procedures then []
    else
      var end := if start + size > procedures then procedures else start + size;
      [(start, end)] + Ranges(start + size, procedures, size)
  }

  function BatchRanges(procedures: nat, limit: nat): seq<(nat, nat)>
    requires limit > 0
  {
    Ranges(0, procedures, BatchSize(procedures, limit))
  }

  lemma {:induction false} RangeAt(start: nat, procedures: nat, size: nat, k: nat)
    requires size > 0 && k < |Ranges(start, procedures, size)|
    ensures var r := Ranges(start, procedures, size)[k];
      r.0 == start + k * size && r.0 < r.1 <= procedures && (r.1 == r.0 + size || r.1 == procedures) && r.1 - r.0 <= size
    decreases k
  {
    if k > 0 {
      RangeAt(start + size, procedures, size, k - 1);
    }
  }

  /** Batch `k` holds procedure `index`. */
  predicate Holds(rs: seq<(nat, nat)>, k: nat, index: nat) {
    k < |rs| && rs[k].0 <= index < rs[k].1
  }

  ghost predicate HeldBySome(rs: seq<(nat, nat)>, index: nat) {
    exists k: nat :: Holds(rs, k, index)
  }

  lemma {:induction false} RangesCover(start: nat, procedures: nat, size: nat, index: nat)
    requires size > 0 && start <= index < procedures
    ensures HeldBySome(Ranges(start, procedures, size), index)
    decreases procedures - start
  {
    var rs := Ranges(start, procedures, size);
    if index < start + size {
      assert Holds(rs, 0, index);
    } else {
      var rest := Ranges(start + size, procedures, size);
      RangesCover(start + size, procedures, size, index);
      var k: nat :| Holds(rest, k, index);
      assert rs[k + 1] == rest[k];
      assert Holds(rs, k + 1, index);
    }
  }

  lemma {:induction false} FewRanges(start: nat, procedures: nat, size: nat, most: nat)
    requires size > 0 && procedures <= start + most * size
    ensures |Ranges(start, procedures, size)| <= most
    decreases most
  {
    if start < procedures {
      if most == 0 { assert false; }
      FewRanges(start + size, procedures, size, most - 1);
    }
  }

  lemma {:induction false} Scaled(size: nat, j: nat, k: nat)
    requires j < k
    ensures j * size + size <= k * size
    decreases k
  {
    assert k * size == (k - 1) * size + size;
    if j < k - 1 { Scaled(size, j, k - 1); }
  }

  /** Two batches share no procedure. */
  lemma RangesDisjoint(procedures: nat, size: nat, j: nat, k: nat, index: nat)
    requires size > 0 && Holds(Ranges(0, procedures, size), j, index) && Holds(Ranges(0, procedures, size), k, index)
    ensures j == k
  {
    RangeAt(0, procedures, size, j);
    RangeAt(0, procedures, size, k);
    if j < k { Scaled(size, j, k); }
    if k < j { Scaled(size, k, j); }
  }

  /** No batch is empty, every procedure index is in exactly one, and there are four batches per worker at most. */
  lemma BatchesPartition(procedures: nat, limit: nat)
    requires limit > 0
    ensures |BatchRanges(procedures, limit)| <= 4 * limit
    ensures forall k: nat :: k < |BatchRanges(procedures, limit)| ==> Holds(BatchRanges(procedures, limit), k, BatchRanges(procedures, limit)[k].0)
    ensures forall index: nat | index < procedures :: HeldBySome(BatchRanges(procedures, limit), index)
    ensures forall j: nat, k: nat, index: nat ::
      Holds(BatchRanges(procedures, limit), j, index) && Holds(BatchRanges(procedures, limit), k, index) ==> j == k && index < procedures
  {
    var size := BatchSize(procedures, limit);
    var rs := BatchRanges(procedures, limit);
    FourPerWorker(procedures, limit);
    FewRanges(0, procedures, size, 4 * limit);
    forall k: nat | k < |rs| ensures Holds(rs, k, rs[k].0) { RangeAt(0, procedures, size, k); }
    forall index: nat | index < procedures ensures HeldBySome(rs, index) {
      RangesCover(0, procedures, size, index);
    }
    forall j: nat, k: nat, index: nat | Holds(rs, j, index) && Holds(rs, k, index) ensures j == k && index < procedures {
      RangeAt(0, procedures, size, j);
      RangesDisjoint(procedures, size, j, k, index);
    }
  }

  /** The submitting loop. */
  method CutBatches(procedures: nat, size: nat) returns (batches: seq<(nat, nat)>)
    requires size > 0
    ensures batches == Ranges(0, procedures, size)
  {
    batches := [];
    var start := 0;
    while start < procedures
      invariant batches + Ranges(start, procedures, size) == Ranges(0, procedures, size)
      decreases procedures - start
    {
      var end := start + size;
      if end > procedures { end := procedures; }
      ghost var rest := Ranges(start + size, procedures, size);
      assert batches + ([(start, end)] + rest) == (batches + [(start, end)]) + rest;
      batches := batches + [(start, end)];
      start := start + size;
    }
  }

  lemma FourPerWorker(procedures: nat, limit: nat)
    requires limit > 0
    ensures procedures <= 4 * limit * BatchSize(procedures, limit)
  {
  }
}
