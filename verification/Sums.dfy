/** Sums over the elements of a sequence, and how one replaced element changes them. */
module Sums {
  function Sum<T>(s: seq<T>, g: T -> nat): nat {
    if s == [] then 0 else g(s[|s| - 1]) + Sum(s[..|s| - 1], g)
  }

  lemma {:induction false} SumUpdate<T>(s: seq<T>, i: nat, v: T, g: T -> nat)
    requires i < |s|
    ensures Sum(s[i := v], g) == Sum(s, g) - g(s[i]) + g(v) && g(s[i]) <= Sum(s, g)
  {
    var n := |s| - 1;
    if i == n {
      assert s[i := v][..n] == s[..n];
    } else {
      assert s[i := v][..n] == s[..n][i := v];
      SumUpdate(s[..n], i, v, g);
    }
  }

  lemma {:induction false} SumZero<T>(s: seq<T>, g: T -> nat)
    ensures Sum(s, g) == 0 <==> forall i :: 0 <= i < |s| ==> g(s[i]) == 0
  {
    if s != [] {
      SumZero(s[..|s| - 1], g);
      if Sum(s, g) == 0 {
        forall i | 0 <= i < |s| ensures g(s[i]) == 0 { if i < |s| - 1 { assert s[..|s| - 1][i] == s[i]; } }
      }
    }
  }

  lemma SumAtLeast<T>(s: seq<T>, i: nat, g: T -> nat)
    requires i < |s|
    ensures g(s[i]) <= Sum(s, g)
  {
    SumUpdate(s, i, s[i], g);
  }

  lemma {:induction false} SumOfTwo<T>(s: seq<T>, i: nat, j: nat, g: T -> nat)
    requires i < |s| && j < |s| && i != j
    ensures g(s[i]) + g(s[j]) <= Sum(s, g)
  {
    var n := |s| - 1;
    if i == n { SumAtLeast(s[..n], j, g); }
    else if j == n { SumAtLeast(s[..n], i, g); }
    else { SumOfTwo(s[..n], i, j, g); }
  }

  lemma {:induction false} SumMonotone<T>(s: seq<T>, g: T -> nat, h: T -> nat)
    requires forall i :: 0 <= i < |s| ==> g(s[i]) <= h(s[i])
    ensures Sum(s, g) <= Sum(s, h)
  {
    if s != [] {
      var t := s[..|s| - 1];
      assert forall i :: 0 <= i < |t| ==> t[i] == s[i];
      SumMonotone(t, g, h);
    }
  }

  lemma {:induction false} SumLess<T>(s: seq<T>, k: nat, g: T -> nat, h: T -> nat)
    requires k < |s| && g(s[k]) < h(s[k]) && forall i :: 0 <= i < |s| ==> g(s[i]) <= h(s[i])
    ensures Sum(s, g) < Sum(s, h)
  {
    var n, t := |s| - 1, s[..|s| - 1];
    assert forall i :: 0 <= i < |t| ==> t[i] == s[i];
    if k == n { SumMonotone(t, g, h); } else { SumLess(t, k, g, h); }
  }

  lemma {:induction false} SumLessPointwise<T>(s: seq<T>, t: seq<T>, k: nat, g: T -> nat)
    requires |s| == |t| && k < |s| && g(s[k]) < g(t[k]) && forall i :: 0 <= i < |s| ==> g(s[i]) <= g(t[i])
    ensures Sum(s, g) < Sum(t, g)
  {
    var n := |s| - 1;
    if k < n { SumLessPointwise(s[..n], t[..n], k, g); } else { SumPointwise(s[..n], t[..n], g); }
  }

  lemma {:induction false} SumPointwise<T>(s: seq<T>, t: seq<T>, g: T -> nat)
    requires |s| == |t| && forall i :: 0 <= i < |s| ==> g(s[i]) <= g(t[i])
    ensures Sum(s, g) <= Sum(t, g)
  {
    if s != [] { SumPointwise(s[..|s| - 1], t[..|t| - 1], g); }
  }
}
