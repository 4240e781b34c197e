/** Decimal printing and separator-joined keys, and what those keys can tell apart. */
module Text {
  // ---- Decimal printing ----------------------------------------------------------------

  function Digit(d: nat): char
    requires d < 10
  {
    "0123456789"[d]
  }

  /** The decimal digits of a positive number; nothing for zero. */
  function Digits(v: nat): string {
    if v == 0 then "" else Digits(v / 10) + [Digit(v % 10)]
  }

  /** What the printer yields: its loop never runs on a negative number. */
  function Itoa(v: int): string {
    if v == 0 then "0" else if v < 0 then "" else Digits(v)
  }

  function Pow10(n: nat): nat {
    if n == 0 then 1 else 10 * Pow10(n - 1)
  }

  const MAX_INT64 := 0x7FFF_FFFF_FFFF_FFFF

  /** One more digit in front of those already written. */
  lemma PushDigit(value: nat, v: nat, tail: string)
    requires v > 0 && Digits(value) == Digits(v) + tail
    ensures Digits(value) == Digits(v / 10) + ([Digit(v % 10)] + tail)
  {
  }

  /** Dividing by ten leaves one place less to fill. */
  lemma OnePlaceLess(v: nat, n: nat)
    requires 0 < v < Pow10(n)
    ensures n > 0 && v / 10 < Pow10(n - 1)
  {
  }

  lemma TwentyDigits()
    ensures MAX_INT64 < Pow10(20)
  {
    assert Pow10(5) == 100000;
    assert Pow10(10) == 100000 * Pow10(5);
    assert Pow10(15) == 100000 * Pow10(10);
    assert Pow10(20) == 100000 * Pow10(15);
  }

  /** Fills a buffer from its end. */
  method FillDigits(value: int, buf: array<char>) returns (i: nat)
    requires value < Pow10(buf.Length)
    modifies buf
    ensures i <= buf.Length && buf[i..] == if value > 0 then Digits(value) else ""
  {
    i := buf.Length;
    var v := value;
    while v > 0
      invariant 0 <= i <= buf.Length && v < Pow10(i) && (v < 0 <==> value < 0)
      invariant if value > 0 then Digits(value) == Digits(v) + buf[i..] else i == buf.Length && v == value
    {
      PushDigit(value, v, buf[i..]);
      OnePlaceLess(v, i);
      ghost var tail := buf[i..];
      i := i - 1;
      buf[i] := Digit(v % 10);
      assert buf[i..] == [Digit(v % 10)] + tail;
      v := v / 10;
    }
  }

  /** Every 64-bit integer fits the fixed buffer. */
  method StrconvItoa(value: int) returns (s: string)
    requires value <= MAX_INT64
    ensures s == Itoa(value)
  {
    if value == 0 { return "0"; }
    var buf := new char[20];
    TwentyDigits();
    var i := FillDigits(value, buf);
    return buf[i..];
  }

  function Value(s: string): int {
    if s == "" then 0 else 10 * Value(s[..|s| - 1]) + (s[|s| - 1] as int - '0' as int)
  }

  lemma {:induction false} ValueOfDigits(v: nat)
    ensures Value(Digits(v)) == v && forall c <- Digits(v) :: '0' <= c <= '9'
    ensures v > 0 ==> Digits(v) != "" && Digits(v)[0] != '0'
  {
    if v > 0 {
      ValueOfDigits(v / 10);
      assert Digits(v)[..|Digits(v)| - 1] == Digits(v / 10);
    }
  }

  /** Printing keeps distinct natural numbers apart, and uses digits only. */
  lemma ItoaInjective(v: nat, w: nat)
    ensures Itoa(v) == Itoa(w) ==> v == w
    ensures forall c <- Itoa(v) :: '0' <= c <= '9'
  {
    ValueOfDigits(v);
    ValueOfDigits(w);
  }

  /** Printing is injective on two integers exactly when they are equal or not both negative. */
  lemma ItoaSeparates(v: int, w: int)
    ensures Itoa(v) == Itoa(w) <==> v == w || (v < 0 && w < 0)
  {
    if v >= 0 { ValueOfDigits(v); }
    if w >= 0 { ValueOfDigits(w); }
  }

  // ---- Joined keys ---------------------------------------------------------------------

  function Join(parts: seq<string>, sep: char): string {
    if parts == [] then "" else if |parts| == 1 then parts[0] else parts[0] + [sep] + Join(parts[1..], sep)
  }

  ghost predicate Free(s: string, sep: char) { sep !in s }

  ghost predicate AllFree(parts: seq<string>, sep: char) {
    forall p <- parts :: Free(p, sep)
  }

  /** The first separator splits a string in one way only. */
  lemma SplitFirst(a: string, x: string, b: string, y: string, sep: char)
    requires Free(a, sep) && Free(b, sep) && a + [sep] + x == b + [sep] + y
    ensures a == b && x == y
  {
    var s, t := a + [sep] + x, b + [sep] + y;
    assert s[|a|] == sep && t[|b|] == sep;
    assert forall k | 0 <= k < |a| :: s[k] == a[k];
    assert forall k | 0 <= k < |b| :: t[k] == b[k];
    assert |a| == |b|;
    assert a == s[..|a|] && b == t[..|a|];
    assert x == s[|a| + 1..] && y == t[|a| + 1..];
  }

  /** The last separator splits a string in one way only. */
  lemma SplitLast(x: string, a: string, y: string, b: string, sep: char)
    requires Free(a, sep) && Free(b, sep) && x + [sep] + a == y + [sep] + b
    ensures a == b && x == y
  {
    var s, t := x + [sep] + a, y + [sep] + b;
    assert s[|x|] == sep && t[|y|] == sep;
    assert forall k | |x| < k < |s| :: s[k] == a[k - |x| - 1];
    assert forall k | |y| < k < |t| :: t[k] == b[k - |y| - 1];
    assert |x| == |y|;
    assert x == s[..|x|] && y == t[..|x|];
    assert a == s[|x| + 1..] && b == t[|x| + 1..];
  }

  lemma FreeHasNoSeparator(a: string, b: string, x: string, sep: char)
    requires Free(a, sep)
    ensures a != b + [sep] + x
  {
  }

  /** Keys joined from separator-free parts determine the parts. */
  lemma {:induction false} JoinInjective(p: seq<string>, q: seq<string>, sep: char)
    requires AllFree(p, sep) && AllFree(q, sep) && p != [] && q != []
    requires Join(p, sep) == Join(q, sep)
    ensures p == q
  {
    if |p| == 1 && |q| == 1 {
    } else if |p| == 1 {
      FreeHasNoSeparator(p[0], q[0], Join(q[1..], sep), sep);
    } else if |q| == 1 {
      FreeHasNoSeparator(q[0], p[0], Join(p[1..], sep), sep);
    } else {
      SplitFirst(p[0], Join(p[1..], sep), q[0], Join(q[1..], sep), sep);
      JoinInjective(p[1..], q[1..], sep);
      assert p == [p[0]] + p[1..] && q == [q[0]] + q[1..];
    }
  }
}
