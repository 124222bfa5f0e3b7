/** The vocabulary shared by all modules: optional values, results, the order of strings,
    sequences without repeats and doubling delays. */
module Prelude {

  datatype Option<+T> = None | Some(value: T)

  datatype Result<+T> = Ok(value: T) | Err

  /** Lexicographic order by code point. */
  function StrLess(a: string, b: string): bool {
    if b == "" then false
    else if a == "" then true
    else a[0] < b[0] || (a[0] == b[0] && StrLess(a[1..], b[1..]))
  }

  /** a and b agree up to k, where a ends or has the smaller character. */
  ghost predicate DiffersAt(a: string, b: string, k: int) {
    0 <= k <= |a| && k < |b| && a[..k] == b[..k] && (k < |a| ==> a[k] < b[k])
  }

  lemma {:induction false} LessDiffers(a: string, b: string) returns (k: int)
    requires StrLess(a, b)
    ensures DiffersAt(a, b, k)
  {
    if a == "" || a[0] < b[0] { return 0; }
    k := LessDiffers(a[1..], b[1..]);
    assert a[..k + 1] == [a[0]] + a[1..][..k] && b[..k + 1] == [b[0]] + b[1..][..k];
    k := k + 1;
  }

  lemma {:induction false} DiffersIsLess(a: string, b: string, k: int)
    requires DiffersAt(a, b, k)
    ensures StrLess(a, b)
    decreases k
  {
    if k > 0 {
      assert a[0] == a[..k][0] == b[..k][0] == b[0];
      assert a[1..][..k - 1] == a[..k][1..] && b[1..][..k - 1] == b[..k][1..];
      DiffersIsLess(a[1..], b[1..], k - 1);
    }
  }

  /** The order is decided at the first difference. */
  lemma StrLessMeans(a: string, b: string)
    ensures StrLess(a, b) <==> exists k :: DiffersAt(a, b, k)
  {
    if StrLess(a, b) { var k := LessDiffers(a, b); }
    if k :| DiffersAt(a, b, k) { DiffersIsLess(a, b, k); }
  }

  lemma {:induction false} StrLessTotal(a: string, b: string)
    ensures StrLess(a, b) || a == b || StrLess(b, a)
    ensures !(StrLess(a, b) && StrLess(b, a)) && !StrLess(a, a)
  {
    if a != "" && b != "" {
      StrLessTotal(a[1..], b[1..]);
      assert a == [a[0]] + a[1..] && b == [b[0]] + b[1..];
    }
    if a != "" { StrLessTotal(a[1..], a[1..]); }
  }

  lemma {:induction false} StrLessTransitive(a: string, b: string, c: string)
    requires StrLess(a, b) && StrLess(b, c)
    ensures StrLess(a, c)
  {
    if a != "" && a[0] == b[0] && b[0] == c[0] { StrLessTransitive(a[1..], b[1..], c[1..]); }
  }

  ghost predicate NoRepeats<T>(s: seq<T>) {
    forall i, j :: 0 <= i < j < |s| ==> s[i] != s[j]
  }

  ghost function Elements<T>(s: seq<T>): set<T> {
    set x | x in s
  }

  lemma NoRepeatsSnoc<T>(s: seq<T>, x: T)
    requires NoRepeats(s) && x !in s
    ensures NoRepeats(s + [x])
  {
  }

  lemma MultisetSnoc<T>(s: seq<T>, i: nat)
    requires i < |s|
    ensures multiset(s[..i + 1]) == multiset(s[..i]) + multiset{s[i]}
    ensures multiset(s[..i + 1]) <= multiset(s)
  {
    assert s[..i + 1] == s[..i] + [s[i]];
    assert s == s[..i + 1] + s[i + 1..];
  }

  lemma ElementsSnoc<T>(s: seq<T>, i: nat)
    requires i < |s|
    ensures Elements(s[..i + 1]) == Elements(s[..i]) + {s[i]}
  {
  }

  /** Sequences without repeats fit inside every set that holds their elements. */
  lemma {:induction false} NoRepeatsFits<T>(s: seq<T>, within: set<T>)
    requires NoRepeats(s)
    requires forall x :: x in s ==> x in within
    ensures |s| <= |within|
  {
    if s != [] {
      var last := s[|s| - 1];
      NoRepeatsFits(s[..|s| - 1], within - {last});
    }
  }

  lemma {:induction false} NoRepeatsSize<T>(s: seq<T>)
    requires NoRepeats(s)
    ensures |Elements(s)| == |s|
  {
    if s != [] {
      var last := s[|s| - 1];
      NoRepeatsSize(s[..|s| - 1]);
      assert Elements(s) == Elements(s[..|s| - 1]) + {last};
    }
  }

  function Pow2(n: nat): nat { if n == 0 then 1 else 2 * Pow2(n - 1) }

  /** A delay that starts at `base`, doubles n times and never exceeds `cap`. */
  function Doubling(base: int, cap: int, n: nat): int {
    if base * Pow2(n) < cap then base * Pow2(n) else cap
  }

  lemma {:induction false} Pow2Grows(a: nat, b: nat)
    requires a <= b
    ensures 1 <= Pow2(a) <= Pow2(b)
    decreases b
  {
    if b > 0 { Pow2Grows(if a < b then a else a - 1, b - 1); }
  }

  /** Doubling delays stay between base and cap and never shrink. */
  lemma DoublingGrows(base: int, cap: int, a: nat, b: nat)
    requires 0 < base <= cap && a <= b
    ensures base <= Doubling(base, cap, a) <= Doubling(base, cap, b) <= cap
  {
    Pow2Grows(0, a);
    Pow2Grows(a, b);
    MulGrows(base, 1, Pow2(a));
    MulGrows(base, Pow2(a), Pow2(b));
  }

  lemma MulGrows(base: int, x: int, y: int)
    requires 0 < base && x <= y
    ensures base * x <= base * y
  {
  }
}
