/**
 * The comparison primitives that `ModuleAdvice.compareTo` is built from:
 * Kotlin's `String.compareTo` (the JVM's `String.compareTo`), Kotlin's
 * `Boolean.compareTo` and the `thenBy` step of a `compareBy` chain.
 * Each returns an `Int` whose sign is the verdict: negative, zero or positive.
 */
module Comparisons {

  /**
   * `String.compareTo`: at the first position where the two strings differ
   * the result is the difference of the two characters; when one string is
   * a prefix of the other it is the difference of the lengths.
   */
  function CompareStrings(a: string, b: string): int
    decreases |a|
  {
    if |a| == 0 || |b| == 0 then |a| - |b|
    else if a[0] != b[0] then a[0] as int - b[0] as int
    else CompareStrings(a[1..], b[1..])
  }

  /**
   * Lexicographic order on strings, stated independently of CompareStrings:
   * `a` comes first when it has the smaller character at the first position
   * where the two differ, or when it is a proper prefix of `b`.
   */
  ghost predicate LexLess(a: string, b: string) {
    || (exists k :: 0 <= k < |a| && k < |b| && a[..k] == b[..k] && a[k] < b[k])
    || (|a| < |b| && a == b[..|a|])
  }

  /** `Boolean.compareTo`: false sorts before true. */
  function CompareBools(a: bool, b: bool): (r: int)
    ensures r == 0 <==> a == b
    ensures r < 0 <==> !a && b
    ensures r > 0 <==> a && !b
  {
    if a == b then 0 else if a then 1 else -1
  }

  /**
   * One `thenBy` step of a comparator chain: the earlier key decides unless
   * it ties, in which case the later key decides.
   */
  function ThenBy(first: int, next: int): (r: int)
    ensures r == 0 <==> first == 0 && next == 0
    ensures r < 0 <==> first < 0 || (first == 0 && next < 0)
  {
    if first != 0 then first else next
  }

  /** A string compares as 0 exactly with itself. */
  lemma {:induction false} CompareStringsZero(a: string, b: string)
    ensures CompareStrings(a, b) == 0 <==> a == b
    decreases |a|
  {
    if |a| != 0 && |b| != 0 && a[0] == b[0] {
      CompareStringsZero(a[1..], b[1..]);
      if a[1..] == b[1..] {
        assert a == [a[0]] + a[1..] && b == [b[0]] + b[1..];
      }
    }
  }

  /** Swapping the operands negates the result exactly. */
  lemma {:induction false} CompareStringsAntisymmetric(a: string, b: string)
    ensures CompareStrings(a, b) == -CompareStrings(b, a)
    decreases |a|
  {
    if |a| != 0 && |b| != 0 && a[0] == b[0] {
      CompareStringsAntisymmetric(a[1..], b[1..]);
    }
  }

  /** String comparison is transitive, and strictly so when either step is strict. */
  lemma {:induction false} CompareStringsTransitive(a: string, b: string, c: string)
    requires CompareStrings(a, b) <= 0 && CompareStrings(b, c) <= 0
    ensures CompareStrings(a, c) <= 0
    ensures CompareStrings(a, b) < 0 || CompareStrings(b, c) < 0 ==> CompareStrings(a, c) < 0
    decreases |a|
  {
    if |a| != 0 && |b| != 0 && |c| != 0 && a[0] == b[0] && b[0] == c[0] {
      CompareStringsTransitive(a[1..], b[1..], c[1..]);
    }
  }

  /** CompareStrings orders strings lexicographically. */
  lemma {:induction false} CompareStringsIsLexicographic(a: string, b: string)
    ensures CompareStrings(a, b) < 0 <==> LexLess(a, b)
    decreases |a|
  {
    if |a| == 0 {
      assert |b| > 0 ==> a == b[..|a|];
    } else if |b| == 0 {
    } else if a[0] != b[0] {
      if a[0] < b[0] {
        assert a[..0] == b[..0];
      }
    } else {
      CompareStringsIsLexicographic(a[1..], b[1..]);
      if LexLess(a[1..], b[1..]) {
        if k :| 0 <= k < |a[1..]| && k < |b[1..]| && a[1..][..k] == b[1..][..k] && a[1..][k] < b[1..][k] {
          assert a[..k + 1] == [a[0]] + a[1..][..k];
          assert b[..k + 1] == [b[0]] + b[1..][..k];
        } else {
          assert a == [a[0]] + a[1..] && b[..|a|] == [b[0]] + b[1..][..|a[1..]|];
        }
      }
      if LexLess(a, b) {
        if k :| 0 <= k < |a| && k < |b| && a[..k] == b[..k] && a[k] < b[k] {
          assert k != 0;
          assert a[1..][..k - 1] == a[..k][1..] && b[1..][..k - 1] == b[..k][1..];
        } else {
          assert a[1..] == b[1..][..|a[1..]|] by {
            assert a[1..] == b[..|a|][1..];
          }
        }
      }
    }
  }
}
