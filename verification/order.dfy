/**
 * The fixed total order on driver names that the engine uses wherever the
 * viewer calls `localeCompare`: lexicographic comparison by character code.
 */
module NameOrder {

  /** `a` sorts strictly before `b`. A proper prefix sorts first. */
  predicate NameLess(a: string, b: string)
    decreases |a|
  {
    if |a| == 0 then |b| > 0
    else if |b| == 0 then false
    else if a[0] != b[0] then a[0] < b[0]
    else NameLess(a[1..], b[1..])
  }

  lemma {:induction false} NameLessIrreflexive(a: string)
    ensures !NameLess(a, a)
    decreases |a|
  {
    if |a| > 0 {
      NameLessIrreflexive(a[1..]);
    }
  }

  lemma {:induction false} NameLessTransitive(a: string, b: string, c: string)
    requires NameLess(a, b) && NameLess(b, c)
    ensures NameLess(a, c)
    decreases |a|
  {
    if |a| > 0 && a[0] == b[0] && b[0] == c[0] {
      NameLessTransitive(a[1..], b[1..], c[1..]);
    }
  }

  /** Two different names are always ordered one way or the other. */
  lemma {:induction false} NameLessTotal(a: string, b: string)
    requires a != b
    ensures NameLess(a, b) || NameLess(b, a)
    decreases |a|
  {
    if |a| > 0 && |b| > 0 && a[0] == b[0] {
      assert a == [a[0]] + a[1..];
      assert b == [b[0]] + b[1..];
      NameLessTotal(a[1..], b[1..]);
    }
  }

  /**
   * The two-level comparator shared by every ranking in the viewer:
   * a smaller integer key first, then the name.
   */
  predicate KeyThenName(k1: int, n1: string, k2: int, n2: string) {
    k1 < k2 || (k1 == k2 && NameLess(n1, n2))
  }

  lemma KeyThenNameTransitive(k1: int, n1: string, k2: int, n2: string, k3: int, n3: string)
    requires KeyThenName(k1, n1, k2, n2) && KeyThenName(k2, n2, k3, n3)
    ensures KeyThenName(k1, n1, k3, n3)
  {
    if k1 == k2 && k2 == k3 {
      NameLessTransitive(n1, n2, n3);
    }
  }

  /** Only an identical key and name leave two rows unordered. */
  lemma KeyThenNameTotal(k1: int, n1: string, k2: int, n2: string)
    requires k1 != k2 || n1 != n2
    ensures KeyThenName(k1, n1, k2, n2) || KeyThenName(k2, n2, k1, n1)
  {
    if k1 == k2 {
      NameLessTotal(n1, n2);
    }
  }

  lemma KeyThenNameIrreflexive(k: int, n: string)
    ensures !KeyThenName(k, n, k, n)
  {
    NameLessIrreflexive(n);
  }
}
