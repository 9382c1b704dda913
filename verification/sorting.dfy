/**
 * A stable insertion sort over sequences, parameterised by a strict
 * "sorts before" relation. The viewer relies on `Array.prototype.sort`,
 * which is stable; the insertion below puts a new element after every
 * element it does not sort strictly before, so equal elements keep their
 * input order.
 */
module Sorting {
  import Seqs

  ghost predicate StrictOrder<T(!new)>(less: (T, T) -> bool) {
    && (forall a :: !less(a, a))
    && (forall a, b, c :: less(a, b) && less(b, c) ==> less(a, c))
  }

  /** No later element sorts strictly before an earlier one. */
  predicate SortedBy<T>(s: seq<T>, less: (T, T) -> bool) {
    forall i, j :: 0 <= i < j < |s| ==> !less(s[j], s[i])
  }

  /** An element sorting before the head of a sorted sequence may lead it. */
  lemma PrependSorted<T(!new)>(x: T, s: seq<T>, less: (T, T) -> bool)
    requires |s| > 0 && less(x, s[0])
    ensures StrictOrder(less) && SortedBy(s, less) ==> SortedBy([x] + s, less)
  {
    if StrictOrder(less) && SortedBy(s, less) {
      assert forall j :: 0 <= j < |s| ==> !less(s[j], x);
    }
  }

  /**
   * When `x` does not sort before the head of a sorted `s`, the head may lead
   * any sorted arrangement `rest` of `x` and the tail of `s`.
   */
  lemma KeepHeadSorted<T>(x: T, s: seq<T>, rest: seq<T>, less: (T, T) -> bool)
    requires |s| > 0 && !less(x, s[0])
    requires forall y :: y in rest <==> y == x || y in s[1..]
    ensures SortedBy(s, less) && SortedBy(rest, less) ==> SortedBy([s[0]] + rest, less)
  {
    if SortedBy(s, less) && SortedBy(rest, less) {
      var h := s[0];
      forall y | y in rest
        ensures !less(y, h)
      {
        if y != x {
          var k :| 0 <= k < |s[1..]| && s[1..][k] == y;
          assert s[k + 1] == y;
        }
      }
      ConsSorted(h, rest, less);
    }
  }

  /** A head that nothing in a sorted tail sorts before may lead it. */
  lemma ConsSorted<T>(h: T, rest: seq<T>, less: (T, T) -> bool)
    requires SortedBy(rest, less)
    requires forall y :: y in rest ==> !less(y, h)
    ensures SortedBy([h] + rest, less)
  {
    forall i, j | 0 <= i < j < |[h] + rest|
      ensures !less(([h] + rest)[j], ([h] + rest)[i])
    {
      if i > 0 {
        assert ([h] + rest)[i] == rest[i - 1];
      }
      assert ([h] + rest)[j] == rest[j - 1];
    }
  }

  function Insert<T(!new)>(x: T, s: seq<T>, less: (T, T) -> bool): (r: seq<T>)
    ensures multiset(r) == multiset(s) + multiset{x}
    ensures forall y :: y in r <==> y == x || y in s
    ensures StrictOrder(less) && SortedBy(s, less) ==> SortedBy(r, less)
  {
    if s == [] then [x]
    else if less(x, s[0]) then
      PrependSorted(x, s, less);
      [x] + s
    else
      assert s == [s[0]] + s[1..];
      var rest := Insert(x, s[1..], less);
      KeepHeadSorted(x, s, rest, less);
      [s[0]] + rest
  }

  /** A sorted permutation of `s`. */
  function Sort<T(!new)>(s: seq<T>, less: (T, T) -> bool): (r: seq<T>)
    ensures multiset(r) == multiset(s)
    ensures StrictOrder(less) ==> SortedBy(r, less)
  {
    if s == [] then []
    else
      assert s == s[..|s| - 1] + [s[|s| - 1]];
      Insert(s[|s| - 1], Sort(s[..|s| - 1], less), less)
  }

  /**
   * The elements picked out by `p` are interchangeable for `less`: none
   * sorts before another, and each sorts before whatever any of them does.
   */
  ghost predicate Interchangeable<T(!new)>(less: (T, T) -> bool, p: T -> bool) {
    && (forall a, b :: p(a) && p(b) ==> !less(a, b))
    && (forall a, b, c :: p(a) && p(b) && less(a, c) ==> less(b, c))
  }

  /** Inserting `x` puts it after every element of its class already there. */
  lemma {:induction false} InsertStable<T(!new)>(x: T, s: seq<T>, less: (T, T) -> bool, p: T -> bool)
    requires SortedBy(s, less) && Interchangeable(less, p)
    ensures Seqs.Filter(Insert(x, s, less), p) == Seqs.Filter(s, p) + (if p(x) then [x] else [])
  {
    if s == [] {
      Seqs.FilterCons(x, [], p);
    } else if less(x, s[0]) {
      Seqs.FilterCons(x, s, p);
      if p(x) {
        NoClassAfterSmaller(x, s, less, p);
        Seqs.FilterNone(s, p);
      }
    } else {
      InsertStable(x, s[1..], less, p);
      FilterInsertBehind(x, s, less, p);
    }
  }

  /** Inserting behind the head leaves the head's contribution to the filter in front. */
  lemma FilterInsertBehind<T(!new)>(x: T, s: seq<T>, less: (T, T) -> bool, p: T -> bool)
    requires |s| > 0 && !less(x, s[0])
    requires Seqs.Filter(Insert(x, s[1..], less), p) == Seqs.Filter(s[1..], p) + (if p(x) then [x] else [])
    ensures Seqs.Filter(Insert(x, s, less), p) == Seqs.Filter(s, p) + (if p(x) then [x] else [])
  {
    var rest := Insert(x, s[1..], less);
    var head := if p(s[0]) then [s[0]] else [];
    var tail := if p(x) then [x] else [];
    Seqs.FilterCons(s[0], rest, p);
    Seqs.AppendAssoc(head, Seqs.Filter(s[1..], p), tail);
    calc {
      Seqs.Filter(Insert(x, s, less), p);
      Seqs.Filter([s[0]] + rest, p);
      head + Seqs.Filter(rest, p);
      head + (Seqs.Filter(s[1..], p) + tail);
      (head + Seqs.Filter(s[1..], p)) + tail;
      Seqs.Filter(s, p) + tail;
    }
  }

  /** A sorted sequence whose head sorts after `x` holds nothing of `x`'s class. */
  lemma NoClassAfterSmaller<T(!new)>(x: T, s: seq<T>, less: (T, T) -> bool, p: T -> bool)
    requires SortedBy(s, less) && Interchangeable(less, p)
    requires |s| > 0 && less(x, s[0]) && p(x)
    ensures forall y :: y in s ==> !p(y)
  {
    forall y | y in s
      ensures !p(y)
    {
      var k :| 0 <= k < |s| && s[k] == y;
    }
  }

  /** The sort is stable: each class of interchangeable elements keeps its input order. */
  lemma {:induction false} SortStable<T(!new)>(s: seq<T>, less: (T, T) -> bool, p: T -> bool)
    requires StrictOrder(less) && Interchangeable(less, p)
    ensures Seqs.Filter(Sort(s, less), p) == Seqs.Filter(s, p)
  {
    if s != [] {
      var n := |s| - 1;
      SortStable(s[..n], less, p);
      InsertStable(s[n], Sort(s[..n], less), less, p);
      Seqs.FilterLast(s, p);
    }
  }
}
