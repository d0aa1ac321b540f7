/**
 * List idioms of the modelled code: `list(set(...))`, order-preserving
 * de-duplication, filtering comprehensions, counting and flattening.
 */
module Seqs {
  import opened Wrappers

  predicate NoDup<T(==)>(s: seq<T>) {
    forall i, j :: 0 <= i < j < |s| ==> s[i] != s[j]
  }

  /** `order` is some listing of `s` (`list(s)` for a Python set, whose order is unspecified). */
  ghost predicate Enumerates<T(!new)>(order: seq<T>, s: set<T>) {
    NoDup(order) && (forall x :: x in order <==> x in s)
  }

  /** A prefix one longer is the prefix plus the next element. */
  lemma TakeSnoc<T>(s: seq<T>, i: nat)
    requires i < |s|
    ensures s[..i + 1] == s[..i] + [s[i]]
  {
  }

  /** `[x for x in s if p(x)]`. */
  function Filter<T(==,!new)>(s: seq<T>, p: T -> bool): (r: seq<T>)
    ensures |r| <= |s|
    ensures forall x :: x in r <==> x in s && p(x)
  {
    if |s| == 0 then []
    else if p(s[|s| - 1]) then Filter(s[..|s| - 1], p) + [s[|s| - 1]]
    else Filter(s[..|s| - 1], p)
  }

  lemma {:induction false} FilterAppend<T(!new)>(a: seq<T>, b: seq<T>, p: T -> bool)
    ensures Filter(a + b, p) == Filter(a, p) + Filter(b, p)
    decreases |b|
  {
    if |b| == 0 {
      assert a + b == a;
    } else {
      var init := b[..|b| - 1];
      var last := b[|b| - 1];
      var tail := if p(last) then [last] else [];
      assert (a + b)[..|a + b| - 1] == a + init;
      assert (a + b)[|a + b| - 1] == last;
      assert Filter(a + b, p) == Filter(a + init, p) + tail;
      assert Filter(b, p) == Filter(init, p) + tail;
      FilterAppend(a, init, p);
      assert Filter(a + b, p) == (Filter(a, p) + Filter(init, p)) + tail;
    }
  }

  /** Filtering keeps relative order: a relation holding between every earlier and later element still holds after it. */
  lemma {:induction false} FilterPairwise<T(!new)>(s: seq<T>, p: T -> bool, rel: (T, T) -> bool)
    requires forall i, j :: 0 <= i < j < |s| ==> rel(s[i], s[j])
    ensures forall i, j :: 0 <= i < j < |Filter(s, p)| ==> rel(Filter(s, p)[i], Filter(s, p)[j])
  {
    if |s| > 0 {
      var init := s[..|s| - 1];
      assert forall k :: 0 <= k < |init| ==> init[k] == s[k];
      FilterPairwise(init, p, rel);
      var fi := Filter(init, p);
      forall i | 0 <= i < |fi|
        ensures rel(fi[i], s[|s| - 1])
      {
        assert fi[i] in init;
        var k :| 0 <= k < |init| && init[k] == fi[i];
      }
    }
  }

  lemma FilterCons<T(!new)>(x: T, s: seq<T>, p: T -> bool)
    ensures Filter([x] + s, p) == (if p(x) then [x] else []) + Filter(s, p)
  {
    assert [x][..0] == [] && [x][0] == x;
    assert Filter([x], p) == if p(x) then [x] else [];
    FilterAppend([x], s, p);
  }

  /** All elements pass the filter exactly when none is dropped; none passes exactly when all are. */
  lemma FilterAllIff<T(!new)>(s: seq<T>, f: T -> bool)
    ensures |Filter(s, f)| == |s| <==> forall k :: 0 <= k < |s| ==> f(s[k])
    ensures |Filter(s, f)| == 0 <==> forall k :: 0 <= k < |s| ==> !f(s[k])
  {
    if |s| > 0 {
      FilterAllIff(s[..|s| - 1], f);
      assert forall k :: 0 <= k < |s| - 1 ==> s[..|s| - 1][k] == s[k];
    }
  }

  /** Order-preserving de-duplication: the first occurrence of every element, in order. */
  function DedupFirst<T(==,!new)>(s: seq<T>): (r: seq<T>)
    ensures NoDup(r)
    ensures forall x :: x in r <==> x in s
    ensures |r| <= |s|
  {
    if |s| == 0 then []
    else
      var d := DedupFirst(s[..|s| - 1]);
      if s[|s| - 1] in d then d else d + [s[|s| - 1]]
  }

  /** Extending the input by one element appends it to the result unless it was seen already. */
  lemma DedupFirstAppend<T(!new)>(s: seq<T>, x: T)
    ensures DedupFirst(s + [x]) == if x in DedupFirst(s) then DedupFirst(s) else DedupFirst(s) + [x]
  {
    assert (s + [x])[..|s|] == s;
  }

  /** An element keeps the place of its first occurrence: whatever precedes it in the result occurred earlier. */
  lemma {:induction false} DedupFirstOrder<T(!new)>(s: seq<T>, i: nat, j: nat)
    requires i < j < |DedupFirst(s)|
    ensures exists k :: 0 <= k < |s| && s[k] == DedupFirst(s)[i] && DedupFirst(s)[j] !in s[..k]
  {
    var d := DedupFirst(s[..|s| - 1]);
    var last := s[|s| - 1];
    if last in d || j < |d| {
      DedupFirstOrder(s[..|s| - 1], i, j);
      var k :| 0 <= k < |s| - 1 && s[..|s| - 1][k] == d[i] && d[j] !in s[..|s| - 1][..k];
      assert s[..|s| - 1][..k] == s[..k];
    } else {
      // the element at j is the new last one, absent from the earlier prefix
      assert DedupFirst(s)[j] == last && last !in d;
      var x := d[i];
      assert x in s[..|s| - 1];
      var k :| 0 <= k < |s| - 1 && s[..|s| - 1][k] == x;
      assert forall m :: 0 <= m < k ==> s[..k][m] in s[..|s| - 1];
    }
  }

  lemma {:induction false} NoDupOccursOnce<T>(s: seq<T>, a: nat)
    requires a < |s| && NoDup(s)
    ensures multiset(s)[s[a]] == 1
  {
    assert s == [s[0]] + s[1..];
    if a == 0 {
      assert s[0] !in s[1..];
    } else {
      NoDupOccursOnce(s[1..], a - 1);
    }
  }

  lemma OccursTwice<T>(s: seq<T>, i: nat, j: nat)
    requires i < j < |s| && s[i] == s[j]
    ensures multiset(s)[s[i]] >= 2
  {
    assert s == s[..j] + s[j..];
    assert multiset(s) == multiset(s[..j]) + multiset(s[j..]);
    assert s[i] in s[..j];
    assert s[j..][0] == s[i];
  }

  /** Where an element of a permutation sits in the original. */
  lemma PermutationIndex<T>(a: seq<T>, b: seq<T>, i: nat) returns (k: nat)
    requires multiset(a) == multiset(b) && i < |b|
    ensures k < |a| && a[k] == b[i]
  {
    assert b[i] in multiset(b);
    assert b[i] in a;
    k :| k < |a| && a[k] == b[i];
  }

  /** A permutation of a list without duplicates has none either. */
  lemma PermutationNoDup<T>(a: seq<T>, b: seq<T>)
    requires NoDup(a) && multiset(a) == multiset(b)
    ensures NoDup(b)
  {
    forall i, j | 0 <= i < j < |b|
      ensures b[i] != b[j]
    {
      if b[i] == b[j] {
        OccursTwice(b, i, j);
        assert b[i] in multiset(a);
        var k :| 0 <= k < |a| && a[k] == b[i];
        NoDupOccursOnce(a, k);
        assert false;
      }
    }
  }

  /** How many times `x` occurs in `s` (Python's `list.count` / `Counter[x]`). */
  function Count<T(==)>(s: seq<T>, x: T): nat {
    multiset(s)[x]
  }

  /** `[x for chunk in ss for x in chunk]`. */
  function Flatten<T>(ss: seq<seq<T>>): seq<T> {
    if |ss| == 0 then [] else ss[0] + Flatten(ss[1..])
  }

  lemma FlattenAppend<T>(a: seq<seq<T>>, b: seq<seq<T>>)
    ensures Flatten(a + b) == Flatten(a) + Flatten(b)
  {
    if |a| > 0 {
      assert (a + b)[1..] == a[1..] + b;
      FlattenAppend(a[1..], b);
    } else {
      assert a + b == b;
    }
  }

  /** The values of the `Some` entries of `s`, in order. */
  function Somes<T(!new)>(s: seq<Option<T>>): (r: seq<T>)
    ensures |r| <= |s|
    ensures forall x :: x in r <==> Some(x) in s
  {
    if |s| == 0 then []
    else
      var init := Somes(s[..|s| - 1]);
      assert s == s[..|s| - 1] + [s[|s| - 1]];
      match s[|s| - 1]
      case Some(x) => init + [x]
      case None => init
  }

  /** Each value kept comes from an entry of `s`. */
  lemma SomesIndex<T(!new)>(s: seq<Option<T>>, x: T) returns (j: nat)
    requires x in Somes(s)
    ensures j < |s| && s[j] == Some(x)
  {
    assert Some(x) in s;
    j :| j < |s| && s[j] == Some(x);
  }

  lemma SomesSnoc<T(!new)>(s: seq<Option<T>>, i: nat)
    requires i < |s|
    ensures Somes(s[..i + 1]) == Somes(s[..i]) + (match s[i] case Some(x) => [x] case None => [])
  {
    assert s[..i + 1][..i] == s[..i];
  }

  /**
   * The loop `for x in s: if x and x not in out: out.append(x)` over
   * optional values: the present values, first occurrence kept.
   */
  method DistinctSomes<T(==,!new)>(s: seq<Option<T>>) returns (out: seq<T>)
    ensures out == DedupFirst(Somes(s))
  {
    out := [];
    for i := 0 to |s|
      invariant out == DedupFirst(Somes(s[..i]))
    {
      DistinctSomesStep(s, i);
      if s[i].Some? && s[i].value !in out {
        out := out + [s[i].value];
      }
    }
    assert s[..|s|] == s;
  }

  lemma DistinctSomesStep<T(!new)>(s: seq<Option<T>>, i: nat)
    requires i < |s|
    ensures var out := DedupFirst(Somes(s[..i]));
      DedupFirst(Somes(s[..i + 1])) == if s[i].Some? && s[i].value !in out then out + [s[i].value] else out
  {
    SomesSnoc(s, i);
    var pre := Somes(s[..i]);
    if s[i].Some? {
      assert Somes(s[..i + 1]) == pre + [s[i].value];
      DedupFirstAppend(pre, s[i].value);
    } else {
      assert Somes(s[..i + 1]) == pre + [] == pre;
    }
  }

  /** The union of `f(x)` over the elements of `s`. */
  function UnionOf<T, U>(s: seq<T>, f: T -> set<U>): set<U> {
    if |s| == 0 then {} else UnionOf(s[..|s| - 1], f) + f(s[|s| - 1])
  }

  lemma {:induction false} UnionOfMeaning<T, U>(s: seq<T>, f: T -> set<U>, y: U)
    ensures y in UnionOf(s, f) <==> exists i :: 0 <= i < |s| && y in f(s[i])
  {
    if |s| > 0 {
      var n := |s| - 1;
      var init := s[..n];
      UnionOfMeaning(init, f, y);
      if y in UnionOf(s, f) && y !in f(s[n]) {
        var i :| 0 <= i < |init| && y in f(init[i]);
        assert init[i] == s[i];
      }
      if exists i :: 0 <= i < |s| && y in f(s[i]) {
        var i :| 0 <= i < |s| && y in f(s[i]);
        if i < n {
          assert init[i] == s[i];
        }
      }
    }
  }

  /** `sum(f(x) for x in s)`. */
  function SumOf<T>(s: seq<T>, f: T -> real): real {
    if |s| == 0 then 0.0 else SumOf(s[..|s| - 1], f) + f(s[|s| - 1])
  }

  /** `sum(f(x) for x in s) / len(s)`. */
  function Mean<T>(s: seq<T>, f: T -> real): real
    requires |s| > 0
  {
    SumOf(s, f) / (|s| as real)
  }

  lemma {:induction false} SumOfBounds<T>(s: seq<T>, f: T -> real, lo: real, hi: real)
    requires forall i :: 0 <= i < |s| ==> lo <= f(s[i]) <= hi
    ensures lo * (|s| as real) <= SumOf(s, f) <= hi * (|s| as real)
  {
    if |s| > 0 {
      var init := s[..|s| - 1];
      assert forall i :: 0 <= i < |init| ==> init[i] == s[i];
      SumOfBounds(init, f, lo, hi);
      var m := |init| as real;
      assert |s| as real == m + 1.0;
      assert lo * (m + 1.0) == lo * m + lo;
      assert hi * (m + 1.0) == hi * m + hi;
      assert lo <= f(s[|s| - 1]) <= hi;
    }
  }

  lemma {:induction false} SumOfAbove<T>(s: seq<T>, f: T -> real, lo: real)
    requires forall i :: 0 <= i < |s| ==> lo < f(s[i])
    ensures |s| > 0 ==> lo * (|s| as real) < SumOf(s, f)
  {
    if |s| > 0 {
      var init := s[..|s| - 1];
      assert forall i :: 0 <= i < |init| ==> init[i] == s[i];
      SumOfAbove(init, f, lo);
      var m := |init| as real;
      assert |s| as real == m + 1.0;
      assert lo * (m + 1.0) == lo * m + lo;
      assert lo < f(s[|s| - 1]);
    }
  }

  /** The mean lies within any bounds every value lies within, strictly above a strict lower bound. */
  lemma MeanBounds<T>(s: seq<T>, f: T -> real, lo: real, hi: real)
    requires |s| > 0
    requires forall i :: 0 <= i < |s| ==> lo <= f(s[i]) <= hi
    ensures lo <= Mean(s, f) <= hi
    ensures (forall i :: 0 <= i < |s| ==> lo < f(s[i])) ==> lo < Mean(s, f)
  {
    var n := |s| as real;
    SumOfBounds(s, f, lo, hi);
    assert Mean(s, f) * n == SumOf(s, f);
    if forall i :: 0 <= i < |s| ==> lo < f(s[i]) {
      SumOfAbove(s, f, lo);
    }
  }

  /** `[f(x) for x in s]`. */
  function Map<T, U>(s: seq<T>, f: T -> U): (r: seq<U>)
    ensures |r| == |s|
    ensures forall i :: 0 <= i < |s| ==> r[i] == f(s[i])
  {
    seq(|s|, i requires 0 <= i < |s| => f(s[i]))
  }

  lemma MapAppend<T, U>(a: seq<T>, b: seq<T>, f: T -> U)
    ensures Map(a + b, f) == Map(a, f) + Map(b, f)
  {
  }

  /** One more element filtered and mapped, the step of a loop that appends `f(x)` for each kept `x`. */
  lemma FilterMapSnoc<T(!new), U>(s: seq<T>, i: nat, p: T -> bool, f: T -> U)
    requires i < |s|
    ensures Filter(s[..i + 1], p) == Filter(s[..i], p) + (if p(s[i]) then [s[i]] else [])
    ensures Map(Filter(s[..i + 1], p), f) == Map(Filter(s[..i], p), f) + (if p(s[i]) then [f(s[i])] else [])
  {
    assert s[..i + 1][..i] == s[..i];
    MapAppend(Filter(s[..i], p), if p(s[i]) then [s[i]] else [], f);
  }

  /** A list without repeats has as many elements as its set. */
  lemma {:induction false} NoDupSetSize<T>(a: seq<T>)
    requires NoDup(a)
    ensures |set x | x in a| == |a|
  {
    if |a| > 0 {
      var init := a[..|a| - 1];
      NoDupSetSize(init);
      assert (set x | x in a) == (set x | x in init) + {a[|a| - 1]};
      assert a[|a| - 1] !in init;
    }
  }

  /** A list's set is no larger than the list. */
  lemma {:induction false} SetSizeBound<T>(b: seq<T>)
    ensures |set x | x in b| <= |b|
  {
    if |b| > 0 {
      var init := b[..|b| - 1];
      SetSizeBound(init);
      assert (set x | x in b) == (set x | x in init) + {b[|b| - 1]};
    }
  }

  /** A subset is no larger than its superset. */
  lemma SubsetSize<T>(a: set<T>, b: set<T>)
    requires a <= b
    ensures |a| <= |b|
  {
    assert b == a + (b - a);
  }

  /** A list without repeats, drawn from another list, is no longer than it. */
  lemma DistinctBound<T>(a: seq<T>, b: seq<T>)
    requires NoDup(a) && forall x :: x in a ==> x in b
    ensures |a| <= |b|
  {
    NoDupSetSize(a);
    SetSizeBound(b);
    SubsetSize(set x | x in a, set x | x in b);
  }
}
