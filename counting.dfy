/**
 * `collections.Counter(words).most_common(n)`: the distinct words in order of
 * first occurrence, each with its count, stably sorted by count, highest
 * first, and cut to the first `n` (none when `n <= 0`).
 */
module Counting {
  import opened Text
  import opened Seqs
  import opened Sorting

  datatype Tally<T> = Tally(item: T, count: nat)

  function TallyCount<T>(t: Tally<T>): real {
    t.count as real
  }

  /** The counter's items in insertion order (first occurrence of each word). */
  function Tallies<T(==,!new)>(s: seq<T>): seq<Tally<T>> {
    Map(DedupFirst(s), x => Tally(x, Count(s, x)))
  }

  function MostCommon<T(==,!new)>(s: seq<T>, n: int): seq<Tally<T>> {
    if n <= 0 then [] else PyPrefix(Sort(Tallies(s), ByKeyDesc(TallyCount)), n)
  }

  /** The words of `most_common(n)`, without their counts. */
  function MostCommonItems<T(==,!new)>(s: seq<T>, n: int): seq<T> {
    Map(MostCommon(s, n), (t: Tally<T>) => t.item)
  }

  lemma TalliesFacts<T(!new)>(s: seq<T>)
    ensures |Tallies(s)| == |DedupFirst(s)|
    ensures forall i :: 0 <= i < |Tallies(s)| ==>
      Tallies(s)[i].item in s && Tallies(s)[i].count == Count(s, Tallies(s)[i].item) > 0
    ensures forall i, j :: 0 <= i < j < |Tallies(s)| ==> Tallies(s)[i].item != Tallies(s)[j].item
    ensures NoDup(Tallies(s))
  {
  }

  /** The counter's items sorted by count: distinct words of the input with their counts, highest first. */
  lemma {:induction false} SortedTalliesFacts<T(!new)>(s: seq<T>)
    ensures forall i :: 0 <= i < |Sort(Tallies(s), ByKeyDesc(TallyCount))| ==>
      Sort(Tallies(s), ByKeyDesc(TallyCount))[i] in Tallies(s)
    ensures forall i, j :: 0 <= i < j < |Sort(Tallies(s), ByKeyDesc(TallyCount))| ==>
      Sort(Tallies(s), ByKeyDesc(TallyCount))[i].item != Sort(Tallies(s), ByKeyDesc(TallyCount))[j].item &&
      Sort(Tallies(s), ByKeyDesc(TallyCount))[i].count >= Sort(Tallies(s), ByKeyDesc(TallyCount))[j].count
  {
    var ts := Tallies(s);
    var sorted := Sort(ts, ByKeyDesc(TallyCount));
    TalliesFacts(s);
    SortByKeyDesc(ts, TallyCount);
    PermutationNoDup(ts, sorted);
    forall i | 0 <= i < |sorted|
      ensures sorted[i] in ts
    {
      var a := PermutationIndex(ts, sorted, i);
    }
    forall i, j | 0 <= i < j < |sorted|
      ensures sorted[i].item != sorted[j].item
    {
      var a := PermutationIndex(ts, sorted, i);
      var b := PermutationIndex(ts, sorted, j);
      assert a != b;
    }
  }

  /**
   * `most_common(n)` lists `min(n, number of distinct words)` distinct words of
   * the input, each with its count, by count highest first.
   */
  lemma {:induction false} MostCommonFacts<T(!new)>(s: seq<T>, n: int)
    ensures n <= 0 ==> MostCommon(s, n) == []
    ensures n >= 0 ==> |MostCommon(s, n)| == if n < |DedupFirst(s)| then n else |DedupFirst(s)|
    ensures forall i :: 0 <= i < |MostCommon(s, n)| ==>
      MostCommon(s, n)[i].item in s && MostCommon(s, n)[i].count == Count(s, MostCommon(s, n)[i].item) > 0
    ensures forall i, j :: 0 <= i < j < |MostCommon(s, n)| ==>
      MostCommon(s, n)[i].item != MostCommon(s, n)[j].item && MostCommon(s, n)[i].count >= MostCommon(s, n)[j].count
  {
    if n > 0 {
      var sorted := Sort(Tallies(s), ByKeyDesc(TallyCount));
      TalliesFacts(s);
      SortedTalliesFacts(s);
      assert MostCommon(s, n) == sorted[..|MostCommon(s, n)|];
    }
  }

  /** No word left out of `most_common(n)` occurs more often than the last word listed. */
  lemma {:induction false} MostCommonIsTop<T(!new)>(s: seq<T>, n: int, w: T)
    requires n > 0 && w in s && w !in MostCommonItems(s, n)
    ensures |MostCommon(s, n)| == n && Count(s, w) <= MostCommon(s, n)[n - 1].count
  {
    var ts := Tallies(s);
    var sorted := Sort(ts, ByKeyDesc(TallyCount));
    var r := MostCommon(s, n);
    SortByKeyDesc(ts, TallyCount);
    assert r == sorted[..|r|];
    var k :| 0 <= k < |DedupFirst(s)| && DedupFirst(s)[k] == w;
    assert ts[k] == Tally(w, Count(s, w));
    var m := PermutationIndex(sorted, ts, k);
    assert forall q :: 0 <= q < |r| ==> MostCommonItems(s, n)[q] == r[q].item;
    assert m >= |r|;
    assert TallyCount(sorted[n - 1]) >= TallyCount(sorted[m]) || n - 1 == m;
  }

  /**
   * `[w for w, c in Counter(s).most_common(n)]`: `min(n, number of distinct
   * words)` distinct words of `s`, by count highest first.
   */
  lemma MostCommonItemsFacts<T(!new)>(s: seq<T>, n: int)
    ensures n >= 0 ==> |MostCommonItems(s, n)| == if n < |DedupFirst(s)| then n else |DedupFirst(s)|
    ensures n <= 0 ==> MostCommonItems(s, n) == []
    ensures NoDup(MostCommonItems(s, n))
    ensures forall i :: 0 <= i < |MostCommonItems(s, n)| ==> MostCommonItems(s, n)[i] in s
    ensures forall i, j :: 0 <= i < j < |MostCommonItems(s, n)| ==>
      Count(s, MostCommonItems(s, n)[i]) >= Count(s, MostCommonItems(s, n)[j])
  {
    MostCommonFacts(s, n);
    var m := MostCommon(s, n);
    var r := MostCommonItems(s, n);
    assert forall i :: 0 <= i < |r| ==> r[i] == m[i].item;
  }

  /**
   * Ties keep first-occurrence order: the tallies with any given count
   * appear in the sorted list in the order their words first occur.
   */
  lemma TiesKeepFirstOccurrence<T(!new)>(s: seq<T>, v: Tally<T>)
    ensures Filter(Sort(Tallies(s), ByKeyDesc(TallyCount)), TiedWith(ByKeyDesc(TallyCount), v)) ==
            Filter(Tallies(s), TiedWith(ByKeyDesc(TallyCount), v))
  {
    ByKeyDescTotal<Tally<T>>(TallyCount);
    SortStable(Tallies(s), ByKeyDesc(TallyCount), v);
  }
}
