/**
 * Python's `sorted`/`list.sort`, which are stable, under the orders the
 * modelled code sorts by: a numeric key descending (`reverse=True`), an int
 * key ascending, and a string key ascending (code-point lexicographic).
 */
module Sorting {
  import opened Seqs

  /** `le(a, b)`: `a` may come before `b`. Every ordering the code sorts by is total and transitive. */
  ghost predicate TotalPreorder<T(!new)>(le: (T, T) -> bool) {
    (forall a, b :: le(a, b) || le(b, a)) &&
    (forall a, b, c :: le(a, b) && le(b, c) ==> le(a, c))
  }

  predicate Sorted<T>(s: seq<T>, le: (T, T) -> bool) {
    forall i, j :: 0 <= i < j < |s| ==> le(s[i], s[j])
  }

  /** Inserts `x` before the first element it may precede, so it stays ahead of the elements it ties with. */
  function Insert<T>(x: T, t: seq<T>, le: (T, T) -> bool): (r: seq<T>)
    ensures |r| == |t| + 1
  {
    if |t| == 0 || le(x, t[0]) then [x] + t else [t[0]] + Insert(x, t[1..], le)
  }

  /** A stable sort (insertion sort from the back). */
  function Sort<T>(s: seq<T>, le: (T, T) -> bool): (r: seq<T>)
    ensures |r| == |s|
  {
    if |s| == 0 then [] else Insert(s[0], Sort(s[1..], le), le)
  }

  lemma {:induction false} InsertPermutes<T>(x: T, t: seq<T>, le: (T, T) -> bool)
    ensures multiset(Insert(x, t, le)) == multiset(t) + multiset{x}
    decreases |t|
  {
    if |t| > 0 && !le(x, t[0]) {
      InsertPermutes(x, t[1..], le);
      assert t == [t[0]] + t[1..];
    }
  }

  /** The sort is a permutation of its input. */
  lemma {:induction false} SortPermutes<T>(s: seq<T>, le: (T, T) -> bool)
    ensures multiset(Sort(s, le)) == multiset(s)
    decreases |s|
  {
    if |s| > 0 {
      SortPermutes(s[1..], le);
      InsertPermutes(s[0], Sort(s[1..], le), le);
      assert s == [s[0]] + s[1..];
    }
  }

  lemma {:induction false} InsertSorted<T(!new)>(x: T, t: seq<T>, le: (T, T) -> bool)
    requires TotalPreorder(le) && Sorted(t, le)
    ensures Sorted(Insert(x, t, le), le)
    decreases |t|
  {
    if |t| > 0 && !le(x, t[0]) {
      InsertSorted(x, t[1..], le);
      InsertPermutes(x, t[1..], le);
      var r := Insert(x, t[1..], le);
      forall k | 0 <= k < |r| ensures le(t[0], r[k]) {
        assert r[k] in multiset(r);
        if r[k] != x {
          assert r[k] in multiset(t[1..]);
          var m :| 0 <= m < |t[1..]| && t[1..][m] == r[k];
          assert t[1 + m] == r[k];
        }
      }
    }
  }

  /** The sort's output is ordered. */
  lemma {:induction false} SortSorted<T(!new)>(s: seq<T>, le: (T, T) -> bool)
    requires TotalPreorder(le)
    ensures Sorted(Sort(s, le), le)
    decreases |s|
  {
    if |s| > 0 {
      SortSorted(s[1..], le);
      InsertSorted(s[0], Sort(s[1..], le), le);
    }
  }

  /** `a` and `b` tie under `le`. */
  predicate Tied<T>(le: (T, T) -> bool, a: T, b: T) {
    le(a, b) && le(b, a)
  }

  /** The elements that tie with `v`. */
  function TiedWith<T>(le: (T, T) -> bool, v: T): T -> bool {
    y => Tied(le, y, v)
  }

  lemma TiedTransitive<T(!new)>(le: (T, T) -> bool, x: T, y: T, v: T)
    requires TotalPreorder(le)
    ensures Tied(le, x, v) && Tied(le, y, v) ==> le(x, y)
  {
    if Tied(le, x, v) && Tied(le, y, v) {
      assert le(x, v) && le(v, y);
    }
  }

  lemma {:induction false} InsertStable<T(!new)>(x: T, t: seq<T>, le: (T, T) -> bool, v: T)
    requires TotalPreorder(le)
    ensures Filter(Insert(x, t, le), TiedWith(le, v)) ==
            (if Tied(le, x, v) then [x] else []) + Filter(t, TiedWith(le, v))
    decreases |t|
  {
    var p := TiedWith(le, v);
    if |t| == 0 || le(x, t[0]) {
      FilterCons(x, t, p);
    } else {
      var rest := Insert(x, t[1..], le);
      var hx := if Tied(le, x, v) then [x] else [];
      var h0 := if Tied(le, t[0], v) then [t[0]] else [];
      // t[0] strictly precedes x, so at most one of them ties with v
      TiedTransitive(le, x, t[0], v);
      calc {
        Filter(Insert(x, t, le), p);
        Filter([t[0]] + rest, p);
        { FilterCons(t[0], rest, p); }
        h0 + Filter(rest, p);
        { InsertStable(x, t[1..], le, v); }
        h0 + (hx + Filter(t[1..], p));
        { assert h0 == [] || hx == []; }
        hx + (h0 + Filter(t[1..], p));
        { FilterCons(t[0], t[1..], p); assert t == [t[0]] + t[1..]; }
        hx + Filter(t, p);
      }
    }
  }

  /**
   * Stability: the elements that tie with any `v` appear in the output in
   * the order they had in the input.
   */
  lemma {:induction false} SortStable<T(!new)>(s: seq<T>, le: (T, T) -> bool, v: T)
    requires TotalPreorder(le)
    ensures Filter(Sort(s, le), TiedWith(le, v)) == Filter(s, TiedWith(le, v))
    decreases |s|
  {
    if |s| > 0 {
      SortStable(s[1..], le, v);
      InsertStable(s[0], Sort(s[1..], le), le, v);
      FilterCons(s[0], s[1..], TiedWith(le, v));
      assert s == [s[0]] + s[1..];
    }
  }

  // ------------------------------------------------------- concrete orders

  /** `key=..., reverse=True` on a numeric key. */
  function ByKeyDesc<T>(key: T -> real): (T, T) -> bool {
    (a, b) => key(a) >= key(b)
  }

  lemma ByKeyDescTotal<T(!new)>(key: T -> real)
    ensures TotalPreorder(ByKeyDesc(key))
  {
  }

  /** `sorted(s, key=key, reverse=True)`: a permutation of `s`, keys non-increasing. */
  lemma SortByKeyDesc<T(!new)>(s: seq<T>, key: T -> real)
    ensures multiset(Sort(s, ByKeyDesc(key))) == multiset(s)
    ensures forall i, j :: 0 <= i < j < |s| ==>
      key(Sort(s, ByKeyDesc(key))[i]) >= key(Sort(s, ByKeyDesc(key))[j])
  {
    ByKeyDescTotal(key);
    SortPermutes(s, ByKeyDesc(key));
    SortSorted(s, ByKeyDesc(key));
  }

  /** `key=...` on an int key, ascending. */
  function ByIntKey<T>(key: T -> int): (T, T) -> bool {
    (a, b) => key(a) <= key(b)
  }

  lemma ByIntKeyTotal<T(!new)>(key: T -> int)
    ensures TotalPreorder(ByIntKey(key))
  {
  }

  /** Python's `a <= b` on `str`: code-point lexicographic order, a prefix first. */
  predicate StrLe(a: string, b: string) {
    |a| == 0 || (|b| > 0 && (a[0] < b[0] || (a[0] == b[0] && StrLe(a[1..], b[1..]))))
  }

  lemma {:induction false} StrLeTotal(a: string, b: string)
    ensures StrLe(a, b) || StrLe(b, a)
  {
    if |a| > 0 && |b| > 0 && a[0] == b[0] {
      StrLeTotal(a[1..], b[1..]);
    }
  }

  lemma {:induction false} StrLeTransitive(a: string, b: string, c: string)
    requires StrLe(a, b) && StrLe(b, c)
    ensures StrLe(a, c)
  {
    if |a| > 0 && a[0] == b[0] && b[0] == c[0] {
      StrLeTransitive(a[1..], b[1..], c[1..]);
    }
  }

  /** `key=...` on a string key, ascending. */
  function ByStrKey<T>(key: T -> string): (T, T) -> bool {
    (a, b) => StrLe(key(a), key(b))
  }

  lemma ByStrKeyTotal<T(!new)>(key: T -> string)
    ensures TotalPreorder(ByStrKey(key))
  {
    forall a, b ensures ByStrKey(key)(a, b) || ByStrKey(key)(b, a) {
      StrLeTotal(key(a), key(b));
    }
    forall a, b, c | ByStrKey(key)(a, b) && ByStrKey(key)(b, c) ensures ByStrKey(key)(a, c) {
      StrLeTransitive(key(a), key(b), key(c));
    }
  }

  /** `sorted(s, key=key)` on a string key: a permutation of `s`, keys in `str` order. */
  lemma SortByStrKey<T(!new)>(s: seq<T>, key: T -> string)
    ensures multiset(Sort(s, ByStrKey(key))) == multiset(s)
    ensures forall i, j :: 0 <= i < j < |s| ==>
      StrLe(key(Sort(s, ByStrKey(key))[i]), key(Sort(s, ByStrKey(key))[j]))
  {
    ByStrKeyTotal(key);
    SortPermutes(s, ByStrKey(key));
    SortSorted(s, ByStrKey(key));
    var r := Sort(s, ByStrKey(key));
    forall i, j | 0 <= i < j < |s|
      ensures StrLe(key(r[i]), key(r[j]))
    {
      assert ByStrKey(key)(r[i], r[j]);
    }
  }
}
