/** Python's `sorted(xs, key=…)` and `xs.sort(key=…)`: a stable sort. The
    order is given as a total preorder `le` on the elements (the comparison
    of their keys); elements that are equivalent under it keep their
    original relative order. `reverse=True` sorts are the same stable sort
    under the reversed preorder. */
module Sorting {

  /** `le` is total and transitive: a comparison of sort keys. */
  ghost predicate TotalPreorder<T(!new)>(le: (T, T) -> bool) {
    && (forall a, b :: le(a, b) || le(b, a))
    && (forall a, b, c :: le(a, b) && le(b, c) ==> le(a, c))
  }

  predicate Sorted<T>(s: seq<T>, le: (T, T) -> bool) {
    forall i, j :: 0 <= i < j < |s| ==> le(s[i], s[j])
  }

  /** The elements of `s` whose key equals the key of `c`. */
  function Ties<T>(s: seq<T>, le: (T, T) -> bool, c: T): (r: seq<T>)
    ensures |r| <= |s|
  {
    if s == [] then []
    else (if le(s[0], c) && le(c, s[0]) then [s[0]] else []) + Ties(s[1..], le, c)
  }

  /** Insert `x` before the first element that is not below it. */
  function Insert<T>(x: T, s: seq<T>, le: (T, T) -> bool): (r: seq<T>)
    ensures multiset(r) == multiset(s) + multiset{x}
    ensures |r| == |s| + 1
  {
    if s == [] then [x]
    else if le(x, s[0]) then [x] + s
    else
      assert s == [s[0]] + s[1..];
      [s[0]] + Insert(x, s[1..], le)
  }

  /** Insertion sort, stable: `sorted(s, key=…)`. */
  function Sort<T>(s: seq<T>, le: (T, T) -> bool): (r: seq<T>)
    ensures multiset(r) == multiset(s)
    ensures |r| == |s|
  {
    if s == [] then []
    else
      assert s == [s[0]] + s[1..];
      Insert(s[0], Sort(s[1..], le), le)
  }

  lemma {:induction false} InsertSorted<T(!new)>(x: T, s: seq<T>, le: (T, T) -> bool)
    requires TotalPreorder(le) && Sorted(s, le)
    ensures Sorted(Insert(x, s, le), le)
  {
    if s != [] && !le(x, s[0]) {
      InsertSorted(x, s[1..], le);
      var r := Insert(x, s[1..], le);
      assert le(s[0], x);
      forall k | 0 <= k < |r| ensures le(s[0], r[k]) {
        assert r[k] in multiset(s[1..]) + multiset{x};
        if r[k] != x {
          assert r[k] in s[1..];
        }
      }
    }
  }

  /** The result is in order. */
  lemma {:induction false} SortSorted<T(!new)>(s: seq<T>, le: (T, T) -> bool)
    requires TotalPreorder(le)
    ensures Sorted(Sort(s, le), le)
  {
    if s != [] {
      SortSorted(s[1..], le);
      InsertSorted(s[0], Sort(s[1..], le), le);
    }
  }

  /** The ties of a list with a head: the head's tie, then the rest's. */
  lemma TiesCons<T>(a: T, s: seq<T>, le: (T, T) -> bool, c: T)
    ensures Ties([a] + s, le, c) == (if le(a, c) && le(c, a) then [a] else []) + Ties(s, le, c)
  {
    assert ([a] + s)[0] == a && ([a] + s)[1..] == s;
  }

  /** Of two elements strictly apart, at most one ties with `c`. */
  lemma NotBothTie<T(!new)>(a: T, x: T, le: (T, T) -> bool, c: T)
    requires TotalPreorder(le) && !le(x, a)
    ensures !(le(a, c) && le(c, a) && le(x, c) && le(c, x))
  {
  }

  /** Inserting `x` keeps the ties of `[x] + s` in order: every element
      it passes lies strictly below it, so it ties with `c` only when `x`
      does not. */
  lemma {:induction false} InsertTies<T(!new)>(x: T, s: seq<T>, le: (T, T) -> bool, c: T)
    requires TotalPreorder(le)
    ensures Ties(Insert(x, s, le), le, c) == Ties([x] + s, le, c)
  {
    TiesCons(x, s, le, c);
    if s != [] && !le(x, s[0]) {
      var rest := Insert(x, s[1..], le);
      assert Insert(x, s, le) == [s[0]] + rest;
      TiesCons(s[0], rest, le, c);
      InsertTies(x, s[1..], le, c);
      TiesCons(x, s[1..], le, c);
      assert s == [s[0]] + s[1..];
      TiesCons(s[0], s[1..], le, c);
      // s[0] lies strictly below x, so at most one of them ties with c.
      NotBothTie(s[0], x, le, c);
      var tx: seq<T> := if le(x, c) && le(c, x) then [x] else [];
      var t0: seq<T> := if le(s[0], c) && le(c, s[0]) then [s[0]] else [];
      var tail := Ties(s[1..], le, c);
      assert Ties(Insert(x, s, le), le, c) == t0 + (tx + tail);
      assert Ties([x] + s, le, c) == tx + (t0 + tail);
      if tx == [] {
        assert tx + tail == tail && tx + (t0 + tail) == t0 + tail;
      } else {
        assert t0 == [];
        assert t0 + tail == tail && t0 + (tx + tail) == tx + tail;
      }
    } else {
      assert Insert(x, s, le) == [x] + s;
    }
  }

  /** Stability: the elements with any one key come out in their original
      order. */
  lemma {:induction false} SortStable<T(!new)>(s: seq<T>, le: (T, T) -> bool, c: T)
    requires TotalPreorder(le)
    ensures Ties(Sort(s, le), le, c) == Ties(s, le, c)
  {
    if s != [] {
      SortStable(s[1..], le, c);
      SortSorted(s[1..], le);
      InsertTies(s[0], Sort(s[1..], le), le, c);
      assert ([s[0]] + Sort(s[1..], le))[1..] == Sort(s[1..], le);
    }
  }

  /** A list already in order is left as it is. */
  lemma {:induction false} SortOfSorted<T(!new)>(s: seq<T>, le: (T, T) -> bool)
    requires Sorted(s, le)
    ensures Sort(s, le) == s
  {
    if s != [] {
      SortOfSorted(s[1..], le);
      assert Sort(s[1..], le) == s[1..];
      if |s| > 1 {
        assert le(s[0], s[1]);
      }
    }
  }
}
