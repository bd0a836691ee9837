/** The parts of Python's `list` and of nltk's `ngrams`/`FreqDist` that the
    modelled code relies on: slices with Python's index rules, deletion of
    the members of a set by a reverse-index `del` loop, sliding n-gram
    windows, and occurrence counts in first-occurrence order. */
module PyList {

  // ---------------------------------------------------------------------
  // Slices

  /** Python's normalisation of a slice bound `i` for a list of length `n`:
      a negative bound counts from the end, and both ends are clamped. */
  function SliceBound(i: int, n: nat): (r: nat)
    ensures r <= n
    ensures 0 <= i <= n ==> r == i
    ensures -(n as int) <= i < 0 ==> r == n as int + i
    ensures i > n ==> r == n
    ensures i < -(n as int) ==> r == 0
  {
    if i < 0 then (if i + n < 0 then 0 else i + n) else if i > n then n else i
  }

  /** `s[i:j]`. */
  function Slice<T>(s: seq<T>, i: int, j: int): (r: seq<T>)
    ensures |r| <= |s|
    ensures SliceBound(i, |s|) <= SliceBound(j, |s|) ==> r == s[SliceBound(i, |s|)..SliceBound(j, |s|)]
    ensures SliceBound(i, |s|) >= SliceBound(j, |s|) ==> r == []
  {
    var lo, hi := SliceBound(i, |s|), SliceBound(j, |s|);
    if lo < hi then s[lo..hi] else []
  }

  /** `s[:n]`. */
  function Prefix<T>(s: seq<T>, n: int): (r: seq<T>)
    ensures 0 <= n ==> |r| == (if n < |s| then n else |s|)
    ensures |r| <= |s| && r == s[..|r|]
  {
    Slice(s, 0, n)
  }

  /** `s[i:]`. */
  function Suffix<T>(s: seq<T>, i: int): (r: seq<T>)
    ensures |r| <= |s| && r == s[|s| - |r|..]
    ensures 0 <= i <= |s| ==> r == s[i..]
  {
    Slice(s, i, |s|)
  }

  /** `s[i]` with Python's negative indexing; `None` is an `IndexError`. */
  predicate IndexOk<T>(s: seq<T>, i: int) {
    -|s| <= i < |s|
  }

  function At<T>(s: seq<T>, i: int): (r: T)
    requires IndexOk(s, i)
    ensures 0 <= i ==> r == s[i]
    ensures i < 0 ==> r == s[|s| + i]
  {
    if i < 0 then s[|s| + i] else s[i]
  }

  // ---------------------------------------------------------------------
  // Deleting the members of a set

  /** The list left once every element that is in `stop` has been removed. */
  function RemoveAll<T>(s: seq<T>, stop: set<T>): (r: seq<T>)
    ensures |r| <= |s|
    ensures forall i :: 0 <= i < |r| ==> r[i] !in stop
    ensures forall x :: x in r ==> x in s
  {
    if s == [] then []
    else if s[0] in stop then RemoveAll(s[1..], stop)
    else [s[0]] + RemoveAll(s[1..], stop)
  }

  lemma {:induction false} RemoveAllAppend<T>(a: seq<T>, b: seq<T>, stop: set<T>)
    ensures RemoveAll(a + b, stop) == RemoveAll(a, stop) + RemoveAll(b, stop)
  {
    if a != [] {
      assert (a + b)[0] == a[0] && (a + b)[1..] == a[1..] + b;
      RemoveAllAppend(a[1..], b, stop);
    } else {
      assert a + b == b;
    }
  }

  /** The reverse-index loop `for i in range(len(s) - 1, -1, -1): if s[i] in
      stop: del s[i]`, over the list `s`; the result is the list afterwards. */
  method DeleteInPlace<T>(s: seq<T>, stop: set<T>) returns (r: seq<T>)
    ensures r == RemoveAll(s, stop)
  {
    r := s;
    var i := |s|;
    assert s[..i] == s && s[i..] == [];
    while i > 0
      invariant i <= |s| && DeleteLoop(s, i, stop, r)
    {
      i := i - 1;
      DeleteStep(s, i, stop, r);
      if r[i] in stop {
        r := r[..i] + r[i + 1..];
      }
    }
    assert s[..i] == [] && s[i..] == s;
  }

  /** The invariant of the reverse-index loop: the elements from `i` on
      are already filtered, those before it untouched. */
  ghost predicate DeleteLoop<T>(s: seq<T>, i: nat, stop: set<T>, r: seq<T>)
    requires i <= |s|
  {
    r == s[..i] + RemoveAll(s[i..], stop)
  }

  /** One step of the reverse-index loop, at index `i`. */
  lemma DeleteStep<T>(s: seq<T>, i: nat, stop: set<T>, r: seq<T>)
    requires i < |s| && DeleteLoop(s, i + 1, stop, r)
    ensures i < |r| && r[i] == s[i]
    ensures r[i] in stop ==> DeleteLoop(s, i, stop, r[..i] + r[i + 1..])
    ensures r[i] !in stop ==> DeleteLoop(s, i, stop, r)
  {
    DeleteParts(s, i, stop, r);
    RemoveAllStep(s, i, stop);
    if s[i] in stop {
      assert r[..i] + r[i + 1..] == s[..i] + RemoveAll(s[i..], stop);
    } else {
      assert r == r[..i] + [r[i]] + r[i + 1..];
    }
  }

  /** Before the step at `i`, the list is `s[..i]`, then `s[i]`, then the
      filtered rest. */
  lemma DeleteParts<T>(s: seq<T>, i: nat, stop: set<T>, r: seq<T>)
    requires i < |s| && DeleteLoop(s, i + 1, stop, r)
    ensures i < |r| && r[..i] == s[..i] && r[i] == s[i] && r[i + 1..] == RemoveAll(s[i + 1..], stop)
  {
    var pre, rest := s[..i], RemoveAll(s[i + 1..], stop);
    assert s[..i + 1] == pre + [s[i]];
    assert r == pre + ([s[i]] + rest);
  }

  lemma RemoveAllStep<T>(s: seq<T>, i: nat, stop: set<T>)
    requires i < |s|
    ensures RemoveAll(s[i..], stop) ==
            (if s[i] in stop then [] else [s[i]]) + RemoveAll(s[i + 1..], stop)
  {
    assert s[i..][0] == s[i] && s[i..][1..] == s[i + 1..];
  }

  /** Deleting keeps every other element with its multiplicity. */
  lemma {:induction false} RemoveAllCount<T>(s: seq<T>, stop: set<T>, x: T)
    ensures Count(RemoveAll(s, stop), x) == if x in stop then 0 else Count(s, x)
  {
    if s != [] {
      RemoveAllCount(s[1..], stop, x);
      if s[0] !in stop {
        CountCons(s[0], RemoveAll(s[1..], stop), x);
      }
    }
  }

  /** Deleting keeps the survivors in their original order: the result is
      what filtering by membership gives, and filtering an already clean list
      changes nothing. */
  lemma {:induction false} RemoveAllClean<T>(s: seq<T>, stop: set<T>)
    requires forall i :: 0 <= i < |s| ==> s[i] !in stop
    ensures RemoveAll(s, stop) == s
  {
    if s != [] {
      RemoveAllClean(s[1..], stop);
    }
  }

  /** Deleting twice is deleting once. */
  lemma RemoveAllIdempotent<T>(s: seq<T>, stop: set<T>)
    ensures RemoveAll(RemoveAll(s, stop), stop) == RemoveAll(s, stop)
  {
    RemoveAllClean(RemoveAll(s, stop), stop);
  }

  // ---------------------------------------------------------------------
  // n-grams and their counts

  /** `nltk.ngrams(s, n)`: every window of `n` consecutive elements, left to
      right; there are none when `n` is 0 or longer than `s`. */
  function Ngrams<T>(s: seq<T>, n: nat): (r: seq<seq<T>>)
    ensures n == 0 || |s| < n ==> r == []
    ensures 0 < n <= |s| ==> |r| == |s| - n + 1
    ensures forall i :: 0 <= i < |r| ==> |r[i]| == n && i + n <= |s| && r[i] == s[i..i + n]
  {
    if n == 0 || |s| < n then []
    else seq(|s| - n + 1, i requires 0 <= i < |s| - n + 1 => s[i..i + n])
  }

  /** How many times `x` occurs in `s` (`s.count(x)`, a `FreqDist` entry). */
  function Count<T(==)>(s: seq<T>, x: T): (c: nat)
    ensures c <= |s|
    ensures c == multiset(s)[x]
  {
    if s == [] then 0
    else
      assert s == [s[0]] + s[1..];
      (if s[0] == x then 1 else 0) + Count(s[1..], x)
  }

  lemma CountCons<T>(y: T, s: seq<T>, x: T)
    ensures Count([y] + s, x) == (if y == x then 1 else 0) + Count(s, x)
  {
    assert ([y] + s)[1..] == s;
  }

  lemma CountPositive<T>(s: seq<T>, x: T)
    ensures Count(s, x) > 0 <==> x in s
  {
    assert x in s <==> x in multiset(s);
  }

  /** The distinct elements of `s` in order of first occurrence: the keys of
      a `FreqDist` (a `Counter`) built from `s`, in iteration order. */
  function Distinct<T(==,!new)>(s: seq<T>): (r: seq<T>)
    ensures forall x :: x in r <==> x in s
    ensures forall i, j :: 0 <= i < j < |r| ==> r[i] != r[j]
    ensures |r| <= |s|
  {
    DistinctFrom(s, [])
  }

  function DistinctFrom<T(==,!new)>(s: seq<T>, seen: seq<T>): (r: seq<T>)
    requires forall i, j :: 0 <= i < j < |seen| ==> seen[i] != seen[j]
    ensures |seen| <= |r| <= |seen| + |s| && r[..|seen|] == seen
    ensures forall x :: x in r <==> x in s || x in seen
    ensures forall i, j :: 0 <= i < j < |r| ==> r[i] != r[j]
    decreases |s|
  {
    if s == [] then seen
    else if s[0] in seen then DistinctFrom(s[1..], seen)
    else DistinctFrom(s[1..], seen + [s[0]])
  }

  /** A count map: every distinct element with its number of occurrences. */
  function Counts<T(==,!new)>(s: seq<T>): (m: map<T, nat>)
    ensures m.Keys == set x | x in s
    ensures forall x :: x in m ==> m[x] == Count(s, x) && m[x] > 0
  {
    map x | x in s :: CountPositive(s, x); Count(s, x)
  }

  /** `sum(counts)` over a list of naturals. */
  function Sum(s: seq<nat>): (t: nat)
    ensures s == [] ==> t == 0
  {
    if s == [] then 0 else s[0] + Sum(s[1..])
  }

  lemma {:induction false} SumAppend(a: seq<nat>, b: seq<nat>)
    ensures Sum(a + b) == Sum(a) + Sum(b)
  {
    if a != [] {
      assert (a + b)[0] == a[0] && (a + b)[1..] == a[1..] + b;
      SumAppend(a[1..], b);
    } else {
      assert a + b == b;
    }
  }

  /** `len(set(s)) <= len(s)`, with equality exactly when no element of `s`
      repeats. */
  lemma {:induction false} DistinctCount<T>(s: seq<T>)
    ensures |set x | x in s| <= |s|
    ensures |set x | x in s| == |s| <==> forall i, j :: 0 <= i < j < |s| ==> s[i] != s[j]
  {
    if s != [] {
      var t := s[..|s| - 1];
      var x := s[|s| - 1];
      DistinctCount(t);
      assert s == t + [x];
      assert (set y | y in s) == (set y | y in t) + {x};
      if x in t {
        assert (set y | y in s) == (set y | y in t);
        var j :| 0 <= j < |t| && t[j] == x;
        assert s[j] == s[|s| - 1];
      } else {
        assert x !in (set y | y in t);
        assert (forall i, j :: 0 <= i < j < |s| ==> s[i] != s[j]) <==>
               (forall i, j :: 0 <= i < j < |t| ==> t[i] != t[j]);
      }
    }
  }
}
