/** corpus/results.py: the result objects. A frequency result holds one
    table per period, keyed by keyword tuples until `clean_keys` turns them
    into space-joined strings; topic strings are cleaned for display; and
    cluster results group the authors of each period by cluster label. */
module Results {
  import opened Wrappers
  import opened PyStr
  import opened PyList
  import opened PyDict
  import opened Records
  import opened CorpusUtils
  import opened Sorting

  // ---------------------------------------------------------------------
  // clean_keys

  /** The key a result key ends up under: a tuple becomes its space-joined
      string, a string stays. */
  function Rename(k: Key): (r: Key)
    ensures r.Str?
    ensures k.Str? ==> r == k
  {
    if k.Tup? then Str(Join(" ", k.t)) else k
  }

  /** The loop of `clean_keys` over the keys `ks` of one period's table, in
      order: every tuple key is popped and its value stored under the
      joined string (which goes to the end of the table). */
  function CleanWith<V>(e: Dict<Key, V>, ks: seq<Key>): (r: Dict<Key, V>)
    requires e.Valid()
    ensures r.Valid()
    decreases |ks|
  {
    if ks == [] then e
    else if ks[0].Tup? && ks[0] in e.m then CleanWith(Step(e, ks[0]), ks[1..])
    else CleanWith(e, ks[1..])
  }

  /** One period's table after `clean_keys`. */
  function Clean<V>(e: Dict<Key, V>): (r: Dict<Key, V>)
    requires e.Valid()
    ensures r.Valid()
  {
    CleanWith(e, e.keys)
  }

  /** The keys a set of keys is renamed to. */
  function Renamed(ks: set<Key>): (r: set<Key>)
    ensures forall k :: k in ks ==> Rename(k) in r
  {
    set k | k in ks :: Rename(k)
  }

  /** No two keys of the table end up under the same string. */
  ghost predicate RenameInjective<V>(e: Dict<Key, V>) {
    forall k1, k2 :: k1 in e.m && k2 in e.m && Rename(k1) == Rename(k2) ==> k1 == k2
  }

  /** What the loop needs of the keys still to visit: no repeats, all in the
      table, and every tuple key of the table among them. */
  ghost predicate Pending<V>(e: Dict<Key, V>, ks: seq<Key>) {
    && (forall i, j :: 0 <= i < j < |ks| ==> ks[i] != ks[j])
    && (forall i :: 0 <= i < |ks| ==> ks[i] in e.m)
    && (forall k :: k in e.m && k.Tup? ==> k in ks)
  }

  /** One step of the loop on a tuple key `ks[0]`. */
  function Step<V>(e: Dict<Key, V>, k: Key): (r: Dict<Key, V>)
    requires e.Valid() && k in e.m
    ensures r.Valid()
    ensures r.m.Keys == (e.m.Keys - {k}) + {Rename(k)}
    ensures r.m[Rename(k)] == e.m[k]
    ensures forall k' :: k' in e.m && k' != k && k' != Rename(k) ==> k' in r.m && r.m[k'] == e.m[k']
  {
    Put(Pop(e, k), Rename(k), e.m[k])
  }

  lemma PendingStep<V>(e: Dict<Key, V>, ks: seq<Key>)
    requires e.Valid() && Pending(e, ks) && ks != [] && ks[0].Tup?
    ensures Pending(Step(e, ks[0]), ks[1..])
  {
    var k := ks[0];
    var e' := Step(e, k);
    forall i | 0 <= i < |ks| - 1 ensures ks[1..][i] in e'.m {
      assert ks[1..][i] == ks[i + 1];
    }
    forall k' | k' in e'.m && k'.Tup? ensures k' in ks[1..] {
      var i :| 0 <= i < |ks| && ks[i] == k';
      assert ks[1..][i - 1] == k';
    }
  }

  lemma StepRenamed<V>(e: Dict<Key, V>, k: Key)
    requires e.Valid() && k in e.m
    ensures Renamed(Step(e, k).m.Keys) == Renamed(e.m.Keys)
  {
    assert Rename(Rename(k)) == Rename(k);
  }

  lemma StepInjective<V>(e: Dict<Key, V>, k: Key)
    requires e.Valid() && k in e.m && RenameInjective(e)
    ensures RenameInjective(Step(e, k))
    ensures forall k' :: k' in e.m && k' != k ==> k' in Step(e, k).m && Step(e, k).m[k'] == e.m[k']
  {
    var e' := Step(e, k);
    forall k1, k2 | k1 in e'.m && k2 in e'.m && Rename(k1) == Rename(k2) ensures k1 == k2 {
      var o1 := if k1 == Rename(k) then k else k1;
      var o2 := if k2 == Rename(k) then k else k2;
      assert o1 in e.m && Rename(o1) == Rename(k1);
      assert o2 in e.m && Rename(o2) == Rename(k2);
    }
  }

  /** No key left after the loop is a tuple. */
  lemma {:induction false} CleanWithStrs<V>(e: Dict<Key, V>, ks: seq<Key>)
    requires e.Valid() && Pending(e, ks)
    ensures forall k :: k in CleanWith(e, ks).m ==> k.Str?
    decreases |ks|
  {
    if ks != [] {
      if ks[0].Tup? {
        PendingStep(e, ks);
        CleanWithStrs(Step(e, ks[0]), ks[1..]);
      } else {
        PendingSkip(e, ks);
        CleanWithStrs(e, ks[1..]);
      }
    }
  }

  lemma PendingSkip<V>(e: Dict<Key, V>, ks: seq<Key>)
    requires Pending(e, ks) && ks != [] && ks[0].Str?
    ensures Pending(e, ks[1..])
  {
    forall i | 0 <= i < |ks| - 1 ensures ks[1..][i] in e.m {
      assert ks[1..][i] == ks[i + 1];
    }
    forall k' | k' in e.m && k'.Tup? ensures k' in ks[1..] {
      var i :| 0 <= i < |ks| && ks[i] == k';
      assert ks[1..][i - 1] == k';
    }
  }

  /** The keys after the loop are the renamed keys of before. */
  lemma {:induction false} CleanWithKeys<V>(e: Dict<Key, V>, ks: seq<Key>)
    requires e.Valid() && Pending(e, ks)
    ensures CleanWith(e, ks).m.Keys == Renamed(e.m.Keys)
    decreases |ks|
  {
    if ks == [] {
      assert forall k :: k in e.m ==> Rename(k) == k;
    } else if ks[0].Tup? {
      PendingStep(e, ks);
      StepRenamed(e, ks[0]);
      CleanWithKeys(Step(e, ks[0]), ks[1..]);
    } else {
      PendingSkip(e, ks);
      CleanWithKeys(e, ks[1..]);
    }
  }

  /** Without clashes every value ends up under its renamed key. */
  lemma {:induction false} CleanWithValues<V>(e: Dict<Key, V>, ks: seq<Key>)
    requires e.Valid() && Pending(e, ks) && RenameInjective(e)
    ensures forall k :: k in e.m ==> Rename(k) in CleanWith(e, ks).m && CleanWith(e, ks).m[Rename(k)] == e.m[k]
    decreases |ks|
  {
    CleanWithKeys(e, ks);
    if ks == [] {
      assert forall k :: k in e.m ==> Rename(k) == k;
    } else if ks[0].Tup? {
      var k := ks[0];
      PendingStep(e, ks);
      StepInjective(e, k);
      var e' := Step(e, k);
      CleanWithValues(e', ks[1..]);
      forall k1 | k1 in e.m ensures CleanWith(e, ks).m[Rename(k1)] == e.m[k1] {
        if k1 == k {
          assert Rename(Rename(k)) == Rename(k) && Rename(k) in e'.m;
        } else {
          assert k1 in e'.m;
        }
      }
    } else {
      PendingSkip(e, ks);
      CleanWithValues(e, ks[1..]);
    }
  }

  /** After `clean_keys` no key of a period is a tuple; the keys are exactly
      the renamed keys of before; and when no two keys are renamed alike,
      every value is found under its renamed key (so a string key that no
      tuple joins to keeps its value). */
  lemma CleanProps<V>(e: Dict<Key, V>)
    requires e.Valid()
    ensures forall k :: k in Clean(e).m ==> k.Str?
    ensures Clean(e).m.Keys == Renamed(e.m.Keys)
    ensures RenameInjective(e) ==> forall k :: k in e.m ==> Rename(k) in Clean(e).m && Clean(e).m[Rename(k)] == e.m[k]
  {
    assert Pending(e, e.keys);
    CleanWithStrs(e, e.keys);
    CleanWithKeys(e, e.keys);
    if RenameInjective(e) {
      CleanWithValues(e, e.keys);
    }
  }

  /** A table whose keys are all strings is left as it is. */
  lemma {:induction false} CleanWithStrings<V>(e: Dict<Key, V>, ks: seq<Key>)
    requires e.Valid()
    requires forall i :: 0 <= i < |ks| ==> ks[i].Str?
    ensures CleanWith(e, ks) == e
    decreases |ks|
  {
    if ks != [] {
      CleanWithStrings(e, ks[1..]);
    }
  }

  /** The inner loop of `clean_keys`, over the keys the table had when the
      loop began. */
  method CleanPeriod<V>(e: Dict<Key, V>) returns (r: Dict<Key, V>)
    requires e.Valid()
    ensures r == Clean(e)
  {
    var ks := e.keys;
    r := e;
    var j := 0;
    assert ks[0..] == ks;
    while j < |ks|
      invariant CleanLoop(e, r, j)
    {
      CleanNext(e, r, j);
      var k := ks[j];
      if k.Tup? {
        var v := r.m[k];
        r := Put(Pop(r, k), Rename(k), v);
      }
      j := j + 1;
    }
    CleanDone(e, r);
  }

  /** What holds of the table before visiting `e.keys[j]`: the keys still
      to visit are in it, and cleaning them gives the cleaned table. */
  ghost predicate CleanLoop<V>(e: Dict<Key, V>, r: Dict<Key, V>, j: nat) {
    && e.Valid() && r.Valid() && j <= |e.keys|
    && (forall i :: j <= i < |e.keys| ==> e.keys[i] in r.m)
    && CleanWith(r, e.keys[j..]) == Clean(e)
  }

  /** One pass of the inner loop of `clean_keys`: the keys still to visit
      stay in the table, since no key is visited twice. */
  lemma CleanNext<V>(e: Dict<Key, V>, r: Dict<Key, V>, j: nat)
    requires CleanLoop(e, r, j) && j < |e.keys|
    ensures e.keys[j] in r.m
    ensures CleanLoop(e, if e.keys[j].Tup? then Step(r, e.keys[j]) else r, j + 1)
  {
    var ks := e.keys;
    assert ks[j..][0] == ks[j] && ks[j..][1..] == ks[j + 1..];
    if ks[j].Tup? {
      forall i | j + 1 <= i < |ks| ensures ks[i] in Step(r, ks[j]).m {
        assert ks[i] != ks[j];
      }
    }
  }

  lemma CleanDone<V>(e: Dict<Key, V>, r: Dict<Key, V>)
    requires CleanLoop(e, r, |e.keys|)
    ensures r == Clean(e)
  {
    assert e.keys[|e.keys|..] == [];
  }

  /** Every period's table cleaned, the periods in their order. */
  ghost predicate Tables<V>(d: Dict<int, Dict<Key, V>>) {
    d.Valid() && forall y :: y in d.m ==> d.m[y].Valid()
  }

  /** The outer loop of `clean_keys`: the tables are replaced one period at
      a time, which leaves the order of the periods as it was. */
  method CleanAll<V>(d: Dict<int, Dict<Key, V>>) returns (r: Dict<int, Dict<Key, V>>)
    requires Tables(d)
    ensures r == CleanTables(d)
  {
    var m := d.m;
    var i := 0;
    while i < |d.keys|
      invariant CleanAllLoop(d, m, i)
    {
      CleanAllNext(d, m, i);
      var y := d.keys[i];
      var cleaned := CleanPeriod(m[y]);
      m := m[y := cleaned];
      i := i + 1;
    }
    CleanAllDone(d, m);
    r := Dict(d.keys, m);
  }

  /** Before period `d.keys[i]`: the periods before it are cleaned, the
      others untouched. */
  ghost predicate CleanAllLoop<V>(d: Dict<int, Dict<Key, V>>, m: map<int, Dict<Key, V>>, i: nat) {
    && Tables(d) && i <= |d.keys| && m.Keys == d.m.Keys
    && (forall y :: y in d.m && y !in d.keys[..i] ==> m[y] == d.m[y])
    && (forall y :: y in d.keys[..i] ==> m[y] == Clean(d.m[y]))
  }

  lemma CleanAllNext<V>(d: Dict<int, Dict<Key, V>>, m: map<int, Dict<Key, V>>, i: nat)
    requires CleanAllLoop(d, m, i) && i < |d.keys|
    ensures d.keys[i] in m && m[d.keys[i]] == d.m[d.keys[i]] && m[d.keys[i]].Valid()
    ensures CleanAllLoop(d, m[d.keys[i] := Clean(d.m[d.keys[i]])], i + 1)
  {
    var y := d.keys[i];
    assert d.keys[..i + 1] == d.keys[..i] + [y];
    assert y in d.m && y !in d.keys[..i];
  }

  lemma CleanAllDone<V>(d: Dict<int, Dict<Key, V>>, m: map<int, Dict<Key, V>>)
    requires CleanAllLoop(d, m, |d.keys|)
    ensures Dict(d.keys, m) == CleanTables(d)
  {
    assert d.keys[..|d.keys|] == d.keys;
    forall y | y in d.m ensures m[y] == Clean(d.m[y]) {
      assert y in d.keys;
    }
    assert m == CleanTables(d).m;
  }

  /** Every period's table cleaned; the periods keep their order. */
  function CleanTables<V>(d: Dict<int, Dict<Key, V>>): (r: Dict<int, Dict<Key, V>>)
    requires Tables(d)
    ensures Tables(r) && r.keys == d.keys && r.m.Keys == d.m.Keys
    ensures forall y :: y in d.m ==> r.m[y] == Clean(d.m[y])
  {
    Dict(d.keys, map y | y in d.m :: Clean(d.m[y]))
  }

  // ---------------------------------------------------------------------
  // clean_keys as CPython runs it

  /** The inner loop of `clean_keys` as CPython runs it, over the keys `ks`
      not yet yielded: the loop iterates the very table it changes. Popping
      a tuple key and storing its value under the joined string, a key the
      table lacks, appends an entry after every original one; the iterator
      reaches it once it has yielded as many keys as the table had, and
      raises `RuntimeError` ("dictionary keys changed during iteration").
      Storing it under a key the table already has shrinks the table, and
      the very next step raises `RuntimeError` ("dictionary changed size
      during iteration"). The result is the table as left and whether the
      loop raised. */
  function CleanWithAsWritten<V>(e: Dict<Key, V>, ks: seq<Key>, appended: bool): (r: (Dict<Key, V>, bool))
    requires e.Valid()
    ensures r.0.Valid()
    ensures appended ==> r.1
    decreases |ks|
  {
    if ks == [] then (e, appended)
    else if ks[0].Tup? && ks[0] in e.m then
      if Rename(ks[0]) in e.m then (Step(e, ks[0]), true)
      else CleanWithAsWritten(Step(e, ks[0]), ks[1..], true)
    else CleanWithAsWritten(e, ks[1..], appended)
  }

  /** The loop as CPython runs it raises exactly when a key still to visit
      is a tuple, and a loop that does not raise leaves the table as it
      was: it never renames a key and finishes. */
  lemma {:induction false} CleanWithAsWrittenRaises<V>(e: Dict<Key, V>, ks: seq<Key>, appended: bool)
    requires e.Valid() && Pending(e, ks)
    ensures CleanWithAsWritten(e, ks, appended).1 <==> appended || exists i :: 0 <= i < |ks| && ks[i].Tup?
    ensures !CleanWithAsWritten(e, ks, appended).1 ==> CleanWithAsWritten(e, ks, appended).0 == e
    decreases |ks|
  {
    if ks != [] {
      if ks[0].Tup? {
        if Rename(ks[0]) !in e.m {
          PendingStep(e, ks);
          CleanWithAsWrittenRaises(Step(e, ks[0]), ks[1..], true);
        }
      } else {
        PendingSkip(e, ks);
        CleanWithAsWrittenRaises(e, ks[1..], appended);
        if exists i :: 0 <= i < |ks| && ks[i].Tup? {
          var i :| 0 <= i < |ks| && ks[i].Tup?;
          assert ks[1..][i - 1].Tup?;
        }
        if exists i :: 0 <= i < |ks[1..]| && ks[1..][i].Tup? {
          var i :| 0 <= i < |ks[1..]| && ks[1..][i].Tup?;
          assert ks[i + 1].Tup?;
        }
      }
    }
  }

  /** `clean_keys` as CPython runs it, from period `ys[0]` on: the inner
      loop on each period in turn, the first one that raises ending the
      method. The result is the tables as left and whether it raised. */
  function CleanFromAsWritten<V>(d: Dict<int, Dict<Key, V>>, ys: seq<int>): (r: (Dict<int, Dict<Key, V>>, bool))
    requires Tables(d)
    ensures Tables(r.0) && r.0.keys == d.keys && r.0.m.Keys == d.m.Keys
    decreases |ys|
  {
    if ys == [] then (d, false)
    else if ys[0] !in d.m then CleanFromAsWritten(d, ys[1..])
    else
      var y := ys[0];
      assert y in d.m;
      assert d.m[y].Valid();
      var p := CleanWithAsWritten(d.m[y], d.m[y].keys, false);
      var d' := Dict(d.keys, d.m[y := p.0]);
      if p.1 then (d', true) else CleanFromAsWritten(d', ys[1..])
  }

  /** `clean_keys()` as written (corpus/results.py), run by CPython when no
      insertion has to grow the table. */
  function CleanTablesAsWritten<V>(d: Dict<int, Dict<Key, V>>): (r: (Dict<int, Dict<Key, V>>, bool))
    requires Tables(d)
    ensures Tables(r.0) && r.0.keys == d.keys
  {
    CleanFromAsWritten(d, d.keys)
  }

  /** A table holds a tuple key. */
  ghost predicate HasTuple<V>(e: Dict<Key, V>) {
    exists k :: k in e.m && k.Tup?
  }

  lemma {:induction false} CleanFromAsWrittenRaises<V>(d: Dict<int, Dict<Key, V>>, ys: seq<int>)
    requires Tables(d) && forall i :: 0 <= i < |ys| ==> ys[i] in d.m
    ensures CleanFromAsWritten(d, ys).1 <==> exists i :: 0 <= i < |ys| && HasTuple(d.m[ys[i]])
    ensures !CleanFromAsWritten(d, ys).1 ==> CleanFromAsWritten(d, ys).0 == d
    decreases |ys|
  {
    if ys != [] {
      var y := ys[0];
      var e := d.m[y];
      assert Pending(e, e.keys);
      CleanWithAsWrittenRaises(e, e.keys, false);
      assert HasTuple(e) <==> exists i :: 0 <= i < |e.keys| && e.keys[i].Tup? by {
        if HasTuple(e) {
          var k :| k in e.m && k.Tup?;
          assert k in e.keys;
        }
      }
      var p := CleanWithAsWritten(e, e.keys, false);
      if !p.1 {
        assert Dict(d.keys, d.m[y := p.0]) == d;
        assert forall i :: 0 <= i < |ys[1..]| ==> ys[1..][i] == ys[i + 1];
        CleanFromAsWrittenRaises(d, ys[1..]);
        if exists i :: 0 <= i < |ys| && HasTuple(d.m[ys[i]]) {
          var i :| 0 <= i < |ys| && HasTuple(d.m[ys[i]]);
          assert i > 0 && HasTuple(d.m[ys[1..][i - 1]]);
        }
      }
    }
  }

  /** As written, `clean_keys` raises `RuntimeError` exactly when some
      period's table holds a tuple key, which is exactly when there is
      something to clean; when it does not raise, it has changed nothing.
      So it never returns a cleaned table, where `CleanTables` cleans
      every period. */
  lemma CleanKeysRaises<V>(d: Dict<int, Dict<Key, V>>)
    requires Tables(d)
    ensures CleanTablesAsWritten(d).1 <==> exists y :: y in d.m && HasTuple(d.m[y])
    ensures !CleanTablesAsWritten(d).1 ==> CleanTablesAsWritten(d).0 == d && CleanTables(d) == d
  {
    KeysIn(d);
    CleanFromAsWrittenRaises(d, d.keys);
    if exists y :: y in d.m && HasTuple(d.m[y]) {
      var y :| y in d.m && HasTuple(d.m[y]);
      var i :| 0 <= i < |d.keys| && d.keys[i] == y;
    }
    if !CleanTablesAsWritten(d).1 {
      forall y | y in d.m ensures Clean(d.m[y]) == d.m[y] {
        var e := d.m[y];
        KeysIn(e);
        forall i | 0 <= i < |e.keys| ensures e.keys[i].Str? {
          assert e.keys[i] in e.m;
        }
        CleanWithStrings(e, e.keys);
      }
      assert CleanTables(d).m == d.m;
    }
  }

  /** The smallest table that shows it: one period holding one bigram. */
  lemma CleanKeysExample()
    ensures var d := Dict([1900], map[1900 := Dict([Tup(["a", "b"])], map[Tup(["a", "b"]) := 1])]);
      && Tables(d)
      && CleanTablesAsWritten(d).1
      && CleanTables(d).m[1900].m == map[Str("a b") := 1]
  {
    var k := Tup(["a", "b"]);
    var e := Dict([k], map[k := 1]);
    var d := Dict([1900], map[1900 := e]);
    assert e.Valid() && Tables(d);
    assert Join(" ", ["a", "b"]) == "a b";
    assert Rename(k) == Str("a b") && Rename(k) !in e.m;
    var stepped := Step(e, k);
    assert stepped.m == map[Str("a b") := 1];
    // As written: the renamed key is appended, so the loop raises.
    assert e.keys[1..] == [];
    assert CleanWithAsWritten(e, e.keys, false) == (stepped, true);
    assert CleanFromAsWritten(d, d.keys).1;
    // As intended: the one key is renamed.
    assert CleanWith(stepped, e.keys[1..]) == stepped;
    assert Clean(e) == stepped;
  }

  /** `FrequencyResults(d, n, f_type, name)`. */
  class FrequencyResults<V> {
    var d: Dict<int, Dict<Key, V>>
    const n: map<int, nat>
    const fType: string
    const name: string
    const years: seq<int>

    ghost predicate Valid()
      reads this
    {
      Tables(d)
    }

    /** `years` is the sequence of periods of `d`, in insertion order. */
    constructor(d: Dict<int, Dict<Key, V>>, n: map<int, nat>, fType: string, name: string)
      requires Tables(d)
      ensures Valid()
      ensures this.d == d && this.n == n && this.fType == fType && this.name == name
      ensures years == d.keys
    {
      this.d := d;
      this.n := n;
      this.fType := fType;
      this.name := name;
      this.years := d.keys;
    }

    /** `clean_keys()`: every period's table is cleaned in place and the
        (same) dictionary returned. */
    method CleanKeys() returns (r: Dict<int, Dict<Key, V>>)
      requires Valid()
      modifies this
      ensures Valid() && r == d
      ensures d == CleanTables(old(d))
    {
      d := CleanAll(d);
      r := d;
    }
  }

  /** `display(keys)`: the `'TOTAL'` line alone when no keys are given,
      otherwise one line per keyword tuple of `build_keys(keys)`. */
  function DisplayKeys(keys: Option<seq<string>>): (r: seq<Key>)
    ensures keys.None? ==> r == [Str("TOTAL")]
    ensures keys.Some? ==> |r| == |keys.value| && forall i :: 0 <= i < |r| ==> r[i] == Tup(Words(keys.value[i]))
  {
    if keys.None? then [Str("TOTAL")]
    else
      var ks := BuildKeys(keys.value);
      seq(|ks|, i requires 0 <= i < |ks| => Tup(ks[i]))
  }

  /** The `'TOTAL'` branch of `display` is taken exactly when no keys were
      given: a keyword tuple never equals the string `'TOTAL'`. */
  lemma DisplayTotal(keys: Option<seq<string>>)
    ensures Str("TOTAL") in DisplayKeys(keys) <==> keys.None?
    ensures keys.Some? ==> forall k :: k in DisplayKeys(keys) ==> k.Tup?
  {
  }

  // ---------------------------------------------------------------------
  // Topic strings

  /** The fragments `_filter_topic` and `_filter_topic_weights` delete. */
  const TopicDrop: set<string> := {"", "None"}

  /** The survivors of the deletion loop of `_filter_topic`, lower-cased. */
  function KeptTopic(ps: seq<string>): (r: seq<string>)
    ensures |r| <= |ps|
    decreases |ps|
  {
    if ps == [] then []
    else (if ps[0] in TopicDrop then [] else [Lower(ps[0])]) + KeptTopic(ps[1..])
  }

  /** `_filter_topic(t)` on the string form of the topic: split on
      `\W[0-9]*`, drop the empty and `"None"` fragments, lower-case the
      rest, and join them with `", "`. */
  function FilterTopicSpec(t: string): string {
    Join(", ", KeptTopic(SplitNonWord(t)))
  }

  /** The reverse-index loop of `_filter_topic`. */
  method FilterTopic(t: string) returns (r: string)
    ensures r == FilterTopicSpec(t)
  {
    var parts := SplitNonWord(t);
    var filtered := parts;
    var k := |parts|;
    assert parts[k..] == [] && parts[..k] == parts;
    while k > 0
      invariant k <= |parts| && TopicLoop(parts, k, filtered)
    {
      k := k - 1;
      TopicStep(parts, k, filtered);
      if filtered[k] == "" || filtered[k] == "None" {
        filtered := filtered[..k] + filtered[k + 1..];
      } else {
        filtered := filtered[k := Lower(filtered[k])];
      }
    }
    assert parts[k..] == parts && parts[..k] == [];
    assert filtered == KeptTopic(parts);
    r := Join(", ", filtered);
  }

  /** The invariant of the reverse-index loop: the fragments from `k` on
      are already filtered, those before it untouched. */
  ghost predicate TopicLoop(parts: seq<string>, k: nat, filtered: seq<string>)
    requires k <= |parts|
  {
    filtered == parts[..k] + KeptTopic(parts[k..])
  }

  /** One step of the reverse-index loop, at index `k`. */
  lemma TopicStep(parts: seq<string>, k: nat, filtered: seq<string>)
    requires k < |parts| && TopicLoop(parts, k + 1, filtered)
    ensures k < |filtered| && filtered[k] == parts[k]
    ensures filtered[k] == "" || filtered[k] == "None" ==> TopicLoop(parts, k, filtered[..k] + filtered[k + 1..])
    ensures !(filtered[k] == "" || filtered[k] == "None") ==> TopicLoop(parts, k, filtered[k := Lower(filtered[k])])
  {
    TopicParts(parts, k, filtered);
    assert parts[k..][0] == parts[k] && parts[k..][1..] == parts[k + 1..];
    var rest := KeptTopic(parts[k + 1..]);
    assert KeptTopic(parts[k..]) == (if parts[k] in TopicDrop then [] else [Lower(parts[k])]) + rest;
    if parts[k] in TopicDrop {
      assert KeptTopic(parts[k..]) == rest;
      assert filtered[..k] + filtered[k + 1..] == parts[..k] + rest;
    } else {
      assert KeptTopic(parts[k..]) == [Lower(parts[k])] + rest;
      assert filtered[k := Lower(filtered[k])] == parts[..k] + ([Lower(parts[k])] + rest);
    }
  }

  /** Before the step at `k`, the list is `parts[..k]`, then `parts[k]`,
      then the filtered rest. */
  lemma TopicParts(parts: seq<string>, k: nat, filtered: seq<string>)
    requires k < |parts| && TopicLoop(parts, k + 1, filtered)
    ensures k < |filtered| && filtered[..k] == parts[..k] && filtered[k] == parts[k]
    ensures filtered[k + 1..] == KeptTopic(parts[k + 1..])
  {
    var pre, rest := parts[..k], KeptTopic(parts[k + 1..]);
    assert parts[..k + 1] == pre + [parts[k]];
    assert filtered == pre + ([parts[k]] + rest);
  }

  /** The kept fragments are the survivors of deleting `""` and `"None"`,
      lower-cased, in their original order. */
  lemma {:induction false} KeptTopicOrder(ps: seq<string>)
    ensures |KeptTopic(ps)| == |RemoveAll(ps, TopicDrop)|
    ensures forall i :: 0 <= i < |KeptTopic(ps)| ==> KeptTopic(ps)[i] == Lower(RemoveAll(ps, TopicDrop)[i])
    decreases |ps|
  {
    if ps != [] {
      KeptTopicOrder(ps[1..]);
    }
  }

  /** The fragments joined by `_filter_topic` are non-empty, never `"None"`,
      free of upper-case letters and made of word characters only. */
  lemma {:induction false} KeptTopicFragments(ps: seq<string>)
    requires forall i :: 0 <= i < |ps| ==> AllWordChars(ps[i])
    ensures forall i :: 0 <= i < |KeptTopic(ps)| ==>
      && KeptTopic(ps)[i] != "" && KeptTopic(ps)[i] != "None"
      && forall j :: 0 <= j < |KeptTopic(ps)[i]| ==> !IsUpper(KeptTopic(ps)[i][j]) && IsWordChar(KeptTopic(ps)[i][j])
    decreases |ps|
  {
    if ps != [] {
      KeptTopicFragments(ps[1..]);
      if ps[0] !in TopicDrop {
        var w := Lower(ps[0]);
        assert w != "None" by {
          assert !IsUpper(w[0]) && IsUpper('N');
        }
      }
    }
  }

  lemma FilterTopicFragments(t: string)
    ensures var frags := KeptTopic(SplitNonWord(t));
      && FilterTopicSpec(t) == Join(", ", frags)
      && forall i :: 0 <= i < |frags| ==>
           && frags[i] != "" && frags[i] != "None"
           && forall j :: 0 <= j < |frags[i]| ==> !IsUpper(frags[i][j]) && IsWordChar(frags[i][j])
  {
    SplitNonWordParts(t);
    KeptTopicFragments(SplitNonWord(t));
  }

  /** `"{0} ({1})".format(k[1].strip(), k[0].strip())` for the pieces `k`
      of one `'*'`-split fragment. */
  function LabelText(k: seq<string>): string
    requires |k| >= 2
  {
    Strip(k[1]) + " (" + Strip(k[0]) + ")"
  }

  /** Every piece list has a `k[1]`; the first that has not stops the loop
      with an `IndexError`. */
  predicate AllPaired(ps: seq<seq<string>>) {
    forall i :: 0 <= i < |ps| ==> |ps[i]| >= 2
  }

  /** The labels of the piece lists, in order. */
  function Labels(ps: seq<seq<string>>): (r: seq<string>)
    requires AllPaired(ps)
  {
    seq(|ps|, i requires 0 <= i < |ps| => LabelText(ps[i]))
  }

  /** The `'*'`-pieces of every fragment, in order. */
  function SplitAll(frags: seq<string>): (r: seq<seq<string>>)
    ensures |r| == |frags|
    ensures forall i :: 0 <= i < |r| ==> r[i] == Split(frags[i], '*')
    decreases |frags|
  {
    if frags == [] then [] else [Split(frags[0], '*')] + SplitAll(frags[1..])
  }

  /** Every fragment holds the `'*'` between weight and word. */
  predicate AllStarred(frags: seq<string>) {
    forall i :: 0 <= i < |frags| ==> '*' in frags[i]
  }

  /** `_filter_topic_weights(t)` on the string `str(t[1])`: the fragments
      between `'+'` that are neither empty nor `"None"`, split on `'*'`,
      each turned into a label. */
  function FilterTopicWeightsSpec(w: string): Result<string> {
    var ps := SplitAll(RemoveAll(Split(w, '+'), TopicDrop));
    if AllPaired(ps) then Ok(Join(", ", Labels(ps))) else Err(IndexError)
  }

  /** A string splits into more than one part exactly when it holds the
      separator. */
  lemma {:induction false} SplitHasSep(s: string, sep: char)
    ensures |Split(s, sep)| >= 2 <==> sep in s
  {
    if s != [] {
      SplitHasSep(s[1..], sep);
      assert sep in s <==> s[0] == sep || sep in s[1..];
    }
  }

  /** `_filter_topic_weights` succeeds exactly when every fragment between
      `'+'` that is neither empty nor `"None"` holds a `'*'`, and fails with
      an `IndexError` otherwise. */
  lemma FilterTopicWeightsOk(w: string)
    ensures FilterTopicWeightsSpec(w).Ok? <==> AllStarred(RemoveAll(Split(w, '+'), TopicDrop))
    ensures FilterTopicWeightsSpec(w).Err? ==> FilterTopicWeightsSpec(w).error == IndexError
  {
    var frags := RemoveAll(Split(w, '+'), TopicDrop);
    var ps := SplitAll(frags);
    assert FilterTopicWeightsSpec(w).Ok? <==> AllPaired(ps);
    forall i | 0 <= i < |frags| ensures |ps[i]| >= 2 <==> '*' in frags[i] {
      SplitHasSep(frags[i], '*');
    }
    assert AllPaired(ps) <==> AllStarred(frags);
  }

  /** `labels` holds one label per fragment, in order, each `"word (weight)"`
      from the text before and after the fragment's first `'*'`. */
  ghost predicate LabelledBy(frags: seq<string>, labels: seq<string>) {
    && |labels| == |frags|
    && forall i :: 0 <= i < |frags| ==>
         |Split(frags[i], '*')| >= 2 && labels[i] == LabelText(Split(frags[i], '*'))
  }

  /** On success it joins one label per kept fragment. */
  lemma FilterTopicWeightsLabels(w: string)
    requires FilterTopicWeightsSpec(w).Ok?
    ensures exists labels ::
      FilterTopicWeightsSpec(w) == Ok(Join(", ", labels)) && LabelledBy(RemoveAll(Split(w, '+'), TopicDrop), labels)
  {
    var frags := RemoveAll(Split(w, '+'), TopicDrop);
    var ps := SplitAll(frags);
    var labels := Labels(ps);
    assert FilterTopicWeightsSpec(w) == Ok(Join(", ", labels)) by {
      assert AllPaired(ps);
    }
    LabelsOfFragments(frags);
  }

  /** The labels of `Labels` are those of the fragments. */
  lemma LabelsOfFragments(frags: seq<string>)
    requires AllPaired(SplitAll(frags))
    ensures LabelledBy(frags, Labels(SplitAll(frags)))
  {
    var ps := SplitAll(frags);
    forall i | 0 <= i < |frags|
      ensures |Split(frags[i], '*')| >= 2 && Labels(ps)[i] == LabelText(Split(frags[i], '*'))
    {
      assert ps[i] == Split(frags[i], '*');
    }
  }

  /** So the label of a term `weight*word` is `"word (weight)"`. */
  lemma TermLabel(weight: string, word: string)
    requires '*' !in weight && '*' !in word
    ensures var k := Split(weight + "*" + word, '*');
      |k| >= 2 && LabelText(k) == Strip(word) + " (" + Strip(weight) + ")"
  {
    SplitPair(weight, word, '*');
  }

  /** The first loop of `_filter_topic_weights`, by reverse index: the
      empty and `"None"` fragments are deleted and every other one is
      replaced by its `'*'`-pieces. */
  method SplitFragments(parts: seq<string>) returns (tail: seq<seq<string>>)
    ensures tail == SplitAll(RemoveAll(parts, TopicDrop))
  {
    tail := [];
    var k := |parts|;
    while k > 0
      invariant 0 <= k <= |parts|
      invariant tail == SplitAll(RemoveAll(parts[k..], TopicDrop))
    {
      k := k - 1;
      RemoveAllStep(parts, k, TopicDrop);
      if parts[k] == "" || parts[k] == "None" {
      } else {
        var rest := RemoveAll(parts[k + 1..], TopicDrop);
        assert ([parts[k]] + rest)[1..] == rest;
        tail := [Split(parts[k], '*')] + tail;
      }
    }
    assert parts[k..] == parts;
  }

  /** The second loop of `_filter_topic_weights`: one label per piece
      list, stopping with an `IndexError` at the first list without a
      second piece. */
  method LabelAll(ps: seq<seq<string>>) returns (r: Result<string>)
    ensures r == if AllPaired(ps) then Ok(Join(", ", Labels(ps))) else Err(IndexError)
  {
    var res: seq<string> := [];
    var i := 0;
    while i < |ps|
      invariant 0 <= i <= |ps|
      invariant |res| == i
      invariant forall j :: 0 <= j < i ==> |ps[j]| >= 2 && res[j] == LabelText(ps[j])
    {
      var pieces := ps[i];
      if |pieces| < 2 {
        return Err(IndexError);
      }
      res := res + [LabelText(pieces)];
      i := i + 1;
    }
    var all := Labels(ps);
    assert |all| == |res| && forall j :: 0 <= j < |res| ==> all[j] == res[j];
    assert all == res;
    r := Ok(Join(", ", res));
  }

  /** `_filter_topic_weights`. */
  method FilterTopicWeights(w: string) returns (r: Result<string>)
    ensures r == FilterTopicWeightsSpec(w)
  {
    var tail := SplitFragments(Split(w, '+'));
    r := LabelAll(tail);
  }

  // ---------------------------------------------------------------------
  // Cluster groups

  /** The authors of one period grouped by `label + 1`: groups appear in the
      order their first author does, and a label missing for an author is
      an `IndexError`. */
  function GroupPeriod(authors: seq<string>, labels: seq<int>): (r: Result<Dict<int, seq<string>>>)
    ensures r.Ok? <==> |authors| <= |labels|
    ensures |authors| > |labels| ==> r == Err(IndexError)
    ensures r.Ok? ==> r.value.Valid()
    decreases |authors|
  {
    if authors == [] then Ok(Empty())
    else
      var n := |authors| - 1;
      var prev := GroupPeriod(authors[..n], labels);
      if prev.Err? || n >= |labels| then Err(IndexError)
      else
        var g := prev.value;
        var tag := labels[n] + 1;
        Ok(Put(g, tag, (if tag in g.m then g.m[tag] else []) + [authors[n]]))
  }

  /** One more author: appended to the group of its label, which is
      opened when missing. */
  lemma GroupPeriodStep(authors: seq<string>, labels: seq<int>)
    requires 0 < |authors| <= |labels|
    ensures var n := |authors| - 1;
      var g0 := GroupPeriod(authors[..n], labels).value;
      var t := labels[n] + 1;
      GroupPeriod(authors, labels) == Ok(Put(g0, t, (if t in g0.m then g0.m[t] else []) + [authors[n]]))
  {
  }

  /** The authors whose cluster is `c`, in their original order. */
  function Members(authors: seq<string>, labels: seq<int>, c: int): (r: seq<string>)
    requires |authors| <= |labels|
    decreases |authors|
  {
    if authors == [] then []
    else
      var n := |authors| - 1;
      Members(authors[..n], labels, c) + (if labels[n] + 1 == c then [authors[n]] else [])
  }

  /** There is a group for `c` exactly when `c - 1` is the label of some
      author. */
  lemma {:induction false} GroupPeriodKeys(authors: seq<string>, labels: seq<int>, c: int)
    requires |authors| <= |labels|
    ensures c in GroupPeriod(authors, labels).value.m <==> c - 1 in labels[..|authors|]
    decreases |authors|
  {
    if authors != [] {
      var n := |authors| - 1;
      GroupPeriodKeys(authors[..n], labels, c);
      GroupPeriodStep(authors, labels);
      assert labels[..n + 1] == labels[..n] + [labels[n]];
    }
  }

  /** Appending `a` to the group `t` leaves every other group as it was. */
  lemma GroupAppend(g0: Dict<int, seq<string>>, t: int, a: string, c: int)
    requires g0.Valid()
    ensures var g := Put(g0, t, (if t in g0.m then g0.m[t] else []) + [a]);
      (if c in g.m then g.m[c] else []) == (if c in g0.m then g0.m[c] else []) + (if t == c then [a] else [])
  {
  }

  /** Every author lands in the group of its label, the groups keeping the
      authors' order. */
  lemma {:induction false} GroupPeriodMembers(authors: seq<string>, labels: seq<int>, c: int)
    requires |authors| <= |labels|
    ensures var g := GroupPeriod(authors, labels).value;
      (if c in g.m then g.m[c] else []) == Members(authors, labels, c)
    decreases |authors|
  {
    if authors != [] {
      var n := |authors| - 1;
      var g0 := GroupPeriod(authors[..n], labels).value;
      GroupPeriodMembers(authors[..n], labels, c);
      GroupPeriodStep(authors, labels);
      GroupAppend(g0, labels[n] + 1, authors[n], c);
    }
  }

  /** The total size of the groups named by `keys`. */
  function Sizes(keys: seq<int>, m: map<int, seq<string>>): nat
    requires forall i :: 0 <= i < |keys| ==> keys[i] in m
    decreases |keys|
  {
    if keys == [] then 0
    else
      var n := |keys| - 1;
      assert forall i :: 0 <= i < n ==> keys[..n][i] == keys[i];
      Sizes(keys[..n], m) + |m[keys[n]]|
  }

  lemma {:induction false} SizesFrame(keys: seq<int>, m: map<int, seq<string>>, k: int, v: seq<string>)
    requires forall i :: 0 <= i < |keys| ==> keys[i] in m
    requires k !in keys
    ensures Sizes(keys, m[k := v]) == Sizes(keys, m)
    decreases |keys|
  {
    if keys != [] {
      var n := |keys| - 1;
      assert forall i :: 0 <= i < n ==> keys[..n][i] == keys[i];
      SizesFrame(keys[..n], m, k, v);
    }
  }

  lemma {:induction false} SizesUpdate(keys: seq<int>, m: map<int, seq<string>>, k: int, v: seq<string>)
    requires forall i :: 0 <= i < |keys| ==> keys[i] in m
    requires forall i, j :: 0 <= i < j < |keys| ==> keys[i] != keys[j]
    requires k in keys
    ensures Sizes(keys, m[k := v]) + |m[k]| == Sizes(keys, m) + |v|
    decreases |keys|
  {
    var n := |keys| - 1;
    var init := keys[..n];
    assert forall i :: 0 <= i < n ==> init[i] == keys[i];
    if keys[n] == k {
      forall i | 0 <= i < n ensures init[i] != k {
        assert init[i] == keys[i];
      }
      assert k !in init;
      SizesFrame(init, m, k, v);
    } else {
      var i :| 0 <= i < |keys| && keys[i] == k;
      assert init[i] == k;
      SizesUpdate(init, m, k, v);
    }
  }

  /** The number of authors over all groups of a period. */
  function TotalSize(d: Dict<int, seq<string>>): nat
    requires d.Valid()
  {
    Sizes(d.keys, d.m)
  }

  /** Storing `v` under `k` changes the total size by the sizes of the old
      and the new group. */
  lemma SizesPut(d: Dict<int, seq<string>>, k: int, v: seq<string>)
    requires d.Valid()
    ensures TotalSize(Put(d, k, v)) + (if k in d.m then |d.m[k]| else 0) == TotalSize(d) + |v|
  {
    KeysIn(d);
    if k in d.m {
      assert k in d.keys;
      SizesUpdate(d.keys, d.m, k, v);
    } else {
      SizesFrame(d.keys, d.m, k, v);
      SizesSnoc(d.keys, d.m[k := v], k);
    }
  }

  lemma SizesSnoc(keys: seq<int>, m: map<int, seq<string>>, k: int)
    requires forall i :: 0 <= i < |keys| ==> keys[i] in m
    requires k in m
    ensures Sizes(keys + [k], m) == Sizes(keys, m) + |m[k]|
  {
    assert (keys + [k])[..|keys|] == keys;
  }

  /** Appending one author to a group adds one to the total size. */
  lemma SizesAppend(g: Dict<int, seq<string>>, c: int, a: string)
    requires g.Valid()
    ensures TotalSize(Put(g, c, (if c in g.m then g.m[c] else []) + [a])) == TotalSize(g) + 1
  {
    SizesPut(g, c, (if c in g.m then g.m[c] else []) + [a]);
  }

  /** The group sizes of a period add up to its number of authors. */
  lemma {:induction false} GroupPeriodSizes(authors: seq<string>, labels: seq<int>)
    requires |authors| <= |labels|
    ensures TotalSize(GroupPeriod(authors, labels).value) == |authors|
    decreases |authors|
  {
    if authors != [] {
      var n := |authors| - 1;
      var g0 := GroupPeriod(authors[..n], labels).value;
      GroupPeriodSizes(authors[..n], labels);
      assert TotalSize(g0) == n;
      var c := labels[n] + 1;
      var e := Put(g0, c, (if c in g0.m then g0.m[c] else []) + [authors[n]]);
      GroupPeriodStep(authors, labels);
      assert GroupPeriod(authors, labels).value == e;
      SizesAppend(g0, c, authors[n]);
      assert TotalSize(e) == n + 1;
    }
  }

  /** `group_authors()` over the first `n` periods: a period without
      authors gets no entry; a period with authors needs its labels
      (`KeyError` otherwise). */
  function GroupAll(ad: Dict<int, seq<string>>, labels: map<int, seq<int>>, n: nat)
    : (r: Result<Dict<int, Dict<int, seq<string>>>>)
    requires ad.Valid() && n <= |ad.keys|
    ensures r.Ok? ==> r.value.Valid()
    decreases n
  {
    if n == 0 then Ok(Empty())
    else
      var prev := GroupAll(ad, labels, n - 1);
      var y := ad.keys[n - 1];
      assert y in ad.m;
      if prev.Err? || |ad.m[y]| == 0 then prev
      else if y !in labels then Err(KeyError)
      else if |ad.m[y]| > |labels[y]| then Err(IndexError)
      else Ok(Put(prev.value, y, GroupPeriod(ad.m[y], labels[y]).value))
  }

  /** The period `ad.keys[n - 1]` is not among the earlier ones. */
  lemma NewPeriod(ad: Dict<int, seq<string>>, n: nat)
    requires ad.Valid() && 0 < n <= |ad.keys|
    ensures ad.keys[..n] == ad.keys[..n - 1] + [ad.keys[n - 1]]
    ensures ad.keys[n - 1] !in ad.keys[..n - 1]
  {
    var y := ad.keys[n - 1];
    assert ad.keys[..n] == ad.keys[..n - 1] + [y];
    var pre := ad.keys[..n - 1];
    forall i | 0 <= i < |pre| ensures pre[i] != y {
      assert pre[i] == ad.keys[i];
    }
  }

  /** Grouping fails exactly when some period with authors has no labels,
      or fewer labels than authors. */
  lemma {:induction false} GroupAllOk(ad: Dict<int, seq<string>>, labels: map<int, seq<int>>, n: nat)
    requires ad.Valid() && n <= |ad.keys|
    ensures GroupAll(ad, labels, n).Ok? <==>
      forall y :: y in ad.keys[..n] && |ad.m[y]| > 0 ==> y in labels && |ad.m[y]| <= |labels[y]|
    decreases n
  {
    if n > 0 {
      GroupAllOk(ad, labels, n - 1);
      NewPeriod(ad, n);
    }
  }

  /** The periods that get groups are exactly those with authors, and each
      is grouped as `GroupPeriod` says. */
  lemma {:induction false} GroupAllGroups(ad: Dict<int, seq<string>>, labels: map<int, seq<int>>, n: nat)
    requires ad.Valid() && n <= |ad.keys|
    requires GroupAll(ad, labels, n).Ok?
    ensures forall y :: y in GroupAll(ad, labels, n).value.m <==> y in ad.keys[..n] && |ad.m[y]| > 0
    ensures forall y :: y in GroupAll(ad, labels, n).value.m ==>
      y in labels && |ad.m[y]| <= |labels[y]| && GroupAll(ad, labels, n).value.m[y] == GroupPeriod(ad.m[y], labels[y]).value
    decreases n
  {
    if n > 0 {
      GroupAllGroups(ad, labels, n - 1);
      NewPeriod(ad, n);
    }
  }

  /** One more period, once the earlier ones are grouped. */
  lemma GroupAllStep(ad: Dict<int, seq<string>>, labels: map<int, seq<int>>, n: nat,
                              ret: Dict<int, Dict<int, seq<string>>>)
    requires ad.Valid() && n < |ad.keys|
    requires GroupAll(ad, labels, n) == Ok(ret)
    ensures var y := ad.keys[n];
      && y in ad.m
      && GroupAll(ad, labels, n + 1) ==
           if |ad.m[y]| == 0 then Ok(ret)
           else if y !in labels then Err(KeyError)
           else if |ad.m[y]| > |labels[y]| then Err(IndexError)
           else Ok(Put(ret, y, GroupPeriod(ad.m[y], labels[y]).value))
  {
    assert ad.keys[n] in ad.m;
  }

  /** A failure in an early period is the failure of the whole loop. */
  lemma {:induction false} GroupAllErrLater(ad: Dict<int, seq<string>>, labels: map<int, seq<int>>, i: nat, n: nat)
    requires ad.Valid() && i <= n <= |ad.keys|
    requires GroupAll(ad, labels, i).Err?
    ensures GroupAll(ad, labels, n) == GroupAll(ad, labels, i)
    decreases n - i
  {
    if n > i {
      GroupAllErrLater(ad, labels, i, n - 1);
    }
  }

  /** One iteration of the period loop of `group_authors`. */
  method GroupNextPeriod(ad: Dict<int, seq<string>>, labels: map<int, seq<int>>, i: nat,
                                     ret: Dict<int, Dict<int, seq<string>>>)
    returns (r: Result<Dict<int, Dict<int, seq<string>>>>)
    requires ad.Valid() && i < |ad.keys|
    requires GroupAll(ad, labels, i) == Ok(ret)
    ensures r == GroupAll(ad, labels, i + 1)
  {
    var y := ad.keys[i];
    GroupAllStep(ad, labels, i, ret);
    var authorGroup := ad.m[y];
    if |authorGroup| == 0 {
      return Ok(ret);
    }
    if y !in labels {
      return Err(KeyError);
    }
    var g := GroupPeriodLoop(authorGroup, labels[y]);
    if g.Err? {
      return Err(g.error);
    }
    r := Ok(Put(ret, y, g.value));
  }

  /** The period loop of `group_authors`. */
  method GroupAllLoop(ad: Dict<int, seq<string>>, labels: map<int, seq<int>>)
    returns (r: Result<Dict<int, Dict<int, seq<string>>>>)
    requires ad.Valid()
    ensures r == GroupAll(ad, labels, |ad.keys|)
  {
    var ret: Dict<int, Dict<int, seq<string>>> := Empty();
    var i := 0;
    assert GroupAll(ad, labels, 0) == Ok(ret);
    while i < |ad.keys|
      invariant 0 <= i <= |ad.keys|
      invariant GroupAll(ad, labels, i) == Ok(ret)
    {
      var next := GroupNextPeriod(ad, labels, i, ret);
      if next.Err? {
        GroupAllErrLater(ad, labels, i + 1, |ad.keys|);
        assert GroupAll(ad, labels, |ad.keys|) == next;
        return next;
      }
      ret := next.value;
      i := i + 1;
    }
    r := Ok(ret);
  }

  /** One pass of the author loop: the author joins the group of its
      label, or opens it. */
  lemma GroupPeriodNext(seen: seq<string>, a: string, labels: seq<int>, g: Dict<int, seq<string>>)
    requires |seen| < |labels| && GroupPeriod(seen, labels) == Ok(g)
    ensures var t := labels[|seen|] + 1;
      GroupPeriod(seen + [a], labels) == Ok(Put(g, t, (if t in g.m then g.m[t] else []) + [a]))
  {
    var s := seen + [a];
    assert s[..|s| - 1] == seen && s[|s| - 1] == a;
  }

  /** The body of the author loop: the `try` appends to the author's group,
      and the `except KeyError` opens it. */
  method AddToGroup(g: Dict<int, seq<string>>, tag: int, a: string) returns (h: Dict<int, seq<string>>)
    requires g.Valid()
    ensures h == Put(g, tag, (if tag in g.m then g.m[tag] else []) + [a])
  {
    if tag in g.m {
      h := Put(g, tag, g.m[tag] + [a]);
    } else {
      assert [] + [a] == [a];
      h := Put(g, tag, [a]);
    }
  }

  /** The author loop of `group_authors` for one period: the `try` appends
      to an existing group and the `except KeyError` opens a new one. */
  method GroupPeriodLoop(authors: seq<string>, labels: seq<int>) returns (r: Result<Dict<int, seq<string>>>)
    ensures r == GroupPeriod(authors, labels)
  {
    var g: Dict<int, seq<string>> := Empty();
    var i := 0;
    while i < |authors|
      invariant 0 <= i <= |authors|
      invariant GroupPeriod(authors[..i], labels) == Ok(g) && g.Valid()
    {
      if i >= |labels| {
        assert |authors| > |labels|;
        return Err(IndexError);
      }
      assert authors[..i + 1] == authors[..i] + [authors[i]];
      GroupPeriodNext(authors[..i], authors[i], labels, g);
      g := AddToGroup(g, labels[i] + 1, authors[i]);
      i := i + 1;
    }
    assert authors[..i] == authors;
    r := Ok(g);
  }

  function IntLe(a: int, b: int): bool { a <= b }

  lemma IntLeTotal()
    ensures TotalPreorder(IntLe)
  {
  }

  /** One period as `write_cluster_groups` writes it: the period, then
      every cluster id with its authors. */
  datatype PeriodGroups = PeriodGroups(period: int, clusters: seq<(int, seq<string>)>)

  /** The clusters of one period in the written order: ascending id. */
  function ClusterLines(g: Dict<int, seq<string>>): (r: seq<(int, seq<string>)>)
    requires g.Valid()
    ensures |r| == |g.keys|
    ensures forall i :: 0 <= i < |r| ==> r[i].0 in g.m && r[i].1 == g.m[r[i].0]
  {
    var ids := Sort(g.keys, IntLe);
    SortedIdsIn(g);
    seq(|ids|, i requires 0 <= i < |ids| => (ids[i], g.m[ids[i]]))
  }

  lemma SortedIdsIn(g: Dict<int, seq<string>>)
    requires g.Valid()
    ensures forall i :: 0 <= i < |Sort(g.keys, IntLe)| ==> Sort(g.keys, IntLe)[i] in g.m
  {
    var ids := Sort(g.keys, IntLe);
    forall i | 0 <= i < |ids| ensures ids[i] in g.m {
      assert ids[i] in multiset(ids);
      assert ids[i] in g.keys;
    }
  }

  /** The cluster ids are written in ascending order, each id once. */
  lemma ClusterOrder(g: Dict<int, seq<string>>)
    requires g.Valid()
    ensures var r := ClusterLines(g);
      && (forall i, j :: 0 <= i < j < |r| ==> r[i].0 <= r[j].0)
      && multiset(seq(|r|, i requires 0 <= i < |r| => r[i].0)) == multiset(g.keys)
  {
    var ids := Sort(g.keys, IntLe);
    IntLeTotal();
    SortSorted(g.keys, IntLe);
    var r := ClusterLines(g);
    assert seq(|r|, i requires 0 <= i < |r| => r[i].0) == ids;
  }

  /** One period's block of the output. */
  function PeriodBlock(grouped: Dict<int, Dict<int, seq<string>>>, y: int): (r: PeriodGroups)
    requires y in grouped.m && grouped.m[y].Valid()
    ensures r.period == y && r.clusters == ClusterLines(grouped.m[y])
  {
    PeriodGroups(y, ClusterLines(grouped.m[y]))
  }

  function Written(grouped: Dict<int, Dict<int, seq<string>>>): (r: seq<PeriodGroups>)
    requires grouped.Valid() && forall y :: y in grouped.m ==> grouped.m[y].Valid()
    ensures |r| == |grouped.keys|
    ensures forall i :: 0 <= i < |r| ==> r[i].period == grouped.keys[i] && r[i].clusters == ClusterLines(grouped.m[grouped.keys[i]])
  {
    KeysIn(grouped);
    seq(|grouped.keys|, i requires 0 <= i < |grouped.keys| => PeriodBlock(grouped, grouped.keys[i]))
  }

  /** `ClusterResults(l, t, a, o, k)`: cluster labels per period and the
      authors of each period. */
  class ClusterResults {
    const labels: map<int, seq<int>>
    const authorsDict: Dict<int, seq<string>>
    var authorsGrouped: Option<Dict<int, Dict<int, seq<string>>>>

    ghost predicate Valid()
      reads this
    {
      && authorsDict.Valid()
      && (authorsGrouped.Some? ==>
            authorsGrouped.value.Valid() && forall y :: y in authorsGrouped.value.m ==> authorsGrouped.value.m[y].Valid())
    }

    constructor(labels: map<int, seq<int>>, authorsDict: Dict<int, seq<string>>)
      requires authorsDict.Valid()
      ensures Valid()
      ensures this.labels == labels && this.authorsDict == authorsDict && authorsGrouped == None
    {
      this.labels := labels;
      this.authorsDict := authorsDict;
      authorsGrouped := None;
    }

    /** `group_authors()`: the grouping is stored only when it succeeds. */
    method GroupAuthors() returns (r: Result<()>)
      requires Valid()
      modifies this
      ensures Valid()
      ensures var g := GroupAll(authorsDict, labels, |authorsDict.keys|);
        && (g.Ok? ==> r.Ok? && authorsGrouped == Some(g.value))
        && (g.Err? ==> r == Err(g.error) && authorsGrouped == old(authorsGrouped))
    {
      var g := GroupAllLoop(authorsDict, labels);
      if g.Err? {
        return Err(g.error);
      }
      GroupAllGroups(authorsDict, labels, |authorsDict.keys|);
      forall y | y in g.value.m ensures g.value.m[y].Valid() {
      }
      authorsGrouped := Some(g.value);
      r := Ok(());
    }

    /** `write_cluster_groups(out_path)`: groups first only when no grouping
        is stored, then writes every period in order with its clusters by
        ascending id. */
    method WriteClusterGroups() returns (r: Result<seq<PeriodGroups>>)
      requires Valid()
      modifies this
      ensures Valid()
      ensures old(authorsGrouped).Some? ==> authorsGrouped == old(authorsGrouped)
      ensures old(authorsGrouped).None? ==>
        var g := GroupAll(authorsDict, labels, |authorsDict.keys|);
        && (g.Ok? ==> authorsGrouped == Some(g.value))
        && (g.Err? ==> r == Err(g.error))
      ensures r.Ok? ==> authorsGrouped.Some? && r.value == Written(authorsGrouped.value)
    {
      if authorsGrouped.None? {
        var done := GroupAuthors();
        if done.Err? {
          return Err(done.error);
        }
      }
      r := Ok(Written(authorsGrouped.value));
    }
  }
}
