// The frequency graph of corpus/graph/__init__.py and src/graph/__init__.py:
// the checks run over a list of frequency results, the per-keyword series
// built for plotting, the scale of the y axis and the period labels. The two
// files share every member modelled here except the colour check.

module Graph {
  import opened Wrappers
  import opened PyStr
  import opened PyList
  import opened PyDict
  import opened Records

  /** One plotted corpus: its keyword series, one value per period. */
  type Table = Dict<Key, seq<real>>

  /** An entry of the `corpora` list: a results object held in memory, or a
      results JSON file as decoded, where each field the graph reads may be
      missing. `d` maps each period to its keyword table; `n` lists the
      values of the per-period document counts, in order. */
  datatype Input =
    | Live(name: string, fType: string, years: seq<int>, d: map<int, Dict<Key, real>>, n: seq<nat>)
    | Stored(jName: Option<string>, jType: Option<string>, jYears: Option<seq<int>>,
             jD: Option<map<string, Dict<Key, real>>>, jN: Option<seq<nat>>)

  /** `jsondata[field]`: a missing field raises a `KeyError`. */
  function Field<T>(o: Option<T>): (r: Result<T>)
    ensures r.Ok? <==> o.Some?
    ensures r.Ok? ==> r.value == o.value
    ensures r.Err? ==> r.error == KeyError
  {
    if o.Some? then Ok(o.value) else Err(KeyError)
  }

  function NameOf(c: Input): (r: Result<string>)
    ensures r.Err? ==> r.error == KeyError
  {
    if c.Live? then Ok(c.name) else Field(c.jName)
  }

  function TypeOf(c: Input): (r: Result<string>)
    ensures r.Err? ==> r.error == KeyError
  {
    if c.Live? then Ok(c.fType) else Field(c.jType)
  }

  function YearsOf(c: Input): (r: Result<seq<int>>)
    ensures r.Err? ==> r.error == KeyError
  {
    if c.Live? then Ok(c.years) else Field(c.jYears)
  }

  function Names(cs: seq<Input>): (r: seq<Result<string>>)
    ensures |r| == |cs| && forall i :: 0 <= i < |cs| ==> r[i] == NameOf(cs[i])
  {
    seq(|cs|, i requires 0 <= i < |cs| => NameOf(cs[i]))
  }

  function Types(cs: seq<Input>): (r: seq<Result<string>>)
    ensures |r| == |cs| && forall i :: 0 <= i < |cs| ==> r[i] == TypeOf(cs[i])
  {
    seq(|cs|, i requires 0 <= i < |cs| => TypeOf(cs[i]))
  }

  function YearLists(cs: seq<Input>): (r: seq<Result<seq<int>>>)
    ensures |r| == |cs| && forall i :: 0 <= i < |cs| ==> r[i] == YearsOf(cs[i])
  {
    seq(|cs|, i requires 0 <= i < |cs| => YearsOf(cs[i]))
  }

  predicate AllOk<T>(rs: seq<Result<T>>) {
    forall i :: 0 <= i < |rs| ==> rs[i].Ok?
  }

  /** The values of a run of successful lookups. */
  function Values<T>(rs: seq<Result<T>>): (r: seq<T>)
    requires AllOk(rs)
    ensures |r| == |rs| && forall i :: 0 <= i < |rs| ==> r[i] == rs[i].value
  {
    if rs == [] then [] else [rs[0].value] + Values(rs[1..])
  }

  /** `check_names`: collect every name into a set, then assert that the set
      is as large as the list. */
  function CheckNamesOf(rs: seq<Result<string>>): Result<()>
  {
    if !AllOk(rs) then Err(KeyError)
    else if |set x | x in Values(rs)| == |rs| then Ok(())
    else Err(AssertionFailed)
  }

  /** The size test of `check_names` is a test for pairwise-distinct names. */
  lemma CheckNamesDistinct(rs: seq<Result<string>>)
    ensures CheckNamesOf(rs).Ok? <==>
      AllOk(rs) && forall i, j :: 0 <= i < j < |rs| ==> rs[i].value != rs[j].value
    ensures CheckNamesOf(rs).Err? ==>
      CheckNamesOf(rs).error == (if AllOk(rs) then AssertionFailed else KeyError)
  {
    if AllOk(rs) {
      DistinctCount(Values(rs));
    }
  }

  /** The set-building loops of `results_type` and `check_year_lists`: every
      value is read (the first failed read is raised), then one member of the
      set is popped; popping from the empty set raises a `KeyError`. */
  method PickOne<T(==)>(rs: seq<Result<T>>) returns (r: Result<T>)
    ensures r.Ok? <==> rs != [] && AllOk(rs)
    ensures r.Ok? ==> exists i :: 0 <= i < |rs| && rs[i] == r
    ensures r.Ok? && (forall i :: 0 <= i < |rs| ==> rs[i] == rs[0]) ==> r == rs[0]
    ensures r.Err? ==> r.error == KeyError || exists i :: 0 <= i < |rs| && rs[i] == r
  {
    var seen: set<T> := {};
    for i := 0 to |rs|
      invariant forall j :: 0 <= j < i ==> rs[j].Ok?
      invariant seen == set j | 0 <= j < i && rs[j].Ok? :: rs[j].value
    {
      if rs[i].Err? {
        return rs[i];
      }
      seen := seen + {rs[i].value};
    }
    if rs == [] {
      return Err(KeyError);
    }
    assert rs[0].value in seen;
    var v :| v in seen;
    r := Ok(v);
  }

  /** `d[ys[i]][k]` for every period: the series of one keyword. */
  function Column<Y(==)>(ys: seq<Y>, k: Key, d: map<Y, Dict<Key, real>>): (r: Result<seq<real>>)
    ensures r.Ok? <==> forall i :: 0 <= i < |ys| ==> ys[i] in d && k in d[ys[i]].m
    ensures r.Err? ==> r.error == KeyError
    ensures r.Ok? ==> |r.value| == |ys| && forall i :: 0 <= i < |ys| ==> r.value[i] == d[ys[i]].m[k]
  {
    if ys == [] then Ok([])
    else if ys[0] !in d || k !in d[ys[0]].m then Err(KeyError)
    else
      var rest :- Column(ys[1..], k, d);
      Ok([d[ys[0]].m[k]] + rest)
  }

  /** The periods as JSON object keys: `str(year)`. */
  function Strs(yl: seq<int>): (r: seq<string>)
    ensures |r| == |yl| && forall i :: 0 <= i < |yl| ==> r[i] == IntToStr(yl[i])
  {
    seq(|yl|, i requires 0 <= i < |yl| => IntToStr(yl[i]))
  }

  /** A results table written out with `str(year)` keys gives the same series
      as the table it was written from. */
  lemma StoredColumn(yl: seq<int>, k: Key, d: map<int, Dict<Key, real>>, sd: map<string, Dict<Key, real>>)
    requires forall y :: y in d <==> IntToStr(y) in sd
    requires forall y :: y in d ==> sd[IntToStr(y)] == d[y]
    ensures Column(Strs(yl), k, sd) == Column(yl, k, d)
  {
    var ss := Strs(yl);
    var a := Column(ss, k, sd);
    var b := Column(yl, k, d);
    assert a.Ok? <==> b.Ok? by {
      assert (forall i :: 0 <= i < |ss| ==> ss[i] in sd && k in sd[ss[i]].m) <==>
             (forall i :: 0 <= i < |yl| ==> yl[i] in d && k in d[yl[i]].m);
    }
    if a.Ok? {
      assert a.value == b.value;
    }
  }

  /** The inner loop of `build_graph_dict`: one series per key, each stored
      with `graph_dict[name][k] = ...`. */
  function ColumnsFrom<Y(==)>(acc: Table, ks: seq<Key>, ys: seq<Y>, d: map<Y, Dict<Key, real>>): (r: Result<Table>)
    requires acc.Valid()
    ensures r.Ok? <==> forall i :: 0 <= i < |ks| ==> Column(ys, ks[i], d).Ok?
    ensures r.Err? ==> r.error == KeyError
    ensures r.Ok? ==> r.value.Valid()
    ensures r.Ok? ==> forall k :: k in r.value.m <==> k in acc.m || k in ks
    ensures r.Ok? ==> forall k :: k in ks ==> Column(ys, k, d) == Ok(r.value.m[k])
    ensures r.Ok? ==> forall k :: k in acc.m && k !in ks ==> r.value.m[k] == acc.m[k]
    decreases |ks|
  {
    if ks == [] then Ok(acc)
    else
      var col :- Column(ys, ks[0], d);
      var grown := Put(acc, ks[0], col);
      var r := ColumnsFrom(grown, ks[1..], ys, d);
      assert forall k :: k in ks <==> k == ks[0] || k in ks[1..];
      assert forall i :: 1 <= i < |ks| ==> ks[i] == ks[1..][i - 1];
      assert grown.m == acc.m[ks[0] := col];
      r
  }

  /** One corpus's contribution to `build_graph_dict`: its name and its
      table. The keys are those of the table for the first period; a results
      file stores its periods under `str(year)`. */
  function CorpusGraph(c: Input, yl: seq<int>): (r: Result<(string, Table)>)
    ensures r.Ok? ==> r.value.1.Valid()
    ensures r.Ok? ==> forall k :: k in r.value.1.m ==> |r.value.1.m[k]| == |yl|
    ensures yl == [] ==> r.Err?
  {
    match c
    case Live(name, _, _, d, _) =>
      if yl == [] then Err(IndexError)
      else if yl[0] !in d then Err(KeyError)
      else
        var t :- ColumnsFrom(Empty(), d[yl[0]].keys, yl, d);
        Ok((name, t))
    case Stored(jName, _, _, jD, _) =>
      var d :- Field(jD);
      if yl == [] then Err(IndexError)
      else if IntToStr(yl[0]) !in d then Err(KeyError)
      else
        var name :- Field(jName);
        var t :- ColumnsFrom(Empty(), d[IntToStr(yl[0])].keys, Strs(yl), d);
        Ok((name, t))
  }

  function GraphEntries(cs: seq<Input>, yl: seq<int>): (r: seq<Result<(string, Table)>>)
    ensures |r| == |cs| && forall i :: 0 <= i < |cs| ==> r[i] == CorpusGraph(cs[i], yl)
  {
    seq(|cs|, i requires 0 <= i < |cs| => CorpusGraph(cs[i], yl))
  }

  /** `num_docs[name] = values` for one corpus: a results file's `n` is read
      before its name. */
  function NumDocsEntry(c: Input): (r: Result<(string, seq<nat>)>)
    ensures r.Ok? ==> NameOf(c) == Ok(r.value.0)
    ensures r.Ok? <==> NameOf(c).Ok? && (c.Stored? ==> c.jN.Some?)
    ensures r.Err? ==> r.error == KeyError
  {
    match c
    case Live(name, _, _, _, n) => Ok((name, n))
    case Stored(jName, _, _, _, jN) =>
      var n :- Field(jN);
      var name :- Field(jName);
      Ok((name, n))
  }

  function NumDocsEntries(cs: seq<Input>): (r: seq<Result<(string, seq<nat>)>>)
    ensures |r| == |cs| && forall i :: 0 <= i < |cs| ==> r[i] == NumDocsEntry(cs[i])
  {
    seq(|cs|, i requires 0 <= i < |cs| => NumDocsEntry(cs[i]))
  }

  /** A loop of `d[name] = value` over per-corpus entries, stopping at the
      first entry that raises. */
  function Collect<V>(acc: Dict<string, V>, es: seq<Result<(string, V)>>): (r: Result<Dict<string, V>>)
    requires acc.Valid()
    ensures r.Ok? <==> AllOk(es)
    ensures r.Ok? ==> r.value.Valid()
    ensures r.Err? ==> exists i :: 0 <= i < |es| && es[i] == Err(r.error)
    decreases |es|
  {
    if es == [] then Ok(acc)
    else
      var e :- es[0];
      var r := Collect(Put(acc, e.0, e.1), es[1..]);
      assert r.Err? ==> exists i :: 1 <= i < |es| && es[i] == Err(r.error) by {
        if r.Err? {
          var i :| 0 <= i < |es[1..]| && es[1..][i] == Err(r.error);
          assert es[i + 1] == Err(r.error);
        }
      }
      r
  }

  /** Every name gets an entry, the entries already there stay, and a name
      that no later corpus reuses keeps exactly its own value. */
  lemma {:induction false} CollectEntries<V>(acc: Dict<string, V>, es: seq<Result<(string, V)>>, i: nat)
    requires acc.Valid() && Collect(acc, es).Ok?
    requires i < |es|
    ensures es[i].Ok? && es[i].value.0 in Collect(acc, es).value.m
    ensures (forall j :: i < j < |es| ==> es[j].Ok? && es[j].value.0 != es[i].value.0) ==>
      Collect(acc, es).value.m[es[i].value.0] == es[i].value.1
    decreases |es|
  {
    var next := Put(acc, es[0].value.0, es[0].value.1);
    assert Collect(acc, es) == Collect(next, es[1..]);
    if i == 0 {
      CollectKeeps(next, es[1..], es[0].value.0);
      if forall j :: 0 < j < |es| ==> es[j].Ok? && es[j].value.0 != es[0].value.0 {
        forall j | 0 <= j < |es[1..]| ensures es[1..][j].Ok? && es[1..][j].value.0 != es[0].value.0 {
          assert es[1..][j] == es[j + 1];
        }
      }
    } else {
      CollectEntries(next, es[1..], i - 1);
      assert es[1..][i - 1] == es[i];
      if forall j :: i < j < |es| ==> es[j].Ok? && es[j].value.0 != es[i].value.0 {
        forall j | i - 1 < j < |es[1..]| ensures es[1..][j].Ok? && es[1..][j].value.0 != es[i].value.0 {
          assert es[1..][j] == es[j + 1];
        }
      }
    }
  }

  /** A key already present stays present, and keeps its value while no
      entry names it. */
  lemma {:induction false} CollectKeeps<V>(acc: Dict<string, V>, es: seq<Result<(string, V)>>, k: string)
    requires acc.Valid() && Collect(acc, es).Ok? && k in acc.m
    ensures k in Collect(acc, es).value.m
    ensures (forall j :: 0 <= j < |es| ==> es[j].Ok? && es[j].value.0 != k) ==>
      Collect(acc, es).value.m[k] == acc.m[k]
    decreases |es|
  {
    if es != [] {
      var next := Put(acc, es[0].value.0, es[0].value.1);
      assert Collect(acc, es) == Collect(next, es[1..]);
      CollectKeeps(next, es[1..], k);
      if forall j :: 0 <= j < |es| ==> es[j].Ok? && es[j].value.0 != k {
        assert forall j :: 0 <= j < |es[1..]| ==> es[1..][j] == es[j + 1];
      }
    }
  }

  /** Every series of every corpus is as long as the period list. */
  ghost predicate Rect(gd: Dict<string, Table>, n: nat) {
    forall c, k :: c in gd.m && k in gd.m[c].m ==> |gd.m[c].m[k]| == n
  }

  /** Every table is a well-formed dictionary. */
  ghost predicate TablesValid(gd: Dict<string, Table>) {
    forall c :: c in gd.m ==> gd.m[c].Valid()
  }

  /** `build_graph_dict` keeps the graph rectangular: one value per period in
      every series. */
  lemma {:induction false} GraphRect(gd: Dict<string, Table>, cs: seq<Input>, yl: seq<int>)
    requires gd.Valid() && Rect(gd, |yl|) && TablesValid(gd)
    requires Collect(gd, GraphEntries(cs, yl)).Ok?
    ensures Rect(Collect(gd, GraphEntries(cs, yl)).value, |yl|)
    ensures TablesValid(Collect(gd, GraphEntries(cs, yl)).value)
    decreases |cs|
  {
    var es := GraphEntries(cs, yl);
    if cs != [] {
      var e := es[0].value;
      var next := Put(gd, e.0, e.1);
      assert Collect(gd, es) == Collect(next, es[1..]);
      assert es[1..] == GraphEntries(cs[1..], yl);
      GraphRect(next, cs[1..], yl);
    }
  }

  /** `g_max` as `find_max` leaves it: each value above the current maximum
      replaces it, scaled by 1.1. */
  function Raise(g: real, vs: seq<real>): real
    decreases |vs|
  {
    if vs == [] then g else Raise(if vs[0] > g then vs[0] * 1.1 else g, vs[1..])
  }

  lemma {:induction false} RaiseAppend(g: real, a: seq<real>, b: seq<real>)
    ensures Raise(g, a + b) == Raise(Raise(g, a), b)
    decreases |a|
  {
    if a == [] {
      assert a + b == b;
    } else {
      var h := if a[0] > g then a[0] * 1.1 else g;
      assert (a + b)[0] == a[0] && (a + b)[1..] == a[1..] + b;
      assert Raise(g, a + b) == Raise(h, a[1..] + b);
      RaiseAppend(h, a[1..], b);
    }
  }

  /** From a maximum that is not negative, `g_max` never decreases. */
  lemma {:induction false} RaiseGrows(g: real, vs: seq<real>)
    requires g >= 0.0
    ensures g <= Raise(g, vs)
    decreases |vs|
  {
    if vs != [] {
      RaiseGrows(if vs[0] > g then vs[0] * 1.1 else g, vs[1..]);
    }
  }

  /** From a maximum that is not negative, every value scanned ends up at or
      below `g_max`. */
  lemma {:induction false} RaiseBounds(g: real, vs: seq<real>)
    requires g >= 0.0
    ensures forall v :: v in vs ==> v <= Raise(g, vs)
    decreases |vs|
  {
    if vs != [] {
      var h := if vs[0] > g then vs[0] * 1.1 else g;
      RaiseBounds(h, vs[1..]);
      RaiseGrows(h, vs[1..]);
      assert vs[0] <= h;
      assert forall v :: v in vs ==> v == vs[0] || v in vs[1..];
    }
  }

  /** A maximum that already bounds every value is left as it is. */
  lemma {:induction false} RaiseStable(g: real, vs: seq<real>)
    requires forall v :: v in vs ==> v <= g
    ensures Raise(g, vs) == g
    decreases |vs|
  {
    if vs != [] {
      assert vs[0] in vs && forall v :: v in vs[1..] ==> v in vs;
      RaiseStable(g, vs[1..]);
    }
  }

  /** Running `find_max` a second time changes nothing. */
  lemma RaiseIdempotent(g: real, vs: seq<real>)
    requires g >= 0.0
    ensures Raise(Raise(g, vs), vs) == Raise(g, vs)
  {
    RaiseBounds(g, vs);
    RaiseStable(Raise(g, vs), vs);
  }

  /** The values of a table's series, key by key, in the table's key order. */
  function TableValues(t: Table, ks: seq<Key>): seq<real>
  {
    if ks == [] then [] else (if ks[0] in t.m then t.m[ks[0]] else []) + TableValues(t, ks[1..])
  }

  function TableOf(gd: Dict<string, Table>, c: string): Table
  {
    if c in gd.m then gd.m[c] else Empty()
  }

  /** Every value of the graph, corpus by corpus, as `find_max` visits them. */
  function GraphValuesOf(gd: Dict<string, Table>, names: seq<string>): seq<real>
  {
    if names == [] then []
    else
      var t := TableOf(gd, names[0]);
      TableValues(t, t.keys) + GraphValuesOf(gd, names[1..])
  }

  function GraphValues(gd: Dict<string, Table>): seq<real>
  {
    GraphValuesOf(gd, gd.keys)
  }

  lemma {:induction false} TableValuesHas(t: Table, ks: seq<Key>, k: Key, i: nat)
    requires k in ks && k in t.m && i < |t.m[k]|
    ensures t.m[k][i] in TableValues(t, ks)
  {
    if ks[0] != k {
      assert k in ks[1..];
      TableValuesHas(t, ks[1..], k, i);
    }
  }

  lemma {:induction false} GraphValuesHas(gd: Dict<string, Table>, names: seq<string>, c: string, k: Key, i: nat)
    requires c in names && c in gd.m && k in gd.m[c].keys && k in gd.m[c].m && i < |gd.m[c].m[k]|
    ensures gd.m[c].m[k][i] in GraphValuesOf(gd, names)
  {
    if names[0] != c {
      GraphValuesHas(gd, names[1..], c, k, i);
    } else {
      TableValuesHas(gd.m[c], gd.m[c].keys, k, i);
    }
  }

  /** After `find_max`, every plotted value is at or below `g_max`. */
  lemma FindMaxBounds(g: real, gd: Dict<string, Table>, c: string, k: Key, i: nat)
    requires g >= 0.0 && gd.Valid() && c in gd.m && gd.m[c].Valid()
    requires k in gd.m[c].m && i < |gd.m[c].m[k]|
    ensures gd.m[c].m[k][i] <= Raise(g, GraphValues(gd))
  {
    GraphValuesHas(gd, gd.keys, c, k, i);
    RaiseBounds(g, GraphValues(gd));
  }

  /** The innermost loop of `find_max`, over one series. */
  method RaiseList(g: real, vs: seq<real>) returns (h: real)
    ensures h == Raise(g, vs)
  {
    h := g;
    for i := 0 to |vs|
      invariant Raise(h, vs[i..]) == Raise(g, vs)
    {
      assert vs[i..][1..] == vs[i + 1..];
      if vs[i] > h {
        h := vs[i] * 1.1;
      }
    }
    assert vs[|vs|..] == [];
  }

  /** The middle loop of `find_max`, over the series of one corpus. */
  method RaiseTable(g: real, t: Table) returns (h: real)
    ensures h == Raise(g, TableValues(t, t.keys))
  {
    h := g;
    var rest := t.keys;
    while rest != []
      invariant Raise(h, TableValues(t, rest)) == Raise(g, TableValues(t, t.keys))
      decreases |rest|
    {
      var col := if rest[0] in t.m then t.m[rest[0]] else [];
      RaiseAppend(h, col, TableValues(t, rest[1..]));
      h := RaiseList(h, col);
      rest := rest[1..];
    }
  }

  /** The outer loop of `find_max`, over the corpora. */
  method RaiseGraph(g: real, gd: Dict<string, Table>) returns (h: real)
    ensures h == Raise(g, GraphValues(gd))
  {
    h := g;
    var rest := gd.keys;
    while rest != []
      invariant Raise(h, GraphValuesOf(gd, rest)) == Raise(g, GraphValues(gd))
      decreases |rest|
    {
      var t := TableOf(gd, rest[0]);
      RaiseAppend(h, TableValues(t, t.keys), GraphValuesOf(gd, rest[1..]));
      h := RaiseTable(h, t);
      rest := rest[1..];
    }
  }

  /** A period label: `"{start}-{end}"`. */
  function Label(a: int, b: int): string
  {
    IntToStr(a) + "-" + IntToStr(b)
  }

  /** The label of two periods that are not negative splits at its `'-'` back
      into the two years. */
  lemma LabelYears(a: nat, b: nat)
    ensures var p := Split(Label(a, b), '-');
      |p| == 2 && ParseInt(p[0]) == Some(a) && ParseInt(p[1]) == Some(b)
  {
    var x, y := NatToStr(a), NatToStr(b);
    assert '-' !in x && '-' !in y by {
      assert forall i :: 0 <= i < |x| ==> IsDigit(x[i]);
      assert forall i :: 0 <= i < |y| ==> IsDigit(y[i]);
    }
    assert Label(a, b) == x + ['-'] + y;
    SplitPair(x, y, '-');
    ParseIntNonNegative(a);
    ParseIntNonNegative(b);
  }

  class GraphFrequency {
    const corpora: seq<Input>
    const title: string
    const colors: Option<seq<string>>
    var graphDict: Dict<string, Table>
    var numDocs: Dict<string, seq<nat>>
    var yearList: seq<int>
    var gMax: real

    ghost predicate Valid()
      reads this
    {
      graphDict.Valid() && TablesValid(graphDict) && numDocs.Valid() && gMax >= 0.0
    }

    constructor(corpora: seq<Input>, title: string := "Frequency Graph", colors: Option<seq<string>> := None)
      ensures Valid()
      ensures this.corpora == corpora && this.title == title && this.colors == colors
      ensures graphDict == Empty() && numDocs == Empty() && yearList == [] && gMax == 0.0
    {
      this.corpora := corpora;
      this.title := title;
      this.colors := colors;
      graphDict := Empty();
      numDocs := Empty();
      yearList := [];
      gMax := 0.0;
    }

    /** `check_names`. */
    method CheckNames() returns (r: Result<()>)
      ensures r == CheckNamesOf(Names(corpora))
    {
      var rs := Names(corpora);
      var names: set<string> := {};
      for i := 0 to |rs|
        invariant forall j :: 0 <= j < i ==> rs[j].Ok?
        invariant names == set j | 0 <= j < i && rs[j].Ok? :: rs[j].value
      {
        if rs[i].Err? {
          return Err(rs[i].error);
        }
        names := names + {rs[i].value};
      }
      assert names == set x | x in Values(rs) by {
        var vs := Values(rs);
        forall x | x in vs ensures x in names {
          var j :| 0 <= j < |vs| && vs[j] == x;
          assert rs[j].value == x;
        }
      }
      if |names| == |rs| {
        r := Ok(());
      } else {
        r := Err(AssertionFailed);
      }
    }

    /** `check_colors` of corpus/graph: the length check is disabled. */
    method CheckColors() returns (r: Result<()>)
      ensures r == Ok(())
    {
      r := Ok(());
    }

    /** `check_colors` of src/graph: given colours must be one per corpus. */
    method CheckColorsStrict() returns (r: Result<()>)
      ensures r.Ok? <==> colors.None? || |colors.value| == |corpora|
      ensures r.Err? ==> r.error == AssertionFailed
    {
      if colors.Some? && |colors.value| != |corpora| {
        r := Err(AssertionFailed);
      } else {
        r := Ok(());
      }
    }

    /** `results_type`: one of the frequency types of the corpora, which is
        the common one when they agree; a mismatch only warns. */
    method ResultsType() returns (r: Result<string>)
      ensures r.Ok? <==> corpora != [] && AllOk(Types(corpora))
      ensures r.Ok? ==> exists i :: 0 <= i < |corpora| && TypeOf(corpora[i]) == r
      ensures r.Ok? && (forall i :: 0 <= i < |corpora| ==> TypeOf(corpora[i]) == TypeOf(corpora[0])) ==>
        r == TypeOf(corpora[0])
      ensures r.Err? ==> r.error == KeyError
    {
      var rs := Types(corpora);
      r := PickOne(rs);
    }

    /** `check_year_lists`: adopt one of the corpora's year lists, which is
        the common one when they agree; a mismatch only warns. */
    method CheckYearLists() returns (r: Result<()>)
      modifies this
      ensures r.Ok? <==> corpora != [] && AllOk(YearLists(corpora))
      ensures r.Err? ==> r.error == KeyError && yearList == old(yearList)
      ensures r.Ok? ==> exists i :: 0 <= i < |corpora| && YearsOf(corpora[i]) == Ok(yearList)
      ensures r.Ok? && (forall i :: 0 <= i < |corpora| ==> YearsOf(corpora[i]) == YearsOf(corpora[0])) ==>
        YearsOf(corpora[0]) == Ok(yearList)
      ensures graphDict == old(graphDict) && numDocs == old(numDocs) && gMax == old(gMax)
    {
      var rs := YearLists(corpora);
      var picked := PickOne(rs);
      if picked.Err? {
        return Err(picked.error);
      }
      yearList := picked.value;
      r := Ok(());
    }

    /** `_build_graph_list`: the series of keyword `k` in a results object. */
    method BuildGraphList(k: Key, d: map<int, Dict<Key, real>>) returns (r: Result<seq<real>>)
      ensures r == Column(yearList, k, d)
    {
      r := BuildColumn(yearList, k, d);
    }

    /** `_build_graph_list_from_json`: the same, with `str(year)` keys. */
    method BuildGraphListFromJson(k: Key, d: map<string, Dict<Key, real>>) returns (r: Result<seq<real>>)
      ensures r == Column(Strs(yearList), k, d)
    {
      r := BuildColumn(Strs(yearList), k, d);
    }

    /** The body of `build_graph_dict` for one corpus. */
    method BuildTable(c: Input) returns (r: Result<(string, Table)>)
      ensures r == CorpusGraph(c, yearList)
    {
      match c
      case Live(name, _, _, d, _) =>
        if yearList == [] {
          return Err(IndexError);
        }
        if yearList[0] !in d {
          return Err(KeyError);
        }
        var t := BuildColumns(d[yearList[0]].keys, yearList, d);
        if t.Err? {
          return Err(t.error);
        }
        r := Ok((name, t.value));
      case Stored(jName, _, _, jD, _) =>
        if jD.None? {
          return Err(KeyError);
        }
        var d := jD.value;
        if yearList == [] {
          return Err(IndexError);
        }
        if IntToStr(yearList[0]) !in d {
          return Err(KeyError);
        }
        if jName.None? {
          return Err(KeyError);
        }
        var t := BuildColumns(d[IntToStr(yearList[0])].keys, Strs(yearList), d);
        if t.Err? {
          return Err(t.error);
        }
        r := Ok((jName.value, t.value));
    }

    /** `build_graph_dict`: one table per corpus, stored under its name. */
    method BuildGraphDict() returns (r: Result<()>)
      requires Valid()
      modifies this
      ensures Valid()
      ensures var want := Collect(old(graphDict), GraphEntries(corpora, yearList));
        && (r.Ok? <==> want.Ok?)
        && (r.Ok? ==> graphDict == want.value)
        && (r.Err? ==> r.error == want.error)
      ensures yearList == old(yearList) && numDocs == old(numDocs) && gMax == old(gMax)
    {
      ghost var es := GraphEntries(corpora, yearList);
      var i := 0;
      while i < |corpora|
        invariant 0 <= i <= |corpora| && Valid()
        invariant yearList == old(yearList) && numDocs == old(numDocs) && gMax == old(gMax)
        invariant Collect(graphDict, es[i..]) == Collect(old(graphDict), es)
      {
        var e := BuildTable(corpora[i]);
        assert es[i..][0] == e && es[i..][1..] == es[i + 1..];
        if e.Err? {
          return Err(e.error);
        }
        graphDict := Put(graphDict, e.value.0, e.value.1);
        i := i + 1;
      }
      assert es[i..] == [];
      r := Ok(());
    }

    /** `build_num_docs`: the document counts of each corpus under its name,
        assigned only once every corpus has been read. */
    method BuildNumDocs() returns (r: Result<()>)
      requires Valid()
      modifies this
      ensures Valid()
      ensures var want := Collect(Empty(), NumDocsEntries(corpora));
        && (r.Ok? <==> want.Ok?)
        && (r.Ok? ==> numDocs == want.value)
        && (r.Err? ==> r.error == KeyError && numDocs == old(numDocs))
      ensures yearList == old(yearList) && graphDict == old(graphDict) && gMax == old(gMax)
    {
      ghost var es := NumDocsEntries(corpora);
      var nd: Dict<string, seq<nat>> := Empty();
      for i := 0 to |corpora|
        invariant nd.Valid()
        invariant Collect(nd, es[i..]) == Collect(Empty(), es)
      {
        var e := NumDocsEntry(corpora[i]);
        assert es[i..][0] == e && es[i..][1..] == es[i + 1..];
        if e.Err? {
          return Err(e.error);
        }
        nd := Put(nd, e.value.0, e.value.1);
      }
      assert es[|corpora|..] == [];
      numDocs := nd;
      r := Ok(());
    }

    /** `find_max`. */
    method FindMax()
      requires Valid()
      modifies this
      ensures Valid()
      ensures gMax == Raise(old(gMax), GraphValues(graphDict))
      ensures yearList == old(yearList) && graphDict == old(graphDict) && numDocs == old(numDocs)
    {
      RaiseGrows(gMax, GraphValues(graphDict));
      gMax := RaiseGraph(gMax, graphDict);
    }

    /** `_generate_labels`: one label per pair of consecutive periods. */
    method GenerateLabels() returns (labels: seq<string>)
      ensures |labels| == if yearList == [] then 0 else |yearList| - 1
      ensures forall i :: 0 <= i < |labels| ==> labels[i] == Label(yearList[i], yearList[i + 1])
    {
      labels := [];
      var i := 0;
      while i < |yearList| - 1
        invariant 0 <= i <= (if yearList == [] then 0 else |yearList| - 1) && |labels| == i
        invariant forall j :: 0 <= j < i ==> labels[j] == Label(yearList[j], yearList[j + 1])
      {
        labels := labels + [Label(yearList[i], yearList[i + 1])];
        i := i + 1;
      }
    }
  }

  /** The loop of `_build_graph_list`: a list of `len(ys)` zeros, filled in
      by index. */
  method BuildColumn<Y(==)>(ys: seq<Y>, k: Key, d: map<Y, Dict<Key, real>>) returns (r: Result<seq<real>>)
    ensures r == Column(ys, k, d)
  {
    var a := new real[|ys|](_ => 0.0);
    for i := 0 to |ys|
      invariant forall j :: 0 <= j < i ==> ys[j] in d && k in d[ys[j]].m && a[j] == d[ys[j]].m[k]
    {
      if ys[i] !in d || k !in d[ys[i]].m {
        assert Column(ys, k, d).Err?;
        return Err(KeyError);
      }
      a[i] := d[ys[i]].m[k];
    }
    assert Column(ys, k, d).Ok?;
    assert forall j :: 0 <= j < |ys| ==> a[..][j] == d[ys[j]].m[k];
    assert a[..] == Column(ys, k, d).value;
    r := Ok(a[..]);
  }

  /** The key loop of `build_graph_dict` for one corpus. */
  method BuildColumns<Y(==)>(ks: seq<Key>, ys: seq<Y>, d: map<Y, Dict<Key, real>>) returns (r: Result<Table>)
    ensures r == ColumnsFrom(Empty(), ks, ys, d)
  {
    var t: Table := Empty();
    var rest := ks;
    while rest != []
      invariant t.Valid()
      invariant ColumnsFrom(t, rest, ys, d) == ColumnsFrom(Empty(), ks, ys, d)
      decreases |rest|
    {
      var col := BuildColumn(ys, rest[0], d);
      if col.Err? {
        return Err(col.error);
      }
      t := Put(t, rest[0], col.value);
      rest := rest[1..];
    }
    r := Ok(t);
  }
}
