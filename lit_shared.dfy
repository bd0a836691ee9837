/** What the literature-corpus scripts share: rows as `csv.reader` yields
    them (lists of strings, the empty list for a blank line), the two ways
    they turn rows into lookup data (a list built by appending one entry per
    row, a dict filled key by key where a later row overwrites an earlier
    one), the path of a bundled CSV file, found by dropping the last
    components of the script's directory, and the text files they read
    and the names of the JSON files they write. */
module LitShared {
  import opened Wrappers
  import opened PyStr
  import opened PyList

  type Row = seq<string>

  /** The publication data kept per volume: date, title and author. */
  datatype Pub = Pub(pubdate: string, title: string, author: string)

  // ---------------------------------------------------------------------
  // A list built by appending

  /** The rows whose entry is kept: `f` yields `Some` for them. */
  function Kept<T>(rows: seq<Row>, f: Row -> Result<Option<T>>): (r: seq<Row>)
    ensures |r| <= |rows|
  {
    if rows == [] then []
    else (if f(rows[0]).Ok? && f(rows[0]).value.Some? then [rows[0]] else []) + Kept(rows[1..], f)
  }

  /** The loop `for row in rows: ... ret.append(...)`: `f` gives the entry a
      row contributes (`None` for a skipped row) or the exception it raises,
      which ends the loop. */
  function Collect<T>(rows: seq<Row>, f: Row -> Result<Option<T>>): (r: Result<seq<T>>)
    ensures r.Ok? <==> forall i :: 0 <= i < |rows| ==> f(rows[i]).Ok?
    ensures r.Err? ==> exists i :: 0 <= i < |rows| && f(rows[i]) == Err(r.error)
  {
    if rows == [] then Ok([])
    else
      var x :- f(rows[0]);
      var rest :- Collect(rows[1..], f);
      assert forall i :: 1 <= i < |rows| ==> rows[i] == rows[1..][i - 1];
      Ok((if x.Some? then [x.value] else []) + rest)
  }

  /** The k-th entry of the list comes from the k-th kept row. */
  lemma {:induction false} CollectKept<T>(rows: seq<Row>, f: Row -> Result<Option<T>>)
    requires Collect(rows, f).Ok?
    ensures |Collect(rows, f).value| == |Kept(rows, f)|
    ensures forall k :: 0 <= k < |Kept(rows, f)| ==>
              f(Kept(rows, f)[k]) == Ok(Some(Collect(rows, f).value[k]))
  {
    if rows != [] {
      assert f(rows[0]).Ok?;
      CollectKept(rows[1..], f);
    }
  }

  /** When no row is skipped, every row is kept. */
  lemma {:induction false} KeptEvery<T>(rows: seq<Row>, f: Row -> Result<Option<T>>)
    requires forall i :: 0 <= i < |rows| ==> f(rows[i]).Ok? && f(rows[i]).value.Some?
    ensures Kept(rows, f) == rows
  {
    if rows != [] {
      KeptEvery(rows[1..], f);
      assert [rows[0]] + rows[1..] == rows;
    }
  }

  /** Rows read in two batches give the two lists one after the other. */
  lemma {:induction false} CollectAppend<T>(a: seq<Row>, b: seq<Row>, f: Row -> Result<Option<T>>)
    requires Collect(a + b, f).Ok?
    ensures Collect(a, f).Ok? && Collect(b, f).Ok?
    ensures Collect(a + b, f).value == Collect(a, f).value + Collect(b, f).value
  {
    if a == [] {
      assert a + b == b;
    } else {
      assert (a + b)[0] == a[0] && (a + b)[1..] == a[1..] + b;
      CollectAppend(a[1..], b, f);
    }
  }

  function After<T>(acc: seq<T>, r: Result<seq<T>>): Result<seq<T>> {
    if r.Ok? then Ok(acc + r.value) else r
  }

  lemma AfterEmpty<T>(r: Result<seq<T>>)
    ensures After([], r) == r
  {
    if r.Ok? {
      assert [] + r.value == r.value;
    }
  }

  lemma AfterShift<T>(acc: seq<T>, y: seq<T>, r: Result<seq<T>>)
    ensures After(acc, if r.Ok? then Ok(y + r.value) else r) == After(acc + y, r)
  {
    if r.Ok? {
      assert acc + (y + r.value) == acc + y + r.value;
    }
  }

  method CollectRows<T>(rows: seq<Row>, f: Row -> Result<Option<T>>) returns (r: Result<seq<T>>)
    ensures r == Collect(rows, f)
  {
    var acc: seq<T> := [];
    var i := 0;
    assert rows[0..] == rows;
    AfterEmpty(Collect(rows, f));
    while i < |rows|
      invariant i <= |rows|
      invariant Collect(rows, f) == After(acc, Collect(rows[i..], f))
    {
      var x := f(rows[i]);
      if x.Err? {
        return Err(x.error);
      }
      assert rows[i..][1..] == rows[i + 1..];
      var y := if x.value.Some? then [x.value.value] else [];
      AfterShift(acc, y, Collect(rows[i + 1..], f));
      acc := acc + y;
      i := i + 1;
    }
    assert acc + [] == acc;
    return Ok(acc);
  }

  // ---------------------------------------------------------------------
  // A dict filled key by key

  /** The loop `for row in rows: ids[key] = {...}`: `f` gives the key and
      the value a row stores, or the exception it raises. A later row with
      the same key overwrites the earlier one. */
  function Table(rows: seq<Row>, f: Row -> Result<(string, Pub)>): (r: Result<map<string, Pub>>)
    ensures r.Ok? <==> forall i :: 0 <= i < |rows| ==> f(rows[i]).Ok?
    ensures r.Err? ==> exists i :: 0 <= i < |rows| && f(rows[i]) == Err(r.error)
    ensures r.Ok? ==> forall k :: k in r.value <==> exists i :: 0 <= i < |rows| && f(rows[i]).value.0 == k
  {
    if rows == [] then Ok(map[])
    else
      var front := rows[..|rows| - 1];
      var m :- Table(front, f);
      var kv :- f(rows[|rows| - 1]);
      assert forall i :: 0 <= i < |front| ==> front[i] == rows[i];
      Ok(m[kv.0 := kv.1])
  }

  /** The value stored under a key is the one from the last row with that
      key. */
  lemma {:induction false} TableLast(rows: seq<Row>, f: Row -> Result<(string, Pub)>, i: nat)
    requires Table(rows, f).Ok? && i < |rows|
    requires forall j :: i < j < |rows| ==> f(rows[j]).value.0 != f(rows[i]).value.0
    ensures Table(rows, f).value[f(rows[i]).value.0] == f(rows[i]).value.1
  {
    var front := rows[..|rows| - 1];
    if i < |rows| - 1 {
      assert forall j :: 0 <= j < |front| ==> front[j] == rows[j];
      TableLast(front, f, i);
    }
  }

  /** An exception in the first `n` rows is the exception of the whole
      loop. */
  lemma {:induction false} TablePrefixErr(rows: seq<Row>, f: Row -> Result<(string, Pub)>, n: nat)
    requires n <= |rows| && Table(rows[..n], f).Err?
    ensures Table(rows, f) == Table(rows[..n], f)
    decreases |rows|
  {
    if n < |rows| {
      var front := rows[..|rows| - 1];
      assert front[..n] == rows[..n];
      TablePrefixErr(front, f, n);
    } else {
      assert rows[..n] == rows;
    }
  }

  method FillTable(rows: seq<Row>, f: Row -> Result<(string, Pub)>) returns (r: Result<map<string, Pub>>)
    ensures r == Table(rows, f)
  {
    var ids: map<string, Pub> := map[];
    var i := 0;
    while i < |rows|
      invariant i <= |rows|
      invariant Table(rows[..i], f) == Ok(ids)
    {
      var kv := f(rows[i]);
      assert rows[..i + 1][..i] == rows[..i];
      if kv.Err? {
        TablePrefixErr(rows, f, i + 1);
        return Err(kv.error);
      }
      ids := ids[kv.value.0 := kv.value.1];
      i := i + 1;
    }
    assert rows[..i] == rows;
    return Ok(ids);
  }

  // ---------------------------------------------------------------------
  // Paths

  /** `'/'.join(path.split('/')[:k])` for a negative `k`: the path without
      its last `-k` components. */
  function Dirname(path: string, k: int): string {
    Join("/", Prefix(Split(path, '/'), k))
  }

  /** Dropping one component of `base/last` gives `base`. */
  lemma DirnameOne(base: string, last: string)
    requires '/' !in last
    ensures Dirname(base + "/" + last, -1) == base
  {
    var parts := Split(base, '/');
    SplitConcat(base, last, '/');
    SplitFree(last, '/');
    assert base + "/" + last == base + ['/'] + last;
    assert Prefix(parts + [last], -1) == parts;
    SplitJoin(base, '/');
  }

  /** Dropping two components of `base/a/b` gives `base`. */
  lemma DirnameTwo(base: string, a: string, b: string)
    requires '/' !in a && '/' !in b
    ensures Dirname(base + "/" + a + "/" + b, -2) == base
  {
    var parts := Split(base, '/');
    SplitConcat(base, a + ['/'] + b, '/');
    SplitPair(a, b, '/');
    assert base + "/" + a + "/" + b == base + ['/'] + (a + ['/'] + b);
    assert Prefix(parts + [a, b], -2) == parts;
    SplitJoin(base, '/');
  }

  // ---------------------------------------------------------------------
  // Text files in, JSON files out

  /** A text file of a walked directory: its name and its lines, each with
      its line break, as `for line in f` yields them. */
  datatype TextFile = TextFile(name: string, lines: seq<string>)

  /** `name[:-4] + '.json'`: the output name of an input file. */
  function JsonName(name: string): (r: string)
    ensures |r| == (if |name| < 4 then 0 else |name| - 4) + 5
  {
    Prefix(name, -4) + ".json"
  }

  /** A `.txt` file becomes the `.json` file of the same stem. */
  lemma JsonNameTxt(stem: string)
    ensures JsonName(stem + ".txt") == stem + ".json"
  {
    assert Prefix(stem + ".txt", -4) == stem;
  }

  /** The files one input writes: its output, if it has one. */
  function Written<T>(o: Option<T>): (r: seq<T>)
    ensures o.Some? ==> r == [o.value]
    ensures o.None? ==> r == []
  {
    if o.Some? then [o.value] else []
  }

  /** Appending outputs one at a time builds the same list. */
  lemma AppendShift<T>(acc: seq<T>, w: seq<T>, tail: seq<T>)
    ensures acc + (w + tail) == (acc + w) + tail
  {
  }
}
