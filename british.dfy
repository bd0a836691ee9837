/** parsing/formatting_stuff/convert/format_british.py: renames five fields
    of the volume record stored under `"0"` in each JSON file to the names
    the rest of the system reads. Reading and writing the files are not
    modelled. */
module FormatBritish {
  import opened Wrappers
  import opened Records

  /** A JSON file: its top-level entries. */
  type Doc = map<string, Volume>

  /** The five renames, in the order they are done: old name, new name. */
  const Renames: seq<(string, string)> := [
    ("Filtered Text", "Filtered"),
    ("Filtered Text Stemmed", "Filtered Stemmed"),
    ("Full Text", "Text"),
    ("Full Text Stemmed", "Stemmed"),
    ("Year Published", "Date")
  ]

  /** No name is renamed twice, no two renames share a target, and no
      target is itself renamed. */
  predicate Disjoint(rs: seq<(string, string)>) {
    && (forall i, j :: 0 <= i < j < |rs| ==> rs[i].0 != rs[j].0 && rs[i].1 != rs[j].1)
    && (forall i, j :: 0 <= i < |rs| && 0 <= j < |rs| ==> rs[i].0 != rs[j].1)
  }

  /** `tmp = v[old]; del v[old]; v[new] = tmp`. */
  function Rename(v: Volume, from: string, to: string): (r: Result<Volume>)
    ensures r.Err? <==> from !in v
    ensures r.Err? ==> r.error == KeyError
  {
    if from !in v then Err(KeyError) else Ok((v - {from})[to := v[from]])
  }

  /** The renames one after the other; the first missing name raises. */
  function RenameAll(v: Volume, rs: seq<(string, string)>): (r: Result<Volume>)
    ensures r.Err? ==> r.error == KeyError
    decreases |rs|
  {
    if rs == [] then Ok(v)
    else
      var w :- Rename(v, rs[0].0, rs[0].1);
      RenameAll(w, rs[1..])
  }

  /** The renames after the first still do not interfere, and none of them
      touches the first one's names. */
  lemma DisjointTail(rs: seq<(string, string)>)
    requires rs != [] && Disjoint(rs)
    ensures Disjoint(rs[1..])
    ensures forall j :: 0 <= j < |rs| - 1 ==>
              rs[1..][j].0 != rs[0].0 && rs[1..][j].0 != rs[0].1 && rs[1..][j].1 != rs[0].0 && rs[1..][j].1 != rs[0].1
  {
    var tail := rs[1..];
    assert forall i :: 0 <= i < |tail| ==> tail[i] == rs[i + 1];
  }

  /** Renames that do not interfere succeed exactly when every old name is
      present. */
  lemma {:induction false} RenameAllDefined(v: Volume, rs: seq<(string, string)>)
    requires Disjoint(rs)
    ensures RenameAll(v, rs).Ok? <==> forall i :: 0 <= i < |rs| ==> rs[i].0 in v
    decreases |rs|
  {
    if rs != [] {
      DisjointTail(rs);
      var tail := rs[1..];
      if rs[0].0 in v {
        var w := (v - {rs[0].0})[rs[0].1 := v[rs[0].0]];
        RenameAllDefined(w, tail);
        assert forall i :: 0 <= i < |tail| ==> (tail[i].0 in w <==> tail[i].0 in v);
        assert forall i :: 1 <= i < |rs| ==> rs[i] == tail[i - 1];
      }
    }
  }

  /** A field that no rename names keeps its presence and its value. */
  lemma {:induction false} RenameAllKeeps(v: Volume, rs: seq<(string, string)>, k: string)
    requires RenameAll(v, rs).Ok?
    requires forall i :: 0 <= i < |rs| ==> k != rs[i].0 && k != rs[i].1
    ensures k in RenameAll(v, rs).value <==> k in v
    ensures k in v ==> RenameAll(v, rs).value[k] == v[k]
    decreases |rs|
  {
    if rs != [] {
      var w := (v - {rs[0].0})[rs[0].1 := v[rs[0].0]];
      assert forall i :: 0 <= i < |rs| - 1 ==> rs[1..][i] == rs[i + 1];
      RenameAllKeeps(w, rs[1..], k);
    }
  }

  /** After renames that do not interfere, each new name holds the value
      of its old name and no old name is left. */
  lemma {:induction false} RenameAllMoves(v: Volume, rs: seq<(string, string)>, i: nat)
    requires Disjoint(rs) && RenameAll(v, rs).Ok? && i < |rs|
    ensures rs[i].0 in v && rs[i].1 in RenameAll(v, rs).value
    ensures RenameAll(v, rs).value[rs[i].1] == v[rs[i].0]
    ensures rs[i].0 !in RenameAll(v, rs).value
    decreases |rs|
  {
    RenameAllDefined(v, rs);
    DisjointTail(rs);
    var w := (v - {rs[0].0})[rs[0].1 := v[rs[0].0]];
    var tail := rs[1..];
    if i == 0 {
      RenameAllKeeps(w, tail, rs[0].1);
      RenameAllKeeps(w, tail, rs[0].0);
    } else {
      assert rs[i] == tail[i - 1];
      RenameAllMoves(w, tail, i - 1);
      assert w[rs[i].0] == v[rs[i].0];
    }
  }

  /** The record stored under `"0"` with its five fields renamed. */
  function Reformatted(doc: Doc): (r: Result<Doc>)
    ensures r.Ok? ==> "0" in doc && r.value.Keys == doc.Keys
    ensures r.Ok? ==> forall k :: k in doc && k != "0" ==> r.value[k] == doc[k]
  {
    if "0" !in doc then Err(KeyError)
    else
      var v :- RenameAll(doc["0"], Renames);
      Ok(doc["0" := v])
  }

  /** The five renames do not interfere. */
  lemma RenamesDisjoint()
    ensures Disjoint(Renames)
  {
    var olds := [13, 21, 9, 17, 14];
    var news := [8, 16, 4, 7, 4];
    assert forall i :: 0 <= i < 5 ==> |Renames[i].0| == olds[i] && |Renames[i].1| == news[i];
    assert Renames[2].1 != Renames[4].1 by {
      assert Renames[2].1[0] == 'T' && Renames[4].1[0] == 'D';
    }
    forall i, j | 0 <= i < 5 && 0 <= j < 5
      ensures Renames[i].0 != Renames[j].1
    {
      assert |Renames[i].0| == olds[i] && |Renames[j].1| == news[j];
    }
    forall i, j | 0 <= i < j < 5
      ensures Renames[i].0 != Renames[j].0 && Renames[i].1 != Renames[j].1
    {
      assert |Renames[i].0| == olds[i] && |Renames[j].0| == olds[j];
      if (i, j) != (2, 4) {
        assert |Renames[i].1| == news[i] != news[j] == |Renames[j].1|;
      }
    }
  }

  /** What the script promises: it fails with `KeyError` exactly when the
      record or one of the five old fields is missing; otherwise each new
      name holds the old field's value, no old name is left, and every
      other field is as it was. */
  lemma ReformattedFields(doc: Doc, i: nat, k: string)
    requires i < 5
    requires forall j :: 0 <= j < 5 ==> k != Renames[j].0 && k != Renames[j].1
    ensures Reformatted(doc).Err? ==> Reformatted(doc).error == KeyError
    ensures Reformatted(doc).Ok? <==> "0" in doc && forall j :: 0 <= j < 5 ==> Renames[j].0 in doc["0"]
    ensures Reformatted(doc).Ok? ==>
              var v := doc["0"];
              var u := Reformatted(doc).value["0"];
              && Renames[i].1 in u && u[Renames[i].1] == v[Renames[i].0]
              && Renames[i].0 !in u
              && (k in u <==> k in v) && (k in v ==> u[k] == v[k])
  {
    if "0" in doc {
      RenamesDisjoint();
      RenameAllDefined(doc["0"], Renames);
      if Reformatted(doc).Ok? {
        RenameAllMoves(doc["0"], Renames, i);
        RenameAllKeeps(doc["0"], Renames, k);
      }
    }
  }

  /** The five renames of one file, done in place on its record. */
  method Reformat(doc: Doc) returns (r: Result<Doc>)
    ensures r == Reformatted(doc)
  {
    if "0" !in doc {
      return Err(KeyError);
    }
    var data := doc["0"];
    ghost var spec := RenameAll(data, Renames);
    assert Renames[0] == ("Filtered Text", "Filtered") && Renames[1..][0] == ("Filtered Text Stemmed", "Filtered Stemmed");
    if "Filtered Text" !in data {
      return Err(KeyError);
    }
    var tmpFilt := data["Filtered Text"];
    data := data - {"Filtered Text"};
    data := data["Filtered" := tmpFilt];
    assert spec == RenameAll(data, Renames[1..]);
    assert Renames[1..][1..] == Renames[2..] && Renames[2..][0] == ("Full Text", "Text");
    if "Filtered Text Stemmed" !in data {
      return Err(KeyError);
    }
    var tmpFiltStemmed := data["Filtered Text Stemmed"];
    data := data - {"Filtered Text Stemmed"};
    data := data["Filtered Stemmed" := tmpFiltStemmed];
    assert spec == RenameAll(data, Renames[2..]);
    assert Renames[2..][1..] == Renames[3..] && Renames[3..][0] == ("Full Text Stemmed", "Stemmed");
    if "Full Text" !in data {
      return Err(KeyError);
    }
    var tmpFull := data["Full Text"];
    data := data - {"Full Text"};
    data := data["Text" := tmpFull];
    assert spec == RenameAll(data, Renames[3..]);
    assert Renames[3..][1..] == Renames[4..] && Renames[4..][0] == ("Year Published", "Date");
    if "Full Text Stemmed" !in data {
      return Err(KeyError);
    }
    var tmpStem := data["Full Text Stemmed"];
    data := data - {"Full Text Stemmed"};
    data := data["Stemmed" := tmpStem];
    assert spec == RenameAll(data, Renames[4..]);
    assert Renames[4..][1..] == [];
    if "Year Published" !in data {
      return Err(KeyError);
    }
    var tmpPub := data["Year Published"];
    data := data - {"Year Published"};
    data := data["Date" := tmpPub];
    return Ok(doc["0" := data]);
  }

  /** Everything written for a walk over the files: each file that is not
      hidden, reformatted, under its own name. */
  function Outputs(files: seq<(string, Doc)>): (r: Result<seq<(string, Doc)>>)
    ensures r.Ok? ==> |r.value| <= |files|
    ensures r.Err? ==> r.error == KeyError
  {
    if files == [] then Ok([])
    else if Hidden(files[0].0) then Outputs(files[1..])
    else
      var d :- Reformatted(files[0].1);
      var rest :- Outputs(files[1..]);
      Ok([(files[0].0, d)] + rest)
  }

  /** The names of the files that are not hidden. */
  function VisibleNames(files: seq<(string, Doc)>): seq<string> {
    if files == [] then []
    else (if Hidden(files[0].0) then [] else [files[0].0]) + VisibleNames(files[1..])
  }

  /** Each file that is not hidden is written once, under its own name, in
      order. */
  lemma {:induction false} OutputsVisible(files: seq<(string, Doc)>)
    requires Outputs(files).Ok?
    ensures |Outputs(files).value| == |VisibleNames(files)|
    ensures forall k :: 0 <= k < |VisibleNames(files)| ==> Outputs(files).value[k].0 == VisibleNames(files)[k]
  {
    if files != [] {
      OutputsVisible(files[1..]);
    }
  }

  /** `out` written before the outcome `r` of the rest of the walk. */
  function After(out: seq<(string, Doc)>, r: Result<seq<(string, Doc)>>): Result<seq<(string, Doc)>> {
    if r.Err? then r else Ok(out + r.value)
  }

  /** The walk of the script over the files, one file at a time. */
  method FormatFiles(files: seq<(string, Doc)>) returns (r: Result<seq<(string, Doc)>>)
    ensures r == Outputs(files)
  {
    var out := [];
    assert files[0..] == files;
    if Outputs(files).Ok? {
      assert [] + Outputs(files).value == Outputs(files).value;
    }
    for i := 0 to |files|
      invariant After(out, Outputs(files[i..])) == Outputs(files)
    {
      assert files[i..][0] == files[i] && files[i..][1..] == files[i + 1..];
      if !Hidden(files[i].0) {
        var d := Reformat(files[i].1);
        if d.Err? {
          return Err(d.error);
        }
        var rest := Outputs(files[i + 1..]);
        if rest.Ok? {
          assert out + ([(files[i].0, d.value)] + rest.value) == (out + [(files[i].0, d.value)]) + rest.value;
        }
        out := out + [(files[i].0, d.value)];
      }
    }
    assert files[|files|..] == [] && out + [] == out;
    r := Ok(out);
  }
}
