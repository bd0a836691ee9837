/** parsing/lit_corpora/runeberg_dirs.py: Project Runeberg volumes, one
    directory per volume. The CSV maps each title to its date, title and
    author; a volume's `title` file names its title, and its `Pages/`
    files hold the text. The stemmer and the (Swedish) stop words are
    parameters. */
module RunebergDirs {
  import opened Wrappers
  import opened PyStr
  import opened PyList
  import opened Records
  import opened ParsedObjects
  import opened ParsingUtils
  import opened LitShared

  // ---------------------------------------------------------------------
  // csv_path and parse_csv

  /** `csv_path(path_str)`: the bundled CSV beside the script's parent
      directory. */
  function CsvPath(dir: string): string {
    Dirname(dir, -1) + "/data/csv/RB/runeberg.csv"
  }

  lemma CsvPathOf(base: string, last: string)
    requires '/' !in last
    ensures CsvPath(base + "/" + last) == base + "/data/csv/RB/runeberg.csv"
  {
    DirnameOne(base, last);
  }

  /** The entry one row stores: keyed by its title, column 2. */
  function Mapping(row: Row): (r: Result<(string, Pub)>)
    ensures r.Err? <==> |row| < 4
    ensures r.Err? ==> r.error == IndexError
    ensures r.Ok? ==> r.value == (row[2], Pub(row[1], row[2], row[3]))
  {
    if |row| < 4 then Err(IndexError) else Ok((row[2], Pub(row[1], row[2], row[3])))
  }

  /** Every key is the title stored under it. */
  lemma {:induction false} KeysAreTitles(rows: seq<Row>)
    requires Table(rows, Mapping).Ok?
    ensures forall k :: k in Table(rows, Mapping).value ==> Table(rows, Mapping).value[k].title == k
    decreases |rows|
  {
    if rows != [] {
      KeysAreTitles(rows[..|rows| - 1]);
    }
  }

  /** A row is stored unless a later row has the same title; the first row
      is no exception, so a header row is stored like any other. */
  lemma LastRowWins(rows: seq<Row>, i: nat)
    requires Table(rows, Mapping).Ok? && i < |rows|
    requires forall j :: i < j < |rows| ==> rows[j][2] != rows[i][2]
    ensures Table(rows, Mapping).value[rows[i][2]] == Pub(rows[i][1], rows[i][2], rows[i][3])
  {
    TableLast(rows, Mapping, i);
  }

  /** `parse_csv(csv_in)`. */
  method ParseCsv(rows: seq<Row>) returns (r: Result<map<string, Pub>>)
    ensures r == Table(rows, Mapping)
    ensures r.Err? <==> exists i :: 0 <= i < |rows| && |rows[i]| < 4
    ensures r.Err? ==> r.error == IndexError
    ensures r.Ok? ==> forall k :: k in r.value ==> r.value[k].title == k
  {
    r := FillTable(rows, Mapping);
    if r.Ok? {
      KeysAreTitles(rows);
    } else {
      var i :| 0 <= i < |rows| && Mapping(rows[i]) == Err(r.error);
    }
  }

  // ---------------------------------------------------------------------
  // parse_txt

  /** A volume directory: its name, the contents of its `title` file and
      its page files. */
  datatype VolumeDir = VolumeDir(name: string, title: string, pages: seq<TextFile>)

  /** The directories the walk looks at: not hidden and not unnamed. */
  predicate Listed(name: string) {
    name != "" && name[0] != '.'
  }

  /** The page files that are read. */
  predicate PageRead(f: TextFile) {
    f.name != "whole-page-ok.lst" && !Hidden(f.name)
  }

  /** The lines of the pages that are read, page after page. */
  function PageLines(pages: seq<TextFile>): seq<string>
    decreases |pages|
  {
    if pages == [] then []
    else
      var last := pages[|pages| - 1];
      PageLines(pages[..|pages| - 1]) + PageText(last)
  }

  /** Only pages that are read contribute lines. */
  lemma {:induction false} PageLinesFrom(pages: seq<TextFile>)
    ensures forall x :: x in PageLines(pages) ==> exists p :: p in pages && PageRead(p) && x in p.lines
    decreases |pages|
  {
    if pages != [] {
      var front := pages[..|pages| - 1];
      PageLinesFrom(front);
      assert forall p :: p in front ==> p in pages;
    }
  }

  /** The metadata `parse_txt` sets from a CSV entry: author, title and
      year. */
  function PubMeta(p: Pub): (m: Metadata)
    ensures m.a == Some(p.author) && m.t == Some(p.title) && m.y == p.pubdate
    ensures m.(a := NewMeta.a, t := NewMeta.t, y := NewMeta.y) == NewMeta
  {
    NewMeta.(a := Some(p.author), t := Some(p.title), y := p.pubdate)
  }

  /** The output of one volume: none when its title has no CSV entry. */
  function VolumeJson(vol: VolumeDir, mappings: map<string, Pub>, stop: set<string>, stem: string -> string)
    : (r: Option<(string, Volume)>)
    ensures r.None? <==> vol.title !in mappings
    ensures r.Some? ==> r.value.0 == JsonName(vol.name)
  {
    if vol.title in mappings then
      Some((JsonName(vol.name),
            VolumeOf(Defaulted(PubMeta(mappings[vol.title])), AddLines(NoText, PageLines(vol.pages), stop, stem))))
    else None
  }

  /** A written record carries the CSV date of its title and the tokens of
      its pages. */
  lemma VolumeFields(vol: VolumeDir, mappings: map<string, Pub>, stop: set<string>, stem: string -> string)
    requires vol.title in mappings
    ensures var v := VolumeJson(vol, mappings, stop, stem).value.1;
            && Get(v, "Date") == Ok(JStr(mappings[vol.title].pubdate))
            && Get(v, "Text") == Ok(JStrs(AddLines(NoText, PageLines(vol.pages), stop, stem).c))
  {
    var m := Defaulted(PubMeta(mappings[vol.title]));
    VolumeReadBack(m, AddLines(NoText, PageLines(vol.pages), stop, stem));
  }

  /** Everything written for a walk over the volume directories. */
  function Outputs(vols: seq<VolumeDir>, mappings: map<string, Pub>, stop: set<string>, stem: string -> string)
    : (r: seq<(string, Volume)>)
    ensures |r| <= |vols|
  {
    if vols == [] then []
    else
      Written(VolumeOut(vols[0], mappings, stop, stem)) + Outputs(vols[1..], mappings, stop, stem)
  }

  /** What the walk writes for one directory. */
  function VolumeOut(vol: VolumeDir, mappings: map<string, Pub>, stop: set<string>, stem: string -> string)
    : Option<(string, Volume)>
  {
    if Listed(vol.name) then VolumeJson(vol, mappings, stop, stem) else None
  }

  /** Every record written comes from a listed volume whose title has a CSV
      entry, and is named after that volume. */
  lemma {:induction false} OutputsFrom(vols: seq<VolumeDir>, mappings: map<string, Pub>, stop: set<string>, stem: string -> string)
    ensures forall o :: o in Outputs(vols, mappings, stop, stem) ==>
              exists v :: v in vols && Listed(v.name) && v.title in mappings && o.0 == JsonName(v.name)
  {
    if vols != [] {
      OutputsFrom(vols[1..], mappings, stop, stem);
      assert forall v :: v in vols[1..] ==> v in vols;
    }
  }

  /** One volume directory: its metadata from the CSV entry of its title,
      then every line of every page that is read. */
  method ParseVolume(vol: VolumeDir, mappings: map<string, Pub>, stop: set<string>, stem: string -> string)
    returns (r: Option<(string, Volume)>)
    ensures r == VolumeJson(vol, mappings, stop, stem)
  {
    var obj := new Parsed();
    var valid := vol.title in mappings;
    if valid {
      var maps := mappings[vol.title];
      obj.a, obj.t, obj.y := Some(maps.author), Some(maps.title), maps.pubdate;
      assert obj.Meta() == PubMeta(maps);
      assert obj.Lists() == NoText;
      ReadPages(vol.pages, obj, stop, stem);
      assert obj.Meta() == PubMeta(maps) && obj.Lists() == AddLines(NoText, PageLines(vol.pages), stop, stem);
      var v := BuildJson(obj);
      r := Some((JsonName(vol.name), v));
    } else {
      r := None;
    }
  }

  /** The walk over `Pages/`. */
  method ReadPages(pages: seq<TextFile>, obj: Parsed, stop: set<string>, stem: string -> string)
    modifies obj
    ensures obj.Meta() == old(obj.Meta())
    ensures obj.Lists() == AddLines(old(obj.Lists()), PageLines(pages), stop, stem)
  {
    for i := 0 to |pages|
      invariant obj.Meta() == old(obj.Meta())
      invariant obj.Lists() == AddLines(old(obj.Lists()), PageLines(pages[..i]), stop, stem)
    {
      assert pages[..i + 1][..i] == pages[..i];
      assert PageLines(pages[..i + 1]) == PageLines(pages[..i]) + PageText(pages[i]);
      AddLinesAppend(old(obj.Lists()), PageLines(pages[..i]), PageText(pages[i]), stop, stem);
      ReadPage(pages[i], obj, stop, stem);
    }
    assert pages[..|pages|] == pages;
  }

  /** The lines one page contributes. */
  function PageText(page: TextFile): seq<string> {
    if PageRead(page) then page.lines else []
  }

  /** One page of the walk: skipped, or read line by line. */
  method ReadPage(page: TextFile, obj: Parsed, stop: set<string>, stem: string -> string)
    modifies obj
    ensures obj.Meta() == old(obj.Meta())
    ensures obj.Lists() == AddLines(old(obj.Lists()), PageText(page), stop, stem)
  {
    if page.name != "whole-page-ok.lst" && !Hidden(page.name) {
      AddEachLine(page.lines, obj, stop, stem);
    }
  }

  /** `parse_txt(in_dir, mappings, out_dir)`. */
  method ParseTxt(vols: seq<VolumeDir>, mappings: map<string, Pub>, stop: set<string>, stem: string -> string)
    returns (out: seq<(string, Volume)>)
    ensures out == Outputs(vols, mappings, stop, stem)
  {
    out := [];
    for i := 0 to |vols|
      invariant out + Outputs(vols[i..], mappings, stop, stem) == Outputs(vols, mappings, stop, stem)
    {
      assert vols[i..][1..] == vols[i + 1..];
      var o := None;
      if vols[i].name != "" && vols[i].name[0] != '.' {
        o := ParseVolume(vols[i], mappings, stop, stem);
      }
      assert o == VolumeOut(vols[i], mappings, stop, stem);
      var tail := Outputs(vols[i + 1..], mappings, stop, stem);
      assert Outputs(vols[i..], mappings, stop, stem) == Written(o) + tail;
      AppendShift(out, Written(o), tail);
      out := out + Written(o);
    }
  }
}

/** parsing/lit_corpora/runeberg_raw.py: Project Runeberg volumes as single
    text files named after their title. Its `csv_path` and `parse_csv` are
    those of runeberg_dirs.py. */
module RunebergRaw {
  import opened Wrappers
  import opened PyList
  import opened Records
  import opened ParsedObjects
  import opened ParsingUtils
  import opened LitShared
  import opened RunebergDirs

  /** `txt_f[:-4]`: the title a file is looked up by. */
  function Id(name: string): string {
    Prefix(name, -4)
  }

  /** The output of one file: none when its title has no CSV entry. */
  function FileJson(f: TextFile, mappings: map<string, Pub>, stop: set<string>, stem: string -> string)
    : (r: Option<(string, Volume)>)
    ensures r.None? <==> Id(f.name) !in mappings
    ensures r.Some? ==> r.value.0 == Id(f.name) + ".json"
  {
    var id := Id(f.name);
    if id in mappings then
      Some((JsonName(f.name), VolumeOf(Defaulted(PubMeta(mappings[id])), AddLines(NoText, f.lines, stop, stem))))
    else None
  }

  /** `Title.txt` is written as `Title.json` with the CSV entry of
      `Title`. */
  lemma TxtFile(title: string, lines: seq<string>, mappings: map<string, Pub>, stop: set<string>, stem: string -> string)
    requires title in mappings
    ensures var r := FileJson(TextFile(title + ".txt", lines), mappings, stop, stem);
            && r.Some? && r.value.0 == title + ".json"
            && Get(r.value.1, "Date") == Ok(JStr(mappings[title].pubdate))
  {
    JsonNameTxt(title);
    assert Id(title + ".txt") == title;
    VolumeReadBack(Defaulted(PubMeta(mappings[title])), AddLines(NoText, lines, stop, stem));
  }

  /** Everything written: the non-hidden files whose title is listed. */
  function Outputs(files: seq<TextFile>, mappings: map<string, Pub>, stop: set<string>, stem: string -> string)
    : (r: seq<(string, Volume)>)
    ensures |r| <= |files|
  {
    if files == [] then []
    else
      Written(FileOut(files[0], mappings, stop, stem)) + Outputs(files[1..], mappings, stop, stem)
  }

  /** What the walk writes for one file. */
  function FileOut(f: TextFile, mappings: map<string, Pub>, stop: set<string>, stem: string -> string)
    : Option<(string, Volume)>
  {
    if Hidden(f.name) then None else FileJson(f, mappings, stop, stem)
  }

  /** Every record written comes from a file that is not hidden and whose
      title has a CSV entry, and is named after that title. */
  lemma {:induction false} OutputsFrom(files: seq<TextFile>, mappings: map<string, Pub>, stop: set<string>, stem: string -> string)
    ensures forall o :: o in Outputs(files, mappings, stop, stem) ==>
              exists f :: f in files && !Hidden(f.name) && Id(f.name) in mappings && o.0 == Id(f.name) + ".json"
  {
    if files != [] {
      OutputsFrom(files[1..], mappings, stop, stem);
      assert forall f :: f in files[1..] ==> f in files;
    }
  }

  /** One file: the lookup, whose `KeyError` skips the file, then every
      line. */
  method ParseFile(f: TextFile, mappings: map<string, Pub>, stop: set<string>, stem: string -> string)
    returns (r: Option<(string, Volume)>)
    ensures r == FileJson(f, mappings, stop, stem)
  {
    var obj := new Parsed();
    var idStr := Prefix(f.name, -4);
    if idStr !in mappings {
      return None;
    }
    var maps := mappings[idStr];
    obj.a, obj.t, obj.y := Some(maps.author), Some(maps.title), maps.pubdate;
    assert obj.Meta() == PubMeta(maps);
    assert obj.Lists() == NoText;
    AddEachLine(f.lines, obj, stop, stem);
    assert obj.Meta() == PubMeta(maps) && obj.Lists() == AddLines(NoText, f.lines, stop, stem);
    var v := BuildJson(obj);
    return Some((JsonName(f.name), v));
  }

  /** `parse_txt(in_dir, mappings, out_dir)`. */
  method ParseTxt(files: seq<TextFile>, mappings: map<string, Pub>, stop: set<string>, stem: string -> string)
    returns (out: seq<(string, Volume)>)
    ensures out == Outputs(files, mappings, stop, stem)
  {
    out := [];
    for i := 0 to |files|
      invariant out + Outputs(files[i..], mappings, stop, stem) == Outputs(files, mappings, stop, stem)
    {
      assert files[i..][1..] == files[i + 1..];
      var o := None;
      if !Hidden(files[i].name) {
        o := ParseFile(files[i], mappings, stop, stem);
      }
      assert o == FileOut(files[i], mappings, stop, stem);
      var tail := Outputs(files[i + 1..], mappings, stop, stem);
      assert Outputs(files[i..], mappings, stop, stem) == Written(o) + tail;
      AppendShift(out, Written(o), tail);
      out := out + Written(o);
    }
  }
}
