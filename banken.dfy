/** parsing/lit_corpora/banken_txt_parser.py: Litteraturbanken volumes as
    text files. The CSV maps each volume's id, made from its link, to its
    date, title and author; every line of every file is fed to
    `add_content`, with no start or end markers. */
module BankenTxt {
  import opened Wrappers
  import opened PyStr
  import opened PyList
  import opened Records
  import opened ParsedObjects
  import opened ParsingUtils
  import opened LitShared

  /** `csv_path(path_str)`: the bundled CSV beside the script's directory. */
  function CsvPath(dir: string): string {
    Dirname(dir, -1) + "/data/csv/LB/lit_banken.csv"
  }

  lemma CsvPathOf(base: string, last: string)
    requires '/' !in last
    ensures CsvPath(base + "/" + last) == base + "/data/csv/LB/lit_banken.csv"
  {
    DirnameOne(base, last);
  }

  /** `parse_url(base_url)`: segments 4 and 6 of the link, joined by `_`. */
  function ParseUrl(url: string): (r: Result<string>)
    ensures r.Err? <==> |Split(url, '/')| < 7
    ensures r.Err? ==> r.error == IndexError
    ensures r.Ok? ==> '/' !in r.value
  {
    var parts := Split(url, '/');
    if |parts| < 7 then Err(IndexError)
    else
      SplitPartsFree(url, '/');
      Ok(parts[4] + "_" + parts[6])
  }

  /** A link made of at least seven segments yields its fifth and seventh. */
  lemma ParseUrlOf(segs: seq<string>)
    requires |segs| >= 7
    requires forall i :: 0 <= i < |segs| ==> '/' !in segs[i]
    ensures ParseUrl(Join("/", segs)) == Ok(segs[4] + "_" + segs[6])
  {
    JoinSplit(segs, '/');
  }

  /** The entry one row stores, keyed by the id of its link. */
  function Mapping(row: Row): (r: Result<(string, Pub)>)
    ensures r.Err? <==> |row| < 4 || |Split(row[0], '/')| < 7
    ensures r.Err? ==> r.error == IndexError
    ensures r.Ok? ==> r.value == (ParseUrl(row[0]).value, Pub(row[1], row[2], row[3]))
  {
    if |row| < 1 then Err(IndexError)
    else
      var id :- ParseUrl(row[0]);
      if |row| < 4 then Err(IndexError) else Ok((id, Pub(row[1], row[2], row[3])))
  }

  /** A row is stored unless a later row has a link with the same id. */
  lemma LastRowWins(rows: seq<Row>, i: nat)
    requires Table(rows, Mapping).Ok? && i < |rows|
    requires forall j :: i < j < |rows| ==> ParseUrl(rows[j][0]) != ParseUrl(rows[i][0])
    ensures Table(rows, Mapping).value[ParseUrl(rows[i][0]).value] == Pub(rows[i][1], rows[i][2], rows[i][3])
  {
    TableLast(rows, Mapping, i);
  }

  /** `parse_csv(csv_in)`. */
  method ParseCsv(rows: seq<Row>) returns (r: Result<map<string, Pub>>)
    ensures r == Table(rows, Mapping)
    ensures r.Err? <==> exists i :: 0 <= i < |rows| && (|rows[i]| < 4 || |Split(rows[i][0], '/')| < 7)
    ensures r.Err? ==> r.error == IndexError
    ensures r.Ok? ==> forall k :: k in r.value ==> '/' !in k
  {
    r := FillTable(rows, Mapping);
    if r.Err? {
      var i :| 0 <= i < |rows| && Mapping(rows[i]) == Err(r.error);
    } else {
      forall k | k in r.value
        ensures '/' !in k
      {
        var i :| 0 <= i < |rows| && Mapping(rows[i]).value.0 == k;
      }
    }
  }

  /** The record written for one file: default metadata, every line fed. */
  function FileVolume(lines: seq<string>, stop: set<string>, stem: string -> string): Volume {
    VolumeOf(Defaulted(NewMeta), AddLines(NoText, lines, stop, stem))
  }

  /** Every line counts, marker or not: the text of a file read in two parts
      is the text of the first part, then the tokens of the second added,
      and the lists stay consistent. */
  lemma FileText(a: seq<string>, b: seq<string>, stop: set<string>, stem: string -> string)
    ensures Get(FileVolume(a + b, stop, stem), "Text")
            == Ok(JStrs(AddLines(AddLines(NoText, a, stop, stem), b, stop, stem).c))
    ensures Get(FileVolume(a + b, stop, stem), "Date") == Ok(JStr(NewMeta.y))
    ensures Consistent(AddLines(NoText, a + b, stop, stem), stop, stem)
  {
    AddLinesAppend(NoText, a, b, stop, stem);
    VolumeReadBack(Defaulted(NewMeta), AddLines(NoText, a + b, stop, stem));
    NoTextConsistent(stop, stem);
    AddLinesConsistent(NoText, a + b, stop, stem);
  }

  /** What the walk writes for one file. */
  function FileOut(f: TextFile, stop: set<string>, stem: string -> string): Option<(string, Volume)> {
    if Hidden(f.name) then None else Some((JsonName(f.name), FileVolume(f.lines, stop, stem)))
  }

  /** Everything written: one record per file that is not hidden. */
  function Outputs(files: seq<TextFile>, stop: set<string>, stem: string -> string)
    : (r: seq<(string, Volume)>)
    ensures |r| <= |files|
  {
    if files == [] then []
    else Written(FileOut(files[0], stop, stem)) + Outputs(files[1..], stop, stem)
  }

  /** Exactly the files that are not hidden are written, in order. */
  lemma {:induction false} OutputsNames(files: seq<TextFile>, stop: set<string>, stem: string -> string)
    ensures |Outputs(files, stop, stem)| == |Visible(files)|
    ensures forall k :: 0 <= k < |Visible(files)| ==>
              Outputs(files, stop, stem)[k].0 == JsonName(Visible(files)[k].name)
  {
    if files != [] {
      OutputsNames(files[1..], stop, stem);
      var rest := Outputs(files[1..], stop, stem);
      var vis := Visible(files[1..]);
      if Hidden(files[0].name) {
        assert Outputs(files, stop, stem) == rest;
        assert Visible(files) == vis;
      } else {
        var o := (JsonName(files[0].name), FileVolume(files[0].lines, stop, stem));
        assert Outputs(files, stop, stem) == [o] + rest;
        assert Visible(files) == [files[0]] + vis;
        forall k | 0 <= k < |Visible(files)|
          ensures Outputs(files, stop, stem)[k].0 == JsonName(Visible(files)[k].name)
        {
          if k > 0 {
            assert Outputs(files, stop, stem)[k] == rest[k - 1];
            assert Visible(files)[k] == vis[k - 1];
          }
        }
      }
    }
  }

  /** The files that are not hidden. */
  function Visible(files: seq<TextFile>): seq<TextFile> {
    if files == [] then []
    else (if Hidden(files[0].name) then [] else [files[0]]) + Visible(files[1..])
  }

  /** One file: every line to `add_content`, then `build_json`. */
  method ParseFile(f: TextFile, stop: set<string>, stem: string -> string) returns (v: Volume)
    ensures v == FileVolume(f.lines, stop, stem)
  {
    var obj := new Parsed();
    assert obj.Meta() == NewMeta;
    AddEachLine(f.lines, obj, stop, stem);
    assert obj.Meta() == NewMeta;
    v := BuildJson(obj);
  }

  /** `parse_txt(in_dir, ids, out_dir)`; the mapping is not consulted. */
  method ParseTxt(files: seq<TextFile>, stop: set<string>, stem: string -> string)
    returns (out: seq<(string, Volume)>)
    ensures out == Outputs(files, stop, stem)
  {
    out := [];
    for i := 0 to |files|
      invariant out + Outputs(files[i..], stop, stem) == Outputs(files, stop, stem)
    {
      assert files[i..][1..] == files[i + 1..];
      var o := None;
      if !Hidden(files[i].name) {
        var v := ParseFile(files[i], stop, stem);
        o := Some((JsonName(files[i].name), v));
      }
      assert o == FileOut(files[i], stop, stem);
      var tail := Outputs(files[i + 1..], stop, stem);
      AppendShift(out, Written(o), tail);
      out := out + Written(o);
    }
  }
}

/** parsing/lit_corpora/crawlers/banken_crawler.py: the links to download.
    The browser that follows them is not modelled. */
module BankenCrawler {
  import opened Wrappers
  import opened PyStr
  import opened PyList
  import opened LitShared
  import BankenTxt

  /** The first column of a row; a blank line raises. */
  function FirstColumn(row: Row): (r: Result<Option<string>>)
    ensures r.Err? <==> row == []
    ensures r.Err? ==> r.error == IndexError
    ensures r.Ok? ==> r.value == Some(row[0])
  {
    if row == [] then Err(IndexError) else Ok(Some(row[0]))
  }

  /** `get_urls(csv_file)`: the first column of every row, in order, with no
      header skipped. */
  method GetUrls(rows: seq<Row>) returns (r: Result<seq<string>>)
    ensures r == Collect(rows, FirstColumn)
    ensures r.Err? <==> exists i :: 0 <= i < |rows| && rows[i] == []
    ensures r.Err? ==> r.error == IndexError
    ensures r.Ok? ==> |r.value| == |rows|
    ensures r.Ok? ==> forall k :: 0 <= k < |r.value| ==> rows[k] != [] && r.value[k] == rows[k][0]
  {
    r := CollectRows(rows, FirstColumn);
    if r.Ok? {
      CollectKept(rows, FirstColumn);
      KeptEvery(rows, FirstColumn);
    } else {
      var i :| 0 <= i < |rows| && FirstColumn(rows[i]) == Err(r.error);
    }
  }

  /** `csv_path(path_str)`: the crawler sits one directory deeper than the
      parsers. */
  function CsvPath(dir: string): string {
    Dirname(dir, -2) + "/data/csv/LB/lit_banken.csv"
  }

  /** The crawler and the parser find the same CSV file. */
  lemma CsvPathOf(base: string, last: string)
    requires '/' !in last
    ensures CsvPath(base + "/crawlers/" + last) == BankenTxt.CsvPath(base + "/" + last)
  {
    assert base + "/crawlers/" + last == base + "/" + "crawlers" + "/" + last;
    DirnameTwo(base, "crawlers", last);
    BankenTxt.CsvPathOf(base, last);
  }

  /** `parse_url(base_url)`: the epub link of a volume page. */
  function ParseUrl(url: string): (r: Result<string>)
    ensures r.Err? <==> |Split(url, '/')| < 7
    ensures r.Err? ==> r.error == IndexError
  {
    var parts := Split(url, '/');
    if |parts| < 7 then Err(IndexError)
    else Ok(parts[0] + "//" + parts[2] + "/txt/epub/" + parts[4] + "_" + parts[6] + ".epub")
  }

  /** The epub is named after the id the parser files the volume under, and
      both fail on the same links. */
  lemma EpubOfId(url: string)
    ensures ParseUrl(url).Err? <==> BankenTxt.ParseUrl(url).Err?
    ensures ParseUrl(url).Ok? ==>
              var parts := Split(url, '/');
              ParseUrl(url).value == parts[0] + "//" + parts[2] + "/txt/epub/" + BankenTxt.ParseUrl(url).value + ".epub"
  {
  }

  /** The link of a volume page made of at least seven segments. */
  lemma ParseUrlOf(segs: seq<string>)
    requires |segs| >= 7
    requires forall i :: 0 <= i < |segs| ==> '/' !in segs[i]
    ensures ParseUrl(Join("/", segs))
            == Ok(segs[0] + "//" + segs[2] + "/txt/epub/" + segs[4] + "_" + segs[6] + ".epub")
  {
    JoinSplit(segs, '/');
  }
}
