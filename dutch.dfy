/** parsing/lit_corpora/xml/dutch.py: the `DutchParser` of XML volumes. The
    CSV is read as plain text and split on line breaks and commas; each
    XML file whose name, minus its last nine characters, is a CSV id is
    parsed. What `get_text` collects from a document's `<text>` elements is
    an input here. */
module DutchXml {
  import opened Wrappers
  import opened PyStr
  import opened PyList
  import opened Records
  import opened ParsedObjects
  import opened ParsingUtils
  import opened LitShared

  // ---------------------------------------------------------------------
  // set_csv

  /** The rows `set_csv` yields: one per line, split at every comma. */
  function CsvRows(data: string): (r: seq<Row>)
    ensures |r| == |Split(data, '\n')|
    ensures forall i :: 0 <= i < |r| ==> r[i] == Split(Split(data, '\n')[i], ',')
  {
    var lines := Split(data, '\n');
    seq(|lines|, i requires 0 <= i < |lines| => Split(lines[i], ','))
  }

  /** Rows written back with commas and line breaks. */
  function Unsplit(rows: seq<Row>): seq<string> {
    seq(|rows|, i requires 0 <= i < |rows| => Join(",", rows[i]))
  }

  /** Nothing is lost: joining the rows back gives the file. */
  lemma CsvRowsJoin(data: string)
    ensures Join("\n", Unsplit(CsvRows(data))) == data
  {
    var lines := Split(data, '\n');
    forall i | 0 <= i < |lines|
      ensures Unsplit(CsvRows(data))[i] == lines[i]
    {
      SplitJoin(lines[i], ',');
    }
    assert Unsplit(CsvRows(data)) == lines;
    SplitJoin(data, '\n');
  }

  /** Quotes do not protect commas: a quoted field holding a comma becomes
      two fields. */
  lemma QuotedComma(a: string, b: string)
    requires ',' !in a && ',' !in b && '\n' !in a && '\n' !in b && '"' !in a && '"' !in b
    ensures CsvRows("\"" + a + "," + b + "\"") == [["\"" + a, b + "\""]]
  {
    var s := "\"" + a + "," + b + "\"";
    assert s == ("\"" + a) + [','] + (b + "\"");
    SplitFree(s, '\n');
    SplitPair("\"" + a, b + "\"", ',');
  }

  /** `set_csv()` on the contents of the CSV file. */
  method SetCsv(data: string) returns (ret: seq<Row>)
    ensures ret == CsvRows(data)
  {
    ret := [];
    var lines := Split(data, '\n');
    for i := 0 to |lines|
      invariant |ret| == i
      invariant forall k :: 0 <= k < i ==> ret[k] == Split(lines[k], ',')
    {
      ret := ret + [Split(lines[i], ',')];
    }
  }

  // ---------------------------------------------------------------------
  // map_files

  /** The entry one row stores, keyed by its first field without quotes. */
  function Mapping(row: Row): (r: Result<(string, Pub)>)
    ensures r.Err? <==> |row| < 4
    ensures r.Err? ==> r.error == IndexError
    ensures r.Ok? ==> r.value == (StripQuotes(row[0]), Pub(row[3], row[2], row[1]))
  {
    if |row| < 4 then Err(IndexError) else Ok((StripQuotes(row[0]), Pub(row[3], row[2], row[1])))
  }

  /** A row is stored unless a later row has the same id. */
  lemma LastRowWins(rows: seq<Row>, i: nat)
    requires Table(rows, Mapping).Ok? && i < |rows|
    requires forall j :: i < j < |rows| ==> StripQuotes(rows[j][0]) != StripQuotes(rows[i][0])
    ensures Table(rows, Mapping).value[StripQuotes(rows[i][0])] == Pub(rows[i][3], rows[i][2], rows[i][1])
  {
    TableLast(rows, Mapping, i);
  }

  /** `map_files()`. */
  method MapFiles(data: string) returns (r: Result<map<string, Pub>>)
    ensures r == Table(CsvRows(data), Mapping)
    ensures r.Err? <==> exists i :: 0 <= i < |CsvRows(data)| && |CsvRows(data)[i]| < 4
    ensures r.Err? ==> r.error == IndexError
  {
    var csvData := SetCsv(data);
    r := FillTable(csvData, Mapping);
    if r.Err? {
      var i :| 0 <= i < |csvData| && Mapping(csvData[i]) == Err(r.error);
    }
  }

  /** A file that ends with a line break ends with an empty line, and that
      line has too few fields. */
  lemma TrailingNewline(body: string)
    ensures Table(CsvRows(body + "\n"), Mapping) == Err(IndexError)
  {
    assert body + "\n" == body + ['\n'] + "";
    SplitConcat(body, "", '\n');
    var rows := CsvRows(body + "\n");
    assert rows[|rows| - 1] == [""];
  }

  // ---------------------------------------------------------------------
  // parse_files and _parse_files

  /** An XML file: its name and the lists `get_text` fills from it. */
  datatype XmlDoc = XmlDoc(name: string, text: TextLists)

  /** `doc[:-9]`: the id a file is looked up by, and its output name. */
  function Id(name: string): string {
    Prefix(name, -9)
  }

  /** The files `parse_files` hands on. */
  predicate Selected(name: string, mapping: map<string, Pub>) {
    Suffix(name, -3) == "xml" && Id(name) in mapping
  }

  /** A file named by an id and nine more characters ending in `xml` is
      parsed exactly when the id is mapped. */
  lemma SelectedName(id: string, tail: string, mapping: map<string, Pub>)
    requires |tail| == 9 && tail[6..] == "xml"
    ensures Selected(id + tail, mapping) <==> id in mapping
    ensures Id(id + tail) == id
  {
    assert (id + tail)[..|id|] == id;
    assert (id + tail)[|id + tail| - 3..] == tail[6..];
  }

  /** The metadata `_parse_files` sets from a CSV entry. */
  function PubMeta(p: Pub): (m: Metadata)
    ensures m.a == Some(p.author) && m.t == Some(p.title) && m.y == p.pubdate
    ensures m.(a := NewMeta.a, t := NewMeta.t, y := NewMeta.y) == NewMeta
  {
    NewMeta.(a := Some(p.author), t := Some(p.title), y := p.pubdate)
  }

  /** The record written for a selected file. */
  function DocVolume(doc: XmlDoc, mapping: map<string, Pub>): Volume
    requires Id(doc.name) in mapping
  {
    VolumeOf(Defaulted(PubMeta(mapping[Id(doc.name)])), doc.text)
  }

  /** A record carries the date of its id's entry and the text of its
      document. */
  lemma DocFields(doc: XmlDoc, mapping: map<string, Pub>)
    requires Id(doc.name) in mapping
    ensures Get(DocVolume(doc, mapping), "Date") == Ok(JStr(mapping[Id(doc.name)].pubdate))
    ensures Get(DocVolume(doc, mapping), "Text") == Ok(JStrs(doc.text.c))
  {
    VolumeReadBack(Defaulted(PubMeta(mapping[Id(doc.name)])), doc.text);
  }

  /** What the walk writes for one file. */
  function DocOut(doc: XmlDoc, mapping: map<string, Pub>): Option<(string, Volume)> {
    if Selected(doc.name, mapping) then Some((Id(doc.name), DocVolume(doc, mapping))) else None
  }

  /** Everything written. */
  function Outputs(docs: seq<XmlDoc>, mapping: map<string, Pub>): (r: seq<(string, Volume)>)
    ensures |r| <= |docs|
  {
    if docs == [] then []
    else Written(DocOut(docs[0], mapping)) + Outputs(docs[1..], mapping)
  }

  /** Every output is named by a mapped id, taken from a file ending in
      `xml`. */
  lemma {:induction false} OutputsFrom(docs: seq<XmlDoc>, mapping: map<string, Pub>)
    ensures forall o :: o in Outputs(docs, mapping) ==>
              o.0 in mapping && exists d :: d in docs && Suffix(d.name, -3) == "xml" && o.0 == Id(d.name)
  {
    if docs != [] {
      OutputsFrom(docs[1..], mapping);
      assert forall d :: d in docs[1..] ==> d in docs;
    }
  }

  /** `_parse_files(doc, subdir)`: the text first, then author, title and
      date from the entry of `doc[:-9]`. */
  method ParseDoc(doc: XmlDoc, mapping: map<string, Pub>) returns (r: (string, Volume))
    requires Id(doc.name) in mapping
    ensures r == (Id(doc.name), DocVolume(doc, mapping))
  {
    var obj := new Parsed();
    GetText(doc.text, obj);
    var pubInfo := mapping[Prefix(doc.name, -9)];
    obj.a, obj.t, obj.y := Some(pubInfo.author), Some(pubInfo.title), pubInfo.pubdate;
    assert obj.Meta() == PubMeta(pubInfo) && obj.Lists() == doc.text;
    var v := BuildJson(obj);
    r := (Prefix(doc.name, -9), v);
  }

  /** `get_text(tree, obj)` on a fresh object: the lists end up holding
      what was collected from the document. */
  method GetText(text: TextLists, obj: Parsed)
    modifies obj
    ensures obj.Meta() == old(obj.Meta())
    ensures obj.Lists() == text
  {
    obj.c, obj.cstem, obj.tx, obj.txstem := text.c, text.cstem, text.tx, text.txstem;
    obj.cSent, obj.txSent, obj.cstemSent, obj.txstemSent :=
      text.cSent, text.txSent, text.cstemSent, text.txstemSent;
  }

  /** `parse_files()`. */
  method ParseFiles(docs: seq<XmlDoc>, mapping: map<string, Pub>) returns (out: seq<(string, Volume)>)
    ensures out == Outputs(docs, mapping)
  {
    out := [];
    for i := 0 to |docs|
      invariant out + Outputs(docs[i..], mapping) == Outputs(docs, mapping)
    {
      assert docs[i..][1..] == docs[i + 1..];
      var o := None;
      if Suffix(docs[i].name, -3) == "xml" {
        if Prefix(docs[i].name, -9) in mapping {
          var w := ParseDoc(docs[i], mapping);
          o := Some(w);
        }
      }
      assert o == DocOut(docs[i], mapping);
      var tail := Outputs(docs[i + 1..], mapping);
      AppendShift(out, Written(o), tail);
      out := out + Written(o);
    }
  }
}
