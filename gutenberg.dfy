/** parsing/lit_corpora/gutenberg_txt.py: Project Gutenberg text files to
    volume records. The CSV lists each book's link, author, title and year;
    the book's id is read from its 'Posting Date' line and looked up in that
    list; only the lines between the START and END markers are text. The
    stemmer and the (German) stop words are parameters. */
module GutenbergTxt {
  import opened Wrappers
  import opened PyStr
  import opened PyList
  import opened Records
  import opened ParsedObjects
  import opened ParsingUtils
  import opened LitShared

  /** A tuple of `parse_csv`: id, author, title and year. */
  datatype Entry = Entry(id: string, author: string, title: string, year: string)

  const Start := "START OF THIS PROJECT GUTENBERG EBOOK"
  const End := "END OF THIS PROJECT GUTENBERG EBOOK"
  const Posting := "Posting Date"

  // ---------------------------------------------------------------------
  // parse_link and parse_csv

  /** `parse_link(src)`: the second-to-last `/`-separated segment. */
  function ParseLink(src: string): (r: Result<string>)
    ensures r.Err? <==> |Split(src, '/')| < 2
    ensures r.Err? ==> r.error == IndexError
    ensures r.Ok? ==> '/' !in r.value
  {
    var parts := Split(src, '/');
    SplitPartsFree(src, '/');
    if |parts| < 2 then Err(IndexError) else Ok(parts[|parts| - 2])
  }

  /** The id is the segment before the last one of a link. */
  lemma ParseLinkOf(base: string, id: string, last: string)
    requires '/' !in id && '/' !in last
    ensures ParseLink(base + "/" + id + "/" + last) == Ok(id)
  {
    SplitConcat(base, id + ['/'] + last, '/');
    SplitPair(id, last, '/');
    assert base + "/" + id + "/" + last == base + ['/'] + (id + ['/'] + last);
  }

  predicate IsHeader(row: Row) {
    |row| >= 1 && row[0] == "source"
  }

  /** What one CSV row adds to the list: nothing for the header, the tuple
      for a data row, or an `IndexError` for a short row. */
  function CsvEntry(row: Row): (r: Result<Option<Entry>>)
    ensures r == Ok(None) <==> IsHeader(row)
    ensures r.Err? ==> r.error == IndexError
    ensures r.Ok? && r.value.Some? ==>
              && |row| >= 4
              && ParseLink(row[0]) == Ok(r.value.value.id)
              && r.value.value == Entry(r.value.value.id, row[1], row[2], row[3])
  {
    if |row| == 0 then Err(IndexError)
    else if row[0] == "source" then Ok(None)
    else
      var id :- ParseLink(row[0]);
      if |row| < 4 then Err(IndexError) else Ok(Some(Entry(id, row[1], row[2], row[3])))
  }

  /** The rows that are not the header. */
  function DataRows(rows: seq<Row>): (r: seq<Row>)
    ensures forall i :: 0 <= i < |r| ==> !IsHeader(r[i])
  {
    if rows == [] then []
    else (if IsHeader(rows[0]) then [] else [rows[0]]) + DataRows(rows[1..])
  }

  /** When no row fails, the rows kept are exactly the data rows. */
  lemma {:induction false} KeptDataRows(rows: seq<Row>)
    requires Collect(rows, CsvEntry).Ok?
    ensures Kept(rows, CsvEntry) == DataRows(rows)
  {
    if rows != [] {
      assert CsvEntry(rows[0]).Ok?;
      KeptDataRows(rows[1..]);
    }
  }

  /** `parse_csv(csv_in)`: one tuple per data row, in order; the header is
      skipped. */
  method ParseCsv(rows: seq<Row>) returns (r: Result<seq<Entry>>)
    ensures r == Collect(rows, CsvEntry)
    ensures r.Err? ==> r.error == IndexError
    ensures r.Ok? ==> |r.value| == |DataRows(rows)|
    ensures r.Ok? ==> forall k :: 0 <= k < |r.value| ==> CsvEntry(DataRows(rows)[k]) == Ok(Some(r.value[k]))
  {
    r := CollectRows(rows, CsvEntry);
    if r.Ok? {
      CollectKept(rows, CsvEntry);
      KeptDataRows(rows);
    }
  }

  // ---------------------------------------------------------------------
  // get_idno and match_pub_info

  /** `get_idno(line)`: characters `[-5:-1]` of the last blank-separated
      token; `IndexError` for a blank line. */
  function GetIdno(line: string): (r: Result<string>)
    ensures r.Err? <==> Words(line) == []
    ensures r.Err? ==> r.error == IndexError
    ensures r.Ok? ==> |r.value| <= 4
  {
    var elems := Words(line);
    if elems == [] then Err(IndexError)
    else
      var elem := elems[|elems| - 1];
      Ok(Slice(elem, -5, -1))
  }

  /** The id of `... [EBook #12345]` is read off its last token. */
  lemma GetIdnoOf(ws: seq<string>, last: string)
    requires forall i :: 0 <= i < |ws| ==> IsWord(ws[i])
    requires IsWord(last) && |last| >= 5
    ensures GetIdno(Join(" ", ws + [last])) == Ok(last[|last| - 5..|last| - 1])
  {
    var elems := ws + [last];
    assert forall i :: 0 <= i < |elems| ==> IsWord(elems[i]);
    WordsJoin(elems);
    assert Words(Join(" ", elems)) == elems;
    assert elems[|elems| - 1] == last;
    assert SliceBound(-5, |last|) == |last| - 5 && SliceBound(-1, |last|) == |last| - 1;
    assert Slice(last, -5, -1) == last[|last| - 5..|last| - 1];
  }

  /** A line that has a non-blank character has a token. */
  lemma {:induction false} ContainsWord(line: string, sub: string)
    requires Contains(line, sub) && sub != [] && !IsSpace(sub[0])
    ensures Words(line) != []
    decreases |line|
  {
    if !StartsWith(line, sub) {
      ContainsWord(line[1..], sub);
    }
  }

  /** The id of a 'Posting Date' line can always be read. */
  lemma PostingIdno(line: string)
    requires Contains(line, Posting)
    ensures GetIdno(line).Ok?
  {
    ContainsWord(line, Posting);
  }

  /** Index of the first entry with id `idno`, or `|ids|`. */
  function FirstMatch(idno: string, ids: seq<Entry>): (i: nat)
    ensures i <= |ids|
    ensures i < |ids| ==> ids[i].id == idno
    ensures forall j :: 0 <= j < i ==> ids[j].id != idno
  {
    if ids == [] then 0
    else if ids[0].id == idno then 0
    else 1 + FirstMatch(idno, ids[1..])
  }

  /** `match_pub_info(idno, ids)`: the first tuple with that id; without
      one the script exits. */
  function MatchPubInfo(idno: string, ids: seq<Entry>): (r: Result<Entry>)
    ensures r.Ok? <==> exists i :: 0 <= i < |ids| && ids[i].id == idno
    ensures r.Err? ==> r.error == Exit
    ensures r.Ok? ==> r.value == ids[FirstMatch(idno, ids)] && r.value.id == idno
  {
    var i := FirstMatch(idno, ids);
    if i < |ids| then Ok(ids[i]) else Err(Exit)
  }

  // ---------------------------------------------------------------------
  // parse_txt

  /** The `reading` flag once a line's marker checks are done: START sets
      it, END clears it, and END wins on a line with both. */
  function ReadingAfter(line: string, reading: bool): bool {
    (reading || Contains(line, Start)) && !Contains(line, End)
  }

  /** The lines passed to `add_content`, starting with the flag `reading`. */
  function Fed(lines: seq<string>, reading: bool): (r: seq<string>)
    ensures |r| <= |lines|
    ensures forall i :: 0 <= i < |r| ==> !Contains(r[i], Start) && !Contains(r[i], End)
  {
    if lines == [] then []
    else
      var rd := ReadingAfter(lines[0], reading);
      (if rd && !Contains(lines[0], Start) then [lines[0]] else []) + Fed(lines[1..], rd)
  }

  predicate NoMarker(lines: seq<string>, m: string) {
    forall i :: 0 <= i < |lines| ==> !Contains(lines[i], m)
  }

  /** Nothing before the first START line is text. */
  lemma {:induction false} FedBeforeStart(pre: seq<string>, post: seq<string>)
    requires NoMarker(pre, Start)
    ensures Fed(pre + post, false) == Fed(post, false)
  {
    if pre != [] {
      assert (pre + post)[0] == pre[0] && (pre + post)[1..] == pre[1..] + post;
      assert !Contains(pre[0], Start);
      assert !ReadingAfter(pre[0], false);
      FedBeforeStart(pre[1..], post);
    } else {
      assert pre + post == post;
    }
  }

  /** While reading, every line without a marker is text. */
  lemma {:induction false} FedBody(body: seq<string>, post: seq<string>)
    requires NoMarker(body, Start) && NoMarker(body, End)
    ensures Fed(body + post, true) == body + Fed(post, true)
  {
    if body != [] {
      assert (body + post)[0] == body[0] && (body + post)[1..] == body[1..] + post;
      assert !Contains(body[0], Start) && !Contains(body[0], End);
      assert ReadingAfter(body[0], true);
      FedBody(body[1..], post);
      assert body == [body[0]] + body[1..];
    } else {
      assert body + post == post;
    }
  }

  /** Of a book `pre, START line, body, END line, post`, the text is the
      body: neither marker line is added, and after END reading stops until
      the next START. */
  lemma FedSection(pre: seq<string>, s: string, body: seq<string>, e: string, post: seq<string>)
    requires NoMarker(pre, Start)
    requires Contains(s, Start) && !Contains(s, End)
    requires NoMarker(body, Start) && NoMarker(body, End)
    requires Contains(e, End)
    ensures Fed(pre + [s] + body + [e] + post, false) == body + Fed(post, false)
  {
    var tail := [e] + post;
    var x := [s] + (body + tail);
    assert pre + [s] + body + [e] + post == pre + x;
    FedBeforeStart(pre, x);
    FedStart(s, body + tail);
    FedBody(body, tail);
    FedEnd(e, post);
  }

  lemma FedStart(s: string, rest: seq<string>)
    requires Contains(s, Start) && !Contains(s, End)
    ensures Fed([s] + rest, false) == Fed(rest, true)
  {
    FedCons(s, rest, false);
    assert ReadingAfter(s, false);
    assert [] + Fed(rest, true) == Fed(rest, true);
  }

  lemma FedEnd(e: string, rest: seq<string>)
    requires Contains(e, End)
    ensures Fed([e] + rest, true) == Fed(rest, false)
  {
    FedCons(e, rest, true);
    assert !ReadingAfter(e, true);
    assert [] + Fed(rest, false) == Fed(rest, false);
  }

  lemma FedCons(line: string, rest: seq<string>, reading: bool)
    ensures Fed([line] + rest, reading)
            == (if ReadingAfter(line, reading) && !Contains(line, Start) then [line] else [])
               + Fed(rest, ReadingAfter(line, reading))
  {
    assert ([line] + rest)[0] == line && ([line] + rest)[1..] == rest;
  }

  /** The metadata once a line has been looked at: a 'Posting Date' line
      sets author, title and year from the matching tuple. */
  function LineInfo(line: string, ids: seq<Entry>, m: Metadata): (r: Result<Metadata>)
    ensures r.Err? ==> r.error == Exit
  {
    if Contains(line, Posting) then
      PostingIdno(line);
      var e :- MatchPubInfo(GetIdno(line).value, ids);
      Ok(m.(a := Some(e.author), t := Some(e.title), y := e.year))
    else Ok(m)
  }

  /** The metadata once all lines have been looked at. */
  function PubInfo(lines: seq<string>, ids: seq<Entry>, m: Metadata): (r: Result<Metadata>)
    ensures r.Err? ==> r.error == Exit
    decreases |lines|
  {
    if lines == [] then Ok(m)
    else
      var m' :- LineInfo(lines[0], ids, m);
      PubInfo(lines[1..], ids, m')
  }

  lemma {:induction false} PubInfoAppend(a: seq<string>, b: seq<string>, ids: seq<Entry>, m: Metadata)
    ensures PubInfo(a + b, ids, m) == (var m' :- PubInfo(a, ids, m); PubInfo(b, ids, m'))
    decreases |a|
  {
    if a == [] {
      assert a + b == b;
    } else {
      assert (a + b)[0] == a[0] && (a + b)[1..] == a[1..] + b;
      if LineInfo(a[0], ids, m).Ok? {
        PubInfoAppend(a[1..], b, ids, LineInfo(a[0], ids, m).value);
      }
    }
  }

  lemma {:induction false} PubInfoNoPosting(lines: seq<string>, ids: seq<Entry>, m: Metadata)
    requires NoMarker(lines, Posting)
    ensures PubInfo(lines, ids, m) == Ok(m)
    decreases |lines|
  {
    if lines != [] {
      PubInfoNoPosting(lines[1..], ids, m);
    }
  }

  /** The last 'Posting Date' line decides author, title and year; nothing
      else of the metadata changes. */
  lemma PostingLast(pre: seq<string>, line: string, post: seq<string>, ids: seq<Entry>, m: Metadata, e: Entry)
    requires Contains(line, Posting) && NoMarker(post, Posting)
    requires GetIdno(line).Ok? && MatchPubInfo(GetIdno(line).value, ids) == Ok(e)
    ensures PubInfo(pre + [line] + post, ids, m)
            == (var m1 :- PubInfo(pre, ids, m); Ok(m1.(a := Some(e.author), t := Some(e.title), y := e.year)))
  {
    PubInfoAppend(pre, [line] + post, ids, m);
    assert pre + [line] + post == pre + ([line] + post);
    if PubInfo(pre, ids, m).Ok? {
      var m1 := PubInfo(pre, ids, m).value;
      assert ([line] + post)[0] == line && ([line] + post)[1..] == post;
      PubInfoNoPosting(post, ids, m1.(a := Some(e.author), t := Some(e.title), y := e.year));
    }
  }

  /** The record written for a book with lines `lines`, or the exit when a
      'Posting Date' id has no tuple. */
  function BookVolume(lines: seq<string>, ids: seq<Entry>, stop: set<string>, stem: string -> string): (r: Result<Volume>)
    ensures r.Err? ==> r.error == Exit
  {
    var m :- PubInfo(lines, ids, NewMeta);
    Ok(VolumeOf(Defaulted(m), AddLines(NoText, Fed(lines, false), stop, stem)))
  }

  /** The body of the loop over files: one book read line by line. */
  method ParseBook(lines: seq<string>, ids: seq<Entry>, stop: set<string>, stem: string -> string)
    returns (r: Result<Volume>)
    ensures r == BookVolume(lines, ids, stop, stem)
  {
    var reading := false;
    var obj := new Parsed();
    var rest := lines;
    while rest != []
      invariant PubInfo(rest, ids, obj.Meta()) == PubInfo(lines, ids, NewMeta)
      invariant AddLines(obj.Lists(), Fed(rest, reading), stop, stem) == AddLines(NoText, Fed(lines, false), stop, stem)
    {
      var err := ReadPosting(rest, ids, obj);
      if err.Some? {
        return Err(err.value);
      }
      reading := ReadText(rest, reading, obj, stop, stem);
      rest := rest[1..];
    }
    var v := BuildJson(obj);
    return Ok(v);
  }

  /** The 'Posting Date' check of the line `rest[0]`. */
  method ReadPosting(rest: seq<string>, ids: seq<Entry>, obj: Parsed) returns (err: Option<Error>)
    requires rest != []
    modifies obj
    ensures err.Some? ==> PubInfo(rest, ids, old(obj.Meta())) == Err(err.value)
    ensures err.None? ==> PubInfo(rest[1..], ids, obj.Meta()) == PubInfo(rest, ids, old(obj.Meta()))
    ensures obj.Lists() == old(obj.Lists())
  {
    var line := rest[0];
    if Contains(line, Posting) {
      PostingIdno(line);
      var idno := GetIdno(line).value;
      var pub := MatchPubInfo(idno, ids);
      if pub.Err? {
        return Some(pub.error);
      }
      obj.a, obj.t, obj.y := Some(pub.value.author), Some(pub.value.title), pub.value.year;
    }
    return None;
  }

  /** The marker checks of the line `rest[0]`, then `add_content` when
      reading. */
  method ReadText(rest: seq<string>, reading: bool, obj: Parsed, stop: set<string>, stem: string -> string)
    returns (rd: bool)
    requires rest != []
    modifies obj
    ensures obj.Meta() == old(obj.Meta())
    ensures AddLines(obj.Lists(), Fed(rest[1..], rd), stop, stem)
            == AddLines(old(obj.Lists()), Fed(rest, reading), stop, stem)
  {
    var line := rest[0];
    FedCons(line, rest[1..], reading);
    assert [line] + rest[1..] == rest;
    rd := reading;
    if Contains(line, Start) {
      rd := true;
    }
    if Contains(line, End) {
      rd := false;
    }
    var tail := Fed(rest[1..], rd);
    if rd && !Contains(line, Start) {
      AddContent(line, obj, stop, stem);
      assert ([line] + tail)[0] == line && ([line] + tail)[1..] == tail;
    } else {
      assert [] + tail == tail;
    }
  }

  /** All records written for a directory, named after their files; hidden
      files are skipped, and a failed lookup ends the run. */
  function Books(files: seq<TextFile>, ids: seq<Entry>, stop: set<string>, stem: string -> string)
    : (r: Result<seq<(string, Volume)>>)
    ensures r.Ok? ==> |r.value| <= |files|
    ensures r.Err? ==> r.error == Exit
  {
    if files == [] then Ok([])
    else if Hidden(files[0].name) then Books(files[1..], ids, stop, stem)
    else
      var v :- BookVolume(files[0].lines, ids, stop, stem);
      var rest :- Books(files[1..], ids, stop, stem);
      Ok([(JsonName(files[0].name), v)] + rest)
  }

  /** One pass of the file loop of `parse_txt`: a hidden file is skipped, a
      book that fails ends the walk, and any other book is appended. */
  lemma BooksNext(files: seq<TextFile>, ids: seq<Entry>, stop: set<string>, stem: string -> string,
                  i: nat, out: seq<(string, Volume)>)
    requires i < |files|
    requires Books(files, ids, stop, stem) == After(out, Books(files[i..], ids, stop, stem))
    ensures var v := BookVolume(files[i].lines, ids, stop, stem);
      && (Hidden(files[i].name) ==> Books(files, ids, stop, stem) == After(out, Books(files[i + 1..], ids, stop, stem)))
      && (!Hidden(files[i].name) && v.Err? ==> Books(files, ids, stop, stem) == Err(v.error))
      && (!Hidden(files[i].name) && v.Ok? ==>
            Books(files, ids, stop, stem) == After(out + [(JsonName(files[i].name), v.value)], Books(files[i + 1..], ids, stop, stem)))
  {
    assert files[i..][0] == files[i] && files[i..][1..] == files[i + 1..];
    var rest := Books(files[i + 1..], ids, stop, stem);
    if !Hidden(files[i].name) {
      var v := BookVolume(files[i].lines, ids, stop, stem);
      if v.Ok? {
        var entry := [(JsonName(files[i].name), v.value)];
        assert Books(files[i..], ids, stop, stem) == if rest.Ok? then Ok(entry + rest.value) else rest;
        AfterShift(out, entry, rest);
      }
    }
  }

  /** `parse_txt(in_dir, ids, out_dir)`. */
  method ParseTxt(files: seq<TextFile>, ids: seq<Entry>, stop: set<string>, stem: string -> string)
    returns (r: Result<seq<(string, Volume)>>)
    ensures r == Books(files, ids, stop, stem)
  {
    var out: seq<(string, Volume)> := [];
    var i := 0;
    assert files[0..] == files;
    AfterEmpty(Books(files, ids, stop, stem));
    while i < |files|
      invariant i <= |files|
      invariant Books(files, ids, stop, stem) == After(out, Books(files[i..], ids, stop, stem))
    {
      BooksNext(files, ids, stop, stem, i, out);
      if !Hidden(files[i].name) {
        var v := ParseBook(files[i].lines, ids, stop, stem);
        if v.Err? {
          return Err(v.error);
        }
        out := out + [(JsonName(files[i].name), v.value)];
      }
      i := i + 1;
    }
    assert out + [] == out;
    return Ok(out);
  }
}

/** parsing/lit_corpora/crawlers/gutenberg_crawler.py: the download links of
    the listed books. The browser that follows them is not modelled. */
module GutenbergCrawler {
  import opened Wrappers
  import opened PyStr
  import opened LitShared

  /** The first column of a row, skipped for the header. */
  function UrlOf(row: Row): (r: Result<Option<string>>)
    ensures r.Err? <==> row == []
    ensures r.Err? ==> r.error == IndexError
    ensures r.Ok? ==> (r.value.None? <==> row[0] == "source")
    ensures r.Ok? && r.value.Some? ==> r.value.value == row[0]
  {
    if row == [] then Err(IndexError)
    else if row[0] == "source" then Ok(None)
    else Ok(Some(row[0]))
  }

  /** `get_urls(csv_file)`. */
  method GetUrls(rows: seq<Row>) returns (r: Result<seq<string>>)
    ensures r == Collect(rows, UrlOf)
    ensures r.Err? <==> exists i :: 0 <= i < |rows| && rows[i] == []
    ensures r.Ok? ==> |r.value| == |Kept(rows, UrlOf)|
    ensures r.Ok? ==> forall k :: 0 <= k < |r.value| ==> UrlOf(Kept(rows, UrlOf)[k]) == Ok(Some(r.value[k]))
  {
    r := CollectRows(rows, UrlOf);
    if r.Ok? {
      CollectKept(rows, UrlOf);
    } else {
      var i :| 0 <= i < |rows| && UrlOf(rows[i]) == Err(r.error);
    }
  }

  /** A `show` segment becomes `download_xml`. */
  function Download(seg: string): (r: string)
    ensures r != "show"
    ensures '/' in r ==> '/' in seg
  {
    if seg != "show" then seg else "download_xml"
  }

  /** The download link: every `show` segment of the link replaced. */
  function Rewritten(url: string): string {
    var parts := Split(url, '/');
    Join("/", seq(|parts|, i requires 0 <= i < |parts| => Download(parts[i])))
  }

  /** The link keeps its number of segments; each is rewritten in place and
      none is `show`. */
  lemma RewrittenSegments(url: string)
    ensures |Split(Rewritten(url), '/')| == |Split(url, '/')|
    ensures forall i :: 0 <= i < |Split(url, '/')| ==>
              Split(Rewritten(url), '/')[i] == Download(Split(url, '/')[i])
    ensures forall i :: 0 <= i < |Split(Rewritten(url), '/')| ==> Split(Rewritten(url), '/')[i] != "show"
  {
    var parts := Split(url, '/');
    SplitPartsFree(url, '/');
    var out := seq(|parts|, i requires 0 <= i < |parts| => Download(parts[i]));
    JoinSplit(out, '/');
  }

  /** Rewriting a rewritten link changes nothing. */
  lemma RewrittenIdempotent(url: string)
    ensures Rewritten(Rewritten(url)) == Rewritten(url)
  {
    RewrittenSegments(url);
    var once := Rewritten(url);
    var parts := Split(once, '/');
    assert forall i :: 0 <= i < |parts| ==> Download(parts[i]) == parts[i];
    assert seq(|parts|, i requires 0 <= i < |parts| => Download(parts[i])) == parts;
    SplitJoin(once, '/');
  }

  /** `parse_url(base_url)`. */
  method ParseUrl(url: string) returns (r: string)
    ensures r == Rewritten(url)
  {
    var parts := Split(url, '/');
    var parsed: seq<string> := [];
    for i := 0 to |parts|
      invariant |parsed| == i
      invariant forall j :: 0 <= j < i ==> parsed[j] == Download(parts[j])
    {
      if parts[i] != "show" {
        parsed := parsed + [parts[i]];
      } else {
        parsed := parsed + ["download_xml"];
      }
    }
    assert parsed == seq(|parts|, i requires 0 <= i < |parts| => Download(parts[i]));
    r := Join("/", parsed);
  }
}
