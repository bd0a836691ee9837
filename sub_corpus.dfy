/** `Corpus.build_sub_corpus` (corpus/corpus.py and src/corpus.py): from a
    corpus directory, write one small JSON document per occurrence of a
    keyword n-gram. Each document holds the n-grams around the occurrence,
    the volume's title, author and year, and the joined keywords. The model
    returns the extracts in the order they are written; the file name and
    the JSON body of each are functions of its extract. */
module SubCorpus {
  import opened Wrappers
  import opened PyStr
  import opened PyList
  import opened Records
  import opened CorpusUtils
  import R = RawFrequency

  type Ngram = seq<string>

  /** `sys.maxsize` on a 64-bit interpreter. */
  const MaxSize: int := 0x7FFF_FFFF_FFFF_FFFF

  /** `y_min, y_max`: `±sys.maxsize` without a range, otherwise its first
      two entries (a shorter list is an `IndexError`). */
  function YearBounds(yRange: Option<seq<int>>): (r: Result<(int, int)>)
    ensures yRange.None? ==> r == Ok((-MaxSize, MaxSize))
    ensures yRange.Some? ==> (r.Ok? <==> |yRange.value| >= 2)
    ensures yRange.Some? && r.Ok? ==> r.value == (yRange.value[0], yRange.value[1])
    ensures r.Err? ==> r.error == IndexError
  {
    match yRange
    case None => Ok((-MaxSize, MaxSize))
    case Some(ys) => if |ys| < 2 then Err(IndexError) else Ok((ys[0], ys[1]))
  }

  /** `y_min <= year <= y_max`. */
  predicate Accepts(bounds: (int, int), year: int) {
    bounds.0 <= year <= bounds.1
  }

  /** Both ends of a given range are kept, and without a range every year
      a 64-bit interpreter can hold is kept. */
  lemma AcceptsInclusive(yRange: Option<seq<int>>, year: int)
    requires YearBounds(yRange).Ok?
    ensures yRange.None? ==> (Accepts(YearBounds(yRange).value, year) <==> -MaxSize <= year <= MaxSize)
    ensures yRange.Some? ==>
              (Accepts(YearBounds(yRange).value, year) <==> yRange.value[0] <= year <= yRange.value[1])
  {
  }

  /** `int(doc_size / 2)`: true division, then truncation toward zero. */
  function Half(d: int): (h: int)
    ensures d >= 0 ==> 0 <= h && d - 1 <= 2 * h <= d
    ensures d < 0 ==> h <= 0 && d <= 2 * h <= d + 1
  {
    if d >= 0 then d / 2 else -((-d) / 2)
  }

  /** `text[(i - h):(i + h)]` under Python's slice rules. */
  function Window(text: seq<Ngram>, i: int, h: int): (r: seq<Ngram>)
    ensures |r| <= |text|
  {
    Slice(text, i - h, i + h)
  }

  /** Away from the ends of the text the window is the `2h` n-grams centred
      on the match; never longer than `2h`. */
  lemma WindowCentred(text: seq<Ngram>, i: nat, h: nat)
    requires i < |text|
    ensures |Window(text, i, h)| <= 2 * h
    ensures h <= i && i + h <= |text| ==> Window(text, i, h) == text[i - h..i + h]
    ensures 0 < h <= i && i + h <= |text| ==> text[i] in Window(text, i, h)
  {
    if h <= i && i + h <= |text| {
      assert SliceBound(i - h, |text|) == i - h && SliceBound(i + h, |text|) == i + h;
      assert Window(text, i, h) == text[i - h..i + h];
      if 0 < h {
        assert Window(text, i, h)[h] == text[i];
      }
    }
  }

  /** A match closer to the start than `h` gives a negative start, which
      counts from the end: in a text of at least `2h` n-grams the window is
      then empty. */
  lemma WindowNearStart(text: seq<Ngram>, i: nat, h: nat)
    requires i < h && 2 * h <= |text|
    ensures Window(text, i, h) == []
  {
  }

  /** `' '.join(w).strip()` for one n-gram. */
  function Spaced(w: Ngram): string {
    Strip(Join(" ", w))
  }

  /** The n-grams of a snippet as written: each space-joined and stripped. */
  function SpacedAll(ws: seq<Ngram>): (r: seq<string>)
    ensures |r| == |ws| && forall k :: 0 <= k < |ws| ==> r[k] == Spaced(ws[k])
  {
    seq(|ws|, k requires 0 <= k < |ws| => Spaced(ws[k]))
  }

  /** The `Keyword` field: the keywords space-joined, stripped, then joined
      with `'_'`. */
  function KeywordField(keys: seq<Keyword>): string {
    Join("_", SpacedAll(keys))
  }

  /** What one written document records. */
  datatype Extract = Extract(year: int, index: nat, subindex: nat, title: Json, author: Json,
                             keyword: string, text: seq<string>)

  /** What every document of one volume shares. */
  datatype Meta = Meta(year: int, index: nat, title: Json, author: Json, keyword: string)

  /** The document for the match whose window is `window`. */
  function Mk(m: Meta, subindex: nat, window: seq<Ngram>): (e: Extract)
    ensures e.year == m.year && e.index == m.index && e.subindex == subindex && e.keyword == m.keyword
    ensures e.text == SpacedAll(window)
  {
    Extract(m.year, m.index, subindex, m.title, m.author, m.keyword, SpacedAll(window))
  }

  /** `"{out_dir}/{year}_{index}-{sub_index}.json"`. */
  function FileName(outDir: string, e: Extract): string {
    outDir + "/" + IntToStr(e.year) + "_" + NatToStr(e.index) + "-" + NatToStr(e.subindex) + ".json"
  }

  /** The five fields of a document: Title, Author, Keyword, Year Published
      and Text. */
  function Record(e: Extract): (r: Volume)
    ensures r.Keys == {"Title", "Author", "Keyword", "Year Published", "Text"}
    ensures r["Title"] == e.title && r["Author"] == e.author && r["Keyword"] == JStr(e.keyword)
    ensures r["Year Published"] == JInt(e.year) && r["Text"] == JStrs(e.text)
  {
    map["Title" := e.title, "Author" := e.author, "Keyword" := JStr(e.keyword),
        "Year Published" := JInt(e.year), "Text" := JStrs(e.text)]
  }

  /** `_build_json` of corpus/corpus.py: the record under the single key `'0'`. */
  function BuildJson(e: Extract): (r: seq<(string, Volume)>)
    ensures |r| == 1 && r[0].0 == "0"
  {
    [("0", Record(e))]
  }

  /** Read back as a corpus file, a written document is one volume whose
      year and text are the extract's. */
  lemma BuildJsonReadBack(name: string, e: Extract, textType: string)
    requires !Hidden(name)
    ensures FileVolumes(JsonFile(name, Some(BuildJson(e)))) == [Record(e)]
    ensures Get(Record(e), "Year Published").Ok? && IntOf(Get(Record(e), "Year Published").value) == Ok(e.year)
    ensures Get(Record(e), "Text").Ok? && Tokens(Get(Record(e), "Text").value) == Ok(e.text)
  {
  }

  /** The positions of `text[i..]` whose n-gram is a keyword, ascending. */
  function Positions(text: seq<Ngram>, keys: seq<Keyword>, i: nat): (p: seq<nat>)
    requires i <= |text|
    decreases |text| - i
  {
    if i == |text| then []
    else if text[i] in keys then [i] + Positions(text, keys, i + 1)
    else Positions(text, keys, i + 1)
  }

  /** `Positions` lists exactly the matching positions from `i` on, each
      once and in ascending order. */
  lemma {:induction false} PositionsExact(text: seq<Ngram>, keys: seq<Keyword>, i: nat)
    requires i <= |text|
    ensures forall k :: 0 <= k < |Positions(text, keys, i)| ==>
              i <= Positions(text, keys, i)[k] < |text| && text[Positions(text, keys, i)[k]] in keys
    ensures forall j :: i <= j < |text| && text[j] in keys ==> j in Positions(text, keys, i)
    ensures forall k, l :: 0 <= k < l < |Positions(text, keys, i)| ==> Positions(text, keys, i)[k] < Positions(text, keys, i)[l]
    decreases |text| - i
  {
    if i < |text| {
      PositionsExact(text, keys, i + 1);
      var q := Positions(text, keys, i + 1);
      if text[i] in keys {
        assert Positions(text, keys, i) == [i] + q;
      } else {
        assert Positions(text, keys, i) == q;
      }
    }
  }

  /** The documents the scan of `text[i..]` writes, numbered on from `sub`. */
  function ScanFrom(text: seq<Ngram>, keys: seq<Keyword>, h: int, i: nat, sub: nat, m: Meta): seq<Extract>
    requires i <= |text|
    decreases |text| - i
  {
    if i == |text| then []
    else if text[i] in keys then
      [Mk(m, sub + 1, Window(text, i, h))] + ScanFrom(text, keys, h, i + 1, sub + 1, m)
    else ScanFrom(text, keys, h, i + 1, sub, m)
  }

  /** A match at `i` writes its document, then the scan goes on. */
  lemma ScanFromMatch(text: seq<Ngram>, keys: seq<Keyword>, h: int, i: nat, sub: nat, m: Meta)
    requires i < |text| && text[i] in keys
    ensures ScanFrom(text, keys, h, i, sub, m) == [Mk(m, sub + 1, Window(text, i, h))] + ScanFrom(text, keys, h, i + 1, sub + 1, m)
    ensures Positions(text, keys, i) == [i] + Positions(text, keys, i + 1)
  {
  }

  /** A position that does not match writes nothing. */
  lemma ScanFromSkip(text: seq<Ngram>, keys: seq<Keyword>, h: int, i: nat, sub: nat, m: Meta)
    requires i < |text| && text[i] !in keys
    ensures ScanFrom(text, keys, h, i, sub, m) == ScanFrom(text, keys, h, i + 1, sub, m)
    ensures Positions(text, keys, i) == Positions(text, keys, i + 1)
  {
  }

  /** The scan writes one document per matching position, in text order:
      the k-th carries subindex `sub + k + 1` and the window around the
      k-th match. */
  lemma {:induction false} ScanFromPositions(text: seq<Ngram>, keys: seq<Keyword>, h: int, i: nat, sub: nat, m: Meta)
    requires i <= |text|
    ensures |ScanFrom(text, keys, h, i, sub, m)| == |Positions(text, keys, i)|
    ensures forall k :: 0 <= k < |Positions(text, keys, i)| ==>
              ScanFrom(text, keys, h, i, sub, m)[k] == Mk(m, sub + k + 1, Window(text, Positions(text, keys, i)[k], h))
    decreases |text| - i
  {
    if i < |text| {
      if text[i] in keys {
        ScanFromPositions(text, keys, h, i + 1, sub + 1, m);
        ScanFromMatch(text, keys, h, i, sub, m);
        var s, t := ScanFrom(text, keys, h, i, sub, m), ScanFrom(text, keys, h, i + 1, sub + 1, m);
        var p, q := Positions(text, keys, i), Positions(text, keys, i + 1);
        forall k | 0 <= k < |p|
          ensures s[k] == Mk(m, sub + k + 1, Window(text, p[k], h))
        {
          if k > 0 {
            assert s[k] == t[k - 1] && p[k] == q[k - 1];
          }
        }
      } else {
        ScanFromPositions(text, keys, h, i + 1, sub, m);
        ScanFromSkip(text, keys, h, i, sub, m);
      }
    }
  }

  /** What the walk fixes before it starts: the text and date fields, half
      the snippet size, the `Keyword` field and the year bounds. */
  datatype Config = Config(textType: string, dateKey: string, half: int, keyword: string, bounds: (int, int))

  function MakeConfig(textType: string, dateKey: string, docSize: int, keys: seq<Keyword>, bounds: (int, int)): (c: Config)
    ensures c.half == Half(docSize) && c.keyword == KeywordField(keys) && c.bounds == bounds
  {
    Config(textType, dateKey, Half(docSize), KeywordField(keys), bounds)
  }

  /** A volume in range, as the scan sees it: its n-grams and what its
      documents share. */
  datatype Source = Source(text: seq<Ngram>, m: Meta)

  /** The lookups for one volume: `None` when its year is out of range.
      The title and author are looked up before the text, and the keyword
      arity is checked only for a volume in range. */
  function VolumeSource(vol: Volume, cfg: Config, keys: seq<Keyword>, index: nat): Result<Option<Source>> {
    var yj :- Get(vol, cfg.dateKey);
    var year :- IntOf(yj);
    if !Accepts(cfg.bounds, year) then Ok(None)
    else
      var title :- Get(vol, "Title");
      var author :- Get(vol, "Author");
      var tj :- Get(vol, cfg.textType);
      var n :- R.DetectN(keys);
      var toks :- Tokens(tj);
      Ok(Some(Source(Ngrams(toks, n), Meta(year, index, title, author, cfg.keyword))))
  }

  /** The documents one volume yields: none when its year is out of range,
      otherwise one per keyword match. */
  function VolumeExtracts(vol: Volume, cfg: Config, keys: seq<Keyword>, index: nat, sub: nat): Result<seq<Extract>> {
    var src :- VolumeSource(vol, cfg, keys, index);
    if src.None? then Ok([]) else Ok(ScanFrom(src.value.text, keys, cfg.half, 0, sub, src.value.m))
  }

  /** `a` written before the outcome `r` of the rest of the walk. */
  function Prepend(a: seq<Extract>, r: Result<seq<Extract>>): (p: Result<seq<Extract>>)
    ensures p.Ok? <==> r.Ok?
    ensures r.Ok? ==> p.value == a + r.value
    ensures r.Err? ==> p == r
  {
    if r.Ok? then Ok(a + r.value) else r
  }

  lemma PrependNothing(r: Result<seq<Extract>>)
    ensures Prepend([], r) == r
  {
    if r.Ok? {
      assert [] + r.value == r.value;
    }
  }

  lemma PrependTwice(a: seq<Extract>, b: seq<Extract>, r: Result<seq<Extract>>)
    ensures Prepend(a, Prepend(b, r)) == Prepend(a + b, r)
  {
    if r.Ok? {
      assert a + (b + r.value) == (a + b) + r.value;
    }
  }

  /** The volumes of one file, in file order. */
  function VolumesExtracts(vols: seq<(string, Volume)>, cfg: Config, keys: seq<Keyword>, index: nat, sub: nat): (r: Result<seq<Extract>>)
    decreases |vols|
  {
    if vols == [] then Ok([])
    else
      var a :- VolumeExtracts(vols[0].1, cfg, keys, index, sub);
      Prepend(a, VolumesExtracts(vols[1..], cfg, keys, index, sub + |a|))
  }


  /** One turn of the volume loop: the documents of the next volume join
      those written so far. */
  lemma VolumesNext(vols: seq<(string, Volume)>, cfg: Config, keys: seq<Keyword>, index: nat, sub: nat,
                    out: seq<Extract>, a: seq<Extract>, goal: Result<seq<Extract>>)
    requires vols != [] && VolumeExtracts(vols[0].1, cfg, keys, index, sub + |out|) == Ok(a)
    requires Prepend(out, VolumesExtracts(vols, cfg, keys, index, sub + |out|)) == goal
    ensures Prepend(out + a, VolumesExtracts(vols[1..], cfg, keys, index, sub + |out + a|)) == goal
  {
    PrependTwice(out, a, VolumesExtracts(vols[1..], cfg, keys, index, sub + |out| + |a|));
  }

  /** `index` after a file: one more unless the file is hidden. */
  function NextIndex(name: string, index: nat): (r: nat)
    ensures r == if Hidden(name) then index else index + 1
  {
    if Hidden(name) then index else index + 1
  }

  /** The documents one corpus file yields: none when it is hidden; a file
      that does not decode raises; otherwise its volumes in order, under
      the file's new `index`. */
  function FileExtracts(f: JsonFile, cfg: Config, keys: seq<Keyword>, index: nat, sub: nat): (r: Result<seq<Extract>>)
  {
    if Hidden(f.name) then Ok([])
    else if f.content.None? then Err(ValueError)
    else VolumesExtracts(f.content.value, cfg, keys, index + 1, sub)
  }

  /** The walk over the corpus files of corpus/corpus.py. */
  function WalkExtracts(files: seq<JsonFile>, cfg: Config, keys: seq<Keyword>, index: nat, sub: nat): (r: Result<seq<Extract>>)
    decreases |files|
  {
    if files == [] then Ok([])
    else
      var a :- FileExtracts(files[0], cfg, keys, index, sub);
      Prepend(a, WalkExtracts(files[1..], cfg, keys, NextIndex(files[0].name, index), sub + |a|))
  }

  /** One turn of the file loop. */
  lemma WalkNext(files: seq<JsonFile>, cfg: Config, keys: seq<Keyword>, index: nat,
                 out: seq<Extract>, a: seq<Extract>, goal: Result<seq<Extract>>)
    requires files != [] && FileExtracts(files[0], cfg, keys, index, |out|) == Ok(a)
    requires Prepend(out, WalkExtracts(files, cfg, keys, index, |out|)) == goal
    ensures Prepend(out + a, WalkExtracts(files[1..], cfg, keys, NextIndex(files[0].name, index), |out + a|)) == goal
  {
    PrependTwice(out, a, WalkExtracts(files[1..], cfg, keys, NextIndex(files[0].name, index), |out| + |a|));
  }

  /** `build_sub_corpus(name, output_dir, key_list, text_type, date_key,
      doc_size, y_range)` of corpus/corpus.py, as the documents it writes. */
  function SubCorpusOf(files: seq<JsonFile>, keyList: seq<string>, textType: string, dateKey: string,
                       docSize: int, yRange: Option<seq<int>>): Result<seq<Extract>>
  {
    var bounds :- YearBounds(yRange);
    WalkExtracts(files, MakeConfig(textType, dateKey, docSize, BuildKeys(keyList), bounds), BuildKeys(keyList), 0, 0)
  }

  // ---------------------------------------------------------------------
  // What the documents satisfy

  /** The documents are numbered `sub + 1, sub + 2, …` in the order they
      are written, so no two share a file name. */
  ghost predicate Numbered(r: seq<Extract>, sub: nat) {
    forall k :: 0 <= k < |r| ==> r[k].subindex == sub + k + 1
  }

  /** Every document comes from a kept volume of a counted file and carries
      the keyword field. */
  ghost predicate Sound(r: seq<Extract>, cfg: Config, keys: seq<Keyword>, lo: nat, hi: nat) {
    forall k :: 0 <= k < |r| ==>
      Accepts(cfg.bounds, r[k].year) && lo < r[k].index <= hi && r[k].keyword == cfg.keyword
  }

  lemma NumberedAppend(a: seq<Extract>, b: seq<Extract>, sub: nat)
    requires Numbered(a, sub) && Numbered(b, sub + |a|)
    ensures Numbered(a + b, sub)
  {
  }

  lemma ScanFromNumbered(text: seq<Ngram>, keys: seq<Keyword>, h: int, sub: nat, m: Meta)
    ensures Numbered(ScanFrom(text, keys, h, 0, sub, m), sub)
    ensures forall k :: 0 <= k < |ScanFrom(text, keys, h, 0, sub, m)| ==>
              ScanFrom(text, keys, h, 0, sub, m)[k].year == m.year &&
              ScanFrom(text, keys, h, 0, sub, m)[k].index == m.index &&
              ScanFrom(text, keys, h, 0, sub, m)[k].keyword == m.keyword
  {
    ScanFromPositions(text, keys, h, 0, sub, m);
  }

  lemma VolumeExtractsSound(vol: Volume, cfg: Config, keys: seq<Keyword>, index: nat, sub: nat)
    requires index > 0
    requires VolumeExtracts(vol, cfg, keys, index, sub).Ok?
    ensures Numbered(VolumeExtracts(vol, cfg, keys, index, sub).value, sub)
    ensures Sound(VolumeExtracts(vol, cfg, keys, index, sub).value, cfg, keys, index - 1, index)
  {
    var src := VolumeSource(vol, cfg, keys, index).value;
    if src.Some? {
      ScanFromNumbered(src.value.text, keys, cfg.half, sub, src.value.m);
    }
  }

  lemma {:induction false} VolumesExtractsSound(vols: seq<(string, Volume)>, cfg: Config, keys: seq<Keyword>, index: nat, sub: nat)
    requires index > 0
    requires VolumesExtracts(vols, cfg, keys, index, sub).Ok?
    ensures Numbered(VolumesExtracts(vols, cfg, keys, index, sub).value, sub)
    ensures Sound(VolumesExtracts(vols, cfg, keys, index, sub).value, cfg, keys, index - 1, index)
    decreases |vols|
  {
    if vols != [] {
      var a := VolumeExtracts(vols[0].1, cfg, keys, index, sub).value;
      VolumeExtractsSound(vols[0].1, cfg, keys, index, sub);
      VolumesExtractsSound(vols[1..], cfg, keys, index, sub + |a|);
      NumberedAppend(a, VolumesExtracts(vols[1..], cfg, keys, index, sub + |a|).value, sub);
    }
  }

  /** How many files a walk counts: those that are not hidden. */
  function Counted(files: seq<JsonFile>): (c: nat)
    ensures c <= |files|
  {
    if files == [] then 0 else (if Hidden(files[0].name) then 0 else 1) + Counted(files[1..])
  }

  /** A successful walk numbers its documents consecutively, writes only
      documents of volumes in the year range, and gives each the position
      of its file among the counted files. */
  lemma {:induction false} WalkExtractsSound(files: seq<JsonFile>, cfg: Config, keys: seq<Keyword>, index: nat, sub: nat)
    requires WalkExtracts(files, cfg, keys, index, sub).Ok?
    ensures Numbered(WalkExtracts(files, cfg, keys, index, sub).value, sub)
    ensures Sound(WalkExtracts(files, cfg, keys, index, sub).value, cfg, keys, index, index + Counted(files))
    decreases |files|
  {
    if files != [] {
      var f := files[0];
      var a := FileExtracts(f, cfg, keys, index, sub).value;
      if !Hidden(f.name) {
        VolumesExtractsSound(f.content.value, cfg, keys, index + 1, sub);
      }
      WalkExtractsSound(files[1..], cfg, keys, NextIndex(f.name, index), sub + |a|);
      NumberedAppend(a, WalkExtracts(files[1..], cfg, keys, NextIndex(f.name, index), sub + |a|).value, sub);
    }
  }

  /** The whole run: documents numbered 1, 2, … in writing order, each from
      a volume whose year lies in the inclusive range, each with the index
      of its file among the non-hidden files. */
  lemma SubCorpusSound(files: seq<JsonFile>, keyList: seq<string>, textType: string, dateKey: string,
                       docSize: int, yRange: Option<seq<int>>)
    requires SubCorpusOf(files, keyList, textType, dateKey, docSize, yRange).Ok?
    ensures forall k :: 0 <= k < |SubCorpusOf(files, keyList, textType, dateKey, docSize, yRange).value| ==>
              var e := SubCorpusOf(files, keyList, textType, dateKey, docSize, yRange).value[k];
              e.subindex == k + 1 && Accepts(YearBounds(yRange).value, e.year) &&
              0 < e.index <= Counted(files) && e.keyword == KeywordField(BuildKeys(keyList))
  {
    var cfg := MakeConfig(textType, dateKey, docSize, BuildKeys(keyList), YearBounds(yRange).value);
    WalkExtractsSound(files, cfg, BuildKeys(keyList), 0, 0);
  }

  // ---------------------------------------------------------------------
  // The loops

  /** The scan `for i in range(len(text))` over one volume's n-grams. */
  method ScanVolume(text: seq<Ngram>, keys: seq<Keyword>, h: int, sub: nat, m: Meta) returns (out: seq<Extract>)
    ensures out == ScanFrom(text, keys, h, 0, sub, m)
  {
    out := [];
    var subindex := sub;
    var i := 0;
    while i < |text|
      invariant i <= |text| && subindex == sub + |out|
      invariant out + ScanFrom(text, keys, h, i, subindex, m) == ScanFrom(text, keys, h, 0, sub, m)
    {
      if text[i] in keys {
        subindex := subindex + 1;
        var e := Mk(m, subindex, Window(text, i, h));
        assert out + ScanFrom(text, keys, h, i, subindex - 1, m) == (out + [e]) + ScanFrom(text, keys, h, i + 1, subindex, m);
        out := out + [e];
      }
      i := i + 1;
    }
  }

  /** The body of the volume loop: the year check, then the scan. */
  method ReadVolume(vol: Volume, cfg: Config, keys: seq<Keyword>, index: nat) returns (r: Result<Option<Source>>)
    ensures r == VolumeSource(vol, cfg, keys, index)
  {
    var yj := Get(vol, cfg.dateKey);
    if yj.Err? {
      return Err(yj.error);
    }
    var year := IntOf(yj.value);
    if year.Err? {
      return Err(year.error);
    }
    if !Accepts(cfg.bounds, year.value) {
      return Ok(None);
    }
    var title := Get(vol, "Title");
    if title.Err? {
      return Err(title.error);
    }
    var author := Get(vol, "Author");
    if author.Err? {
      return Err(author.error);
    }
    var tj := Get(vol, cfg.textType);
    if tj.Err? {
      return Err(tj.error);
    }
    var n := R.DetectN(keys);
    if n.Err? {
      return Err(n.error);
    }
    var toks := Tokens(tj.value);
    if toks.Err? {
      return Err(toks.error);
    }
    r := Ok(Some(Source(Ngrams(toks.value, n.value), Meta(year.value, index, title.value, author.value, cfg.keyword))));
  }

  /** The body of the volume loop: the lookups, then the scan. */
  method ExtractVolume(vol: Volume, cfg: Config, keys: seq<Keyword>, index: nat, sub: nat) returns (r: Result<seq<Extract>>)
    ensures r == VolumeExtracts(vol, cfg, keys, index, sub)
  {
    var src := ReadVolume(vol, cfg, keys, index);
    if src.Err? {
      return Err(src.error);
    }
    if src.value.None? {
      return Ok([]);
    }
    var out := ScanVolume(src.value.value.text, keys, cfg.half, sub, src.value.value.m);
    r := Ok(out);
  }

  /** `for k in list(jsonfile.keys())` over one decoded file. */
  method ExtractFile(vols: seq<(string, Volume)>, cfg: Config, keys: seq<Keyword>, index: nat, sub: nat)
    returns (r: Result<seq<Extract>>)
    ensures r == VolumesExtracts(vols, cfg, keys, index, sub)
  {
    var out := [];
    var rest := vols;
    PrependNothing(VolumesExtracts(vols, cfg, keys, index, sub));
    while rest != []
      invariant Prepend(out, VolumesExtracts(rest, cfg, keys, index, sub + |out|)) ==
                VolumesExtracts(vols, cfg, keys, index, sub)
      decreases |rest|
    {
      var a := ExtractVolume(rest[0].1, cfg, keys, index, sub + |out|);
      if a.Err? {
        return Err(a.error);
      }
      VolumesNext(rest, cfg, keys, index, sub, out, a.value, VolumesExtracts(vols, cfg, keys, index, sub));
      out := out + a.value;
      rest := rest[1..];
    }
    assert out + [] == out;
    r := Ok(out);
  }

  /** The body of the file loop: skip a hidden file, count any other, read
      it and scan its volumes. */
  method ExtractJsonFile(f: JsonFile, cfg: Config, keys: seq<Keyword>, index: nat, sub: nat)
    returns (r: Result<seq<Extract>>, next: nat)
    ensures r == FileExtracts(f, cfg, keys, index, sub) && next == NextIndex(f.name, index)
  {
    next := index;
    if Hidden(f.name) {
      return Ok([]), next;
    }
    next := next + 1;
    if f.content.None? {
      return Err(ValueError), next;
    }
    r := ExtractFile(f.content.value, cfg, keys, next, sub);
  }

  /** `build_sub_corpus` of corpus/corpus.py. */
  method BuildSubCorpus(files: seq<JsonFile>, keyList: seq<string>, textType: string, dateKey: string,
                        docSize: int, yRange: Option<seq<int>>) returns (r: Result<seq<Extract>>)
    ensures r == SubCorpusOf(files, keyList, textType, dateKey, docSize, yRange)
  {
    var bounds := YearBounds(yRange);
    if bounds.Err? {
      return Err(bounds.error);
    }
    var keys := BuildKeys(keyList);
    var cfg := MakeConfig(textType, dateKey, docSize, keys, bounds.value);
    var index := 0;
    var out := [];
    var rest := files;
    PrependNothing(WalkExtracts(files, cfg, keys, 0, 0));
    while rest != []
      invariant Prepend(out, WalkExtracts(rest, cfg, keys, index, |out|)) == WalkExtracts(files, cfg, keys, 0, 0)
      decreases |rest|
    {
      var a, next := ExtractJsonFile(rest[0], cfg, keys, index, |out|);
      if a.Err? {
        return Err(a.error);
      }
      WalkNext(rest, cfg, keys, index, out, a.value, WalkExtracts(files, cfg, keys, 0, 0));
      out, index, rest := out + a.value, next, rest[1..];
    }
    assert out + [] == out;
    r := Ok(out);
  }
}

/** `Corpus.build_sub_corpus` of src/corpus.py: each file is one flat
    record, the year always comes from "Year Published", and a document
    is the flat five-field record without the `'0'` wrapper. */
module SrcSubCorpus {
  import opened Wrappers
  import opened Records
  import opened CorpusUtils
  import opened SubCorpus

  /** A corpus file of the src revision: one record, or `None` when it did
      not decode. */
  datatype FlatFile = FlatFile(name: string, content: Option<Volume>)

  /** `_build_json` of src/corpus.py: the five fields at top level. */
  function BuildFlatJson(e: Extract): (r: Volume)
    ensures r.Keys == {"Title", "Author", "Keyword", "Year Published", "Text"}
    ensures BuildJson(e) == [("0", r)]
  {
    Record(e)
  }

  /** The documents one flat file yields. */
  function FlatFileExtracts(f: FlatFile, cfg: Config, keys: seq<Keyword>, index: nat, sub: nat): (r: Result<seq<Extract>>)
  {
    if Hidden(f.name) then Ok([])
    else if f.content.None? then Err(ValueError)
    else VolumeExtracts(f.content.value, cfg, keys, index + 1, sub)
  }

  function FlatWalk(files: seq<FlatFile>, cfg: Config, keys: seq<Keyword>, index: nat, sub: nat): (r: Result<seq<Extract>>)
    decreases |files|
  {
    if files == [] then Ok([])
    else
      var a :- FlatFileExtracts(files[0], cfg, keys, index, sub);
      Prepend(a, FlatWalk(files[1..], cfg, keys, NextIndex(files[0].name, index), sub + |a|))
  }

  /** One turn of the file loop. */
  lemma FlatNext(files: seq<FlatFile>, cfg: Config, keys: seq<Keyword>, index: nat,
                 out: seq<Extract>, a: seq<Extract>, goal: Result<seq<Extract>>)
    requires files != [] && FlatFileExtracts(files[0], cfg, keys, index, |out|) == Ok(a)
    requires Prepend(out, FlatWalk(files, cfg, keys, index, |out|)) == goal
    ensures Prepend(out + a, FlatWalk(files[1..], cfg, keys, NextIndex(files[0].name, index), |out + a|)) == goal
  {
    PrependTwice(out, a, FlatWalk(files[1..], cfg, keys, NextIndex(files[0].name, index), |out| + |a|));
  }

  function FlatSubCorpusOf(files: seq<FlatFile>, keyList: seq<string>, textType: string,
                           docSize: int, yRange: Option<seq<int>>): Result<seq<Extract>>
  {
    var bounds :- YearBounds(yRange);
    FlatWalk(files, MakeConfig(textType, "Year Published", docSize, BuildKeys(keyList), bounds), BuildKeys(keyList), 0, 0)
  }

  /** A flat file as a corpus file of one volume. */
  function AsJsonFile(f: FlatFile): (r: JsonFile)
    ensures r.name == f.name && (r.content.None? <==> f.content.None?)
  {
    JsonFile(f.name, if f.content.None? then None else Some([("0", f.content.value)]))
  }

  /** The flat files as corpus files of one volume each. */
  function AsJsonFiles(files: seq<FlatFile>): (r: seq<JsonFile>)
    ensures |r| == |files|
    ensures forall i :: 0 <= i < |files| ==> r[i] == AsJsonFile(files[i])
  {
    seq(|files|, i requires 0 <= i < |files| => AsJsonFile(files[i]))
  }

  /** One flat file yields what its wrapped form yields. */
  lemma FlatFileAsWrapped(f: FlatFile, cfg: Config, keys: seq<Keyword>, index: nat, sub: nat)
    ensures FlatFileExtracts(f, cfg, keys, index, sub) == FileExtracts(AsJsonFile(f), cfg, keys, index, sub)
  {
    if !Hidden(f.name) && f.content.Some? {
      var single := [("0", f.content.value)];
      assert AsJsonFile(f).content.value == single && single[0].1 == f.content.value && single[1..] == [];
      var a := VolumeExtracts(f.content.value, cfg, keys, index + 1, sub);
      if a.Ok? {
        assert VolumesExtracts(single[1..], cfg, keys, index + 1, sub + |a.value|) == Ok([]);
        assert a.value + [] == a.value;
      }
    }
  }

  /** The src revision behaves exactly as corpus/corpus.py does on the same
      records wrapped one per file, with "Year Published" as date key. */
  lemma {:induction false} FlatWalkAsWrapped(files: seq<FlatFile>, cfg: Config, keys: seq<Keyword>, index: nat, sub: nat)
    ensures FlatWalk(files, cfg, keys, index, sub) == WalkExtracts(AsJsonFiles(files), cfg, keys, index, sub)
    decreases |files|
  {
    if files != [] {
      assert AsJsonFiles(files)[0] == AsJsonFile(files[0]);
      assert AsJsonFiles(files)[1..] == AsJsonFiles(files[1..]);
      FlatFileAsWrapped(files[0], cfg, keys, index, sub);
      var a := FlatFileExtracts(files[0], cfg, keys, index, sub);
      if a.Ok? {
        FlatWalkAsWrapped(files[1..], cfg, keys, NextIndex(files[0].name, index), sub + |a.value|);
      }
    }
  }

  /** Hence the same guarantees: consecutive numbering, inclusive year
      range and file indices among the non-hidden files. */
  lemma FlatSubCorpusSound(files: seq<FlatFile>, keyList: seq<string>, textType: string,
                           docSize: int, yRange: Option<seq<int>>)
    requires FlatSubCorpusOf(files, keyList, textType, docSize, yRange).Ok?
    ensures FlatSubCorpusOf(files, keyList, textType, docSize, yRange) ==
            SubCorpusOf(AsJsonFiles(files), keyList, textType, "Year Published", docSize, yRange)
    ensures forall k :: 0 <= k < |FlatSubCorpusOf(files, keyList, textType, docSize, yRange).value| ==>
              FlatSubCorpusOf(files, keyList, textType, docSize, yRange).value[k].subindex == k + 1 &&
              Accepts(YearBounds(yRange).value, FlatSubCorpusOf(files, keyList, textType, docSize, yRange).value[k].year)
  {
    var cfg := MakeConfig(textType, "Year Published", docSize, BuildKeys(keyList), YearBounds(yRange).value);
    FlatWalkAsWrapped(files, cfg, BuildKeys(keyList), 0, 0);
    SubCorpusSound(AsJsonFiles(files), keyList, textType, "Year Published", docSize, yRange);
  }

  /** The body of the file loop of src/corpus.py. */
  method ExtractFlatFile(f: FlatFile, cfg: Config, keys: seq<Keyword>, index: nat, sub: nat)
    returns (r: Result<seq<Extract>>, next: nat)
    ensures r == FlatFileExtracts(f, cfg, keys, index, sub) && next == NextIndex(f.name, index)
  {
    next := index;
    if Hidden(f.name) {
      return Ok([]), next;
    }
    next := next + 1;
    if f.content.None? {
      return Err(ValueError), next;
    }
    r := ExtractVolume(f.content.value, cfg, keys, next, sub);
  }

  /** `build_sub_corpus` of src/corpus.py. */
  method BuildFlatSubCorpus(files: seq<FlatFile>, keyList: seq<string>, textType: string,
                            docSize: int, yRange: Option<seq<int>>) returns (r: Result<seq<Extract>>)
    ensures r == FlatSubCorpusOf(files, keyList, textType, docSize, yRange)
  {
    var bounds := YearBounds(yRange);
    if bounds.Err? {
      return Err(bounds.error);
    }
    var keys := BuildKeys(keyList);
    var cfg := MakeConfig(textType, "Year Published", docSize, keys, bounds.value);
    var index := 0;
    var out := [];
    var rest := files;
    PrependNothing(FlatWalk(files, cfg, keys, 0, 0));
    while rest != []
      invariant Prepend(out, FlatWalk(rest, cfg, keys, index, |out|)) == FlatWalk(files, cfg, keys, 0, 0)
      decreases |rest|
    {
      var a, next := ExtractFlatFile(rest[0], cfg, keys, index, |out|);
      if a.Err? {
        return Err(a.error);
      }
      FlatNext(rest, cfg, keys, index, out, a.value, FlatWalk(files, cfg, keys, 0, 0));
      out, index, rest := out + a.value, next, rest[1..];
    }
    assert out + [] == out;
    r := Ok(out);
  }
}
