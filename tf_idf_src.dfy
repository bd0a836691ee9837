/** src/nlp/tf_idf.py: the older revision of the TF-IDF statistics. The
    bookkeeping is that of module TfidfCorpus, with three differences: the
    year is always read from "Date", the stop-word argument is used exactly
    as given, and `top_n` records `(jsondoc, score)` pairs. */
module TfidfSrc {
  import opened Wrappers
  import opened PyStr
  import opened PyList
  import opened Records
  import opened CorpusUtils
  import opened Gensim
  import opened TfidfCorpus

  /** The stop-word argument of `__init__`: `None`, a collection (a list or
      a set; `in` is membership for both), or a string. */
  datatype SrcStopArg = NoneGiven | Collection(keys: set<Key>) | Text(s: string)

  /** `self.stop_words`: `{}` for `None`, otherwise the argument itself, so
      that `token in self.stop_words` is a substring test when the argument
      is a string. */
  function StopTestOf(arg: SrcStopArg): (r: StopTest)
    ensures arg.NoneGiven? ==> r == Members({})
    ensures arg.Collection? ==> r == Members(arg.keys)
    ensures arg.Text? ==> r == Substring(arg.s)
  {
    match arg
    case NoneGiven => Members({})
    case Collection(keys) => Members(keys)
    case Text(s) => Substring(s)
  }

  /** With a string argument every token that occurs inside the string is
      deleted: each of its characters, each of its substrings, and the
      empty token. */
  lemma {:induction false} TextStopsAreSubstrings(s: string, text: seq<string>, w: string)
    requires w in text
    ensures (exists i, j :: 0 <= i <= j <= |s| && s[i..j] == w) ==> Count(Filtered(text, StopTestOf(Text(s))), w) == 0
    ensures w == "" ==> Count(Filtered(text, StopTestOf(Text(s))), w) == 0
  {
    if exists i, j :: 0 <= i <= j <= |s| && s[i..j] == w {
      var i, j :| 0 <= i <= j <= |s| && s[i..j] == w;
      ContainsAt(s, w, i);
    }
    if w == "" {
      ContainsAt(s, w, 0);
    }
    FilteredKeeps(text, StopTestOf(Text(s)), w);
  }

  /** With no argument nothing is deleted. */
  lemma NoStopsKeepText(text: seq<string>)
    ensures Filtered(text, StopTestOf(NoneGiven)) == text
  {
    FilteredKeeps(text, StopTestOf(NoneGiven), "");
  }

  /** One entry of `results[target]` in this revision: the file and the
      score; the volume key is dropped. */
  type Pair = (string, real)

  function PairOf(file: string, score: real, k: string): Pair { (file, score) }

  function PairScore(p: Pair): real { p.1 }

  /** `Tfidf(name, in_dir, text_type, year_list, stop_words)`. */
  method NewTfidf(name: string, files: seq<JsonFile>, textType: string, yearList: seq<int>,
                  stopWords: SrcStopArg, g: Gensim) returns (t: Tfidf)
    ensures fresh(t) && t.Valid()
    ensures t.name == name && t.files == files && t.textType == textType && t.yearList == yearList && t.g == g
    ensures t.dateKey == "Date" && t.stops == StopTestOf(stopWords)
    ensures t.wordToId == None && t.corpora == None && t.tfIdfModels == None
  {
    t := new Tfidf.WithStops(name, files, textType, yearList, "Date", StopTestOf(stopWords), g);
  }

  /** A volume in range whose text is a token list adds the pairs
      `(jsondoc, score)` of the keyword's term, and counts once, exactly
      when the keyword is among its tokens. */
  lemma TallyPairs(t: Tally<Pair>, cfg: Config, m: Trained, keyword: string, file: string, k: string,
                   vol: Volume, year: int, target: int)
    requires cfg.dateKey == "Date"
    requires "Date" in vol && IntOf(vol["Date"]) == Ok(year)
    requires cfg.yl != [] && cfg.yl[0] <= year < cfg.yl[|cfg.yl| - 1]
    requires DetermineYear(year, cfg.yl) == Ok(target)
    requires cfg.textType in vol && vol[cfg.textType].JStrs?
    requires target in t.numDocs && target in t.results && target in m.vocabs && target in m.models
    ensures var r := TallyVolume(t, cfg, m, keyword, PairOf, file, k, vol);
      var text := vol[cfg.textType].items;
      var hits := Hits(cfg.g, m.vocabs[target], cfg.g.weigh(m.models[target], cfg.g.doc2bow(m.vocabs[target], text)), keyword);
      var before := t.results[target];
      && r.Ok?
      && r.value.results.Keys == t.results.Keys
      && r.value.numDocs == t.numDocs[target := t.numDocs[target] + (if keyword in text then 1 else 0)]
      && (keyword in text ==>
            && |r.value.results[target]| == |before| + |hits|
            && r.value.results[target][..|before|] == before
            && forall i :: 0 <= i < |hits| ==> r.value.results[target][|before| + i] == (file, hits[i]))
      && (keyword !in text ==> r.value.results == t.results)
  {
    TallyVolumeEffect(t, cfg, m, keyword, PairOf, file, k, vol, year, target);
  }

  /** `_top_n` on pairs: the first `n` pairs by ascending score, ties in
      the order they were found. */
  lemma TopPairs(pairs: seq<Pair>, n: nat)
    ensures var r := LowestN(pairs, PairScore, n);
      && |r| == (if n < |pairs| then n else |pairs|)
      && (forall i, j :: 0 <= i < j < |r| ==> r[i].1 <= r[j].1)
      && multiset(r) <= multiset(pairs)
  {
    LowestNProperties(pairs, PairScore, n);
  }

  /** `top_n(keyword, n, name)`: the `name` argument is never used; the
      results carry the object's own name. */
  method TopN(t: Tfidf, keyword: string, n: int, name: string) returns (r: Result<TfidfResults<Pair>>)
    requires t.Valid()
    modifies t
    ensures t.Valid()
    ensures old(t.tfIdfModels).Some? ==> t.wordToId == old(t.wordToId) && t.tfIdfModels == old(t.tfIdfModels)
    ensures r.Ok? ==> t.wordToId.Some? && t.tfIdfModels.Some? && r.value.name == t.name
    ensures t.wordToId.Some? && t.tfIdfModels.Some? ==>
      r == TopNOf(t.Cfg(), Trained(t.wordToId.value, t.tfIdfModels.value), t.files, keyword, n, t.name, PairOf, PairScore)
  {
    r := t.TopNWith(keyword, n, PairOf, PairScore);
  }
}
