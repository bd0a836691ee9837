/** corpus/nlp/tf_idf.py: per-period gensim dictionaries and bag-of-words
    corpora, and the documents whose TF-IDF score for a keyword is recorded,
    per period. gensim itself is a parameter (see module Gensim). */
module TfidfCorpus {
  import opened Wrappers
  import opened PyStr
  import opened PyList
  import opened Records
  import opened CorpusUtils
  import opened Sorting
  import opened Gensim
  import C = CorpusFrequency

  // ---------------------------------------------------------------------
  // One volume's text

  /** A text field as the deletion loop and `add_documents` accept it: a
      token list. An empty string or dict has nothing to delete and is
      never added; a dict with keys raises `KeyError` at `text[i]`; any
      other value makes `len`, `del` or `add_documents` raise `TypeError`. */
  function TextTokens(j: Json): (r: Result<seq<string>>)
    ensures j.JStrs? ==> r == Ok(j.items)
    ensures r.Ok? <==> j.JStrs? || j == JStr("") || j == JObj([])
    ensures r.Ok? && !j.JStrs? ==> r.value == []
    ensures r.Err? && j.JObj? ==> r.error == KeyError
    ensures r.Err? && !j.JObj? ==> r.error == TypeError
  {
    match j
    case JStrs(t) => Ok(t)
    case JStr(s) => if s == "" then Ok([]) else Err(TypeError)
    case JObj(ks) => if ks == [] then Ok([]) else Err(KeyError)
    case _ => Err(TypeError)
  }

  /** The tokens `doc2bow` reads from a text field: it iterates a token
      list or a dict (its keys) and refuses a string or a scalar with
      `TypeError`. */
  function DocTokens(j: Json): (r: Result<seq<string>>)
    ensures r.Ok? <==> j.JStrs? || j.JObj?
    ensures j.JStrs? ==> r == Ok(j.items)
    ensures j.JObj? ==> r == Ok(j.keys)
    ensures r.Err? ==> r.error == TypeError
  {
    match j
    case JStrs(t) => Ok(t)
    case JObj(ks) => Ok(ks)
    case _ => Err(TypeError)
  }

  /** What `token in self.stop_words` tests: membership of the string in a
      collection, or, when the collection is itself a string, the substring
      test Python applies to `str`. */
  datatype StopTest = Members(keys: set<Key>) | Substring(s: string)

  predicate IsStop(st: StopTest, w: string) {
    match st
    case Members(keys) => Str(w) in keys
    case Substring(s) => Contains(s, w)
  }

  /** The tokens of `text` the deletion loop removes. */
  function StopsIn(text: seq<string>, st: StopTest): (r: set<string>)
    ensures forall w :: w in r <==> w in text && IsStop(st, w)
  {
    set w | w in text && IsStop(st, w)
  }

  /** The token list once its stop words are deleted. */
  function Filtered(text: seq<string>, st: StopTest): seq<string> {
    RemoveAll(text, StopsIn(text, st))
  }

  /** The deletion removes every stop word, keeps every other token exactly
      as often as it occurred, and leaves a text without stop words as it
      is. */
  lemma FilteredKeeps(text: seq<string>, st: StopTest, w: string)
    ensures IsStop(st, w) ==> Count(Filtered(text, st), w) == 0
    ensures !IsStop(st, w) ==> Count(Filtered(text, st), w) == Count(text, w)
    ensures (forall i :: 0 <= i < |text| ==> !IsStop(st, text[i])) ==> Filtered(text, st) == text
  {
    var stops := StopsIn(text, st);
    RemoveAllCount(text, stops, w);
    if IsStop(st, w) && w !in text {
      CountPositive(text, w);
    }
    if forall i :: 0 <= i < |text| ==> !IsStop(st, text[i]) {
      assert forall i :: 0 <= i < |text| ==> text[i] !in stops;
      RemoveAllClean(text, stops);
    }
  }

  /** The survivors keep their relative order: the filtered text is the
      text with the stop words cut out, piece by piece. */
  lemma FilteredAppend(a: seq<string>, b: seq<string>, st: StopTest)
    ensures Filtered(a + b, st) == Filtered(a, st) + Filtered(b, st)
  {
    var all := StopsIn(a + b, st);
    RemoveAllAppend(a, b, all);
    RemoveAllSubset(a, StopsIn(a, st), all);
    RemoveAllSubset(b, StopsIn(b, st), all);
  }

  /** Only the stop words that occur in the text matter. */
  lemma {:induction false} RemoveAllSubset(s: seq<string>, small: set<string>, big: set<string>)
    requires small <= big
    requires forall w :: w in big && w in s ==> w in small
    ensures RemoveAll(s, big) == RemoveAll(s, small)
    decreases |s|
  {
    if s != [] {
      assert s == [s[0]] + s[1..];
      RemoveAllAppend([s[0]], s[1..], big);
      RemoveAllAppend([s[0]], s[1..], small);
      RemoveAllSubset(s[1..], small, big);
      assert RemoveAll([s[0]], big) == RemoveAll([s[0]], small) by {
        assert [s[0]][1..] == [];
      }
    }
  }

  // ---------------------------------------------------------------------
  // Dictionaries and corpora

  /** What a walk reads from the statistics object: gensim, the year list,
      the key of the year field, the text field and the stop-word test. */
  datatype Config = Config(g: Gensim, yl: seq<int>, dateKey: string, textType: string, stops: StopTest)

  /** What `build_dictionaries_and_corpora` fills: each period's dictionary
      (the documents added to it) and its list of bags of words. */
  datatype Built = Built(vocabs: map<int, Vocab>, corpora: map<int, seq<Bow>>)

  /** Both tables have the same periods, and every period has one bag of
      words per document in its dictionary. */
  ghost predicate Synced(b: Built) {
    && b.vocabs.Keys == b.corpora.Keys
    && forall y :: y in b.vocabs ==> |b.vocabs[y]| == |b.corpora[y]|
  }

  /** `gensim_dict(year_list)` and `list_dict(year_list)`. */
  function Blank(yl: seq<int>): (b: Built)
    ensures b.vocabs.Keys == b.corpora.Keys == set y | y in yl
    ensures forall y :: y in b.vocabs ==> b.vocabs[y] == [] && b.corpora[y] == []
  {
    Built(map y | y in yl :: [], map y | y in yl :: [])
  }

  /** `_update_dictionaries_and_corpora(k, json_data, ...)` for one volume. */
  function AddVolume(b: Built, cfg: Config, vol: Volume): Result<Built> {
    var yj :- Get(vol, cfg.dateKey);
    var year :- IntOf(yj);
    var inside :- C.InRange(cfg.yl, year);
    if !inside then Ok(b)
    else
      var field :- Get(vol, cfg.textType);
      var text :- TextTokens(field);
      var kept := Filtered(text, cfg.stops);
      var target :- DetermineYear(year, cfg.yl);
      if |kept| == 0 then Ok(b)
      else if target !in b.vocabs || target !in b.corpora then Err(KeyError)
      else
        var v := b.vocabs[target] + [kept];
        Ok(Built(b.vocabs[target := v], b.corpora[target := b.corpora[target] + [cfg.g.doc2bow(v, kept)]]))
  }

  /** A volume dated outside `[year_list[0], year_list[-1])` touches
      nothing, whatever its text. */
  lemma AddVolumeOutside(b: Built, cfg: Config, vol: Volume, year: int)
    requires cfg.dateKey in vol && IntOf(vol[cfg.dateKey]) == Ok(year) && cfg.yl != []
    requires !(cfg.yl[0] <= year < cfg.yl[|cfg.yl| - 1])
    ensures AddVolume(b, cfg, vol) == Ok(b)
  {
  }

  /** A volume in range adds its filtered text as one more document of its
      period's dictionary, and its bag of words to the period's corpus,
      exactly when that text is not empty; nothing else changes. */
  lemma AddVolumeEffect(b: Built, cfg: Config, vol: Volume, year: int, target: int)
    requires cfg.dateKey in vol && IntOf(vol[cfg.dateKey]) == Ok(year)
    requires cfg.yl != [] && cfg.yl[0] <= year < cfg.yl[|cfg.yl| - 1]
    requires DetermineYear(year, cfg.yl) == Ok(target)
    requires target in b.vocabs && target in b.corpora
    requires cfg.textType in vol && TextTokens(vol[cfg.textType]).Ok?
    ensures var kept := Filtered(TextTokens(vol[cfg.textType]).value, cfg.stops);
      var r := AddVolume(b, cfg, vol);
      && r.Ok?
      && (|kept| == 0 ==> r.value == b)
      && (|kept| > 0 ==>
            && r.value.vocabs == b.vocabs[target := b.vocabs[target] + [kept]]
            && r.value.corpora == b.corpora[target := b.corpora[target] + [cfg.g.doc2bow(r.value.vocabs[target], kept)]])
  {
  }

  /** Each volume keeps the tables in step: the same periods, one bag of
      words per document. */
  lemma AddVolumeSynced(b: Built, cfg: Config, vol: Volume)
    requires Synced(b)
    requires AddVolume(b, cfg, vol).Ok?
    ensures Synced(AddVolume(b, cfg, vol).value)
    ensures AddVolume(b, cfg, vol).value.vocabs.Keys == b.vocabs.Keys
  {
  }

  /** The volumes of one decoded file, in file order. */
  function AddVolumes(b: Built, cfg: Config, vols: seq<(string, Volume)>): Result<Built>
    decreases |vols|
  {
    if vols == [] then Ok(b)
    else
      var b' :- AddVolume(b, cfg, vols[0].1);
      AddVolumes(b', cfg, vols[1..])
  }

  /** The walk of `build_dictionaries_and_corpora`: hidden files and files
      whose JSON does not decode are skipped. */
  function AddFiles(b: Built, cfg: Config, files: seq<JsonFile>): Result<Built>
    decreases |files|
  {
    if files == [] then Ok(b)
    else if Hidden(files[0].name) || files[0].content.None? then
      AddFiles(b, cfg, files[1..])
    else
      var b' :- AddVolumes(b, cfg, files[0].content.value);
      AddFiles(b', cfg, files[1..])
  }

  lemma {:induction false} AddVolumesSynced(b: Built, cfg: Config, vols: seq<(string, Volume)>)
    requires Synced(b)
    requires AddVolumes(b, cfg, vols).Ok?
    ensures Synced(AddVolumes(b, cfg, vols).value)
    ensures AddVolumes(b, cfg, vols).value.vocabs.Keys == b.vocabs.Keys
    decreases |vols|
  {
    if vols != [] {
      AddVolumeSynced(b, cfg, vols[0].1);
      AddVolumesSynced(AddVolume(b, cfg, vols[0].1).value, cfg, vols[1..]);
    }
  }

  /** After the whole walk both tables still have exactly the periods they
      started with, and every period one bag of words per document. */
  lemma {:induction false} AddFilesSynced(b: Built, cfg: Config, files: seq<JsonFile>)
    requires Synced(b)
    requires AddFiles(b, cfg, files).Ok?
    ensures Synced(AddFiles(b, cfg, files).value)
    ensures AddFiles(b, cfg, files).value.vocabs.Keys == b.vocabs.Keys
    decreases |files|
  {
    if files != [] {
      if Hidden(files[0].name) || files[0].content.None? {
        AddFilesSynced(b, cfg, files[1..]);
      } else {
        AddVolumesSynced(b, cfg, files[0].content.value);
        AddFilesSynced(AddVolumes(b, cfg, files[0].content.value).value, cfg, files[1..]);
      }
    }
  }

  /** `_update_dictionaries_and_corpora` on the tables being built; the
      stop words are deleted from the token list in place. */
  method UpdateDictionariesAndCorpora(b: Built, cfg: Config, vol: Volume) returns (r: Result<Built>)
    ensures r == AddVolume(b, cfg, vol)
  {
    var yj := Get(vol, cfg.dateKey);
    if yj.Err? {
      return Err(yj.error);
    }
    var year := IntOf(yj.value);
    if year.Err? {
      return Err(year.error);
    }
    var inside := C.InRange(cfg.yl, year.value);
    if inside.Err? {
      return Err(inside.error);
    }
    if !inside.value {
      return Ok(b);
    }
    var field := Get(vol, cfg.textType);
    if field.Err? {
      return Err(field.error);
    }
    var text := TextTokens(field.value);
    if text.Err? {
      return Err(text.error);
    }
    var kept := DeleteInPlace(text.value, StopsIn(text.value, cfg.stops));
    var target := DetermineYear(year.value, cfg.yl);
    if target.Err? {
      return Err(target.error);
    }
    var t := target.value;
    if |kept| == 0 {
      return Ok(b);
    }
    if t !in b.vocabs || t !in b.corpora {
      return Err(KeyError);
    }
    var v := b.vocabs[t] + [kept];
    var bow := cfg.g.doc2bow(v, kept);
    r := Ok(Built(b.vocabs[t := v], b.corpora[t := b.corpora[t] + [bow]]));
  }

  /** The volumes of one file, in order. */
  method UpdateFromFile(b: Built, cfg: Config, vols: seq<(string, Volume)>) returns (r: Result<Built>)
    ensures r == AddVolumes(b, cfg, vols)
  {
    var cur := b;
    var j := 0;
    while j < |vols|
      invariant 0 <= j <= |vols|
      invariant AddVolumes(cur, cfg, vols[j..]) == AddVolumes(b, cfg, vols)
    {
      assert vols[j..][0] == vols[j] && vols[j..][1..] == vols[j + 1..];
      var step := UpdateDictionariesAndCorpora(cur, cfg, vols[j].1);
      if step.Err? {
        return Err(step.error);
      }
      cur := step.value;
      j := j + 1;
    }
    assert vols[j..] == [];
    r := Ok(cur);
  }

  /** The directory walk of `build_dictionaries_and_corpora`, from empty
      tables. */
  method BuildWalk(cfg: Config, files: seq<JsonFile>) returns (r: Result<Built>)
    ensures r == AddFiles(Blank(cfg.yl), cfg, files)
  {
    var b := Blank(cfg.yl);
    var i := 0;
    while i < |files|
      invariant 0 <= i <= |files|
      invariant AddFiles(b, cfg, files[i..]) == AddFiles(Blank(cfg.yl), cfg, files)
    {
      assert files[i..][0] == files[i] && files[i..][1..] == files[i + 1..];
      if !Hidden(files[i].name) && files[i].content.Some? {
        var step := UpdateFromFile(b, cfg, files[i].content.value);
        if step.Err? {
          return Err(step.error);
        }
        b := step.value;
      }
      i := i + 1;
    }
    assert files[i..] == [];
    r := Ok(b);
  }

  /** `build_tf_idf_models`' table: each period's model over its corpus and
      dictionary, with gensim's default weighting. */
  function Models(vocabs: map<int, Vocab>, corpora: map<int, seq<Bow>>, yl: seq<int>): (r: map<int, Model>)
    requires forall y :: y in yl ==> y in vocabs && y in corpora
    ensures r.Keys == set y | y in yl
    ensures forall y :: y in r ==> r[y] == Model(corpora[y], vocabs[y], None)
  {
    map y | y in yl :: Model(corpora[y], vocabs[y], None)
  }

  /** The loop of `build_tf_idf_models` over the year list. */
  method ModelsLoop(vocabs: map<int, Vocab>, corpora: map<int, seq<Bow>>, yl: seq<int>) returns (r: map<int, Model>)
    requires forall y :: y in yl ==> y in vocabs && y in corpora
    ensures r == Models(vocabs, corpora, yl)
  {
    r := map[];
    var i := 0;
    while i < |yl|
      invariant 0 <= i <= |yl|
      invariant r == map y | y in yl[..i] :: Model(corpora[y], vocabs[y], None)
    {
      assert yl[..i + 1] == yl[..i] + [yl[i]];
      var y := yl[i];
      assert y in yl;
      r := r[y := Model(corpora[y], vocabs[y], None)];
      i := i + 1;
    }
    assert yl[..i] == yl;
  }

  // ---------------------------------------------------------------------
  // Documents that score a keyword

  /** `keyword in set(text)`: a token list is searched, a string yields its
      characters, a dict its keys, and anything else is not iterable. */
  function Mentions(j: Json, keyword: string): (r: Result<bool>)
    ensures j.JStrs? ==> r == Ok(keyword in j.items)
    ensures j.JStr? ==> r == Ok(|keyword| == 1 && keyword[0] in j.s)
    ensures j.JObj? ==> r == Ok(keyword in j.keys)
    ensures (j.JInt? || j.JBool? || j.JNull?) ==> r == Err(TypeError)
  {
    match j
    case JStrs(t) => Ok(keyword in t)
    case JStr(s) => Ok(|keyword| == 1 && keyword[0] in s)
    case JObj(ks) => Ok(keyword in ks)
    case _ => Err(TypeError)
  }

  /** The scores, in order, of the scored terms whose word is `keyword`. */
  function Hits(g: Gensim, vocab: Vocab, scored: seq<(nat, real)>, keyword: string): (r: seq<real>)
    ensures |r| <= |scored|
    decreases |scored|
  {
    if scored == [] then []
    else Hits(g, vocab, scored[..|scored| - 1], keyword) +
         (if g.get(vocab, scored[|scored| - 1].0) == Some(keyword) then [scored[|scored| - 1].1] else [])
  }

  /** The positions of the scored terms whose word is `keyword` and whose
      score is `s`. */
  function ScoredAt(g: Gensim, vocab: Vocab, scored: seq<(nat, real)>, keyword: string, s: real): set<nat> {
    set i: nat | i < |scored| && g.get(vocab, scored[i].0) == Some(keyword) && scored[i].1 == s
  }

  /** Exactly the scores of the keyword's term are recorded, each as often
      as a term with that word is scored. */
  lemma {:induction false} HitsExact(g: Gensim, vocab: Vocab, scored: seq<(nat, real)>, keyword: string, s: real)
    ensures multiset(Hits(g, vocab, scored, keyword))[s] == |ScoredAt(g, vocab, scored, keyword, s)|
    decreases |scored|
  {
    if scored != [] {
      var last := |scored| - 1;
      var init := scored[..last];
      HitsExact(g, vocab, init, keyword, s);
      ScoredAtSnoc(g, vocab, scored, keyword, s);
      assert Hits(g, vocab, scored, keyword) == Hits(g, vocab, init, keyword) +
        (if g.get(vocab, scored[last].0) == Some(keyword) then [scored[last].1] else []);
    } else {
      assert ScoredAt(g, vocab, scored, keyword, s) == {};
    }
  }

  /** The positions found in a longer list: those of its prefix, and the
      last position when it matches. */
  lemma ScoredAtSnoc(g: Gensim, vocab: Vocab, scored: seq<(nat, real)>, keyword: string, s: real)
    requires scored != []
    ensures var last := |scored| - 1;
      var before := ScoredAt(g, vocab, scored[..last], keyword, s);
      && last !in before
      && ScoredAt(g, vocab, scored, keyword, s) ==
         before + (if g.get(vocab, scored[last].0) == Some(keyword) && scored[last].1 == s then {last} else {})
  {
    var last := |scored| - 1;
    var init := scored[..last];
    forall i: nat | i < last ensures init[i] == scored[i] {
    }
  }

  /** The `for t in tfidf_doc` loop of `_update_top_n`. */
  method KeywordScores(g: Gensim, vocab: Vocab, scored: seq<(nat, real)>, keyword: string) returns (hits: seq<real>)
    ensures hits == Hits(g, vocab, scored, keyword)
  {
    hits := [];
    var i := 0;
    while i < |scored|
      invariant 0 <= i <= |scored|
      invariant hits == Hits(g, vocab, scored[..i], keyword)
    {
      assert scored[..i + 1][..i] == scored[..i];
      if g.get(vocab, scored[i].0) == Some(keyword) {
        hits := hits + [scored[i].1];
      }
      i := i + 1;
    }
    assert scored[..i] == scored;
  }

  /** One entry of `results[target]` in this revision: the file, the score
      and the volume key. */
  type Hit = (string, real, string)

  function HitOf(file: string, score: real, k: string): Hit { (file, score, k) }

  function HitScore(h: Hit): real { h.1 }

  /** The entries a volume adds for its scores, in order; `mk` builds one
      entry from the file, the score and the volume key. */
  function Tagged<E>(mk: (string, real, string) -> E, file: string, scores: seq<real>, k: string): (r: seq<E>)
    ensures |r| == |scores|
    ensures forall i :: 0 <= i < |r| ==> r[i] == mk(file, scores[i], k)
  {
    seq(|scores|, i requires 0 <= i < |scores| => mk(file, scores[i], k))
  }

  /** The tables `top_n` fills while it walks: the entries and the
      documents counted, per period. */
  datatype Tally<E> = Tally(results: map<int, seq<E>>, numDocs: map<int, int>)

  /** `list_dict(year_list)` and `num_dict(year_list, nested=0)`. */
  function StartTally<E>(yl: seq<int>): (t: Tally<E>)
    ensures t.results.Keys == t.numDocs.Keys == set y | y in yl
    ensures forall y :: y in t.results ==> t.results[y] == [] && t.numDocs[y] == 0
  {
    Tally(map y | y in yl :: [], map y | y in yl :: 0)
  }

  /** The tables the statistics object holds once its models exist. */
  datatype Trained = Trained(vocabs: map<int, Vocab>, models: map<int, Model>)

  /** `_update_top_n(k, json_data, results, num_docs, keyword, jsondoc)`.
      The text is the one decoded afresh, stop words included. */
  function TallyVolume<E>(t: Tally<E>, cfg: Config, m: Trained, keyword: string,
                          mk: (string, real, string) -> E, file: string, k: string, vol: Volume): Result<Tally<E>>
  {
    var yj :- Get(vol, cfg.dateKey);
    var year :- IntOf(yj);
    var inside :- C.InRange(cfg.yl, year);
    if !inside then Ok(t)
    else
      var field :- Get(vol, cfg.textType);
      var found :- Mentions(field, keyword);
      if !found then Ok(t)
      else
        var target :- DetermineYear(year, cfg.yl);
        if target !in t.numDocs || target !in m.vocabs || target !in m.models || target !in t.results then Err(KeyError)
        else
          var text :- DocTokens(field);
          var scored := cfg.g.weigh(m.models[target], cfg.g.doc2bow(m.vocabs[target], text));
          var hits := Hits(cfg.g, m.vocabs[target], scored, keyword);
          Ok(Tally(t.results[target := t.results[target] + Tagged(mk, file, hits, k)],
                   t.numDocs[target := t.numDocs[target] + 1]))
  }

  /** A volume in range whose text is a token list is counted once in its
      period's `num_docs` exactly when the keyword is among its tokens, and
      only the keyword's scores are appended to that period's entries,
      under the volume's file (and key); nothing else changes. */
  lemma TallyVolumeEffect<E>(t: Tally<E>, cfg: Config, m: Trained, keyword: string,
                             mk: (string, real, string) -> E, file: string, k: string, vol: Volume, year: int, target: int)
    requires cfg.dateKey in vol && IntOf(vol[cfg.dateKey]) == Ok(year)
    requires cfg.yl != [] && cfg.yl[0] <= year < cfg.yl[|cfg.yl| - 1]
    requires DetermineYear(year, cfg.yl) == Ok(target)
    requires cfg.textType in vol && vol[cfg.textType].JStrs?
    requires target in t.numDocs && target in t.results && target in m.vocabs && target in m.models
    ensures var r := TallyVolume(t, cfg, m, keyword, mk, file, k, vol);
      var text := vol[cfg.textType].items;
      var scored := cfg.g.weigh(m.models[target], cfg.g.doc2bow(m.vocabs[target], text));
      && r.Ok?
      && (keyword !in text ==> r.value == t)
      && (keyword in text ==>
            && r.value.numDocs == t.numDocs[target := t.numDocs[target] + 1]
            && r.value.results == t.results[target := t.results[target] + Tagged(mk, file, Hits(cfg.g, m.vocabs[target], scored, keyword), k)])
  {
  }

  /** The tallies keep their periods. */
  lemma TallyVolumeKeys<E>(t: Tally<E>, cfg: Config, m: Trained, keyword: string,
                           mk: (string, real, string) -> E, file: string, k: string, vol: Volume)
    requires TallyVolume(t, cfg, m, keyword, mk, file, k, vol).Ok?
    ensures var r := TallyVolume(t, cfg, m, keyword, mk, file, k, vol).value;
      r.results.Keys == t.results.Keys && r.numDocs.Keys == t.numDocs.Keys
  {
  }

  function TallyVolumes<E>(t: Tally<E>, cfg: Config, m: Trained, keyword: string,
                           mk: (string, real, string) -> E, file: string, vols: seq<(string, Volume)>): Result<Tally<E>>
    decreases |vols|
  {
    if vols == [] then Ok(t)
    else
      var t' :- TallyVolume(t, cfg, m, keyword, mk, file, vols[0].0, vols[0].1);
      TallyVolumes(t', cfg, m, keyword, mk, file, vols[1..])
  }

  /** The walk of `top_n` over the corpus directory. */
  function TallyFiles<E>(t: Tally<E>, cfg: Config, m: Trained, keyword: string,
                         mk: (string, real, string) -> E, files: seq<JsonFile>): Result<Tally<E>>
    decreases |files|
  {
    if files == [] then Ok(t)
    else if Hidden(files[0].name) || files[0].content.None? then
      TallyFiles(t, cfg, m, keyword, mk, files[1..])
    else
      var t' :- TallyVolumes(t, cfg, m, keyword, mk, files[0].name, files[0].content.value);
      TallyFiles(t', cfg, m, keyword, mk, files[1..])
  }

  lemma {:induction false} TallyVolumesKeys<E>(t: Tally<E>, cfg: Config, m: Trained, keyword: string,
                                               mk: (string, real, string) -> E, file: string, vols: seq<(string, Volume)>)
    requires TallyVolumes(t, cfg, m, keyword, mk, file, vols).Ok?
    ensures var r := TallyVolumes(t, cfg, m, keyword, mk, file, vols).value;
      r.results.Keys == t.results.Keys && r.numDocs.Keys == t.numDocs.Keys
    decreases |vols|
  {
    if vols != [] {
      TallyVolumeKeys(t, cfg, m, keyword, mk, file, vols[0].0, vols[0].1);
      var t' := TallyVolume(t, cfg, m, keyword, mk, file, vols[0].0, vols[0].1).value;
      TallyVolumesKeys(t', cfg, m, keyword, mk, file, vols[1..]);
    }
  }

  /** The walk leaves every period with a list of entries and a document
      count, so `_top_n` finds each one. */
  lemma {:induction false} TallyFilesKeys<E>(t: Tally<E>, cfg: Config, m: Trained, keyword: string,
                                             mk: (string, real, string) -> E, files: seq<JsonFile>)
    requires TallyFiles(t, cfg, m, keyword, mk, files).Ok?
    ensures var r := TallyFiles(t, cfg, m, keyword, mk, files).value;
      r.results.Keys == t.results.Keys && r.numDocs.Keys == t.numDocs.Keys
    decreases |files|
  {
    if files != [] {
      if Hidden(files[0].name) || files[0].content.None? {
        TallyFilesKeys(t, cfg, m, keyword, mk, files[1..]);
      } else {
        TallyVolumesKeys(t, cfg, m, keyword, mk, files[0].name, files[0].content.value);
        var t' := TallyVolumes(t, cfg, m, keyword, mk, files[0].name, files[0].content.value).value;
        TallyFilesKeys(t', cfg, m, keyword, mk, files[1..]);
      }
    }
  }

  /** `_update_top_n` on the tables being filled. */
  method UpdateTopN<E>(t: Tally<E>, cfg: Config, m: Trained, keyword: string,
                       mk: (string, real, string) -> E, file: string, k: string, vol: Volume)
    returns (r: Result<Tally<E>>)
    ensures r == TallyVolume(t, cfg, m, keyword, mk, file, k, vol)
  {
    var yj := Get(vol, cfg.dateKey);
    if yj.Err? {
      return Err(yj.error);
    }
    var year := IntOf(yj.value);
    if year.Err? {
      return Err(year.error);
    }
    var inside := C.InRange(cfg.yl, year.value);
    if inside.Err? {
      return Err(inside.error);
    }
    if !inside.value {
      return Ok(t);
    }
    var field := Get(vol, cfg.textType);
    if field.Err? {
      return Err(field.error);
    }
    var found := Mentions(field.value, keyword);
    if found.Err? {
      return Err(found.error);
    }
    if !found.value {
      return Ok(t);
    }
    var target := DetermineYear(year.value, cfg.yl);
    if target.Err? {
      return Err(target.error);
    }
    var y := target.value;
    if y !in t.numDocs || y !in m.vocabs || y !in m.models || y !in t.results {
      return Err(KeyError);
    }
    var text := DocTokens(field.value);
    if text.Err? {
      return Err(text.error);
    }
    var scored := cfg.g.weigh(m.models[y], cfg.g.doc2bow(m.vocabs[y], text.value));
    var hits := KeywordScores(cfg.g, m.vocabs[y], scored, keyword);
    r := Ok(Tally(t.results[y := t.results[y] + Tagged(mk, file, hits, k)], t.numDocs[y := t.numDocs[y] + 1]));
  }

  method TopNFromFile<E>(t: Tally<E>, cfg: Config, m: Trained, keyword: string,
                         mk: (string, real, string) -> E, file: string, vols: seq<(string, Volume)>)
    returns (r: Result<Tally<E>>)
    ensures r == TallyVolumes(t, cfg, m, keyword, mk, file, vols)
  {
    var cur := t;
    var j := 0;
    while j < |vols|
      invariant 0 <= j <= |vols|
      invariant TallyVolumes(cur, cfg, m, keyword, mk, file, vols[j..]) == TallyVolumes(t, cfg, m, keyword, mk, file, vols)
    {
      assert vols[j..][0] == vols[j] && vols[j..][1..] == vols[j + 1..];
      var step := UpdateTopN(cur, cfg, m, keyword, mk, file, vols[j].0, vols[j].1);
      if step.Err? {
        return Err(step.error);
      }
      cur := step.value;
      j := j + 1;
    }
    assert vols[j..] == [];
    r := Ok(cur);
  }

  /** The directory walk of `top_n`, from empty tables. */
  method TopNWalk<E>(cfg: Config, m: Trained, keyword: string, mk: (string, real, string) -> E, files: seq<JsonFile>)
    returns (r: Result<Tally<E>>)
    ensures r == TallyFiles(StartTally(cfg.yl), cfg, m, keyword, mk, files)
  {
    var t := StartTally(cfg.yl);
    var i := 0;
    while i < |files|
      invariant 0 <= i <= |files|
      invariant TallyFiles(t, cfg, m, keyword, mk, files[i..]) == TallyFiles(StartTally(cfg.yl), cfg, m, keyword, mk, files)
    {
      assert files[i..][0] == files[i] && files[i..][1..] == files[i + 1..];
      if !Hidden(files[i].name) && files[i].content.Some? {
        var step := TopNFromFile(t, cfg, m, keyword, mk, files[i].name, files[i].content.value);
        if step.Err? {
          return Err(step.error);
        }
        t := step.value;
      }
      i := i + 1;
    }
    assert files[i..] == [];
    r := Ok(t);
  }

  // ---------------------------------------------------------------------
  // The first n by score

  /** Compare entries by score. */
  function ByScore<E>(score: E -> real): (E, E) -> bool {
    (a: E, b: E) => score(a) <= score(b)
  }

  lemma ByScoreTotal<E(!new)>(score: E -> real)
    ensures TotalPreorder(ByScore(score))
  {
  }

  /** `sorted(entries, key=score)[:n]`: ascending, ties in their original
      order, then cut. */
  function LowestN<E>(entries: seq<E>, score: E -> real, n: int): seq<E> {
    Prefix(Sort(entries, ByScore(score)), n)
  }

  /** `_top_n` keeps the LOWEST scores: the entries come out in
      non-decreasing score, `min(n, len)` of them, each drawn from the input
      and no more often, and no entry left out scores below an entry
      kept. */
  lemma LowestNProperties<E(!new)>(entries: seq<E>, score: E -> real, n: nat)
    ensures var r := LowestN(entries, score, n);
      && |r| == (if n < |entries| then n else |entries|)
      && (forall i, j :: 0 <= i < j < |r| ==> score(r[i]) <= score(r[j]))
      && multiset(r) <= multiset(entries)
    ensures var sorted := Sort(entries, ByScore(score));
      forall i, j :: 0 <= i < |LowestN(entries, score, n)| <= j < |sorted| ==> score(sorted[i]) <= score(sorted[j])
  {
    var sorted := Sort(entries, ByScore(score));
    ScoresAscend(entries, score);
    var r := LowestN(entries, score, n);
    assert r == sorted[..|r|];
    forall i, j | 0 <= i < j < |r| ensures score(r[i]) <= score(r[j]) {
      assert r[i] == sorted[i] && r[j] == sorted[j];
    }
    assert sorted == r + sorted[|r|..];
    assert multiset(sorted) == multiset(r) + multiset(sorted[|r|..]);
  }

  /** Sorting by score puts the scores in non-decreasing order. */
  lemma ScoresAscend<E(!new)>(entries: seq<E>, score: E -> real)
    ensures forall i, j :: 0 <= i < j < |Sort(entries, ByScore(score))| ==>
              score(Sort(entries, ByScore(score))[i]) <= score(Sort(entries, ByScore(score))[j])
  {
    var sorted := Sort(entries, ByScore(score));
    ByScoreTotal(score);
    SortSorted(entries, ByScore(score));
    forall i, j | 0 <= i < j < |sorted| ensures score(sorted[i]) <= score(sorted[j]) {
      assert ByScore(score)(sorted[i], sorted[j]);
    }
  }

  /** Entries with equal scores keep the order in which they were
      recorded. */
  lemma LowestNStable<E(!new)>(entries: seq<E>, score: E -> real, c: E)
    ensures Ties(Sort(entries, ByScore(score)), ByScore(score), c) == Ties(entries, ByScore(score), c)
  {
    ByScoreTotal(score);
    SortStable(entries, ByScore(score), c);
  }

  /** `_top_n(results, n)`: every period of the year list, cut to its first
      `n` entries by ascending score. */
  function TopResults<E>(results: map<int, seq<E>>, score: E -> real, yl: seq<int>, n: int): (r: map<int, seq<E>>)
    requires forall y :: y in yl ==> y in results
    ensures r.Keys == set y | y in yl
    ensures forall y :: y in r ==> r[y] == LowestN(results[y], score, n)
  {
    map y | y in yl :: LowestN(results[y], score, n)
  }

  /** The loop of `_top_n` over the year list. */
  method TopResultsLoop<E>(results: map<int, seq<E>>, score: E -> real, yl: seq<int>, n: int) returns (r: map<int, seq<E>>)
    requires forall y :: y in yl ==> y in results
    ensures r == TopResults(results, score, yl, n)
  {
    r := map[];
    var i := 0;
    while i < |yl|
      invariant 0 <= i <= |yl|
      invariant r == map y | y in yl[..i] :: LowestN(results[y], score, n)
    {
      assert yl[..i + 1] == yl[..i] + [yl[i]];
      var y := yl[i];
      assert y in yl;
      r := r[y := LowestN(results[y], score, n)];
      i := i + 1;
    }
    assert yl[..i] == yl;
  }

  /** `TfidfResults(top_results, num_docs, keyword, name)`. */
  datatype TfidfResults<E> = TfidfResults(top: map<int, seq<E>>, numDocs: map<int, int>, keyword: string, name: string)

  /** What `top_n(keyword, n)` returns once the models exist. */
  function TopNOf<E>(cfg: Config, m: Trained, files: seq<JsonFile>, keyword: string, n: int, name: string,
                     mk: (string, real, string) -> E, score: E -> real): (r: Result<TfidfResults<E>>)
    ensures r.Ok? ==> r.value.top.Keys == r.value.numDocs.Keys == set y | y in cfg.yl
    ensures r.Ok? ==> r.value.keyword == keyword && r.value.name == name
  {
    var t :- TallyFiles(StartTally(cfg.yl), cfg, m, keyword, mk, files);
    TallyFilesKeys(StartTally(cfg.yl), cfg, m, keyword, mk, files);
    Ok(TfidfResults(TopResults(t.results, score, cfg.yl, n), t.numDocs, keyword, name))
  }

  /** The walk and the cut of `top_n`, once the models exist. */
  method TopNLoop<E>(cfg: Config, m: Trained, files: seq<JsonFile>, keyword: string, n: int, name: string,
                     mk: (string, real, string) -> E, score: E -> real) returns (r: Result<TfidfResults<E>>)
    ensures r == TopNOf(cfg, m, files, keyword, n, name, mk, score)
  {
    var t := TopNWalk(cfg, m, keyword, mk, files);
    if t.Err? {
      return Err(t.error);
    }
    TallyFilesKeys(StartTally(cfg.yl), cfg, m, keyword, mk, files);
    var top := TopResultsLoop(t.value.results, score, cfg.yl, n);
    r := Ok(TfidfResults(top, t.value.numDocs, keyword, name));
  }

  // ---------------------------------------------------------------------
  // The statistics object

  /** `Tfidf(name, in_dir, text_type, year_list, date_key, stop_words)`.
      The older revision of the class (src/nlp/tf_idf.py) is the same
      object with the date key fixed to "Date", its own stop-word test and
      2-tuple entries; module TfidfSrc builds it through `WithStops`. */
  class Tfidf {
    const name: string
    const files: seq<JsonFile>
    const textType: string
    const yearList: seq<int>
    const dateKey: string
    const stops: StopTest
    const g: Gensim
    var wordToId: Option<map<int, Vocab>>
    var corpora: Option<map<int, seq<Bow>>>
    var tfIdfModels: Option<map<int, Model>>

    /** The dictionaries and corpora are set together, cover every period
        and stay in step; the models exist only once they do. */
    ghost predicate Valid()
      reads this
    {
      && (wordToId.Some? <==> corpora.Some?)
      && (wordToId.Some? ==>
            Synced(Built(wordToId.value, corpora.value)) && wordToId.value.Keys == set y | y in yearList)
      && (tfIdfModels.Some? ==> wordToId.Some? && tfIdfModels.value.Keys == set y | y in yearList)
    }

    /** What the walks read. */
    function Cfg(): Config
      reads this
    {
      Config(g, yearList, dateKey, textType, stops)
    }

    /** `__init__`: a token is a stop word when the string itself is in the
        set `setup_stop_words` returns. */
    constructor(name: string, files: seq<JsonFile>, textType: string, yearList: seq<int>, dateKey: string,
                stopWords: StopArg, fileWords: seq<string>, g: Gensim)
      ensures this.name == name && this.files == files && this.textType == textType
      ensures this.yearList == yearList && this.dateKey == dateKey && this.g == g
      ensures stops == Members(SetupStopWords(stopWords, fileWords))
      ensures wordToId == None && corpora == None && tfIdfModels == None && Valid()
    {
      this.name := name;
      this.files := files;
      this.textType := textType;
      this.yearList := yearList;
      this.dateKey := dateKey;
      this.stops := Members(SetupStopWords(stopWords, fileWords));
      this.g := g;
      wordToId := None;
      corpora := None;
      tfIdfModels := None;
    }

    /** An object whose stop-word test is given directly. */
    constructor WithStops(name: string, files: seq<JsonFile>, textType: string, yearList: seq<int>, dateKey: string,
                          stops: StopTest, g: Gensim)
      ensures this.name == name && this.files == files && this.textType == textType
      ensures this.yearList == yearList && this.dateKey == dateKey && this.g == g && this.stops == stops
      ensures wordToId == None && corpora == None && tfIdfModels == None && Valid()
    {
      this.name := name;
      this.files := files;
      this.textType := textType;
      this.yearList := yearList;
      this.dateKey := dateKey;
      this.stops := stops;
      this.g := g;
      wordToId := None;
      corpora := None;
      tfIdfModels := None;
    }

    /** `build_dictionaries_and_corpora()`: nothing happens once the
        dictionaries exist; otherwise the walk's tables are stored, and a
        failing walk stores nothing. */
    method BuildDictionariesAndCorpora() returns (r: Result<()>)
      requires Valid()
      modifies this
      ensures Valid()
      ensures tfIdfModels == old(tfIdfModels)
      ensures old(wordToId).Some? ==> r.Ok? && wordToId == old(wordToId) && corpora == old(corpora)
      ensures old(wordToId).None? ==>
        var w := AddFiles(Blank(yearList), Cfg(), files);
        && (w.Err? ==> r == Err(w.error) && wordToId == None && corpora == None)
        && (w.Ok? ==> r.Ok? && wordToId == Some(w.value.vocabs) && corpora == Some(w.value.corpora))
    {
      if wordToId.Some? {
        return Ok(());
      }
      var w := BuildWalk(Cfg(), files);
      if w.Err? {
        return Err(w.error);
      }
      AddFilesSynced(Blank(yearList), Cfg(), files);
      wordToId := Some(w.value.vocabs);
      corpora := Some(w.value.corpora);
      r := Ok(());
    }

    /** `build_tf_idf_models()`: the dictionaries are built first when
        missing, then each period of the year list gets its model. */
    method BuildTfIdfModels() returns (r: Result<()>)
      requires Valid()
      modifies this
      ensures Valid()
      ensures old(wordToId).Some? ==> wordToId == old(wordToId) && corpora == old(corpora)
      ensures old(wordToId).None? ==>
        var w := AddFiles(Blank(yearList), Cfg(), files);
        && (w.Err? ==> r == Err(w.error) && wordToId == None && tfIdfModels == old(tfIdfModels))
        && (w.Ok? ==> wordToId == Some(w.value.vocabs) && corpora == Some(w.value.corpora))
      ensures r.Ok? <==> wordToId.Some?
      ensures r.Ok? ==> corpora.Some? && tfIdfModels == Some(Models(wordToId.value, corpora.value, yearList))
    {
      var built := BuildDictionariesAndCorpora();
      if built.Err? {
        return Err(built.error);
      }
      var models := ModelsLoop(wordToId.value, corpora.value, yearList);
      tfIdfModels := Some(models);
      r := Ok(());
    }

    /** `top_n` with entries built by `mk` and ordered by `score`: the
        models are built only when missing; then the walk's entries are
        cut per period by `_top_n`. */
    method TopNWith<E>(keyword: string, n: int, mk: (string, real, string) -> E, score: E -> real)
      returns (r: Result<TfidfResults<E>>)
      requires Valid()
      modifies this
      ensures Valid()
      ensures old(tfIdfModels).Some? ==> wordToId == old(wordToId) && tfIdfModels == old(tfIdfModels)
      ensures old(tfIdfModels).None? && old(wordToId).None? ==>
        var w := AddFiles(Blank(yearList), Cfg(), files);
        w.Err? ==> r == Err(w.error)
      ensures r.Ok? ==> wordToId.Some? && tfIdfModels.Some?
      ensures wordToId.Some? && tfIdfModels.Some? ==>
        r == TopNOf(Cfg(), Trained(wordToId.value, tfIdfModels.value), files, keyword, n, name, mk, score)
    {
      if tfIdfModels.None? {
        var built := BuildTfIdfModels();
        if built.Err? {
          return Err(built.error);
        }
      }
      r := TopNLoop(Cfg(), Trained(wordToId.value, tfIdfModels.value), files, keyword, n, name, mk, score);
    }

    /** `top_n(keyword, n)`: `(jsondoc, score, k)` entries. */
    method TopN(keyword: string, n: int) returns (r: Result<TfidfResults<Hit>>)
      requires Valid()
      modifies this
      ensures Valid()
      ensures old(tfIdfModels).Some? ==> wordToId == old(wordToId) && tfIdfModels == old(tfIdfModels)
      ensures r.Ok? ==> wordToId.Some? && tfIdfModels.Some?
      ensures wordToId.Some? && tfIdfModels.Some? ==>
        r == TopNOf(Cfg(), Trained(wordToId.value, tfIdfModels.value), files, keyword, n, name, HitOf, HitScore)
    {
      r := TopNWith(keyword, n, HitOf, HitScore);
    }
  }
}
