/** corpus/nlp/tf_idf_author.py: TF-IDF over authors instead of documents.
    Every volume's text is filed under its normalised author, one gensim
    dictionary and corpus hold one document per author, and the scores of
    every word are collected per author. */
module TfidfAuthor {
  import opened Wrappers
  import opened PyStr
  import opened PyList
  import opened PyDict
  import opened Records
  import opened Gensim

  // ---------------------------------------------------------------------
  // Author keys

  /** `re.sub(r'\W+', '_', author.lower())`. */
  function NormalizeAuthor(s: string): (r: string)
    ensures AllWordChars(r)
  {
    SubNonWordRunsWordOnly(Lower(s));
    SubNonWordRuns(Lower(s))
  }

  predicate NoUpper(s: string) {
    forall i :: 0 <= i < |s| ==> !IsUpper(s[i])
  }

  /** Replacing non-word runs by `_` brings in no upper-case letter. */
  lemma {:induction false} SubNonWordRunsNoUpper(s: string)
    requires NoUpper(s)
    ensures NoUpper(SubNonWordRuns(s))
    decreases |s|
  {
    if s != [] {
      if IsWordChar(s[0]) {
        SubNonWordRunsNoUpper(s[1..]);
        assert SubNonWordRuns(s) == [s[0]] + SubNonWordRuns(s[1..]);
      } else {
        var rest := SkipNonWord(s[1..]);
        assert NoUpper(rest) by {
          SkipNonWordSuffix(s[1..]);
        }
        SubNonWordRunsNoUpper(rest);
        assert SubNonWordRuns(s) == "_" + SubNonWordRuns(rest);
      }
    }
  }

  lemma {:induction false} SkipNonWordSuffix(s: string)
    ensures SkipNonWord(s) == s[|s| - |SkipNonWord(s)|..]
    decreases |s|
  {
    if s != [] && !IsWordChar(s[0]) {
      SkipNonWordSuffix(s[1..]);
    }
  }

  /** A normalised key is made of lower-case word characters, so
      normalising it again leaves it as it is. */
  lemma NormalizeIdempotent(s: string)
    ensures NormalizeAuthor(NormalizeAuthor(s)) == NormalizeAuthor(s)
  {
    var r := NormalizeAuthor(s);
    SubNonWordRunsNoUpper(Lower(s));
    LowerOfLower(r);
    SubNonWordRunsFixed(r);
  }

  /** A guillemet between two words becomes `_`, as `\W+` matches it. */
  lemma NormalizeGuillemet()
    ensures NormalizeAuthor("A\U{AB}b") == "a_b"
  {
    assert Lower("A\U{AB}b") == "a\U{AB}b";
    assert SubNonWordRuns("b") == "b";
    assert SubNonWordRuns("a\U{AB}b") == "a_b";
  }

  // ---------------------------------------------------------------------
  // The author dictionary

  /** `author_dict`: normalised author to the tokens of their text. */
  type AuthorDict = Dict<string, seq<string>>

  /** `json_data[k]["Author"].lower()`, normalised: only a string has
      `lower`. */
  function AuthorKey(vol: Volume): (r: Result<string>)
    ensures r.Ok? <==> "Author" in vol && vol["Author"].JStr?
    ensures r.Ok? ==> r.value == NormalizeAuthor(vol["Author"].s)
    ensures "Author" !in vol ==> r == Err(KeyError)
    ensures "Author" in vol && !vol["Author"].JStr? ==> r == Err(AttributeError)
  {
    var a :- Get(vol, "Author");
    if a.JStr? then Ok(NormalizeAuthor(a.s)) else Err(AttributeError)
  }

  /** One volume of `generating_author_dict`: the key is reset to `[]` and
      then extended by the text. */
  function AddAuthor(d: AuthorDict, textType: string, vol: Volume): (r: Result<AuthorDict>)
    requires d.Valid()
    ensures r.Ok? ==> r.value.Valid()
  {
    var author :- AuthorKey(vol);
    var field :- Get(vol, textType);
    var text :- Tokens(field);
    Ok(Put(d, author, text))
  }

  /** The text stored under a volume's author is that volume's text alone,
      whatever was stored before; every other author keeps their text. */
  lemma AddAuthorLast(d: AuthorDict, textType: string, vol: Volume)
    requires d.Valid()
    requires AddAuthor(d, textType, vol).Ok?
    ensures var r := AddAuthor(d, textType, vol).value;
      var key := AuthorKey(vol).value;
      && key in r.m && r.m[key] == Tokens(vol[textType]).value
      && (forall a :: a != key ==> (a in r.m <==> a in d.m))
      && (forall a :: a in d.m && a != key ==> r.m[a] == d.m[a])
  {
  }

  function AddAuthors(d: AuthorDict, textType: string, vols: seq<(string, Volume)>): (r: Result<AuthorDict>)
    requires d.Valid()
    ensures r.Ok? ==> r.value.Valid()
    decreases |vols|
  {
    if vols == [] then Ok(d)
    else
      var d' :- AddAuthor(d, textType, vols[0].1);
      AddAuthors(d', textType, vols[1..])
  }

  /** The walk of `generating_author_dict`: hidden files and files whose
      JSON does not decode are skipped. */
  function AuthorFiles(d: AuthorDict, textType: string, files: seq<JsonFile>): (r: Result<AuthorDict>)
    requires d.Valid()
    ensures r.Ok? ==> r.value.Valid()
    decreases |files|
  {
    if files == [] then Ok(d)
    else if Hidden(files[0].name) || files[0].content.None? then
      AuthorFiles(d, textType, files[1..])
    else
      var d' :- AddAuthors(d, textType, files[0].content.value);
      AuthorFiles(d', textType, files[1..])
  }

  lemma {:induction false} AddAuthorsBound(d: AuthorDict, textType: string, vols: seq<(string, Volume)>)
    requires d.Valid()
    requires AddAuthors(d, textType, vols).Ok?
    ensures |AddAuthors(d, textType, vols).value.keys| <= |d.keys| + |vols|
    decreases |vols|
  {
    if vols != [] {
      AddAuthorsBound(AddAuthor(d, textType, vols[0].1).value, textType, vols[1..]);
    }
  }

  /** There are never more authors than volumes read. */
  lemma {:induction false} AuthorFilesBound(d: AuthorDict, textType: string, files: seq<JsonFile>)
    requires d.Valid()
    requires AuthorFiles(d, textType, files).Ok?
    ensures |AuthorFiles(d, textType, files).value.keys| <= |d.keys| + |Volumes(files)|
    decreases |files|
  {
    if files != [] {
      if Hidden(files[0].name) || files[0].content.None? {
        AuthorFilesBound(d, textType, files[1..]);
      } else {
        var vols := files[0].content.value;
        AddAuthorsBound(d, textType, vols);
        AuthorFilesBound(AddAuthors(d, textType, vols).value, textType, files[1..]);
      }
    }
  }

  // ---------------------------------------------------------------------
  // Dictionary and corpus

  /** The texts of the author dictionary, in its order. */
  function Texts(d: AuthorDict): (r: seq<seq<string>>)
    requires d.Valid()
    ensures |r| == |d.keys|
    ensures forall i :: 0 <= i < |r| ==> r[i] == d.m[d.keys[i]]
  {
    seq(|d.keys|, i requires 0 <= i < |d.keys| => d.m[d.keys[i]])
  }

  /** The texts that are not empty, in order. */
  function NonEmpty(texts: seq<seq<string>>): (r: seq<seq<string>>)
    ensures |r| <= |texts|
    ensures forall i :: 0 <= i < |r| ==> |r[i]| > 0
    decreases |texts|
  {
    if texts == [] then []
    else NonEmpty(texts[..|texts| - 1]) + (if |texts[|texts| - 1]| > 0 then [texts[|texts| - 1]] else [])
  }

  /** The dictionary and corpus of `build_dictionaries_and_corpora` after
      the given texts. */
  function AuthorCorpus(g: Gensim, texts: seq<seq<string>>): (r: (Vocab, seq<Bow>))
    decreases |texts|
  {
    if texts == [] then ([], [])
    else
      var (v, c) := AuthorCorpus(g, texts[..|texts| - 1]);
      var text := texts[|texts| - 1];
      if |text| > 0 then (v + [text], c + [g.doc2bow(v + [text], text)]) else (v, c)
  }

  /** Authors with an empty text are skipped: the dictionary holds exactly
      the non-empty texts, in order, and the corpus one bag of words for
      each, the i-th that of the i-th document. */
  lemma {:induction false} AuthorCorpusShape(g: Gensim, texts: seq<seq<string>>)
    ensures AuthorCorpus(g, texts).0 == NonEmpty(texts)
    ensures |AuthorCorpus(g, texts).1| == |NonEmpty(texts)|
    ensures forall i :: 0 <= i < |NonEmpty(texts)| ==>
      AuthorCorpus(g, texts).1[i] == g.doc2bow(NonEmpty(texts)[..i + 1], NonEmpty(texts)[i])
    decreases |texts|
  {
    if texts != [] {
      var init := texts[..|texts| - 1];
      AuthorCorpusShape(g, init);
      var v := NonEmpty(init);
      var text := texts[|texts| - 1];
      if |text| > 0 {
        assert (v + [text])[..|v| + 1] == v + [text];
        var c := AuthorCorpus(g, init).1;
        forall i | 0 <= i < |v| ensures (c + [g.doc2bow(v + [text], text)])[i] == g.doc2bow((v + [text])[..i + 1], (v + [text])[i]) {
          assert (v + [text])[..i + 1] == v[..i + 1];
        }
      }
    }
  }

  /** `{word: score}` for one author: each scored id under its word in the
      dictionary (`None` for an unknown id), a later score of the same word
      replacing an earlier one. */
  function WordScores(g: Gensim, vocab: Vocab, scored: seq<(nat, real)>): (r: Dict<Option<string>, real>)
    ensures r.Valid()
    decreases |scored|
  {
    if scored == [] then Empty()
    else
      var last := scored[|scored| - 1];
      Put(WordScores(g, vocab, scored[..|scored| - 1]), g.get(vocab, last.0), last.1)
  }

  /** The words are exactly those of the scored ids. */
  lemma {:induction false} WordScoresKeys(g: Gensim, vocab: Vocab, scored: seq<(nat, real)>, w: Option<string>)
    ensures w in WordScores(g, vocab, scored).m <==> exists i :: 0 <= i < |scored| && g.get(vocab, scored[i].0) == w
    decreases |scored|
  {
    if scored != [] {
      var init := scored[..|scored| - 1];
      WordScoresKeys(g, vocab, init, w);
      if g.get(vocab, scored[|scored| - 1].0) != w {
        if w in WordScores(g, vocab, scored).m {
          var i :| 0 <= i < |init| && g.get(vocab, init[i].0) == w;
          assert scored[i] == init[i];
        } else {
          forall i | 0 <= i < |scored| ensures g.get(vocab, scored[i].0) != w {
            if i < |init| {
              assert scored[i] == init[i];
            }
          }
        }
      }
    }
  }

  /** Each word holds the score of its last scored id. */
  lemma {:induction false} WordScoresLast(g: Gensim, vocab: Vocab, scored: seq<(nat, real)>, i: nat)
    requires i < |scored|
    requires forall j :: i < j < |scored| ==> g.get(vocab, scored[j].0) != g.get(vocab, scored[i].0)
    ensures g.get(vocab, scored[i].0) in WordScores(g, vocab, scored).m
    ensures WordScores(g, vocab, scored).m[g.get(vocab, scored[i].0)] == scored[i].1
    decreases |scored|
  {
    var n := |scored| - 1;
    var init := scored[..n];
    var w := g.get(vocab, scored[i].0);
    assert WordScores(g, vocab, scored) == Put(WordScores(g, vocab, init), g.get(vocab, scored[n].0), scored[n].1);
    if i < n {
      assert init[i] == scored[i];
      assert g.get(vocab, scored[n].0) != w;
      forall j | i < j < |init| ensures g.get(vocab, init[j].0) != g.get(vocab, init[i].0) {
        assert init[j] == scored[j];
      }
      WordScoresLast(g, vocab, init, i);
    }
  }

  /** `get_all_word_scores` once every author has been reached: an entry
      for every author, in the author dictionary's order. */
  function AllScores(d: AuthorDict, g: Gensim, vocab: Vocab, model: Model): (r: Dict<string, Dict<Option<string>, real>>)
    requires d.Valid()
    ensures r.Valid() && r.keys == d.keys
  {
    Dict(d.keys, map a | a in d.keys :: WordScores(g, vocab, g.weigh(model, g.doc2bow(vocab, d.m[a]))))
  }

  /** `get_all_word_scores()`: an author dictionary without authors gives
      an empty result whatever else is missing; otherwise the dictionary
      must exist (`None.doc2bow`) and then the model (`None[...]`). */
  function ScoresOf(d: AuthorDict, g: Gensim, vocab: Option<Vocab>, model: Option<Model>)
    : (r: Result<Dict<string, Dict<Option<string>, real>>>)
    requires d.Valid()
    ensures d.keys == [] ==> r == Ok(Empty())
    ensures d.keys != [] && vocab.None? ==> r == Err(AttributeError)
    ensures d.keys != [] && vocab.Some? && model.None? ==> r == Err(TypeError)
    ensures r.Ok? ==> r.value.Valid() && r.value.keys == d.keys
  {
    if d.keys == [] then Ok(Empty())
    else if vocab.None? then Err(AttributeError)
    else if model.None? then Err(TypeError)
    else Ok(AllScores(d, g, vocab.value, model.value))
  }

  // ---------------------------------------------------------------------
  // The loops of the statistics object

  /** One volume of `generating_author_dict`. */
  method AuthorFromVolume(d: AuthorDict, textType: string, vol: Volume) returns (r: Result<AuthorDict>)
    requires d.Valid()
    ensures r == AddAuthor(d, textType, vol)
  {
    var author := AuthorKey(vol);
    if author.Err? {
      return Err(author.error);
    }
    var field := Get(vol, textType);
    if field.Err? {
      return Err(field.error);
    }
    var text := Tokens(field.value);
    if text.Err? {
      return Err(text.error);
    }
    var cur := Put(d, author.value, []);
    cur := Put(cur, author.value, cur.m[author.value] + text.value);
    assert [] + text.value == text.value;
    assert cur == Put(d, author.value, text.value);
    r := Ok(cur);
  }

  /** The volumes of one file, in order: each author's entry is reset to
      `[]` and then extended by the volume's tokens. */
  method AuthorsFromFile(d: AuthorDict, textType: string, vols: seq<(string, Volume)>) returns (r: Result<AuthorDict>)
    requires d.Valid()
    ensures r == AddAuthors(d, textType, vols)
  {
    var cur := d;
    var j := 0;
    while j < |vols|
      invariant 0 <= j <= |vols|
      invariant cur.Valid()
      invariant AddAuthors(cur, textType, vols[j..]) == AddAuthors(d, textType, vols)
    {
      assert vols[j..][0] == vols[j] && vols[j..][1..] == vols[j + 1..];
      var step := AuthorFromVolume(cur, textType, vols[j].1);
      if step.Err? {
        return Err(step.error);
      }
      cur := step.value;
      j := j + 1;
    }
    assert vols[j..] == [];
    r := Ok(cur);
  }

  /** The walk of `generating_author_dict`, file by file. */
  method AuthorWalk(textType: string, files: seq<JsonFile>) returns (r: Result<AuthorDict>)
    ensures r == AuthorFiles(Empty(), textType, files)
  {
    var d: AuthorDict := Empty();
    var i := 0;
    while i < |files|
      invariant 0 <= i <= |files|
      invariant d.Valid()
      invariant AuthorFiles(d, textType, files[i..]) == AuthorFiles(Empty(), textType, files)
    {
      assert files[i..][0] == files[i] && files[i..][1..] == files[i + 1..];
      if !Hidden(files[i].name) && files[i].content.Some? {
        var step := AuthorsFromFile(d, textType, files[i].content.value);
        if step.Err? {
          return Err(step.error);
        }
        d := step.value;
      }
      i := i + 1;
    }
    assert files[i..] == [];
    r := Ok(d);
  }

  /** The `for wid, s in tfidf` loop of `get_all_word_scores`. */
  method ScoreWords(g: Gensim, vocab: Vocab, scored: seq<(nat, real)>) returns (inner: Dict<Option<string>, real>)
    ensures inner == WordScores(g, vocab, scored)
  {
    inner := Empty();
    var i := 0;
    while i < |scored|
      invariant 0 <= i <= |scored|
      invariant inner == WordScores(g, vocab, scored[..i])
    {
      assert scored[..i + 1][..i] == scored[..i];
      inner := Put(inner, g.get(vocab, scored[i].0), scored[i].1);
      i := i + 1;
    }
    assert scored[..i] == scored;
  }

  /** The author loop of `get_all_word_scores`, once the dictionary and
      the model are known to exist or there is no author. */
  method ScoreAuthors(d: AuthorDict, g: Gensim, vocab: Option<Vocab>, model: Option<Model>)
    returns (scores: Dict<string, Dict<Option<string>, real>>)
    requires d.Valid()
    requires d.keys != [] ==> vocab.Some? && model.Some?
    ensures ScoresOf(d, g, vocab, model) == Ok(scores)
  {
    scores := Empty();
    if d.keys == [] {
      return;
    }
    var i := 0;
    while i < |d.keys|
      invariant i <= |d.keys| && ScoresLoop(d, g, vocab.value, model.value, i, scores)
    {
      ScoresNext(d, g, vocab.value, model.value, i, scores);
      var a := d.keys[i];
      var inner := ScoreWords(g, vocab.value, g.weigh(model.value, g.doc2bow(vocab.value, d.m[a])));
      scores := Put(scores, a, inner);
      i := i + 1;
    }
    ScoresDone(d, g, vocab.value, model.value, scores);
  }

  /** The invariant of the author loop: the first `i` authors are scored,
      in order. */
  ghost predicate ScoresLoop(d: AuthorDict, g: Gensim, vocab: Vocab, model: Model, i: nat,
                             scores: Dict<string, Dict<Option<string>, real>>)
    requires i <= |d.keys|
  {
    && scores.Valid() && scores.keys == d.keys[..i]
    && forall a :: a in scores.m ==> a in d.m && scores.m[a] == WordScores(g, vocab, g.weigh(model, g.doc2bow(vocab, d.m[a])))
  }

  lemma ScoresNext(d: AuthorDict, g: Gensim, vocab: Vocab, model: Model, i: nat,
                   scores: Dict<string, Dict<Option<string>, real>>)
    requires d.Valid() && i < |d.keys| && ScoresLoop(d, g, vocab, model, i, scores)
    ensures d.keys[i] in d.m
    ensures ScoresLoop(d, g, vocab, model, i + 1,
                       Put(scores, d.keys[i], WordScores(g, vocab, g.weigh(model, g.doc2bow(vocab, d.m[d.keys[i]])))))
  {
    var a := d.keys[i];
    assert a in d.keys;
    assert d.keys[..i + 1] == d.keys[..i] + [a];
    assert a !in d.keys[..i];
  }

  lemma ScoresDone(d: AuthorDict, g: Gensim, vocab: Vocab, model: Model,
                   scores: Dict<string, Dict<Option<string>, real>>)
    requires d.Valid() && ScoresLoop(d, g, vocab, model, |d.keys|, scores)
    ensures scores == AllScores(d, g, vocab, model)
  {
    assert d.keys[..|d.keys|] == d.keys;
  }

  // ---------------------------------------------------------------------
  // The statistics object

  /** `TfidfAuthor(name, in_dir, stop_words)`. */
  class TfidfAuthor {
    const name: string
    const files: seq<JsonFile>
    const stop: set<Key>
    const g: Gensim
    var authorDict: Option<AuthorDict>
    var tfIdfModel: Option<Model>
    var wordToId: Option<Vocab>
    var corpora: Option<seq<Bow>>
    var scoresAuthor: Option<Dict<string, Dict<Option<string>, real>>>

    /** The author dictionary is a well-formed dict, and the dictionary and
        corpus are set together, one bag of words per document. */
    ghost predicate Valid()
      reads this
    {
      && (authorDict.Some? ==> authorDict.value.Valid())
      && (wordToId.Some? <==> corpora.Some?)
      && (wordToId.Some? ==> |wordToId.value| == |corpora.value|)
    }

    /** `__init__`: the stop words are set up, then never used (the
        deletion loop of `build_dictionaries_and_corpora` is commented
        out). */
    constructor(name: string, files: seq<JsonFile>, stopWords: StopArg, fileWords: seq<string>, g: Gensim)
      ensures this.name == name && this.files == files && this.g == g
      ensures stop == SetupStopWords(stopWords, fileWords)
      ensures authorDict == None && tfIdfModel == None && wordToId == None && corpora == None && scoresAuthor == None
      ensures Valid()
    {
      this.name := name;
      this.files := files;
      this.stop := SetupStopWords(stopWords, fileWords);
      this.g := g;
      authorDict := None;
      tfIdfModel := None;
      wordToId := None;
      corpora := None;
      scoresAuthor := None;
    }

    /** `get_author_dict_from_json(file_path)`: the file's dictionary when
        the file exists (`loaded`), otherwise nothing changes. */
    method GetAuthorDictFromJson(loaded: Option<AuthorDict>)
      requires Valid()
      requires loaded.Some? ==> loaded.value.Valid()
      modifies this
      ensures Valid()
      ensures loaded.Some? ==> authorDict == loaded
      ensures loaded.None? ==> authorDict == old(authorDict)
      ensures tfIdfModel == old(tfIdfModel) && wordToId == old(wordToId) && corpora == old(corpora)
      ensures scoresAuthor == old(scoresAuthor)
    {
      if loaded.Some? {
        authorDict := loaded;
      }
    }

    /** `generating_author_dict(text_type)`: the dictionary is stored only
        when the whole walk succeeds. */
    method GeneratingAuthorDict(textType: string) returns (r: Result<()>)
      requires Valid()
      modifies this
      ensures Valid()
      ensures var w := AuthorFiles(Empty(), textType, files);
        && (w.Ok? ==> r.Ok? && authorDict == Some(w.value))
        && (w.Err? ==> r == Err(w.error) && authorDict == old(authorDict))
      ensures tfIdfModel == old(tfIdfModel) && wordToId == old(wordToId) && corpora == old(corpora)
      ensures scoresAuthor == old(scoresAuthor)
    {
      var w := AuthorWalk(textType, files);
      if w.Err? {
        return Err(w.error);
      }
      authorDict := Some(w.value);
      r := Ok(());
    }

    /** `write_author_dict(file_path)`: writes nothing; when the author
        dictionary is missing it calls `generating_author_dict()` without
        its required argument, which raises `TypeError`. */
    method WriteAuthorDict() returns (r: Result<()>)
      ensures r.Err? <==> authorDict.None?
      ensures r.Err? ==> r.error == TypeError
    {
      if authorDict.None? {
        return Err(TypeError);
      }
      r := Ok(());
    }

    /** `build_dictionaries_and_corpora()`: nothing happens once the
        dictionary exists; the author dictionary must exist; the texts are
        added in its order, empty ones skipped. */
    method BuildDictionariesAndCorpora() returns (r: Result<()>)
      requires Valid()
      modifies this
      ensures Valid()
      ensures authorDict == old(authorDict) && tfIdfModel == old(tfIdfModel) && scoresAuthor == old(scoresAuthor)
      ensures old(wordToId).Some? ==> r.Ok? && wordToId == old(wordToId) && corpora == old(corpora)
      ensures old(wordToId).None? && authorDict.None? ==> r == Err(AttributeError) && wordToId == None
      ensures old(wordToId).None? && authorDict.Some? ==>
        && r.Ok?
        && wordToId == Some(AuthorCorpus(g, Texts(authorDict.value)).0)
        && corpora == Some(AuthorCorpus(g, Texts(authorDict.value)).1)
    {
      if wordToId.Some? {
        return Ok(());
      }
      if authorDict.None? {
        return Err(AttributeError);
      }
      var d := authorDict.value;
      var texts := Texts(d);
      var vocab: Vocab := [];
      var bows: seq<Bow> := [];
      var i := 0;
      while i < |d.keys|
        invariant 0 <= i <= |d.keys|
        invariant (vocab, bows) == AuthorCorpus(g, texts[..i])
      {
        assert texts[..i + 1][..i] == texts[..i];
        var text := d.m[d.keys[i]];
        if |text| > 0 {
          vocab := vocab + [text];
          bows := bows + [g.doc2bow(vocab, text)];
        }
        i := i + 1;
      }
      assert texts[..i] == texts;
      AuthorCorpusShape(g, texts);
      wordToId := Some(vocab);
      corpora := Some(bows);
      r := Ok(());
    }

    /** `build_tf_idf_author_model()`: the dictionary is built first when
        missing, then one model over the whole corpus with the `'ntc'`
        weighting. */
    method BuildTfIdfAuthorModel() returns (r: Result<()>)
      requires Valid()
      modifies this
      ensures Valid()
      ensures authorDict == old(authorDict) && scoresAuthor == old(scoresAuthor)
      ensures old(wordToId).Some? ==> wordToId == old(wordToId) && corpora == old(corpora)
      ensures old(wordToId).None? && authorDict.None? ==> r == Err(AttributeError) && tfIdfModel == old(tfIdfModel)
      ensures r.Ok? <==> wordToId.Some?
      ensures r.Ok? ==> corpora.Some? && tfIdfModel == Some(Model(corpora.value, wordToId.value, Some("ntc")))
    {
      var built := BuildDictionariesAndCorpora();
      if built.Err? {
        return Err(built.error);
      }
      tfIdfModel := Some(Model(corpora.value, wordToId.value, Some("ntc")));
      r := Ok(());
    }

    /** `get_all_word_scores()`: the author dictionary must exist; the
        scores are stored only when every author was reached. */
    method GetAllWordScores() returns (r: Result<()>)
      requires Valid()
      modifies this
      ensures Valid()
      ensures authorDict == old(authorDict) && tfIdfModel == old(tfIdfModel)
      ensures wordToId == old(wordToId) && corpora == old(corpora)
      ensures authorDict.None? ==> r == Err(AttributeError) && scoresAuthor == old(scoresAuthor)
      ensures authorDict.Some? ==>
        var s := ScoresOf(authorDict.value, g, wordToId, tfIdfModel);
        && (s.Ok? ==> r.Ok? && scoresAuthor == Some(s.value))
        && (s.Err? ==> r == Err(s.error) && scoresAuthor == old(scoresAuthor))
    {
      if authorDict.None? {
        return Err(AttributeError);
      }
      var d := authorDict.value;
      if d.keys != [] && wordToId.None? {
        return Err(AttributeError);
      }
      if d.keys != [] && tfIdfModel.None? {
        return Err(TypeError);
      }
      var scores := ScoreAuthors(d, g, wordToId, tfIdfModel);
      scoresAuthor := Some(scores);
      r := Ok(());
    }
  }
}
