/** The text pipeline of parsing/utils.py: a text is cut into sentences and
    into cleaned tokens, the tokens are stemmed and stripped of stop words,
    and the results go into the lists of a `Parsed` volume or a
    `RedditComment`; `build_json` then fills in missing metadata and lays the
    volume out as a JSON record. nltk's stop-word lists and Snowball stemmer
    are parameters: `stop` is the stop-word set of the chosen language and
    `stem` its stemmer. */
module ParsingUtils {
  import opened Wrappers
  import opened PyStr
  import opened PyList
  import opened Records
  import opened ParsedObjects

  // ---------------------------------------------------------------------
  // clean_text

  /** A token `clean_text` can produce: non-empty, word characters only, no
      upper-case letter. */
  predicate Clean(w: string) {
    w != "" && AllWordChars(w) && forall j :: 0 <= j < |w| ==> !IsUpper(w[j])
  }

  predicate AllClean(ws: seq<string>) {
    forall i :: 0 <= i < |ws| ==> Clean(ws[i])
  }

  /** The parts `clean_text` deletes. */
  predicate Discarded(w: string) {
    w == "" || w == "None"
  }

  /** What the reverse loop of `clean_text` leaves of `parts`: the parts that
      are not discarded, lower-cased, in their order. */
  function Cleaned(parts: seq<string>): (r: seq<string>)
    ensures |r| <= |parts|
  {
    if parts == [] then []
    else if Discarded(parts[0]) then Cleaned(parts[1..])
    else [Lower(parts[0])] + Cleaned(parts[1..])
  }

  /** The tokens of a text: `clean_text(text)`. */
  function Tokenize(text: string): seq<string> {
    Cleaned(SplitNonWord(text))
  }

  function LowerAll(ws: seq<string>): (r: seq<string>) {
    seq(|ws|, i requires 0 <= i < |ws| => Lower(ws[i]))
  }

  /** `clean_text` is "drop the empty and `None` parts, lower-case the rest". */
  lemma {:induction false} CleanedIsRemoveAll(parts: seq<string>)
    ensures Cleaned(parts) == LowerAll(RemoveAll(parts, {"", "None"}))
  {
    if parts != [] {
      CleanedIsRemoveAll(parts[1..]);
    }
  }

  /** A part of word characters cleans to a clean token. */
  lemma {:induction false} CleanedClean(parts: seq<string>)
    requires forall i :: 0 <= i < |parts| ==> AllWordChars(parts[i])
    ensures AllClean(Cleaned(parts))
  {
    if parts != [] {
      CleanedClean(parts[1..]);
    }
  }

  /** Every token of `clean_text(text)` is clean. */
  lemma TokenizeClean(text: string)
    ensures AllClean(Tokenize(text))
  {
    SplitNonWordParts(text);
    CleanedClean(SplitNonWord(text));
  }

  /** Clean tokens pass through the loop of `clean_text` unchanged, so
      cleaning a token list twice is cleaning it once. */
  lemma {:induction false} CleanedFixed(ws: seq<string>)
    requires AllClean(ws)
    ensures Cleaned(ws) == ws
  {
    if ws != [] {
      assert ws[0][0] != 'N';
      LowerOfLower(ws[0]);
      CleanedFixed(ws[1..]);
    }
  }

  lemma CleanTwice(text: string)
    ensures Cleaned(Tokenize(text)) == Tokenize(text)
  {
    TokenizeClean(text);
    CleanedFixed(Tokenize(text));
  }

  /** Latin-1 punctuation is not a word character: the guillemets of
      Swedish quotations split a token, and a Latin-1 letter does not. */
  lemma TokenizeLatin1()
    ensures Tokenize("a\U{AB}b") == ["a", "b"]
    ensures Tokenize("\U{C5}r") == ["\U{E5}r"]
  {
    OneWordChar('b');
    var s := "a\U{AB}b";
    assert s[1..] == "\U{AB}b" && s[1..][1..] == "b";
    assert SkipDigits("b") == "b";
    assert !IsWordChar(s[1]);
    assert SplitNonWord(s[1..]) == ["", "b"];
    assert IsWordChar(s[0]) && [s[0]] + "" == "a";
    assert SplitNonWord(s) == [[s[0]] + SplitNonWord(s[1..])[0]] + SplitNonWord(s[1..])[1..];
    var ab: seq<string> := ["a", "b"];
    assert ab[1..] == ["b"] && ["b"][1..] == [];
    assert Lower("a") == "a" && Lower("b") == "b";
    assert Cleaned(["b"]) == ["b"];
    assert Cleaned(ab) == ab;
    OneWordChar('r');
    var t := "\U{C5}r";
    assert t[1..] == "r" && IsWordChar(t[0]) && [t[0]] + "r" == t;
    assert SplitNonWord(t) == [[t[0]] + SplitNonWord(t[1..])[0]] + SplitNonWord(t[1..])[1..];
    assert [t][1..] == [];
    assert Lower(t) == "\U{E5}r";
  }

  /** A word character alone is one part. */
  lemma OneWordChar(c: char)
    requires IsWordChar(c)
    ensures SplitNonWord([c]) == [[c]]
  {
    var s := [c];
    assert s[0] == c && s[1..] == [];
    var rest := SplitNonWord(s[1..]);
    assert rest == [""] && rest[1..] == [];
    assert [s[0]] + rest[0] == [c];
  }

  /** `clean_text(text)`: split on `\W[0-9]*`, then walk the parts from the
      last to the first, deleting the empty and `None` ones and lower-casing
      the others in place. */
  method CleanText(text: string) returns (r: seq<string>)
    ensures r == Tokenize(text)
  {
    var s := SplitNonWord(text);
    r := s;
    var i := |s|;
    assert s[..i] == s && s[i..] == [];
    while i > 0
      invariant i <= |s| && r == s[..i] + Cleaned(s[i..])
    {
      i := i - 1;
      CleanStep(s, i, r);
      if r[i] == "" || r[i] == "None" {
        r := r[..i] + r[i + 1..];
      } else {
        r := r[i := Lower(r[i])];
      }
    }
    assert s[..i] == [] && s[i..] == s;
  }

  /** One step of the loop of `clean_text`, at index `i`. */
  lemma CleanStep(s: seq<string>, i: nat, r: seq<string>)
    requires i < |s| && r == s[..i + 1] + Cleaned(s[i + 1..])
    ensures i < |r| && r[i] == s[i]
    ensures Discarded(s[i]) ==> r[..i] + r[i + 1..] == s[..i] + Cleaned(s[i..])
    ensures !Discarded(s[i]) ==> r[i := Lower(r[i])] == s[..i] + Cleaned(s[i..])
  {
    assert s[i..][0] == s[i] && s[i..][1..] == s[i + 1..];
    assert s[..i + 1] == s[..i] + [s[i]];
    assert r == s[..i] + ([s[i]] + Cleaned(s[i + 1..]));
    assert r[..i] == s[..i] && r[i + 1..] == Cleaned(s[i + 1..]);
  }

  // ---------------------------------------------------------------------
  // filter_text and stem_text

  /** `filter_text(text, language)` with `stop` the language's stop words:
      the reverse-index `del` loop over the tokens. */
  method FilterText(ws: seq<string>, stop: set<string>) returns (r: seq<string>)
    ensures r == RemoveAll(ws, stop)
    ensures forall i :: 0 <= i < |r| ==> r[i] !in stop
    ensures forall x :: x !in stop ==> Count(r, x) == Count(ws, x)
  {
    r := DeleteInPlace(ws, stop);
    forall x | x !in stop
      ensures Count(r, x) == Count(ws, x)
    {
      RemoveAllCount(ws, stop, x);
    }
  }

  /** The stems of a token list, token by token. */
  function Stemmed(ws: seq<string>, stem: string -> string): seq<string> {
    seq(|ws|, i requires 0 <= i < |ws| => stem(ws[i]))
  }

  /** `stem_text(text, language)` with `stem` the language's stemmer. */
  method StemText(ws: seq<string>, stem: string -> string) returns (r: seq<string>)
    ensures |r| == |ws|
    ensures forall i :: 0 <= i < |ws| ==> r[i] == stem(ws[i])
    ensures r == Stemmed(ws, stem)
  {
    r := [];
    for i := 0 to |ws|
      invariant |r| == i
      invariant forall j :: 0 <= j < i ==> r[j] == stem(ws[j])
    {
      r := r + [stem(ws[i])];
    }
  }

  // ---------------------------------------------------------------------
  // Sentences: re.split('(?<=[.!?]) +', text)

  predicate IsEnd(c: char) {
    c == '.' || c == '!' || c == '?'
  }

  /** The pattern matches at `j`: the character before is `.`, `!` or `?`
      and a space follows. */
  predicate BreakAt(s: string, j: int) {
    1 <= j < |s| && IsEnd(s[j - 1]) && s[j] == ' '
  }

  /** No match of the pattern starts inside `s`. */
  predicate NoBreak(s: string) {
    forall j :: 0 <= j < |s| ==> !BreakAt(s, j)
  }

  /** The first match at or after `j`, or `|s|` when there is none. */
  function NextBreak(s: string, j: nat): (k: nat)
    ensures k <= |s|
    ensures j <= |s| ==> j <= k
    ensures forall i :: j <= i < k ==> !BreakAt(s, i)
    ensures k < |s| ==> BreakAt(s, k)
    decreases |s| - j
  {
    if j >= |s| then |s| else if BreakAt(s, j) then j else NextBreak(s, j + 1)
  }

  /** The run of spaces ` +` matches, skipped. */
  function SkipSpaces(s: string): (r: string)
    ensures |r| <= |s|
    ensures r != [] ==> r[0] != ' '
  {
    if s != [] && s[0] == ' ' then SkipSpaces(s[1..]) else s
  }

  /** `re.split('(?<=[.!?]) +', text)`: the text is cut after every `.`,
      `!` or `?` that a run of spaces follows, and the spaces are dropped.
      Every sentence but the last ends with such a mark, none holds a cut
      point, and none after the first starts with a space. */
  function Sentences(s: string): (r: seq<string>)
    ensures |r| >= 1
    ensures forall k :: 0 <= k < |r| - 1 ==> r[k] != [] && IsEnd(r[k][|r[k]| - 1])
    ensures forall k :: 0 <= k < |r| ==> NoBreak(r[k])
    ensures forall k :: 1 <= k < |r| ==> r[k] == [] || r[k][0] != ' '
    decreases |s|
  {
    var k := NextBreak(s, 1);
    if k >= |s| then
      assert forall j :: 0 <= j < |s| ==> !BreakAt(s, j);
      [s]
    else
      var head := s[..k];
      assert forall j :: 0 <= j < |head| ==> !BreakAt(head, j) by {
        forall j | 0 <= j < |head|
          ensures !BreakAt(head, j)
        {
          assert !BreakAt(s, j);
        }
      }
      [head] + Sentences(SkipSpaces(s[k + 1..]))
  }

  /** A well-formed sequence of sentences: each but the last ends with a mark
      and is non-empty, none holds a cut point, none starts with a space. */
  predicate SentenceList(ss: seq<string>) {
    && |ss| >= 1
    && (forall k :: 0 <= k < |ss| - 1 ==> ss[k] != [] && IsEnd(ss[k][|ss[k]| - 1]))
    && (forall k :: 0 <= k < |ss| ==> NoBreak(ss[k]) && (ss[k] == [] || ss[k][0] != ' '))
  }

  /** Splitting the space-joined sentences gives the sentences back. */
  lemma {:induction false} SentencesJoin(ss: seq<string>)
    requires SentenceList(ss)
    ensures Sentences(Join(" ", ss)) == ss
  {
    if |ss| == 1 {
      NoBreakNext(ss[0], 1);
    } else {
      var a, rest := ss[0], Join(" ", ss[1..]);
      var s := a + " " + rest;
      assert Join(" ", ss) == s;
      assert s[..|a|] == a;
      assert BreakAt(s, |a|);
      NoBreakPrefix(s, a, 1);
      assert s[|a| + 1..] == rest;
      assert SentenceList(ss[1..]);
      JoinFirst(ss[1..]);
      assert SkipSpaces(rest) == rest;
      SentencesJoin(ss[1..]);
    }
  }

  lemma {:induction false} NoBreakNext(s: string, j: nat)
    requires NoBreak(s)
    ensures NextBreak(s, j) == |s| || j > |s|
    decreases |s| - j
  {
    if j < |s| {
      NoBreakNext(s, j + 1);
    }
  }

  /** Inside the prefix `a` of `s` no cut is found before `|a|`. */
  lemma {:induction false} NoBreakPrefix(s: string, a: string, j: nat)
    requires |a| < |s| && s[..|a|] == a && NoBreak(a) && BreakAt(s, |a|) && 1 <= j <= |a|
    ensures NextBreak(s, j) == |a|
    decreases |a| - j
  {
    if j < |a| {
      assert a[j - 1] == s[j - 1] && a[j] == s[j];
      assert !BreakAt(a, j);
      NoBreakPrefix(s, a, j + 1);
    }
  }

  /** A join of sentences starts like its first sentence. */
  lemma JoinFirst(ss: seq<string>)
    requires |ss| >= 1
    ensures |Join(" ", ss)| >= |ss[0]| && Join(" ", ss)[..|ss[0]|] == ss[0]
    ensures ss[0] == [] ==> (Join(" ", ss) == [] || Join(" ", ss)[0] == ' ')
  {
    if |ss| > 1 {
      assert Join(" ", ss) == ss[0] + " " + Join(" ", ss[1..]);
    }
  }

  // ---------------------------------------------------------------------
  // add_content and add_reddit_content

  /** The sentence rows one sentence's tokens add: the tokens and their
      stems when there are at least two tokens, and, when at least two
      remain once the stop words are gone, those and their stems too. */
  function AddSentence(l: TextLists, ws: seq<string>, stop: set<string>, stem: string -> string): TextLists {
    if |ws| <= 1 then l
    else
      var l1 := l.(cSent := l.cSent + [Join(" ", ws)],
                   cstemSent := l.cstemSent + [Join(" ", Stemmed(ws, stem))]);
      var f := RemoveAll(ws, stop);
      if |f| <= 1 then l1
      else l1.(txSent := l1.txSent + [Join(" ", f)],
               txstemSent := l1.txstemSent + [Join(" ", Stemmed(f, stem))])
  }

  function AddSentences(l: TextLists, ss: seq<string>, stop: set<string>, stem: string -> string): TextLists
    decreases |ss|
  {
    if ss == [] then l else AddSentences(AddSentence(l, Tokenize(ss[0]), stop, stem), ss[1..], stop, stem)
  }

  /** The token lists a text's tokens `t` extend: the tokens, their stems,
      the tokens that are no stop words, and their stems. */
  function AddTokens(l: TextLists, t: seq<string>, stop: set<string>, stem: string -> string): TextLists {
    var f := RemoveAll(t, stop);
    l.(c := l.c + t, cstem := l.cstem + Stemmed(t, stem),
       tx := l.tx + f, txstem := l.txstem + Stemmed(f, stem))
  }

  /** The lists after `add_content(text, file, language)`. */
  function AddText(l: TextLists, text: string, stop: set<string>, stem: string -> string): TextLists {
    AddTokens(AddSentences(l, Sentences(text), stop, stem), Tokenize(text), stop, stem)
  }

  /** A sentence row: at least two clean tokens separated by single spaces,
      and its stemmed row is the stems of those tokens. */
  ghost predicate SentenceRow(row: string, stemmedRow: string, stem: string -> string) {
    var ws := Words(row);
    |ws| > 1 && AllClean(ws) && stemmedRow == Join(" ", Stemmed(ws, stem))
  }

  /** What the lists of a volume keep as texts are added: the stemmed lists
      are the stems of the plain ones, token for token; the filtered tokens
      are clean and no stop words; every sentence row has at least two
      tokens, and its stemmed row, at the same position, holds their stems. */
  ghost predicate Consistent(l: TextLists, stop: set<string>, stem: string -> string) {
    && AllClean(l.c) && l.cstem == Stemmed(l.c, stem)
    && AllClean(l.tx) && (forall i :: 0 <= i < |l.tx| ==> l.tx[i] !in stop)
    && l.txstem == Stemmed(l.tx, stem) && |l.tx| <= |l.c|
    && |l.cstemSent| == |l.cSent| && |l.txstemSent| == |l.txSent| && |l.txSent| <= |l.cSent|
    && (forall k :: 0 <= k < |l.cSent| ==> SentenceRow(l.cSent[k], l.cstemSent[k], stem))
    && (forall k :: 0 <= k < |l.txSent| ==>
          SentenceRow(l.txSent[k], l.txstemSent[k], stem) && forall w :: w in Words(l.txSent[k]) ==> w !in stop)
  }

  lemma NoTextConsistent(stop: set<string>, stem: string -> string)
    ensures Consistent(NoText, stop, stem)
  {
  }

  lemma CleanIsWord(w: string)
    requires Clean(w)
    ensures IsWord(w)
  {
  }

  lemma {:induction false} JoinWords(ws: seq<string>)
    requires AllClean(ws)
    ensures Words(Join(" ", ws)) == ws
  {
    forall i | 0 <= i < |ws|
      ensures IsWord(ws[i])
    {
      CleanIsWord(ws[i]);
    }
    WordsJoin(ws);
  }

  lemma RemoveAllClean(ws: seq<string>, stop: set<string>)
    requires AllClean(ws)
    ensures AllClean(RemoveAll(ws, stop))
  {
    var r := RemoveAll(ws, stop);
    forall i | 0 <= i < |r|
      ensures Clean(r[i])
    {
      assert r[i] in ws;
    }
  }

  lemma AddSentenceConsistent(l: TextLists, ws: seq<string>, stop: set<string>, stem: string -> string)
    requires Consistent(l, stop, stem) && AllClean(ws)
    ensures Consistent(AddSentence(l, ws, stop, stem), stop, stem)
  {
    if |ws| > 1 {
      JoinWords(ws);
      var f := RemoveAll(ws, stop);
      RemoveAllClean(ws, stop);
      JoinWords(f);
      var l2 := AddSentence(l, ws, stop, stem);
      assert l2.cSent[|l.cSent|] == Join(" ", ws);
      assert forall k :: 0 <= k < |l2.cSent| ==> SentenceRow(l2.cSent[k], l2.cstemSent[k], stem);
    }
  }

  lemma {:induction false} AddSentencesConsistent(l: TextLists, ss: seq<string>, stop: set<string>, stem: string -> string)
    requires Consistent(l, stop, stem)
    ensures Consistent(AddSentences(l, ss, stop, stem), stop, stem)
    decreases |ss|
  {
    if ss != [] {
      TokenizeClean(ss[0]);
      AddSentenceConsistent(l, Tokenize(ss[0]), stop, stem);
      AddSentencesConsistent(AddSentence(l, Tokenize(ss[0]), stop, stem), ss[1..], stop, stem);
    }
  }

  lemma StemmedAppend(a: seq<string>, b: seq<string>, stem: string -> string)
    ensures Stemmed(a + b, stem) == Stemmed(a, stem) + Stemmed(b, stem)
  {
  }

  lemma AllCleanAppend(a: seq<string>, b: seq<string>)
    requires AllClean(a) && AllClean(b)
    ensures AllClean(a + b)
  {
  }

  lemma AddTokensConsistent(l: TextLists, t: seq<string>, stop: set<string>, stem: string -> string)
    requires Consistent(l, stop, stem) && AllClean(t)
    ensures Consistent(AddTokens(l, t, stop, stem), stop, stem)
  {
    var f := RemoveAll(t, stop);
    RemoveAllClean(t, stop);
    StemmedAppend(l.c, t, stem);
    StemmedAppend(l.tx, f, stem);
    AllCleanAppend(l.c, t);
    AllCleanAppend(l.tx, f);
    var l2 := AddTokens(l, t, stop, stem);
    assert l2.cSent == l.cSent && l2.cstemSent == l.cstemSent;
    assert l2.txSent == l.txSent && l2.txstemSent == l.txstemSent;
    assert forall i :: 0 <= i < |l2.tx| ==> l2.tx[i] !in stop by {
      forall i | 0 <= i < |l2.tx|
        ensures l2.tx[i] !in stop
      {
        if i >= |l.tx| {
          assert l2.tx[i] == f[i - |l.tx|];
        }
      }
    }
  }

  /** `add_content` keeps a volume's lists consistent. */
  lemma AddTextConsistent(l: TextLists, text: string, stop: set<string>, stem: string -> string)
    requires Consistent(l, stop, stem)
    ensures Consistent(AddText(l, text, stop, stem), stop, stem)
  {
    AddSentencesConsistent(l, Sentences(text), stop, stem);
    TokenizeClean(text);
    AddTokensConsistent(AddSentences(l, Sentences(text), stop, stem), Tokenize(text), stop, stem);
  }

  /** `add_content(text, file, language)`: each sentence's tokens feed the
      four sentence lists, then the whole text's tokens feed the four token
      lists. */
  method AddContent(text: string, file: Parsed, stop: set<string>, stem: string -> string)
    modifies file
    ensures file.Meta() == old(file.Meta())
    ensures file.Lists() == AddText(old(file.Lists()), text, stop, stem)
  {
    var sentences := Sentences(text);
    var rest := sentences;
    while rest != []
      invariant file.Meta() == old(file.Meta())
      invariant AddSentences(file.Lists(), rest, stop, stem) == AddSentences(old(file.Lists()), sentences, stop, stem)
    {
      var before := file.Lists();
      var sentence := CleanText(rest[0]);
      if |sentence| > 1 {
        file.AddContentSent(Join(" ", sentence));
        var sentenceStemmed := StemText(sentence, stem);
        file.AddStemmedSent(Join(" ", sentenceStemmed));
        var sentenceFiltered := FilterText(sentence, stop);
        if |sentenceFiltered| > 1 {
          file.AddFilteredSent(Join(" ", sentenceFiltered));
          var filteredStemmed := StemText(sentenceFiltered, stem);
          file.AddFilteredStemmedSent(Join(" ", filteredStemmed));
        }
      }
      assert file.Lists() == AddSentence(before, sentence, stop, stem);
      rest := rest[1..];
    }
    var textList := CleanText(text);
    file.AddContent(textList);
    var stemmed := StemText(textList, stem);
    file.AddStemmed(stemmed);
    var filtered := FilterText(textList, stop);
    file.AddFiltered(filtered);
    var filteredStemmed := StemText(filtered, stem);
    file.AddFilteredStemmed(filteredStemmed);
  }

  /** `add_content` called on each line of a text file in turn. */
  function AddLines(l: TextLists, lines: seq<string>, stop: set<string>, stem: string -> string): TextLists
    decreases |lines|
  {
    if lines == [] then l else AddLines(AddText(l, lines[0], stop, stem), lines[1..], stop, stem)
  }

  /** Feeding whole files line by line keeps the lists consistent. */
  lemma {:induction false} AddLinesConsistent(l: TextLists, lines: seq<string>, stop: set<string>, stem: string -> string)
    requires Consistent(l, stop, stem)
    ensures Consistent(AddLines(l, lines, stop, stem), stop, stem)
    decreases |lines|
  {
    if lines != [] {
      AddTextConsistent(l, lines[0], stop, stem);
      AddLinesConsistent(AddText(l, lines[0], stop, stem), lines[1..], stop, stem);
    }
  }

  /** Lines read in two batches add up to the lines read in one. */
  lemma {:induction false} AddLinesAppend(l: TextLists, a: seq<string>, b: seq<string>, stop: set<string>, stem: string -> string)
    ensures AddLines(l, a + b, stop, stem) == AddLines(AddLines(l, a, stop, stem), b, stop, stem)
    decreases |a|
  {
    if a == [] {
      assert a + b == b;
    } else {
      assert (a + b)[0] == a[0] && (a + b)[1..] == a[1..] + b;
      AddLinesAppend(AddText(l, a[0], stop, stem), a[1..], b, stop, stem);
    }
  }

  /** `for line in txt_in: add_content(line, obj, ...)`. */
  method AddEachLine(lines: seq<string>, file: Parsed, stop: set<string>, stem: string -> string)
    modifies file
    ensures file.Meta() == old(file.Meta())
    ensures file.Lists() == AddLines(old(file.Lists()), lines, stop, stem)
  {
    var rest := lines;
    while rest != []
      invariant file.Meta() == old(file.Meta())
      invariant AddLines(file.Lists(), rest, stop, stem) == AddLines(old(file.Lists()), lines, stop, stem)
    {
      AddContent(rest[0], file, stop, stem);
      rest := rest[1..];
    }
  }

  /** `add_reddit_content(text, file)`: the text's tokens, their stems, the
      tokens without English stop words and their stems go on the comment's
      four lists. */
  method AddRedditContent(text: string, file: RedditComment, stop: set<string>, stem: string -> string)
    modifies file
    ensures file.Data() == old(file.Data())
    ensures var t := Tokenize(text); var f := RemoveAll(t, stop);
            file.Lists() == old(file.Lists()).(text := old(file.text) + t,
                                               stemmed := old(file.stemmed) + Stemmed(t, stem),
                                               filtered := old(file.filtered) + f,
                                               fStemmed := old(file.fStemmed) + Stemmed(f, stem))
  {
    var textList := CleanText(text);
    file.AddContent(textList);
    var stemmed := StemText(textList, stem);
    file.AddStemmed(stemmed);
    var filtered := FilterText(textList, stop);
    file.AddFiltered(filtered);
    var filteredStemmed := StemText(filtered, stem);
    file.AddFilteredStemmed(filteredStemmed);
  }

  // ---------------------------------------------------------------------
  // filter_chapters

  /** The entries that are not blank once stripped, in order. */
  function NonBlank(parts: seq<string>): (r: seq<string>)
    ensures |r| <= |parts|
    ensures forall i :: 0 <= i < |r| ==> Strip(r[i]) != ""
    ensures forall x :: x in r ==> x in parts
  {
    if parts == [] then []
    else if Strip(parts[0]) == "" then NonBlank(parts[1..])
    else [parts[0]] + NonBlank(parts[1..])
  }

  /** What `filter_chapters(chapters)` returns. */
  function ChaptersFiltered(chapters: string): string {
    Join(", ", NonBlank(Split(chapters, ',')))
  }

  /** Deleting the members of the set of blank entries is keeping the
      non-blank ones. */
  lemma {:induction false} RemoveAllBlanks(s: seq<string>, blank: set<string>)
    requires forall i :: 0 <= i < |s| ==> (s[i] in blank <==> Strip(s[i]) == "")
    ensures RemoveAll(s, blank) == NonBlank(s)
  {
    if s != [] {
      RemoveAllBlanks(s[1..], blank);
    }
  }

  /** `filter_chapters(chapters)`: split on `,`, delete, from the last entry
      to the first, those that strip to nothing, join with `", "`. */
  method FilterChapters(chapters: string) returns (r: string)
    ensures r == ChaptersFiltered(chapters)
  {
    var ch := Split(chapters, ',');
    var blank := set x | x in ch && Strip(x) == "";
    RemoveAllBlanks(ch, blank);
    ch := DeleteInPlace(ch, blank);
    r := Join(", ", ch);
  }

  /** The chapter string after `add_chapter` was called with each of `xs`
      in turn on a volume whose chapters were empty. */
  function ChapterList(xs: seq<string>): string {
    if xs == [] then "" else xs[0] + ", " + ChapterList(xs[1..])
  }

  /** One more `add_chapter` call appends the chapter and `", "`. */
  lemma {:induction false} ChapterListAppend(xs: seq<string>, x: string)
    ensures ChapterList(xs + [x]) == ChapterList(xs) + x + ", "
  {
    if xs == [] {
      assert [x][1..] == [];
    } else {
      assert (xs + [x])[1..] == xs[1..] + [x];
      ChapterListAppend(xs[1..], x);
    }
  }

  /** The entries `split(',')` finds in `p + ChapterList(xs)`. */
  function Pieces(p: string, xs: seq<string>): seq<string>
    decreases |xs|
  {
    if xs == [] then [p] else [p + xs[0]] + Pieces(" ", xs[1..])
  }

  predicate ChapterNames(xs: seq<string>) {
    forall i :: 0 <= i < |xs| ==> ',' !in xs[i] && Strip(xs[i]) != ""
  }

  lemma {:induction false} SplitChapters(p: string, xs: seq<string>)
    requires ',' !in p && ChapterNames(xs)
    ensures Split(p + ChapterList(xs), ',') == Pieces(p, xs)
    decreases |xs|
  {
    if xs == [] {
      assert p + "" == p;
      SplitFree(p, ',');
    } else {
      var x := xs[0];
      assert p + ChapterList(xs) == (p + x) + [','] + (" " + ChapterList(xs[1..]));
      SplitConcat(p + x, " " + ChapterList(xs[1..]), ',');
      SplitFree(p + x, ',');
      SplitChapters(" ", xs[1..]);
    }
  }

  lemma StripSpaceFirst(x: string)
    ensures Strip(" " + x) == Strip(x)
  {
    assert (" " + x)[1..] == x;
    assert TrimLeft(" " + x, false) == TrimLeft(x, false);
  }

  lemma {:induction false} JoinPieces(p: string, xs: seq<string>)
    requires (p == "" || p == " ") && ChapterNames(xs)
    ensures Join(", ", NonBlank(Pieces(p, xs))) == if xs == [] then "" else p + Join(",  ", xs)
    decreases |xs|
  {
    if xs == [] {
      StripBlank(p);
    } else {
      var x, ys := xs[0], xs[1..];
      var tail := NonBlank(Pieces(" ", ys));
      var ps := Pieces(p, xs);
      assert ps == [p + x] + Pieces(" ", ys);
      assert ps[0] == p + x && ps[1..] == Pieces(" ", ys);
      PieceKept(p, x);
      NonBlankKeep(ps);
      if ys == [] {
        StripBlank(" ");
        assert tail == [];
      } else {
        assert ChapterNames(ys);
        JoinPieces(" ", ys);
        PieceKept(" ", ys[0]);
        assert tail != [];
        var j := Join(",  ", ys);
        JoinFront(", ", p + x, tail);
        JoinFront(",  ", x, ys);
        assert xs == [x] + ys;
        Regroup(p, x, j);
      }
    }
  }

  /** `(p + x) + ", " + (" " + j)` is `p + (x + ",  " + j)`. */
  lemma Regroup(p: string, x: string, j: string)
    ensures (p + x) + ", " + (" " + j) == p + (x + ",  " + j)
  {
    assert ", " + " " == ",  ";
  }

  lemma NonBlankKeep(ps: seq<string>)
    requires ps != [] && Strip(ps[0]) != ""
    ensures NonBlank(ps) == [ps[0]] + NonBlank(ps[1..])
  {
  }

  lemma StripBlank(p: string)
    requires p == "" || p == " "
    ensures Strip(p) == ""
  {
    assert TrimLeft(p, false) == "";
  }

  /** An entry made of a chapter name, after at most one space, survives. */
  lemma PieceKept(p: string, x: string)
    requires (p == "" || p == " ") && Strip(x) != ""
    ensures Strip(p + x) != ""
  {
    if p == "" {
      assert p + x == x;
    } else {
      StripSpaceFirst(x);
    }
  }

  lemma JoinFront(sep: string, a: string, tail: seq<string>)
    requires tail != []
    ensures Join(sep, [a] + tail) == a + sep + Join(sep, tail)
  {
    assert ([a] + tail)[0] == a && ([a] + tail)[1..] == tail;
  }

  /** After `add_chapter(x)` for each of `xs`, `filter_chapters` joins the
      names with a comma and TWO spaces: each entry after the first keeps
      the space `add_chapter` put after the comma, and the join adds one. */
  lemma FilterAddedChapters(xs: seq<string>)
    requires ChapterNames(xs)
    ensures ChaptersFiltered(ChapterList(xs)) == Join(",  ", xs)
  {
    assert "" + ChapterList(xs) == ChapterList(xs);
    SplitChapters("", xs);
    JoinPieces("", xs);
    if xs != [] {
      assert "" + Join(",  ", xs) == Join(",  ", xs);
    }
  }

  // ---------------------------------------------------------------------
  // build_json and build_reddit_json

  /** The placeholders `build_json` writes for missing metadata. */
  const NoTitle := "No title listed"
  const NoAuthor := "No author listed"
  const NoPublisher := "No publisher listed"
  const NoIsbn := "No ISBN listed"
  const NoDocType := "No document type"
  const NoHtid := "No HTID for this file"

  function OrElse(o: Option<string>, default: string): string {
    if o.Some? then o.value else default
  }

  /** The line breaks of a field become spaces. */
  function OneLine(s: string): (r: string)
    ensures '\n' !in r
  {
    ReplaceChar(s, '\n', ' ')
  }

  /** The metadata once `build_json` has filled in the missing fields: a
      placeholder for a missing title, author, publisher, document type or
      HTID and for an empty ISBN, and line breaks in the first four replaced
      by spaces. */
  function Filled(m: Metadata): (r: Metadata)
    ensures r.t.Some? && r.a.Some? && r.p.Some? && r.d.Some? && r.h.Some? && r.i != ""
    ensures '\n' !in r.t.value && '\n' !in r.a.value && '\n' !in r.p.value && '\n' !in r.d.value
    ensures r.y == m.y && r.url == m.url && r.ch == m.ch
    ensures m.h.Some? ==> r.h == m.h
    ensures m.i != "" ==> r.i == m.i
  {
    m.(t := Some(OneLine(OrElse(m.t, NoTitle))),
       a := Some(OneLine(OrElse(m.a, NoAuthor))),
       p := Some(OneLine(OrElse(m.p, NoPublisher))),
       i := if m.i == "" then NoIsbn else m.i,
       d := Some(OneLine(OrElse(m.d, NoDocType))),
       h := Some(OrElse(m.h, NoHtid)))
  }

  /** All the metadata `build_json` writes: the filled-in fields and the
      filtered chapter list. */
  function Defaulted(m: Metadata): Metadata {
    Filled(m).(ch := ChaptersFiltered(m.ch))
  }

  /** A title, author, publisher or document type that is present and has
      no line break is kept. */
  lemma FilledKeeps(m: Metadata)
    ensures m.t.Some? && '\n' !in m.t.value ==> Filled(m).t == m.t
    ensures m.a.Some? && '\n' !in m.a.value ==> Filled(m).a == m.a
    ensures m.p.Some? && '\n' !in m.p.value ==> Filled(m).p == m.p
    ensures m.d.Some? && '\n' !in m.d.value ==> Filled(m).d == m.d
  {
    if m.t.Some? && '\n' !in m.t.value { ReplaceCharAbsent(m.t.value, '\n', ' '); }
    if m.a.Some? && '\n' !in m.a.value { ReplaceCharAbsent(m.a.value, '\n', ' '); }
    if m.p.Some? && '\n' !in m.p.value { ReplaceCharAbsent(m.p.value, '\n', ' '); }
    if m.d.Some? && '\n' !in m.d.value { ReplaceCharAbsent(m.d.value, '\n', ' '); }
  }

  /** Building the JSON twice fills in nothing more: only the chapter list,
      filtered again, changes. */
  lemma DefaultedTwice(m: Metadata)
    ensures Defaulted(Defaulted(m)) == Defaulted(m).(ch := ChaptersFiltered(Defaulted(m).ch))
  {
    var f := Filled(m);
    FilledKeeps(Defaulted(m));
    assert Filled(Defaulted(m)) == f.(ch := ChaptersFiltered(m.ch));
  }

  function OrNull(o: Option<string>): Json {
    if o.Some? then JStr(o.value) else JNull
  }

  /** The record `build_json` serialises (with sorted keys). */
  function VolumeOf(m: Metadata, l: TextLists): Volume {
    map["Title" := OrNull(m.t), "Author" := OrNull(m.a), "Publisher" := OrNull(m.p),
        "Date" := JStr(m.y), "ISBN" := JStr(m.i), "Document Type" := OrNull(m.d),
        "List of chapters" := JStr(m.ch), "HTID" := OrNull(m.h),
        "Text" := JStrs(l.c), "Stemmed" := JStrs(l.cstem), "Filtered" := JStrs(l.tx),
        "Filtered Stemmed" := JStrs(l.txstem), "Full Sentences" := JStrs(l.cSent),
        "Filtered Sentences" := JStrs(l.txSent), "Stemmed Sentences" := JStrs(l.cstemSent),
        "Filtered Stemmed Sentences" := JStrs(l.txstemSent), "URL" := JStr(m.url)]
  }

  /** Reading a built record back gives the volume's token lists and its
      date: what the statistics read. */
  lemma VolumeReadBack(m: Metadata, l: TextLists)
    ensures Get(VolumeOf(m, l), "Date") == Ok(JStr(m.y))
    ensures Get(VolumeOf(m, l), "Text") == Ok(JStrs(l.c))
    ensures Get(VolumeOf(m, l), "Filtered") == Ok(JStrs(l.tx))
    ensures Get(VolumeOf(m, l), "Stemmed") == Ok(JStrs(l.cstem))
    ensures Get(VolumeOf(m, l), "Filtered Stemmed") == Ok(JStrs(l.txstem))
  {
  }

  /** `build_json(file)`: fills in and rewrites the metadata fields in
      place, then lays out the record. */
  method BuildJson(file: Parsed) returns (r: Volume)
    modifies file
    ensures file.Meta() == Defaulted(old(file.Meta()))
    ensures file.Lists() == old(file.Lists())
    ensures r == VolumeOf(file.Meta(), file.Lists())
  {
    FillIn(file);
    file.ch := FilterChapters(file.ch);
    r := VolumeOf(file.Meta(), file.Lists());
  }

  /** The first half of `build_json`: the placeholders and the line breaks. */
  method FillIn(file: Parsed)
    modifies file
    ensures file.Meta() == Filled(old(file.Meta()))
    ensures file.Lists() == old(file.Lists())
  {
    var m := Filled(file.Meta());
    file.t, file.a, file.p, file.i, file.d, file.h := m.t, m.a, m.p, m.i, m.d, m.h;
  }

  /** `build_reddit_json(file)`. It reads a `subreddit` attribute that the
      comment class never sets: `subreddit` is that attribute when a caller
      has attached one, and without it the read is an `AttributeError`. */
  function BuildRedditJson(file: RedditComment, subreddit: Option<string>): (r: Result<Volume>)
    reads file
    ensures r.Ok? <==> subreddit.Some?
    ensures r.Err? ==> r.error == AttributeError
    ensures r.Ok? ==> && Get(r.value, "Subreddit") == Ok(JStr(subreddit.value))
                      && Get(r.value, "Text") == Ok(JStrs(file.text))
                      && Get(r.value, "Filtered") == Ok(JStrs(file.filtered))
                      && Get(r.value, "Stemmed") == Ok(JStrs(file.stemmed))
                      && Get(r.value, "Filtered Stemmed") == Ok(JStrs(file.fStemmed))
                      && Get(r.value, "Score") == Ok(JInt(file.score))
  {
    if subreddit.None? then Err(AttributeError)
    else
      Ok(map["Author" := JStr(file.author), "Date" := JStr(file.date), "Sub ID" := JStr(file.subId),
             "Subreddit" := JStr(subreddit.value), "Score" := JInt(file.score),
             "Upvotes" := JInt(file.upvotes), "Controversy" := JInt(file.controversy),
             "Text" := JStrs(file.text), "Filtered" := JStrs(file.filtered),
             "Stemmed" := JStrs(file.stemmed), "Filtered Stemmed" := JStrs(file.fStemmed),
             "ID" := JStr(file.commentId)])
  }
}
