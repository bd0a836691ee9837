/** The JSON records every statistic reads. A corpus directory holds JSON
    files; each file maps volume keys to volume records, and a volume record
    maps field names ("Date", "Year Published", "Text", "Filtered", …) to
    values. Reading the directory and decoding the files is I/O: the model
    receives the directory as the list of its files, each with its decoded
    content, or `None` when decoding failed. */
module Records {
  import opened Wrappers
  import opened PyStr
  import opened PyList

  /** A JSON value, as far as the statistics look at it. */
  datatype Json =
    | JInt(i: int)               // an integer
    | JStr(s: string)            // a string
    | JStrs(items: seq<string>)  // a list of strings (a token list)
    | JNull                      // null, decoded as `None`
    | JBool(b: bool)             // true or false
    | JObj(keys: seq<string>)    // an object, by its keys in file order

  /** A volume record: field name to value. */
  type Volume = map<string, Json>

  /** One file of a corpus directory: its name and its decoded volumes in
      file order, or `None` when `json.load` raised a decode error. */
  datatype JsonFile = JsonFile(name: string, content: Option<seq<(string, Volume)>>)

  /** `rec[key]`. */
  function Get(rec: Volume, key: string): (r: Result<Json>)
    ensures r.Ok? <==> key in rec
    ensures r.Ok? ==> r.value == rec[key]
    ensures r.Err? ==> r.error == KeyError
  {
    if key in rec then Ok(rec[key]) else Err(KeyError)
  }

  /** Python's `int(x)` for a decoded JSON value: a boolean is a number
      (`int(True)` is 1), a string is parsed, and a list, `None` or a dict
      is refused. */
  function IntOf(j: Json): (r: Result<int>)
    ensures j.JInt? ==> r == Ok(j.i)
    ensures j.JBool? ==> r == Ok(if j.b then 1 else 0)
    ensures j.JStr? ==> (r.Ok? <==> ParseInt(j.s).Some?)
    ensures j.JStr? && r.Ok? ==> Some(r.value) == ParseInt(j.s)
    ensures j.JStr? && r.Err? ==> r.error == ValueError
    ensures (j.JStrs? || j.JNull? || j.JObj?) ==> r == Err(TypeError)
  {
    match j
    case JInt(i) => Ok(i)
    case JBool(b) => Ok(if b then 1 else 0)
    case JStr(s) => if ParseInt(s).Some? then Ok(ParseInt(s).value) else Err(ValueError)
    case _ => Err(TypeError)
  }

  /** `str(y)` read back with `int()` gives `y`: a year written as a
      string round-trips. */
  lemma IntOfStr(y: int)
    ensures IntOf(JStr(IntToStr(y))) == Ok(y)
  {
    ParseIntToStr(y);
  }

  /** Iterating a JSON value: a token list yields its tokens, a string its
      characters (each a one-character string), a dict its keys; a number,
      a boolean or `None` is not iterable. */
  function Tokens(j: Json): (r: Result<seq<string>>)
    ensures j.JStrs? ==> r == Ok(j.items)
    ensures j.JStr? ==>
              r.Ok? && |r.value| == |j.s| && forall i :: 0 <= i < |j.s| ==> r.value[i] == [j.s[i]]
    ensures j.JObj? ==> r == Ok(j.keys)
    ensures (j.JInt? || j.JBool? || j.JNull?) ==> r == Err(TypeError)
  {
    match j
    case JStrs(t) => Ok(t)
    case JStr(s) => Ok(seq(|s|, i requires 0 <= i < |s| => [s[i]]))
    case JObj(ks) => Ok(ks)
    case _ => Err(TypeError)
  }

  /** File names starting with '.' are skipped by every directory walk. */
  predicate Hidden(name: string) {
    |name| > 0 && name[0] == '.'
  }

  /** The volumes a walk over a directory reads, in order: those of every
      file that is not hidden and that decoded. */
  function Volumes(files: seq<JsonFile>): (r: seq<Volume>)
    ensures files == [] ==> r == []
  {
    if files == [] then [] else FileVolumes(files[0]) + Volumes(files[1..])
  }

  /** The volumes one file contributes: none when it is hidden or did not
      decode, otherwise its volumes in file order. */
  function FileVolumes(f: JsonFile): (r: seq<Volume>)
    ensures Hidden(f.name) || f.content.None? ==> r == []
    ensures !Hidden(f.name) && f.content.Some? ==>
              |r| == |f.content.value| && forall i :: 0 <= i < |r| ==> r[i] == f.content.value[i].1
  {
    if Hidden(f.name) || f.content.None? then []
    else seq(|f.content.value|, i requires 0 <= i < |f.content.value| => f.content.value[i].1)
  }

  /** Walking `files[i..]` reads `files[i]`'s volumes, then the rest. */
  lemma VolumesAt(files: seq<JsonFile>, i: nat)
    requires i < |files|
    ensures Volumes(files[i..]) == FileVolumes(files[i]) + Volumes(files[i + 1..])
  {
    assert files[i..][0] == files[i] && files[i..][1..] == files[i + 1..];
  }

  /** A hidden or undecodable file contributes no volume. */
  lemma {:induction false} VolumesSkip(files: seq<JsonFile>, f: JsonFile)
    requires Hidden(f.name) || f.content.None?
    ensures Volumes([f] + files) == Volumes(files)
  {
    assert ([f] + files)[1..] == files;
  }

  // ---------------------------------------------------------------------
  // Stop words

  /** A member of a stop-word collection: a string, or a tuple of strings. */
  datatype Key = Str(s: string) | Tup(t: seq<string>)

  /** The stop words an n-gram tuple can match: `tup in stop_words` compares
      the tuple with each member, and a tuple never equals a string. */
  function TupleStops(stop: set<Key>): (r: set<seq<string>>)
    ensures forall t :: t in r <==> Tup(t) in stop
  {
    set k | k in stop && k.Tup? :: k.t
  }

  /** The stop words a single token can match. */
  function StringStops(stop: set<Key>): (r: set<string>)
    ensures forall w :: w in r <==> Str(w) in stop
  {
    set k | k in stop && k.Str? :: k.s
  }

  /** A stop-word collection of plain strings never matches an n-gram, so
      deleting its members from an n-gram list deletes nothing. */
  lemma StringStopsKeepNgrams(text: seq<seq<string>>, stop: set<Key>)
    requires forall k :: k in stop ==> k.Str?
    ensures RemoveAll(text, TupleStops(stop)) == text
  {
    assert TupleStops(stop) == {};
    RemoveAllClean(text, TupleStops(stop));
  }

  /** The argument a statistic is given for its stop words. */
  datatype StopArg =
    | NoStops                  // None
    | StopFile(path: string)   // a str: the path of a JSON file of words
    | StopList(words: seq<Key>) // a list
    | StopCollection(c: set<Key>) // any other container, used as given

  /** `setup_stop_words(stop_words)`: `None` gives an empty container, a list
      its set, a path the set of words the file lists (its content, read by
      the caller, is `fileWords`), and any other value is kept. */
  function SetupStopWords(arg: StopArg, fileWords: seq<string>): (r: set<Key>)
    ensures arg.NoStops? ==> r == {}
    ensures arg.StopList? ==> forall k :: k in r <==> k in arg.words
    ensures arg.StopFile? ==> forall k :: k in r <==> k.Str? && k.s in fileWords
    ensures arg.StopCollection? ==> r == arg.c
  {
    match arg
    case NoStops => {}
    case StopFile(_) => set w | w in fileWords :: Str(w)
    case StopList(ws) => set k | k in ws
    case StopCollection(c) => c
  }
}
