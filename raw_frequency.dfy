/** src/nlp/raw_frequency.py: one record per volume of a corpus, holding
    for every keyword either whether it occurs (binary mode) or how often
    (count mode). */
module RawFrequency {
  import opened Wrappers
  import opened PyStr
  import opened PyList
  import opened PyDict
  import opened Records
  import opened CorpusUtils
  import C = CorpusFrequency

  /** `detect_n()`: the common length of the keyword tuples. The keywords
      always went through `build_keys`, so the `None` branch cannot be
      taken; an empty keyword list leaves the length set empty and fails
      the assertion. */
  function DetectN(keys: seq<Keyword>): (r: Result<nat>)
    ensures r.Ok? <==> |keys| > 0 && forall i :: 0 <= i < |keys| ==> |keys[i]| == |keys[0]|
    ensures r.Ok? ==> r.value == |keys[0]|
    ensures r.Err? ==> r.error == AssertionFailed
  {
    if |keys| > 0 && forall i :: 0 <= i < |keys| ==> |keys[i]| == |keys[0]| then Ok(|keys[0]|)
    else Err(AssertionFailed)
  }

  /** One entry of `freq_dict`: `Date`, `Frequencies` keyed by the
      space-joined keyword, and `Text Length` in count mode only. */
  datatype RawRecord = RawRecord(date: int, frequencies: Dict<string, nat>, textLength: Option<nat>)

  /** A keyword's value: 1 or 0 for its presence in binary mode, its
      `FreqDist` count otherwise. */
  function Value(grams: seq<Keyword>, k: Keyword, binary: bool): nat {
    if binary then (if k in grams then 1 else 0) else Count(grams, k)
  }

  /** The binary value is the count capped at 1. */
  lemma BinaryIsCappedCount(grams: seq<Keyword>, k: Keyword)
    ensures Value(grams, k, true) == if Value(grams, k, false) >= 1 then 1 else 0
  {
    CountPositive(grams, k);
  }

  /** `Frequencies` after the keyword loop, from the given keywords on. */
  function Freqs(keys: seq<Keyword>, grams: seq<Keyword>, binary: bool, acc: Dict<string, nat>): (r: Dict<string, nat>)
    requires acc.Valid()
    ensures r.Valid()
    decreases |keys|
  {
    if keys == [] then acc
    else Freqs(keys[1..], grams, binary, Put(acc, Join(" ", keys[0]), Value(grams, keys[0], binary)))
  }

  /** The loop writes one entry per keyword and no other. */
  lemma {:induction false} FreqsKeys(keys: seq<Keyword>, grams: seq<Keyword>, binary: bool, acc: Dict<string, nat>)
    requires acc.Valid()
    ensures Freqs(keys, grams, binary, acc).m.Keys == acc.m.Keys + C.Joined(keys)
    decreases |keys|
  {
    if keys != [] {
      var acc' := Put(acc, Join(" ", keys[0]), Value(grams, keys[0], binary));
      FreqsKeys(keys[1..], grams, binary, acc');
      C.JoinedCons(keys);
    }
  }

  /** An entry no keyword is written to keeps its value. */
  lemma {:induction false} FreqsKeeps(keys: seq<Keyword>, grams: seq<Keyword>, binary: bool, acc: Dict<string, nat>, s: string)
    requires acc.Valid() && s in acc.m && s !in C.Joined(keys)
    ensures s in Freqs(keys, grams, binary, acc).m && Freqs(keys, grams, binary, acc).m[s] == acc.m[s]
    decreases |keys|
  {
    if keys != [] {
      var acc' := Put(acc, Join(" ", keys[0]), Value(grams, keys[0], binary));
      C.JoinedCons(keys);
      FreqsKeeps(keys[1..], grams, binary, acc', s);
    }
  }

  /** The last write to a keyword's entry is its value, and no other
      keyword of words writes to the same entry. */
  lemma {:induction false} FreqsValue(keys: seq<Keyword>, grams: seq<Keyword>, binary: bool, acc: Dict<string, nat>, k: Keyword)
    requires acc.Valid() && k in keys
    requires forall k' :: k' in keys ==> C.WordNgram(k')
    ensures Join(" ", k) in Freqs(keys, grams, binary, acc).m
    ensures Freqs(keys, grams, binary, acc).m[Join(" ", k)] == Value(grams, k, binary)
    decreases |keys|
  {
    var k0 := keys[0];
    var acc' := Put(acc, Join(" ", k0), Value(grams, k0, binary));
    if k in keys[1..] {
      assert forall k' :: k' in keys[1..] ==> k' in keys;
      FreqsValue(keys[1..], grams, binary, acc', k);
    } else {
      assert k == k0;
      forall k' | k' in keys[1..] ensures Join(" ", k') != Join(" ", k0) {
        if Join(" ", k') == Join(" ", k0) {
          assert k' in keys;
          C.JoinInjective(k', k0);
        }
      }
      FreqsKeeps(keys[1..], grams, binary, acc', Join(" ", k0));
    }
  }

  /** For keywords made of words, the loop writes exactly one entry per
      distinct keyword, holding that keyword's value, and keeps the rest. */
  lemma FreqsEntries(keys: seq<Keyword>, grams: seq<Keyword>, binary: bool, acc: Dict<string, nat>)
    requires acc.Valid()
    requires forall k :: k in keys ==> C.WordNgram(k)
    ensures Freqs(keys, grams, binary, acc).m.Keys == acc.m.Keys + set k | k in keys :: Join(" ", k)
    ensures forall k :: k in keys ==> Freqs(keys, grams, binary, acc).m[Join(" ", k)] == Value(grams, k, binary)
    ensures forall s :: s in acc.m && (forall k :: k in keys ==> Join(" ", k) != s) ==>
              Freqs(keys, grams, binary, acc).m[s] == acc.m[s]
  {
    FreqsKeys(keys, grams, binary, acc);
    forall k | k in keys
      ensures Join(" ", k) in Freqs(keys, grams, binary, acc).m
      ensures Freqs(keys, grams, binary, acc).m[Join(" ", k)] == Value(grams, k, binary)
    {
      FreqsValue(keys, grams, binary, acc, k);
    }
    forall s | s in acc.m && (forall k :: k in keys ==> Join(" ", k) != s)
      ensures Freqs(keys, grams, binary, acc).m[s] == acc.m[s]
    {
      FreqsKeeps(keys, grams, binary, acc, s);
    }
  }

  /** Every value written is at most `bound` when every keyword's is. */
  lemma {:induction false} FreqsBounded(keys: seq<Keyword>, grams: seq<Keyword>, binary: bool, acc: Dict<string, nat>, bound: nat)
    requires acc.Valid()
    requires forall s :: s in acc.m ==> acc.m[s] <= bound
    requires forall k :: k in keys ==> Value(grams, k, binary) <= bound
    ensures forall s :: s in Freqs(keys, grams, binary, acc).m ==> Freqs(keys, grams, binary, acc).m[s] <= bound
    decreases |keys|
  {
    if keys != [] {
      assert keys[0] in keys;
      assert forall k :: k in keys[1..] ==> k in keys;
      FreqsBounded(keys[1..], grams, binary, Put(acc, Join(" ", keys[0]), Value(grams, keys[0], binary)), bound);
    }
  }

  /** `_update_freq_dict`'s record for one volume: the date first, then
      the text field. */
  function VolumeRecord(vol: Volume, textType: string, keys: seq<Keyword>, n: nat, binary: bool): (r: Result<RawRecord>)
    ensures r.Ok? ==> "Date" in vol && IntOf(vol["Date"]) == Ok(r.value.date)
    ensures "Date" !in vol ==> r == Err(KeyError)
    ensures r.Ok? ==> (r.value.textLength.None? <==> binary)
  {
    var dj :- Get(vol, "Date");
    var date :- IntOf(dj);
    var field :- Get(vol, textType);
    var toks :- Tokens(field);
    var grams := Ngrams(toks, n);
    Ok(RawRecord(date, Freqs(keys, grams, binary, Empty()), if binary then None else Some(|grams|)))
  }

  /** A record lists every keyword once with its value; in count mode no
      count exceeds `Text Length`, and in binary mode every value is 0 or 1. */
  lemma VolumeRecordEntries(vol: Volume, textType: string, keys: seq<Keyword>, n: nat, binary: bool)
    requires forall k :: k in keys ==> C.WordNgram(k)
    requires VolumeRecord(vol, textType, keys, n, binary).Ok?
    ensures var rec := VolumeRecord(vol, textType, keys, n, binary).value;
      && rec.frequencies.m.Keys == (set k | k in keys :: Join(" ", k))
      && (forall k :: k in keys ==>
            rec.frequencies.m[Join(" ", k)] == Value(Ngrams(Tokens(vol[textType]).value, n), k, binary))
      && (!binary ==> forall s :: s in rec.frequencies.m ==> rec.frequencies.m[s] <= rec.textLength.value)
      && (binary ==> forall s :: s in rec.frequencies.m ==> rec.frequencies.m[s] <= 1)
  {
    var grams := Ngrams(Tokens(vol[textType]).value, n);
    FreqsEntries(keys, grams, binary, Empty());
    FreqsBounded(keys, grams, binary, Empty(), if binary then 1 else |grams|);
  }

  /** `"{file}_{volume key}"`. */
  function CurKey(file: string, k: string): string {
    file + "_" + k
  }

  /** The volumes of one file, in order, each stored under its key. */
  function FileFold(d: Dict<string, RawRecord>, file: string, vols: seq<(string, Volume)>,
                    textType: string, keys: seq<Keyword>, n: nat, binary: bool): (r: Result<Dict<string, RawRecord>>)
    requires d.Valid()
    ensures r.Ok? ==> r.value.Valid()
    decreases |vols|
  {
    if vols == [] then Ok(d)
    else
      var rec :- VolumeRecord(vols[0].1, textType, keys, n, binary);
      FileFold(Put(d, CurKey(file, vols[0].0), rec), file, vols[1..], textType, keys, n, binary)
  }

  /** The keys the volumes of one file are stored under, in order. */
  function CurKeys(file: string, vols: seq<(string, Volume)>): (r: seq<string>)
    ensures |r| == |vols| && forall i :: 0 <= i < |vols| ==> r[i] == CurKey(file, vols[i].0)
  {
    seq(|vols|, i requires 0 <= i < |vols| => CurKey(file, vols[i].0))
  }

  /** Every volume of the file gets an entry, and no other entry appears. */
  lemma {:induction false} FileFoldKeys(d: Dict<string, RawRecord>, file: string, vols: seq<(string, Volume)>,
                                        textType: string, keys: seq<Keyword>, n: nat, binary: bool)
    requires d.Valid()
    requires FileFold(d, file, vols, textType, keys, n, binary).Ok?
    ensures forall s :: s in FileFold(d, file, vols, textType, keys, n, binary).value.m <==>
                        s in d.m || s in CurKeys(file, vols)
    decreases |vols|
  {
    if vols != [] {
      var rec := VolumeRecord(vols[0].1, textType, keys, n, binary).value;
      var d' := Put(d, CurKey(file, vols[0].0), rec);
      assert FileFold(d, file, vols, textType, keys, n, binary) == FileFold(d', file, vols[1..], textType, keys, n, binary);
      FileFoldKeys(d', file, vols[1..], textType, keys, n, binary);
      CurKeysCons(file, vols);
    }
  }

  lemma CurKeysCons(file: string, vols: seq<(string, Volume)>)
    requires vols != []
    ensures forall s :: s in CurKeys(file, vols) <==> s == CurKey(file, vols[0].0) || s in CurKeys(file, vols[1..])
  {
    assert CurKeys(file, vols) == [CurKey(file, vols[0].0)] + CurKeys(file, vols[1..]);
  }

  /** An entry no volume of the file is stored under keeps its record. */
  lemma {:induction false} FileFoldOthers(d: Dict<string, RawRecord>, file: string, vols: seq<(string, Volume)>,
                                          textType: string, keys: seq<Keyword>, n: nat, binary: bool, s: string)
    requires d.Valid() && s in d.m && s !in CurKeys(file, vols)
    requires FileFold(d, file, vols, textType, keys, n, binary).Ok?
    ensures s in FileFold(d, file, vols, textType, keys, n, binary).value.m
    ensures FileFold(d, file, vols, textType, keys, n, binary).value.m[s] == d.m[s]
    decreases |vols|
  {
    if vols != [] {
      var rec := VolumeRecord(vols[0].1, textType, keys, n, binary).value;
      var d' := Put(d, CurKey(file, vols[0].0), rec);
      assert FileFold(d, file, vols, textType, keys, n, binary) == FileFold(d', file, vols[1..], textType, keys, n, binary);
      CurKeysCons(file, vols);
      FileFoldOthers(d', file, vols[1..], textType, keys, n, binary, s);
    }
  }

  /** A volume whose key does not come again keeps its own record: of
      volumes sharing a key, the last one wins. */
  lemma {:induction false} FileFoldLast(d: Dict<string, RawRecord>, file: string, vols: seq<(string, Volume)>,
                                        textType: string, keys: seq<Keyword>, n: nat, binary: bool, i: nat)
    requires d.Valid() && i < |vols|
    requires forall j :: i < j < |vols| ==> vols[j].0 != vols[i].0
    requires FileFold(d, file, vols, textType, keys, n, binary).Ok?
    ensures CurKey(file, vols[i].0) in FileFold(d, file, vols, textType, keys, n, binary).value.m
    ensures VolumeRecord(vols[i].1, textType, keys, n, binary) ==
            Ok(FileFold(d, file, vols, textType, keys, n, binary).value.m[CurKey(file, vols[i].0)])
    decreases |vols|
  {
    var rec := VolumeRecord(vols[0].1, textType, keys, n, binary).value;
    var d' := Put(d, CurKey(file, vols[0].0), rec);
    var rest := vols[1..];
    assert FileFold(d, file, vols, textType, keys, n, binary) == FileFold(d', file, rest, textType, keys, n, binary);
    if i > 0 {
      forall j | i - 1 < j < |rest| ensures rest[j].0 != rest[i - 1].0 {
        assert rest[j] == vols[j + 1];
      }
      FileFoldLast(d', file, rest, textType, keys, n, binary, i - 1);
    } else {
      forall j | 0 <= j < |rest| ensures CurKeys(file, rest)[j] != CurKey(file, vols[0].0) {
        assert rest[j] == vols[j + 1];
        CurKeyInjective(file, rest[j].0, vols[0].0);
      }
      FileFoldOthers(d', file, rest, textType, keys, n, binary, CurKey(file, vols[0].0));
    }
  }

  /** Different volume keys of one file give different entry names. */
  lemma CurKeyInjective(file: string, a: string, b: string)
    ensures CurKey(file, a) == CurKey(file, b) ==> a == b
  {
    assert CurKey(file, a)[|file| + 1..] == a;
    assert CurKey(file, b)[|file| + 1..] == b;
  }

  /** `take_frequencies()` from the given files on: hidden files are
      skipped, every other file first asks `detect_n()`, a file whose JSON
      does not decode is skipped after that, and the first error stops the
      walk. */
  function TakeFrom(d: Dict<string, RawRecord>, files: seq<JsonFile>, textType: string,
                    keys: seq<Keyword>, binary: bool): (r: Result<Dict<string, RawRecord>>)
    requires d.Valid()
    ensures r.Ok? ==> r.value.Valid()
    decreases |files|
  {
    if files == [] then Ok(d)
    else if Hidden(files[0].name) then TakeFrom(d, files[1..], textType, keys, binary)
    else
      var n :- DetectN(keys);
      if files[0].content.None? then TakeFrom(d, files[1..], textType, keys, binary)
      else
        var d' :- FileFold(d, files[0].name, files[0].content.value, textType, keys, n, binary);
        TakeFrom(d', files[1..], textType, keys, binary)
  }

  /** With mixed keyword lengths the walk fails as soon as there is a file
      to read, and succeeds without a change when every file is hidden. */
  lemma {:induction false} TakeFromArity(d: Dict<string, RawRecord>, files: seq<JsonFile>, textType: string,
                                         keys: seq<Keyword>, binary: bool)
    requires d.Valid()
    ensures (forall i :: 0 <= i < |files| ==> Hidden(files[i].name)) ==>
              TakeFrom(d, files, textType, keys, binary) == Ok(d)
    ensures (exists i :: 0 <= i < |files| && !Hidden(files[i].name)) && DetectN(keys).Err? ==>
              TakeFrom(d, files, textType, keys, binary) == Err(AssertionFailed)
    decreases |files|
  {
    if files != [] {
      TakeFromArity(d, files[1..], textType, keys, binary);
      assert forall i :: 0 <= i < |files[1..]| ==> files[1..][i] == files[i + 1];
      if Hidden(files[0].name) && exists i :: 0 <= i < |files| && !Hidden(files[i].name) {
        var i :| 0 <= i < |files| && !Hidden(files[i].name);
        assert !Hidden(files[1..][i - 1].name);
      }
    }
  }

  /** Records are only ever added or replaced, never removed. */
  lemma {:induction false} TakeFromKeeps(d: Dict<string, RawRecord>, files: seq<JsonFile>, textType: string,
                                         keys: seq<Keyword>, binary: bool)
    requires d.Valid()
    requires TakeFrom(d, files, textType, keys, binary).Ok?
    ensures d.m.Keys <= TakeFrom(d, files, textType, keys, binary).value.m.Keys
    decreases |files|
  {
    if files != [] && !Hidden(files[0].name) && files[0].content.Some? {
      var n := DetectN(keys).value;
      FileFoldKeys(d, files[0].name, files[0].content.value, textType, keys, n, binary);
      var d' := FileFold(d, files[0].name, files[0].content.value, textType, keys, n, binary).value;
      TakeFromKeeps(d', files[1..], textType, keys, binary);
    } else if files != [] {
      TakeFromKeeps(d, files[1..], textType, keys, binary);
    }
  }

  /** `RawFrequency(name, in_dir, text_type, keys, binary)`. */
  class RawFrequency {
    const name: string
    const files: seq<JsonFile>
    const textType: string
    const keys: seq<Keyword>
    const binary: bool
    var freqDict: Dict<string, RawRecord>

    ghost predicate Valid()
      reads this
    {
      freqDict.Valid()
    }

    constructor(name: string, files: seq<JsonFile>, textType: string, rawKeys: seq<string>, binary: bool)
      ensures this.name == name && this.files == files && this.textType == textType && this.binary == binary
      ensures keys == BuildKeys(rawKeys)
      ensures freqDict == Empty() && Valid()
    {
      this.name := name;
      this.files := files;
      this.textType := textType;
      this.keys := BuildKeys(rawKeys);
      this.binary := binary;
      freqDict := Empty();
    }

    /** `_update_freq_dict(cur_key, json_data, n)`. */
    method UpdateFreqDict(curKey: string, vol: Volume, n: nat) returns (r: Result<()>)
      requires Valid()
      modifies this
      ensures Valid()
      ensures r.Ok? ==> VolumeRecord(vol, textType, keys, n, binary).Ok? &&
                        freqDict == Put(old(freqDict), curKey, VolumeRecord(vol, textType, keys, n, binary).value)
      ensures r.Err? ==> VolumeRecord(vol, textType, keys, n, binary) == Err(r.error) && freqDict == old(freqDict)
    {
      var dj := Get(vol, "Date");
      if dj.Err? {
        return Err(dj.error);
      }
      var date := IntOf(dj.value);
      if date.Err? {
        return Err(date.error);
      }
      var field := Get(vol, textType);
      if field.Err? {
        return Err(field.error);
      }
      var toks := Tokens(field.value);
      if toks.Err? {
        return Err(toks.error);
      }
      var grams := Ngrams(toks.value, n);
      var freqs := Empty();
      var j := 0;
      while j < |keys|
        invariant 0 <= j <= |keys| && freqs.Valid()
        invariant Freqs(keys[j..], grams, binary, freqs) == Freqs(keys, grams, binary, Empty())
      {
        assert keys[j..][0] == keys[j] && keys[j..][1..] == keys[j + 1..];
        var v;
        if binary {
          v := if keys[j] in grams then 1 else 0;
        } else {
          v := Count(grams, keys[j]);
        }
        freqs := Put(freqs, Join(" ", keys[j]), v);
        j := j + 1;
      }
      freqDict := Put(freqDict, curKey, RawRecord(date.value, freqs, if binary then None else Some(|grams|)));
      r := Ok(());
    }

    /** `_take_frequencies(jsondoc)` once the file has decoded. */
    method TakeFile(file: string, vols: seq<(string, Volume)>, n: nat) returns (r: Result<()>)
      requires Valid()
      modifies this
      ensures Valid()
      ensures r.Ok? ==> FileFold(old(freqDict), file, vols, textType, keys, n, binary) == Ok(freqDict)
      ensures r.Err? ==> FileFold(old(freqDict), file, vols, textType, keys, n, binary) == Err(r.error)
    {
      var i := 0;
      while i < |vols|
        invariant 0 <= i <= |vols| && Valid()
        invariant FileFold(freqDict, file, vols[i..], textType, keys, n, binary) ==
                  FileFold(old(freqDict), file, vols, textType, keys, n, binary)
      {
        assert vols[i..][0] == vols[i] && vols[i..][1..] == vols[i + 1..];
        var u := UpdateFreqDict(CurKey(file, vols[i].0), vols[i].1, n);
        if u.Err? {
          return Err(u.error);
        }
        i := i + 1;
      }
      r := Ok(());
    }

    /** `take_frequencies()`. */
    method TakeFrequencies() returns (r: Result<()>)
      requires Valid()
      modifies this
      ensures Valid()
      ensures r.Ok? ==> TakeFrom(old(freqDict), files, textType, keys, binary) == Ok(freqDict)
      ensures r.Err? ==> TakeFrom(old(freqDict), files, textType, keys, binary) == Err(r.error)
    {
      var i := 0;
      while i < |files|
        invariant 0 <= i <= |files| && Valid()
        invariant TakeFrom(freqDict, files[i..], textType, keys, binary) ==
                  TakeFrom(old(freqDict), files, textType, keys, binary)
      {
        assert files[i..][0] == files[i] && files[i..][1..] == files[i + 1..];
        var f := files[i];
        if !Hidden(f.name) {
          var n := DetectN(keys);
          if n.Err? {
            return Err(n.error);
          }
          if f.content.Some? {
            var u := TakeFile(f.name, f.content.value, n.value);
            if u.Err? {
              return Err(u.error);
            }
          }
        }
        i := i + 1;
      }
      r := Ok(());
    }
  }
}
