/** corpus/nlp/frequency.py: n-gram frequencies per period.

    Every volume whose year falls inside `[year_list[0], year_list[-1])`
    contributes its n-grams, minus stop words, to the period the year falls
    into. A period keeps `NUM_DOCS`, `TOTAL_WORDS` and `FDIST`, which maps
    each n-gram to the LIST of its per-volume counts. From the cleaned
    record the class derives global frequency (count / `TOTAL_WORDS`),
    average frequency (count / `NUM_DOCS`), variance and top-N lists. */
module CorpusFrequency {
  import opened Wrappers
  import opened PyStr
  import opened PyList
  import opened PyDict
  import opened Records
  import opened CorpusUtils

  type Ngram = seq<string>

  // ---------------------------------------------------------------------
  // Keyword arity

  /** `detect_n(keys)`: 1 without keys, otherwise the one token count all
      keys share; an empty or mixed list fails the assertion. */
  function DetectN(keys: Option<seq<string>>): (r: Result<nat>)
    ensures keys.None? ==> r == Ok(1)
    ensures keys.Some? ==>
              (r.Ok? <==> |keys.value| > 0 &&
                          forall i :: 0 <= i < |keys.value| ==> |Words(keys.value[i])| == |Words(keys.value[0])|)
    ensures keys.Some? && r.Ok? ==> forall i :: 0 <= i < |keys.value| ==> |Words(keys.value[i])| == r.value
    ensures r.Err? ==> r.error == AssertionFailed
  {
    match keys
    case None => Ok(1)
    case Some(ks) =>
      if |ks| > 0 && forall i :: 0 <= i < |ks| ==> |Words(ks[i])| == |Words(ks[0])| then Ok(|Words(ks[0])|)
      else Err(AssertionFailed)
  }

  // ---------------------------------------------------------------------
  // One volume

  /** A period while the corpus is read: `0` until its first volume, then
      a record whose `FDIST` may be missing (see `LastOnly`). */
  datatype Slot = Unfilled | Filled(fdist: Option<Dict<Ngram, seq<nat>>>, numDocs: nat, totalWords: nat)

  /** The count lists an n-gram had before this volume. */
  function Prev(fd: Dict<Ngram, seq<nat>>, kw: Ngram): seq<nat> {
    if kw in fd.m then fd.m[kw] else []
  }

  /** `FDIST` after the first volume of a period: the loop recreates `FDIST`
      before every n-gram, so only the last distinct n-gram survives, and
      `FDIST` is never created when the volume has no n-gram left. */
  function LastOnly(kws: seq<Ngram>, text: seq<Ngram>): (r: Option<Dict<Ngram, seq<nat>>>)
    ensures kws == [] <==> r.None?
    ensures r.Some? ==> r.value.Valid() && |r.value.keys| == 1 && r.value.keys[0] == kws[|kws| - 1]
    ensures r.Some? ==> r.value.m[kws[|kws| - 1]] == [Count(text, kws[|kws| - 1])]
  {
    if kws == [] then None
    else
      var kw := kws[|kws| - 1];
      Some(Dict([kw], map[kw := [Count(text, kw)]]))
  }

  /** `FDIST` after a later volume: each distinct n-gram's count is appended
      to its list, or starts a new list. */
  function AppendCounts(fd: Dict<Ngram, seq<nat>>, kws: seq<Ngram>, text: seq<Ngram>): (r: Dict<Ngram, seq<nat>>)
    requires fd.Valid()
    ensures r.Valid()
    decreases |kws|
  {
    if kws == [] then fd
    else AppendCounts(Put(fd, kws[0], Prev(fd, kws[0]) + [Count(text, kws[0])]), kws[1..], text)
  }

  /** Every distinct n-gram of the volume gets exactly one new entry, its
      count in the volume; every other n-gram keeps its list. */
  lemma AppendCountsEntries(fd: Dict<Ngram, seq<nat>>, kws: seq<Ngram>, text: seq<Ngram>)
    requires fd.Valid()
    requires forall i, j :: 0 <= i < j < |kws| ==> kws[i] != kws[j]
    ensures forall k :: k in AppendCounts(fd, kws, text).m <==> k in fd.m || k in kws
    ensures forall k :: k in kws ==> AppendCounts(fd, kws, text).m[k] == Prev(fd, k) + [Count(text, k)]
    ensures forall k :: k in fd.m && k !in kws ==> AppendCounts(fd, kws, text).m[k] == fd.m[k]
  {
    forall k ensures k in AppendCounts(fd, kws, text).m <==> k in fd.m || k in kws {
      AppendCountsHas(fd, kws, text, k);
    }
    forall k | k in kws ensures AppendCounts(fd, kws, text).m[k] == Prev(fd, k) + [Count(text, k)] {
      AppendCountsValue(fd, kws, text, k);
    }
    forall k | k in fd.m && k !in kws ensures AppendCounts(fd, kws, text).m[k] == fd.m[k] {
      AppendCountsKeeps(fd, kws, text, k);
    }
  }

  lemma {:induction false} AppendCountsHas(fd: Dict<Ngram, seq<nat>>, kws: seq<Ngram>, text: seq<Ngram>, k: Ngram)
    requires fd.Valid()
    ensures k in AppendCounts(fd, kws, text).m <==> k in fd.m || k in kws
    decreases |kws|
  {
    if kws != [] {
      var fd' := Put(fd, kws[0], Prev(fd, kws[0]) + [Count(text, kws[0])]);
      assert AppendCounts(fd, kws, text) == AppendCounts(fd', kws[1..], text);
      AppendCountsHas(fd', kws[1..], text, k);
      assert kws == [kws[0]] + kws[1..];
    }
  }

  lemma {:induction false} AppendCountsKeeps(fd: Dict<Ngram, seq<nat>>, kws: seq<Ngram>, text: seq<Ngram>, k: Ngram)
    requires fd.Valid() && k in fd.m && k !in kws
    ensures k in AppendCounts(fd, kws, text).m && AppendCounts(fd, kws, text).m[k] == fd.m[k]
    decreases |kws|
  {
    if kws != [] {
      var fd' := Put(fd, kws[0], Prev(fd, kws[0]) + [Count(text, kws[0])]);
      assert k !in kws[1..];
      AppendCountsKeeps(fd', kws[1..], text, k);
    }
  }

  lemma {:induction false} AppendCountsValue(fd: Dict<Ngram, seq<nat>>, kws: seq<Ngram>, text: seq<Ngram>, k: Ngram)
    requires fd.Valid() && k in kws
    requires forall i, j :: 0 <= i < j < |kws| ==> kws[i] != kws[j]
    ensures k in AppendCounts(fd, kws, text).m
    ensures AppendCounts(fd, kws, text).m[k] == Prev(fd, k) + [Count(text, k)]
    decreases |kws|
  {
    var fd' := Put(fd, kws[0], Prev(fd, kws[0]) + [Count(text, kws[0])]);
    var rest := kws[1..];
    if k == kws[0] {
      forall j | 0 <= j < |rest| ensures rest[j] != k {
        assert rest[j] == kws[j + 1];
      }
      AppendCountsKeeps(fd', rest, text, k);
    } else {
      assert k in rest;
      assert Prev(fd', k) == Prev(fd, k);
      AppendCountsValue(fd', rest, text, k);
    }
  }

  /** The year of a volume: `int(json_data[date_key])`. */
  function ReadYear(vol: Volume, dateKey: string): Result<int> {
    var j :- Get(vol, dateKey);
    IntOf(j)
  }

  /** `year_list[0] <= year < year_list[-1]`; an empty list has no `[0]`. */
  function InRange(yl: seq<int>, year: int): (r: Result<bool>)
    ensures r.Err? <==> yl == []
    ensures r.Ok? ==> r.value == (yl[0] <= year < yl[|yl| - 1])
  {
    if yl == [] then Err(IndexError) else Ok(yl[0] <= year < yl[|yl| - 1])
  }

  /** The n-grams of a volume's text field, stop-word tuples deleted. */
  function VolumeText(vol: Volume, textType: string, n: nat, stop: set<Key>): Result<seq<Ngram>> {
    var j :- Get(vol, textType);
    var toks :- Tokens(j);
    Ok(RemoveAll(Ngrams(toks, n), TupleStops(stop)))
  }

  /** Every period that has documents has at least one, and a well-formed
      `FDIST` when it has one. */
  ghost predicate SlotsOk(periods: map<int, Slot>) {
    forall y :: y in periods && periods[y].Filled? ==>
      periods[y].numDocs >= 1 && (periods[y].fdist.Some? ==> periods[y].fdist.value.Valid())
  }

  /** The period table after adding a volume's n-grams `text`, dated `year`. */
  function AddText(periods: map<int, Slot>, yl: seq<int>, year: int, text: seq<Ngram>): Result<map<int, Slot>>
    requires SlotsOk(periods)
  {
    var target :- DetermineYear(year, yl);
    if target !in periods then Err(KeyError)
    else
      var slot :- SlotAfter(periods[target], Distinct(text), text);
      Ok(periods[target := slot])
  }

  /** One period's slot after a volume whose distinct n-grams are `kws`: a
      period without documents starts its table afresh, one with documents
      appends to it; only a period whose `FDIST` was never filled in and
      a volume with n-grams raise `KeyError`. */
  function SlotAfter(slot: Slot, kws: seq<Ngram>, text: seq<Ngram>): (r: Result<Slot>)
    requires slot.Filled? && slot.fdist.Some? ==> slot.fdist.value.Valid()
    ensures r.Err? <==> slot.Filled? && slot.fdist.None? && kws != []
    ensures r.Ok? ==> r.value.Filled? && r.value.numDocs == (if slot.Filled? then slot.numDocs else 0) + 1
    ensures r.Ok? && r.value.fdist.Some? ==> r.value.fdist.value.Valid()
  {
    match slot
    case Unfilled =>
      Ok(Filled(LastOnly(kws, text), 1, |text|))
    case Filled(fd, nd, tw) =>
      if fd.None? && kws != [] then Err(KeyError)
      else if fd.None? then Ok(Filled(None, nd + 1, tw + |text|))
      else Ok(Filled(Some(AppendCounts(fd.value, kws, text)), nd + 1, tw + |text|))
  }

  /** `_update_frequency_lists(frequency_lists, json_data, n)` on the period
      table. */
  function UpdateSpec(periods: map<int, Slot>, yl: seq<int>, dateKey: string, textType: string,
                      stop: set<Key>, n: nat, vol: Volume): Result<map<int, Slot>>
    requires SlotsOk(periods)
  {
    var year :- ReadYear(vol, dateKey);
    var inside :- InRange(yl, year);
    if !inside then Ok(periods)
    else
      var text :- VolumeText(vol, textType, n, stop);
      AddText(periods, yl, year, text)
  }

  /** A volume dated outside `[year_list[0], year_list[-1])` leaves the table
      as it was, whatever its text. */
  lemma UpdateOutOfRange(periods: map<int, Slot>, yl: seq<int>, dateKey: string, textType: string,
                         stop: set<Key>, n: nat, vol: Volume, year: int)
    requires SlotsOk(periods) && ReadYear(vol, dateKey) == Ok(year) && yl != []
    requires year < yl[0] || year >= yl[|yl| - 1]
    ensures UpdateSpec(periods, yl, dateKey, textType, stop, n, vol) == Ok(periods)
  {
  }

  /** Adding a volume touches only its period: `NUM_DOCS` goes up by one,
      `TOTAL_WORDS` by the number of n-grams left after stop-word deletion,
      and a period that already had documents appends each distinct n-gram's
      count to that n-gram's list. */
  lemma {:induction false} AddTextEffect(periods: map<int, Slot>, yl: seq<int>, year: int, text: seq<Ngram>, target: int)
    requires SlotsOk(periods) && DetermineYear(year, yl) == Ok(target)
    requires AddText(periods, yl, year, text).Ok?
    ensures target in periods
    ensures var p := AddText(periods, yl, year, text).value;
      && p.Keys == periods.Keys
      && (forall y :: y in periods && y != target ==> p[y] == periods[y])
      && p[target].Filled?
      && p[target].numDocs == (if periods[target].Filled? then periods[target].numDocs else 0) + 1
      && p[target].totalWords == (if periods[target].Filled? then periods[target].totalWords else 0) + |text|
      && (periods[target].Unfilled? ==> p[target].fdist == LastOnly(Distinct(text), text))
      && (periods[target].Filled? && periods[target].fdist.Some? ==>
            p[target].fdist.Some? &&
            (forall k :: k in p[target].fdist.value.m <==> k in periods[target].fdist.value.m || k in text) &&
            (forall k :: k in text ==>
               p[target].fdist.value.m[k] == Prev(periods[target].fdist.value, k) + [Count(text, k)]) &&
            (forall k :: k in periods[target].fdist.value.m && k !in text ==>
               p[target].fdist.value.m[k] == periods[target].fdist.value.m[k]))
  {
    var kws := Distinct(text);
    if periods[target].Filled? && periods[target].fdist.Some? {
      AppendCountsEntries(periods[target].fdist.value, kws, text);
    }
  }

  /** In a period's first volume, only the last distinct n-gram is kept:
      with two or more distinct n-grams, every other one is lost. */
  lemma FirstVolumeLosesNgrams(periods: map<int, Slot>, yl: seq<int>, year: int, text: seq<Ngram>,
                               target: int, lost: Ngram)
    requires SlotsOk(periods) && DetermineYear(year, yl) == Ok(target) && target in periods && periods[target].Unfilled?
    requires lost in text && lost != Distinct(text)[|Distinct(text)| - 1]
    ensures AddText(periods, yl, year, text).Ok?
    ensures lost !in AddText(periods, yl, year, text).value[target].fdist.value.m
  {
    assert lost in Distinct(text);
  }

  /** The table of periods that `frequency_lists` holds between volumes. */
  class FrequencyLists {
    var periods: map<int, Slot>
    /** The `"__N__"` entry: the n the table was built for. */
    var n: nat

    /** `num_dict(self.year_list)` with `"__N__"` set to `n`. */
    constructor(yl: seq<int>, n: nat)
      ensures periods == map y | y in yl :: Unfilled
      ensures this.n == n
    {
      periods := map y | y in yl :: Unfilled;
      this.n := n;
    }
  }

  /** The table after reading `vols` in order; the first error stops it. */
  function Fold(periods: map<int, Slot>, yl: seq<int>, dateKey: string, textType: string,
                stop: set<Key>, n: nat, vols: seq<Volume>): Result<map<int, Slot>>
    requires SlotsOk(periods)
    decreases |vols|
  {
    if vols == [] then Ok(periods)
    else
      var p :- UpdateSpec(periods, yl, dateKey, textType, stop, n, vols[0]);
      UpdateKeepsSlotsOk(periods, yl, dateKey, textType, stop, n, vols[0]);
      Fold(p, yl, dateKey, textType, stop, n, vols[1..])
  }

  lemma UpdateKeepsSlotsOk(periods: map<int, Slot>, yl: seq<int>, dateKey: string, textType: string,
                           stop: set<Key>, n: nat, vol: Volume)
    requires SlotsOk(periods)
    requires UpdateSpec(periods, yl, dateKey, textType, stop, n, vol).Ok?
    ensures SlotsOk(UpdateSpec(periods, yl, dateKey, textType, stop, n, vol).value)
    ensures UpdateSpec(periods, yl, dateKey, textType, stop, n, vol).value.Keys == periods.Keys
  {
    var year := ReadYear(vol, dateKey).value;
    if yl[0] <= year < yl[|yl| - 1] {
      var text := VolumeText(vol, textType, n, stop).value;
      assert UpdateSpec(periods, yl, dateKey, textType, stop, n, vol) == AddText(periods, yl, year, text);
      AddTextKeepsSlotsOk(periods, yl, year, text);
    }
  }

  lemma AddTextKeepsSlotsOk(periods: map<int, Slot>, yl: seq<int>, year: int, text: seq<Ngram>)
    requires SlotsOk(periods) && AddText(periods, yl, year, text).Ok?
    ensures SlotsOk(AddText(periods, yl, year, text).value)
    ensures AddText(periods, yl, year, text).value.Keys == periods.Keys
  {
    var target := DetermineYear(year, yl).value;
    var slot := SlotAfter(periods[target], Distinct(text), text).value;
    assert AddText(periods, yl, year, text).value == periods[target := slot];
    SlotsOkUpdate(periods, target, slot);
  }

  /** Replacing one period by a well-formed slot keeps the table well-formed. */
  lemma SlotsOkUpdate(periods: map<int, Slot>, target: int, slot: Slot)
    requires SlotsOk(periods) && target in periods
    requires slot.Filled? ==> slot.numDocs >= 1 && (slot.fdist.Some? ==> slot.fdist.value.Valid())
    ensures SlotsOk(periods[target := slot]) && periods[target := slot].Keys == periods.Keys
  {
  }

  /** Reading a whole corpus keeps the periods and their well-formedness. */
  lemma {:induction false} FoldKeepsSlotsOk(periods: map<int, Slot>, yl: seq<int>, dateKey: string, textType: string,
                                            stop: set<Key>, n: nat, vols: seq<Volume>)
    requires SlotsOk(periods)
    requires Fold(periods, yl, dateKey, textType, stop, n, vols).Ok?
    ensures SlotsOk(Fold(periods, yl, dateKey, textType, stop, n, vols).value)
    ensures Fold(periods, yl, dateKey, textType, stop, n, vols).value.Keys == periods.Keys
    decreases |vols|
  {
    if vols != [] {
      UpdateKeepsSlotsOk(periods, yl, dateKey, textType, stop, n, vols[0]);
      var p := UpdateSpec(periods, yl, dateKey, textType, stop, n, vols[0]).value;
      FoldKeepsSlotsOk(p, yl, dateKey, textType, stop, n, vols[1..]);
    }
  }

  // ---------------------------------------------------------------------
  // The cleaned record

  /** A period of the cleaned record; `FDIST` is keyed by `' '.join(tuple)`. */
  datatype Period = Period(numDocs: nat, totalWords: nat, fdist: Dict<string, seq<nat>>)

  type Record = map<int, Period>

  /** Python's `year_list[:-1]`: the lower bounds of the periods. */
  function Periods(yl: seq<int>): (r: seq<int>)
    ensures |yl| > 0 ==> r == yl[..|yl| - 1]
    ensures |yl| == 0 ==> r == []
  {
    Prefix(yl, -1)
  }

  /** Re-keying a dict of n-grams by their space-joined strings, in order;
      a later n-gram whose join collides overwrites the earlier value. */
  function JoinFrom<V>(acc: Dict<string, V>, keys: seq<Ngram>, m: map<Ngram, V>): (r: Dict<string, V>)
    requires acc.Valid() && forall k :: k in keys ==> k in m
    ensures r.Valid()
    decreases |keys|
  {
    if keys == [] then acc
    else JoinFrom(Put(acc, Join(" ", keys[0]), m[keys[0]]), keys[1..], m)
  }

  function JoinAll<V>(fd: Dict<Ngram, V>): (r: Dict<string, V>)
    requires fd.Valid()
    ensures r.Valid()
  {
    JoinFrom(Empty(), fd.keys, fd.m)
  }

  /** An n-gram whose tokens are words (non-empty, blank-free). */
  predicate WordNgram(k: Ngram) {
    forall i :: 0 <= i < |k| ==> IsWord(k[i])
  }

  /** Space-joining is injective on n-grams of words. */
  lemma JoinInjective(a: Ngram, b: Ngram)
    requires WordNgram(a) && WordNgram(b) && Join(" ", a) == Join(" ", b)
    ensures a == b
  {
    WordsJoin(a);
    WordsJoin(b);
  }

  /** The space-joined strings of some n-grams. */
  function Joined(keys: seq<Ngram>): set<string> {
    set k | k in keys :: Join(" ", k)
  }

  lemma JoinedCons(keys: seq<Ngram>)
    requires keys != []
    ensures Joined(keys) == {Join(" ", keys[0])} + Joined(keys[1..])
  {
    assert forall k :: k in keys <==> k == keys[0] || k in keys[1..];
  }

  /** Re-keying yields the joins of the n-grams and nothing else new. */
  lemma {:induction false} JoinFromDomain<V>(acc: Dict<string, V>, keys: seq<Ngram>, m: map<Ngram, V>)
    requires acc.Valid() && forall k :: k in keys ==> k in m
    ensures JoinFrom(acc, keys, m).m.Keys == acc.m.Keys + Joined(keys)
    decreases |keys|
  {
    if keys != [] {
      var acc' := Put(acc, Join(" ", keys[0]), m[keys[0]]);
      assert JoinFrom(acc, keys, m) == JoinFrom(acc', keys[1..], m);
      JoinFromDomain(acc', keys[1..], m);
      JoinedCons(keys);
    }
  }

  /** An entry no n-gram joins to keeps its value. */
  lemma {:induction false} JoinFromOld<V>(acc: Dict<string, V>, keys: seq<Ngram>, m: map<Ngram, V>, s: string)
    requires acc.Valid() && forall k :: k in keys ==> k in m
    requires s in acc.m && s !in Joined(keys)
    ensures s in JoinFrom(acc, keys, m).m && JoinFrom(acc, keys, m).m[s] == acc.m[s]
    decreases |keys|
  {
    if keys != [] {
      var acc' := Put(acc, Join(" ", keys[0]), m[keys[0]]);
      assert JoinFrom(acc, keys, m) == JoinFrom(acc', keys[1..], m);
      JoinedCons(keys);
      JoinFromOld(acc', keys[1..], m, s);
    }
  }

  /** When the n-grams are distinct word tuples, each value ends up under
      its n-gram's joined string. */
  lemma {:induction false} JoinFromValue<V>(acc: Dict<string, V>, keys: seq<Ngram>, m: map<Ngram, V>, k: Ngram)
    requires acc.Valid() && forall k :: k in keys ==> k in m
    requires forall i, j :: 0 <= i < j < |keys| ==> keys[i] != keys[j]
    requires forall k :: k in keys ==> WordNgram(k)
    requires k in keys
    ensures Join(" ", k) in JoinFrom(acc, keys, m).m && JoinFrom(acc, keys, m).m[Join(" ", k)] == m[k]
    decreases |keys|
  {
    var k0 := keys[0];
    var rest := keys[1..];
    var acc' := Put(acc, Join(" ", k0), m[k0]);
    assert JoinFrom(acc, keys, m) == JoinFrom(acc', rest, m);
    if k == k0 {
      forall k' | k' in rest ensures Join(" ", k') != Join(" ", k0) {
        var j :| 0 <= j < |rest| && rest[j] == k';
        assert keys[j + 1] == k';
        if Join(" ", k') == Join(" ", k0) {
          JoinInjective(k', k0);
        }
      }
      JoinFromOld(acc', rest, m, Join(" ", k0));
    } else {
      assert k in rest;
      JoinFromValue(acc', rest, m, k);
    }
  }

  /** Re-keying the `FDIST` of a period: when every n-gram is made of words,
      each count list survives under its joined string and nothing else
      appears. */
  lemma JoinAllKeeps<V>(fd: Dict<Ngram, V>)
    requires fd.Valid()
    requires forall k :: k in fd.m ==> WordNgram(k)
    ensures JoinAll(fd).m.Keys == set k | k in fd.m :: Join(" ", k)
    ensures forall k :: k in fd.m ==> JoinAll(fd).m[Join(" ", k)] == fd.m[k]
  {
    var e: Dict<string, V> := Empty();
    assert JoinAll(fd) == JoinFrom(e, fd.keys, fd.m);
    KeysIn(fd);
    JoinFromDomain(e, fd.keys, fd.m);
    JoinedKeys(fd);
    forall k | k in fd.m ensures JoinAll(fd).m[Join(" ", k)] == fd.m[k] {
      assert k in fd.keys;
      JoinFromValue(e, fd.keys, fd.m, k);
    }
  }

  lemma JoinedKeys<V>(fd: Dict<Ngram, V>)
    requires fd.Valid()
    ensures Joined(fd.keys) == set k | k in fd.m :: Join(" ", k)
  {
    var a := Joined(fd.keys);
    var b := set k | k in fd.m :: Join(" ", k);
    forall s | s in a ensures s in b {
      var k :| k in fd.keys && Join(" ", k) == s;
      assert k in fd.m;
    }
    forall s | s in b ensures s in a {
      var k :| k in fd.m && Join(" ", k) == s;
      assert k in fd.keys;
    }
  }

  /** `_clean_records` for one period: an unfilled period is the int 0, and
      `0['NUM_DOCS']` raises `TypeError`; a period without `FDIST` raises
      `KeyError`. */
  function CleanSlot(periods: map<int, Slot>, y: int): (r: Result<Period>)
    requires SlotsOk(periods)
    ensures r.Ok? <==> y in periods && periods[y].Filled? && periods[y].fdist.Some?
    ensures y in periods && periods[y].Unfilled? ==> r == Err(TypeError)
    ensures r.Ok? ==> r.value.numDocs == periods[y].numDocs && r.value.totalWords == periods[y].totalWords
    ensures r.Ok? ==> r.value.numDocs >= 1
  {
    if y !in periods then Err(KeyError)
    else match periods[y]
      case Unfilled => Err(TypeError)
      case Filled(fd, nd, tw) =>
        if fd.None? then Err(KeyError) else Ok(Period(nd, tw, JoinAll(fd.value)))
  }

  /** `_clean_records(freq_rec)`, from the `i`-th period on. */
  function CleanFrom(periods: map<int, Slot>, years: seq<int>, acc: Record): (r: Result<Record>)
    requires SlotsOk(periods)
    ensures r.Ok? ==> r.value.Keys == acc.Keys + set y | y in years
    ensures r.Ok? ==> forall y :: y in years ==> CleanSlot(periods, y) == Ok(r.value[y])
    ensures r.Ok? ==> forall y :: y in acc && y !in years ==> r.value[y] == acc[y]
    ensures r.Ok? <==> forall y :: y in years ==> CleanSlot(periods, y).Ok?
    decreases |years|
  {
    if years == [] then Ok(acc)
    else
      var p :- CleanSlot(periods, years[0]);
      CleanFrom(periods, years[1..], acc[years[0] := p])
  }

  /** The record `set_frequency_record(n)` builds: the table after every
      volume of the corpus, cleaned. */
  function BuildRecord(files: seq<JsonFile>, yl: seq<int>, dateKey: string, textType: string,
                       stop: set<Key>, n: nat): Result<Record>
  {
    var periods :- Fold(Blank(yl), yl, dateKey, textType, stop, n, Volumes(files));
    FoldKeepsSlotsOk(Blank(yl), yl, dateKey, textType, stop, n, Volumes(files));
    CleanFrom(periods, Periods(yl), map[])
  }

  /** `num_dict(year_list)`: every year maps to 0. */
  function Blank(yl: seq<int>): (r: map<int, Slot>)
    ensures SlotsOk(r)
  {
    map y | y in yl :: Unfilled
  }

  /** A record as `set_frequency_record` leaves it: an entry for every
      period of `year_list[:-1]`, each with at least one document. */
  ghost predicate RecordOk(rec: Record, yl: seq<int>) {
    forall y :: y in Periods(yl) ==> y in rec && rec[y].numDocs >= 1
  }

  /** A record that builds holds exactly the periods of `year_list[:-1]`,
      every one with a document: a period no volume reached cannot be
      cleaned. */
  lemma BuildRecordOk(files: seq<JsonFile>, yl: seq<int>, dateKey: string, textType: string,
                      stop: set<Key>, n: nat)
    requires BuildRecord(files, yl, dateKey, textType, stop, n).Ok?
    ensures RecordOk(BuildRecord(files, yl, dateKey, textType, stop, n).value, yl)
    ensures BuildRecord(files, yl, dateKey, textType, stop, n).value.Keys == set y | y in Periods(yl)
  {
    FoldKeepsSlotsOk(Blank(yl), yl, dateKey, textType, stop, n, Volumes(files));
  }

  /** Reading `vols` one after the other is reading their concatenation. */
  lemma {:induction false} FoldAppend(periods: map<int, Slot>, yl: seq<int>, dateKey: string, textType: string,
                                      stop: set<Key>, n: nat, a: seq<Volume>, b: seq<Volume>)
    requires SlotsOk(periods)
    ensures Fold(periods, yl, dateKey, textType, stop, n, a + b) ==
            match Fold(periods, yl, dateKey, textType, stop, n, a)
            case Err(e) => Err(e)
            case Ok(q) => (FoldKeepsSlotsOk(periods, yl, dateKey, textType, stop, n, a);
                           Fold(q, yl, dateKey, textType, stop, n, b))
    decreases |a|
  {
    if a == [] {
      assert a + b == b;
    } else {
      assert (a + b)[0] == a[0] && (a + b)[1..] == a[1..] + b;
      var u := UpdateSpec(periods, yl, dateKey, textType, stop, n, a[0]);
      if u.Ok? {
        UpdateKeepsSlotsOk(periods, yl, dateKey, textType, stop, n, a[0]);
        FoldAppend(u.value, yl, dateKey, textType, stop, n, a[1..], b);
      }
    }
  }

  // ---------------------------------------------------------------------
  // Reading the corpus, in place

  /** The first-volume loop: `FDIST` is recreated before each n-gram. */
  method FirstFdist(kws: seq<Ngram>, text: seq<Ngram>) returns (fd: Option<Dict<Ngram, seq<nat>>>)
    ensures fd == LastOnly(kws, text)
  {
    fd := None;
    var j := 0;
    while j < |kws|
      invariant 0 <= j <= |kws|
      invariant fd == LastOnly(kws[..j], text)
    {
      var blank := Empty();
      fd := Some(Put(blank, kws[j], [Count(text, kws[j])]));
      LastOnlyNext(kws, j, text);
      j := j + 1;
    }
    assert kws[..j] == kws;
  }

  /** The first-volume table after n-gram `kws[j]` holds that n-gram alone. */
  lemma LastOnlyNext(kws: seq<Ngram>, j: nat, text: seq<Ngram>)
    requires j < |kws|
    ensures LastOnly(kws[..j + 1], text) == Some(Put(Empty(), kws[j], [Count(text, kws[j])]))
  {
    var kw := kws[j];
    assert kws[..j + 1][j] == kw;
    assert Put(Empty(), kw, [Count(text, kw)]) == Dict([kw], map[kw := [Count(text, kw)]]);
  }

  /** The later-volume loop: append each distinct n-gram's count, starting
      a list where `FDIST[kw]` raised `KeyError`. */
  method AppendFdist(fd: Dict<Ngram, seq<nat>>, kws: seq<Ngram>, text: seq<Ngram>) returns (r: Dict<Ngram, seq<nat>>)
    requires fd.Valid()
    ensures r == AppendCounts(fd, kws, text)
  {
    r := fd;
    var j := 0;
    while j < |kws|
      invariant 0 <= j <= |kws| && r.Valid()
      invariant AppendCounts(r, kws[j..], text) == AppendCounts(fd, kws, text)
    {
      assert kws[j..][0] == kws[j] && kws[j..][1..] == kws[j + 1..];
      r := Put(r, kws[j], Prev(r, kws[j]) + [Count(text, kws[j])]);
      j := j + 1;
    }
  }

  /** `_update_frequency_lists(frequency_lists, json_data, n)`: on success
      the table is the one `UpdateSpec` gives; an exception leaves the
      table abandoned by its caller, so its contents then are not stated. */
  method UpdateFrequencyLists(lists: FrequencyLists, yl: seq<int>, dateKey: string, textType: string,
                              stop: set<Key>, n: nat, vol: Volume) returns (r: Result<()>)
    requires SlotsOk(lists.periods)
    modifies lists
    ensures lists.n == old(lists.n)
    ensures r.Ok? ==> UpdateSpec(old(lists.periods), yl, dateKey, textType, stop, n, vol) == Ok(lists.periods)
    ensures r.Err? ==> UpdateSpec(old(lists.periods), yl, dateKey, textType, stop, n, vol) == Err(r.error)
  {
    var year := ReadYear(vol, dateKey);
    if year.Err? {
      return Err(year.error);
    }
    if yl == [] {
      return Err(IndexError);
    }
    if !(yl[0] <= year.value < yl[|yl| - 1]) {
      return Ok(());
    }
    var field := Get(vol, textType);
    if field.Err? {
      return Err(field.error);
    }
    var toks := Tokens(field.value);
    if toks.Err? {
      return Err(toks.error);
    }
    var text := DeleteInPlace(Ngrams(toks.value, n), TupleStops(stop));
    assert VolumeText(vol, textType, n, stop) == Ok(text);
    r := AddToPeriod(lists, yl, year.value, text);
  }

  /** The part of `_update_frequency_lists` after the stop words are gone:
      find the period and add the volume's n-grams to it. */
  method AddToPeriod(lists: FrequencyLists, yl: seq<int>, year: int, text: seq<Ngram>) returns (r: Result<()>)
    requires SlotsOk(lists.periods)
    modifies lists
    ensures lists.n == old(lists.n)
    ensures r.Ok? ==> AddText(old(lists.periods), yl, year, text) == Ok(lists.periods)
    ensures r.Err? ==> AddText(old(lists.periods), yl, year, text) == Err(r.error)
  {
    var target := DetermineYear(year, yl);
    if target.Err? {
      return Err(target.error);
    }
    var kws := Distinct(text);
    if target.value !in lists.periods {
      return Err(KeyError);
    }
    var t := target.value;
    var slot := NextSlot(lists.periods[t], kws, text);
    if slot.Err? {
      return Err(slot.error);
    }
    lists.periods := lists.periods[t := slot.value];
    r := Ok(());
  }

  /** The branch of `_update_frequency_lists` on the period's `NUM_DOCS`. */
  method NextSlot(slot: Slot, kws: seq<Ngram>, text: seq<Ngram>) returns (r: Result<Slot>)
    requires slot.Filled? && slot.fdist.Some? ==> slot.fdist.value.Valid()
    ensures r == SlotAfter(slot, kws, text)
  {
    match slot
    case Unfilled =>
      var fd := FirstFdist(kws, text);
      r := Ok(Filled(fd, 1, |text|));
    case Filled(fd, nd, tw) =>
      if fd.None? {
        if kws != [] {
          return Err(KeyError);
        }
        r := Ok(Filled(None, nd + 1, tw + |text|));
      } else {
        var fd' := AppendFdist(fd.value, kws, text);
        r := Ok(Filled(Some(fd'), nd + 1, tw + |text|));
      }
  }

  /** The inner loop of `set_frequency_record`: every volume of one file. */
  method ReadVolumes(lists: FrequencyLists, yl: seq<int>, dateKey: string, textType: string,
                     stop: set<Key>, n: nat, vols: seq<Volume>) returns (r: Result<()>)
    requires SlotsOk(lists.periods)
    modifies lists
    ensures lists.n == old(lists.n)
    ensures r.Ok? ==> Fold(old(lists.periods), yl, dateKey, textType, stop, n, vols) == Ok(lists.periods)
    ensures r.Ok? ==> SlotsOk(lists.periods)
    ensures r.Err? ==> Fold(old(lists.periods), yl, dateKey, textType, stop, n, vols) == Err(r.error)
  {
    var i := 0;
    while i < |vols|
      invariant 0 <= i <= |vols| && SlotsOk(lists.periods) && lists.n == old(lists.n)
      invariant Fold(lists.periods, yl, dateKey, textType, stop, n, vols[i..]) ==
                Fold(old(lists.periods), yl, dateKey, textType, stop, n, vols)
    {
      assert vols[i..][0] == vols[i] && vols[i..][1..] == vols[i + 1..];
      ghost var before := lists.periods;
      var u := UpdateFrequencyLists(lists, yl, dateKey, textType, stop, n, vols[i]);
      if u.Err? {
        return Err(u.error);
      }
      UpdateKeepsSlotsOk(before, yl, dateKey, textType, stop, n, vols[i]);
      i := i + 1;
    }
    r := Ok(());
  }

  /** The loop of `_clean_records` over one period's `FDIST`. */
  method JoinFdist<V>(fd: Dict<Ngram, V>) returns (r: Dict<string, V>)
    requires fd.Valid()
    ensures r == JoinAll(fd)
  {
    r := Empty();
    var j := 0;
    while j < |fd.keys|
      invariant 0 <= j <= |fd.keys| && r.Valid()
      invariant JoinFrom(r, fd.keys[j..], fd.m) == JoinAll(fd)
    {
      assert fd.keys[j..][0] == fd.keys[j] && fd.keys[j..][1..] == fd.keys[j + 1..];
      r := Put(r, Join(" ", fd.keys[j]), fd.m[fd.keys[j]]);
      j := j + 1;
    }
  }

  /** `_clean_records(freq_rec)`: one entry per period of `year_list[:-1]`;
      the `"__N__"` entry is not carried over. */
  method CleanRecords(periods: map<int, Slot>, yl: seq<int>) returns (r: Result<Record>)
    requires SlotsOk(periods)
    ensures r == CleanFrom(periods, Periods(yl), map[])
  {
    var years := Periods(yl);
    var rec: Record := map[];
    var i := 0;
    while i < |years|
      invariant 0 <= i <= |years|
      invariant CleanFrom(periods, years[i..], rec) == CleanFrom(periods, years, map[])
    {
      assert years[i..][0] == years[i] && years[i..][1..] == years[i + 1..];
      var y := years[i];
      if y !in periods {
        return Err(KeyError);
      }
      match periods[y] {
        case Unfilled =>
          return Err(TypeError);
        case Filled(fd, nd, tw) =>
          if fd.None? {
            return Err(KeyError);
          }
          var joined := JoinFdist(fd.value);
          rec := rec[y := Period(nd, tw, joined)];
      }
      i := i + 1;
    }
    r := Ok(rec);
  }

  // ---------------------------------------------------------------------
  // Frequencies per period

  /** Per-period values keyed by `'TOTAL'` and the keywords. */
  type Table = map<int, map<string, real>>
  /** `NUM_DOCS` per period. */
  type Docs = map<int, nat>

  /** `sum(FDIST[k])`, and 0 for an n-gram the period never saw. */
  function KeySum(p: Period, k: string): nat {
    if k in p.fdist.m then Sum(p.fdist.m[k]) else 0
  }

  /** The running `total` over the keywords, a repeated keyword counted
      every time. */
  function KeysTotal(p: Period, keys: seq<string>): nat
    decreases |keys|
  {
    if keys == [] then 0 else KeysTotal(p, keys[..|keys| - 1]) + KeySum(p, keys[|keys| - 1])
  }

  /** The names a result row carries: `'TOTAL'` and every keyword. */
  function RowKeys(keys: seq<string>): set<string> {
    {"TOTAL"} + set k | k in keys
  }

  /** A row of `num_dict(year_list, keys, 1)`: all zeros. */
  function ZeroValues(keys: seq<string>): (r: map<string, real>)
    ensures r.Keys == RowKeys(keys)
  {
    map k | k in RowKeys(keys) :: 0.0
  }

  /** The row after the keyword loop has written `sum / d` for each of
      `keys` found in `FDIST`. */
  function Found(p: Period, keys: seq<string>, d: nat, row: map<string, real>): map<string, real>
    requires d > 0
    decreases |keys|
  {
    if keys == [] then row
    else
      var r := Found(p, keys[..|keys| - 1], d, row);
      var k := keys[|keys| - 1];
      if k in p.fdist.m then r[k := KeySum(p, k) as real / d as real] else r
  }

  /** A period's row: `sum(FDIST[k]) / d` for each keyword found, 0 for one
      that is not, and `'TOTAL'` the found counts over `d`, written last so
      it wins over a keyword spelled `'TOTAL'`. */
  function PeriodValues(p: Period, keys: seq<string>, d: nat): (r: map<string, real>)
    requires d > 0
    ensures forall k :: k in r <==> k in RowKeys(keys)
  {
    FoundEntries(p, keys, d, ZeroValues(keys));
    Found(p, keys, d, ZeroValues(keys))["TOTAL" := KeysTotal(p, keys) as real / d as real]
  }

  lemma {:induction false} FoundEntries(p: Period, keys: seq<string>, d: nat, row: map<string, real>)
    requires d > 0
    ensures forall k :: k in Found(p, keys, d, row) <==> k in row || (k in keys && k in p.fdist.m)
    ensures forall k :: k in keys && k in p.fdist.m ==> Found(p, keys, d, row)[k] == KeySum(p, k) as real / d as real
    ensures forall k :: k in row && !(k in keys && k in p.fdist.m) ==> Found(p, keys, d, row)[k] == row[k]
    decreases |keys|
  {
    if keys != [] {
      var init := keys[..|keys| - 1];
      FoundEntries(p, init, d, row);
      assert forall k :: k in keys <==> k in init || k == keys[|keys| - 1];
    }
  }

  /** What `take_freq` writes into a period with words: every keyword found
      gets its summed count over `d`, every other keyword keeps 0, and
      `'TOTAL'` is the summed count of the keywords found over `d`. */
  lemma PeriodValuesEntries(p: Period, keys: seq<string>, d: nat)
    requires d > 0
    ensures forall k :: k in PeriodValues(p, keys, d) <==> k == "TOTAL" || k in keys
    ensures PeriodValues(p, keys, d)["TOTAL"] == KeysTotal(p, keys) as real / d as real
    ensures forall k :: k in keys && k != "TOTAL" ==>
              PeriodValues(p, keys, d)[k] == KeySum(p, k) as real / d as real
  {
    var z := ZeroValues(keys);
    FoundEntries(p, keys, d, z);
    var f := Found(p, keys, d, z);
    forall k | k in keys && k != "TOTAL" ensures f[k] == KeySum(p, k) as real / d as real {
      assert k in z;
      if k !in p.fdist.m {
        assert f[k] == z[k] == 0.0;
      }
    }
  }

  /** Dividing a sum term by term. */
  lemma DivideSum(a: real, b: real, d: real)
    requires d > 0.0
    ensures (a + b) / d == a / d + b / d
  {
  }

  /** A quotient times its divisor is the dividend. */
  lemma QuotientTimesDivisor(a: real, d: real)
    requires d > 0.0
    ensures (a / d) * d == a
  {
  }

  /** The sum of a row's values over `keys`, repeats included. */
  function RowSum(row: map<string, real>, keys: seq<string>): real
    decreases |keys|
  {
    if keys == [] then 0.0
    else RowSum(row, keys[..|keys| - 1]) + (if keys[|keys| - 1] in row then row[keys[|keys| - 1]] else 0.0)
  }

  lemma {:induction false} RowSumOfQuotients(p: Period, row: map<string, real>, keys: seq<string>, d: nat)
    requires d > 0
    requires forall k :: k in keys ==> k in row && row[k] == KeySum(p, k) as real / d as real
    ensures RowSum(row, keys) == KeysTotal(p, keys) as real / d as real
    decreases |keys|
  {
    if keys != [] {
      var init := keys[..|keys| - 1];
      RowSumOfQuotients(p, row, init, d);
      DivideSum(KeysTotal(p, init) as real, KeySum(p, keys[|keys| - 1]) as real, d as real);
    }
  }

  /** For keywords that do not include `'TOTAL'`, a period's `'TOTAL'` is
      the sum of its keyword values (a repeated keyword counted as often as
      it is listed). */
  lemma TotalIsSumOfValues(p: Period, keys: seq<string>, d: nat)
    requires d > 0 && "TOTAL" !in keys
    ensures PeriodValues(p, keys, d)["TOTAL"] == RowSum(PeriodValues(p, keys, d), keys)
  {
    PeriodValuesEntries(p, keys, d);
    RowSumOfQuotients(p, PeriodValues(p, keys, d), keys, d);
  }

  /** The denominator: `NUM_DOCS` for the average, `TOTAL_WORDS` for the
      global frequency. */
  function Denom(p: Period, perDoc: bool): nat {
    if perDoc then p.numDocs else p.totalWords
  }

  /** The year loop of `take_freq` / `_take_average_freq` from the given
      periods on: a period without words is skipped, so it keeps its zero
      row and its 0 in `num_docs`. */
  function FreqFrom(rec: Record, years: seq<int>, keys: seq<string>, perDoc: bool,
                    table: Table, docs: Docs): (r: Result<(Table, Docs)>)
    requires docs.Keys == table.Keys && forall y :: y in years ==> y in table
    ensures r.Err? ==> r.error == KeyError || r.error == ZeroDivision
    ensures r.Ok? ==> r.value.0.Keys == table.Keys && r.value.1.Keys == docs.Keys
    decreases |years|
  {
    if years == [] then Ok((table, docs))
    else
      var y := years[0];
      if y !in rec then Err(KeyError)
      else if rec[y].totalWords == 0 then FreqFrom(rec, years[1..], keys, perDoc, table, docs)
      else if Denom(rec[y], perDoc) == 0 then Err(ZeroDivision)
      else FreqFrom(rec, years[1..], keys, perDoc,
                    table[y := PeriodValues(rec[y], keys, Denom(rec[y], perDoc))], docs[y := rec[y].numDocs])
  }

  /** The year loop fails exactly when a period is missing from the record,
      or, for the average, has words but no documents; otherwise a period
      with words gets its row and `NUM_DOCS`, and every other year keeps
      what it had. */
  lemma {:induction false} FreqFromEntries(rec: Record, years: seq<int>, keys: seq<string>, perDoc: bool,
                                           table: Table, docs: Docs)
    requires docs.Keys == table.Keys && forall y :: y in years ==> y in table
    ensures FreqFrom(rec, years, keys, perDoc, table, docs).Ok? <==>
              forall y :: y in years ==> y in rec && (rec[y].totalWords > 0 ==> Denom(rec[y], perDoc) > 0)
    ensures var r := FreqFrom(rec, years, keys, perDoc, table, docs);
      r.Ok? ==> forall y :: y in years && rec[y].totalWords > 0 ==>
        r.value.0[y] == PeriodValues(rec[y], keys, Denom(rec[y], perDoc)) && r.value.1[y] == rec[y].numDocs
    ensures var r := FreqFrom(rec, years, keys, perDoc, table, docs);
      r.Ok? ==> forall y :: y in table && (y !in years || (y in rec && rec[y].totalWords == 0)) ==>
        r.value.0[y] == table[y] && r.value.1[y] == docs[y]
    decreases |years|
  {
    if years != [] {
      var y := years[0];
      assert forall x :: x in years <==> x == y || x in years[1..];
      if y in rec {
        if rec[y].totalWords == 0 {
          FreqFromEntries(rec, years[1..], keys, perDoc, table, docs);
        } else if Denom(rec[y], perDoc) > 0 {
          FreqFromEntries(rec, years[1..], keys, perDoc,
                          table[y := PeriodValues(rec[y], keys, Denom(rec[y], perDoc))], docs[y := rec[y].numDocs]);
        }
      }
    }
  }

  /** The zero tables `num_dict` starts from. */
  function ZeroTable(yl: seq<int>, keys: seq<string>): (t: Table)
    ensures t.Keys == set y | y in yl
  {
    map y | y in yl :: ZeroValues(keys)
  }

  function ZeroDocs(yl: seq<int>): (t: Docs)
    ensures t.Keys == set y | y in yl
  {
    map y | y in yl :: 0
  }

  /** `take_freq`'s tables (`perDoc` false) and `_take_average_freq`'s
      (`perDoc` true) for a record: `num_dict(year_list, keys, 1)` raises
      `TypeError` for missing keywords as soon as there is a year. */
  function FreqTable(rec: Record, yl: seq<int>, keys: Option<seq<string>>, perDoc: bool): (r: Result<(Table, Docs)>)
    ensures yl == [] ==> r == Ok((map[], map[]))
    ensures yl != [] && keys.None? ==> r == Err(TypeError)
  {
    if yl == [] then Ok((map[], map[]))
    else if keys.None? then Err(TypeError)
    else FreqFrom(rec, Periods(yl), keys.value, perDoc, ZeroTable(yl, keys.value), ZeroDocs(yl))
  }

  /** Periods without words, and the last year of the list, keep all-zero
      rows and a `num_docs` of 0. */
  lemma ZeroPeriods(rec: Record, yl: seq<int>, keys: seq<string>, perDoc: bool, y: int)
    requires FreqTable(rec, yl, Some(keys), perDoc).Ok? && y in yl
    requires y !in Periods(yl) || (y in rec && rec[y].totalWords == 0)
    ensures var t := FreqTable(rec, yl, Some(keys), perDoc).value;
      y in t.0 && y in t.1 && t.1[y] == 0 &&
      t.0[y].Keys == RowKeys(keys) && forall k :: k in t.0[y] ==> t.0[y][k] == 0.0
  {
    FreqFromEntries(rec, Periods(yl), keys, perDoc, ZeroTable(yl, keys), ZeroDocs(yl));
  }

  /** Average and global frequency share their numerators: for every
      keyword, average · `NUM_DOCS` = global · `TOTAL_WORDS`. */
  lemma AverageTimesDocs(p: Period, keys: seq<string>, k: string)
    requires p.numDocs > 0 && p.totalWords > 0 && k in keys && k != "TOTAL"
    ensures PeriodValues(p, keys, p.numDocs)[k] * p.numDocs as real ==
            PeriodValues(p, keys, p.totalWords)[k] * p.totalWords as real
  {
    ValueTimesDivisor(p, keys, p.numDocs, k);
    ValueTimesDivisor(p, keys, p.totalWords, k);
  }

  /** A keyword's value times the divisor is the keyword's count. */
  lemma ValueTimesDivisor(p: Period, keys: seq<string>, d: nat, k: string)
    requires d > 0 && k in keys && k != "TOTAL"
    ensures k in PeriodValues(p, keys, d) && PeriodValues(p, keys, d)[k] * d as real == KeySum(p, k) as real
  {
    PeriodValuesEntries(p, keys, d);
    QuotientTimesDivisor(KeySum(p, k) as real, d as real);
  }

  /** The tables of `take_freq` and `_take_average_freq` hold, for a period
      with words, the rows `PeriodValues` gives over `TOTAL_WORDS` and over
      `NUM_DOCS`. */
  lemma TablesAtPeriod(rec: Record, yl: seq<int>, keys: seq<string>, y: int)
    requires FreqTable(rec, yl, Some(keys), false).Ok? && FreqTable(rec, yl, Some(keys), true).Ok?
    requires y in Periods(yl) && y in rec && rec[y].totalWords > 0
    ensures var g := FreqTable(rec, yl, Some(keys), false).value;
            var a := FreqTable(rec, yl, Some(keys), true).value;
            && y in g.0 && g.0[y] == PeriodValues(rec[y], keys, rec[y].totalWords)
            && y in a.0 && rec[y].numDocs > 0 && a.0[y] == PeriodValues(rec[y], keys, rec[y].numDocs)
            && g.1[y] == a.1[y] == rec[y].numDocs
  {
    FreqFromEntries(rec, Periods(yl), keys, false, ZeroTable(yl, keys), ZeroDocs(yl));
    FreqFromEntries(rec, Periods(yl), keys, true, ZeroTable(yl, keys), ZeroDocs(yl));
  }

  /** On a record `set_frequency_record` built, neither table fails once
      there are keywords. */
  lemma FreqTableOnBuiltRecord(rec: Record, yl: seq<int>, keys: seq<string>, perDoc: bool)
    requires RecordOk(rec, yl)
    ensures FreqTable(rec, yl, Some(keys), perDoc).Ok?
  {
    if yl != [] {
      FreqFromEntries(rec, Periods(yl), keys, perDoc, ZeroTable(yl, keys), ZeroDocs(yl));
    }
  }

  /** The year loop of `take_freq` and `_take_average_freq`. */
  method FreqTableOf(rec: Record, yl: seq<int>, keys: Option<seq<string>>, perDoc: bool) returns (r: Result<(Table, Docs)>)
    ensures r == FreqTable(rec, yl, keys, perDoc)
  {
    if yl == [] {
      return Ok((map[], map[]));
    }
    if keys.None? {
      return Err(TypeError);
    }
    var ks := keys.value;
    var years := Periods(yl);
    var table: Table, docs: Docs := ZeroTable(yl, ks), ZeroDocs(yl);
    ghost var goal := FreqFrom(rec, years, ks, perDoc, table, docs);
    var i := 0;
    while i < |years|
      invariant i <= |years| && FreqLoop(rec, years, i, ks, perDoc, table, docs, goal)
    {
      FreqFromStep(rec, years, i, ks, perDoc, table, docs, goal);
      var step := FreqYear(rec, years[i], ks, perDoc, table, docs);
      if step.Err? {
        return Err(step.error);
      }
      table, docs := step.value.0, step.value.1;
      i := i + 1;
    }
    r := Ok((table, docs));
  }

  /** The invariant of the year loop of `take_freq`: what is left to read
      from `years[i..]` on gives the table read from the start. */
  ghost predicate FreqLoop(rec: Record, years: seq<int>, i: nat, keys: seq<string>, perDoc: bool,
                           table: Table, docs: Docs, goal: Result<(Table, Docs)>)
    requires i <= |years|
  {
    && docs.Keys == table.Keys && (forall y :: y in years ==> y in table)
    && FreqFrom(rec, years[i..], keys, perDoc, table, docs) == goal
  }

  /** One period of the year loop: its row and `NUM_DOCS`, or the error. */
  function YearStep(rec: Record, y: int, keys: seq<string>, perDoc: bool, table: Table, docs: Docs): (r: Result<(Table, Docs)>)
    requires y in table && y in docs
    ensures r.Ok? ==> r.value.0.Keys == table.Keys && r.value.1.Keys == docs.Keys
  {
    if y !in rec then Err(KeyError)
    else if rec[y].totalWords == 0 then Ok((table, docs))
    else if Denom(rec[y], perDoc) == 0 then Err(ZeroDivision)
    else Ok((table[y := PeriodValues(rec[y], keys, Denom(rec[y], perDoc))], docs[y := rec[y].numDocs]))
  }

  method FreqYear(rec: Record, y: int, keys: seq<string>, perDoc: bool, table: Table, docs: Docs)
    returns (r: Result<(Table, Docs)>)
    requires y in table && y in docs
    ensures r == YearStep(rec, y, keys, perDoc, table, docs)
  {
    if y !in rec {
      return Err(KeyError);
    }
    if rec[y].totalWords == 0 {
      return Ok((table, docs));
    }
    var d := Denom(rec[y], perDoc);
    if d == 0 {
      return Err(ZeroDivision);
    }
    var row := PeriodSums(rec[y], keys, d);
    r := Ok((table[y := row], docs[y := rec[y].numDocs]));
  }

  /** One pass of the year loop of `FreqTableOf`. */
  lemma FreqFromStep(rec: Record, years: seq<int>, i: nat, keys: seq<string>, perDoc: bool, table: Table, docs: Docs,
                     goal: Result<(Table, Docs)>)
    requires i < |years| && FreqLoop(rec, years, i, keys, perDoc, table, docs, goal)
    ensures years[i] in table && years[i] in docs
    ensures var s := YearStep(rec, years[i], keys, perDoc, table, docs);
      && (s.Err? ==> goal == Err(s.error))
      && (s.Ok? ==> FreqLoop(rec, years, i + 1, keys, perDoc, s.value.0, s.value.1, goal))
  {
    assert years[i..][0] == years[i] && years[i..][1..] == years[i + 1..];
  }

  /** The keyword loop for one period: `total` collects the counts of the
      keywords found, each of which gets its own quotient. */
  method PeriodSums(p: Period, keys: seq<string>, d: nat) returns (row: map<string, real>)
    requires d > 0
    ensures row == PeriodValues(p, keys, d)
  {
    row := ZeroValues(keys);
    var total: nat := 0;
    var j := 0;
    while j < |keys|
      invariant 0 <= j <= |keys|
      invariant row == Found(p, keys[..j], d, ZeroValues(keys))
      invariant total == KeysTotal(p, keys[..j])
    {
      var k := keys[j];
      assert keys[..j + 1][..j] == keys[..j] && keys[..j + 1][j] == k;
      if k in p.fdist.m {
        total := total + Sum(p.fdist.m[k]);
        row := row[k := Sum(p.fdist.m[k]) as real / d as real];
      }
      j := j + 1;
    }
    assert keys[..j] == keys;
    row := row["TOTAL" := total as real / d as real];
  }

  // ---------------------------------------------------------------------
  // Variance

  /** `[math.pow(f - a, 2) for f in counts]`. */
  function Deviations(counts: seq<nat>, a: real): (r: seq<real>)
    ensures |r| == |counts|
  {
    seq(|counts|, i requires 0 <= i < |counts| => (counts[i] as real - a) * (counts[i] as real - a))
  }

  /** `sum(xs)` over reals. */
  function RealSum(xs: seq<real>): real
    decreases |xs|
  {
    if xs == [] then 0.0 else xs[0] + RealSum(xs[1..])
  }

  predicate NonNegative(xs: seq<real>) {
    forall i :: 0 <= i < |xs| ==> xs[i] >= 0.0
  }

  predicate NonNegativeRow(row: map<string, real>) {
    forall k :: k in row ==> row[k] >= 0.0
  }

  lemma Square(x: real)
    ensures x * x >= 0.0
  {
  }

  lemma DeviationsNonNegative(counts: seq<nat>, a: real)
    ensures NonNegative(Deviations(counts, a))
  {
    forall i | 0 <= i < |counts| ensures Deviations(counts, a)[i] >= 0.0 {
      Square(counts[i] as real - a);
    }
  }

  lemma {:induction false} RealSumNonNegative(xs: seq<real>)
    requires NonNegative(xs)
    ensures RealSum(xs) >= 0.0
    decreases |xs|
  {
    if xs != [] {
      RealSumNonNegative(xs[1..]);
    }
  }

  /** A mean of non-negative values is non-negative. */
  lemma MeanNonNegative(xs: seq<real>)
    requires NonNegative(xs) && |xs| > 0
    ensures RealSum(xs) / |xs| as real >= 0.0
  {
    RealSumNonNegative(xs);
  }

  /** `row[k]`, 0 where the row has no such entry. */
  function Lookup(row: map<string, real>, k: string): real {
    if k in row then row[k] else 0.0
  }

  /** `table[y]`, empty where the table has no such year. */
  function RowOf(t: Table, y: int): map<string, real> {
    if y in t then t[y] else map[]
  }

  /** The keyword loop of `_take_variance` for one period, from the given
      keywords on: each keyword found gets the mean squared deviation of
      its count list from its average, and the deviations are collected in
      `variances_all_keys`. An empty count list divides by zero. */
  function VarKeys(fd: Dict<string, seq<nat>>, keys: seq<string>, avg: map<string, real>,
                   row: map<string, real>, devs: seq<real>): Result<(map<string, real>, seq<real>)>
    decreases |keys|
  {
    if keys == [] then Ok((row, devs))
    else
      var k := keys[0];
      if k !in fd.m then VarKeys(fd, keys[1..], avg, row, devs)
      else
        var d := Deviations(fd.m[k], Lookup(avg, k));
        if |d| == 0 then Err(ZeroDivision)
        else VarKeys(fd, keys[1..], avg, row[k := RealSum(d) / |d| as real], devs + d)
  }

  /** One period of `_take_variance`: the keyword loop runs only when the
      period has words, but `'TOTAL'`, the mean of all deviations collected,
      is computed for every period, so a period where no keyword was found
      divides by zero. */
  function VarPeriod(p: Period, keys: seq<string>, avg: map<string, real>): Result<map<string, real>> {
    var acc :- if p.totalWords > 0 then VarKeys(p.fdist, keys, avg, ZeroValues(keys), [])
               else Ok((ZeroValues(keys), []));
    if |acc.1| == 0 then Err(ZeroDivision)
    else Ok(acc.0["TOTAL" := RealSum(acc.1) / |acc.1| as real])
  }

  /** The year loop of `_take_variance` from the given periods on. */
  function VarFrom(rec: Record, years: seq<int>, keys: seq<string>, avg: Table, table: Table): Result<Table>
    decreases |years|
  {
    if years == [] then Ok(table)
    else
      var y := years[0];
      if y !in rec then Err(KeyError)
      else
        var row :- VarPeriod(rec[y], keys, RowOf(avg, y));
        VarFrom(rec, years[1..], keys, avg, table[y := row])
  }

  /** `_take_variance(keys)`: the averages first, then the variances. */
  function VarianceTable(rec: Record, yl: seq<int>, keys: Option<seq<string>>): Result<(Table, Docs)> {
    var avg :- FreqTable(rec, yl, keys, true);
    if yl == [] then Ok((map[], avg.1))
    else
      var t :- VarFrom(rec, Periods(yl), keys.value, avg.0, ZeroTable(yl, keys.value));
      Ok((t, avg.1))
  }

  lemma {:induction false} VarKeysNonNegative(fd: Dict<string, seq<nat>>, keys: seq<string>, avg: map<string, real>,
                                              row: map<string, real>, devs: seq<real>)
    requires NonNegativeRow(row) && NonNegative(devs)
    ensures var r := VarKeys(fd, keys, avg, row, devs);
      r.Ok? ==> NonNegativeRow(r.value.0) && NonNegative(r.value.1)
    decreases |keys|
  {
    if keys != [] && keys[0] in fd.m {
      var d := Deviations(fd.m[keys[0]], Lookup(avg, keys[0]));
      DeviationsNonNegative(fd.m[keys[0]], Lookup(avg, keys[0]));
      if |d| > 0 {
        MeanNonNegative(d);
        VarKeysNonNegative(fd, keys[1..], avg, row[keys[0] := RealSum(d) / |d| as real], devs + d);
      }
    } else if keys != [] {
      VarKeysNonNegative(fd, keys[1..], avg, row, devs);
    }
  }

  /** Every variance, per keyword and `'TOTAL'`, is at least 0. */
  lemma VarPeriodNonNegative(p: Period, keys: seq<string>, avg: map<string, real>)
    requires VarPeriod(p, keys, avg).Ok?
    ensures NonNegativeRow(VarPeriod(p, keys, avg).value)
  {
    VarKeysNonNegative(p.fdist, keys, avg, ZeroValues(keys), []);
    var acc := if p.totalWords > 0 then VarKeys(p.fdist, keys, avg, ZeroValues(keys), [])
               else Ok((ZeroValues(keys), []));
    MeanNonNegative(acc.value.1);
  }

  lemma {:induction false} VarFromNonNegative(rec: Record, years: seq<int>, keys: seq<string>, avg: Table, table: Table)
    requires forall y :: y in table ==> NonNegativeRow(table[y])
    requires VarFrom(rec, years, keys, avg, table).Ok?
    ensures var t := VarFrom(rec, years, keys, avg, table).value;
      forall y :: y in t ==> NonNegativeRow(t[y])
    decreases |years|
  {
    if years != [] {
      var y := years[0];
      VarPeriodNonNegative(rec[y], keys, RowOf(avg, y));
      VarFromNonNegative(rec, years[1..], keys, avg, table[y := VarPeriod(rec[y], keys, RowOf(avg, y)).value]);
    }
  }

  /** Every value `_take_variance` returns is non-negative. */
  lemma VarianceNonNegative(rec: Record, yl: seq<int>, keys: Option<seq<string>>)
    requires VarianceTable(rec, yl, keys).Ok?
    ensures var t := VarianceTable(rec, yl, keys).value.0;
      forall y, k :: y in t && k in t[y] ==> t[y][k] >= 0.0
  {
    if yl != [] {
      VarFromNonNegative(rec, Periods(yl), keys.value, FreqTable(rec, yl, keys, true).value.0, ZeroTable(yl, keys.value));
    }
  }

  lemma {:induction false} VarKeysNoneFound(fd: Dict<string, seq<nat>>, keys: seq<string>, avg: map<string, real>,
                                            row: map<string, real>, devs: seq<real>)
    requires forall k :: k in keys ==> k !in fd.m
    ensures VarKeys(fd, keys, avg, row, devs) == Ok((row, devs))
    decreases |keys|
  {
    if keys != [] {
      VarKeysNoneFound(fd, keys[1..], avg, row, devs);
    }
  }

  /** A period without words, or one where no keyword was found, makes
      `_take_variance` divide by zero. */
  lemma VarPeriodNoneFound(p: Period, keys: seq<string>, avg: map<string, real>)
    requires p.totalWords == 0 || forall k :: k in keys ==> k !in p.fdist.m
    ensures VarPeriod(p, keys, avg) == Err(ZeroDivision)
  {
    if p.totalWords > 0 {
      VarKeysNoneFound(p.fdist, keys, avg, ZeroValues(keys), []);
    }
  }

  /** The whole variance fails as soon as one period of the record has no
      words: on the table level, `ZeroDivisionError`. */
  lemma {:induction false} VarFromFails(rec: Record, years: seq<int>, keys: seq<string>, avg: Table, table: Table, y: int)
    requires forall x :: x in years ==> x in rec
    requires y in years && rec[y].totalWords == 0
    ensures VarFrom(rec, years, keys, avg, table) == Err(ZeroDivision)
    decreases |years|
  {
    var x := years[0];
    VarPeriodErr(rec[x], keys, RowOf(avg, x));
    if x == y {
      VarPeriodNoneFound(rec[y], keys, RowOf(avg, y));
    } else {
      assert y in years[1..];
      var r := VarPeriod(rec[x], keys, RowOf(avg, x));
      if r.Ok? {
        VarFromFails(rec, years[1..], keys, avg, table[x := r.value], y);
      }
    }
  }

  lemma {:induction false} VarKeysErr(fd: Dict<string, seq<nat>>, keys: seq<string>, avg: map<string, real>,
                                      row: map<string, real>, devs: seq<real>)
    ensures VarKeys(fd, keys, avg, row, devs).Err? ==> VarKeys(fd, keys, avg, row, devs).error == ZeroDivision
    decreases |keys|
  {
    if keys != [] {
      var k := keys[0];
      if k !in fd.m {
        VarKeysErr(fd, keys[1..], avg, row, devs);
      } else {
        var d := Deviations(fd.m[k], Lookup(avg, k));
        if |d| > 0 {
          VarKeysErr(fd, keys[1..], avg, row[k := RealSum(d) / |d| as real], devs + d);
        }
      }
    }
  }

  /** The only error of a period's variance is a division by zero. */
  lemma VarPeriodErr(p: Period, keys: seq<string>, avg: map<string, real>)
    ensures VarPeriod(p, keys, avg).Err? ==> VarPeriod(p, keys, avg).error == ZeroDivision
  {
    VarKeysErr(p.fdist, keys, avg, ZeroValues(keys), []);
  }

  /** On a record `set_frequency_record` built, `_take_variance` fails as
      soon as one period has no words. */
  lemma VarianceFailsOnEmptyPeriod(rec: Record, yl: seq<int>, keys: seq<string>, y: int)
    requires RecordOk(rec, yl) && y in Periods(yl) && rec[y].totalWords == 0
    ensures VarianceTable(rec, yl, Some(keys)) == Err(ZeroDivision)
  {
    FreqTableOnBuiltRecord(rec, yl, keys, true);
    VarFromFails(rec, Periods(yl), keys, FreqTable(rec, yl, Some(keys), true).value.0, ZeroTable(yl, keys), y);
  }

  /** The keyword loop of `_take_variance` for one period with words. */
  method VarKeysOf(fd: Dict<string, seq<nat>>, keys: seq<string>, avg: map<string, real>,
                   row0: map<string, real>) returns (r: Result<(map<string, real>, seq<real>)>)
    ensures r == VarKeys(fd, keys, avg, row0, [])
  {
    var row, devs := row0, [];
    var j := 0;
    while j < |keys|
      invariant 0 <= j <= |keys|
      invariant VarKeys(fd, keys[j..], avg, row, devs) == VarKeys(fd, keys, avg, row0, [])
    {
      assert keys[j..][0] == keys[j] && keys[j..][1..] == keys[j + 1..];
      var k := keys[j];
      if k in fd.m {
        var d := Deviations(fd.m[k], Lookup(avg, k));
        devs := devs + d;
        if |d| == 0 {
          return Err(ZeroDivision);
        }
        row := row[k := RealSum(d) / |d| as real];
      }
      j := j + 1;
    }
    r := Ok((row, devs));
  }

  /** `_take_variance(keys)`. */
  method VarianceOf(rec: Record, yl: seq<int>, keys: Option<seq<string>>) returns (r: Result<(Table, Docs)>)
    ensures r == VarianceTable(rec, yl, keys)
  {
    var avg := FreqTableOf(rec, yl, keys, true);
    if avg.Err? {
      return Err(avg.error);
    }
    if yl == [] {
      return Ok((map[], avg.value.1));
    }
    var ks := keys.value;
    var years := Periods(yl);
    var table := ZeroTable(yl, ks);
    ghost var goal := VarFrom(rec, years, ks, avg.value.0, table);
    var i := 0;
    while i < |years|
      invariant 0 <= i <= |years|
      invariant VarFrom(rec, years[i..], ks, avg.value.0, table) == goal
    {
      VarFromStep(rec, years, i, ks, avg.value.0, table);
      var y := years[i];
      if y !in rec {
        return Err(KeyError);
      }
      var row := VarPeriodOf(rec[y], ks, RowOf(avg.value.0, y));
      if row.Err? {
        return Err(row.error);
      }
      table := table[y := row.value];
      i := i + 1;
    }
    r := Ok((table, avg.value.1));
  }

  /** One step of the year loop of `_take_variance`. */
  lemma VarFromStep(rec: Record, years: seq<int>, i: nat, keys: seq<string>, avg: Table, table: Table)
    requires i < |years|
    ensures years[i] !in rec ==> VarFrom(rec, years[i..], keys, avg, table) == Err(KeyError)
    ensures years[i] in rec ==>
      var row := VarPeriod(rec[years[i]], keys, RowOf(avg, years[i]));
      && (row.Err? ==> VarFrom(rec, years[i..], keys, avg, table) == Err(row.error))
      && (row.Ok? ==> VarFrom(rec, years[i..], keys, avg, table) ==
                      VarFrom(rec, years[i + 1..], keys, avg, table[years[i] := row.value]))
  {
    assert years[i..][0] == years[i] && years[i..][1..] == years[i + 1..];
  }

  /** The body of the year loop of `_take_variance` for one period. */
  method VarPeriodOf(p: Period, keys: seq<string>, avg: map<string, real>) returns (r: Result<map<string, real>>)
    ensures r == VarPeriod(p, keys, avg)
  {
    var acc: Result<(map<string, real>, seq<real>)> := Ok((ZeroValues(keys), []));
    if p.totalWords > 0 {
      acc := VarKeysOf(p.fdist, keys, avg, ZeroValues(keys));
    }
    if acc.Err? {
      return Err(acc.error);
    }
    var (row, devs) := acc.value;
    if |devs| == 0 {
      return Err(ZeroDivision);
    }
    r := Ok(row["TOTAL" := RealSum(devs) / |devs| as real]);
  }

  // ---------------------------------------------------------------------
  // Top n

  /** The number of entries `top_n` asks `_top_n` for: `num` when the
      period has more documents than that, `NUM_DOCS` otherwise. */
  function Cap(p: Period, num: int): int {
    if p.numDocs > num then num else p.numDocs
  }

  /** The year loop of `top_n` in this revision, from the given periods on.
      `_top_n` divides each selected `FDIST` value by `TOTAL_WORDS`, but the
      values are count lists, so any non-empty selection raises
      `TypeError`; an empty one adds nothing. */
  function TopNFrom(rec: Record, years: seq<int>, num: int, docs: Docs): (r: Result<Docs>)
    requires forall y :: y in years ==> y in docs
    ensures r.Ok? <==> forall y :: y in years ==> y in rec && |Prefix(rec[y].fdist.keys, Cap(rec[y], num))| == 0
    ensures r.Err? ==> r.error == KeyError || r.error == TypeError
    ensures r.Ok? ==> r.value.Keys == docs.Keys
    ensures r.Ok? ==> forall y :: y in years ==> r.value[y] == rec[y].numDocs
    ensures r.Ok? ==> forall y :: y in docs && y !in years ==> r.value[y] == docs[y]
    decreases |years|
  {
    if years == [] then Ok(docs)
    else
      var y := years[0];
      if y !in rec then Err(KeyError)
      else if |Prefix(rec[y].fdist.keys, Cap(rec[y], num))| > 0 then Err(TypeError)
      else
        var r := TopNFrom(rec, years[1..], num, docs[y := rec[y].numDocs]);
        assert forall x :: x in years <==> x == y || x in years[1..];
        r
  }

  /** Word lists per period: (n-gram, percentage) pairs. */
  type TopLists = map<int, seq<(string, real)>>

  /** `top_n(n, num)` once the record exists: `list_dict(year_list)` and
      `num_dict(year_list)` filled by the year loop. */
  function TopNTable(rec: Record, yl: seq<int>, num: int): Result<(TopLists, Docs)> {
    var docs :- TopNFrom(rec, Periods(yl), num, ZeroDocs(yl));
    Ok((map y | y in yl :: [], docs))
  }

  /** `top_n` of this revision can only succeed by returning empty lists:
      it fails as soon as a period has an n-gram and at least one entry is
      asked for. */
  lemma TopNNeverLists(rec: Record, yl: seq<int>, num: int, y: int)
    requires y in Periods(yl) && y in rec && rec[y].numDocs >= 1 && num >= 1 && |rec[y].fdist.keys| >= 1
    ensures TopNTable(rec, yl, num).Err?
  {
    assert |Prefix(rec[y].fdist.keys, Cap(rec[y], num))| >= 1;
  }

  /** The year loop of `top_n`. */
  method TopNOf(rec: Record, yl: seq<int>, num: int) returns (r: Result<(TopLists, Docs)>)
    ensures r == TopNTable(rec, yl, num)
  {
    var years := Periods(yl);
    var words: TopLists := map y | y in yl :: [];
    var docs := ZeroDocs(yl);
    ghost var goal := TopNFrom(rec, years, num, docs);
    var i := 0;
    while i < |years|
      invariant 0 <= i <= |years| && docs.Keys == set y | y in yl
      invariant TopNFrom(rec, years[i..], num, docs) == goal
    {
      assert years[i..][0] == years[i] && years[i..][1..] == years[i + 1..];
      var y := years[i];
      if y !in rec {
        return Err(KeyError);
      }
      docs := docs[y := rec[y].numDocs];
      var top := Prefix(rec[y].fdist.keys, Cap(rec[y], num));
      if |top| > 0 {
        return Err(TypeError);
      }
      i := i + 1;
    }
    r := Ok((words, docs));
  }

  // ---------------------------------------------------------------------
  // The statistics object

  /** `Frequency(name, in_dir, text_type, year_list, date_key, stop_words)`.
      The directory is given as its files; the stop words as the set the
      constructor's `setup_stop_words` produces. */
  class Frequency {
    const name: string
    const files: seq<JsonFile>
    const textType: string
    const yearList: seq<int>
    const dateKey: string
    const stop: set<Key>
    /** `None` until the first statistic is asked for. */
    var frequencyRecord: Option<Record>

    ghost predicate Valid()
      reads this
    {
      frequencyRecord.Some? ==> RecordOk(frequencyRecord.value, yearList)
    }

    constructor(name: string, files: seq<JsonFile>, textType: string, yearList: seq<int>,
                dateKey: string, stop: set<Key>)
      ensures this.name == name && this.files == files && this.textType == textType
      ensures this.yearList == yearList && this.dateKey == dateKey && this.stop == stop
      ensures frequencyRecord == None && Valid()
    {
      this.name := name;
      this.files := files;
      this.textType := textType;
      this.yearList := yearList;
      this.dateKey := dateKey;
      this.stop := stop;
      frequencyRecord := None;
    }

    /** `set_frequency_record(n)`: read every volume, then clean. An
        exception leaves the old record in place. */
    method SetFrequencyRecord(n: nat) returns (r: Result<Record>)
      requires Valid()
      modifies this
      ensures Valid()
      ensures r == BuildRecord(files, yearList, dateKey, textType, stop, n)
      ensures r.Ok? ==> frequencyRecord == Some(r.value)
      ensures r.Err? ==> frequencyRecord == old(frequencyRecord)
    {
      var lists := new FrequencyLists(yearList, n);
      ghost var goal := Fold(Blank(yearList), yearList, dateKey, textType, stop, n, Volumes(files));
      var i := 0;
      while i < |files|
        invariant 0 <= i <= |files| && SlotsOk(lists.periods)
        invariant Fold(lists.periods, yearList, dateKey, textType, stop, n, Volumes(files[i..])) == goal
        invariant frequencyRecord == old(frequencyRecord)
      {
        var vols := FileVolumes(files[i]);
        VolumesAt(files, i);
        FoldAppend(lists.periods, yearList, dateKey, textType, stop, n, vols, Volumes(files[i + 1..]));
        var u := ReadVolumes(lists, yearList, dateKey, textType, stop, n, vols);
        if u.Err? {
          return Err(u.error);
        }
        i := i + 1;
      }
      assert goal == Ok(lists.periods);
      r := CleanRecords(lists.periods, yearList);
      if r.Ok? {
        BuildRecordOk(files, yearList, dateKey, textType, stop, n);
        frequencyRecord := Some(r.value);
      }
    }

    /** `take_freq(keys, name)`: the keyword arity first; a record is built
        on the first call, and any later call looks up `"__N__"` in the
        cleaned record, which no longer has it. */
    method TakeFreq(keys: Option<seq<string>>) returns (r: Result<(Table, Docs)>)
      requires Valid()
      modifies this
      ensures Valid()
      ensures DetectN(keys).Err? ==> r == Err(AssertionFailed) && frequencyRecord == old(frequencyRecord)
      ensures DetectN(keys).Ok? && old(frequencyRecord).Some? ==>
                r == Err(KeyError) && frequencyRecord == old(frequencyRecord)
      ensures DetectN(keys).Ok? && old(frequencyRecord).None? ==>
                var b := BuildRecord(files, yearList, dateKey, textType, stop, DetectN(keys).value);
                && (b.Err? ==> r == Err(b.error) && frequencyRecord == None)
                && (b.Ok? ==> frequencyRecord == Some(b.value) && r == FreqTable(b.value, yearList, keys, false))
    {
      var n := DetectN(keys);
      if n.Err? {
        return Err(n.error);
      }
      if frequencyRecord.Some? {
        return Err(KeyError);
      }
      var b := SetFrequencyRecord(n.value);
      if b.Err? {
        return Err(b.error);
      }
      r := FreqTableOf(b.value, yearList, keys, false);
    }

    /** `take_average_freq(keys, name)`: the record is built only when there
        is none. */
    method TakeAverageFreq(keys: Option<seq<string>>) returns (r: Result<(Table, Docs)>)
      requires Valid()
      modifies this
      ensures Valid()
      ensures DetectN(keys).Err? ==> r == Err(AssertionFailed) && frequencyRecord == old(frequencyRecord)
      ensures DetectN(keys).Ok? && old(frequencyRecord).Some? ==>
                r == FreqTable(old(frequencyRecord).value, yearList, keys, true) &&
                frequencyRecord == old(frequencyRecord)
      ensures DetectN(keys).Ok? && old(frequencyRecord).None? ==>
                var b := BuildRecord(files, yearList, dateKey, textType, stop, DetectN(keys).value);
                && (b.Err? ==> r == Err(b.error) && frequencyRecord == None)
                && (b.Ok? ==> frequencyRecord == Some(b.value) && r == FreqTable(b.value, yearList, keys, true))
    {
      var n := DetectN(keys);
      if n.Err? {
        return Err(n.error);
      }
      if frequencyRecord.None? {
        var b := SetFrequencyRecord(n.value);
        if b.Err? {
          return Err(b.error);
        }
      }
      r := FreqTableOf(frequencyRecord.value, yearList, keys, true);
    }

    /** `take_variance(keys, name)`. */
    method TakeVariance(keys: Option<seq<string>>) returns (r: Result<(Table, Docs)>)
      requires Valid()
      modifies this
      ensures Valid()
      ensures DetectN(keys).Err? ==> r == Err(AssertionFailed) && frequencyRecord == old(frequencyRecord)
      ensures DetectN(keys).Ok? && old(frequencyRecord).Some? ==>
                r == VarianceTable(old(frequencyRecord).value, yearList, keys) &&
                frequencyRecord == old(frequencyRecord)
      ensures DetectN(keys).Ok? && old(frequencyRecord).None? ==>
                var b := BuildRecord(files, yearList, dateKey, textType, stop, DetectN(keys).value);
                && (b.Err? ==> r == Err(b.error) && frequencyRecord == None)
                && (b.Ok? ==> frequencyRecord == Some(b.value) && r == VarianceTable(b.value, yearList, keys))
    {
      var n := DetectN(keys);
      if n.Err? {
        return Err(n.error);
      }
      if frequencyRecord.None? {
        var b := SetFrequencyRecord(n.value);
        if b.Err? {
          return Err(b.error);
        }
      }
      r := VarianceOf(frequencyRecord.value, yearList, keys);
    }

    /** `top_n(n, num)`: the record is built for `n` only when there is
        none; an existing record is used whatever n it was built for. */
    method TopN(n: nat, num: int) returns (r: Result<(TopLists, Docs)>)
      requires Valid()
      modifies this
      ensures Valid()
      ensures old(frequencyRecord).Some? ==>
                r == TopNTable(old(frequencyRecord).value, yearList, num) && frequencyRecord == old(frequencyRecord)
      ensures old(frequencyRecord).None? ==>
                var b := BuildRecord(files, yearList, dateKey, textType, stop, n);
                && (b.Err? ==> r == Err(b.error) && frequencyRecord == None)
                && (b.Ok? ==> frequencyRecord == Some(b.value) && r == TopNTable(b.value, yearList, num))
    {
      if frequencyRecord.None? {
        var b := SetFrequencyRecord(n);
        if b.Err? {
          return Err(b.error);
        }
      }
      r := TopNOf(frequencyRecord.value, yearList, num);
    }
  }
}
