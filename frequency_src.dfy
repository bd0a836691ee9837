/** src/nlp/frequency.py: the earlier revision of the frequency tables.

    It differs from corpus/nlp/frequency.py in that `FDIST` holds one summed
    count per n-gram instead of a list of per-volume counts, the year is
    read from `"Date"` or else `"Year Published"`, the record is built for
    the n of the keys passed to `set_frequency_record`, `_take_average_freq`
    has no guard for a missing key, and `top_n` really ranks the n-grams. */
module SrcFrequency {
  import opened Wrappers
  import opened PyStr
  import opened PyList
  import opened PyDict
  import opened Records
  import opened CorpusUtils
  import opened Sorting
  import C = CorpusFrequency

  type Ngram = seq<string>

  // ---------------------------------------------------------------------
  // One volume

  /** A period while the corpus is read: `0` until its first volume. */
  datatype Slot = Unfilled | Filled(fdist: Option<Dict<Ngram, nat>>, numDocs: nat, totalWords: nat)

  /** `FDIST` after the first volume of a period: recreated before every
      n-gram, so it keeps the last distinct n-gram only. */
  function LastCount(kws: seq<Ngram>, text: seq<Ngram>): (r: Option<Dict<Ngram, nat>>)
    ensures kws == [] <==> r.None?
    ensures r.Some? ==> r.value.Valid() && r.value.keys == [kws[|kws| - 1]]
    ensures r.Some? ==> r.value.m[kws[|kws| - 1]] == Count(text, kws[|kws| - 1])
  {
    if kws == [] then None
    else
      var kw := kws[|kws| - 1];
      Some(Dict([kw], map[kw := Count(text, kw)]))
  }

  /** `FDIST[kw]`, 0 where `+=` raised `KeyError`. */
  function Prev(fd: Dict<Ngram, nat>, kw: Ngram): nat {
    if kw in fd.m then fd.m[kw] else 0
  }

  /** `FDIST` after a later volume: each distinct n-gram's count is added. */
  function AddCounts(fd: Dict<Ngram, nat>, kws: seq<Ngram>, text: seq<Ngram>): (r: Dict<Ngram, nat>)
    requires fd.Valid()
    ensures r.Valid()
    decreases |kws|
  {
    if kws == [] then fd
    else AddCounts(AddOne(fd, kws[0], text), kws[1..], text)
  }

  /** `FDIST[kw] += volume.count(kw)`, starting from 0 for a new n-gram. */
  function AddOne(fd: Dict<Ngram, nat>, kw: Ngram, text: seq<Ngram>): (r: Dict<Ngram, nat>)
    requires fd.Valid()
    ensures r.Valid() && r.m == fd.m[kw := Prev(fd, kw) + Count(text, kw)]
  {
    Put(fd, kw, Prev(fd, kw) + Count(text, kw))
  }

  /** Every distinct n-gram of the volume has its count added once; every
      other n-gram keeps its sum. */
  lemma AddCountsEntries(fd: Dict<Ngram, nat>, kws: seq<Ngram>, text: seq<Ngram>)
    requires fd.Valid()
    requires forall i, j :: 0 <= i < j < |kws| ==> kws[i] != kws[j]
    ensures forall k :: k in AddCounts(fd, kws, text).m <==> k in fd.m || k in kws
    ensures forall k :: k in kws ==> AddCounts(fd, kws, text).m[k] == Prev(fd, k) + Count(text, k)
    ensures forall k :: k in fd.m && k !in kws ==> AddCounts(fd, kws, text).m[k] == fd.m[k]
  {
    forall k ensures k in AddCounts(fd, kws, text).m <==> k in fd.m || k in kws {
      AddCountsHas(fd, kws, text, k);
    }
    forall k | k in kws ensures AddCounts(fd, kws, text).m[k] == Prev(fd, k) + Count(text, k) {
      AddCountsValue(fd, kws, text, k);
    }
    forall k | k in fd.m && k !in kws ensures AddCounts(fd, kws, text).m[k] == fd.m[k] {
      AddCountsKeeps(fd, kws, text, k);
    }
  }

  lemma {:induction false} AddCountsHas(fd: Dict<Ngram, nat>, kws: seq<Ngram>, text: seq<Ngram>, k: Ngram)
    requires fd.Valid()
    ensures k in AddCounts(fd, kws, text).m <==> k in fd.m || k in kws
    decreases |kws|
  {
    if kws != [] {
      var fd' := AddOne(fd, kws[0], text);
      assert AddCounts(fd, kws, text) == AddCounts(fd', kws[1..], text);
      AddCountsHas(fd', kws[1..], text, k);
      assert kws == [kws[0]] + kws[1..];
    }
  }

  lemma {:induction false} AddCountsKeeps(fd: Dict<Ngram, nat>, kws: seq<Ngram>, text: seq<Ngram>, k: Ngram)
    requires fd.Valid() && k in fd.m && k !in kws
    ensures k in AddCounts(fd, kws, text).m && AddCounts(fd, kws, text).m[k] == fd.m[k]
    decreases |kws|
  {
    if kws != [] {
      var fd' := AddOne(fd, kws[0], text);
      assert k !in kws[1..];
      AddCountsKeeps(fd', kws[1..], text, k);
    }
  }

  lemma {:induction false} AddCountsValue(fd: Dict<Ngram, nat>, kws: seq<Ngram>, text: seq<Ngram>, k: Ngram)
    requires fd.Valid() && k in kws
    requires forall i, j :: 0 <= i < j < |kws| ==> kws[i] != kws[j]
    ensures k in AddCounts(fd, kws, text).m
    ensures AddCounts(fd, kws, text).m[k] == Prev(fd, k) + Count(text, k)
    decreases |kws|
  {
    var fd' := AddOne(fd, kws[0], text);
    var rest := kws[1..];
    if k == kws[0] {
      forall j | 0 <= j < |rest| ensures rest[j] != k {
        assert rest[j] == kws[j + 1];
      }
      AddCountsKeeps(fd', rest, text, k);
    } else {
      assert k in rest;
      assert Prev(fd', k) == Prev(fd, k);
      AddCountsValue(fd', rest, text, k);
    }
  }

  /** The year of a volume: `int(json_data["Date"])`, and
      `int(json_data["Year Published"])` only when there is no `"Date"`. */
  function ReadDate(vol: Volume): (r: Result<int>)
    ensures "Date" in vol ==> r == IntOf(vol["Date"])
    ensures "Date" !in vol && "Year Published" in vol ==> r == IntOf(vol["Year Published"])
    ensures "Date" !in vol && "Year Published" !in vol ==> r == Err(KeyError)
  {
    if "Date" in vol then IntOf(vol["Date"])
    else
      var j :- Get(vol, "Year Published");
      IntOf(j)
  }

  /** A `"Date"` that does not parse is an error even when `"Year
      Published"` would: only the missing key falls back. */
  lemma BadDateNoFallback(vol: Volume)
    requires "Date" in vol && vol["Date"].JNull? && "Year Published" in vol && vol["Year Published"].JInt?
    ensures ReadDate(vol) == Err(TypeError)
  {
  }

  ghost predicate SlotsOk(periods: map<int, Slot>) {
    forall y :: y in periods && periods[y].Filled? ==>
      periods[y].numDocs >= 1 && (periods[y].fdist.Some? ==> periods[y].fdist.value.Valid())
  }

  /** The period table after adding a volume's n-grams `text`, dated `year`. */
  function AddText(periods: map<int, Slot>, yl: seq<int>, year: int, text: seq<Ngram>): Result<map<int, Slot>>
    requires SlotsOk(periods)
  {
    var target :- DetermineYear(year, yl);
    if target !in periods then Err(KeyError)
    else
      var slot :- SlotAfter(periods[target], Distinct(text), text);
      Ok(periods[target := slot])
  }

  /** One period's slot after a volume whose distinct n-grams are `kws`: a
      period without documents starts its table afresh, one with documents
      adds to its sums; only a period whose `FDIST` was never filled in and
      a volume with n-grams raise `KeyError`. */
  function SlotAfter(slot: Slot, kws: seq<Ngram>, text: seq<Ngram>): (r: Result<Slot>)
    requires slot.Filled? && slot.fdist.Some? ==> slot.fdist.value.Valid()
    ensures r.Err? <==> slot.Filled? && slot.fdist.None? && kws != []
    ensures r.Ok? ==> r.value.Filled? && r.value.numDocs == (if slot.Filled? then slot.numDocs else 0) + 1
    ensures r.Ok? && r.value.fdist.Some? ==> r.value.fdist.value.Valid()
  {
    match slot
    case Unfilled =>
      Ok(Filled(LastCount(kws, text), 1, |text|))
    case Filled(fd, nd, tw) =>
      if fd.None? && kws != [] then Err(KeyError)
      else if fd.None? then Ok(Filled(None, nd + 1, tw + |text|))
      else Ok(Filled(Some(AddCounts(fd.value, kws, text)), nd + 1, tw + |text|))
  }

  /** `_update_frequency_lists(frequency_lists, json_data, n)`. */
  function UpdateSpec(periods: map<int, Slot>, yl: seq<int>, textType: string,
                      stop: set<Key>, n: nat, vol: Volume): Result<map<int, Slot>>
    requires SlotsOk(periods)
  {
    var year :- ReadDate(vol);
    var inside :- C.InRange(yl, year);
    if !inside then Ok(periods)
    else
      var text :- C.VolumeText(vol, textType, n, stop);
      AddText(periods, yl, year, text)
  }

  lemma UpdateKeepsSlotsOk(periods: map<int, Slot>, yl: seq<int>, textType: string,
                           stop: set<Key>, n: nat, vol: Volume)
    requires SlotsOk(periods)
    requires UpdateSpec(periods, yl, textType, stop, n, vol).Ok?
    ensures SlotsOk(UpdateSpec(periods, yl, textType, stop, n, vol).value)
    ensures UpdateSpec(periods, yl, textType, stop, n, vol).value.Keys == periods.Keys
  {
    var year := ReadDate(vol).value;
    if C.InRange(yl, year).value {
      AddTextKeepsSlotsOk(periods, yl, year, C.VolumeText(vol, textType, n, stop).value);
    }
  }

  lemma AddTextKeepsSlotsOk(periods: map<int, Slot>, yl: seq<int>, year: int, text: seq<Ngram>)
    requires SlotsOk(periods)
    requires AddText(periods, yl, year, text).Ok?
    ensures SlotsOk(AddText(periods, yl, year, text).value)
    ensures AddText(periods, yl, year, text).value.Keys == periods.Keys
  {
    var target := DetermineYear(year, yl).value;
    var p := AddText(periods, yl, year, text).value;
    assert p.Keys == periods.Keys;
    forall y | y in p && p[y].Filled?
      ensures p[y].numDocs >= 1 && (p[y].fdist.Some? ==> p[y].fdist.value.Valid())
    {
      if y != target {
        assert p[y] == periods[y];
      }
    }
  }

  /** Adding a volume to a period that has a summed `FDIST`: `NUM_DOCS` up
      by one, `TOTAL_WORDS` up by the n-grams kept, and each n-gram's sum up
      by its count in the volume; every other period is unchanged. */
  lemma {:induction false} AddTextEffect(periods: map<int, Slot>, yl: seq<int>, year: int, text: seq<Ngram>, target: int)
    requires SlotsOk(periods) && DetermineYear(year, yl) == Ok(target)
    requires AddText(periods, yl, year, text).Ok?
    ensures target in periods
    ensures var p := AddText(periods, yl, year, text).value;
      && p.Keys == periods.Keys
      && (forall y :: y in periods && y != target ==> p[y] == periods[y])
      && p[target].Filled?
      && p[target].numDocs == (if periods[target].Filled? then periods[target].numDocs else 0) + 1
      && p[target].totalWords == (if periods[target].Filled? then periods[target].totalWords else 0) + |text|
      && (periods[target].Unfilled? ==> p[target].fdist == LastCount(Distinct(text), text))
      && (periods[target].Filled? && periods[target].fdist.Some? ==>
            p[target].fdist.Some? &&
            (forall k :: k in p[target].fdist.value.m <==> k in periods[target].fdist.value.m || k in text) &&
            (forall k :: k in p[target].fdist.value.m ==>
               p[target].fdist.value.m[k] == Prev(periods[target].fdist.value, k) + Count(text, k)))
  {
    var kws := Distinct(text);
    if periods[target].Filled? && periods[target].fdist.Some? {
      var fd := periods[target].fdist.value;
      AddCountsEntries(fd, kws, text);
      forall k | k in fd.m && k !in kws ensures Count(text, k) == 0 {
        CountPositive(text, k);
      }
    }
  }

  /** The table after reading `vols` in order; the first error stops it. */
  function Fold(periods: map<int, Slot>, yl: seq<int>, textType: string,
                stop: set<Key>, n: nat, vols: seq<Volume>): Result<map<int, Slot>>
    requires SlotsOk(periods)
    decreases |vols|
  {
    if vols == [] then Ok(periods)
    else
      var p :- UpdateSpec(periods, yl, textType, stop, n, vols[0]);
      UpdateKeepsSlotsOk(periods, yl, textType, stop, n, vols[0]);
      Fold(p, yl, textType, stop, n, vols[1..])
  }

  lemma {:induction false} FoldKeepsSlotsOk(periods: map<int, Slot>, yl: seq<int>, textType: string,
                                            stop: set<Key>, n: nat, vols: seq<Volume>)
    requires SlotsOk(periods)
    requires Fold(periods, yl, textType, stop, n, vols).Ok?
    ensures SlotsOk(Fold(periods, yl, textType, stop, n, vols).value)
    ensures Fold(periods, yl, textType, stop, n, vols).value.Keys == periods.Keys
    decreases |vols|
  {
    if vols != [] {
      UpdateKeepsSlotsOk(periods, yl, textType, stop, n, vols[0]);
      var p := UpdateSpec(periods, yl, textType, stop, n, vols[0]).value;
      FoldKeepsSlotsOk(p, yl, textType, stop, n, vols[1..]);
    }
  }

  /** Reading `vols` one after the other is reading their concatenation. */
  lemma {:induction false} FoldAppend(periods: map<int, Slot>, yl: seq<int>, textType: string,
                                      stop: set<Key>, n: nat, a: seq<Volume>, b: seq<Volume>)
    requires SlotsOk(periods)
    ensures Fold(periods, yl, textType, stop, n, a + b) ==
            match Fold(periods, yl, textType, stop, n, a)
            case Err(e) => Err(e)
            case Ok(q) => (FoldKeepsSlotsOk(periods, yl, textType, stop, n, a);
                           Fold(q, yl, textType, stop, n, b))
    decreases |a|
  {
    if a == [] {
      assert a + b == b;
    } else {
      assert (a + b)[0] == a[0] && (a + b)[1..] == a[1..] + b;
      var u := UpdateSpec(periods, yl, textType, stop, n, a[0]);
      if u.Ok? {
        UpdateKeepsSlotsOk(periods, yl, textType, stop, n, a[0]);
        FoldAppend(u.value, yl, textType, stop, n, a[1..], b);
      }
    }
  }

  // ---------------------------------------------------------------------
  // The cleaned record

  datatype Period = Period(numDocs: nat, totalWords: nat, fdist: Dict<string, nat>)

  type Record = map<int, Period>

  function CleanSlot(periods: map<int, Slot>, y: int): (r: Result<Period>)
    requires SlotsOk(periods)
    ensures r.Ok? <==> y in periods && periods[y].Filled? && periods[y].fdist.Some?
    ensures y in periods && periods[y].Unfilled? ==> r == Err(TypeError)
    ensures r.Ok? ==> r.value.numDocs == periods[y].numDocs >= 1 && r.value.totalWords == periods[y].totalWords
  {
    if y !in periods then Err(KeyError)
    else match periods[y]
      case Unfilled => Err(TypeError)
      case Filled(fd, nd, tw) =>
        if fd.None? then Err(KeyError) else Ok(Period(nd, tw, C.JoinAll(fd.value)))
  }

  /** `_clean_records(freq_rec)`, from the given periods on. */
  function CleanFrom(periods: map<int, Slot>, years: seq<int>, acc: Record): (r: Result<Record>)
    requires SlotsOk(periods)
    ensures r.Ok? ==> r.value.Keys == acc.Keys + set y | y in years
    ensures r.Ok? ==> forall y :: y in years ==> CleanSlot(periods, y) == Ok(r.value[y])
    ensures r.Ok? ==> forall y :: y in acc && y !in years ==> r.value[y] == acc[y]
    ensures r.Ok? <==> forall y :: y in years ==> CleanSlot(periods, y).Ok?
    decreases |years|
  {
    if years == [] then Ok(acc)
    else
      var p :- CleanSlot(periods, years[0]);
      CleanFrom(periods, years[1..], acc[years[0] := p])
  }

  function Blank(yl: seq<int>): (r: map<int, Slot>)
    ensures SlotsOk(r)
  {
    map y | y in yl :: Unfilled
  }

  /** `set_frequency_record(keys)`: `num_dict` first, then the arity of
      the keys, then every volume, then the cleaning. */
  function BuildRecord(files: seq<JsonFile>, yl: seq<int>, textType: string,
                       stop: set<Key>, keys: Option<seq<string>>): Result<Record>
  {
    var n :- C.DetectN(keys);
    var periods :- Fold(Blank(yl), yl, textType, stop, n, Volumes(files));
    FoldKeepsSlotsOk(Blank(yl), yl, textType, stop, n, Volumes(files));
    CleanFrom(periods, C.Periods(yl), map[])
  }

  ghost predicate RecordOk(rec: Record, yl: seq<int>) {
    forall y :: y in C.Periods(yl) ==> y in rec && rec[y].numDocs >= 1
  }

  /** A record that builds has an entry with a document for every period. */
  lemma BuildRecordOk(files: seq<JsonFile>, yl: seq<int>, textType: string,
                      stop: set<Key>, keys: Option<seq<string>>)
    requires BuildRecord(files, yl, textType, stop, keys).Ok?
    ensures RecordOk(BuildRecord(files, yl, textType, stop, keys).value, yl)
    ensures BuildRecord(files, yl, textType, stop, keys).value.Keys == set y | y in C.Periods(yl)
  {
    var n := C.DetectN(keys).value;
    FoldKeepsSlotsOk(Blank(yl), yl, textType, stop, n, Volumes(files));
  }

  // ---------------------------------------------------------------------
  // Reading the corpus, in place

  /** The table of periods `frequency_lists` holds between volumes. */
  class FrequencyLists {
    var periods: map<int, Slot>

    /** `num_dict(self.year_list)`. */
    constructor(yl: seq<int>)
      ensures periods == Blank(yl)
    {
      periods := map y | y in yl :: Unfilled;
    }
  }

  method FirstFdist(kws: seq<Ngram>, text: seq<Ngram>) returns (fd: Option<Dict<Ngram, nat>>)
    ensures fd == LastCount(kws, text)
  {
    fd := None;
    var j := 0;
    while j < |kws|
      invariant 0 <= j <= |kws|
      invariant fd == LastCount(kws[..j], text)
    {
      var blank := Empty();
      fd := Some(Put(blank, kws[j], Count(text, kws[j])));
      assert kws[..j + 1][j] == kws[j] && fd.value.keys == [kws[j]];
      j := j + 1;
    }
    assert kws[..j] == kws;
  }

  method AddFdist(fd: Dict<Ngram, nat>, kws: seq<Ngram>, text: seq<Ngram>) returns (r: Dict<Ngram, nat>)
    requires fd.Valid()
    ensures r == AddCounts(fd, kws, text)
  {
    r := fd;
    var j := 0;
    while j < |kws|
      invariant 0 <= j <= |kws| && r.Valid()
      invariant AddCounts(r, kws[j..], text) == AddCounts(fd, kws, text)
    {
      assert kws[j..][0] == kws[j] && kws[j..][1..] == kws[j + 1..];
      r := AddOne(r, kws[j], text);
      j := j + 1;
    }
  }

  method AddToPeriod(lists: FrequencyLists, yl: seq<int>, year: int, text: seq<Ngram>) returns (r: Result<()>)
    requires SlotsOk(lists.periods)
    modifies lists
    ensures r.Ok? ==> AddText(old(lists.periods), yl, year, text) == Ok(lists.periods)
    ensures r.Err? ==> AddText(old(lists.periods), yl, year, text) == Err(r.error)
  {
    var target := DetermineYear(year, yl);
    if target.Err? {
      return Err(target.error);
    }
    var kws := Distinct(text);
    if target.value !in lists.periods {
      return Err(KeyError);
    }
    var t := target.value;
    var slot := NextSlot(lists.periods[t], kws, text);
    if slot.Err? {
      return Err(slot.error);
    }
    lists.periods := lists.periods[t := slot.value];
    r := Ok(());
  }

  /** The branch of `_update_frequency_lists` on the period's `NUM_DOCS`. */
  method NextSlot(slot: Slot, kws: seq<Ngram>, text: seq<Ngram>) returns (r: Result<Slot>)
    requires slot.Filled? && slot.fdist.Some? ==> slot.fdist.value.Valid()
    ensures r == SlotAfter(slot, kws, text)
  {
    match slot
    case Unfilled =>
      var fd := FirstFdist(kws, text);
      r := Ok(Filled(fd, 1, |text|));
    case Filled(fd, nd, tw) =>
      if fd.None? {
        if kws != [] {
          return Err(KeyError);
        }
        r := Ok(Filled(None, nd + 1, tw + |text|));
      } else {
        var fd' := AddFdist(fd.value, kws, text);
        r := Ok(Filled(Some(fd'), nd + 1, tw + |text|));
      }
  }

  /** `_update_frequency_lists(frequency_lists, json_data, n)`. */
  method UpdateFrequencyLists(lists: FrequencyLists, yl: seq<int>, textType: string,
                              stop: set<Key>, n: nat, vol: Volume) returns (r: Result<()>)
    requires SlotsOk(lists.periods)
    modifies lists
    ensures r.Ok? ==> UpdateSpec(old(lists.periods), yl, textType, stop, n, vol) == Ok(lists.periods)
    ensures r.Err? ==> UpdateSpec(old(lists.periods), yl, textType, stop, n, vol) == Err(r.error)
  {
    var year := ReadDate(vol);
    if year.Err? {
      return Err(year.error);
    }
    if yl == [] {
      return Err(IndexError);
    }
    if !(yl[0] <= year.value < yl[|yl| - 1]) {
      return Ok(());
    }
    var field := Get(vol, textType);
    if field.Err? {
      return Err(field.error);
    }
    var toks := Tokens(field.value);
    if toks.Err? {
      return Err(toks.error);
    }
    var text := DeleteInPlace(Ngrams(toks.value, n), TupleStops(stop));
    assert C.VolumeText(vol, textType, n, stop) == Ok(text);
    r := AddToPeriod(lists, yl, year.value, text);
  }

  method ReadVolumes(lists: FrequencyLists, yl: seq<int>, textType: string,
                     stop: set<Key>, n: nat, vols: seq<Volume>) returns (r: Result<()>)
    requires SlotsOk(lists.periods)
    modifies lists
    ensures r.Ok? ==> Fold(old(lists.periods), yl, textType, stop, n, vols) == Ok(lists.periods)
    ensures r.Ok? ==> SlotsOk(lists.periods)
    ensures r.Err? ==> Fold(old(lists.periods), yl, textType, stop, n, vols) == Err(r.error)
  {
    var i := 0;
    while i < |vols|
      invariant 0 <= i <= |vols| && SlotsOk(lists.periods)
      invariant Fold(lists.periods, yl, textType, stop, n, vols[i..]) ==
                Fold(old(lists.periods), yl, textType, stop, n, vols)
    {
      assert vols[i..][0] == vols[i] && vols[i..][1..] == vols[i + 1..];
      ghost var before := lists.periods;
      var u := UpdateFrequencyLists(lists, yl, textType, stop, n, vols[i]);
      if u.Err? {
        return Err(u.error);
      }
      UpdateKeepsSlotsOk(before, yl, textType, stop, n, vols[i]);
      i := i + 1;
    }
    r := Ok(());
  }

  /** The walk over the corpus directory, every file's volumes in turn. */
  method ReadFiles(lists: FrequencyLists, yl: seq<int>, textType: string,
                   stop: set<Key>, n: nat, files: seq<JsonFile>) returns (r: Result<()>)
    requires SlotsOk(lists.periods)
    modifies lists
    ensures r.Ok? ==> Fold(old(lists.periods), yl, textType, stop, n, Volumes(files)) == Ok(lists.periods)
    ensures r.Ok? ==> SlotsOk(lists.periods)
    ensures r.Err? ==> Fold(old(lists.periods), yl, textType, stop, n, Volumes(files)) == Err(r.error)
  {
    var i := 0;
    while i < |files|
      invariant 0 <= i <= |files| && SlotsOk(lists.periods)
      invariant Fold(lists.periods, yl, textType, stop, n, Volumes(files[i..])) ==
                Fold(old(lists.periods), yl, textType, stop, n, Volumes(files))
    {
      var vols := FileVolumes(files[i]);
      VolumesAt(files, i);
      FoldAppend(lists.periods, yl, textType, stop, n, vols, Volumes(files[i + 1..]));
      var u := ReadVolumes(lists, yl, textType, stop, n, vols);
      if u.Err? {
        return Err(u.error);
      }
      i := i + 1;
    }
    assert files[i..] == [];
    r := Ok(());
  }

  /** `_clean_records(freq_rec)`. */
  method CleanRecords(periods: map<int, Slot>, yl: seq<int>) returns (r: Result<Record>)
    requires SlotsOk(periods)
    ensures r == CleanFrom(periods, C.Periods(yl), map[])
  {
    var years := C.Periods(yl);
    var rec: Record := map[];
    var i := 0;
    while i < |years|
      invariant 0 <= i <= |years|
      invariant CleanFrom(periods, years[i..], rec) == CleanFrom(periods, years, map[])
    {
      assert years[i..][0] == years[i] && years[i..][1..] == years[i + 1..];
      var y := years[i];
      if y !in periods {
        return Err(KeyError);
      }
      match periods[y] {
        case Unfilled =>
          return Err(TypeError);
        case Filled(fd, nd, tw) =>
          if fd.None? {
            return Err(KeyError);
          }
          var joined := C.JoinFdist(fd.value);
          rec := rec[y := Period(nd, tw, joined)];
      }
      i := i + 1;
    }
    r := Ok(rec);
  }

  // ---------------------------------------------------------------------
  // Global frequency

  /** `FDIST[k]`, 0 for an n-gram the period never saw. */
  function KeyCount(p: Period, k: string): nat {
    if k in p.fdist.m then p.fdist.m[k] else 0
  }

  /** The running `total` over the keywords, repeats included. */
  function KeysTotal(p: Period, keys: seq<string>): nat
    decreases |keys|
  {
    if keys == [] then 0 else KeysTotal(p, keys[..|keys| - 1]) + KeyCount(p, keys[|keys| - 1])
  }

  /** The row after the keyword loop of `take_freq`. */
  function Found(p: Period, keys: seq<string>, row: map<string, real>): map<string, real>
    requires p.totalWords > 0
    decreases |keys|
  {
    if keys == [] then row
    else
      var r := Found(p, keys[..|keys| - 1], row);
      var k := keys[|keys| - 1];
      if k in p.fdist.m then r[k := p.fdist.m[k] as real / p.totalWords as real] else r
  }

  lemma {:induction false} FoundEntries(p: Period, keys: seq<string>, row: map<string, real>)
    requires p.totalWords > 0
    ensures forall k :: k in Found(p, keys, row) <==> k in row || (k in keys && k in p.fdist.m)
    ensures forall k :: k in keys && k in p.fdist.m ==>
              Found(p, keys, row)[k] == p.fdist.m[k] as real / p.totalWords as real
    ensures forall k :: k in row && !(k in keys && k in p.fdist.m) ==> Found(p, keys, row)[k] == row[k]
    decreases |keys|
  {
    if keys != [] {
      var init := keys[..|keys| - 1];
      FoundEntries(p, init, row);
      assert forall k :: k in keys <==> k in init || k == keys[|keys| - 1];
    }
  }

  /** A period's row of `take_freq`. */
  function GlobalValues(p: Period, keys: seq<string>): (r: map<string, real>)
    requires p.totalWords > 0
    ensures forall k :: k in r <==> k in C.RowKeys(keys)
  {
    FoundEntries(p, keys, C.ZeroValues(keys));
    Found(p, keys, C.ZeroValues(keys))["TOTAL" := KeysTotal(p, keys) as real / p.totalWords as real]
  }

  /** Each keyword found gets its count over `TOTAL_WORDS`, a keyword not
      found keeps 0, and `'TOTAL'` is the found counts over `TOTAL_WORDS`. */
  lemma GlobalValuesEntries(p: Period, keys: seq<string>)
    requires p.totalWords > 0
    ensures GlobalValues(p, keys)["TOTAL"] == KeysTotal(p, keys) as real / p.totalWords as real
    ensures forall k :: k in keys && k != "TOTAL" ==>
              GlobalValues(p, keys)[k] == KeyCount(p, k) as real / p.totalWords as real
  {
    var z := C.ZeroValues(keys);
    FoundEntries(p, keys, z);
    var f := Found(p, keys, z);
    forall k | k in keys && k != "TOTAL" ensures f[k] == KeyCount(p, k) as real / p.totalWords as real {
      assert k in z;
      if k !in p.fdist.m {
        assert f[k] == z[k] == 0.0;
      }
    }
  }

  lemma {:induction false} RowSumOfQuotients(p: Period, row: map<string, real>, keys: seq<string>)
    requires p.totalWords > 0
    requires forall k :: k in keys ==> k in row && row[k] == KeyCount(p, k) as real / p.totalWords as real
    ensures C.RowSum(row, keys) == KeysTotal(p, keys) as real / p.totalWords as real
    decreases |keys|
  {
    if keys != [] {
      var init := keys[..|keys| - 1];
      RowSumOfQuotients(p, row, init);
      C.DivideSum(KeysTotal(p, init) as real, KeyCount(p, keys[|keys| - 1]) as real, p.totalWords as real);
    }
  }

  /** For keywords without `'TOTAL'`, `'TOTAL'` is the sum of the keyword
      values. */
  lemma TotalIsSumOfValues(p: Period, keys: seq<string>)
    requires p.totalWords > 0 && "TOTAL" !in keys
    ensures GlobalValues(p, keys)["TOTAL"] == C.RowSum(GlobalValues(p, keys), keys)
  {
    GlobalValuesEntries(p, keys);
    RowSumOfQuotients(p, GlobalValues(p, keys), keys);
  }

  /** The year loop of `take_freq` from the given periods on. */
  function GlobalFrom(rec: Record, years: seq<int>, keys: seq<string>, table: C.Table, docs: C.Docs): (r: Result<(C.Table, C.Docs)>)
    requires docs.Keys == table.Keys && forall y :: y in years ==> y in table
    ensures r.Err? ==> r == Err(KeyError)
    ensures r.Ok? ==> r.value.0.Keys == table.Keys && r.value.1.Keys == docs.Keys
    decreases |years|
  {
    if years == [] then Ok((table, docs))
    else
      var y := years[0];
      if y !in rec then Err(KeyError)
      else if rec[y].totalWords == 0 then GlobalFrom(rec, years[1..], keys, table, docs)
      else GlobalFrom(rec, years[1..], keys, table[y := GlobalValues(rec[y], keys)], docs[y := rec[y].numDocs])
  }

  /** The year loop fails only on a period missing from the record; a
      period with words gets its row and `NUM_DOCS`, every other year keeps
      zeros. */
  lemma {:induction false} GlobalFromEntries(rec: Record, years: seq<int>, keys: seq<string>, table: C.Table, docs: C.Docs)
    requires docs.Keys == table.Keys && forall y :: y in years ==> y in table
    ensures GlobalFrom(rec, years, keys, table, docs).Ok? <==> forall y :: y in years ==> y in rec
    ensures var r := GlobalFrom(rec, years, keys, table, docs);
      r.Ok? ==> forall y :: y in years && rec[y].totalWords > 0 ==>
        r.value.0[y] == GlobalValues(rec[y], keys) && r.value.1[y] == rec[y].numDocs
    ensures var r := GlobalFrom(rec, years, keys, table, docs);
      r.Ok? ==> forall y :: y in table && (y !in years || (y in rec && rec[y].totalWords == 0)) ==>
        r.value.0[y] == table[y] && r.value.1[y] == docs[y]
    decreases |years|
  {
    if years != [] {
      var y := years[0];
      assert forall x :: x in years <==> x == y || x in years[1..];
      if y in rec {
        if rec[y].totalWords == 0 {
          GlobalFromEntries(rec, years[1..], keys, table, docs);
        } else {
          GlobalFromEntries(rec, years[1..], keys, table[y := GlobalValues(rec[y], keys)], docs[y := rec[y].numDocs]);
        }
      }
    }
  }

  /** `take_freq`'s tables for a record. */
  function GlobalTable(rec: Record, yl: seq<int>, keys: Option<seq<string>>): (r: Result<(C.Table, C.Docs)>)
    ensures yl == [] ==> r == Ok((map[], map[]))
    ensures yl != [] && keys.None? ==> r == Err(TypeError)
  {
    if yl == [] then Ok((map[], map[]))
    else if keys.None? then Err(TypeError)
    else GlobalFrom(rec, C.Periods(yl), keys.value, C.ZeroTable(yl, keys.value), C.ZeroDocs(yl))
  }

  /** On a built record, `take_freq` succeeds for any keyword list, and a
      period without words keeps an all-zero row. */
  lemma GlobalOnBuiltRecord(rec: Record, yl: seq<int>, keys: seq<string>, y: int)
    requires RecordOk(rec, yl) && y in yl
    requires y !in C.Periods(yl) || rec[y].totalWords == 0
    ensures GlobalTable(rec, yl, Some(keys)).Ok?
    ensures var t := GlobalTable(rec, yl, Some(keys)).value;
      y in t.0 && t.1[y] == 0 && forall k :: k in t.0[y] ==> t.0[y][k] == 0.0
  {
    GlobalFromEntries(rec, C.Periods(yl), keys, C.ZeroTable(yl, keys), C.ZeroDocs(yl));
  }

  method GlobalSums(p: Period, keys: seq<string>) returns (row: map<string, real>)
    requires p.totalWords > 0
    ensures row == GlobalValues(p, keys)
  {
    row := C.ZeroValues(keys);
    var total: nat := 0;
    var j := 0;
    while j < |keys|
      invariant 0 <= j <= |keys|
      invariant row == Found(p, keys[..j], C.ZeroValues(keys))
      invariant total == KeysTotal(p, keys[..j])
    {
      var k := keys[j];
      assert keys[..j + 1][..j] == keys[..j] && keys[..j + 1][j] == k;
      if k in p.fdist.m {
        total := total + p.fdist.m[k];
        row := row[k := p.fdist.m[k] as real / p.totalWords as real];
      }
      j := j + 1;
    }
    assert keys[..j] == keys;
    row := row["TOTAL" := total as real / p.totalWords as real];
  }

  /** The year loop of `take_freq`. */
  method GlobalTableOf(rec: Record, yl: seq<int>, keys: Option<seq<string>>) returns (r: Result<(C.Table, C.Docs)>)
    ensures r == GlobalTable(rec, yl, keys)
  {
    if yl == [] {
      return Ok((map[], map[]));
    }
    if keys.None? {
      return Err(TypeError);
    }
    var ks := keys.value;
    var years := C.Periods(yl);
    var table: C.Table, docs: C.Docs := C.ZeroTable(yl, ks), C.ZeroDocs(yl);
    ghost var goal := GlobalFrom(rec, years, ks, table, docs);
    var i := 0;
    while i < |years|
      invariant 0 <= i <= |years|
      invariant docs.Keys == table.Keys && forall y :: y in years ==> y in table
      invariant GlobalFrom(rec, years[i..], ks, table, docs) == goal
    {
      assert years[i..][0] == years[i] && years[i..][1..] == years[i + 1..];
      var y := years[i];
      if y !in rec {
        return Err(KeyError);
      }
      if rec[y].totalWords > 0 {
        var row := GlobalSums(rec[y], ks);
        table := table[y := row];
        docs := docs[y := rec[y].numDocs];
      }
      i := i + 1;
    }
    r := Ok((table, docs));
  }

  // ---------------------------------------------------------------------
  // Average frequency

  /** The keyword loop of `_take_average_freq` for a period with words,
      from the given keywords on: there is no guard, so a keyword missing
      from `FDIST` raises `KeyError`, and `NUM_DOCS` of 0 divides by zero. */
  function AvgKeys(p: Period, keys: seq<string>, row: map<string, real>, total: nat, docSet: bool):
    (r: Result<(map<string, real>, nat, bool)>)
    decreases |keys|
  {
    if keys == [] then Ok((row, total, docSet))
    else
      var k := keys[0];
      if k !in p.fdist.m then Err(KeyError)
      else if p.numDocs == 0 then Err(ZeroDivision)
      else AvgKeys(p, keys[1..], row[k := p.fdist.m[k] as real / p.numDocs as real], total + p.fdist.m[k], true)
  }

  /** The year loop of `_take_average_freq` from the given periods on. A
      period's `num_docs` entry is written inside the keyword loop, so an
      empty keyword list leaves it 0. */
  function AvgFrom(rec: Record, years: seq<int>, keys: seq<string>, table: C.Table, docs: C.Docs): Result<(C.Table, C.Docs)>
    decreases |years|
  {
    if years == [] then Ok((table, docs))
    else
      var y := years[0];
      if y !in rec then Err(KeyError)
      else if rec[y].totalWords == 0 then AvgFrom(rec, years[1..], keys, table, docs)
      else
        var acc :- AvgKeys(rec[y], keys, if y in table then table[y] else map[], 0, false);
        if rec[y].numDocs == 0 then Err(ZeroDivision)
        else
          var row := acc.0["TOTAL" := acc.1 as real / rec[y].numDocs as real];
          AvgFrom(rec, years[1..], keys, table[y := row], if acc.2 then docs[y := rec[y].numDocs] else docs)
  }

  /** `_take_average_freq(keys)` for a record. */
  function AverageTable(rec: Record, yl: seq<int>, keys: Option<seq<string>>): (r: Result<(C.Table, C.Docs)>)
    ensures yl == [] ==> r == Ok((map[], map[]))
    ensures yl != [] && keys.None? ==> r == Err(TypeError)
  {
    if yl == [] then Ok((map[], map[]))
    else if keys.None? then Err(TypeError)
    else AvgFrom(rec, C.Periods(yl), keys.value, C.ZeroTable(yl, keys.value), C.ZeroDocs(yl))
  }

  lemma {:induction false} AvgKeysMissing(p: Period, keys: seq<string>, row: map<string, real>, total: nat, docSet: bool, k: string)
    requires k in keys && k !in p.fdist.m
    ensures AvgKeys(p, keys, row, total, docSet).Err?
    decreases |keys|
  {
    if keys[0] != k {
      assert k in keys[1..];
      if keys[0] in p.fdist.m && p.numDocs > 0 {
        var k0 := keys[0];
        AvgKeysMissing(p, keys[1..], row[k0 := p.fdist.m[k0] as real / p.numDocs as real], total + p.fdist.m[k0], true, k);
      }
    }
  }

  lemma {:induction false} AvgFromFails(rec: Record, years: seq<int>, keys: seq<string>, table: C.Table, docs: C.Docs,
                                        y: int, k: string)
    requires y in years && y in rec && rec[y].totalWords > 0 && k in keys && k !in rec[y].fdist.m
    ensures AvgFrom(rec, years, keys, table, docs).Err?
    decreases |years|
  {
    var x := years[0];
    if x == y {
      AvgKeysMissing(rec[y], keys, if y in table then table[y] else map[], 0, false, k);
    } else if x in rec {
      assert y in years[1..];
      if rec[x].totalWords == 0 {
        AvgFromFails(rec, years[1..], keys, table, docs, y, k);
      } else {
        var acc := AvgKeys(rec[x], keys, if x in table then table[x] else map[], 0, false);
        if acc.Ok? && rec[x].numDocs > 0 {
          var row := acc.value.0["TOTAL" := acc.value.1 as real / rec[x].numDocs as real];
          AvgFromFails(rec, years[1..], keys, table[x := row],
                       if acc.value.2 then docs[x := rec[x].numDocs] else docs, y, k);
        }
      }
    }
  }

  /** Unlike `take_freq`, the average fails as soon as a period with words
      lacks one of the keywords. */
  lemma AverageMissingKeyFails(rec: Record, yl: seq<int>, keys: seq<string>, y: int, k: string)
    requires y in C.Periods(yl) && y in rec && rec[y].totalWords > 0 && k in keys && k !in rec[y].fdist.m
    ensures AverageTable(rec, yl, Some(keys)).Err?
  {
    AvgFromFails(rec, C.Periods(yl), keys, C.ZeroTable(yl, keys), C.ZeroDocs(yl), y, k);
  }

  lemma {:induction false} AvgKeysEmpty(p: Period, row: map<string, real>, total: nat)
    ensures AvgKeys(p, [], row, total, false) == Ok((row, total, false))
  {
  }

  /** With no keywords, a period's `num_docs` entry is never written. */
  lemma {:induction false} AvgFromNoKeys(rec: Record, years: seq<int>, table: C.Table, docs: C.Docs)
    requires AvgFrom(rec, years, [], table, docs).Ok?
    ensures AvgFrom(rec, years, [], table, docs).value.1 == docs
    decreases |years|
  {
    if years != [] {
      var y := years[0];
      if rec[y].totalWords == 0 {
        AvgFromNoKeys(rec, years[1..], table, docs);
      } else {
        var row := (if y in table then table[y] else map[])["TOTAL" := 0 as real / rec[y].numDocs as real];
        AvgFromNoKeys(rec, years[1..], table[y := row], docs);
      }
    }
  }

  method AvgKeysOf(p: Period, keys: seq<string>, row0: map<string, real>) returns (r: Result<(map<string, real>, nat, bool)>)
    ensures r == AvgKeys(p, keys, row0, 0, false)
  {
    var row, total, docSet := row0, 0, false;
    var j := 0;
    while j < |keys|
      invariant 0 <= j <= |keys|
      invariant AvgKeys(p, keys[j..], row, total, docSet) == AvgKeys(p, keys, row0, 0, false)
    {
      assert keys[j..][0] == keys[j] && keys[j..][1..] == keys[j + 1..];
      var k := keys[j];
      if k !in p.fdist.m {
        return Err(KeyError);
      }
      total := total + p.fdist.m[k];
      if p.numDocs == 0 {
        return Err(ZeroDivision);
      }
      row := row[k := p.fdist.m[k] as real / p.numDocs as real];
      docSet := true;
      j := j + 1;
    }
    r := Ok((row, total, docSet));
  }

  /** `_take_average_freq(keys)`. */
  method AverageTableOf(rec: Record, yl: seq<int>, keys: Option<seq<string>>) returns (r: Result<(C.Table, C.Docs)>)
    ensures r == AverageTable(rec, yl, keys)
  {
    if yl == [] {
      return Ok((map[], map[]));
    }
    if keys.None? {
      return Err(TypeError);
    }
    var ks := keys.value;
    var years := C.Periods(yl);
    var table: C.Table, docs: C.Docs := C.ZeroTable(yl, ks), C.ZeroDocs(yl);
    ghost var goal := AvgFrom(rec, years, ks, table, docs);
    var i := 0;
    while i < |years|
      invariant 0 <= i <= |years|
      invariant AvgFrom(rec, years[i..], ks, table, docs) == goal
    {
      assert years[i..][0] == years[i] && years[i..][1..] == years[i + 1..];
      var y := years[i];
      if y !in rec {
        return Err(KeyError);
      }
      if rec[y].totalWords > 0 {
        var acc := AvgKeysOf(rec[y], ks, if y in table then table[y] else map[]);
        if acc.Err? {
          return Err(acc.error);
        }
        if rec[y].numDocs == 0 {
          return Err(ZeroDivision);
        }
        var (row, total, docSet) := acc.value;
        table := table[y := row["TOTAL" := total as real / rec[y].numDocs as real]];
        if docSet {
          docs := docs[y := rec[y].numDocs];
        }
      }
      i := i + 1;
    }
    r := Ok((table, docs));
  }

  // ---------------------------------------------------------------------
  // Top n

  /** `fdist.get`, 0 for a key the dict does not hold. */
  function CountOf(fd: Dict<string, nat>, k: string): nat {
    if k in fd.m then fd.m[k] else 0
  }

  /** The order of `sorted(fdist, key=fdist.get, reverse=True)`: a key goes
      first when its count is at least the other's. */
  function ByCountDesc(fd: Dict<string, nat>): (string, string) -> bool {
    (a: string, b: string) => CountOf(fd, a) >= CountOf(fd, b)
  }

  lemma ByCountDescPreorder(fd: Dict<string, nat>)
    ensures TotalPreorder(ByCountDesc(fd))
  {
  }

  /** `_top_n(fdist, num, total_words)`: the keys by descending count,
      ties in `fdist` order, cut with `[:num]`, each paired with its count
      as a percentage of `total_words`. */
  function TopEntries(fd: Dict<string, nat>, num: int, totalWords: nat): (r: Result<seq<(string, real)>>)
    ensures r.Err? <==> totalWords == 0 && |Prefix(fd.keys, num)| > 0
    ensures r.Err? ==> r.error == ZeroDivision
    ensures r.Ok? ==> |r.value| == |Prefix(fd.keys, num)|
  {
    var top := TopKeys(fd, num);
    if |top| > 0 && totalWords == 0 then Err(ZeroDivision)
    else Ok(seq(|top|, i requires 0 <= i < |top| =>
                  (top[i], CountOf(fd, top[i]) as real / totalWords as real * 100.0)))
  }

  /** What `_top_n` promises: entries in non-increasing count order, each
      with its own count's percentage, drawn from `fdist` without repeats,
      and the n-grams of equal count in their `fdist` order. */
  lemma TopEntriesRanked(fd: Dict<string, nat>, num: int, totalWords: nat)
    requires fd.Valid() && totalWords > 0
    ensures var e := TopEntries(fd, num, totalWords).value;
      && (forall i, j :: 0 <= i < j < |e| ==> CountOf(fd, e[i].0) >= CountOf(fd, e[j].0))
      && (forall i :: 0 <= i < |e| ==>
            e[i].0 in fd.m && e[i].1 == CountOf(fd, e[i].0) as real / totalWords as real * 100.0)
      && (forall i, j :: 0 <= i < j < |e| ==> e[i].0 != e[j].0)
    ensures forall c :: Ties(Sort(fd.keys, ByCountDesc(fd)), ByCountDesc(fd), c) == Ties(fd.keys, ByCountDesc(fd), c)
  {
    var top := TopKeys(fd, num);
    TopKeysRanked(fd, num);
    var e := TopEntries(fd, num, totalWords).value;
    assert |e| == |top|;
    forall i | 0 <= i < |e|
      ensures e[i].0 == top[i] && e[i].1 == CountOf(fd, top[i]) as real / totalWords as real * 100.0
    {
    }
    forall i, j | 0 <= i < j < |e| ensures CountOf(fd, e[i].0) >= CountOf(fd, e[j].0) && e[i].0 != e[j].0 {
      assert e[i].0 == top[i] && e[j].0 == top[j];
    }
  }

  /** The keys `_top_n` keeps: `fdist`'s keys by descending count, cut
      with `[:num]`. */
  function TopKeys(fd: Dict<string, nat>, num: int): seq<string> {
    Prefix(Sort(fd.keys, ByCountDesc(fd)), num)
  }

  /** The kept keys are in non-increasing count order, from `fdist`,
      without repeats, and ties keep their `fdist` order. */
  lemma TopKeysRanked(fd: Dict<string, nat>, num: int)
    requires fd.Valid()
    ensures forall i, j :: 0 <= i < j < |TopKeys(fd, num)| ==>
              CountOf(fd, TopKeys(fd, num)[i]) >= CountOf(fd, TopKeys(fd, num)[j])
    ensures forall i :: 0 <= i < |TopKeys(fd, num)| ==> TopKeys(fd, num)[i] in fd.m
    ensures forall i, j :: 0 <= i < j < |TopKeys(fd, num)| ==> TopKeys(fd, num)[i] != TopKeys(fd, num)[j]
    ensures forall c :: Ties(Sort(fd.keys, ByCountDesc(fd)), ByCountDesc(fd), c) == Ties(fd.keys, ByCountDesc(fd), c)
  {
    var sorted := Sort(fd.keys, ByCountDesc(fd));
    ByCountDescPreorder(fd);
    SortSorted(fd.keys, ByCountDesc(fd));
    forall c ensures Ties(sorted, ByCountDesc(fd), c) == Ties(fd.keys, ByCountDesc(fd), c) {
      SortStable(fd.keys, ByCountDesc(fd), c);
    }
    var top := TopKeys(fd, num);
    assert top == sorted[..|top|];
    forall i | 0 <= i < |top| ensures top[i] in fd.m {
      assert top[i] in multiset(sorted);
    }
    SortedDistinct(fd.keys, sorted);
  }

  /** A permutation of a list without repeats has none. */
  lemma SortedDistinct(s: seq<string>, t: seq<string>)
    requires multiset(t) == multiset(s)
    requires forall i, j :: 0 <= i < j < |s| ==> s[i] != s[j]
    ensures forall i, j :: 0 <= i < j < |t| ==> t[i] != t[j]
  {
    forall i, j | 0 <= i < j < |t| ensures t[i] != t[j] {
      if t[i] == t[j] {
        assert t == t[..i] + [t[i]] + t[i + 1..j] + [t[j]] + t[j + 1..];
        assert multiset(t)[t[i]] >= 2;
        MultisetOfDistinct(s, t[i]);
      }
    }
  }

  lemma {:induction false} MultisetOfDistinct(s: seq<string>, x: string)
    requires forall i, j :: 0 <= i < j < |s| ==> s[i] != s[j]
    ensures multiset(s)[x] <= 1
    decreases |s|
  {
    if s != [] {
      assert s == [s[0]] + s[1..];
      MultisetOfDistinct(s[1..], x);
      if s[0] == x {
        assert x !in s[1..] by {
          forall j | 0 <= j < |s[1..]| ensures s[1..][j] != s[0] {
            assert s[1..][j] == s[j + 1];
          }
        }
      }
    }
  }

  /** With at least `num` n-grams and `num` ≥ 0, exactly `num` entries come
      back; with fewer, all of them. */
  lemma TopEntriesLength(fd: Dict<string, nat>, num: nat, totalWords: nat)
    requires totalWords > 0
    ensures |TopEntries(fd, num, totalWords).value| == if num < |fd.keys| then num else |fd.keys|
  {
  }

  /** The year loop of `top_n` from the given periods on: `num` entries when
      the period has more documents than `num`, otherwise `NUM_DOCS`
      entries, appended to the period's list. */
  function TopFrom(rec: Record, years: seq<int>, num: int, words: C.TopLists, docs: C.Docs): Result<(C.TopLists, C.Docs)>
    decreases |years|
  {
    if years == [] then Ok((words, docs))
    else
      var y := years[0];
      if y !in rec then Err(KeyError)
      else
        var p := rec[y];
        var cap := if p.numDocs > num then num else p.numDocs;
        var top :- TopEntries(p.fdist, cap, p.totalWords);
        TopFrom(rec, years[1..], num, words[y := (if y in words then words[y] else []) + top], docs[y := p.numDocs])
  }

  /** `top_n(num)` once a record exists. */
  function TopTable(rec: Record, yl: seq<int>, num: int): Result<(C.TopLists, C.Docs)> {
    TopFrom(rec, C.Periods(yl), num, map y | y in yl :: [], C.ZeroDocs(yl))
  }

  /** Each period's list is capped by its number of documents, not by its
      vocabulary: a period with one document yields at most one entry. */
  lemma TopCappedByDocs(p: Period, num: nat)
    requires p.totalWords > 0
    ensures var cap := if p.numDocs > num then num else p.numDocs;
      |TopEntries(p.fdist, cap, p.totalWords).value| <= p.numDocs
  {
  }

  /** The year loop of `top_n`. */
  method TopTableOf(rec: Record, yl: seq<int>, num: int) returns (r: Result<(C.TopLists, C.Docs)>)
    ensures r == TopTable(rec, yl, num)
  {
    var years := C.Periods(yl);
    var words: C.TopLists := map y | y in yl :: [];
    var docs: C.Docs := C.ZeroDocs(yl);
    ghost var goal := TopFrom(rec, years, num, words, docs);
    var i := 0;
    while i < |years|
      invariant 0 <= i <= |years|
      invariant TopFrom(rec, years[i..], num, words, docs) == goal
    {
      assert years[i..][0] == years[i] && years[i..][1..] == years[i + 1..];
      var y := years[i];
      if y !in rec {
        return Err(KeyError);
      }
      var p := rec[y];
      ghost var docs0 := docs;
      docs := docs[y := p.numDocs];
      var cap := if p.numDocs > num then num else p.numDocs;
      var top := TopEntries(p.fdist, cap, p.totalWords);
      if top.Err? {
        return Err(top.error);
      }
      ghost var before := words;
      words := words[y := (if y in words then words[y] else []) + top.value];
      assert TopFrom(rec, years[i..], num, before, docs0) == TopFrom(rec, years[i + 1..], num, words, docs);
      i := i + 1;
    }
    r := Ok((words, docs));
  }

  // ---------------------------------------------------------------------
  // The statistics object

  /** `Frequency(name, in_dir, text_type, year_list, stop_words)`. */
  class Frequency {
    const name: string
    const files: seq<JsonFile>
    const textType: string
    const yearList: seq<int>
    const stop: set<Key>
    var frequencyRecord: Option<Record>

    ghost predicate Valid()
      reads this
    {
      frequencyRecord.Some? ==> RecordOk(frequencyRecord.value, yearList)
    }

    /** The stop-word argument is set up as `SetupStopWords` says; a path's
        words are read by the caller and passed as `fileWords`. */
    constructor(name: string, files: seq<JsonFile>, textType: string, yearList: seq<int>,
                stopWords: StopArg, fileWords: seq<string>)
      ensures this.name == name && this.files == files && this.textType == textType
      ensures this.yearList == yearList && this.stop == SetupStopWords(stopWords, fileWords)
      ensures frequencyRecord == None && Valid()
    {
      this.name := name;
      this.files := files;
      this.textType := textType;
      this.yearList := yearList;
      this.stop := SetupStopWords(stopWords, fileWords);
      frequencyRecord := None;
    }

    /** `set_frequency_record(keys)`. */
    method SetFrequencyRecord(keys: Option<seq<string>>) returns (r: Result<Record>)
      requires Valid()
      modifies this
      ensures Valid()
      ensures r == BuildRecord(files, yearList, textType, stop, keys)
      ensures r.Ok? ==> frequencyRecord == Some(r.value)
      ensures r.Err? ==> frequencyRecord == old(frequencyRecord)
    {
      var lists := new FrequencyLists(yearList);
      var n := C.DetectN(keys);
      if n.Err? {
        return Err(n.error);
      }
      var u := ReadFiles(lists, yearList, textType, stop, n.value, files);
      if u.Err? {
        return Err(u.error);
      }
      r := CleanRecords(lists.periods, yearList);
      if r.Ok? {
        BuildRecordOk(files, yearList, textType, stop, keys);
        frequencyRecord := Some(r.value);
      }
    }

    /** `take_freq(keys, name)`: the record is built, for these keys, only
        when there is none. */
    method TakeFreq(keys: Option<seq<string>>) returns (r: Result<(C.Table, C.Docs)>)
      requires Valid()
      modifies this
      ensures Valid()
      ensures old(frequencyRecord).Some? ==>
                r == GlobalTable(old(frequencyRecord).value, yearList, keys) && frequencyRecord == old(frequencyRecord)
      ensures old(frequencyRecord).None? ==>
                var b := BuildRecord(files, yearList, textType, stop, keys);
                && (b.Err? ==> r == Err(b.error) && frequencyRecord == None)
                && (b.Ok? ==> frequencyRecord == Some(b.value) && r == GlobalTable(b.value, yearList, keys))
    {
      if frequencyRecord.None? {
        var b := SetFrequencyRecord(keys);
        if b.Err? {
          return Err(b.error);
        }
      }
      r := GlobalTableOf(frequencyRecord.value, yearList, keys);
    }

    /** `take_average_freq(keys)`. */
    method TakeAverageFreq(keys: Option<seq<string>>) returns (r: Result<(C.Table, C.Docs)>)
      requires Valid()
      modifies this
      ensures Valid()
      ensures old(frequencyRecord).Some? ==>
                r == AverageTable(old(frequencyRecord).value, yearList, keys) && frequencyRecord == old(frequencyRecord)
      ensures old(frequencyRecord).None? ==>
                var b := BuildRecord(files, yearList, textType, stop, keys);
                && (b.Err? ==> r == Err(b.error) && frequencyRecord == None)
                && (b.Ok? ==> frequencyRecord == Some(b.value) && r == AverageTable(b.value, yearList, keys))
    {
      if frequencyRecord.None? {
        var b := SetFrequencyRecord(keys);
        if b.Err? {
          return Err(b.error);
        }
      }
      r := AverageTableOf(frequencyRecord.value, yearList, keys);
    }

    /** `top_n(num)`: without a record it calls `set_frequency_record()`
        without its `keys` argument, a `TypeError`. */
    method TopN(num: int) returns (r: Result<(C.TopLists, C.Docs)>)
      requires Valid()
      ensures frequencyRecord.None? ==> r == Err(TypeError)
      ensures frequencyRecord.Some? ==> r == TopTable(frequencyRecord.value, yearList, num)
    {
      if frequencyRecord.None? {
        return Err(TypeError);
      }
      r := TopTableOf(frequencyRecord.value, yearList, num);
    }
  }
}
