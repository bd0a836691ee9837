/** corpus/utils.py: keyword tuples, the empty result tables that the
    statistics fill in, and the lookup of the period a year falls into.

    A period list `year_list` holds boundaries `b_0, b_1, …, b_m`; period `i`
    is the half-open range `[b_i, b_{i+1})` and is named by its lower bound. */
module CorpusUtils {
  import opened Wrappers
  import opened PyStr
  import opened PyList
  import opened PyDict

  /** A keyword tuple: the whitespace tokens of a keyword string. */
  type Keyword = seq<string>

  /** `build_keys`: one tuple per keyword string, in order, each the string's
      whitespace split; each tuple holds non-empty, blank-free tokens. */
  function BuildKeys(keys: seq<string>): (r: seq<Keyword>)
    ensures |r| == |keys|
    ensures forall i :: 0 <= i < |r| ==> r[i] == Words(keys[i])
    ensures forall i, j :: 0 <= i < |r| && 0 <= j < |r[i]| ==> IsWord(r[i][j])
  {
    seq(|keys|, i requires 0 <= i < |keys| => Words(keys[i]))
  }

  /** Space-joining a keyword tuple and building keys from the result gives
      the tuple back, so the joined strings used as result keys name their
      tuples without loss. */
  lemma BuildKeysJoin(ks: seq<Keyword>)
    requires forall i, j :: 0 <= i < |ks| && 0 <= j < |ks[i]| ==> IsWord(ks[i][j])
    ensures BuildKeys(seq(|ks|, i requires 0 <= i < |ks| => Join(" ", ks[i]))) == ks
  {
    var strs := seq(|ks|, i requires 0 <= i < |ks| => Join(" ", ks[i]));
    forall i | 0 <= i < |ks| ensures Words(strs[i]) == ks[i] {
      WordsJoin(ks[i]);
    }
  }

  // ---------------------------------------------------------------------
  // Empty result tables

  /** A leaf of a result table, or the per-keyword table one level down. */
  datatype Entry<L> = Leaf(v: L) | Nested(m: map<string, L>)

  /** The per-keyword table of `num_dict(…, nested=1)`: `'TOTAL'` and every
      keyword, each 0. */
  ghost predicate ZeroTable(m: map<string, int>, kws: seq<string>) {
    && (forall k :: k in m <==> k == "TOTAL" || k in kws)
    && (forall k :: k in m ==> m[k] == 0)
  }

  /** The per-keyword table of `list_dict(…, nested=1)`: every keyword, and
      `'TOTAL'` only when there is a keyword, each `[]`. */
  ghost predicate EmptyListTable<T>(m: map<string, seq<T>>, kws: seq<string>) {
    && (forall k :: k in m <==> (k == "TOTAL" && |kws| > 0) || k in kws)
    && (forall k :: k in m ==> m[k] == [])
  }

  /** The inner loop of `num_dict` for one year. */
  method ZeroTableFor(kws: seq<string>) returns (inner: map<string, int>)
    ensures ZeroTable(inner, kws)
  {
    inner := map["TOTAL" := 0];
    var j := 0;
    while j < |kws|
      invariant 0 <= j <= |kws|
      invariant ZeroTable(inner, kws[..j])
    {
      assert kws[..j + 1] == kws[..j] + [kws[j]];
      inner := inner[kws[j] := 0];
      j := j + 1;
    }
    assert kws[..j] == kws;
  }

  /** The inner loop of `list_dict` for one year: `'TOTAL'` is (re)written on
      every pass, so it appears only once a keyword has been seen. */
  method EmptyListTableFor<T>(kws: seq<string>) returns (inner: map<string, seq<T>>)
    ensures EmptyListTable(inner, kws)
  {
    inner := map[];
    var j := 0;
    while j < |kws|
      invariant 0 <= j <= |kws|
      invariant EmptyListTable(inner, kws[..j])
    {
      assert kws[..j + 1] == kws[..j] + [kws[j]];
      inner := inner["TOTAL" := []];
      inner := inner[kws[j] := []];
      j := j + 1;
    }
    assert kws[..j] == kws;
  }

  /** What `num_dict` stores under each year, once the keyword loop ran. */
  ghost predicate NumEntryOk(e: Entry<int>, keywords: Option<seq<string>>, nested: Option<int>) {
    && (nested == Some(0) ==> e == Leaf(0))
    && (nested == Some(1) && keywords.Some? ==> e.Nested? && ZeroTable(e.m, keywords.value))
  }

  /** What `list_dict` stores under each year. */
  ghost predicate ListEntryOk<T>(e: Entry<seq<T>>, keywords: Option<seq<string>>, nested: Option<int>) {
    && (nested == Some(0) ==> e == Leaf([]))
    && (nested == Some(1) && keywords.Some? ==> e.Nested? && EmptyListTable(e.m, keywords.value))
  }

  /** The value `num_dict` stores under each year. */
  method NumEntry(keywords: Option<seq<string>>, nested: Option<int>) returns (e: Result<Entry<int>>)
    ensures nested == Some(0) ==> e == Ok(Leaf(0))
    ensures nested == Some(1) && keywords.None? ==> e == Err(TypeError)
    ensures nested == Some(1) && keywords.Some? ==> e.Ok? && e.value.Nested? && ZeroTable(e.value.m, keywords.value)
    ensures nested != Some(0) && nested != Some(1) ==> e == Err(Exit)
  {
    if nested == Some(0) {
      e := Ok(Leaf(0));
    } else if nested == Some(1) {
      if keywords.None? {
        return Err(TypeError);
      }
      var inner := ZeroTableFor(keywords.value);
      e := Ok(Nested(inner));
    } else {
      e := Err(Exit);
    }
  }

  /** The value `list_dict` stores under each year. */
  method ListEntry<T>(keywords: Option<seq<string>>, nested: Option<int>) returns (e: Result<Entry<seq<T>>>)
    ensures nested == Some(0) ==> e == Ok(Leaf([]))
    ensures nested == Some(1) && keywords.None? ==> e == Err(TypeError)
    ensures nested == Some(1) && keywords.Some? ==> e.Ok? && e.value.Nested? && EmptyListTable(e.value.m, keywords.value)
    ensures nested != Some(0) && nested != Some(1) ==> e == Err(Exit)
  {
    if nested == Some(0) {
      e := Ok(Leaf([]));
    } else if nested == Some(1) {
      if keywords.None? {
        return Err(TypeError);
      }
      var inner := EmptyListTableFor<T>(keywords.value);
      e := Ok(Nested(inner));
    } else {
      e := Err(Exit);
    }
  }

  /** `num_dict(year_list, keywords, nested)`. `keywords` is `None` when the
      caller gives none (iterating it raises `TypeError`); `nested` is `None`
      or an integer, and anything but 0 or 1 reaches `_fail`. Nothing fails
      when `year_list` is empty, since the loop body never runs. The years
      become keys in the order of their first occurrence. */
  method NumDict(yearList: seq<int>, keywords: Option<seq<string>>, nested: Option<int>)
    returns (r: Result<Dict<int, Entry<int>>>)
    ensures yearList == [] ==> r == Ok(Dict([], map[]))
    ensures yearList != [] && nested != Some(0) && nested != Some(1) ==> r == Err(Exit)
    ensures yearList != [] && nested == Some(1) && keywords == None ==> r == Err(TypeError)
    ensures r.Err? ==> yearList != []
    ensures r.Ok? ==> r.value.Valid() && r.value.keys == Distinct(yearList)
    ensures r.Ok? && nested == Some(0) ==> forall y :: y in r.value.m ==> r.value.m[y] == Leaf(0)
    ensures r.Ok? && nested == Some(1) ==> forall y :: y in r.value.m ==>
              r.value.m[y].Nested? && ZeroTable(r.value.m[y].m, keywords.value)
  {
    var results: Dict<int, Entry<int>> := Empty();
    var i := 0;
    while i < |yearList|
      invariant i <= |yearList| && NumLoop(yearList, i, results, keywords, nested)
      invariant i > 0 ==> nested == Some(0) || (nested == Some(1) && keywords.Some?)
    {
      var e := NumEntry(keywords, nested);
      if e.Err? {
        return Err(e.error);
      }
      NumNext(yearList, i, results, e.value, keywords, nested);
      results := Put(results, yearList[i], e.value);
      i := i + 1;
    }
    assert yearList[..i] == yearList;
    return Ok(results);
  }

  /** `list_dict(year_list, keywords, nested)`: `num_dict` with empty lists
      at the leaves, and `'TOTAL'` only for a non-empty keyword list. */
  method ListDict<T>(yearList: seq<int>, keywords: Option<seq<string>>, nested: Option<int>)
    returns (r: Result<Dict<int, Entry<seq<T>>>>)
    ensures yearList == [] ==> r == Ok(Dict([], map[]))
    ensures yearList != [] && nested != Some(0) && nested != Some(1) ==> r == Err(Exit)
    ensures yearList != [] && nested == Some(1) && keywords == None ==> r == Err(TypeError)
    ensures r.Err? ==> yearList != []
    ensures r.Ok? ==> r.value.Valid() && r.value.keys == Distinct(yearList)
    ensures r.Ok? && nested == Some(0) ==> forall y :: y in r.value.m ==> r.value.m[y] == Leaf([])
    ensures r.Ok? && nested == Some(1) ==> forall y :: y in r.value.m ==>
              r.value.m[y].Nested? && EmptyListTable(r.value.m[y].m, keywords.value)
  {
    var results: Dict<int, Entry<seq<T>>> := Empty();
    var i := 0;
    while i < |yearList|
      invariant i <= |yearList| && ListLoop(yearList, i, results, keywords, nested)
      invariant i > 0 ==> nested == Some(0) || (nested == Some(1) && keywords.Some?)
    {
      var e := ListEntry<T>(keywords, nested);
      if e.Err? {
        return Err(e.error);
      }
      ListNext(yearList, i, results, e.value, keywords, nested);
      results := Put(results, yearList[i], e.value);
      i := i + 1;
    }
    assert yearList[..i] == yearList;
    return Ok(results);
  }

  /** The invariant of `num_dict`'s year loop: the years read so far are
      the keys, in first-occurrence order, each with its initial value. */
  ghost predicate NumLoop(yearList: seq<int>, i: nat, results: Dict<int, Entry<int>>,
                          keywords: Option<seq<string>>, nested: Option<int>)
    requires i <= |yearList|
  {
    && results.Valid() && results.keys == Distinct(yearList[..i])
    && forall y :: y in results.m ==> NumEntryOk(results.m[y], keywords, nested)
  }

  lemma NumNext(yearList: seq<int>, i: nat, results: Dict<int, Entry<int>>, e: Entry<int>,
                keywords: Option<seq<string>>, nested: Option<int>)
    requires i < |yearList| && NumLoop(yearList, i, results, keywords, nested) && NumEntryOk(e, keywords, nested)
    ensures NumLoop(yearList, i + 1, Put(results, yearList[i], e), keywords, nested)
  {
    PutNextYear(results, yearList, i, e);
  }

  /** The invariant of `list_dict`'s year loop. */
  ghost predicate ListLoop<T>(yearList: seq<int>, i: nat, results: Dict<int, Entry<seq<T>>>,
                              keywords: Option<seq<string>>, nested: Option<int>)
    requires i <= |yearList|
  {
    && results.Valid() && results.keys == Distinct(yearList[..i])
    && forall y :: y in results.m ==> ListEntryOk(results.m[y], keywords, nested)
  }

  lemma ListNext<T>(yearList: seq<int>, i: nat, results: Dict<int, Entry<seq<T>>>, e: Entry<seq<T>>,
                    keywords: Option<seq<string>>, nested: Option<int>)
    requires i < |yearList| && ListLoop(yearList, i, results, keywords, nested) && ListEntryOk(e, keywords, nested)
    ensures ListLoop(yearList, i + 1, Put(results, yearList[i], e), keywords, nested)
  {
    PutNextYear(results, yearList, i, e);
  }

  /** One pass of the year loop: writing the next year keeps the table's
      keys in first-occurrence order of the years seen so far. */
  lemma PutNextYear<V>(d: Dict<int, V>, yearList: seq<int>, i: nat, v: V)
    requires i < |yearList| && d.Valid() && d.keys == Distinct(yearList[..i])
    ensures Put(d, yearList[i], v).keys == Distinct(yearList[..i + 1])
  {
    assert yearList[..i + 1] == yearList[..i] + [yearList[i]];
    DistinctSnoc(yearList[..i], yearList[i]);
  }

  /** Appending an element to a list extends its first-occurrence order by
      that element exactly when it is new. */
  lemma DistinctSnoc<T(!new)>(s: seq<T>, x: T)
    ensures Distinct(s + [x]) == if x in s then Distinct(s) else Distinct(s) + [x]
  {
    DistinctFromSnoc(s, [], x);
  }

  lemma {:induction false} DistinctFromSnoc<T(!new)>(s: seq<T>, seen: seq<T>, x: T)
    requires forall i, j :: 0 <= i < j < |seen| ==> seen[i] != seen[j]
    ensures DistinctFrom(s + [x], seen) ==
            if x in s || x in seen then DistinctFrom(s, seen) else DistinctFrom(s, seen) + [x]
    decreases |s|
  {
    if s == [] {
      assert [] + [x] == [x];
      assert [x][1..] == [];
    } else {
      assert (s + [x])[0] == s[0] && (s + [x])[1..] == s[1..] + [x];
      if s[0] in seen {
        DistinctFromSnoc(s[1..], seen, x);
      } else {
        DistinctFromSnoc(s[1..], seen + [s[0]], x);
      }
    }
  }

  // ---------------------------------------------------------------------
  // Period lookup

  /** `year_list` is strictly increasing. */
  predicate Increasing(yl: seq<int>) {
    forall i, j :: 0 <= i < j < |yl| ==> yl[i] < yl[j]
  }

  /** `year` lies in period `i`. */
  predicate InPeriod(year: int, yl: seq<int>, i: int) {
    0 <= i < |yl| - 1 && yl[i] <= year < yl[i + 1]
  }

  /** `determine_year(year, year_list)`: the lower bound of the first period
      that contains `year`, or `_fail` when there is none. */
  function DetermineYear(year: int, yl: seq<int>): (r: Result<int>)
    ensures r.Ok? ==> exists i :: InPeriod(year, yl, i) && r.value == yl[i]
    ensures r.Ok? ==> r.value in yl[..|yl| - 1]
    ensures r.Err? <==> forall i :: 0 <= i < |yl| - 1 ==> !InPeriod(year, yl, i)
    ensures r.Err? ==> r.error == Exit
  {
    SearchFrom(year, yl, 0)
  }

  /** The loop of `determine_year`, from index `i` on. */
  function SearchFrom(year: int, yl: seq<int>, i: nat): (r: Result<int>)
    ensures r.Ok? ==> exists j :: i <= j && InPeriod(year, yl, j) && r.value == yl[j]
    ensures r.Ok? ==> r.value in yl[..|yl| - 1]
    ensures r.Err? <==> forall j :: i <= j < |yl| - 1 ==> !InPeriod(year, yl, j)
    ensures r.Err? ==> r.error == Exit
    decreases |yl| - i
  {
    if i + 1 >= |yl| then Err(Exit)
    else if yl[i] <= year < yl[i + 1] then Ok(yl[i])
    else SearchFrom(year, yl, i + 1)
  }

  /** The period found is the first one containing `year`. */
  lemma {:induction false} SearchFromFirst(year: int, yl: seq<int>, i: nat, k: nat)
    requires i <= k && InPeriod(year, yl, k)
    requires forall j :: i <= j < k ==> !InPeriod(year, yl, j)
    ensures SearchFrom(year, yl, i) == Ok(yl[k])
    decreases k - i
  {
    if i < k {
      assert i + 1 < |yl| && !InPeriod(year, yl, i);
      SearchFromFirst(year, yl, i + 1, k);
    }
  }

  /** For a strictly increasing list the containing period is unique, so
      the year maps to the lower bound of exactly that period. */
  lemma DetermineYearUnique(year: int, yl: seq<int>, k: nat)
    requires Increasing(yl) && InPeriod(year, yl, k)
    ensures DetermineYear(year, yl) == Ok(yl[k])
  {
    forall j | 0 <= j < k ensures !InPeriod(year, yl, j) {
      assert yl[j + 1] <= yl[k];
    }
    SearchFromFirst(year, yl, 0, k);
  }

  /** A year outside `[year_list[0], year_list[-1])` of a strictly increasing
      list reaches `_fail` rather than being clamped into the first or last
      period. */
  lemma DetermineYearOutside(year: int, yl: seq<int>)
    requires Increasing(yl) && |yl| >= 1
    requires year < yl[0] || year >= yl[|yl| - 1]
    ensures DetermineYear(year, yl) == Err(Exit)
  {
    forall j | 0 <= j < |yl| - 1 ensures !InPeriod(year, yl, j) {
      assert yl[0] <= yl[j] && yl[j + 1] <= yl[|yl| - 1];
    }
  }

  /** A year inside `[year_list[0], year_list[-1])` of a strictly increasing
      list always finds its period. */
  lemma {:induction false} DetermineYearInside(year: int, yl: seq<int>)
    requires Increasing(yl) && |yl| >= 2
    requires yl[0] <= year < yl[|yl| - 1]
    ensures DetermineYear(year, yl).Ok?
    ensures yl[0] <= DetermineYear(year, yl).value <= year
  {
    var k := 0;
    while k + 2 < |yl| && yl[k + 1] <= year
      invariant 0 <= k <= |yl| - 2 && yl[k] <= year
      decreases |yl| - k
    {
      k := k + 1;
    }
    assert InPeriod(year, yl, k);
    DetermineYearUnique(year, yl, k);
    assert yl[0] <= yl[k];
  }
}
