/** parsing/formatting_stuff/misc/DM/convert_dm_csv.py: the DM catalogue
    converted to a CSV of (xml id, author, title, year) records, sorted by
    id. A row is kept when it has an id and a date; dates such as `c1850`
    and `1850-1860` are reduced to a year. Reading and writing the files
    are not modelled. */
module DmCsv {
  import opened Wrappers
  import opened PyStr
  import opened PyList
  import opened LitShared
  import opened Sorting

  // ---------------------------------------------------------------------
  // filter_date

  /** `filter_date(d)`: `int(d)`; failing that, the last four characters
      of a date starting with `c`, or the text before the first `-`. */
  function FilterDate(d: string): (r: Result<int>)
    ensures ParseInt(d).Some? ==> r == Ok(ParseInt(d).value)
    ensures r.Err? ==> r.error in {IndexError, ValueError}
    ensures r.Err? && r.error == IndexError <==> d == []
  {
    match ParseInt(d)
    case Some(n) => Ok(n)
    case None =>
      if d == [] then Err(IndexError)
      else
        var t := if d[0] == 'c' then Suffix(d, -4) else Split(d, '-')[0];
        if ParseInt(t).Some? then Ok(ParseInt(t).value) else Err(ValueError)
  }

  /** A year written out is read back. */
  lemma FilterDateInt(n: int)
    ensures FilterDate(IntToStr(n)) == Ok(n)
  {
    ParseIntToStr(n);
  }

  /** Digits with no blank at either end parse as their value. */
  lemma ParseDigits(s: string)
    requires s != [] && AllDigits(s)
    ensures ParseInt(s) == Some(DigitsValue(s) as int)
  {
    assert IsDigit(s[0]) && IsDigit(s[|s| - 1]);
    StripUnchanged(s);
  }

  /** `c` followed by a four-digit year: the year. */
  lemma FilterDateCirca(digits: string)
    requires |digits| == 4 && AllDigits(digits)
    ensures FilterDate("c" + digits) == Ok(DigitsValue(digits) as int)
  {
    var d := "c" + digits;
    assert d[|d| - 1] == digits[3] && IsDigit(digits[3]);
    StripUnchanged(d);
    assert !AllDigits(d) by {
      assert !IsDigit(d[0]);
    }
    assert ParseInt(d).None?;
    assert Suffix(d, -4) == digits;
    ParseDigits(digits);
  }

  /** A range `a-b` of years: its first year. */
  lemma FilterDateRange(a: string, b: string)
    requires a != [] && AllDigits(a) && AllDigits(b)
    ensures FilterDate(a + "-" + b) == Ok(DigitsValue(a) as int)
  {
    var d := a + "-" + b;
    assert d[0] == a[0] && IsDigit(a[0]);
    assert !IsSpace(d[|d| - 1]) by {
      if b == [] {
        assert d[|d| - 1] == '-';
      } else {
        assert d[|d| - 1] == b[|b| - 1] && IsDigit(b[|b| - 1]);
      }
    }
    StripUnchanged(d);
    assert !AllDigits(d) by {
      assert d[|a|] == '-';
    }
    assert ParseInt(d).None?;
    assert d == a + ['-'] + b;
    SplitConcat(a, b, '-');
    assert '-' !in a by {
      forall i | 0 <= i < |a| ensures a[i] != '-' {
        assert IsDigit(a[i]);
      }
    }
    SplitFree(a, '-');
    assert Split(d, '-')[0] == a;
    ParseDigits(a);
    assert d[0] != 'c';
  }

  // ---------------------------------------------------------------------
  // The record loop

  /** The date column: a year, or the header's label. */
  datatype DateField = Year(n: int) | Label(s: string)

  /** A record: xml id, author, title and date. */
  datatype Rec = Rec(id: string, author: string, title: string, date: DateField)

  /** The first entry of `all_recs`. */
  const Header := Rec("id of xml file", "Author", "Title", Label("Date"))

  /** The record a row adds, `None` for a skipped row, or the exception. */
  function RowRec(row: Row): (r: Result<Option<Rec>>)
    ensures r.Ok? && r.value.Some? <==>
              && |row| >= 7 && row[0] != "Date" && row[6] != "" && row[0] != ""
              && FilterDate(row[0]).Ok?
    ensures r.Ok? && r.value.Some? ==>
              r.value.value == Rec(row[6], row[1], row[2], Year(FilterDate(row[0]).value))
    ensures r.Ok? && r.value.None? <==>
              |row| >= 1 && (row[0] == "Date" || (|row| >= 7 && (row[6] == "" || row[0] == "")))
    ensures r.Err? ==> r.error in {IndexError, ValueError}
  {
    if row == [] then Err(IndexError)
    else if row[0] == "Date" then Ok(None)
    else if |row| < 7 then Err(IndexError)
    else if row[6] == "" then Ok(None)
    else if row[0] == "" then Ok(None)
    else
      var n :- FilterDate(row[0]);
      Ok(Some(Rec(row[6], row[1], row[2], Year(n))))
  }

  // ---------------------------------------------------------------------
  // Sorting by id

  /** Python's `<=` on strings: code point by code point, a prefix first. */
  predicate StrLe(a: string, b: string)
    decreases |a|
  {
    a == [] || (b != [] && (a[0] < b[0] || (a[0] == b[0] && StrLe(a[1..], b[1..]))))
  }

  lemma {:induction false} StrLeTotal(a: string, b: string)
    ensures StrLe(a, b) || StrLe(b, a)
    decreases |a|
  {
    if a != [] && b != [] && a[0] == b[0] {
      StrLeTotal(a[1..], b[1..]);
    }
  }

  lemma {:induction false} StrLeTrans(a: string, b: string, c: string)
    requires StrLe(a, b) && StrLe(b, c)
    ensures StrLe(a, c)
    decreases |a|
  {
    if a != [] && a[0] == b[0] && b[0] == c[0] {
      StrLeTrans(a[1..], b[1..], c[1..]);
    }
  }

  /** The sort key `lambda x: x[0]`. */
  predicate IdLe(x: Rec, y: Rec) {
    StrLe(x.id, y.id)
  }

  lemma IdLeTotalPreorder()
    ensures TotalPreorder(IdLe)
  {
    forall a: Rec, b: Rec
      ensures IdLe(a, b) || IdLe(b, a)
    {
      StrLeTotal(a.id, b.id);
    }
    forall a: Rec, b: Rec, c: Rec | IdLe(a, b) && IdLe(b, c)
      ensures IdLe(a, c)
    {
      StrLeTrans(a.id, b.id, c.id);
    }
  }

  /** The script: the header, then one record per kept row, then the whole
      list (header included) sorted by id. The first row that raises ends
      it. */
  method Convert(rows: seq<Row>) returns (r: Result<seq<Rec>>)
    ensures r.Err? <==> exists i :: 0 <= i < |rows| && RowRec(rows[i]).Err?
    ensures r.Err? ==> Collect(rows, RowRec) == Err(r.error)
    ensures r.Ok? ==> r.value == Sort([Header] + Collect(rows, RowRec).value, IdLe)
  {
    var allRecs := [Header];
    var recs := CollectRows(rows, RowRec);
    if recs.Err? {
      var i :| 0 <= i < |rows| && RowRec(rows[i]) == Err(recs.error);
      return Err(recs.error);
    }
    allRecs := allRecs + recs.value;
    allRecs := Sort(allRecs, IdLe);
    return Ok(allRecs);
  }

  /** The written list is in id order, holds the header and exactly the
      kept records, and records with the same id keep their order. */
  lemma ConvertSorted(rows: seq<Row>, c: Rec)
    requires Collect(rows, RowRec).Ok?
    ensures var out := Sort([Header] + Collect(rows, RowRec).value, IdLe);
            && Sorted(out, IdLe)
            && multiset(out) == multiset{Header} + multiset(Collect(rows, RowRec).value)
            && Ties(out, IdLe, c) == Ties([Header] + Collect(rows, RowRec).value, IdLe, c)
  {
    var all := [Header] + Collect(rows, RowRec).value;
    IdLeTotalPreorder();
    SortSorted(all, IdLe);
    SortStable(all, IdLe, c);
  }

  /** The header is sorted with the records: an id that comes before
      `id of xml file` ends up above it. */
  lemma HeaderMoves(rec: Rec)
    requires !StrLe(Header.id, rec.id)
    ensures Sort([Header, rec], IdLe) == [rec, Header]
  {
    assert [Header, rec][1..] == [rec];
  }
}
