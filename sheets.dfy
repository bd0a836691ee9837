/** Cell values of a spreadsheet as xlrd hands them over: text, a float
    (every number and date) or an int (booleans and error codes). An empty
    cell is the empty text. */
module Cells {
  datatype Value = Text(s: string) | Float(x: real) | Int(n: int)

  /** An xlrd cell: only its value is used. */
  datatype Cell = Cell(value: Value)
}

/** parsing/misc/xcel_to_csv.py: every sheet of a workbook written as a CSV
    file, seven columns per row, with commas removed from text and floats
    cut to integers. Loading the workbook and writing the files are not
    modelled. */
module XcelToCsv {
  import opened PyStr
  import opened PyList
  import opened Cells

  /** `int(x)` of a float: truncation toward zero. */
  function Truncate(x: real): (r: int)
    ensures x >= 0.0 ==> 0 <= r && r as real <= x < r as real + 1.0
    ensures x < 0.0 ==> r <= 0 && r as real - 1.0 < x <= r as real
  {
    if x >= 0.0 then x.Floor else -((-x).Floor)
  }

  /** Truncation is symmetric around zero and leaves whole numbers alone. */
  lemma TruncateProps(x: real, n: int)
    ensures Truncate(-x) == -Truncate(x)
    ensures Truncate(n as real) == n
  {
    if x > 0.0 {
      assert -(-x) == x;
    }
  }

  /** The value `filter_row` writes for one cell. */
  function CleanCell(v: Value): (r: Value)
    ensures v.Text? ==> r.Text? && (forall c :: c in r.s <==> c in v.s && c != ',')
    ensures v.Float? ==> r == Int(Truncate(v.x))
    ensures v.Int? ==> r == v
  {
    match v
    case Text(s) => Text(RemoveChar(s, ','))
    case Float(x) => Int(Truncate(x))
    case Int(_) => v
  }

  /** A cleaned cell is clean: running `filter_row` twice changes nothing
      more. */
  lemma CleanCellIdempotent(v: Value)
    ensures CleanCell(CleanCell(v)) == CleanCell(v)
  {
    if v.Text? {
      RemoveCharAbsent(RemoveChar(v.s, ','), ',');
    }
  }

  /** `filter_row(vals)`. */
  method FilterRow(vals: seq<Value>) returns (ret: seq<Value>)
    ensures |ret| == |vals|
    ensures forall i :: 0 <= i < |vals| ==> ret[i] == CleanCell(vals[i])
  {
    ret := [];
    for i := 0 to |vals|
      invariant |ret| == i
      invariant forall k :: 0 <= k < i ==> ret[k] == CleanCell(vals[k])
    {
      var s := vals[i];
      if s.Text? {
        ret := ret + [Text(RemoveChar(s.s, ','))];
      } else if s.Float? {
        ret := ret + [Int(Truncate(s.x))];
      } else {
        ret := ret + [s];
      }
    }
  }

  /** A named sheet of rows. */
  datatype Sheet = Sheet(name: string, rows: seq<seq<Value>>)

  /** The row written for `row`: its first seven values, cleaned. */
  function ConvertedRow(row: seq<Value>): (r: seq<Value>)
    ensures |r| == (if |row| < 7 then |row| else 7)
    ensures forall i :: 0 <= i < |r| ==> r[i] == CleanCell(row[i])
  {
    var p := Prefix(row, 7);
    seq(|p|, i requires 0 <= i < |p| => CleanCell(p[i]))
  }

  /** The rows written for a sheet, row by row. */
  function Converted(rows: seq<seq<Value>>): (r: seq<seq<Value>>)
    ensures |r| == |rows|
    ensures forall j :: 0 <= j < |rows| ==> r[j] == ConvertedRow(rows[j])
  {
    seq(|rows|, j requires 0 <= j < |rows| => ConvertedRow(rows[j]))
  }

  /** The rows written for one sheet: the first seven values of each row,
      cleaned. */
  method ConvertSheet(rows: seq<seq<Value>>) returns (out: seq<seq<Value>>)
    ensures out == Converted(rows)
    ensures |out| == |rows|
    ensures forall j :: 0 <= j < |rows| ==> |out[j]| == (if |rows[j]| < 7 then |rows[j]| else 7)
    ensures forall j, i :: 0 <= j < |rows| && 0 <= i < |out[j]| ==> out[j][i] == CleanCell(rows[j][i])
  {
    out := [];
    for j := 0 to |rows|
      invariant |out| == j
      invariant forall k :: 0 <= k < j ==> out[k] == ConvertedRow(rows[k])
    {
      var row := FilterRow(Prefix(rows[j], 7));
      assert row == ConvertedRow(rows[j]);
      out := out + [row];
    }
    assert out == Converted(rows);
  }

  /** `convert_and_write()`: one file `<output_path>/<sheet name>.csv` per
      sheet. */
  method ConvertAndWrite(outputPath: string, sheets: seq<Sheet>) returns (files: seq<(string, seq<seq<Value>>)>)
    ensures |files| == |sheets|
    ensures forall k :: 0 <= k < |sheets| ==>
              files[k].0 == outputPath + "/" + sheets[k].name + ".csv" && files[k].1 == Converted(sheets[k].rows)
  {
    files := [];
    for k := 0 to |sheets|
      invariant |files| == k
      invariant forall m :: 0 <= m < k ==>
                  files[m].0 == outputPath + "/" + sheets[m].name + ".csv" && files[m].1 == Converted(sheets[m].rows)
    {
      var rows := ConvertSheet(sheets[k].rows);
      files := files + [(outputPath + "/" + sheets[k].name + ".csv", rows)];
    }
  }
}

/** hax/swedish_xlsx.py: the rows of a spreadsheet of Swedish volumes sorted
    into HathiTrust volumes, Litteraturbanken volumes and volumes with some
    other link, each reduced to a link or id, two columns and the two name
    columns joined. Loading the workbook and writing the files are not
    modelled. */
module SwedishXlsx {
  import opened Wrappers
  import opened PyStr
  import opened PyList
  import opened Cells
  import opened LitShared

  /** `to_list(row)`: the values of the cells, in order. */
  method ToList(row: seq<Cell>) returns (ret: seq<Value>)
    ensures |ret| == |row|
    ensures forall i :: 0 <= i < |row| ==> ret[i] == row[i].value
  {
    ret := [];
    for i := 0 to |row|
      invariant |ret| == i
      invariant forall k :: 0 <= k < i ==> ret[k] == row[k].value
    {
      ret := ret + [row[i].value];
    }
  }

  /** `is_ht(row)`: column 7 holds a HathiTrust id. */
  function IsHt(row: seq<Value>): (r: Result<bool>)
    ensures r.Err? <==> |row| < 8
    ensures r.Err? ==> r.error == IndexError
    ensures r.Ok? ==> (!r.value <==> row[7] in {Text("N/A"), Text(""), Text("HT ID")})
  {
    if |row| < 8 then Err(IndexError)
    else Ok(!(row[7] == Text("N/A") || row[7] == Text("") || row[7] == Text("HT ID")))
  }

  /** `row[10].split()`: the words of the links column, which must hold
      text. */
  function Tokens(row: seq<Value>): (r: Result<seq<string>>)
    ensures r.Err? <==> |row| < 11 || !row[10].Text?
    ensures r.Err? ==> r.error == (if |row| < 11 then IndexError else AttributeError)
    ensures r.Ok? ==> r.value == Words(row[10].s)
  {
    if |row| < 11 then Err(IndexError)
    else if !row[10].Text? then Err(AttributeError)
    else Ok(Words(row[10].s))
  }

  predicate LitLink(t: string) { Prefix(Strip(t), 11) == "https://lit" }
  predicate HttpLink(t: string) { Prefix(Strip(t), 4) == "http" }
  predicate HttpsLink(t: string) { Prefix(Strip(t), 5) == "https" }

  /** The search with early return: does some token pass `p`? */
  function AnyToken(ts: seq<string>, p: string -> bool): (r: bool)
    ensures r <==> exists i :: 0 <= i < |ts| && p(ts[i])
  {
    if ts == [] then false
    else
      assert forall i :: 1 <= i < |ts| ==> ts[i] == ts[1..][i - 1];
      p(ts[0]) || AnyToken(ts[1..], p)
  }

  /** `is_lit_banken(row)`. */
  function IsLitBanken(row: seq<Value>): Result<bool> {
    var ts :- Tokens(row);
    Ok(AnyToken(ts, LitLink))
  }

  /** `has_link(row)`. */
  function HasLink(row: seq<Value>): Result<bool> {
    var ts :- Tokens(row);
    Ok(AnyToken(ts, HttpLink))
  }

  /** A Litteraturbanken link is a link: the two tests fail on the same
      rows, and the first implies the second. */
  lemma LitBankenHasLink(row: seq<Value>)
    ensures IsLitBanken(row).Err? <==> HasLink(row).Err?
    ensures IsLitBanken(row) == Ok(true) ==> HasLink(row) == Ok(true)
  {
    if IsLitBanken(row) == Ok(true) {
      var ts := Tokens(row).value;
      var i :| 0 <= i < |ts| && LitLink(ts[i]);
      var s := Strip(ts[i]);
      assert Prefix(s, 11) == "https://lit";
      assert Prefix(s, 4) == s[..4] == "https://lit"[..4];
      assert HttpLink(ts[i]);
    }
  }

  /** The link the overwriting loop ends with: the last token that passes
      `p`, stripped, or `''` when none does. */
  function LastLink(ts: seq<string>, p: string -> bool): string
    decreases |ts|
  {
    if ts == [] then ""
    else if p(ts[|ts| - 1]) then Strip(ts[|ts| - 1])
    else LastLink(ts[..|ts| - 1], p)
  }

  /** The link is the last token that passes `p`, stripped. */
  lemma {:induction false} LastLinkAt(ts: seq<string>, p: string -> bool, i: nat)
    requires i < |ts| && p(ts[i])
    requires forall j :: i < j < |ts| ==> !p(ts[j])
    ensures LastLink(ts, p) == Strip(ts[i])
    decreases |ts|
  {
    if i < |ts| - 1 {
      LastLinkAt(ts[..|ts| - 1], p, i);
    }
  }

  /** With no token passing `p`, the link stays `''`. */
  lemma {:induction false} LastLinkNone(ts: seq<string>, p: string -> bool)
    requires forall i :: 0 <= i < |ts| ==> !p(ts[i])
    ensures LastLink(ts, p) == ""
    decreases |ts|
  {
    if ts != [] {
      LastLinkNone(ts[..|ts| - 1], p);
    }
  }

  /** The loop of `format_banken` / `format_other` over the tokens. */
  method FindLink(ts: seq<string>, p: string -> bool) returns (link: string)
    ensures link == LastLink(ts, p)
  {
    link := "";
    for i := 0 to |ts|
      invariant link == LastLink(ts[..i], p)
    {
      assert ts[..i + 1][..i] == ts[..i];
      if p(ts[i]) {
        link := Strip(ts[i]);
      }
    }
    assert ts[..|ts|] == ts;
  }

  /** `' '.join([row[5], row[6]])`: both must be text. */
  function Names(row: seq<Value>): (r: Result<Value>)
    requires |row| >= 7
    ensures r.Err? <==> !row[5].Text? || !row[6].Text?
    ensures r.Err? ==> r.error == TypeError
    ensures r.Ok? ==> r.value == Text(row[5].s + " " + row[6].s)
  {
    if row[5].Text? && row[6].Text? then
      JoinPair(row[5].s, row[6].s);
      Ok(Text(Join(" ", [row[5].s, row[6].s])))
    else Err(TypeError)
  }

  lemma JoinPair(a: string, b: string)
    ensures Join(" ", [a, b]) == a + " " + b
  {
    assert [a, b][1..] == [b];
  }

  /** The record `format_ht` builds. */
  function HtRecord(row: seq<Value>): (r: Result<seq<Value>>)
    ensures r.Err? <==> |row| < 8 || !row[5].Text? || !row[6].Text?
    ensures r.Ok? ==> |r.value| == 4 && r.value[..3] == [row[7], row[0], row[1]]
                      && r.value[3] == Text(row[5].s + " " + row[6].s)
  {
    if |row| < 8 then Err(IndexError)
    else
      var names :- Names(row);
      Ok([row[7], row[0], row[1], names])
  }

  /** The record `format_banken` (`p` = `HttpsLink`) or `format_other`
      (`p` = `HttpLink`) builds. */
  function LinkRecord(row: seq<Value>, p: string -> bool): (r: Result<seq<Value>>)
    ensures r.Err? <==> |row| < 11 || !row[10].Text? || !row[5].Text? || !row[6].Text?
    ensures r.Ok? ==> |r.value| == 4 && r.value[0] == Text(LastLink(Words(row[10].s), p))
                      && r.value[1..3] == [row[0], row[1]]
                      && r.value[3] == Text(row[5].s + " " + row[6].s)
  {
    var ts :- Tokens(row);
    var names :- Names(row);
    Ok([Text(LastLink(ts, p)), row[0], row[1], names])
  }

  /** `format_ht(row)`. */
  method FormatHt(row: seq<Value>) returns (r: Result<seq<Value>>)
    ensures r == HtRecord(row)
  {
    if |row| < 8 {
      return Err(IndexError);
    }
    var ret := [row[7], row[0], row[1]];
    if !(row[5].Text? && row[6].Text?) {
      return Err(TypeError);
    }
    ret := ret + [Text(row[5].s + " " + row[6].s)];
    assert ret == [row[7], row[0], row[1], Names(row).value];
    return Ok(ret);
  }

  /** `format_banken(row)` and `format_other(row)`. */
  method FormatLink(row: seq<Value>, p: string -> bool) returns (r: Result<seq<Value>>)
    ensures r == LinkRecord(row, p)
  {
    if |row| < 11 {
      return Err(IndexError);
    }
    if !row[10].Text? {
      return Err(AttributeError);
    }
    var link := FindLink(Words(row[10].s), p);
    var ret := [Text(link), row[0], row[1]];
    if !(row[5].Text? && row[6].Text?) {
      return Err(TypeError);
    }
    ret := ret + [Text(row[5].s + " " + row[6].s)];
    assert ret == [Text(link), row[0], row[1], Names(row).value];
    return Ok(ret);
  }

  // ---------------------------------------------------------------------
  // The routing loop

  datatype Dest = HtList | BankenList | OtherList | NoList

  /** The list a row goes to: HathiTrust first, then Litteraturbanken, then
      any other link. */
  function Destination(row: seq<Value>): (r: Result<Dest>)
    ensures r.Ok? ==> (r.value == HtList <==> IsHt(row) == Ok(true))
    ensures r.Ok? ==> (r.value == BankenList <==> IsHt(row) == Ok(false) && IsLitBanken(row) == Ok(true))
    ensures r.Ok? ==> (r.value == OtherList <==>
                         IsHt(row) == Ok(false) && IsLitBanken(row) == Ok(false) && HasLink(row) == Ok(true))
    ensures r.Ok? && r.value == NoList ==> HasLink(row) == Ok(false)
  {
    var ht :- IsHt(row);
    if ht then Ok(HtList)
    else
      var lit :- IsLitBanken(row);
      if lit then Ok(BankenList)
      else
        var link :- HasLink(row);
        if link then Ok(OtherList) else Ok(NoList)
  }

  /** The three output lists. */
  datatype Lists = Lists(ht: seq<seq<Value>>, banken: seq<seq<Value>>, others: seq<seq<Value>>)

  function Size(l: Lists): nat { |l.ht| + |l.banken| + |l.others| }

  /** The record a row contributes to the list it goes to. */
  function Formatted(row: seq<Value>, d: Dest): Result<seq<Value>> {
    match d
    case HtList => HtRecord(row)
    case BankenList => LinkRecord(row, HttpsLink)
    case OtherList => LinkRecord(row, HttpLink)
    case NoList => Ok([])
  }

  /** `acc` with `rec` appended to list `d`. */
  function Add(acc: Lists, d: Dest, rec: seq<Value>): (r: Lists)
    ensures Size(r) == Size(acc) + (if d == NoList then 0 else 1)
  {
    match d
    case HtList => acc.(ht := acc.ht + [rec])
    case BankenList => acc.(banken := acc.banken + [rec])
    case OtherList => acc.(others := acc.others + [rec])
    case NoList => acc
  }

  /** The lists `acc` followed by the lists `l`. */
  function Then(acc: Lists, l: Lists): Lists {
    Lists(acc.ht + l.ht, acc.banken + l.banken, acc.others + l.others)
  }

  /** The whole loop: the first row that raises ends it. */
  function Routed(rows: seq<seq<Value>>): (r: Result<Lists>)
    ensures r.Ok? ==> Size(r.value) <= |rows|
  {
    if rows == [] then Ok(Lists([], [], []))
    else
      var d :- Destination(rows[0]);
      var rec :- Formatted(rows[0], d);
      var rest :- Routed(rows[1..]);
      Ok(Then(Add(Lists([], [], []), d, rec), rest))
  }

  /** Every row is routed: the lists hold one record per row that goes to
      a list, and none for a row that has no link. */
  lemma {:induction false} RoutedDropped(rows: seq<seq<Value>>)
    requires Routed(rows).Ok?
    ensures Size(Routed(rows).value) == |rows| - |Dropped(rows)|
  {
    if rows != [] {
      RoutedDropped(rows[1..]);
    }
  }

  /** The rows that go to no list. */
  function Dropped(rows: seq<seq<Value>>): seq<seq<Value>> {
    if rows == [] then []
    else (if Destination(rows[0]) == Ok(NoList) then [rows[0]] else []) + Dropped(rows[1..])
  }

  function AfterLists(acc: Lists, r: Result<Lists>): Result<Lists> {
    if r.Ok? then Ok(Then(acc, r.value)) else r
  }

  lemma ThenShift(acc: Lists, d: Dest, rec: seq<Value>, rest: Lists)
    ensures Then(acc, Then(Add(Lists([], [], []), d, rec), rest)) == Then(Add(acc, d, rec), rest)
  {
    AppendShift(acc.ht, Add(Lists([], [], []), d, rec).ht, rest.ht);
    AppendShift(acc.banken, Add(Lists([], [], []), d, rec).banken, rest.banken);
    AppendShift(acc.others, Add(Lists([], [], []), d, rec).others, rest.others);
  }

  /** One row of the loop: its destination, its record, then the append. */
  function Step(row: seq<Value>, acc: Lists): Result<Lists> {
    var d :- Destination(row);
    var rec :- Formatted(row, d);
    Ok(Add(acc, d, rec))
  }

  lemma RoutedStep(rest: seq<seq<Value>>, acc: Lists)
    requires rest != []
    ensures Step(rest[0], acc).Err? ==> Routed(rest) == Step(rest[0], acc)
    ensures Step(rest[0], acc).Ok? ==>
              AfterLists(acc, Routed(rest)) == AfterLists(Step(rest[0], acc).value, Routed(rest[1..]))
  {
    if Step(rest[0], acc).Ok? && Routed(rest[1..]).Ok? {
      var d := Destination(rest[0]).value;
      ThenShift(acc, d, Formatted(rest[0], d).value, Routed(rest[1..]).value);
    }
  }

  /** One step of the routing loop. */
  method RouteRow(row: seq<Value>, acc: Lists) returns (r: Result<Lists>)
    ensures r == Step(row, acc)
  {
    var d := Destination(row);
    if d.Err? {
      return Err(d.error);
    }
    if d.value == HtList {
      var rec := FormatHt(row);
      if rec.Err? {
        return Err(rec.error);
      }
      return Ok(acc.(ht := acc.ht + [rec.value]));
    } else if d.value == BankenList {
      var rec := FormatLink(row, HttpsLink);
      if rec.Err? {
        return Err(rec.error);
      }
      return Ok(acc.(banken := acc.banken + [rec.value]));
    } else if d.value == OtherList {
      var rec := FormatLink(row, HttpLink);
      if rec.Err? {
        return Err(rec.error);
      }
      return Ok(acc.(others := acc.others + [rec.value]));
    }
    return Ok(acc);
  }

  /** The loop over `all_recs`. */
  method Route(rows: seq<seq<Value>>) returns (r: Result<Lists>)
    ensures r == Routed(rows)
  {
    var acc := Lists([], [], []);
    var rest := rows;
    assert AfterLists(acc, Routed(rows)) == Routed(rows) by {
      if Routed(rows).Ok? {
        var l := Routed(rows).value;
        assert [] + l.ht == l.ht && [] + l.banken == l.banken && [] + l.others == l.others;
      }
    }
    while rest != []
      invariant AfterLists(acc, Routed(rest)) == Routed(rows)
    {
      var next := RouteRow(rest[0], acc);
      RoutedStep(rest, acc);
      if next.Err? {
        return Err(next.error);
      }
      acc := next.value;
      rest := rest[1..];
    }
    assert Then(acc, Lists([], [], [])) == acc by {
      assert acc.ht + [] == acc.ht && acc.banken + [] == acc.banken && acc.others + [] == acc.others;
    }
    return Ok(acc);
  }
}
