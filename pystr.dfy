/** The parts of Python's `str` and `re` that the modelled code relies on:
    whitespace splitting, splitting on one separator character, joining,
    stripping, lower-casing, substring tests, `int()` and `str()` on integers,
    and the two regular expressions the code uses (`\W[0-9]*` and `\W+`). */
module PyStr {
  import opened Wrappers

  // ---------------------------------------------------------------------
  // Character classes

  /** Python's `str.isspace`: what `split()` and `strip()` treat as blank. */
  predicate IsSpace(c: char) {
    var k := c as int;
    || 9 <= k <= 13 || 28 <= k <= 32 || k == 0x85 || k == 0xA0 || k == 0x1680
    || 0x2000 <= k <= 0x200A || k == 0x2028 || k == 0x2029 || k == 0x202F
    || k == 0x205F || k == 0x3000
  }

  /** The regex class `[0-9]`. */
  predicate IsDigit(c: char) { '0' <= c <= '9' }

  /** Upper-case letters that `LowerChar` folds: ASCII and Latin-1. */
  predicate IsUpper(c: char) {
    var k := c as int;
    'A' <= c <= 'Z' || (0xC0 <= k <= 0xDE && k != 0xD7)
  }

  /** The regex class `\w` on `str`: letters, digits, numerals and `_`.
      Up to U+00FF these are the ASCII letters and digits, `_`, the Latin-1
      letters (U+00C0 to U+00FF but for `×` and `÷`), `ª`, `µ`, `º`, the
      superscripts `¹²³` and the fractions `¼½¾`; Latin-1 punctuation and
      symbols such as `«`, `»`, `§` and `¿` are not. Beyond U+00FF every
      character that is not blank is taken for a word character. */
  predicate IsWordChar(c: char) {
    var k := c as int;
    || 'a' <= c <= 'z' || 'A' <= c <= 'Z' || IsDigit(c) || c == '_'
    || k == 0xAA || k == 0xB2 || k == 0xB3 || k == 0xB5 || k == 0xB9 || k == 0xBA
    || (0xBC <= k <= 0xBE) || (0xC0 <= k <= 0xFF && k != 0xD7 && k != 0xF7)
    || (k >= 0x100 && !IsSpace(c))
  }

  function LowerChar(c: char): (r: char)
    ensures !IsUpper(r)
    ensures IsWordChar(r) == IsWordChar(c)
    ensures !IsUpper(c) ==> r == c
  {
    if IsUpper(c) then (c as int + 32) as char else c
  }

  /** `s.lower()`. */
  function Lower(s: string): (r: string)
    ensures |r| == |s|
    ensures forall i :: 0 <= i < |s| ==> r[i] == LowerChar(s[i])
  {
    seq(|s|, i requires 0 <= i < |s| => LowerChar(s[i]))
  }

  /** Lower-casing twice is lower-casing once. */
  lemma LowerIdempotent(s: string)
    ensures Lower(Lower(s)) == Lower(s)
  {
  }

  lemma LowerOfLower(s: string)
    requires forall i :: 0 <= i < |s| ==> !IsUpper(s[i])
    ensures Lower(s) == s
  {
  }

  // ---------------------------------------------------------------------
  // Prefixes, substrings, stripping

  predicate StartsWith(s: string, p: string) {
    |p| <= |s| && s[..|p|] == p
  }

  /** `sub in s`. */
  predicate Contains(s: string, sub: string)
    decreases |s|
  {
    StartsWith(s, sub) || (|s| > 0 && Contains(s[1..], sub))
  }

  lemma ContainsAt(s: string, sub: string, i: nat)
    requires i + |sub| <= |s| && s[i..i + |sub|] == sub
    ensures Contains(s, sub)
    decreases i
  {
    if i > 0 {
      assert s[1..][i - 1..i - 1 + |sub|] == sub;
      ContainsAt(s[1..], sub, i - 1);
    }
  }

  predicate IsQuote(c: char) { c == '"' }

  /** The characters a strip removes: quotes when `quotes`, white space
      otherwise. */
  predicate Dropped(c: char, quotes: bool) {
    if quotes then IsQuote(c) else IsSpace(c)
  }

  function TrimLeft(s: string, quotes: bool): (r: string)
    ensures |r| <= |s|
    ensures r != [] ==> !Dropped(r[0], quotes)
  {
    if s != [] && Dropped(s[0], quotes) then TrimLeft(s[1..], quotes) else s
  }

  function TrimRight(s: string, quotes: bool): (r: string)
    ensures |r| <= |s|
    ensures r != [] ==> !Dropped(r[|r| - 1], quotes)
  {
    if s != [] && Dropped(s[|s| - 1], quotes) then TrimRight(s[..|s| - 1], quotes) else s
  }

  /** Trimming on the right keeps a prefix. */
  lemma {:induction false} TrimRightPrefix(s: string, quotes: bool)
    ensures TrimRight(s, quotes) == s[..|TrimRight(s, quotes)|]
  {
    if s != [] && Dropped(s[|s| - 1], quotes) {
      var t := s[..|s| - 1];
      TrimRightPrefix(t, quotes);
      assert t[..|TrimRight(t, quotes)|] == s[..|TrimRight(t, quotes)|];
    }
  }

  /** `s.strip()`. */
  function Strip(s: string): (r: string)
    ensures r != [] ==> !IsSpace(r[0]) && !IsSpace(r[|r| - 1])
  {
    var l := TrimLeft(s, false);
    var r := TrimRight(l, false);
    TrimRightPrefix(l, false);
    assert r != [] ==> r[0] == l[0];
    r
  }

  /** `s.strip('"')`. */
  function StripQuotes(s: string): (r: string)
    ensures r != [] ==> r[0] != '"' && r[|r| - 1] != '"'
  {
    var l := TrimLeft(s, true);
    var r := TrimRight(l, true);
    TrimRightPrefix(l, true);
    assert r != [] ==> r[0] == l[0];
    r
  }

  /** `s.replace(c, d)` for one character by another: every `c` becomes
      `d`, nothing else moves. */
  function ReplaceChar(s: string, c: char, d: char): (r: string)
    ensures |r| == |s|
    ensures c != d ==> c !in r
  {
    seq(|s|, i requires 0 <= i < |s| => if s[i] == c then d else s[i])
  }

  // ---------------------------------------------------------------------
  // Splitting and joining

  /** `sep.join(parts)`. */
  function Join(sep: string, parts: seq<string>): string
  {
    if |parts| == 0 then ""
    else if |parts| == 1 then parts[0]
    else parts[0] + sep + Join(sep, parts[1..])
  }

  /** `s.split(sep)` for a one-character separator: always at least one part. */
  function Split(s: string, sep: char): (r: seq<string>)
    ensures |r| >= 1
  {
    if s == [] then [""]
    else
      var rest := Split(s[1..], sep);
      if s[0] == sep then [""] + rest
      else [[s[0]] + rest[0]] + rest[1..]
  }

  /** No part of `s.split(sep)` contains `sep`. */
  lemma {:induction false} SplitPartsFree(s: string, sep: char)
    ensures forall i :: 0 <= i < |Split(s, sep)| ==> sep !in Split(s, sep)[i]
  {
    if s != [] {
      SplitPartsFree(s[1..], sep);
    }
  }

  lemma JoinCons(sep: string, c: char, parts: seq<string>)
    requires |parts| >= 1
    ensures Join(sep, [[c] + parts[0]] + parts[1..]) == [c] + Join(sep, parts)
  {
  }

  /** Joining the parts of a split with the separator gives back the string. */
  lemma {:induction false} SplitJoin(s: string, sep: char)
    ensures Join([sep], Split(s, sep)) == s
  {
    if s != [] {
      var rest := Split(s[1..], sep);
      SplitJoin(s[1..], sep);
      if s[0] == sep {
        assert Split(s, sep) == [""] + rest;
      } else {
        JoinCons([sep], s[0], rest);
      }
    }
  }

  /** A string with no separator is its own single part. */
  lemma {:induction false} SplitFree(s: string, sep: char)
    requires sep !in s
    ensures Split(s, sep) == [s]
  {
    if s != [] {
      SplitFree(s[1..], sep);
      assert [s[0]] + s[1..] == s;
    }
  }

  /** Two separator-free strings joined by the separator split back into
      those two strings. */
  lemma {:induction false} SplitPair(a: string, b: string, sep: char)
    requires sep !in a && sep !in b
    ensures Split(a + [sep] + b, sep) == [a, b]
    decreases |a|
  {
    var s := a + [sep] + b;
    if a == [] {
      assert s == [sep] + b;
      assert s[1..] == b;
      SplitFree(b, sep);
    } else {
      assert s[1..] == a[1..] + [sep] + b;
      SplitPair(a[1..], b, sep);
      assert [a[0]] + a[1..] == a;
    }
  }

  /** Splitting at one separator splits the two sides independently. */
  lemma {:induction false} SplitConcat(a: string, b: string, sep: char)
    ensures Split(a + [sep] + b, sep) == Split(a, sep) + Split(b, sep)
    decreases |a|
  {
    var s := a + [sep] + b;
    if a == [] {
      assert s == [sep] + b && s[1..] == b;
    } else {
      assert s[0] == a[0] && s[1..] == a[1..] + [sep] + b;
      SplitConcat(a[1..], b, sep);
    }
  }

  /** Splitting a join of separator-free parts gives the parts back. */
  lemma {:induction false} JoinSplit(parts: seq<string>, sep: char)
    requires |parts| >= 1
    requires forall i :: 0 <= i < |parts| ==> sep !in parts[i]
    ensures Split(Join([sep], parts), sep) == parts
  {
    if |parts| == 1 {
      SplitFree(parts[0], sep);
    } else {
      JoinSplit(parts[1..], sep);
      SplitConcat(parts[0], Join([sep], parts[1..]), sep);
      SplitFree(parts[0], sep);
      assert parts == [parts[0]] + parts[1..];
    }
  }

  /** `s.replace(c, "")`: every `c` removed, the rest in order. */
  function RemoveChar(s: string, c: char): (r: string)
    ensures |r| <= |s|
    ensures forall x :: x in r <==> x in s && x != c
  {
    if s == [] then []
    else (if s[0] == c then [] else [s[0]]) + RemoveChar(s[1..], c)
  }

  /** Removing a character that does not occur changes nothing. */
  lemma {:induction false} RemoveCharAbsent(s: string, c: char)
    requires c !in s
    ensures RemoveChar(s, c) == s
  {
    if s != [] {
      RemoveCharAbsent(s[1..], c);
      assert [s[0]] + s[1..] == s;
    }
  }

  /** Replacing a character that does not occur changes nothing. */
  lemma ReplaceCharAbsent(s: string, c: char, d: char)
    requires c !in s
    ensures ReplaceChar(s, c, d) == s
  {
    assert forall i :: 0 <= i < |s| ==> s[i] != c;
  }

  /** End of the run of non-blank characters that starts at `i`. */
  function TokenEnd(s: string, i: nat): (k: nat)
    requires i <= |s|
    ensures i <= k <= |s|
    ensures forall j :: i <= j < k ==> !IsSpace(s[j])
    ensures k < |s| ==> IsSpace(s[k])
    ensures i < |s| && !IsSpace(s[i]) ==> k > i
    decreases |s| - i
  {
    if i == |s| || IsSpace(s[i]) then i else TokenEnd(s, i + 1)
  }

  /** A token of `s.split()`: non-empty and free of blanks. */
  predicate IsWord(w: string) {
    w != "" && forall j :: 0 <= j < |w| ==> !IsSpace(w[j])
  }

  /** `s.split()`: the maximal runs of non-blank characters, in order. */
  function Words(s: string): (r: seq<string>)
    ensures forall i :: 0 <= i < |r| ==> IsWord(r[i])
    decreases |s|
  {
    if s == [] then []
    else if IsSpace(s[0]) then Words(s[1..])
    else
      var k := TokenEnd(s, 0);
      [s[..k]] + Words(s[k..])
  }

  lemma {:induction false} TokenEndAfterWord(s: string, w: string, i: nat)
    requires IsWord(w) && i <= |w| <= |s| && s[..|w|] == w
    requires |w| == |s| || IsSpace(s[|w|])
    ensures TokenEnd(s, i) == |w|
    decreases |w| - i
  {
    if i < |w| {
      assert s[i] == w[i];
      TokenEndAfterWord(s, w, i + 1);
    }
  }

  /** Splitting a space-joined sequence of words gives the words back:
      `' '.join(t).split() == list(t)`. */
  lemma {:induction false} WordsJoin(ws: seq<string>)
    requires forall i :: 0 <= i < |ws| ==> IsWord(ws[i])
    ensures Words(Join(" ", ws)) == ws
  {
    if |ws| == 1 {
      var w := ws[0];
      TokenEndAfterWord(w, w, 0);
      assert w[|w|..] == [];
    } else if |ws| > 1 {
      var w := ws[0];
      var rest := Join(" ", ws[1..]);
      var s := w + " " + rest;
      assert Join(" ", ws) == s;
      assert s[..|w|] == w;
      assert s[|w|] == ' ';
      TokenEndAfterWord(s, w, 0);
      assert !IsSpace(s[0]);
      assert s[|w|..][1..] == rest;
      WordsJoin(ws[1..]);
      assert Words(s[|w|..]) == Words(rest);
    }
  }

  // ---------------------------------------------------------------------
  // The two regular expressions

  function SkipDigits(s: string): (r: string)
    ensures |r| <= |s|
  {
    if s != [] && IsDigit(s[0]) then SkipDigits(s[1..]) else s
  }

  /** `re.split('\W[0-9]*', s)`: every non-word character, together with the
      digits right after it, separates two parts. */
  function SplitNonWord(s: string): (r: seq<string>)
    ensures |r| >= 1
    decreases |s|
  {
    if s == [] then [""]
    else if !IsWordChar(s[0]) then [""] + SplitNonWord(SkipDigits(s[1..]))
    else
      var rest := SplitNonWord(s[1..]);
      [[s[0]] + rest[0]] + rest[1..]
  }

  predicate AllWordChars(s: string) {
    forall i :: 0 <= i < |s| ==> IsWordChar(s[i])
  }

  /** Every part of `re.split('\W[0-9]*', s)` is made of word characters. */
  lemma {:induction false} SplitNonWordParts(s: string)
    ensures forall i :: 0 <= i < |SplitNonWord(s)| ==> AllWordChars(SplitNonWord(s)[i])
    decreases |s|
  {
    if s != [] {
      if !IsWordChar(s[0]) {
        SplitNonWordParts(SkipDigits(s[1..]));
      } else {
        SplitNonWordParts(s[1..]);
        var rest := SplitNonWord(s[1..]);
        assert SplitNonWord(s) == [[s[0]] + rest[0]] + rest[1..];
      }
    }
  }

  function SkipNonWord(s: string): (r: string)
    ensures |r| <= |s|
    ensures r != [] ==> IsWordChar(r[0])
  {
    if s != [] && !IsWordChar(s[0]) then SkipNonWord(s[1..]) else s
  }

  /** `re.sub(r'\W+', '_', s)`: every maximal run of non-word characters
      becomes one `_`. */
  function SubNonWordRuns(s: string): (r: string)
    decreases |s|
  {
    if s == [] then []
    else if IsWordChar(s[0]) then [s[0]] + SubNonWordRuns(s[1..])
    else "_" + SubNonWordRuns(SkipNonWord(s[1..]))
  }

  /** The result of `re.sub(r'\W+', '_', s)` holds only word characters. */
  lemma {:induction false} SubNonWordRunsWordOnly(s: string)
    ensures AllWordChars(SubNonWordRuns(s))
    decreases |s|
  {
    if s != [] {
      if IsWordChar(s[0]) {
        SubNonWordRunsWordOnly(s[1..]);
      } else {
        SubNonWordRunsWordOnly(SkipNonWord(s[1..]));
      }
    }
  }

  /** A string of word characters has no non-word run to replace. */
  lemma {:induction false} SubNonWordRunsFixed(s: string)
    requires AllWordChars(s)
    ensures SubNonWordRuns(s) == s
  {
    if s != [] {
      SubNonWordRunsFixed(s[1..]);
    }
  }

  // ---------------------------------------------------------------------
  // int() and str() on integers

  predicate AllDigits(s: string) {
    forall i :: 0 <= i < |s| ==> IsDigit(s[i])
  }

  function DigitValue(c: char): nat
    requires IsDigit(c)
  {
    c as int - '0' as int
  }

  function DigitsValue(s: string): nat
    requires AllDigits(s)
  {
    if s == [] then 0 else DigitsValue(s[..|s| - 1]) * 10 + DigitValue(s[|s| - 1])
  }

  /** `int(s)` for a `str` argument: surrounding blanks are ignored, then an
      optional sign and at least one decimal digit. */
  function ParseInt(s: string): Option<int>
  {
    ParseStripped(Strip(s))
  }

  /** `int()` of a string with no surrounding blanks. */
  function ParseStripped(t: string): Option<int>
  {
    if |t| >= 2 && t[0] == '-' && AllDigits(t[1..]) then Some(-(DigitsValue(t[1..]) as int))
    else if |t| >= 2 && t[0] == '+' && AllDigits(t[1..]) then Some(DigitsValue(t[1..]))
    else if |t| >= 1 && AllDigits(t) then Some(DigitsValue(t))
    else None
  }

  function DigitChar(d: nat): (c: char)
    requires d < 10
    ensures IsDigit(c) && DigitValue(c) == d
  {
    ('0' as int + d) as char
  }

  function NatToStr(n: nat): (s: string)
    ensures |s| >= 1 && AllDigits(s)
  {
    if n < 10 then [DigitChar(n)] else NatToStr(n / 10) + [DigitChar(n % 10)]
  }

  /** `str(n)`. */
  function IntToStr(n: int): string
  {
    if n < 0 then "-" + NatToStr(-n) else NatToStr(n)
  }

  lemma {:induction false} NatToStrValue(n: nat)
    ensures DigitsValue(NatToStr(n)) == n
  {
    if n >= 10 {
      NatToStrValue(n / 10);
      var s := NatToStr(n);
      assert s[..|s| - 1] == NatToStr(n / 10);
    }
  }

  lemma {:induction false} StripUnchanged(s: string)
    requires s != [] && !IsSpace(s[0]) && !IsSpace(s[|s| - 1])
    ensures Strip(s) == s
  {
    assert TrimLeft(s, false) == s;
    assert TrimRight(s, false) == s;
  }

  lemma {:induction false} ParseIntNonNegative(n: nat)
    ensures ParseInt(NatToStr(n)) == Some(n)
  {
    var s := NatToStr(n);
    NatToStrValue(n);
    StripUnchanged(s);
    assert ParseInt(s) == ParseStripped(s);
    assert !(s[0] == '-' || s[0] == '+');
  }

  /** A minus sign followed by digits parses to the negated digits. */
  lemma ParseMinus(d: string)
    requires d != [] && AllDigits(d)
    ensures ParseInt("-" + d) == Some(-(DigitsValue(d) as int))
  {
    var s := "-" + d;
    assert s[1..] == d;
    assert !IsSpace(s[|s| - 1]) by {
      assert s[|s| - 1] == d[|d| - 1];
      assert IsDigit(d[|d| - 1]);
    }
    StripUnchanged(s);
    assert ParseStripped(s) == Some(-(DigitsValue(d) as int));
  }

  lemma {:induction false} ParseIntToStrNegative(n: int)
    requires n < 0
    ensures ParseInt(IntToStr(n)) == Some(n)
  {
    var m: nat := -n;
    var d := NatToStr(m);
    NatToStrValue(m);
    ParseMinus(d);
    assert IntToStr(n) == "-" + d;
  }

  /** `int(str(n)) == n`. */
  lemma {:induction false} ParseIntToStr(n: int)
    ensures ParseInt(IntToStr(n)) == Some(n)
  {
    if n < 0 {
      ParseIntToStrNegative(n);
    } else {
      ParseIntNonNegative(n);
    }
  }
}
