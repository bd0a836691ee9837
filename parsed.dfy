/** The volume objects of parsing/parsed.py. A `Parsed` volume carries its
    publication data and eight token or sentence lists that the parsers fill
    in; a `RedditComment` carries a comment's data and four token lists.
    Every method appends to or extends exactly one of these. */
module ParsedObjects {
  import opened Wrappers

  /** The publication data of a `Parsed` volume. `build_json` tests title,
      author, publisher, document type and HTID against `None`, so those may
      be missing; the others are always strings. */
  datatype Metadata = Metadata(
    t: Option<string>, a: Option<string>, p: Option<string>, y: string, i: string,
    d: Option<string>, ch: string, h: Option<string>, url: string)

  /** The eight lists of a `Parsed` volume: full, stemmed, filtered and
      filtered-stemmed tokens, then the same four as sentences. */
  datatype TextLists = TextLists(
    c: seq<string>, cstem: seq<string>, tx: seq<string>, txstem: seq<string>,
    cSent: seq<string>, txSent: seq<string>, cstemSent: seq<string>, txstemSent: seq<string>)

  const NoText := TextLists([], [], [], [], [], [], [], [])

  /** The metadata of a volume made by `Parsed()` with no arguments. */
  const NewMeta := Metadata(Some(""), Some(""), Some(""), "2000 ", "", Some(""), "", Some(""), "")

  class Parsed {
    var t: Option<string>
    var a: Option<string>
    var p: Option<string>
    var y: string
    var i: string
    var d: Option<string>
    var ch: string
    var h: Option<string>
    var url: string
    var c: seq<string>
    var cstem: seq<string>
    var tx: seq<string>
    var txstem: seq<string>
    var cSent: seq<string>
    var txSent: seq<string>
    var cstemSent: seq<string>
    var txstemSent: seq<string>

    function Meta(): Metadata
      reads this
    {
      Metadata(t, a, p, y, i, d, ch, h, url)
    }

    function Lists(): TextLists
      reads this
    {
      TextLists(c, cstem, tx, txstem, cSent, txSent, cstemSent, txstemSent)
    }

    /** `Parsed()`: every list starts empty and the period defaults to
        `"2000 "`. */
    constructor(title: Option<string> := Some(""), author: Option<string> := Some(""),
                pubInfo: Option<string> := Some(""), years: string := "2000 ", isbn: string := "",
                docType: Option<string> := Some(""), chapters: string := "",
                htid: Option<string> := Some(""), url: string := "")
      ensures Meta() == Metadata(title, author, pubInfo, years, isbn, docType, chapters, htid, url)
      ensures Lists() == NoText
    {
      t, a, p, y, i := title, author, pubInfo, years, isbn;
      d, ch, h, this.url := docType, chapters, htid, url;
      c, cstem, tx, txstem := [], [], [], [];
      cSent, txSent, cstemSent, txstemSent := [], [], [], [];
    }

    method AddContentSent(text: string)
      modifies this
      ensures Meta() == old(Meta())
      ensures Lists() == old(Lists()).(cSent := old(cSent) + [text])
    {
      cSent := cSent + [text];
    }

    method AddFilteredSent(text: string)
      modifies this
      ensures Meta() == old(Meta())
      ensures Lists() == old(Lists()).(txSent := old(txSent) + [text])
    {
      txSent := txSent + [text];
    }

    method AddStemmedSent(text: string)
      modifies this
      ensures Meta() == old(Meta())
      ensures Lists() == old(Lists()).(cstemSent := old(cstemSent) + [text])
    {
      cstemSent := cstemSent + [text];
    }

    method AddFilteredStemmedSent(text: string)
      modifies this
      ensures Meta() == old(Meta())
      ensures Lists() == old(Lists()).(txstemSent := old(txstemSent) + [text])
    {
      txstemSent := txstemSent + [text];
    }

    method AddContent(text: seq<string>)
      modifies this
      ensures Meta() == old(Meta())
      ensures Lists() == old(Lists()).(c := old(c) + text)
    {
      c := c + text;
    }

    method AddFiltered(text: seq<string>)
      modifies this
      ensures Meta() == old(Meta())
      ensures Lists() == old(Lists()).(tx := old(tx) + text)
    {
      tx := tx + text;
    }

    method AddStemmed(text: seq<string>)
      modifies this
      ensures Meta() == old(Meta())
      ensures Lists() == old(Lists()).(cstem := old(cstem) + text)
    {
      cstem := cstem + text;
    }

    method AddFilteredStemmed(text: seq<string>)
      modifies this
      ensures Meta() == old(Meta())
      ensures Lists() == old(Lists()).(txstem := old(txstem) + text)
    {
      txstem := txstem + text;
    }

    /** `add_chapter`: the chapter and a `", "` go on the end of `ch`. */
    method AddChapter(chapter: string)
      modifies this
      ensures Meta() == old(Meta()).(ch := old(ch) + chapter + ", ")
      ensures Lists() == old(Lists())
    {
      ch := ch + chapter + ", ";
    }
  }

  /** The data of a Reddit comment. */
  datatype CommentData = CommentData(
    subId: string, author: string, date: string, score: int, upvotes: int,
    controversy: int, commentId: string)

  /** Its four token lists: text, filtered, stemmed and filtered-stemmed. */
  datatype CommentLists = CommentLists(
    text: seq<string>, filtered: seq<string>, stemmed: seq<string>, fStemmed: seq<string>)

  class RedditComment {
    var subId: string
    var author: string
    var date: string
    var score: int
    var upvotes: int
    var controversy: int
    var commentId: string
    var text: seq<string>
    var filtered: seq<string>
    var stemmed: seq<string>
    var fStemmed: seq<string>

    function Data(): CommentData
      reads this
    {
      CommentData(subId, author, date, score, upvotes, controversy, commentId)
    }

    function Lists(): CommentLists
      reads this
    {
      CommentLists(text, filtered, stemmed, fStemmed)
    }

    constructor(subId: string := "", author: string := "", date: string := "", score: int := 0,
                upvotes: int := 0, controversy: int := 0, commentId: string := "")
      ensures Data() == CommentData(subId, author, date, score, upvotes, controversy, commentId)
      ensures Lists() == CommentLists([], [], [], [])
    {
      this.subId, this.author, this.date, this.score := subId, author, date, score;
      this.upvotes, this.controversy, this.commentId := upvotes, controversy, commentId;
      text, filtered, stemmed, fStemmed := [], [], [], [];
    }

    method AddContent(ws: seq<string>)
      modifies this
      ensures Data() == old(Data())
      ensures Lists() == old(Lists()).(text := old(text) + ws)
    {
      text := text + ws;
    }

    method AddFiltered(ws: seq<string>)
      modifies this
      ensures Data() == old(Data())
      ensures Lists() == old(Lists()).(filtered := old(filtered) + ws)
    {
      filtered := filtered + ws;
    }

    method AddStemmed(ws: seq<string>)
      modifies this
      ensures Data() == old(Data())
      ensures Lists() == old(Lists()).(stemmed := old(stemmed) + ws)
    {
      stemmed := stemmed + ws;
    }

    method AddFilteredStemmed(ws: seq<string>)
      modifies this
      ensures Data() == old(Data())
      ensures Lists() == old(Lists()).(fStemmed := old(fStemmed) + ws)
    {
      fStemmed := fStemmed + ws;
    }
  }
}
