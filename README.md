# corpus — a Dafny model of the period-bucketed text statistics engine

This project models the core of `corpus`, a Python toolkit for studying
collections of digitised books. Each volume is a JSON record with a
publication year and one or more token fields. The engine reads every
record in a directory and groups the records into periods (`[start, end)`
ranges of years, stepped by an increment). Over those periods it computes:

- raw and percentage word frequencies;
- tf-idf scores;
- per-keyword frequency series ("graphs").

It can also copy the volumes that match a keyword query into a
sub-corpus. Beside the engine sit the ingestion scripts that turn
Gutenberg, Runeberg, Språkbanken, Dutch XML and spreadsheet sources into
those JSON records. They rely on shared parsing helpers (`Parsed` objects,
stop-word and text filtering, date and title clean-up).

The model has one Dafny module per core Python file:

- **Frequency and tf-idf:** `CorpusFrequency`, `SrcFrequency`,
  `RawFrequency`, `TfidfCorpus`, `TfidfSrc`, `TfidfAuthor` and `Gensim`.
- **Results, graphs and sub-corpora:** `Results`, `Graph`, `SubCorpus`,
  `SrcSubCorpus` and `CorpusUtils`.
- **Parsing helpers:** `ParsingUtils` and `ParsedObjects`.
- **Ingestion scripts:**
  - `GutenbergTxt`, `GutenbergCrawler`, `RunebergDirs`, `RunebergRaw`,
    `BankenTxt`, `BankenCrawler` and `DutchXml`, with the helpers they
    share in `LitShared`;
  - `Cells`, `XcelToCsv` and `SwedishXlsx` for spreadsheets;
  - `DmCsv` and `FormatBritish`.

A few modules give the Python behaviour these files rely on, stated once:

- `Wrappers`: `Option` and `Result`, where an exception is an `Err`
  carrying the Python exception class.
- `PyStr`: `split`, `strip`, `int()`, `str()` and the like.
- `PyList` and `PyDict`: list and dict operations.
- `Sorting`: Python's stable `sorted` with a key.
- `Records`: decoded JSON values and key lookup.
- `Imports`: the module-level names of the modules involved, and Python's
  rules for `from … import`, star imports and global names.

Objects whose fields the Python code updates in place are classes whose
methods state the new state against specification functions:

- `CorpusFrequency.Frequency` and `CorpusFrequency.FrequencyLists`, with
  their `SrcFrequency` twins;
- `RawFrequency.RawFrequency`;
- `TfidfCorpus.Tfidf` and `TfidfAuthor.TfidfAuthor`;
- `Graph.GraphFrequency`;
- `Results.FrequencyResults` and `Results.ClusterResults`;
- `ParsedObjects.Parsed` and `ParsedObjects.RedditComment`.

The pure helpers are functions, with lemmas for the properties the code
relies on or promises:

- round trips (a year written out reads back);
- the period lookup (a year in range falls in exactly one period);
- ordering and stability of the sorts;
- frame conditions (what an update leaves alone).

`src/graph/__init__.py` and `corpus/graph/__init__.py` define the same
`GraphFrequency` class. Outside plotting they differ only in
`check_colors`, which in src asserts that a colour list has one colour per
corpus. The same `Graph.GraphFrequency` class models both copies, and
`Graph.GraphFrequency.CheckColorsStrict` models the stricter check. Their
plotting code differs as well: only corpus/graph has `construct_bars`, and
the two `create_plot` methods take different flags (`total_only` against
`include_total`, with a `colors_idx` counter in src). Plotting is left
out, so neither difference is modelled.

Where the code cannot run as written (see "## Findings"), the model
states the failure and then models the evident intent. Otherwise it
follows the code as written, including its quirks:

- For a period's first volume, corpus/nlp/frequency.py recreates `FDIST`
  before every n-gram. Only the last n-gram survives.
- A stop-word list of plain strings cannot remove n-gram tuples.

Lemmas state the consequences of each quirk.

## Model

| member | source | states |
|---|---|---|
| Records.Get | corpus/nlp/frequency.py:114 | `rec[key]` yields the stored value exactly when the key is present and `KeyError` otherwise |
| Records.IntOf | corpus/nlp/frequency.py:114 | `int(x)` of a decoded JSON value: an integer is itself, a boolean is 1 or 0, a string parses or raises `ValueError`, and a list, dict or null raises `TypeError` |
| Records.IntOfStr | corpus/nlp/frequency.py:45 | a year written out as a string reads back as the same year |
| Records.Tokens | corpus/nlp/frequency.py:120 | iterating a JSON value: a token list yields its tokens, a string its one-character strings, a dict its keys; a number, boolean or null raises `TypeError` |
| Records.Volumes | corpus/nlp/frequency.py:162-175 | the walk reads the volumes of every visible file that decodes, in file order, and none from an empty directory |
| Records.FileVolumes | corpus/nlp/frequency.py:164-172 | a hidden or undecodable file contributes nothing; any other file its volumes in key order |
| Records.VolumesAt | corpus/nlp/frequency.py:162-172 | walking from file `i` reads that file's volumes and then the rest |
| Records.VolumesSkip | corpus/nlp/frequency.py:164-175 | a hidden or undecodable file leaves the volumes read unchanged |
| Records.TupleStops | corpus/nlp/frequency.py:123 | the n-grams `text[i] in stop_words` matches are exactly the tuple members of the stop words |
| Records.StringStops | corpus/nlp/frequency.py:123 | the single tokens the stop words match are exactly their string members |
| Records.StringStopsKeepNgrams | corpus/nlp/frequency.py:122-124 | a stop-word collection of plain strings deletes nothing from a list of n-gram tuples |
| Records.SetupStopWords | corpus/nlp/tf_idf.py:30-54 | `None` gives an empty container, a list its set, a path the words its file lists, anything else is kept as given |
| CorpusUtils.BuildKeys | corpus/utils.py:17-22 | one keyword tuple per input string, in order, each the string's whitespace split into non-empty, blank-free tokens |
| CorpusUtils.BuildKeysJoin | corpus/utils.py:22 | space-joining a keyword tuple and splitting it again gives the tuple back, so joined keywords name their tuples unambiguously |
| CorpusUtils.ZeroTableFor | corpus/utils.py:38-41 | the nested year entry of `num_dict` holds `'TOTAL'` and every keyword, each 0, and nothing else |
| CorpusUtils.EmptyListTableFor | corpus/utils.py:62-65 | the nested year entry of `list_dict` holds every keyword with `[]`, and `'TOTAL'` only once some keyword has been seen |
| CorpusUtils.NumEntry | corpus/utils.py:34-44 | the value stored per year: 0 for `nested == 0`, the zero table for `nested == 1`, `TypeError` when iterating a missing keyword list, `_fail` otherwise |
| CorpusUtils.ListEntry | corpus/utils.py:58-68 | the value stored per year: `[]` for `nested == 0`, the empty-list table for `nested == 1`, `TypeError` for a missing keyword list, `_fail` otherwise |
| CorpusUtils.NumDict | corpus/utils.py:25-46 | an empty year list gives `{}`; otherwise the keys are the distinct years in first-occurrence order, each with its initial value, or the first pass fails with `_fail` / `TypeError` |
| CorpusUtils.ListDict | corpus/utils.py:49-70 | as `num_dict` with empty lists at the leaves and `'TOTAL'` only for a non-empty keyword list |
| CorpusUtils.NumNext | corpus/utils.py:32-41 | one pass of `num_dict`'s year loop keeps its invariant: the years read so far are the keys, in first-occurrence order |
| CorpusUtils.ListNext | corpus/utils.py:56-65 | one pass of `list_dict`'s year loop keeps the same invariant |
| CorpusUtils.PutNextYear | corpus/utils.py:35 | assigning `results[year]` extends the key order by the year exactly when it is new |
| CorpusUtils.DetermineYear | corpus/utils.py:86-97 | the result is the lower bound of a period `[year_list[i], year_list[i+1])` that contains the year, and `_fail` exactly when no period does |
| CorpusUtils.SearchFrom | corpus/utils.py:92-97 | the loop from index `i`: a containing period at or after `i`, or `_fail` when none remains |
| CorpusUtils.SearchFromFirst | corpus/utils.py:92-95 | the loop returns the first period that contains the year |
| CorpusUtils.DetermineYearUnique | corpus/utils.py:86-95 | for a strictly increasing year list the year maps to the lower bound of its unique period |
| CorpusUtils.DetermineYearOutside | corpus/utils.py:92-97 | a year before the first bound or at or after the last one reaches `_fail` instead of being clamped |
| CorpusUtils.DetermineYearInside | corpus/utils.py:92-95 | a year inside the overall range always finds a period, whose lower bound is at most the year |
| ParsedObjects.Parsed.constructor | parsing/parsed.py:7-25 | the metadata fields take the arguments (title, author, publisher, period `"2000 "`, …) and every text list starts empty |
| ParsedObjects.Parsed.AddContentSent | parsing/parsed.py:27-28 | the sentence is appended to `c_sent`; nothing else changes |
| ParsedObjects.Parsed.AddFilteredSent | parsing/parsed.py:30-31 | the sentence is appended to `tx_sent`; nothing else changes |
| ParsedObjects.Parsed.AddStemmedSent | parsing/parsed.py:33-34 | the sentence is appended to `cstem_sent`; nothing else changes |
| ParsedObjects.Parsed.AddFilteredStemmedSent | parsing/parsed.py:36-37 | the sentence is appended to `txstem_sent`; nothing else changes |
| ParsedObjects.Parsed.AddContent | parsing/parsed.py:39-40 | the tokens extend `c`; nothing else changes |
| ParsedObjects.Parsed.AddFiltered | parsing/parsed.py:42-43 | the tokens extend `tx`; nothing else changes |
| ParsedObjects.Parsed.AddStemmed | parsing/parsed.py:45-46 | the tokens extend `cstem`; nothing else changes |
| ParsedObjects.Parsed.AddFilteredStemmed | parsing/parsed.py:48-49 | the tokens extend `txstem`; nothing else changes |
| ParsedObjects.Parsed.AddChapter | parsing/parsed.py:51-52 | the chapter and `", "` go on the end of `ch`; the lists are unchanged |
| ParsedObjects.RedditComment.constructor | parsing/parsed.py:59-80 | the comment data take the arguments and the four lists start empty |
| ParsedObjects.RedditComment.AddContent | parsing/parsed.py:82-83 | the tokens extend `text`; nothing else changes |
| ParsedObjects.RedditComment.AddFiltered | parsing/parsed.py:85-86 | the tokens extend `filtered`; nothing else changes |
| ParsedObjects.RedditComment.AddStemmed | parsing/parsed.py:88-89 | the tokens extend `stemmed`; nothing else changes |
| ParsedObjects.RedditComment.AddFilteredStemmed | parsing/parsed.py:91-92 | the tokens extend `f_stemmed`; nothing else changes |
| ParsingUtils.Cleaned | parsing/utils.py:259-265 | the reverse loop keeps the parts that are neither `""` nor `"None"`, lower-cased, in their original order, and never lengthens the list |
| ParsingUtils.CleanedIsRemoveAll | parsing/utils.py:259-265 | the loop is "delete the empty and `None` parts, lower-case the rest" |
| ParsingUtils.CleanedClean | parsing/utils.py:257-265 | parts made of word characters clean to non-empty lower-case word tokens |
| ParsingUtils.TokenizeClean | parsing/utils.py:251-267 | every token `clean_text` returns is non-empty, made of word characters and lower-case |
| ParsingUtils.CleanedFixed | parsing/utils.py:259-265 | clean tokens pass through the loop unchanged |
| ParsingUtils.CleanTwice | parsing/utils.py:251-267 | cleaning the tokens of a text again changes nothing |
| ParsingUtils.CleanText | parsing/utils.py:251-267 | the split-then-reverse-delete loop returns exactly the tokens of the text |
| ParsingUtils.TokenizeLatin1 | parsing/utils.py:257 | `\W` splits at Latin-1 punctuation such as `«` but not inside a Latin-1 letter such as `Å`, which `lower()` folds to `å` |
| ParsingUtils.CleanStep | parsing/utils.py:262-265 | one turn of the loop at index `i` either deletes the part or lower-cases it, extending the cleaned suffix by one part |
| ParsingUtils.FilterText | parsing/utils.py:270-282 | the reverse `del` loop removes exactly the stop words: no stop word remains and every other word keeps its count and order |
| ParsingUtils.StemText | parsing/utils.py:285-296 | one stem per token, in order |
| ParsingUtils.NextBreak | parsing/utils.py:110 | the first position where `(?<=[.!?]) +` matches at or after `j`, with no match before it |
| ParsingUtils.SkipSpaces | parsing/utils.py:110 | the matched run of spaces is consumed entirely |
| ParsingUtils.Sentences | parsing/utils.py:110 | the pieces of `re.split`: every piece but the last is non-empty and ends with `.`, `!` or `?`, no piece contains a cut point and none after the first starts with a space |
| ParsingUtils.SentencesJoin | parsing/utils.py:110 | splitting space-joined well-formed sentences gives the sentences back |
| ParsingUtils.NoBreakNext | parsing/utils.py:110 | a text without a cut point has no match |
| ParsingUtils.NoBreakPrefix | parsing/utils.py:110 | the first match in a joined text is at the end of its first sentence |
| ParsingUtils.JoinFirst | parsing/utils.py:110 | a join of sentences starts with its first sentence |
| ParsingUtils.NoTextConsistent | parsing/parsed.py:17-25 | a fresh volume's empty lists are consistent |
| ParsingUtils.JoinWords | parsing/utils.py:116 | a space-joined row of clean tokens splits back into those tokens |
| ParsingUtils.RemoveAllClean | parsing/utils.py:270-282 | filtering clean tokens leaves clean tokens |
| ParsingUtils.AddSentenceConsistent | parsing/utils.py:113-124 | one sentence's rows keep the lists consistent: stemmed rows are the stems of the plain rows, filtered rows have no stop word |
| ParsingUtils.AddSentencesConsistent | parsing/utils.py:112-124 | the whole sentence loop keeps the lists consistent |
| ParsingUtils.StemmedAppend | parsing/utils.py:293-294 | stemming two lists in turn is stemming their concatenation |
| ParsingUtils.AllCleanAppend | parsing/utils.py:129 | extending clean token lists by clean tokens keeps them clean |
| ParsingUtils.AddTokensConsistent | parsing/utils.py:126-141 | adding a text's tokens, stems, filtered tokens and filtered stems keeps the lists consistent |
| ParsingUtils.AddTextConsistent | parsing/utils.py:105-141 | `add_content` keeps a volume's lists consistent |
| ParsingUtils.AddContent | parsing/utils.py:105-141 | the metadata is unchanged and the lists are extended by the text's sentence rows and tokens, as `AddText` states |
| ParsingUtils.AddLinesConsistent | parsing/utils.py:105-141 | feeding a file line by line keeps the lists consistent |
| ParsingUtils.AddLinesAppend | parsing/utils.py:105-141 | lines added in two batches give the same lists as in one |
| ParsingUtils.AddEachLine | parsing/utils.py:105-141 | calling `add_content` on each line in turn gives `AddLines` of the old lists; the metadata is unchanged |
| ParsingUtils.AddRedditContent | parsing/utils.py:144-164 | the comment's data are unchanged; its lists are extended by the tokens, their stems, the tokens without English stop words and their stems |
| ParsingUtils.NonBlank | parsing/utils.py:97-99 | the kept entries are members of the input that do not strip to nothing, in order |
| ParsingUtils.RemoveAllBlanks | parsing/utils.py:97-99 | deleting the blank entries is keeping the non-blank ones |
| ParsingUtils.FilterChapters | parsing/utils.py:90-102 | the reverse-delete loop and join give `", ".join` of the non-blank entries of the comma split |
| ParsingUtils.ChapterListAppend | parsing/parsed.py:51-52 | one more `add_chapter` appends the chapter and `", "` |
| ParsingUtils.SplitChapters | parsing/utils.py:95 | the comma split of accumulated chapters is each name after a space, plus a trailing blank entry |
| ParsingUtils.StripSpaceFirst | parsing/utils.py:98 | a leading space does not change the stripped entry |
| ParsingUtils.JoinPieces | parsing/utils.py:97-100 | the non-blank pieces joined with `", "` are the names joined with `",  "` |
| ParsingUtils.NonBlankKeep | parsing/utils.py:98 | a first entry that is not blank is kept |
| ParsingUtils.PieceKept | parsing/utils.py:98 | an entry holding a chapter name survives the filter |
| ParsingUtils.FilterAddedChapters | parsing/utils.py:90-102 | after `add_chapter` for each name, `filter_chapters` joins the names with a comma and two spaces (each entry keeps the space `add_chapter` put after its comma) |
| ParsingUtils.OneLine | parsing/utils.py:53-56 | a field with its line breaks replaced by spaces has no line break |
| ParsingUtils.Filled | parsing/utils.py:40-56 | every missing title, author, publisher, document type or HTID and an empty ISBN gets its placeholder; the first four lose their line breaks; period, URL and chapters are untouched; an existing HTID or ISBN is kept |
| ParsingUtils.FilledKeeps | parsing/utils.py:40-56 | a present field without line breaks is kept as it is |
| ParsingUtils.DefaultedTwice | parsing/utils.py:35-57 | building the record a second time fills in nothing more; only the chapter list is filtered again |
| ParsingUtils.VolumeReadBack | parsing/utils.py:59-65 | the record's `Date`, `Text`, `Filtered`, `Stemmed` and `Filtered Stemmed` entries are the period and the four token lists |
| ParsingUtils.BuildJson | parsing/utils.py:35-66 | the metadata is filled in and its chapters filtered in place, the lists are unchanged, and the record lays out the new fields |
| ParsingUtils.FillIn | parsing/utils.py:40-56 | the placeholders and line-break replacement leave the metadata equal to `Filled` of the old metadata and the lists unchanged |
| ParsingUtils.BuildRedditJson | parsing/utils.py:69-87 | reading the never-set `subreddit` attribute raises `AttributeError`; with it, the entry holds the comment's fields and lists |
| CorpusFrequency.DetectN | corpus/nlp/frequency.py:92-106 | 1 without keys; otherwise the one token count every key shares, and a failed assertion for an empty or mixed list |
| CorpusFrequency.LastOnly | corpus/nlp/frequency.py:129-136 | in a period's first volume `FDIST` is recreated before every n-gram: only the last distinct n-gram survives, with its count in a one-element list; no n-grams leave no `FDIST` |
| CorpusFrequency.AppendCounts | corpus/nlp/frequency.py:140-145 | a later volume's counts give a well-formed ordered table |
| CorpusFrequency.AppendCountsEntries | corpus/nlp/frequency.py:140-145 | every distinct n-gram of the volume gets exactly one new count, its count in the volume, appended to its list or starting one; every other n-gram keeps its list |
| CorpusFrequency.AppendCountsHas | corpus/nlp/frequency.py:140-145 | the n-grams present after a volume are the old ones and the volume's |
| CorpusFrequency.AppendCountsKeeps | corpus/nlp/frequency.py:140-145 | an n-gram absent from the volume keeps its count list |
| CorpusFrequency.AppendCountsValue | corpus/nlp/frequency.py:142-145 | an n-gram of the volume has its count appended to its previous list |
| CorpusFrequency.InRange | corpus/nlp/frequency.py:118 | `year_list[0] <= year < year_list[-1]`, and `IndexError` for an empty year list |
| CorpusFrequency.SlotAfter | corpus/nlp/frequency.py:129-148 | a period's slot after a volume: `NUM_DOCS` goes up by one; a filled period that lost its `FDIST` raises `KeyError` when the volume has n-grams |
| CorpusFrequency.UpdateOutOfRange | corpus/nlp/frequency.py:118 | a volume dated outside the overall range leaves the table as it was, whatever its text |
| CorpusFrequency.AddTextEffect | corpus/nlp/frequency.py:120-148 | a volume touches only its period: `NUM_DOCS` up by one, `TOTAL_WORDS` up by the n-grams left after stop-word deletion |
| CorpusFrequency.FirstVolumeLosesNgrams | corpus/nlp/frequency.py:131-134 | with two or more distinct n-grams in a period's first volume, every n-gram but the last is lost |
| CorpusFrequency.FrequencyLists.constructor | corpus/nlp/frequency.py:157-158 | every year starts at 0 and `"__N__"` holds `n` |
| CorpusFrequency.UpdateKeepsSlotsOk | corpus/nlp/frequency.py:108-150 | a volume keeps the table's periods and their well-formedness |
| CorpusFrequency.AddTextKeepsSlotsOk | corpus/nlp/frequency.py:126-148 | adding a volume's n-grams keeps the periods and their well-formedness |
| CorpusFrequency.SlotsOkUpdate | corpus/nlp/frequency.py:131-148 | replacing one period by a well-formed slot keeps the table well-formed |
| CorpusFrequency.FoldKeepsSlotsOk | corpus/nlp/frequency.py:162-175 | reading a whole corpus keeps the periods and their well-formedness |
| CorpusFrequency.Periods | corpus/nlp/frequency.py:80 | `year_list[:-1]` |
| CorpusFrequency.JoinFrom | corpus/nlp/frequency.py:87-88 | re-keying the n-grams by their joins gives a well-formed ordered table |
| CorpusFrequency.JoinAll | corpus/nlp/frequency.py:87-88 | the whole `FDIST` re-keyed by joined strings is a well-formed ordered table |
| CorpusFrequency.JoinInjective | corpus/nlp/frequency.py:88 | space-joining is injective on n-grams of words |
| CorpusFrequency.JoinedCons | corpus/nlp/frequency.py:88 | the joins of a list are the first join and the joins of the rest |
| CorpusFrequency.JoinFromDomain | corpus/nlp/frequency.py:87-88 | re-keying adds exactly the joins of the n-grams |
| CorpusFrequency.JoinFromOld | corpus/nlp/frequency.py:87-88 | an entry no n-gram joins to keeps its value |
| CorpusFrequency.JoinFromValue | corpus/nlp/frequency.py:87-88 | for distinct word n-grams each value ends up under its n-gram's joined string |
| CorpusFrequency.JoinAllKeeps | corpus/nlp/frequency.py:87-88 | when every n-gram is made of words, each count list survives under its joined string and nothing else appears |
| CorpusFrequency.JoinedKeys | corpus/nlp/frequency.py:87 | the joins of the ordered keys are the joins of the table's n-grams |
| CorpusFrequency.CleanSlot | corpus/nlp/frequency.py:82-88 | a period is cleaned exactly when it was filled and has an `FDIST`; an unfilled period (the int 0) raises `TypeError`; `NUM_DOCS` and `TOTAL_WORDS` are copied and `NUM_DOCS >= 1` |
| CorpusFrequency.CleanFrom | corpus/nlp/frequency.py:80-90 | the cleaned record holds every period of the list, each the cleaned slot, and succeeds exactly when every slot cleans |
| CorpusFrequency.Blank | corpus/nlp/frequency.py:157 | `num_dict(year_list)` is a well-formed starting table |
| CorpusFrequency.BuildRecordOk | corpus/nlp/frequency.py:152-177 | a record that builds holds exactly the periods of `year_list[:-1]`, every one with a document |
| CorpusFrequency.FoldAppend | corpus/nlp/frequency.py:162-172 | reading two batches of volumes in turn is reading their concatenation |
| CorpusFrequency.FirstFdist | corpus/nlp/frequency.py:131-134 | the first-volume loop gives `LastOnly` |
| CorpusFrequency.LastOnlyNext | corpus/nlp/frequency.py:132-134 | after n-gram `j` the first-volume table holds that n-gram alone |
| CorpusFrequency.AppendFdist | corpus/nlp/frequency.py:140-145 | the later-volume loop appends each count, starting a list on `KeyError`, as `AppendCounts` states |
| CorpusFrequency.UpdateFrequencyLists | corpus/nlp/frequency.py:108-150 | on success the table is the one the update specification gives; an exception is the specification's error |
| CorpusFrequency.AddToPeriod | corpus/nlp/frequency.py:126-148 | finding the period and adding the n-grams to it, or the error of `determine_year` / the missing `FDIST` |
| CorpusFrequency.NextSlot | corpus/nlp/frequency.py:129-148 | the branch on the period's state gives `SlotAfter` |
| CorpusFrequency.ReadVolumes | corpus/nlp/frequency.py:170-172 | every volume of one file read in order; the table stays well-formed |
| CorpusFrequency.JoinFdist | corpus/nlp/frequency.py:87-88 | the re-keying loop gives `JoinAll` |
| CorpusFrequency.CleanRecords | corpus/nlp/frequency.py:73-90 | one entry per period of `year_list[:-1]`; the `"__N__"` entry is not carried over |
| CorpusFrequency.ZeroValues | corpus/utils.py:38-41 | a zero row holds `'TOTAL'` and every keyword |
| CorpusFrequency.PeriodValues | corpus/nlp/frequency.py:199-208 | a period's row names `'TOTAL'` and every keyword |
| CorpusFrequency.FoundEntries | corpus/nlp/frequency.py:200-205 | every keyword found gets its summed count over the divisor; a keyword not found raises `KeyError`, is skipped and keeps its value |
| CorpusFrequency.PeriodValuesEntries | corpus/nlp/frequency.py:197-208 | every keyword found gets `sum(FDIST[k]) / d`, every other keeps 0, and `'TOTAL'` is the found counts over `d` |
| CorpusFrequency.DivideSum | corpus/nlp/frequency.py:208 | dividing a sum term by term |
| CorpusFrequency.QuotientTimesDivisor | corpus/nlp/frequency.py:203 | a quotient times its non-zero divisor is the dividend |
| CorpusFrequency.RowSumOfQuotients | corpus/nlp/frequency.py:199-205 | the row's keyword values add up to the keyword total over `d` |
| CorpusFrequency.TotalIsSumOfValues | corpus/nlp/frequency.py:199-208 | for keywords other than `'TOTAL'`, a period's `'TOTAL'` is the sum of its keyword values |
| CorpusFrequency.FreqFrom | corpus/nlp/frequency.py:195-208 | the year loop keeps the tables' years and fails only with `KeyError` or `ZeroDivisionError` |
| CorpusFrequency.FreqFromEntries | corpus/nlp/frequency.py:195-208 | the loop fails exactly when a period is missing or, for the average, has words but no documents; otherwise a period with words gets its row and `NUM_DOCS`, others stay zero |
| CorpusFrequency.ZeroTable | corpus/utils.py:25-46 | the zero results table has a row per year |
| CorpusFrequency.ZeroDocs | corpus/utils.py:25-35 | the zero document table has an entry per year |
| CorpusFrequency.FreqTable | corpus/nlp/frequency.py:191-210 | an empty year list gives empty tables; missing keys raise `TypeError` when a year is there |
| CorpusFrequency.ZeroPeriods | corpus/nlp/frequency.py:195-197 | periods without words, and the last year of the list, keep all-zero rows and a document count of 0 |
| CorpusFrequency.AverageTimesDocs |  corpus/nlp/frequency.py:203-229 | average and global frequency share their numerators: average times `NUM_DOCS` equals global times `TOTAL_WORDS` |
| CorpusFrequency.ValueTimesDivisor | corpus/nlp/frequency.py:203 | a keyword's value times the divisor is the keyword's count |
| CorpusFrequency.TablesAtPeriod | corpus/nlp/frequency.py:195-234 | for a period with words, `take_freq` and `_take_average_freq` hold the rows over `TOTAL_WORDS` and over `NUM_DOCS` |
| CorpusFrequency.FreqTableOnBuiltRecord | corpus/nlp/frequency.py:191-236 | on a record `set_frequency_record` built, neither table fails once there are keywords |
| CorpusFrequency.FreqTableOf | corpus/nlp/frequency.py:191-236 | the year loop gives `FreqTable` |
| CorpusFrequency.YearStep | corpus/nlp/frequency.py:195-208 | one period of the loop keeps the tables' years |
| CorpusFrequency.FreqYear | corpus/nlp/frequency.py:197-208 | the body for one period gives `YearStep` |
| CorpusFrequency.FreqFromStep | corpus/nlp/frequency.py:195-208 | one pass of the year loop is one `YearStep` |
| CorpusFrequency.PeriodSums | corpus/nlp/frequency.py:199-208 | the keyword loop gives `PeriodValues` |
| CorpusFrequency.Deviations | corpus/nlp/frequency.py:269 | one squared deviation per count |
| CorpusFrequency.Square | corpus/nlp/frequency.py:269 | a square is at least 0 |
| CorpusFrequency.DeviationsNonNegative | corpus/nlp/frequency.py:269 | squared deviations are non-negative |
| CorpusFrequency.RealSumNonNegative | corpus/nlp/frequency.py:271 | a sum of non-negative values is non-negative |
| CorpusFrequency.MeanNonNegative | corpus/nlp/frequency.py:271 | a mean of non-negative values is non-negative |
| CorpusFrequency.VarKeysNonNegative | corpus/nlp/frequency.py:267-273 | the keyword loop writes only non-negative variances |
| CorpusFrequency.VarPeriodNonNegative | corpus/nlp/frequency.py:263-275 | every variance of a period, per keyword and `'TOTAL'`, is at least 0 |
| CorpusFrequency.VarFromNonNegative | corpus/nlp/frequency.py:261-275 | the year loop writes only non-negative values |
| CorpusFrequency.VarianceNonNegative | corpus/nlp/frequency.py:252-277 | every value `_take_variance` returns is non-negative |
| CorpusFrequency.VarKeysNoneFound | corpus/nlp/frequency.py:267-273 | when no keyword is found the loop changes nothing |
| CorpusFrequency.VarPeriodNoneFound | corpus/nlp/frequency.py:263-275 | a period without words, or one where no keyword was found, divides by zero |
| CorpusFrequency.VarFromFails | corpus/nlp/frequency.py:261-275 | the year loop fails with `ZeroDivisionError` as soon as one period has no words |
| CorpusFrequency.VarKeysErr | corpus/nlp/frequency.py:267-273 | the keyword loop can only fail by dividing by zero |
| CorpusFrequency.VarPeriodErr | corpus/nlp/frequency.py:263-275 | the only error of a period's variance is a division by zero |
| CorpusFrequency.VarianceFailsOnEmptyPeriod | corpus/nlp/frequency.py:252-277 | on a built record `_take_variance` fails as soon as one period has no words |
| CorpusFrequency.VarKeysOf | corpus/nlp/frequency.py:267-273 | the keyword loop gives `VarKeys` |
| CorpusFrequency.VarianceOf | corpus/nlp/frequency.py:252-277 | `_take_variance` gives `VarianceTable` |
| CorpusFrequency.VarFromStep | corpus/nlp/frequency.py:261-275 | a missing period raises `KeyError`; otherwise one step is that period's variance row |
| CorpusFrequency.VarPeriodOf | corpus/nlp/frequency.py:263-275 | the body for one period gives `VarPeriod` |
| CorpusFrequency.TopNFrom | corpus/nlp/frequency.py:322-333 | the loop succeeds exactly when every period is in the record and asks `_top_n` for no entry; `NUM_DOCS` is copied; errors are `KeyError` or `TypeError` (a count list divided by `TOTAL_WORDS`) |
| CorpusFrequency.TopNNeverLists | corpus/nlp/frequency.py:299-303 | `top_n` fails as soon as a period has an n-gram and at least one entry is asked for |
| CorpusFrequency.TopNOf | corpus/nlp/frequency.py:316-335 | the year loop gives `TopNTable` |
| CorpusFrequency.Frequency.constructor | corpus/nlp/frequency.py:20-30 | the fields take the arguments, the stop words being the set a stop-word setup like that of its sibling classes produces (see Findings), and there is no record yet |
| CorpusFrequency.Frequency.SetFrequencyRecord | corpus/nlp/frequency.py:152-177 | the record is `BuildRecord` of the corpus; an exception leaves the old record in place |
| CorpusFrequency.Frequency.TakeFreq | corpus/nlp/frequency.py:179-210 | the keyword arity first; a record is built on the first call; a later call looks up `"__N__"` in the cleaned record and raises `KeyError` |
| CorpusFrequency.Frequency.TakeAverageFreq | corpus/nlp/frequency.py:238-250 | the record is built only when there is none, then the average table |
| CorpusFrequency.Frequency.TakeVariance | corpus/nlp/frequency.py:279-288 | the record is built only when there is none, then the variance table |
| CorpusFrequency.Frequency.TopN | corpus/nlp/frequency.py:307-335 | the record is built for `n` only when there is none; an existing record is used whatever `n` it was built for |
| SrcFrequency.LastCount | src/nlp/frequency.py:141-148 | in a period's first volume `FDIST` is recreated before every n-gram: only the last distinct n-gram survives, with its count; no n-grams leave no `FDIST` |
| SrcFrequency.AddCounts | src/nlp/frequency.py:152-156 | a later volume's counts give a well-formed ordered table |
| SrcFrequency.AddOne | src/nlp/frequency.py:153-156 | `FDIST[kw] += count`, starting from the count where `+=` raised `KeyError` |
| SrcFrequency.AddCountsEntries | src/nlp/frequency.py:152-156 | every distinct n-gram of the volume has its count added once; every other n-gram keeps its sum |
| SrcFrequency.AddCountsHas | src/nlp/frequency.py:152-156 | the n-grams present after a volume are the old ones and the volume's |
| SrcFrequency.AddCountsKeeps | src/nlp/frequency.py:152-156 | an n-gram absent from the volume keeps its sum |
| SrcFrequency.AddCountsValue | src/nlp/frequency.py:153-156 | an n-gram of the volume has its count added to its previous sum |
| SrcFrequency.ReadDate | src/nlp/frequency.py:125-128 | the year is `int` of `"Date"`, and of `"Year Published"` only when `"Date"` is missing; `KeyError` when both are |
| SrcFrequency.BadDateNoFallback | src/nlp/frequency.py:125-128 | a `"Date"` that is not a number raises even when `"Year Published"` would parse: only a missing key falls back |
| SrcFrequency.SlotAfter | src/nlp/frequency.py:141-158 | a period's slot after a volume: `NUM_DOCS` up by one; a filled period without `FDIST` raises `KeyError` when the volume has n-grams |
| SrcFrequency.UpdateKeepsSlotsOk | src/nlp/frequency.py:120-160 | a volume keeps the table's periods and their well-formedness |
| SrcFrequency.AddTextKeepsSlotsOk | src/nlp/frequency.py:138-158 | adding a volume's n-grams keeps the periods and their well-formedness |
| SrcFrequency.AddTextEffect | src/nlp/frequency.py:150-158 | a volume added to a period with a summed `FDIST`: `NUM_DOCS` up by one, `TOTAL_WORDS` up by the n-grams kept, and each n-gram's sum up by its count |
| SrcFrequency.FoldKeepsSlotsOk | src/nlp/frequency.py:173-188 | reading a whole corpus keeps the periods and their well-formedness |
| SrcFrequency.FoldAppend | src/nlp/frequency.py:173-184 | reading two batches of volumes in turn is reading their concatenation |
| SrcFrequency.CleanSlot | src/nlp/frequency.py:94-100 | a period is cleaned exactly when it was filled and has an `FDIST`; an unfilled period (the int 0) raises `TypeError`; the counts are copied |
| SrcFrequency.CleanFrom | src/nlp/frequency.py:92-102 | the cleaned record holds every period, each the cleaned slot, and succeeds exactly when every slot cleans |
| SrcFrequency.Blank | src/nlp/frequency.py:167 | `num_dict(year_list)` is a well-formed starting table |
| SrcFrequency.BuildRecordOk | src/nlp/frequency.py:162-190 | a record that builds has exactly the periods of `year_list[:-1]`, each with a document |
| SrcFrequency.FrequencyLists.constructor | src/nlp/frequency.py:167 | every year starts at 0 |
| SrcFrequency.FirstFdist | src/nlp/frequency.py:143-146 | the first-volume loop gives `LastCount` |
| SrcFrequency.AddFdist | src/nlp/frequency.py:152-156 | the later-volume loop gives `AddCounts` |
| SrcFrequency.AddToPeriod | src/nlp/frequency.py:138-158 | finding the period and adding the n-grams to it, or the specification's error |
| SrcFrequency.NextSlot | src/nlp/frequency.py:141-158 | the branch on the period's state gives `SlotAfter` |
| SrcFrequency.UpdateFrequencyLists | src/nlp/frequency.py:120-160 | on success the table is the one the update specification gives; an exception is its error |
| SrcFrequency.ReadVolumes | src/nlp/frequency.py:182-184 | every volume of one file in order; the table stays well-formed |
| SrcFrequency.ReadFiles | src/nlp/frequency.py:173-188 | the walk reads the volumes of every visible, decodable file in order |
| SrcFrequency.CleanRecords | src/nlp/frequency.py:85-102 | the cleaning loop gives `CleanFrom` over `year_list[:-1]` |
| SrcFrequency.FoundEntries | src/nlp/frequency.py:209-214 | every keyword found gets its count over `TOTAL_WORDS`; a missing one raises `KeyError`, is skipped and keeps its value |
| SrcFrequency.GlobalValues | src/nlp/frequency.py:206-217 | a period's row names `'TOTAL'` and every keyword |
| SrcFrequency.GlobalValuesEntries | src/nlp/frequency.py:206-217 | each keyword found gets its count over `TOTAL_WORDS`, one not found keeps 0, `'TOTAL'` is the found counts over `TOTAL_WORDS` |
| SrcFrequency.RowSumOfQuotients | src/nlp/frequency.py:208-214 | the keyword values add up to the keyword total over `TOTAL_WORDS` |
| SrcFrequency.TotalIsSumOfValues | src/nlp/frequency.py:208-217 | for keywords without `'TOTAL'`, `'TOTAL'` is the sum of the keyword values |
| SrcFrequency.GlobalFrom | src/nlp/frequency.py:204-217 | the year loop keeps the tables' years and fails only with `KeyError` |
| SrcFrequency.GlobalFromEntries | src/nlp/frequency.py:204-217 | the loop fails only on a period missing from the record; a period with words gets its row and `NUM_DOCS`, every other year keeps zeros |
| SrcFrequency.GlobalTable | src/nlp/frequency.py:200-219 | an empty year list gives empty tables; missing keys raise `TypeError` |
| SrcFrequency.GlobalOnBuiltRecord | src/nlp/frequency.py:200-219 | on a built record `take_freq` succeeds for any keyword list, and a period without words keeps an all-zero row |
| SrcFrequency.GlobalSums | src/nlp/frequency.py:208-217 | the keyword loop gives `GlobalValues` |
| SrcFrequency.GlobalTableOf | src/nlp/frequency.py:200-219 | the year loop gives `GlobalTable` |
| SrcFrequency.AverageTable | src/nlp/frequency.py:221-244 | an empty year list gives empty tables; missing keys raise `TypeError` |
| SrcFrequency.AvgKeysMissing | src/nlp/frequency.py:236-240 | with no guard, a keyword missing from a period with words raises |
| SrcFrequency.AvgFromFails | src/nlp/frequency.py:230-242 | the year loop fails when a period with words lacks a keyword |
| SrcFrequency.AverageMissingKeyFails | src/nlp/frequency.py:221-244 | unlike `take_freq`, the average fails as soon as a period with words lacks one of the keywords |
| SrcFrequency.AvgKeysEmpty | src/nlp/frequency.py:236-240 | with no keywords the keyword loop does nothing |
| SrcFrequency.AvgFromNoKeys | src/nlp/frequency.py:236-240 | with no keywords a period's `num_docs` entry is never written |
| SrcFrequency.AvgKeysOf | src/nlp/frequency.py:236-240 | the keyword loop gives `AvgKeys` |
| SrcFrequency.AverageTableOf | src/nlp/frequency.py:221-244 | `_take_average_freq` gives `AverageTable` |
| SrcFrequency.ByCountDescPreorder | src/nlp/frequency.py:267 | the descending-count order is a total preorder |
| SrcFrequency.TopEntries | src/nlp/frequency.py:259-273 | one entry per kept key; `ZeroDivisionError` exactly when an entry is kept and `TOTAL_WORDS` is 0 |
| SrcFrequency.TopEntriesRanked | src/nlp/frequency.py:267-271 | entries in non-increasing count order, each with its own count's percentage, drawn from `fdist` without repeats, ties in `fdist` order |
| SrcFrequency.TopKeysRanked | src/nlp/frequency.py:267-268 | the kept keys are in non-increasing count order, from `fdist`, without repeats, and ties keep their `fdist` order |
| SrcFrequency.SortedDistinct | src/nlp/frequency.py:267 | sorting keys without repeats gives keys without repeats |
| SrcFrequency.MultisetOfDistinct | src/nlp/frequency.py:267 | a key of a list without repeats occurs at most once |
| SrcFrequency.TopEntriesLength | src/nlp/frequency.py:268 | with at least `num` n-grams exactly `num` entries come back; with fewer, all of them |
| SrcFrequency.TopCappedByDocs | src/nlp/frequency.py:294-301 | each period's list is capped by its number of documents, not by its vocabulary |
| SrcFrequency.TopTableOf | src/nlp/frequency.py:284-303 | the year loop gives `TopTable` |
| SrcFrequency.Frequency.constructor | src/nlp/frequency.py:15-32 | the fields take the arguments, the stop words are set up from the argument, and there is no record yet |
| SrcFrequency.Frequency.SetFrequencyRecord | src/nlp/frequency.py:162-190 | the record is `BuildRecord` of the corpus for these keys; an exception leaves the old record |
| SrcFrequency.Frequency.TakeFreq | src/nlp/frequency.py:192-219 | the record is built, for these keys, only when there is none, then the global table |
| SrcFrequency.Frequency.TakeAverageFreq | src/nlp/frequency.py:246-256 | the record is built only when there is none, then the average table |
| SrcFrequency.Frequency.TopN | src/nlp/frequency.py:275-303 | without a record `set_frequency_record()` is called without its argument, a `TypeError`; otherwise the top table |
| RawFrequency.DetectN | src/nlp/raw_frequency.py:25-39 | the common length of the keyword tuples, and a failed assertion for an empty or mixed list |
| RawFrequency.BinaryIsCappedCount | src/nlp/raw_frequency.py:50-66 | the binary value is the count capped at 1 |
| RawFrequency.Freqs | src/nlp/raw_frequency.py:53-66 | the keyword loop gives a well-formed ordered table |
| RawFrequency.FreqsKeys | src/nlp/raw_frequency.py:53-66 | the loop writes one entry per keyword's join and no other |
| RawFrequency.FreqsKeeps | src/nlp/raw_frequency.py:53-66 | an entry no keyword is written to keeps its value |
| RawFrequency.FreqsValue | src/nlp/raw_frequency.py:53-66 | a keyword's entry holds its value: the last write wins and no other keyword of words writes there |
| RawFrequency.FreqsEntries | src/nlp/raw_frequency.py:53-66 | for keywords of words, exactly one entry per distinct keyword, holding its presence or count, and the rest kept |
| RawFrequency.FreqsBounded | src/nlp/raw_frequency.py:53-66 | every value written is at most a bound every keyword's value respects |
| RawFrequency.VolumeRecord | src/nlp/raw_frequency.py:41-68 | the date is `int(json_data['Date'])` (`KeyError` when missing) and `Text Length` is present exactly in count mode |
| RawFrequency.VolumeRecordEntries | src/nlp/raw_frequency.py:46-66 | a record lists every keyword once with its value; in count mode no count exceeds `Text Length`, in binary mode every value is 0 or 1 |
| RawFrequency.FileFold | src/nlp/raw_frequency.py:83-86 | the volumes of one file, in order, each stored under its key, give a well-formed table |
| RawFrequency.CurKeys | src/nlp/raw_frequency.py:85 | the entry name of each volume is `"{file}_{key}"` |
| RawFrequency.FileFoldKeys | src/nlp/raw_frequency.py:83-86 | every volume of the file gets an entry, and no other entry appears |
| RawFrequency.CurKeysCons | src/nlp/raw_frequency.py:83-85 | the names of a file's volumes are the first's and the rest's |
| RawFrequency.FileFoldOthers | src/nlp/raw_frequency.py:83-86 | an entry no volume of the file is stored under keeps its record |
| RawFrequency.FileFoldLast | src/nlp/raw_frequency.py:83-86 | of volumes sharing a key, the last one's record is stored |
| RawFrequency.CurKeyInjective | src/nlp/raw_frequency.py:85 | different volume keys of one file give different entry names |
| RawFrequency.TakeFrom | src/nlp/raw_frequency.py:92-102 | the walk gives a well-formed table |
| RawFrequency.TakeFromArity | src/nlp/raw_frequency.py:75-100 | with mixed keyword lengths the walk fails as soon as there is a visible file, and changes nothing when every file is hidden |
| RawFrequency.TakeFromKeeps | src/nlp/raw_frequency.py:92-102 | records are only added or replaced, never removed |
| RawFrequency.RawFrequency.constructor | src/nlp/raw_frequency.py:14-23 | the keys go through `build_keys` and the table starts empty |
| RawFrequency.RawFrequency.UpdateFreqDict | src/nlp/raw_frequency.py:41-68 | on success the volume's record is stored under its key, replacing any earlier one; an exception is the record's first failing lookup |
| RawFrequency.RawFrequency.TakeFile | src/nlp/raw_frequency.py:70-90 | the volumes of a decoded file are stored as `FileFold` states |
| RawFrequency.RawFrequency.TakeFrequencies | src/nlp/raw_frequency.py:92-102 | the walk stores the table `TakeFrom` states, or its error |
| Results.Rename | corpus/results.py:53-54 | a tuple key becomes a string key (its space-join); a string key stays |
| Results.CleanWith | corpus/results.py:52-54 | the key loop over one period's table gives a well-formed ordered table |
| Results.Clean | corpus/results.py:52-54 | one period's table after `clean_keys` is well-formed |
| Results.Renamed | corpus/results.py:53-54 | every key's renamed key is among the renamed keys |
| Results.Step | corpus/results.py:54 | `d[f][' '.join(k)] = d[f].pop(k)`: the tuple key is replaced by its join, holding its value; every other key keeps its value |
| Results.PendingStep | corpus/results.py:52-54 | after one step the keys still to visit are still in the table |
| Results.StepRenamed | corpus/results.py:54 | one step does not change the set of renamed keys |
| Results.StepInjective | corpus/results.py:54 | one step keeps renamed keys distinct and leaves every other key's value |
| Results.CleanWithStrs | corpus/results.py:51-54 | after the loop no key is a tuple |
| Results.PendingSkip | corpus/results.py:53 | a string key is skipped and the remaining keys are still pending |
| Results.CleanWithKeys | corpus/results.py:51-54 | the keys after the loop are the renamed keys of before |
| Results.CleanWithValues | corpus/results.py:51-54 | without clashes every value ends up under its renamed key |
| Results.CleanProps | corpus/results.py:44-56 | after the intended `clean_keys` no key is a tuple, the keys are exactly the renamed keys, and without clashes every value sits under its renamed key |
| Results.CleanWithStrings | corpus/results.py:52-54 | a table whose keys are all strings is left as it is |
| Results.CleanPeriod | corpus/results.py:52-54 | the inner loop over the keys the table had when it began gives `Clean` |
| Results.CleanNext | corpus/results.py:52-54 | one pass keeps the keys still to visit in the table |
| Results.CleanDone | corpus/results.py:52-54 | when every key is visited the table is `Clean` of the original |
| Results.CleanAll | corpus/results.py:51-54 | the outer loop cleans every period's table and keeps the periods' order |
| Results.CleanAllNext | corpus/results.py:51-54 | one pass of the outer loop cleans exactly the next period |
| Results.CleanAllDone | corpus/results.py:51-56 | after the outer loop every period is cleaned |
| Results.CleanTables | corpus/results.py:51-54 | every period's table cleaned as `clean_keys` intends; the periods and their order are unchanged |
| Results.CleanWithAsWritten | corpus/results.py:52-54 | the inner loop as CPython runs it over the table it changes: the table is left well-formed, and once a key has been appended the loop raises `RuntimeError` |
| Results.CleanWithAsWrittenRaises | corpus/results.py:52-54 | the loop as written raises exactly when a key still to visit is a tuple, and a loop that does not raise leaves the table as it was |
| Results.CleanFromAsWritten | corpus/results.py:51-54 | the periods in turn, the first one that raises ending the method; the periods are kept |
| Results.CleanTablesAsWritten | corpus/results.py:51-54 | `clean_keys` as written: the tables left, well-formed with the same periods, and whether it raised |
| Results.CleanFromAsWrittenRaises | corpus/results.py:51-54 | from any period on, the method as written raises exactly when a period still to visit holds a tuple key, and otherwise changes nothing |
| Results.CleanKeysRaises | corpus/results.py:44-56 | as written, `clean_keys` raises `RuntimeError` exactly when some period holds a tuple key; when it does not raise it has changed nothing, which is also all that cleaning would have done |
| Results.CleanKeysExample | corpus/results.py:51-54 | on one period holding the bigram key `('a', 'b')` the method as written raises, while cleaning gives the key `'a b'` |
| Results.FrequencyResults.constructor | corpus/results.py:27-33 | the fields take the arguments and `years` is the sequence of periods of `d` in insertion order |
| Results.FrequencyResults.CleanKeys | corpus/results.py:44-56 | every period's table is cleaned in place, as intended (see Findings), and the same dictionary is returned |
| Results.DisplayKeys | corpus/results.py:120-123 | `['TOTAL']` without keys; otherwise one keyword tuple per key, its whitespace split |
| Results.DisplayTotal | corpus/results.py:135-146 | the `'TOTAL'` branch is taken exactly when no keys were given: a keyword tuple never equals the string `'TOTAL'` |
| Results.KeptTopic | corpus/results.py:321-325 | the survivors of the deletion loop are never more than the fragments |
| Results.FilterTopic | corpus/results.py:314-327 | the split, reverse-delete loop and join give `FilterTopicSpec` |
| Results.TopicStep | corpus/results.py:322-325 | one step of the loop either deletes the fragment or lower-cases it, keeping the loop invariant |
| Results.TopicParts | corpus/results.py:321-325 | before step `k` the list is the untouched prefix, then fragment `k`, then the filtered rest |
| Results.KeptTopicOrder | corpus/results.py:321-325 | the kept fragments are the survivors of deleting `""` and `"None"`, lower-cased, in their original order |
| Results.KeptTopicFragments | corpus/results.py:319-325 | the joined fragments are non-empty, never `"None"`, free of upper-case letters and made of word characters |
| Results.FilterTopicFragments | corpus/results.py:314-327 | the same of the fragments of the topic's string form |
| Results.SplitAll | corpus/results.py:341 | each kept fragment split on `'*'`, in order |
| Results.SplitHasSep | corpus/results.py:346 | a string splits into more than one part exactly when it holds the separator |
| Results.FilterTopicWeightsOk | corpus/results.py:330-349 | `_filter_topic_weights` succeeds exactly when every kept fragment holds a `'*'`, and otherwise raises `IndexError` |
| Results.FilterTopicWeightsLabels | corpus/results.py:343-349 | on success it joins with `", "` one label per kept fragment |
| Results.LabelsOfFragments | corpus/results.py:343-347 | each label is `"word (weight)"` from the stripped text after and before the fragment's first `'*'` |
| Results.TermLabel | corpus/results.py:341-347 | the label of a term `weight*word` is `"word (weight)"` |
| Results.SplitFragments | corpus/results.py:337-341 | the reverse-index loop deletes the empty and `"None"` fragments and splits every other one on `'*'` |
| Results.LabelAll | corpus/results.py:343-349 | one label per piece list, joined with `", "`, or `IndexError` at the first list without a second piece |
| Results.FilterTopicWeights | corpus/results.py:330-349 | the two loops give `FilterTopicWeightsSpec` |
| Results.GroupPeriod | corpus/results.py:537-546 | grouping one period succeeds exactly when every author has a label, and otherwise raises `IndexError` |
| Results.GroupPeriodStep | corpus/results.py:542-546 | one more author is appended to the group of its label plus one, which is opened when missing |
| Results.GroupPeriodKeys | corpus/results.py:537-546 | there is a group `c` exactly when `c - 1` is the label of some author |
| Results.GroupAppend | corpus/results.py:543-546 | appending to one group leaves every other group as it was |
| Results.GroupPeriodMembers | corpus/results.py:537-546 | every author lands in the group of its label, the groups keeping the authors' order |
| Results.SizesFrame | corpus/results.py:535-546 | a group outside the listed ones does not change their total size |
| Results.SizesUpdate | corpus/results.py:543-546 | replacing one group changes the total by the difference of the sizes |
| Results.SizesPut | corpus/results.py:543-546 | storing a group changes the total size by the old and new group sizes |
| Results.SizesSnoc | corpus/results.py:546 | one more group adds its size |
| Results.SizesAppend | corpus/results.py:543-546 | appending one author adds one to the total size |
| Results.GroupPeriodSizes | corpus/results.py:537-546 | the group sizes of a period add up to its number of authors |
| Results.NewPeriod | corpus/results.py:529 | each period of the dictionary is visited once |
| Results.GroupAllOk | corpus/results.py:527-548 | grouping fails exactly when some period with authors has no labels or fewer labels than authors |
| Results.GroupAllGroups | corpus/results.py:529-546 | the periods that get groups are exactly those with authors, each grouped as `GroupPeriod` says |
| Results.GroupAllStep | corpus/results.py:529-546 | one more period, once the earlier ones are grouped |
| Results.GroupAllErrLater | corpus/results.py:529-546 | a failure in an early period is the failure of the whole loop |
| Results.GroupNextPeriod | corpus/results.py:531-546 | one iteration of the period loop |
| Results.GroupAllLoop | corpus/results.py:527-548 | the period loop gives `GroupAll` over every period |
| Results.GroupPeriodLoop | corpus/results.py:537-546 | the author loop (append, or open a group on `KeyError`) gives `GroupPeriod` |
| Results.IntLeTotal | corpus/results.py:566 | integer order is a total preorder |
| Results.ClusterLines | corpus/results.py:566-570 | one line block per cluster of the period, each with that cluster's authors |
| Results.SortedIdsIn | corpus/results.py:566 | every sorted id is a cluster of the period |
| Results.ClusterOrder | corpus/results.py:566 | the cluster ids are written in ascending order, each id once |
| Results.PeriodBlock | corpus/results.py:562-570 | a period's block names the period and lists its clusters in order |
| Results.Written | corpus/results.py:562-570 | one block per grouped period, in the grouping's order |
| Results.ClusterResults.constructor | corpus/results.py:496-505 | labels and authors are kept and nothing is grouped yet |
| Results.ClusterResults.GroupAuthors | corpus/results.py:522-550 | the grouping is stored only when it succeeds; the exception is returned otherwise |
| Results.ClusterResults.WriteClusterGroups | corpus/results.py:552-570 | groups first only when no grouping is stored, then writes every period in order with its clusters by ascending id |
| Graph.Field | corpus/graph/__init__.py:36 | reading a JSON field succeeds exactly when it is present, and raises `KeyError` otherwise |
| Graph.NameOf | corpus/graph/__init__.py:33-38 | a corpus's name (a results file's `Name`), or `KeyError` |
| Graph.TypeOf | corpus/graph/__init__.py:62-67 | a corpus's frequency type (a results file's `Frequency Type`), or `KeyError` |
| Graph.YearsOf | corpus/graph/__init__.py:83-88 | a corpus's year list (a results file's `Years`), or `KeyError` |
| Graph.Names | corpus/graph/__init__.py:31-38 | one name lookup per corpus, in order |
| Graph.Types | corpus/graph/__init__.py:60-67 | one type lookup per corpus, in order |
| Graph.YearLists | corpus/graph/__init__.py:81-88 | one year-list lookup per corpus, in order |
| Graph.Values | corpus/graph/__init__.py:29-40 | the values of a run of successful lookups |
| Graph.CheckNamesDistinct | corpus/graph/__init__.py:24-40 | `check_names` passes exactly when every name is read and no two corpora share a name; a failed read is a `KeyError`, a repeat an `AssertionError` |
| Graph.PickOne | corpus/graph/__init__.py:58-72 | succeeds exactly when there is a corpus and every value is read; the result is one of the values, and the common one when all agree; otherwise `KeyError` or the failed read |
| Graph.Column | corpus/graph/__init__.py:97-107 | the series exists exactly when every period has the keyword; then it holds that keyword's value for each period, in period order; otherwise `KeyError` |
| Graph.Strs | corpus/graph/__init__.py:117 | the periods' `str(year)` keys, in order |
| Graph.StoredColumn | corpus/graph/__init__.py:109-119 | a table written out with `str(year)` keys gives the same series as the table it was written from |
| Graph.ColumnsFrom | corpus/graph/__init__.py:139-148 | succeeds exactly when every key has a series; then the table holds the earlier keys and the new ones, each new key with its series and each untouched key as before |
| Graph.CorpusGraph | corpus/graph/__init__.py:127-148 | a corpus's table is well-formed with one value per period in every series; an empty period list raises |
| Graph.GraphEntries | corpus/graph/__init__.py:127-148 | one table per corpus, in order |
| Graph.NumDocsEntry | corpus/graph/__init__.py:159-170 | the document counts of a corpus under its own name; it fails exactly when the name or a results file's `n` is missing, with `KeyError` |
| Graph.NumDocsEntries | corpus/graph/__init__.py:159-170 | one entry per corpus, in order |
| Graph.Collect | corpus/graph/__init__.py:127-172 | the store loop succeeds exactly when every entry does, and otherwise raises the first failure |
| Graph.CollectEntries | corpus/graph/__init__.py:145-170 | every name gets an entry, and a name that no later corpus reuses keeps exactly its own value |
| Graph.CollectKeeps | corpus/graph/__init__.py:137-145 | a name already present stays present, keeping its value while no corpus reuses it |
| Graph.GraphRect | corpus/graph/__init__.py:121-150 | after `build_graph_dict` every table is well-formed and every series has one value per period |
| Graph.RaiseAppend | corpus/graph/__init__.py:181-185 | scanning two runs of values is scanning the first, then the second from the maximum reached |
| Graph.RaiseGrows | corpus/graph/__init__.py:184-185 | from a maximum that is not negative, `g_max` never decreases |
| Graph.RaiseBounds | corpus/graph/__init__.py:176-187 | from a maximum that is not negative, every value scanned ends at or below `g_max` |
| Graph.RaiseStable | corpus/graph/__init__.py:184 | a maximum that bounds every value is left as it is |
| Graph.RaiseIdempotent | corpus/graph/__init__.py:176-187 | running `find_max` twice gives what running it once gives |
| Graph.TableValuesHas | corpus/graph/__init__.py:182-183 | every value of a series is among a table's scanned values |
| Graph.GraphValuesHas | corpus/graph/__init__.py:181-183 | every value of every series of a listed corpus is among the scanned values |
| Graph.FindMaxBounds | corpus/graph/__init__.py:176-187 | after `find_max`, every plotted value is at or below `g_max` |
| Graph.RaiseList | corpus/graph/__init__.py:183-185 | the innermost loop computes `Raise` over one series |
| Graph.RaiseTable | corpus/graph/__init__.py:182-185 | the middle loop computes `Raise` over a table's series in key order |
| Graph.RaiseGraph | corpus/graph/__init__.py:181-185 | the outer loop computes `Raise` over every corpus's values |
| Graph.LabelYears | corpus/graph/__init__.py:196-198 | the label of two periods that are not negative splits at `'-'` back into the two years |
| Graph.GraphFrequency.constructor | corpus/graph/__init__.py:12-22 | the arguments are kept, with the default title; the dictionaries and year list start empty and `g_max` at 0 |
| Graph.GraphFrequency.CheckNames | corpus/graph/__init__.py:24-40 | returns `CheckNamesOf` of the corpora's names |
| Graph.GraphFrequency.CheckColors | corpus/graph/__init__.py:42-51 | never raises: the length assertion is commented out |
| Graph.GraphFrequency.CheckColorsStrict | src/graph/__init__.py:42-48 | raises `AssertionError` exactly when colours are given and there are not one per corpus |
| Graph.GraphFrequency.ResultsType | corpus/graph/__init__.py:53-72 | succeeds exactly when there is a corpus and every type is read; returns a corpus's type, the common one when all agree; otherwise `KeyError` |
| Graph.GraphFrequency.CheckYearLists | corpus/graph/__init__.py:74-95 | succeeds exactly when there is a corpus and every year list is read; stores a corpus's year list, the common one when all agree; leaves everything else as it was |
| Graph.GraphFrequency.BuildGraphList | corpus/graph/__init__.py:97-107 | the keyword's series over the stored periods, or `KeyError` |
| Graph.GraphFrequency.BuildGraphListFromJson | corpus/graph/__init__.py:109-119 | the same series from a table keyed by `str(year)` |
| Graph.GraphFrequency.BuildTable | corpus/graph/__init__.py:129-148 | one corpus's name and table as `CorpusGraph` gives them |
| Graph.GraphFrequency.BuildGraphDict | corpus/graph/__init__.py:121-150 | the graph dictionary becomes `Collect` of every corpus's table on success; the error is the first corpus's failure; nothing else changes |
| Graph.GraphFrequency.BuildNumDocs | corpus/graph/__init__.py:152-174 | the counts of every corpus under its name, assigned only when every corpus is read; nothing else changes |
| Graph.GraphFrequency.FindMax | corpus/graph/__init__.py:176-187 | `g_max` becomes `Raise` of the old maximum over every plotted value; nothing else changes |
| Graph.GraphFrequency.GenerateLabels | corpus/graph/__init__.py:189-200 | one label `"start-end"` per pair of consecutive periods |
| Graph.BuildColumn | corpus/graph/__init__.py:102-107 | the index-filling loop gives `Column` |
| Graph.BuildColumns | corpus/graph/__init__.py:139-148 | the key loop gives `ColumnsFrom` over an empty table |
| SubCorpus.YearBounds | corpus/corpus.py:238-243 | without a range the bounds are `±sys.maxsize` (64-bit); with one they are its first two entries, and a shorter list raises `IndexError` |
| SubCorpus.AcceptsInclusive | corpus/corpus.py:238-260 | both ends of a given range are kept; without a range exactly the years within `±sys.maxsize` are kept |
| SubCorpus.Half | corpus/corpus.py:267 | `int(doc_size/2)` truncates toward zero: `2h` is `doc_size` or one less, for negative sizes one more |
| SubCorpus.Window | corpus/corpus.py:267 | the slice is never longer than the text |
| SubCorpus.WindowCentred | corpus/corpus.py:267 | the window is never longer than `2h`; away from the ends it is the `2h` n-grams centred on the match, which it contains |
| SubCorpus.WindowNearStart | corpus/corpus.py:267 | a match closer to the start than `h` in a long enough text gives a negative start counted from the end, hence an empty window |
| SubCorpus.SpacedAll | corpus/corpus.py:210 | each n-gram space-joined and stripped, in order |
| SubCorpus.Mk | corpus/corpus.py:266-271 | a document carries the volume's year, index and keyword field, its own subindex, and the window written out |
| SubCorpus.Record | corpus/corpus.py:198-200 | a document has exactly the fields Title, Author, Keyword, Year Published and Text, holding the extract's values |
| SubCorpus.BuildJson | corpus/corpus.py:193-203 | the record under the single key `'0'` |
| SubCorpus.BuildJsonReadBack | corpus/corpus.py:193-222 | read back as a corpus file, a written document is one volume whose year and text are the extract's |
| SubCorpus.PositionsExact | corpus/corpus.py:264-265 | the scan positions are exactly the matching n-grams, each once, ascending |
| SubCorpus.ScanFromMatch | corpus/corpus.py:265-271 | a match writes its document with the next subindex, then the scan goes on |
| SubCorpus.ScanFromSkip | corpus/corpus.py:265 | a position that does not match writes nothing |
| SubCorpus.ScanFromPositions | corpus/corpus.py:264-271 | one document per match in text order, the k-th with subindex `sub + k + 1` and the window around the k-th match |
| SubCorpus.MakeConfig | corpus/corpus.py:225-248 | the run's half-window, keyword field and year bounds |
| SubCorpus.Prepend | corpus/corpus.py:250-271 | documents already written stay in front of the rest of the walk; an error ends it |
| SubCorpus.PrependNothing | corpus/corpus.py:250-271 | writing nothing first changes nothing |
| SubCorpus.PrependTwice | corpus/corpus.py:250-271 | writing two runs in turn is writing them together |
| SubCorpus.VolumesNext | corpus/corpus.py:257-271 | one turn of the volume loop |
| SubCorpus.NextIndex | corpus/corpus.py:253-255 | `index` counts every file that is not hidden |
| SubCorpus.WalkNext | corpus/corpus.py:250-271 | one turn of the file loop |
| SubCorpus.NumberedAppend | corpus/corpus.py:266 | consecutive numbering survives appending the next run |
| SubCorpus.ScanFromNumbered | corpus/corpus.py:264-271 | the scan numbers its documents consecutively and gives them the volume's fields |
| SubCorpus.VolumeExtractsSound | corpus/corpus.py:258-271 | a volume's documents are numbered on and come from a volume in range |
| SubCorpus.VolumesExtractsSound | corpus/corpus.py:257-271 | the same for a file's volumes |
| SubCorpus.Counted | corpus/corpus.py:253-255 | no more files are counted than there are |
| SubCorpus.WalkExtractsSound | corpus/corpus.py:250-271 | a successful walk numbers its documents consecutively, keeps only volumes in the year range, and gives each the index of a counted file |
| SubCorpus.SubCorpusSound | corpus/corpus.py:224-273 | documents are numbered 1, 2, … in writing order (so no two share a file name), each from a volume in the inclusive range, each with an index between 1 and the number of non-hidden files |
| SubCorpus.ScanVolume | corpus/corpus.py:264-271 | the scan loop gives `ScanFrom` |
| SubCorpus.ReadVolume | corpus/corpus.py:258-263 | the year check and the lookups give `VolumeSource` |
| SubCorpus.ExtractVolume | corpus/corpus.py:258-271 | the volume loop body gives `VolumeExtracts` |
| SubCorpus.ExtractFile | corpus/corpus.py:257-271 | the volume loop gives `VolumesExtracts` |
| SubCorpus.ExtractJsonFile | corpus/corpus.py:253-271 | a hidden file is skipped, any other counted and scanned |
| SubCorpus.BuildSubCorpus | corpus/corpus.py:224-273 | the whole method gives `SubCorpusOf` |
| SrcSubCorpus.BuildFlatJson | src/corpus.py:166-178 | the same five fields at top level: the record the corpus revision writes under `'0'` |
| SrcSubCorpus.FlatNext | src/corpus.py:225-244 | one turn of the file loop |
| SrcSubCorpus.AsJsonFile | src/corpus.py:227-231 | a flat file as a corpus file of one volume, with its name and decode outcome |
| SrcSubCorpus.AsJsonFiles | src/corpus.py:227-231 | every flat file wrapped, in order |
| SrcSubCorpus.FlatFileAsWrapped | src/corpus.py:228-244 | one flat file yields what its wrapped form yields |
| SrcSubCorpus.FlatWalkAsWrapped | src/corpus.py:225-244 | the src revision behaves as the corpus revision on the records wrapped one per file, with `Year Published` as date key |
| SrcSubCorpus.FlatSubCorpusSound | src/corpus.py:198-246 | hence consecutive numbering, an inclusive year range and file indices among the non-hidden files |
| SrcSubCorpus.ExtractFlatFile | src/corpus.py:228-244 | the file loop body gives `FlatFileExtracts` and the next index |
| SrcSubCorpus.BuildFlatSubCorpus | src/corpus.py:198-246 | the whole method gives `FlatSubCorpusOf` |
| TfidfCorpus.TextTokens | corpus/nlp/tf_idf.py:64-76 | a token list is taken as it is; an empty string or dict has nothing to delete and is never added; a dict with keys raises `KeyError` at `text[i]`; any other value raises `TypeError` |
| TfidfCorpus.DocTokens | corpus/nlp/tf_idf.py:188 | `doc2bow` reads a token list's tokens or a dict's keys; a string or a scalar raises `TypeError` |
| TfidfCorpus.StopsIn | corpus/nlp/tf_idf.py:66-69 | the tokens the deletion loop removes are exactly the text's stop words |
| TfidfCorpus.FilteredKeeps | corpus/nlp/tf_idf.py:66-69 | the deletion removes every stop word, keeps every other token as often as it occurred, and leaves a text without stop words as it was |
| TfidfCorpus.FilteredAppend | corpus/nlp/tf_idf.py:66-69 | the survivors keep their relative order: filtering two pieces is filtering each |
| TfidfCorpus.RemoveAllSubset | corpus/nlp/tf_idf.py:66-69 | only the stop words that occur in the text matter |
| TfidfCorpus.Blank | corpus/nlp/tf_idf.py:88-89 | one empty dictionary and one empty corpus per period of the year list |
| TfidfCorpus.AddVolumeOutside | corpus/nlp/tf_idf.py:61-63 | a volume dated outside `[year_list[0], year_list[-1])` changes nothing, whatever its text |
| TfidfCorpus.AddVolumeEffect | corpus/nlp/tf_idf.py:56-76 | a volume in range adds its filtered text as one more document of its period's dictionary, and its bag of words to the period's corpus, exactly when that text is not empty; nothing else changes |
| TfidfCorpus.AddVolumeSynced | corpus/nlp/tf_idf.py:56-76 | each volume keeps the periods and one bag of words per document |
| TfidfCorpus.AddVolumesSynced | corpus/nlp/tf_idf.py:102-104 | the same over a file's volumes |
| TfidfCorpus.AddFilesSynced | corpus/nlp/tf_idf.py:93-111 | after the whole walk both tables keep exactly their periods, with one bag of words per document |
| TfidfCorpus.UpdateDictionariesAndCorpora | corpus/nlp/tf_idf.py:56-76 | the in-place deletion loop and the updates give `AddVolume` |
| TfidfCorpus.UpdateFromFile | corpus/nlp/tf_idf.py:102-104 | the volume loop gives `AddVolumes` |
| TfidfCorpus.BuildWalk | corpus/nlp/tf_idf.py:88-108 | the directory walk from empty tables gives `AddFiles`; hidden and undecodable files are skipped |
| TfidfCorpus.Models | corpus/nlp/tf_idf.py:161-166 | one model per period of the year list, over that period's corpus and dictionary |
| TfidfCorpus.ModelsLoop | corpus/nlp/tf_idf.py:165-166 | the year loop gives `Models` |
| TfidfCorpus.Mentions | corpus/nlp/tf_idf.py:184 | `keyword in set(text)`: membership for a token list, a one-character test for a string, key membership for a dict, `TypeError` for a number, boolean or null |
| TfidfCorpus.Hits | corpus/nlp/tf_idf.py:191-194 | no more hits than scored terms |
| TfidfCorpus.HitsExact | corpus/nlp/tf_idf.py:191-194 | exactly the keyword's scores are recorded, each as often as a term with that word is scored |
| TfidfCorpus.ScoredAtSnoc | corpus/nlp/tf_idf.py:191-194 | the matching positions of a longer list are those of its prefix, plus the last one when it matches |
| TfidfCorpus.KeywordScores | corpus/nlp/tf_idf.py:191-194 | the `for t in tfidf_doc` loop gives `Hits` |
| TfidfCorpus.Tagged | corpus/nlp/tf_idf.py:194 | one entry `(jsondoc, score, k)` per score, in order |
| TfidfCorpus.StartTally | corpus/nlp/tf_idf.py:220-221 | an empty result list and a zero count per period |
| TfidfCorpus.TallyVolumeEffect | corpus/nlp/tf_idf.py:172-194 | a volume in range whose text is a token list is counted once exactly when the keyword is among its tokens, and then only the keyword's scores are appended; nothing else changes |
| TfidfCorpus.TallyVolumeKeys | corpus/nlp/tf_idf.py:172-194 | the tallies keep their periods |
| TfidfCorpus.TallyVolumesKeys | corpus/nlp/tf_idf.py:234-236 | the same over a file's volumes |
| TfidfCorpus.TallyFilesKeys | corpus/nlp/tf_idf.py:225-240 | the walk leaves every period with entries and a count, so `_top_n` finds each one |
| TfidfCorpus.UpdateTopN | corpus/nlp/tf_idf.py:172-194 | the method gives `TallyVolume` |
| TfidfCorpus.TopNFromFile | corpus/nlp/tf_idf.py:234-236 | the volume loop gives `TallyVolumes` |
| TfidfCorpus.TopNWalk | corpus/nlp/tf_idf.py:220-240 | the directory walk from empty tallies gives `TallyFiles` |
| TfidfCorpus.ByScoreTotal | corpus/nlp/tf_idf.py:204 | comparing by score is a total preorder |
| TfidfCorpus.LowestNProperties | corpus/nlp/tf_idf.py:196-207 | `_top_n` keeps the LOWEST scores: `min(n, len)` entries in non-decreasing score, drawn from the input, none left out scoring below one kept |
| TfidfCorpus.ScoresAscend | corpus/nlp/tf_idf.py:204 | sorting by score gives non-decreasing scores |
| TfidfCorpus.LowestNStable | corpus/nlp/tf_idf.py:204 | entries with equal scores keep their recorded order |
| TfidfCorpus.TopResults | corpus/nlp/tf_idf.py:196-207 | every period of the year list, cut to its first `n` entries by ascending score |
| TfidfCorpus.TopResultsLoop | corpus/nlp/tf_idf.py:201-207 | the year loop gives `TopResults` |
| TfidfCorpus.TopNOf | corpus/nlp/tf_idf.py:242-244 | the results cover every period in both tables and carry the keyword and the object's name |
| TfidfCorpus.TopNLoop | corpus/nlp/tf_idf.py:220-244 | the walk and the cut give `TopNOf` |
| TfidfCorpus.Tfidf.constructor | corpus/nlp/tf_idf.py:15-28 | the arguments are kept, the stop words set up, and the dictionaries, corpora and models start unset |
| TfidfCorpus.Tfidf.WithStops | corpus/nlp/tf_idf.py:15-28 | the same with a stop-word test given directly |
| TfidfCorpus.Tfidf.BuildDictionariesAndCorpora | corpus/nlp/tf_idf.py:78-113 | nothing happens once the dictionaries exist; otherwise the walk's tables are stored, and a failing walk stores nothing |
| TfidfCorpus.Tfidf.BuildTfIdfModels | corpus/nlp/tf_idf.py:152-170 | the dictionaries are built when missing, then every period gets its model |
| TfidfCorpus.Tfidf.TopNWith | corpus/nlp/tf_idf.py:209-244 | the models are built only when missing, then the result is `TopNOf` over the stored tables |
| TfidfCorpus.Tfidf.TopN | corpus/nlp/tf_idf.py:209-244 | `top_n` with `(jsondoc, score, k)` entries |
| TfidfSrc.StopTestOf | src/nlp/tf_idf.py:22-25 | `{}` without an argument, otherwise the argument itself: membership for a collection, a substring test for a string |
| TfidfSrc.TextStopsAreSubstrings | src/nlp/tf_idf.py:38-41 | with a string argument every token occurring inside the string is deleted, the empty token included |
| TfidfSrc.NoStopsKeepText | src/nlp/tf_idf.py:25 | without an argument nothing is deleted |
| TfidfSrc.NewTfidf | src/nlp/tf_idf.py:14-29 | the arguments are kept, the date key is `"Date"`, the stop-word test is `StopTestOf`, and nothing is built yet |
| TfidfSrc.TallyPairs | src/nlp/tf_idf.py:118-140 | a volume in range whose text is a token list adds `(jsondoc, score)` pairs of the keyword's term and counts once, exactly when the keyword is among its tokens |
| TfidfSrc.TopPairs | src/nlp/tf_idf.py:142-153 | `min(n, len)` pairs in non-decreasing score, drawn from the found ones |
| TfidfSrc.TopN | src/nlp/tf_idf.py:155-190 | the `name` argument is ignored: the results carry the object's own name; otherwise as the corpus revision |
| TfidfAuthor.NormalizeAuthor | corpus/nlp/tf_idf_author.py:78-79 | the normalised author is made of word characters |
| TfidfAuthor.NormalizeGuillemet | corpus/nlp/tf_idf_author.py:78-79 | a Latin-1 punctuation mark such as `«` becomes `_`, and the name is lower-cased |
| TfidfAuthor.SubNonWordRunsNoUpper | corpus/nlp/tf_idf_author.py:79 | replacing non-word runs by `_` brings in no upper-case letter |
| TfidfAuthor.SkipNonWordSuffix | corpus/nlp/tf_idf_author.py:79 | skipping a non-word run leaves a suffix of the string |
| TfidfAuthor.NormalizeIdempotent | corpus/nlp/tf_idf_author.py:78-79 | normalising a normalised key leaves it as it is |
| TfidfAuthor.AuthorKey | corpus/nlp/tf_idf_author.py:78-79 | a volume's key is its normalised `Author`; a missing author raises `KeyError`, one that is not a string `AttributeError` |
| TfidfAuthor.AddAuthor | corpus/nlp/tf_idf_author.py:78-82 | the dictionary stays well-formed |
| TfidfAuthor.AddAuthorLast | corpus/nlp/tf_idf_author.py:81-82 | the text under a volume's author is that volume's text alone, whatever was there; every other author keeps theirs |
| TfidfAuthor.AddAuthors | corpus/nlp/tf_idf_author.py:77-82 | the dictionary stays well-formed over a file's volumes |
| TfidfAuthor.AuthorFiles | corpus/nlp/tf_idf_author.py:71-85 | the dictionary stays well-formed over the walk |
| TfidfAuthor.AddAuthorsBound | corpus/nlp/tf_idf_author.py:77-82 | a file adds at most one author per volume |
| TfidfAuthor.AuthorFilesBound | corpus/nlp/tf_idf_author.py:69-94 | there are never more authors than volumes read |
| TfidfAuthor.Texts | corpus/nlp/tf_idf_author.py:121 | the authors' texts in the dictionary's order |
| TfidfAuthor.NonEmpty | corpus/nlp/tf_idf_author.py:126 | the texts that are not empty, in order |
| TfidfAuthor.AuthorCorpusShape | corpus/nlp/tf_idf_author.py:106-134 | authors with an empty text are skipped: the dictionary holds exactly the non-empty texts in order, the corpus one bag of words for each |
| TfidfAuthor.WordScores | corpus/nlp/tf_idf_author.py:228-230 | the word table is well-formed |
| TfidfAuthor.WordScoresKeys | corpus/nlp/tf_idf_author.py:228-230 | its words are exactly those of the scored ids (`None` for an unknown id) |
| TfidfAuthor.WordScoresLast | corpus/nlp/tf_idf_author.py:228-230 | each word holds the score of its last scored id |
| TfidfAuthor.AllScores | corpus/nlp/tf_idf_author.py:220-232 | an entry for every author, in the dictionary's order |
| TfidfAuthor.ScoresOf | corpus/nlp/tf_idf_author.py:203-233 | no authors gives an empty result; otherwise a missing dictionary raises `AttributeError`, a missing model `TypeError`; on success every author is scored |
| TfidfAuthor.AuthorFromVolume | corpus/nlp/tf_idf_author.py:78-82 | the volume body gives `AddAuthor` |
| TfidfAuthor.AuthorsFromFile | corpus/nlp/tf_idf_author.py:77-82 | the volume loop gives `AddAuthors` |
| TfidfAuthor.AuthorWalk | corpus/nlp/tf_idf_author.py:70-85 | the walk from an empty dictionary gives `AuthorFiles` |
| TfidfAuthor.ScoreWords | corpus/nlp/tf_idf_author.py:228-230 | the `for wid, s in tfidf` loop gives `WordScores` |
| TfidfAuthor.ScoreAuthors | corpus/nlp/tf_idf_author.py:220-230 | the author loop gives what `ScoresOf` gives |
| TfidfAuthor.ScoresNext | corpus/nlp/tf_idf_author.py:222-230 | one more author is scored |
| TfidfAuthor.ScoresDone | corpus/nlp/tf_idf_author.py:222-232 | once every author is reached the scores are `AllScores` |
| TfidfAuthor.TfidfAuthor.constructor | corpus/nlp/tf_idf_author.py:15-27 | the arguments are kept, the stop words set up, and nothing is built yet |
| TfidfAuthor.TfidfAuthor.GetAuthorDictFromJson | corpus/nlp/tf_idf_author.py:54-67 | the file's dictionary when the file exists, otherwise nothing changes |
| TfidfAuthor.TfidfAuthor.GeneratingAuthorDict | corpus/nlp/tf_idf_author.py:69-94 | with `tqdm` imported (see Findings), the walk's dictionary is stored only when the walk succeeds; nothing else changes |
| TfidfAuthor.TfidfAuthor.WriteAuthorDict | corpus/nlp/tf_idf_author.py:96-104 | raises `TypeError` exactly when no dictionary exists: `generating_author_dict()` is called without its argument |
| TfidfAuthor.TfidfAuthor.BuildDictionariesAndCorpora | corpus/nlp/tf_idf_author.py:106-134 | nothing happens once the dictionary exists; without an author dictionary `AttributeError`; otherwise the non-empty texts are added |
| TfidfAuthor.TfidfAuthor.BuildTfIdfAuthorModel | corpus/nlp/tf_idf_author.py:167-180 | the dictionary is built when missing, then one model over the whole corpus with `'ntc'` weighting |
| TfidfAuthor.TfidfAuthor.GetAllWordScores | corpus/nlp/tf_idf_author.py:203-233 | without an author dictionary `AttributeError`; the scores are stored only when every author is reached |
| GutenbergTxt.ParseLink | parsing/lit_corpora/gutenberg_txt.py:6-14 | the second-to-last `/` segment, which holds no `/`; fewer than two segments raise `IndexError` |
| GutenbergTxt.ParseLinkOf | parsing/lit_corpora/gutenberg_txt.py:6-14 | the id of a link `base/id/last` is `id` |
| GutenbergTxt.CsvEntry | parsing/lit_corpora/gutenberg_txt.py:25-29 | nothing exactly for the header row; a data row gives `(idno, row[1], row[2], row[3])`; a short row or link raises `IndexError` |
| GutenbergTxt.DataRows | parsing/lit_corpora/gutenberg_txt.py:25-26 | the rows that are not the header |
| GutenbergTxt.KeptDataRows | parsing/lit_corpora/gutenberg_txt.py:25-29 | when no row fails, the rows kept are exactly the data rows |
| GutenbergTxt.ParseCsv | parsing/lit_corpora/gutenberg_txt.py:17-31 | one tuple per data row, in order, the header skipped; a failing row raises `IndexError` |
| GutenbergTxt.GetIdno | parsing/lit_corpora/gutenberg_txt.py:34-43 | at most four characters; `IndexError` exactly for a line without a token |
| GutenbergTxt.GetIdnoOf | parsing/lit_corpora/gutenberg_txt.py:34-43 | the id of a line is characters `[-5:-1]` of its last token |
| GutenbergTxt.ContainsWord | parsing/lit_corpora/gutenberg_txt.py:39-40 | a line holding a non-blank substring has a token |
| GutenbergTxt.PostingIdno | parsing/lit_corpora/gutenberg_txt.py:72-73 | the id of a 'Posting Date' line can always be read |
| GutenbergTxt.FirstMatch | parsing/lit_corpora/gutenberg_txt.py:51-53 | the index of the first tuple with the id, none before it matching |
| GutenbergTxt.MatchPubInfo | parsing/lit_corpora/gutenberg_txt.py:46-55 | succeeds exactly when some tuple has the id, and then gives the first one; otherwise the script exits |
| GutenbergTxt.Fed | parsing/lit_corpora/gutenberg_txt.py:76-81 | no line handed to `add_content` holds either marker |
| GutenbergTxt.FedBeforeStart | parsing/lit_corpora/gutenberg_txt.py:67-81 | nothing before the first START line is text |
| GutenbergTxt.FedBody | parsing/lit_corpora/gutenberg_txt.py:80-81 | while reading, every line without a marker is text |
| GutenbergTxt.FedSection | parsing/lit_corpora/gutenberg_txt.py:67-81 | of `pre, START line, body, END line, post` the text is the body, then whatever `post` restarts |
| GutenbergTxt.FedStart | parsing/lit_corpora/gutenberg_txt.py:76-80 | a START line starts reading and is not added |
| GutenbergTxt.FedEnd | parsing/lit_corpora/gutenberg_txt.py:78-79 | an END line stops reading and is not added |
| GutenbergTxt.FedCons | parsing/lit_corpora/gutenberg_txt.py:71-81 | one line, then the rest from the updated flag |
| GutenbergTxt.LineInfo | parsing/lit_corpora/gutenberg_txt.py:72-75 | a line's lookup can only fail by the exit |
| GutenbergTxt.PubInfo | parsing/lit_corpora/gutenberg_txt.py:71-75 | the lookups can only fail by the exit |
| GutenbergTxt.PubInfoAppend | parsing/lit_corpora/gutenberg_txt.py:71-75 | looking at two runs of lines is looking at the first, then the second |
| GutenbergTxt.PubInfoNoPosting | parsing/lit_corpora/gutenberg_txt.py:72 | lines without 'Posting Date' leave the metadata as it was |
| GutenbergTxt.PostingLast | parsing/lit_corpora/gutenberg_txt.py:71-75 | the last 'Posting Date' line decides author, title and year; nothing else changes |
| GutenbergTxt.BookVolume | parsing/lit_corpora/gutenberg_txt.py:66-84 | a book's record, or the exit |
| GutenbergTxt.ParseBook | parsing/lit_corpora/gutenberg_txt.py:67-84 | the line loop gives `BookVolume` |
| GutenbergTxt.ReadPosting | parsing/lit_corpora/gutenberg_txt.py:72-75 | one 'Posting Date' check advances `PubInfo` by one line and leaves the lists |
| GutenbergTxt.ReadText | parsing/lit_corpora/gutenberg_txt.py:76-81 | one line's marker checks and `add_content` advance the text by one line and leave the metadata |
| GutenbergTxt.BooksNext | parsing/lit_corpora/gutenberg_txt.py:62-85 | one turn of the file loop: a hidden file leaves the result as it was, a book that fails is the error of the whole walk, and any other book appends one record named after its file |
| GutenbergTxt.ParseTxt | parsing/lit_corpora/gutenberg_txt.py:58-85 | the file loop gives `Books`: hidden files skipped, one record per book named after its file |
| GutenbergCrawler.UrlOf | parsing/lit_corpora/crawlers/gutenberg_crawler.py:13-15 | the first column, skipped for the header; `IndexError` exactly for an empty row |
| GutenbergCrawler.GetUrls | parsing/lit_corpora/crawlers/gutenberg_crawler.py:6-17 | one link per row that is not the header, in order; fails exactly when some row is empty |
| GutenbergCrawler.Download | parsing/lit_corpora/crawlers/gutenberg_crawler.py:27-30 | a rewritten segment is never `show` and gains no `/` |
| GutenbergCrawler.RewrittenSegments | parsing/lit_corpora/crawlers/gutenberg_crawler.py:20-32 | the link keeps its number of segments, each rewritten in place, none `show` |
| GutenbergCrawler.RewrittenIdempotent | parsing/lit_corpora/crawlers/gutenberg_crawler.py:20-32 | rewriting a rewritten link changes nothing |
| GutenbergCrawler.ParseUrl | parsing/lit_corpora/crawlers/gutenberg_crawler.py:20-32 | the segment loop gives `Rewritten` |
| RunebergDirs.CsvPathOf | parsing/lit_corpora/runeberg_dirs.py:9-16 | the bundled CSV sits in `data/csv/RB` under the path's parent directory |
| RunebergDirs.Mapping | parsing/lit_corpora/runeberg_dirs.py:28-32 | a row is stored under its title with its date, title and author; a row shorter than four raises `IndexError` |
| RunebergDirs.KeysAreTitles | parsing/lit_corpora/runeberg_dirs.py:27-32 | every key is the title stored under it |
| RunebergDirs.LastRowWins | parsing/lit_corpora/runeberg_dirs.py:27-32 | a row is stored unless a later row has the same title; a header row is stored like any other |
| RunebergDirs.ParseCsv | parsing/lit_corpora/runeberg_dirs.py:19-34 | the row loop gives `Table`; it fails exactly when some row is short |
| RunebergDirs.PageLinesFrom | parsing/lit_corpora/runeberg_dirs.py:63-68 | only pages that are read contribute lines |
| RunebergDirs.PubMeta | parsing/lit_corpora/runeberg_dirs.py:59-61 | author, title and year from the CSV entry; nothing else of the metadata changes |
| RunebergDirs.VolumeJson | parsing/lit_corpora/runeberg_dirs.py:49-72 | a volume is written exactly when its title has an entry, under `vol[:-4]` with `.json` |
| RunebergDirs.VolumeFields | parsing/lit_corpora/runeberg_dirs.py:57-71 | a written record carries the entry's date and the tokens of the volume's pages |
| RunebergDirs.Outputs | parsing/lit_corpora/runeberg_dirs.py:42-72 | at most one record per volume |
| RunebergDirs.OutputsFrom | parsing/lit_corpora/runeberg_dirs.py:42-72 | every record comes from a listed volume whose title has an entry, and is named after that volume |
| RunebergDirs.ParseVolume | parsing/lit_corpora/runeberg_dirs.py:47-72 | one volume's body gives `VolumeJson` |
| RunebergDirs.ReadPages | parsing/lit_corpora/runeberg_dirs.py:63-68 | the page walk adds every line of every page that is read, and leaves the metadata |
| RunebergDirs.ReadPage | parsing/lit_corpora/runeberg_dirs.py:65-68 | one page is skipped or read line by line |
| RunebergDirs.ParseTxt | parsing/lit_corpora/runeberg_dirs.py:37-72 | the walk gives `Outputs` |
| RunebergRaw.FileJson | parsing/lit_corpora/runeberg_raw.py:45-63 | a file is written exactly when `txt_f[:-4]` has an entry, under that title with `.json` |
| RunebergRaw.TxtFile | parsing/lit_corpora/runeberg_raw.py:49-63 | `Title.txt` is written as `Title.json` with the date of `Title`'s entry |
| RunebergRaw.Outputs | parsing/lit_corpora/runeberg_raw.py:42-65 | at most one record per file |
| RunebergRaw.OutputsFrom | parsing/lit_corpora/runeberg_raw.py:42-65 | every record comes from a non-hidden file whose title has an entry, and is named after that title |
| RunebergRaw.ParseFile | parsing/lit_corpora/runeberg_raw.py:47-65 | one file's body gives `FileJson`; the `KeyError` skips the file |
| RunebergRaw.ParseTxt | parsing/lit_corpora/runeberg_raw.py:37-65 | the walk gives `Outputs` |
| BankenTxt.CsvPathOf | parsing/lit_corpora/banken_txt_parser.py:9-16 | the bundled CSV sits in `data/csv/LB` under the path's parent directory |
| BankenTxt.ParseUrl | parsing/lit_corpora/banken_txt_parser.py:19-26 | fewer than seven segments raise `IndexError`; an id never holds `/` |
| BankenTxt.ParseUrlOf | parsing/lit_corpora/banken_txt_parser.py:19-26 | the id of a link of at least seven segments is its fifth and seventh, joined by `_` |
| BankenTxt.Mapping | parsing/lit_corpora/banken_txt_parser.py:38-43 | a row is stored under its link's id with date, title and author; a short row or link raises `IndexError` |
| BankenTxt.LastRowWins | parsing/lit_corpora/banken_txt_parser.py:37-43 | a row is stored unless a later row's link has the same id |
| BankenTxt.ParseCsv | parsing/lit_corpora/banken_txt_parser.py:29-45 | the row loop gives `Table`; it fails exactly when some row or link is short; no key holds `/` |
| BankenTxt.FileText | parsing/lit_corpora/banken_txt_parser.py:59-61 | every line counts, marker or not: reading a file in two parts adds the second part's tokens after the first's |
| BankenTxt.OutputsNames | parsing/lit_corpora/banken_txt_parser.py:52-65 | exactly the files that are not hidden are written, in order, each under `txt_f[:-4]` with `.json` |
| BankenTxt.ParseFile | parsing/lit_corpora/banken_txt_parser.py:56-64 | one file's body gives `FileVolume` |
| BankenTxt.ParseTxt | parsing/lit_corpora/banken_txt_parser.py:47-65 | the walk gives `Outputs`; the mapping is not consulted |
| BankenCrawler.FirstColumn | parsing/lit_corpora/crawlers/banken_crawler.py:20-21 | a row's first column; `IndexError` exactly for an empty row |
| BankenCrawler.GetUrls | parsing/lit_corpora/crawlers/banken_crawler.py:10-23 | the first column of every row, in order, with no header skipped; fails exactly when some row is empty |
| BankenCrawler.CsvPathOf | parsing/lit_corpora/crawlers/banken_crawler.py:26-33 | the crawler, one directory deeper, finds the same CSV file as the parser |
| BankenCrawler.ParseUrl | parsing/lit_corpora/crawlers/banken_crawler.py:36-43 | fewer than seven segments raise `IndexError` |
| BankenCrawler.EpubOfId | parsing/lit_corpora/crawlers/banken_crawler.py:36-43 | the epub is named after the id the parser files the volume under, and both fail on the same links |
| BankenCrawler.ParseUrlOf | parsing/lit_corpora/crawlers/banken_crawler.py:36-43 | the epub link of a link of at least seven segments |
| DutchXml.CsvRows | parsing/lit_corpora/xml/dutch.py:32-37 | one row per line of the file, each split at every comma |
| DutchXml.CsvRowsJoin | parsing/lit_corpora/xml/dutch.py:32-37 | nothing is lost: joining the rows back with commas and line breaks gives the file |
| DutchXml.QuotedComma | parsing/lit_corpora/xml/dutch.py:34-35 | quotes do not protect commas: a quoted field holding a comma becomes two fields |
| DutchXml.SetCsv | parsing/lit_corpora/xml/dutch.py:18-37 | the line loop gives `CsvRows` |
| DutchXml.Mapping | parsing/lit_corpora/xml/dutch.py:49-54 | a row is stored under its first field without quotes, with author, title and date; a row shorter than four raises `IndexError` |
| DutchXml.LastRowWins | parsing/lit_corpora/xml/dutch.py:48-54 | a row is stored unless a later row has the same id |
| DutchXml.MapFiles | parsing/lit_corpora/xml/dutch.py:39-56 | the row loop gives `Table`; it fails exactly when some row is short |
| DutchXml.TrailingNewline | parsing/lit_corpora/xml/dutch.py:34-54 | a file ending in a line break ends with an empty row, so `map_files` raises `IndexError` |
| DutchXml.SelectedName | parsing/lit_corpora/xml/dutch.py:104-105 | a file named by an id and nine more characters ending in `xml` is parsed exactly when the id is mapped |
| DutchXml.PubMeta | parsing/lit_corpora/xml/dutch.py:85-87 | author, title and date from the entry; nothing else of the metadata changes |
| DutchXml.DocFields | parsing/lit_corpora/xml/dutch.py:81-90 | a record carries its id's date and its document's text |
| DutchXml.Outputs | parsing/lit_corpora/xml/dutch.py:102-106 | at most one record per file |
| DutchXml.OutputsFrom | parsing/lit_corpora/xml/dutch.py:102-106 | every record is named by a mapped id taken from a file ending in `xml` |
| DutchXml.ParseDoc | parsing/lit_corpora/xml/dutch.py:69-93 | the text first, then author, title and date from the entry of `doc[:-9]`; the record is written under that id |
| DutchXml.GetText | parsing/lit_corpora/xml/dutch.py:59-67 | the lists end up holding what was collected from the document; the metadata is left |
| DutchXml.ParseFiles | parsing/lit_corpora/xml/dutch.py:95-106 | the walk gives `Outputs` |
| XcelToCsv.Truncate | parsing/misc/xcel_to_csv.py:29-30 | `int(x)` truncates toward zero: the whole part, below a positive value and above a negative one |
| XcelToCsv.TruncateProps | parsing/misc/xcel_to_csv.py:30 | truncation is symmetric around zero and leaves whole numbers alone |
| XcelToCsv.CleanCell | parsing/misc/xcel_to_csv.py:26-32 | a string loses its commas and nothing else, a float becomes its truncation, anything else is kept |
| XcelToCsv.CleanCellIdempotent | parsing/misc/xcel_to_csv.py:22-34 | a cleaned value is clean: cleaning it again changes nothing |
| XcelToCsv.FilterRow | parsing/misc/xcel_to_csv.py:21-34 | one cleaned value per value, in order |
| XcelToCsv.ConvertedRow | parsing/misc/xcel_to_csv.py:46 | the row written: at most seven values, each the cleaned value at the same place |
| XcelToCsv.Converted | parsing/misc/xcel_to_csv.py:45-46 | one written row per sheet row, in order |
| XcelToCsv.ConvertSheet | parsing/misc/xcel_to_csv.py:45-46 | the loop writes exactly `Converted(rows)`: one row out per row in, each its first seven values cleaned |
| XcelToCsv.ConvertAndWrite | parsing/misc/xcel_to_csv.py:36-46 | one file `<output_path>/<sheet name>.csv` per sheet, in order, holding exactly `Converted` of that sheet's rows |
| SwedishXlsx.ToList | hax/swedish_xlsx.py:4-11 | the cells' values, in order |
| SwedishXlsx.IsHt | hax/swedish_xlsx.py:14-19 | false exactly for `N/A`, the empty string and `HT ID` in column 7; a row shorter than eight raises `IndexError` |
| SwedishXlsx.Tokens | hax/swedish_xlsx.py:23 | the words of column 10; a short row raises `IndexError`, a value that is not text `AttributeError` |
| SwedishXlsx.AnyToken | hax/swedish_xlsx.py:25-29 | the search with early return is true exactly when some token passes |
| SwedishXlsx.LitBankenHasLink | hax/swedish_xlsx.py:22-38 | a Litteraturbanken link is a link: both tests fail on the same rows and the first implies the second |
| SwedishXlsx.LastLinkAt | hax/swedish_xlsx.py:59-61 | the link is the last passing token, stripped |
| SwedishXlsx.LastLinkNone | hax/swedish_xlsx.py:58-61 | with no passing token the link stays `''` |
| SwedishXlsx.FindLink | hax/swedish_xlsx.py:57-61 | the overwriting loop gives `LastLink` |
| SwedishXlsx.Names | hax/swedish_xlsx.py:48 | `' '.join([row[5], row[6]])`, raising `TypeError` unless both are text |
| SwedishXlsx.JoinPair | hax/swedish_xlsx.py:48 | joining two strings puts one space between them |
| SwedishXlsx.HtRecord | hax/swedish_xlsx.py:41-50 | four fields: the HathiTrust id, columns 0 and 1, then the names; it fails exactly for a short row or names that are not text |
| SwedishXlsx.LinkRecord | hax/swedish_xlsx.py:53-86 | four fields: the last passing link, the first two columns, and columns 5 and 6 joined by a space; it fails exactly for a short row or values that are not text |
| SwedishXlsx.FormatHt | hax/swedish_xlsx.py:41-50 | the appends give `HtRecord` |
| SwedishXlsx.FormatLink | hax/swedish_xlsx.py:53-86 | `format_banken` and `format_other` give `LinkRecord` with their own link test |
| SwedishXlsx.Destination | hax/swedish_xlsx.py:103-109 | HathiTrust first, then Litteraturbanken, then any other link; a row without a link goes nowhere |
| SwedishXlsx.Add | hax/swedish_xlsx.py:104-109 | a routed row adds one record, a dropped row none |
| SwedishXlsx.Routed | hax/swedish_xlsx.py:103-109 | the lists never hold more records than there are rows |
| SwedishXlsx.RoutedDropped | hax/swedish_xlsx.py:103-109 | every row is routed: one record per row that goes to a list, none for a row without a link |
| SwedishXlsx.ThenShift | hax/swedish_xlsx.py:103-109 | appending a record, then the rest, is appending both |
| SwedishXlsx.RoutedStep | hax/swedish_xlsx.py:103-109 | one row, then the rest of the loop |
| SwedishXlsx.RouteRow | hax/swedish_xlsx.py:104-109 | the body of the routing loop gives `Step` |
| SwedishXlsx.Route | hax/swedish_xlsx.py:99-109 | the routing loop gives `Routed` |
| DmCsv.FilterDate | parsing/formatting_stuff/misc/DM/convert_dm_csv.py:7-14 | a date that is an integer is that integer; otherwise `c` plus a year gives the last four characters, anything else the text before the first `-`; an empty date raises `IndexError`, anything unreadable `ValueError` |
| DmCsv.FilterDateInt | parsing/formatting_stuff/misc/DM/convert_dm_csv.py:8-9 | a year written out is read back |
| DmCsv.ParseDigits | parsing/formatting_stuff/misc/DM/convert_dm_csv.py:9 | digits with no blank at either end parse as their value |
| DmCsv.FilterDateCirca | parsing/formatting_stuff/misc/DM/convert_dm_csv.py:11-12 | `c` followed by a four-digit year gives the year |
| DmCsv.FilterDateRange | parsing/formatting_stuff/misc/DM/convert_dm_csv.py:13-14 | a range `a-b` of years gives its first year |
| DmCsv.RowRec | parsing/formatting_stuff/misc/DM/convert_dm_csv.py:19-38 | a row adds `(row[6], row[1], row[2], year)` exactly when it is not the header and has an id and a readable date; it is skipped for the header, an empty id or an empty date; a short row raises `IndexError` |
| DmCsv.StrLeTotal | parsing/formatting_stuff/misc/DM/convert_dm_csv.py:44 | Python's string order is total |
| DmCsv.StrLeTrans | parsing/formatting_stuff/misc/DM/convert_dm_csv.py:44 | Python's string order is transitive |
| DmCsv.IdLeTotalPreorder | parsing/formatting_stuff/misc/DM/convert_dm_csv.py:44 | ordering records by id is a total preorder |
| DmCsv.Convert | parsing/formatting_stuff/misc/DM/convert_dm_csv.py:4-44 | the script fails exactly when some row raises, with the first such error; otherwise it gives the header and the kept records, sorted by id |
| DmCsv.ConvertSorted | parsing/formatting_stuff/misc/DM/convert_dm_csv.py:44-47 | the written list is in id order, holds the header and exactly the kept records, and records with the same id keep their order |
| DmCsv.HeaderMoves | parsing/formatting_stuff/misc/DM/convert_dm_csv.py:4-44 | the header is sorted with the records: an id before `id of xml file` ends up above it |
| FormatBritish.Rename | parsing/formatting_stuff/convert/format_british.py:22-24 | moving a field fails with `KeyError` exactly when the old name is missing |
| FormatBritish.RenameAll | parsing/formatting_stuff/convert/format_british.py:22-40 | the renames in turn can only fail with `KeyError` |
| FormatBritish.DisjointTail | parsing/formatting_stuff/convert/format_british.py:22-40 | the renames after the first still do not interfere, and none touches the first one's names |
| FormatBritish.RenameAllDefined | parsing/formatting_stuff/convert/format_british.py:22-40 | renames that do not interfere succeed exactly when every old name is present |
| FormatBritish.RenameAllKeeps | parsing/formatting_stuff/convert/format_british.py:22-40 | a field no rename names keeps its presence and its value |
| FormatBritish.RenameAllMoves | parsing/formatting_stuff/convert/format_british.py:22-40 | each new name holds the value of its old name, and no old name is left |
| FormatBritish.Reformatted | parsing/formatting_stuff/convert/format_british.py:20-40 | the file keeps its keys and every record except `"0"` |
| FormatBritish.RenamesDisjoint | parsing/formatting_stuff/convert/format_british.py:22-40 | the five renames do not interfere |
| FormatBritish.ReformattedFields | parsing/formatting_stuff/convert/format_british.py:20-40 | it fails with `KeyError` exactly when the record or one of the five old fields is missing; otherwise each new field holds its old field's value, no old field is left, and every other field stays |
| FormatBritish.Reformat | parsing/formatting_stuff/convert/format_british.py:20-40 | the in-place moves give `Reformatted` |
| FormatBritish.Outputs | parsing/formatting_stuff/convert/format_british.py:14-43 | at most one output per file; a failure is a `KeyError` |
| FormatBritish.OutputsVisible | parsing/formatting_stuff/convert/format_british.py:14-43 | each file that is not hidden is written once, under its own name, in order |
| FormatBritish.FormatFiles | parsing/formatting_stuff/convert/format_british.py:14-43 | the file loop gives `Outputs` |
| Imports.Star | corpus/nlp/frequency.py:5 | `from m import *` binds exactly the names of `m` that do not start with `_` |
| Imports.FromImport | corpus/results.py:8 | `from m import x` binds `x` exactly when `m` has it, and raises `ImportError` otherwise |
| Imports.Global | corpus/nlp/frequency.py:28 | a global name resolves exactly when the module binds it, and raises `NameError` otherwise |
| Imports.ResultsGlobals | corpus/results.py:1-8 | importing results succeeds exactly when `GraphClusters` can be imported; it then binds the public names of corpus/utils.py, `GraphClusters` and its classes, and nothing else but its own imports |
| Imports.WithResults | corpus/nlp/frequency.py:1-5 | a module that star-imports results binds its own names and the public names of results, or fails with the import of results |
| Imports.ResultsImportFails | corpus/results.py:8 | as written, importing results, frequency or tf_idf_author raises `ImportError`: the package corpus/graph has no `GraphClusters` |
| Imports.ResultsImportFixed | corpus/results.py:7-8 | importing `GraphClusters` from corpus/graph/clusters.py succeeds, and results then binds the public helpers of corpus/utils.py but not `_fail` |
| Imports.Unbound | corpus/nlp/frequency.py:1-5 | a name bound neither by a module's own imports nor by results nor by corpus/utils.py is unbound there |
| Imports.FrequencyInitNameError | corpus/nlp/frequency.py:28 | `Frequency.__init__` raises `NameError`: no module binds `setup_stop_words`, even with the import of results corrected |
| Imports.TqdmNameError | corpus/nlp/tf_idf_author.py:72 | `generating_author_dict` raises `NameError` on `tqdm`, which frequency.py imports and tf_idf_author.py does not |

## Left out

**Input, output and outside libraries**

- File system and I/O are not modelled: directory walks, `open`, `json.load`, `json.dumps`, CSV reading and writing, `build_out`, and the `write`/`save`/`load` methods. Directories are lists of decoded files, and each output is the value that would be written.
- The layout of `json.dumps` output (field order, indentation) is not modelled; a JSON body is the record it encodes.
- gensim's `Dictionary`, `doc2bow` and `TfidfModel` (`'ntc'` weighting) are function parameters, so the tf-idf scores themselves are not computed.
- nltk's Snowball stemmers, stop-word lists and tokenizers are parameters.
- Plotting with matplotlib is left out because it only draws: `create_plot`, `construct_bars`, `show`, `save` and corpus/graph/clusters.py.
- The multiprocessing `parse_files_threaded` and the selenium download steps of the crawlers (`download_files` and the `main` drivers) are left out because they talk to processes or the network.
- xlrd's reading of a workbook is left out; the model starts from the cell values it hands over.
- `print` calls, warnings, `tqdm` progress bars and the exit inside `_fail` are left out; `_fail` is an `Err`.
- apps/* and setup.py are command-line wrappers and packaging, so they are not part of this model.

**Numbers and text**

- Floating point is not modelled. Ratios are exact reals, `round(…, 4)` is dropped, and `inf`/`nan` do not occur.
- Some text handling is approximated:
  - `int()` accepts no `_` separators and no non-ASCII digits;
  - the regular-expression classes `\W` and `\s` and `lower()` are exact for ASCII and Latin-1 only;
  - JSON numbers with a fraction are not modelled; a decoded number is an integer.
  - what BeautifulSoup's `get_text` collects is an input (`add_xml_content`, `add_bs_xml_content`).

**Partly modelled operations**

- `frequency_from_file`, `write_freq`, and the results classes' `write`, `write_to_json` and `debug_str` methods only read, write or print, so they are left out. Of `FrequencyResults.display`, only the choice of keys it prints is modelled.
- `DiffPropResults` and `ScoreMatResults` are left out because only the clustering code uses them, and it is not part of this model.
- `build_sub_corpus` returns the extracts it writes; the `Corpus` object it also returns is left out.
- The `DutchParser` and `XcelToCsv` classes are modelled by their methods as functions. Their constructors only store arguments.
- The DM converter's `sorted_recs` (always `None`) is left out.
- The in-place `list.sort` calls are modelled on sequences; aliasing of the sorted list is not captured.
- parsing/lit_corpora/banken_crawler.py duplicates parsing/lit_corpora/crawlers/banken_crawler.py and is modelled once.
- Global names are looked up in a module's own namespace only. Python's builtins are not listed, and none of them is named `setup_stop_words` or `tqdm`.
- Runeberg's `OSError` when a volume has no `title` file is not modelled; the title file is an input.
- An empty file name, where `name[0]` would raise `IndexError`, counts as not hidden. `os.walk` never yields one.

**Weaker contracts**

- RawFrequency.RawFrequency.UpdateFreqDict: on an exception, the table is left as it was. The source has already stored an entry for the volume by then: `{}` when the `'Date'` lookup or `int(json_data['Date'])` fails, and `{'Date': d, 'Frequencies': {}}` when the text-field lookup or `nltk.ngrams` fails.
- ParsingUtils.CleanText: beyond Latin-1 every character that is not blank counts as a word character, and `lower()` folds ASCII and Latin-1 letters only. Python's `\W` and `str.lower` follow the full Unicode tables.
- TfidfAuthor.NormalizeAuthor: the same approximation of `\W` and `lower()` beyond Latin-1.
- Results.CleanTablesAsWritten: models CPython's dict iteration when no insertion has to grow the table. When one does, CPython compacts the table, and the iterator may skip keys and end without an error; that case is not modelled.
- CorpusFrequency.Frequency.constructor: is given the stop-word set itself. As written, `__init__` raises `NameError` at `setup_stop_words` (see Findings).
- TfidfAuthor.TfidfAuthor.GeneratingAuthorDict: models the method with `tqdm` imported. As written it raises `NameError` at `tqdm.tqdm` (see Findings).
- Graph.GraphFrequency.BuildGraphDict: on an exception, the contract states only that the object stays valid. The keywords written before the failure are not modelled.
- FormatBritish.FormatFiles: returns every output or the first error. The files written before the error are not modelled.
- Results.FrequencyResults.CleanKeys: states the renaming `clean_keys` intends. As written, CPython raises `RuntimeError` as soon as a period holds a tuple key (see Findings).
- Results.CleanTables: states the renaming `clean_keys` intends. As written, CPython raises `RuntimeError` as soon as a period holds a tuple key (see Findings).
- Results.CleanAll: states the renaming `clean_keys` intends. As written, CPython raises `RuntimeError` as soon as a period holds a tuple key (see Findings).
- Results.CleanAllNext: states the renaming `clean_keys` intends. As written, CPython raises `RuntimeError` as soon as a period holds a tuple key (see Findings).
- Results.CleanAllDone: states the renaming `clean_keys` intends. As written, CPython raises `RuntimeError` as soon as a period holds a tuple key (see Findings).
- Results.CleanPeriod: states the renaming `clean_keys` intends. As written, CPython raises `RuntimeError` as soon as a period holds a tuple key (see Findings).
- Results.CleanNext: states the renaming `clean_keys` intends. As written, CPython raises `RuntimeError` as soon as a period holds a tuple key (see Findings).
- Results.CleanDone: states the renaming `clean_keys` intends. As written, CPython raises `RuntimeError` as soon as a period holds a tuple key (see Findings).
- Results.CleanProps: states the renaming `clean_keys` intends. As written, CPython raises `RuntimeError` as soon as a period holds a tuple key (see Findings).
- Results.Clean: states the renaming `clean_keys` intends. As written, CPython raises `RuntimeError` as soon as a period holds a tuple key (see Findings).
- Results.CleanWith: states the renaming `clean_keys` intends. As written, CPython raises `RuntimeError` as soon as a period holds a tuple key (see Findings).
- Results.CleanWithStrs: states the renaming `clean_keys` intends. As written, CPython raises `RuntimeError` as soon as a period holds a tuple key (see Findings).
- Results.CleanWithKeys: states the renaming `clean_keys` intends. As written, CPython raises `RuntimeError` as soon as a period holds a tuple key (see Findings).
- Results.CleanWithValues: states the renaming `clean_keys` intends. As written, CPython raises `RuntimeError` as soon as a period holds a tuple key (see Findings).

## Findings

| source | as written | input that shows it | evidently intended | confidence | as-written member | corrected member |
|---|---|---|---|---|---|---|
| corpus/results.py:51-54 | `clean_keys` pops each tuple key and stores its value under the joined string while iterating over the same dict, so CPython raises `RuntimeError` | `d = {1900: {('a', 'b'): 1}}` | every tuple key replaced by its space-joined string, as `Results.CleanProps` states | high, not executed | Results.CleanKeysRaises | Results.FrequencyResults.CleanKeys |
| corpus/results.py:8 | `from corpus.graph import GraphClusters`, but corpus/graph/__init__.py never imports `clusters`, so importing results (and every module that imports it) raises `ImportError` | importing corpus/results.py | `from corpus.graph.clusters import GraphClusters` | high, not executed | Imports.ResultsImportFails | Imports.ResultsImportFixed |
| corpus/nlp/frequency.py:28 | `setup_stop_words(stop_words)` names a function no module defines, so `Frequency(...)` raises `NameError` | `Frequency('n', 'dir', 'Text', [1900, 1910], 'Date')` | a stop-word setup like that of the sibling classes, whose result is stored | high, not executed | Imports.FrequencyInitNameError | CorpusFrequency.Frequency.constructor |
| corpus/nlp/tf_idf_author.py:72 | `tqdm.tqdm(files)` in a module that never imports `tqdm`, so `generating_author_dict` raises `NameError` once the walk finds a directory | any `in_dir` that exists | `import tqdm`, as corpus/nlp/frequency.py has | high, not executed | Imports.TqdmNameError | TfidfAuthor.TfidfAuthor.GeneratingAuthorDict |
