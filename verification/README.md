# Flexster music cards: a verified model

Flexster turns a list of song titles into printable music quiz cards. Each card has
a QR code on the front and the song's details on the back. This project models
the two pieces of sequential logic in it and proves what they promise:

- `MusicFetcher` (music_fetcher.py), in `music_fetcher.dfy`. It covers the iTunes
  lookup of one title, with its "Unknown ..." defaults and its four-character year.
  It also covers the MusicBrainz composer search:
  - the OR-joined `artist:("A" OR "B")` clause;
  - up to three title variants, and one `recording:"<variant>" AND <clause>` query
    per variant;
  - the chain from recording to work relation to composer relation;
  - the work-search fallback with its two acceptance rules.

  Finally it covers `fetch_all`, which keeps the records found in title order.
  The remote services are a value of type `Services`: one total function per kind
  of request, whose `Reply` is either the decoded JSON or `Raised` (an exception).
  The loops of the source are methods proved equal to the functions that specify
  them.
- `PDFGenerator` (pdf_generator.py), in `pdf_generator.dfy`. It is a class with
  the source's fields. `create_pdf` does the following:
  - it drops falsy items and splits the rest into pages of `cols * rows`;
  - it fills each front table in row-major order;
  - it fills each back table with the column order reversed when `mirror_metadata`
    is set;
  - it emits front, page break, back, page break per page.

  QR images and details paragraphs are opaque cells that record which item they
  show.
- `py_text.dfy` (module `PyText`) gives the Python string operations these rely
  on, over `seq<char>`:
  - `strip()`, `split()` and `re.split(r'[,&]', ...)`;
  - `replace('"', '')`, `in`, `split(": ", 1)` and `lower()`;
  - `re.sub(r'\(.*?\)', '', ...)`.

  Lemmas state what each one means.
- `wrappers.dfy` holds the `Option` datatype and `Present`. `Present` keeps the values of the present entries in order. It is the filter shared by `create_pdf` (pdf_generator.py:35) and `fetch_all` (music_fetcher.py:186-187).

## Model

| member | source | states |
|---|---|---|
| PyText.IsSpace | music_fetcher.py:20 | the whitespace `strip()` and `split()` remove: Python's `str.isspace()` set, ASCII and Unicode spaces alike; StripSpec and WordsSpec state what is removed with it |
| PyText.StripSpec | music_fetcher.py:20 | `strip()` yields "" exactly for an all-whitespace string; otherwise it neither starts nor ends with whitespace, and it is a slice of the input with only whitespace removed on either side |
| PyText.TrimStartSpec | music_fetcher.py:20 | left trimming drops exactly a whitespace prefix and stops at a non-space |
| PyText.TrimEndSpec | music_fetcher.py:20 | right trimming drops exactly a whitespace suffix and stops at a non-space |
| PyText.StripKeepsChars | music_fetcher.py:41 | `strip()` introduces no character that was not in the input |
| PyText.Split | music_fetcher.py:19 | a split always yields at least one piece |
| PyText.SplitPiecesHaveNoSeparator | music_fetcher.py:19 | no piece of a split contains a separator character |
| PyText.SplitRejoin | music_fetcher.py:19 | the pieces, interleaved with the separators met, rebuild the input, with one more piece than separators |
| PyText.SplitPlainPrefix | music_fetcher.py:19 | a separator-free prefix is glued to the first piece of the rest |
| PyText.SplitSeparatorPrefix | music_fetcher.py:19 | a leading separator yields an empty first piece |
| PyText.NonEmptySpec | music_fetcher.py:127 | the filter keeps exactly the non-empty pieces |
| PyText.WordsSpec | music_fetcher.py:127 | `split()` yields exactly the non-empty whitespace-separated pieces, none holding whitespace |
| PyText.RemoveCharSpec | music_fetcher.py:20 | `replace(x, '')` removes every `x`, keeps every other character, and changes nothing when `x` is absent |
| PyText.FindFrom | music_fetcher.py:35-36 | a position found is at or after the start and the substring occurs there |
| PyText.FindFromFirst | music_fetcher.py:35-36 | the position found is the first occurrence from the start; None means no occurrence at or after it |
| PyText.Lower | music_fetcher.py:122 | `lower()` works character by character and keeps the length |
| PyText.ContainsSpec | music_fetcher.py:122 | `sub in s` holds exactly when `sub` occurs at some position of `s` |
| PyText.GroupEnd | music_fetcher.py:41 | the closing parenthesis found lies inside the text |
| PyText.GroupEndSpec | music_fetcher.py:41 | the lazy `.*?` group ends at the first `)`, with no newline before it; none is found only when every `)` comes after a newline |
| PyText.StripGroups | music_fetcher.py:41 | removing groups never lengthens the text |
| PyText.StripGroupsKeepsChars | music_fetcher.py:41 | removing groups introduces no new character |
| PyText.StripGroupsPlain | music_fetcher.py:41 | text without `(` is unchanged |
| PyText.GroupEndAfter | music_fetcher.py:41 | a group without `)` or newline ends at the `)` after it |
| PyText.StripGroupsRemovesSpan | music_fetcher.py:41 | the first `(...)` span is removed and the text before it is kept |
| MusicFetcher.CleanPiecesAppend | music_fetcher.py:20 | the comprehension distributes over concatenation, so the pieces keep their order |
| MusicFetcher.CleanPiecesAvoid | music_fetcher.py:20 | a cleaned name holds no `"` and no character its piece lacked |
| MusicFetcher.ArtistNamesAvoid | music_fetcher.py:19-20 | no artist name contains `,`, `&` or `"` |
| MusicFetcher.CleanPiecesEmpty | music_fetcher.py:20 | no name survives exactly when every piece is blank |
| MusicFetcher.SplitAllBlank | music_fetcher.py:19-20 | every piece of the split is blank exactly when the artist holds only separators and whitespace |
| MusicFetcher.ArtistClause | music_fetcher.py:19-27 | `artist:(...)` around the quoted names joined by ` OR `, or "" without names; ArtistClauseEmpty and ArtistClauseRoundTrip state its meaning |
| MusicFetcher.ArtistClauseEmpty | music_fetcher.py:19-27 | the clause is "" exactly when there are no names, which is exactly when the artist holds only `,`, `&` and whitespace |
| MusicFetcher.SplitQuoted | music_fetcher.py:24 | splitting a quoted name on `"` gives it back between empty and following pieces |
| MusicFetcher.JoinOrRoundTrip | music_fetcher.py:24 | the quoted names joined with ` OR ` read back, from the text between the quotes, as the same names in order |
| MusicFetcher.ArtistClauseRoundTrip | music_fetcher.py:22-27 | the names quoted inside `artist:(...)` are exactly the artist names, in order, and there are none when the clause is "" |
| MusicFetcher.TitleVariants | music_fetcher.py:30-43 | the variants in the order the source appends them; TitleVariantsSpec and TitleVariantsUnquoted state their meaning |
| MusicFetcher.CollectTitleVariants | music_fetcher.py:30-43 | the appends build exactly the variant list |
| MusicFetcher.TitleVariantsSpec | music_fetcher.py:30-43 | 1 to 3 variants; the first is the title without `"`; with `": "` the second is the text after its first occurrence; the base title is appended exactly when it is non-empty and differs from the cleaned title, and then it is last |
| MusicFetcher.TitleVariantsUnquoted | music_fetcher.py:31-43 | no variant holds `"`, so none can leave the quoted phrase of its query |
| MusicFetcher.RecordingQueryPhrase | music_fetcher.py:49 | the query reads `recording:` followed by the variant as one quoted phrase |
| MusicFetcher.FirstWorkRelation | music_fetcher.py:72-76 | the index is that of the first relation with target type "work", or the end when there is none |
| MusicFetcher.FirstComposerRelation | music_fetcher.py:90-92 | the index is that of the first relation of type "composer", or the end when there is none |
| MusicFetcher.VariantComposer | music_fetcher.py:49-96 | one pass of the loop body: the composer name of the first composer relation of the first work of the first hit, or None wherever the source continues with the next variant |
| MusicFetcher.TryVariant | music_fetcher.py:51-96 | one pass of the loop body equals `VariantComposer`: no hit, no work relation, no composer relation or any exception means moving on (None) |
| MusicFetcher.FirstHit | music_fetcher.py:46-96 | the variants are tried in order until a pass returns a composer; FirstHitNone, FirstHitFirst and FirstHitAt state its meaning |
| MusicFetcher.FirstHitNone | music_fetcher.py:46-96 | the loop yields nothing exactly when every variant's pass moves on |
| MusicFetcher.FirstHitFirst | music_fetcher.py:46-96 | a composer the loop yields is that of some variant all of whose predecessors moved on |
| MusicFetcher.FirstHitAt | music_fetcher.py:46-96 | when variant i's pass finds a composer and every earlier pass moved on, the loop returns variant i's composer |
| MusicFetcher.NoArtistSkipsRecordings | music_fetcher.py:46-48 | with no artist name the result is the fallback's, whatever the recording search would answer |
| MusicFetcher.AnyPartOccursSpec | music_fetcher.py:127-130 | rule 2 holds exactly when some name part longer than 3 characters occurs in the lowercased query |
| MusicFetcher.AcceptsSpec | music_fetcher.py:122-130 | a candidate is accepted exactly when rule 1 (a non-empty artist containing the lowercased name) or rule 2 holds |
| MusicFetcher.ScanRelations | music_fetcher.py:116-130 | the scan of one work's relations: each composer relation is a candidate; it ends accepted, exhausted, or aborted by a nameless relation; the three lemmas below state each ending |
| MusicFetcher.ScanRelationsAccepted | music_fetcher.py:116-130 | a composer accepted in one work is its first accepted composer candidate, and every composer relation before it was a named, rejected candidate |
| MusicFetcher.ScanRelationsExhausted | music_fetcher.py:116-130 | the scan of a work runs to its end exactly when every composer relation is named and rejected; rejections never stop the scan |
| MusicFetcher.ScanRelationsAborted | music_fetcher.py:116-132 | the scan aborts at the first composer relation without an artist name, where the lookup raises, and every composer relation before it was a named, rejected candidate |
| MusicFetcher.ScanWorks | music_fetcher.py:107-132 | the scan of the works in order: a work whose scan is exhausted moves on; a missing id or a raised lookup aborts |
| MusicFetcher.ScanWorksSkip | music_fetcher.py:107-130 | works passed over (id present, lookup answered, scan exhausted) do not change the outcome |
| MusicFetcher.ScanWorksAt | music_fetcher.py:107-132 | the scan of the works ends as the first work not passed over: aborted without an id or when its lookup raised, else as the scan of its relations |
| MusicFetcher.ScanWorksExhausted | music_fetcher.py:107-130 | the scan of the works runs to the end exactly when every work is passed over |
| MusicFetcher.ScanWorksSound | music_fetcher.py:107-130 | a composer returned by the scan of the works passes the acceptance rules |
| MusicFetcher.FallbackLookup | music_fetcher.py:98-134 | the nested loops over works, relations and name parts equal `FallbackComposer` |
| MusicFetcher.FallbackComposer | music_fetcher.py:98-134 | the fallback: only for a non-empty query; the accepted candidate of the work search, or None |
| MusicFetcher.FallbackSound | music_fetcher.py:99-134 | no fallback without a query, when the search raised, or when every work is passed over; a composer it returns comes from a search that answered and passes the acceptance rules |
| MusicFetcher.FallbackAt | music_fetcher.py:99-134 | for a non-empty query whose search answered, the fallback returns the candidate accepted at the first work not passed over, and None when that work aborts the scan |
| MusicFetcher.FetchComposerFromMb | music_fetcher.py:12-134 | the method equals `ComposerFromMb`: the variant loop, then the fallback |
| MusicFetcher.ComposerFromMb | music_fetcher.py:12-134 | the variant loop first, the fallback when it finds nothing |
| MusicFetcher.ComposerFromMbSpec | music_fetcher.py:12-134 | with an artist name, the result is the composer of the first variant whose pass finds one; with no artist name or when every pass moves on, it is the fallback's answer; a composer found comes from one of these two, the fallback's passing the acceptance rules for a non-empty query |
| MusicFetcher.Year | music_fetcher.py:154-155 | "Unknown" when the release date is absent or empty, else its prefix of length min(4, its length) |
| MusicFetcher.Metadata | music_fetcher.py:136-178 | a record found carries the input query and a non-empty composer |
| MusicFetcher.MetadataNone | music_fetcher.py:143-178 | no record exactly when the search raised or found nothing |
| MusicFetcher.MetadataDefaults | music_fetcher.py:151-174 | each field is the iTunes value when present and otherwise its fixed default; the year is the date's first four characters or "Unknown" |
| MusicFetcher.MetadataComposer | music_fetcher.py:157-169 | a truthy iTunes composer is used and MusicBrainz is then irrelevant; otherwise the MusicBrainz composer for the record's title and artist, and "Unknown Composer" when that is falsy |
| MusicFetcher.FetchMetadata | music_fetcher.py:136-178 | the method equals `Metadata` |
| MusicFetcher.FetchAll | music_fetcher.py:180-190 | the loop's result equals `FoundRecords` |
| MusicFetcher.FoundRecordsAppend | music_fetcher.py:183-187 | the records of concatenated title lists are the concatenated records, so order is preserved |
| MusicFetcher.FoundRecordsSpec | music_fetcher.py:180-190 | at most one record per title; each record's query is a title that produced it; every title with a record contributes it |
| PdfGenerator.PdfGenerator.constructor | pdf_generator.py:10-14 | the fields take the given values, defaulting to "music_cards.pdf", mirroring on, 4 rows and 3 columns |
| Wrappers.PresentAppend | pdf_generator.py:35 | the filter distributes over concatenation, so the kept items keep their order |
| Wrappers.PresentStep | music_fetcher.py:183-187 | filtering one more entry appends its value, if any, after the values kept so far |
| Wrappers.PresentSpec | pdf_generator.py:35 | the kept items are exactly the truthy ones, and there are no more of them than entries |
| PdfGenerator.ChunksSpec | pdf_generator.py:72-73 | the chunks concatenate back to the items, and each holds between 1 and `cols * rows` of them |
| PdfGenerator.ChunksCount | pdf_generator.py:72-73 | the number of chunks n is the ceiling: (n-1)·k < items ≤ n·k |
| PdfGenerator.ColRange | pdf_generator.py:111-114 | the column order has `cols` entries, all valid columns |
| PdfGenerator.FrontGrid | pdf_generator.py:76-90 | `front_data`: `rows` lists of `cols` cells (none for a non-positive count) |
| PdfGenerator.FrontGridRowMajor | pdf_generator.py:76-90 | the front is `rows` × `cols`, and read row by row it is the chunk's QR codes in order followed by `rows*cols - len(chunk)` blanks |
| PdfGenerator.BackGrid | pdf_generator.py:106-131 | `back_data`: `rows` lists of `cols` cells (none for a non-positive count) |
| PdfGenerator.BackFacesFront | pdf_generator.py:106-131 | back cell (r, cols-1-c) when mirroring, (r, c) otherwise, shows the details of the item whose QR code is at front cell (r, c) |
| PdfGenerator.MirroredRow | pdf_generator.py:111-118 | each mirrored back row is the reverse of the unmirrored one |
| PdfGenerator.UnmirroredBack | pdf_generator.py:106-131 | unmirrored, the back read row by row is the chunk's details in order followed by the blanks |
| PdfGenerator.BackCoverage | pdf_generator.py:106-131 | on either back every item appears exactly once, with `rows*cols - len(chunk)` blanks |
| PdfGenerator.SheetsStep | pdf_generator.py:72-144 | the elements from item i on are the sheet of the chunk starting at i, then those of the later chunks |
| PdfGenerator.SheetAt | pdf_generator.py:102-144 | the i-th group of four elements is the i-th chunk's front, page break, back, page break |
| PdfGenerator.SheetsSpec | pdf_generator.py:72-144 | the element list has 4 entries per chunk, each group of four being its chunk's sheet |
| PdfGenerator.Layout | pdf_generator.py:33-146 | what `create_pdf` hands to `doc.build`, or the `ZeroDivisionError`; LayoutSpec states its meaning |
| PdfGenerator.LayoutSpec | pdf_generator.py:33-146 | zero rows or columns raise; no items or a negative page size give no elements; otherwise there are 4 elements per page, and the pages are the ceiling of items / (cols*rows) |
| PdfGenerator.PdfGenerator.FrontTable | pdf_generator.py:76-90 | the loop over rows builds exactly the front grid |
| PdfGenerator.PdfGenerator.FrontCells | pdf_generator.py:78-89 | the inner loop builds exactly front row r: column c shows item r*cols+c, or a blank past the chunk's end |
| PdfGenerator.PdfGenerator.BackCells | pdf_generator.py:108-130 | the inner loop over the chosen column order builds exactly back row r |
| PdfGenerator.PdfGenerator.BackTable | pdf_generator.py:106-131 | the loop over rows builds exactly the back grid |
| PdfGenerator.PdfGenerator.ChunkSheet | pdf_generator.py:76-144 | one chunk's appends produce its sheet |
| PdfGenerator.PdfGenerator.CreatePdf | pdf_generator.py:33-146 | the method equals `Layout` of its fields |

## Left out

- HTTP requests, `raise_for_status()`, JSON decoding, `time.sleep` and logging are I/O. Each remote request is a total function in `Services`, and an exception is `Raised`. Services are deterministic, so the same query always gets the same answer.
- The `limit` parameters of the searches (1 and 3) are the server's concern. The model takes whatever list the service returns.
- The fallback's work-details request at music_fetcher.py:113-114 does not call `raise_for_status()`. An error page is then whatever its JSON decodes to. The model's `workRelations` answer covers that case without telling it apart.
- FetchMetadata: reads "no results" from the result list itself, not from `resultCount` (music_fetcher.py:147-151). The two differ in three cases. With `resultCount > 0` and an empty `results`, Python raises an `IndexError`; the model returns None. With `resultCount == 0` and a non-empty `results`, Python returns None; the model builds a record from the first result. A missing `resultCount` or `results` key raises a `KeyError` in Python. `fetch_metadata` catches only `RequestException`, so both exceptions end `fetch_all`.
- A JSON key present with the value null is not modelled: an `Option` None stands for an absent key only. In the source, a null `artistName` makes `re.split` at music_fetcher.py:19 raise a `TypeError` that nothing catches. A null composer name at music_fetcher.py:92 is returned at once, so the fallback is skipped and the record gets "Unknown Composer". In the model, the pass moves on to the next variant and `Metadata` takes the field's default.
- `save_to_csv` (music_fetcher.py:192-205) is file I/O.
- `Lower` lowercases ASCII letters only. Python's full Unicode `lower()` is not modelled.
- `IsSpace` is Python's `str.isspace()` set: the ASCII whitespace, U+001C to U+001F, U+0085, U+00A0, U+1680, U+2000 to U+200A, U+2028, U+2029, U+202F, U+205F and U+3000. No Unicode database is modelled beyond this list.
- The `re.sub` groups are modelled as a left-to-right scan to the next `)` with no newline before it. The regex engine is not modelled.
- Falsy list entries (None or an empty record) are all `None` in the item list. The items themselves are opaque, so the card text is not modelled.
- reportlab is a foreign library, so none of it is modelled: `SimpleDocTemplate`, `doc.build`, `Table`/`TableStyle`, `Paragraph` markup, `getSampleStyleSheet` and `generate_qr_image` (pdf_generator.py:15-31, 39-44, 63-69, 92-101, 120-127, 133-146). The model returns the element list handed to `doc.build`. `filename` is kept as a field only.
- The float page geometry (`col_width`, `row_height`, `qr_size`) is not modelled. Only its division by `cols` and `rows` is, as the `ZeroDivision` outcome.
- qr_generator.py, https_server.py and main.py (argument parsing, file reading, the TLS server) are not part of this model.
