# hhr reader, modelled in Dafny

This project models Biopython's reader for the `hhr` result files of HHsearch and
HHblits (`Bio/Align/hhr.py`). An hhr file holds one query and the pairwise
alignments of that query against the hit templates.

The reader works in two phases:

- **Constructor.** `AlignmentIterator.__init__` reads the header: `key value`
  metadata lines up to a blank line, the column header of the summary table,
  then the numbered summary rows. The number of rows is the expected hit count.
- **Hit section.** `parse` reads the rest of the stream line by line and
  dispatches on each line's prefix:
  - a `>` line starts a hit, and the line after it holds the hit's
    `key=value` annotations;
  - `No k` lines number the hits;
  - `Q …` and `T …` block lines carry the aligned letters;
  - track lines carry secondary structure, consensus, confidence and column
    scores;
  - `Done!` must be the last line.

  Each finished hit is turned into an alignment record by `_create_alignment`.

The model follows the module structure of the source:

| file | module | what it holds |
|---|---|---|
| `text.dfy` | `Text` | the Python `str` operations the reader relies on (`strip`, `split()`, `split(None, 1)`, `rsplit(None, 1)`, `split(sep)`, `replace`, `int`, `" " * n`), each with the properties the reader needs |
| `types.dfy` | `HhrTypes` | the errors, metadata values, records, alignments and the parser's attributes (`ParserState`) |
| `header.dfy` | `Header` | the constructor as functions over the read lines, and what a successful header guarantees |
| `lines.dfy` | `HitLines` | how one line of the hit section is classified and unpacked, and how an annotation line is read |
| `blocks.dfy` | `Blocks` | one step of the dispatch (`Step`), the run to the end of the stream (`Run`), the final record and count check (`Finish`), and `Read` for a whole file |
| `assembly.dfy` | `Assembly` | `_create_alignment` (`Assemble`) with its padding of letter annotations |
| `coordinates.dfy` | `Coordinates` | a reference definition of the coordinate inference for two gapped rows, and the shift by the start offsets |
| `hits.dfy` | `HitProperties` | properties of the whole run: the record count, the lines that stop parsing, and that each record is built from exactly the lines of its own hit |
| `iterator.dfy` | `Iterator` | the iterator as a class whose methods update its position and attributes in place, each proved equal to the functions above |

Errors the source raises (`ValueError`, `AssertionError`, `AttributeError`,
`KeyError`, `TypeError`) are values of `ParseError`. Parsing a file gives an
`Outcome`: the records the generator yields before it stops, and the error it
stops with, if any.

## Model

| member | source | states |
|---|---|---|
| Header.HeaderEntry | Bio/Align/hhr.py:55-71 | A key outside the eight recognised keys gives exactly the "Unknown key" error. `Query` names the query. `Date` is stored as `Rundate` and `Command` as `Command line`. `Match_columns` and `Searched_HMMs` succeed exactly when the value reads as an integer, and store it. `No_of_seqs` succeeds exactly when the value has two parts around ` out of ` and both read as integers, and stores the pair; any other number of parts is rejected with the value. `Neff` and `Template_Neff` store the value under their own key. Every stored key is one the metadata may hold. |
| Header.ClassifyMeta | Bio/Align/hhr.py:50-54 | A line ends the metadata block exactly when it is blank after stripping. A one-word line fails to unpack into key and value. Otherwise the line gives the key's entry or the key's error. |
| Header.ClassifyRow | Bio/Align/hhr.py:93-97 | A summary line is the end of the table exactly when it strips to empty. It is a numbered row exactly when its first word reads as an integer. A one-word line fails to unpack. |
| Header.Store | Bio/Align/hhr.py:55-69 | A line sets either the query name or one metadata entry. The old entries and the query name are left unchanged. |
| Header.ReadMetadata | Bio/Align/hhr.py:50-72 | The metadata loop ends inside the stream. It only adds keys the metadata may hold. What it collects is stated by MetadataCollected. |
| Header.LastWrite | Bio/Align/hhr.py:50-69 | The last line of a range that sets the query name or a given key, if any: it sets it, and no later line of the range does. `None` means no line of the range sets it. |
| Header.MetadataCollected | Bio/Align/hhr.py:50-72 | After the metadata loop, each key holds the value of the last line before the blank line that sets it, or what it held before. The query name is the value of the last `Query` line, or the one before. |
| Header.MetadataReachesBadLine | Bio/Align/hhr.py:50-71 | A line that is not a metadata entry, reached through entry lines only, ends the metadata loop with that line's error. |
| Header.HeaderMetadata | Bio/Align/hhr.py:40-72 | On a whole file: after a successful constructor, each metadata key holds the value of the last line in the metadata block that sets it. The query name is the value of the last `Query` line. |
| Header.CountRows | Bio/Align/hhr.py:91-97 | The summary loop only counts up, and it ends inside the stream. |
| Header.HeaderOf | Bio/Align/hhr.py:47-99 | An error in the metadata is the constructor's error. A stream that ends after the metadata is "Truncated file". A wrong column header line is rejected. Otherwise the constructor succeeds exactly when the summary loop does, with its count and position. |
| Header.Header | Bio/Align/hhr.py:40-99 | The constructor on a stream of lines. An empty stream is "Truncated file". A successful constructor ends inside the stream and stores only keys the metadata may hold. |
| Header.MetadataStopsAtBlank | Bio/Align/hhr.py:50-53 | The metadata loop reads nothing past the first blank line: streams that agree up to it give the same result. Parsing resumes right after that line. |
| Header.UnknownKeyRejected | Bio/Align/hhr.py:70-71 | Any metadata line whose key is not recognised ends parsing with that key. |
| Header.UnknownKeyEndsHeader | Bio/Align/hhr.py:50-71 | On a whole file: when every line before line `j` is a metadata entry and line `j` has a key that is not recognised, the constructor fails with that key. |
| Header.CountRowsNumbered | Bio/Align/hhr.py:92-97 | A successful summary loop has seen the rows before the first blank line numbered 1, 2, … in turn, and counted exactly those rows. |
| Header.CountRowsStops | Bio/Align/hhr.py:92-94 | The summary loop ends right after the first blank line, or at the end of the stream. |
| Header.NumberedRowsAccepted | Bio/Align/hhr.py:92-97 | Rows numbered in turn up to the first blank line are accepted. This is the converse of CountRowsNumbered. |
| Header.HeaderTable | Bio/Align/hhr.py:73-98 | A successful constructor found the column header right after the metadata block. Its hit count is the summary loop's count. |
| Header.HeaderCount | Bio/Align/hhr.py:77-98 | After a successful constructor, the hit count is the number of summary rows before the first blank line, and each row is numbered by its position. |
| Header.MisnumberedRowRejected | Bio/Align/hhr.py:96-97 | A row numbered out of turn anywhere in the table makes the constructor fail. |
| Header.NumberedTableAccepted | Bio/Align/hhr.py:77-98 | A correct column header followed by rows numbered in turn makes the constructor succeed. |
| HitLines.ParseTotal | Bio/Align/hhr.py:214-216 | A total without the opening and closing parentheses is rejected. One with them reads exactly when the text between them reads as an integer, and gives that integer; otherwise that text is reported. |
| HitLines.TotalRoundTrip | Bio/Align/hhr.py:214-216 | A natural number written as `(n)` reads back as `n`. |
| HitLines.ParseSpan | Bio/Align/hhr.py:219-225 | The start is `int(start) - 1`, the end is `int(end)` and the total is the parenthesised number. The span reads exactly when all three do, and a bad start is reported first. |
| HitLines.SpanRoundTrip | Bio/Align/hhr.py:219-225 | A start, end and total written in decimal, the total in parentheses, read back as the span `start - 1`, `end`, `total`. |
| HitLines.BlockCells | Bio/Align/hhr.py:211-251 | A block line unpacks exactly when it has six words. The cells are the tag, the name, the span read from the third, fifth and sixth words, and the letters in the fourth. |
| HitLines.BlockCellsOfWords | Bio/Align/hhr.py:211-251 | Six words joined by single blanks unpack into those same words: the tag, the name, the span they spell and the letters. |
| HitLines.NestedPrefixes | Bio/Align/hhr.py:207-244 | Every `Q …`/`T …` track prefix begins with `Q ` or `T `, so testing them inside those branches keeps the source's order of tests. |
| HitLines.Classify | Bio/Align/hhr.py:161-256 | A line is blank exactly when it is empty. It starts a hit exactly when it starts with `>`. A hit number starts with `No `. A track line starts with its track's prefix. A `Q`/`T` block line starts with `Q `/`T ` and is none of that side's track lines. |
| HitLines.ClassifyQuery | Bio/Align/hhr.py:207-228 | A line starting with `Q ` is a query track line or a query block line. A track line starts with its track's prefix. A block line starts with neither `Q ss_pred ` nor `Q Consensus `. |
| HitLines.ClassifyTarget | Bio/Align/hhr.py:229-254 | A line starting with `T ` is a target track line or a target block line. A track line starts with its track's prefix. A block line starts with none of `T ss_pred `, `T ss_dssp ` and `T Consensus `. |
| HitLines.ClassifyBlank | Bio/Align/hhr.py:161-162 | Only an empty (right-stripped) line is skipped as blank. |
| HitLines.ClassifyDone | Bio/Align/hhr.py:187 | Only the exact line `Done!` is the end marker. |
| HitLines.ClassifyHitStart | Bio/Align/hhr.py:163-164 | A `>` line gives the hmm name and the description that follow the marker. |
| HitLines.ClassifyColumnScore | Bio/Align/hhr.py:196-197 | Every line starting with a blank is a column-score line holding the stripped line. |
| HitLines.ClassifyHitNumber | Bio/Align/hhr.py:198-203 | Every line starting with `No ` is a hit-number line. |
| HitLines.ClassifyConfidence | Bio/Align/hhr.py:204-206 | Every line starting with `Confidence` is a confidence line holding the text after its first word. |
| HitLines.ClassifyQueryLine | Bio/Align/hhr.py:207-228 | Every line starting with `Q ` goes to the query dispatch. |
| HitLines.ClassifyTargetLine | Bio/Align/hhr.py:229-254 | Every line starting with `T ` goes to the target dispatch. |
| HitLines.ClassifyUnparsable | Bio/Align/hhr.py:255-256 | A line falls through the dispatch exactly when it matches none of the prefixes. The error shows its first 30 characters. |
| HitLines.ReadHitLine | Bio/Align/hhr.py:159-177 | A line of the hit section is kept right-stripped, classified from that stripped text, and read as an annotation line in case it follows a `>` line. |
| HitLines.AnnotationWordSplits | Bio/Align/hhr.py:180-184 | A word reads exactly when it holds one `=`. The key is what precedes it. The value is what follows, less a trailing `%` for Identities. |
| HitLines.AnnotationWord | Bio/Align/hhr.py:180-184 | A word that does not read fails with itself as the bad annotation. An `Identities` value keeps no trailing `%`. |
| HitLines.AnnotationsFail | Bio/Align/hhr.py:179-186 | The annotation line fails exactly when one of its words is not `key=value`. |
| HitLines.CollectAnnotations | Bio/Align/hhr.py:179-186 | The loop keeps every key collected so far. When it fails, the error is that of one of the remaining words. |
| HitLines.AlignedColsSkipped | Bio/Align/hhr.py:181-182 | `Aligned_cols` never reaches the annotations. |
| HitLines.AnnotationsCollected | Bio/Align/hhr.py:178-186 | The annotations hold exactly the keys of the line other than `Aligned_cols`. Each key holds the value of its last word. |
| HitLines.KeptUnlessOverridden | Bio/Align/hhr.py:186 | A collected key that no later word names keeps its value. |
| Blocks.WithTrack | Bio/Align/hhr.py:197-242 | `self.<track> += value` changes that one track and no other attribute. |
| Blocks.NewHit | Bio/Align/hhr.py:164-178 | A `>` line sets the hmm name and description. It empties all nine tracks, unsets both starts, and keeps the header attributes and the counter. |
| Blocks.QueryCells | Bio/Align/hhr.py:225-228 | A query block line sets the query length. It sets the start only if none was set, appends its letters, and changes nothing else. |
| Blocks.TargetCells | Bio/Align/hhr.py:246-254 | A target block line sets the target name and length. It sets the start only if none was set, appends its letters, and changes nothing else. |
| Blocks.QueryStep | Bio/Align/hhr.py:218-228 | A `Q` block line yields nothing. It goes on exactly when it has six words, the query name starts with its name, its span reads and a hit has begun; it then moves one line and does what QueryCells says. Otherwise it reports, in the source's order, the unpacking error, the missing `query_name`, the name mismatch or the span's error. |
| Blocks.TargetStep | Bio/Align/hhr.py:243-254 | A `T` block line yields nothing. It goes on exactly when it has six words, its tag is `T`, its span reads and a hit has begun; it then moves one line and does what TargetCells says. Otherwise it reports, in the source's order, the unpacking error, the bad tag, the span's error or the missing `target_start`. |
| Blocks.TrackStep | Bio/Align/hhr.py:196-242 | A track line yields nothing. It goes on exactly when its value reads and a hit has begun; it then moves one line and appends the value to its track. Otherwise it reports the value's error, or the missing attribute named after the track. |
| Blocks.NextHit | Bio/Align/hhr.py:198-203 | A `No k` line yields the previous hit's record when there is one, or fails with its error. It goes on exactly when `k` is the incremented counter; a wrong `k` is rejected with the expected number. |
| Blocks.HitStartStep | Bio/Align/hhr.py:163-176 | An accepted `>` line needs a next line and continues two lines on. |
| Blocks.NotesStep | Bio/Align/hhr.py:176-186 | The line after a `>` line becomes the hit's annotations when it reads. A `>` line at the end of the stream is an error. |
| Blocks.NextNotesRead | Bio/Align/hhr.py:176-177 | The annotations a `>` line sees are those of the stream's next line. |
| Blocks.Step | Bio/Align/hhr.py:159-256 | A step that goes on moves forward inside the stream and keeps the header attributes. A body line moves exactly one line. A step yields at most one record, and only a `No k` line yields a record or moves the counter. |
| Blocks.Finish | Bio/Align/hhr.py:257-261 | After the last line, the last hit is yielded if it can be built. It ends without an error exactly when it is built and the count matches the table; a count mismatch reports both numbers. |
| Blocks.Run | Bio/Align/hhr.py:159-261 | A run that ends without an error has yielded at least the last record. It yields at most one record per remaining line, plus the last. |
| Blocks.ParseHits | Bio/Align/hhr.py:155-158 | With no hits in the table, `parse` yields nothing and ends without an error. Otherwise it is the run from the first line after the table. |
| Blocks.Initial | Bio/Align/hhr.py:72-99 | After the header the parser holds the query name, the metadata and the table's count, with counter 0 and no hit. |
| Blocks.Read | Bio/Align/hhr.py:40-261 | Reading a file whose header fails yields nothing and reports the header's error. A header that lists no hits yields nothing and no error. Otherwise it is the run over the hit lines from the position after the table. |
| Assembly.PadTrack | Bio/Align/hhr.py:124-126 | A padded track is `start` blanks, the track, then blanks up to `length`. Its length is the larger of `length` and `start` plus the track. |
| Assembly.Annotate | Bio/Align/hhr.py:124-126 | The track, with the gap character taken out, sits at the start offset of a string of the padded length. |
| Assembly.QueryLetters | Bio/Align/hhr.py:128-139 | The query carries exactly the Consensus and ss_pred tracks, each with its gaps removed and padded to the query's start and length. |
| Assembly.TargetLetters | Bio/Align/hhr.py:128-147 | The target carries exactly the Consensus, ss_dssp, ss_pred and Confidence tracks. Each is padded to the target's start and length; Confidence loses its blanks, the others lose their gaps. |
| HhrTypes.TrackKeysDistinct | Bio/Align/hhr.py:127-147 | Different tracks are stored under different `letter_annotations` keys. |
| Assembly.Assemble | Bio/Align/hhr.py:101-153 | A record is built exactly when every attribute it reads is present and consistent. A query length differing from `Match_columns`, or gapped rows of different lengths, are rejected. A built record carries both ids and both lengths, the ungapped residues at their start offsets, and the hmm name and description. It also carries the annotations, the column score, the padded tracks, and the inferred coordinates shifted by both starts. |
| Assembly.PaddedToLength | Bio/Align/hhr.py:124-147 | When a track fits between a non-negative start and the declared length, the padded track is exactly that length. |
| Assembly.AssembledCoordinates | Bio/Align/hhr.py:111-118 | A record's coordinates go from the two start offsets to the start offsets plus the residues kept, and every segment is a match, a deletion or an insertion. |
| Coordinates.InferCoordinates | Bio/Align/hhr.py:111 | The coordinates of two equal-length gapped rows form a path of match, deletion and insertion segments. The path goes from (0, 0) to the two letter counts. |
| Coordinates.InferFromEnd | Bio/Align/hhr.py:111 | The path from any column ends at the letters counted from that column. |
| Coordinates.InferFromPath | Bio/Align/hhr.py:111 | The path from any column is a path, and it starts where the current run leads. |
| Coordinates.Shift | Bio/Align/hhr.py:112-113 | `coordinates[0, :] += target_start` and `coordinates[1, :] += query_start`, point by point. |
| Coordinates.ShiftKeepsPath | Bio/Align/hhr.py:112-113 | Shifting both rows keeps every segment's kind. |
| Coordinates.ShiftedPath | Bio/Align/hhr.py:111-113 | The shifted path starts at the two offsets and ends the two letter counts further on. |
| HitProperties.RunCount | Bio/Align/hhr.py:198-261 | A run that ends without an error never counted past the table. It yields one record per `No k` line after the first, plus the last hit. |
| HitProperties.StepCount | Bio/Align/hhr.py:198-203 | A step keeps the table's count. Only a `No k` line moves the counter, and it yields a record only after the first hit. |
| HitProperties.ReadCount | Bio/Align/hhr.py:91-261 | A file read to its end without an error yields exactly as many alignments as its summary table lists. |
| HitProperties.UnknownKeyEndsRead | Bio/Align/hhr.py:50-71 | A file whose metadata reaches a line with an unrecognised key yields nothing and reports that key. |
| HitProperties.DoneMustBeLast | Bio/Align/hhr.py:187-195 | A `Done!` line followed by another line stops parsing with the "additional data" error and yields nothing more. |
| HitProperties.DoneStops | Bio/Align/hhr.py:187-195 | At the level of classified lines: a `Done!` line with any line after it ends the run with the "additional data" error. |
| HitProperties.UnparsableStops | Bio/Align/hhr.py:255-256 | At the level of classified lines: an unparsable line ends the run with its 30-character prefix. |
| HitProperties.UnparsableRejected | Bio/Align/hhr.py:255-256 | A line matching no prefix stops parsing with its first 30 characters. |
| HitProperties.TrackBeforeHit | Bio/Align/hhr.py:196-242 | A track line before the first `>` line fails: its attribute does not exist yet. |
| HitProperties.RunOverBody | Bio/Align/hhr.py:159-254 | The body lines of a hit yield nothing. The run continues after them, or stops at the first body line that fails. |
| HitProperties.StepTracks | Bio/Align/hhr.py:196-254 | One accepted body line appends its contribution to every track. |
| HitProperties.StepTrack | Bio/Align/hhr.py:196-254 | One accepted body line appends its contribution to a given track. |
| HitProperties.TrackStepTrack | Bio/Align/hhr.py:196-242 | An accepted track line appends its value to its own track and leaves the other tracks as they were. |
| HitProperties.StepKeepsHit | Bio/Align/hhr.py:196-254 | One accepted body line keeps the hit's name, description, annotations and counter, and sets a start only where none was set. |
| HitProperties.AdvanceTracks | Bio/Align/hhr.py:196-254 | After the body lines, each track is the old value followed by exactly those lines' contributions, in order. |
| HitProperties.AdvanceTrack | Bio/Align/hhr.py:196-254 | After the body lines, a given track is the old value followed by exactly those lines' contributions to it, in order. |
| HitProperties.AdvanceKeepsHit | Bio/Align/hhr.py:196-254 | After the body lines, the hit's own attributes are kept. Each start offset is the one already set, or else that of the first block line of its sequence. |
| HitProperties.RunAtHitStart | Bio/Align/hhr.py:163-186 | An accepted `>` line and its annotation line start a new hit two lines on. |
| HitProperties.RunAtEnd | Bio/Align/hhr.py:198-257 | Where a hit ends, the run yields that hit's record first when it can be built, and yields nothing first when it cannot. |
| HitProperties.HitRecord | Bio/Align/hhr.py:163-257 | From a `>` line through the body lines up to where the hit ends, the run yields a record first exactly when the attributes after those lines were accepted and can be assembled, and that record is theirs. Those attributes are the hit's own: each track holds exactly what the hit's lines contribute, and the starts are those of its first block lines. The name, description and annotations come from its `>` line and the line after it. |
| HitProperties.RunYields | Bio/Align/hhr.py:163-257 | From a `>` line, the run yields first the record of the attributes the hit's body lines leave, exactly when they can be assembled. |
| HitProperties.BodyYields | Bio/Align/hhr.py:196-257 | From the first body line of a hit, the run yields first the record of the attributes the body lines leave, exactly when they can be assembled. |
| HitProperties.HitYield | Bio/Align/hhr.py:196-257 | After the body lines, the run yields first the record of the attributes they leave, exactly when they can be assembled; a body line that fails yields nothing. |
| HitProperties.HitRecordFields | Bio/Align/hhr.py:163-254 | The attributes after a hit's body lines hold its own tracks, starts, name, description and annotations. |
| Text.LStrip | Bio/Align/hhr.py:177 | Helper of `Split` (the `split()` called at this line) and of `SplitOnce`: Python's `lstrip()` is the suffix left after the leading whitespace, and it does not start with whitespace. |
| Text.RStrip | Bio/Align/hhr.py:160 | `rstrip()` is the prefix left after the trailing whitespace; it does not end with whitespace. |
| Text.Strip | Bio/Align/hhr.py:51 | `strip()` is empty exactly for all-whitespace text. Otherwise it starts and ends with a non-space. It is the slice that follows the leading whitespace, and only whitespace comes after it. |
| Text.Split | Bio/Align/hhr.py:177 | Every piece of `split()` is a non-empty whitespace-free word. There are none exactly when the text is all whitespace. |
| Text.SplitWord | Bio/Align/hhr.py:177 | A single word splits into itself. |
| Text.SplitSpace | Bio/Align/hhr.py:177 | Whitespace alone splits into nothing. |
| Text.SplitConcat | Bio/Align/hhr.py:177 | The words on the two sides of a run of whitespace are split independently, and their pieces are concatenated. |
| Text.SplitJoin | Bio/Align/hhr.py:177 | `split()` gives back the words that were joined with single blanks. |
| Text.SplitOnceSplits | Bio/Align/hhr.py:54 | `split(None, 1)` gives two parts exactly when there are two words. The first part is the first word and the rest holds the remaining words. |
| Text.SplitOnce | Bio/Align/hhr.py:54 | When `split(None, 1)` gives two parts, the first is a non-empty word and the rest does not start with whitespace. The input is its leading whitespace, then the first word, then a non-empty run of whitespace, then the rest up to the end, so inner and trailing whitespace stay in the rest. |
| Text.RSplitOnce | Bio/Align/hhr.py:208 | `rsplit(None, 1)` fails exactly when the stripped text has no whitespace inside it. Otherwise the head is a prefix of the right-stripped text that does not end with a blank; the last word is a non-empty whitespace-free suffix; and only whitespace, at least one character, lies between them. |
| Text.Take | Bio/Align/hhr.py:256 | `line[:30]` is the prefix of at most 30 characters. |
| Text.SplitOnJoins | Bio/Align/hhr.py:60 | The pieces of `split(sep)`, joined with `sep`, give the text back, and no piece holds `sep`. |
| Text.SplitOnTwo | Bio/Align/hhr.py:60 | Two pieces mean the text is the first piece, `sep`, then the second, and the first piece holds no `sep`. |
| Text.SplitOnCharCount | Bio/Align/hhr.py:180 | Splitting on one character gives one more piece than the character's occurrences. |
| Text.Remove | Bio/Align/hhr.py:114 | `replace(c, "")` keeps no `c`, and it is shorter by exactly the number of `c`s. |
| Text.RemoveConcat | Bio/Align/hhr.py:114-118 | Removing a character distributes over concatenation. |
| Text.RStripChar | Bio/Align/hhr.py:184 | `rstrip("%")` is the prefix left after the trailing `%`s. |
| Text.Spaces | Bio/Align/hhr.py:125 | `" " * n` has `n` blanks, and none when `n <= 0`. |
| Text.ParseNat | Bio/Align/hhr.py:97 | Helper of `ParseInt` (the `int()` called at this line): a string reads exactly when it is non-empty and all digits, and its value is the decimal value of those digits. |
| Text.ParseInt | Bio/Align/hhr.py:58 | `int()` reads exactly a stripped text of digits with an optional sign. Unsigned digits and digits after a leading `+` read as their decimal value, and a leading `-` negates it. |
| Text.ParseFormatRoundTrip | Bio/Align/hhr.py:97 | `int` reads back what `str` writes for every natural number. |
| Iterator.ReadAnnotations | Bio/Align/hhr.py:176-186 | The annotation line's loop computes exactly the annotations the model specifies. |
| Iterator.CollectWords | Bio/Align/hhr.py:179-186 | The loop over the words agrees with `CollectAnnotations`. |
| Iterator.AlignmentIterator.constructor | Bio/Align/hhr.py:40-49 | A new iterator is at line 0 with no attribute set, and its readings are those of its stream. |
| Iterator.AlignmentIterator.MetaAt | Bio/Align/hhr.py:50-54 | The current line, read as a metadata line. |
| Iterator.AlignmentIterator.ColumnsAt | Bio/Align/hhr.py:77-90 | Whether the current line is the column header. |
| Iterator.AlignmentIterator.RowAt | Bio/Align/hhr.py:92-97 | The current line, read as a summary row. |
| Iterator.AlignmentIterator.ReadMetadataLines | Bio/Align/hhr.py:49-72 | The in-place metadata loop fails exactly when `ReadMetadata` does. Otherwise it leaves the query name, the metadata and the position after the blank line. |
| Iterator.AlignmentIterator.CountSummaryRows | Bio/Align/hhr.py:91-99 | The in-place summary loop fails exactly when `CountRows` does. Otherwise it sets `number` to the count and `counter` to 0, and leaves the position after the table. |
| Iterator.AlignmentIterator.ReadHeader | Bio/Align/hhr.py:47-99 | The constructor's body fails exactly when `HeaderOf` does. Otherwise it leaves the attributes `Initial` describes, at the position after the table. |
| Iterator.AlignmentIterator.HitStartLine | Bio/Align/hhr.py:163-176 | The `>` branch does what `HitStartStep` says. |
| Iterator.AlignmentIterator.NotesAt | Bio/Align/hhr.py:176-177 | The next line, read as annotation words. |
| Iterator.ReadNotesAt | Bio/Align/hhr.py:176-177 | Line `i` of the stream, read as annotation words. |
| Iterator.AlignmentIterator.HitNotes | Bio/Align/hhr.py:176-186 | `next(stream)` and the annotation loop do what `NotesStep` says. |
| Iterator.AlignmentIterator.HitNumberLine | Bio/Align/hhr.py:198-203 | The `No k` branch does what `NextHit` says. |
| Iterator.AlignmentIterator.TrackLineStep | Bio/Align/hhr.py:196-242 | A track line's `+=` does what `TrackStep` says. |
| Iterator.AlignmentIterator.QueryBlockStep | Bio/Align/hhr.py:218-228 | The `Q` block branch does what `QueryStep` says. |
| Iterator.AlignmentIterator.TargetBlockStep | Bio/Align/hhr.py:243-254 | The `T` block branch does what `TargetStep` says. |
| Iterator.AlignmentIterator.ReadLineAt | Bio/Align/hhr.py:159-160 | The current line, right-stripped and classified. |
| Iterator.AlignmentIterator.ParseLine | Bio/Align/hhr.py:159-256 | One pass of the loop yields, fails, or moves the attributes and the position exactly as `Step` says. |
| Iterator.AlignmentIterator.Parse | Bio/Align/hhr.py:155-261 | The in-place parse yields exactly the records and the error of `ParseHits` on the iterator's attributes and position. |
| Iterator.Open | Bio/Align/hhr.py:40-99 | Opening fails exactly when the header does, with its error. Otherwise it gives a fresh iterator holding the header's attributes, at the first line after the table. |
| Iterator.ReadAll | Bio/Align/hhr.py:40-261 | Opening a stream and parsing it yields exactly `Read` of the stream. |

## Left out

- Opening the source: the file or stream handling of `interfaces.AlignmentIterator` is not modelled. The stream is a sequence of lines given as a parameter.
- Generator laziness: `parse` is a generator, and the model returns every record it would yield before stopping, together with the error it stops with, in one `Outcome`.
- Iterator.AlignmentIterator: the source keeps each attribute as its own field. The model keeps them as one record field `state`, updated in place. Each line's readings are ghost sequences fixed when the iterator is created.
- Blocks.NotesStep: a `>` line on the last line of the stream makes `next(stream)` raise `StopIteration` inside the generator. Python turns that into a `RuntimeError`; the model reports it as `UnexpectedEnd`.
- Header.HeaderEntry: `Neff` and `Template_Neff` values are kept as the text `float()` would read. A value `float()` rejects is not rejected here. Floating point is not modelled.
- HitLines.AnnotationWord: annotation values are kept as text rather than `float(value)`, so a value `float` rejects is accepted here.
- Text.ParseInt: `int()` is modelled for ASCII digits with an optional sign and surrounding whitespace. Underscores between digits and non-ASCII decimal digits, which Python also accepts, are not.
- Assembly.Assemble: `Seq`, `SeqRecord` and `Alignment` are modelled as plain records. Their constructors' own checks are not modelled, for example that a letter annotation must be as long as its record; PaddedToLength states when the padded tracks have the right length.
- Coordinates.InferCoordinates: `Alignment.infer_coordinates` is a library function that is not part of this model. The model gives a reference definition of the run-length construction it performs. Two empty rows give an empty path here.
- Coordinates.Shift: the in-place update of the numpy coordinate array is a function returning the shifted points.
- Python `assert` statements are modelled as errors that stop parsing. Under `python -O` they would be skipped.
