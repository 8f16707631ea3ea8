/**
 * What the iterator's constructor reads before any hit: the `key value`
 * metadata lines up to the first blank line, the summary table's column
 * header, and the numbered summary rows that fix the expected hit count
 * (`AlignmentIterator.__init__` in Bio/Align/hhr.py).
 *
 * Each line means something on its own (a metadata entry, a blank line, a
 * numbered row), so the model reads every line into a `MetaLine` or a `Row`
 * first, and the two loops of the constructor are folds over those.
 */
module Header {
  import opened Wrappers
  import opened Text
  import opened HhrTypes

  /** The tokens of the summary table's column header line. */
  const ColumnHeader: seq<string> :=
    ["No", "Hit", "Prob", "E-value", "P-value", "Score", "SS", "Cols", "Query", "HMM", "Template", "HMM"]

  /** The keys a metadata line may start with. */
  const HeaderKeys: set<string> :=
    {"Query", "Match_columns", "No_of_seqs", "Neff", "Template_Neff", "Searched_HMMs", "Date", "Command"}

  /** The keys the metadata mapping may hold. */
  const StoredKeys: set<string> :=
    {"Match_columns", "No_of_seqs", "Neff", "Template_Neff", "Searched_HMMs", "Rundate", "Command line"}

  /** A metadata line either names the query or stores one metadata entry. */
  datatype HeaderField = QueryName(name: string) | Metadata(key: string, value: MetaValue)

  function IntEntry(key: string, value: string): Parsed<HeaderField> {
    match ParseInt(value)
    case None => Err(BadInteger(value))
    case Some(n) => Ok(Metadata(key, IntValue(n)))
  }

  /** The dispatch on the key of one metadata line. */
  function HeaderEntry(key: string, value: string): (r: Parsed<HeaderField>)
    ensures r == Err(UnknownKey(key)) <==> key !in HeaderKeys
    ensures r.Ok? && r.value.Metadata? ==> r.value.key in StoredKeys
    ensures key == "Query" ==> r == Ok(QueryName(value))
    ensures key == "Date" ==> r == Ok(Metadata("Rundate", TextValue(value)))
    ensures key == "Command" ==> r == Ok(Metadata("Command line", TextValue(value)))
    ensures key in {"Match_columns", "Searched_HMMs"} ==>
      (r.Ok? <==> ParseInt(value).Some?) && (r.Ok? ==> r.value == Metadata(key, IntValue(ParseInt(value).value)))
    ensures key == "No_of_seqs" ==> var p := SplitOn(value, " out of ");
      && (r.Ok? <==> |p| == 2 && ParseInt(p[0]).Some? && ParseInt(p[1]).Some?)
      && (r.Ok? ==> r.value == Metadata(key, IntPair(ParseInt(p[0]).value, ParseInt(p[1]).value)))
      && (|p| != 2 ==> r == Err(BadSequenceCount(value)))
    ensures key in {"Neff", "Template_Neff"} ==> r == Ok(Metadata(key, FloatToken(value)))
  {
    if key == "Query" then Ok(QueryName(value))
    else if key == "Match_columns" then IntEntry(key, value)
    else if key == "No_of_seqs" then
      var parts := SplitOn(value, " out of ");
      if |parts| != 2 then Err(BadSequenceCount(value))
      else
        match ParseInt(parts[0])
        case None => Err(BadInteger(parts[0]))
        case Some(shown) =>
          match ParseInt(parts[1])
          case None => Err(BadInteger(parts[1]))
          case Some(searched) => Ok(Metadata(key, IntPair(shown, searched)))
    else if key == "Neff" || key == "Template_Neff" then Ok(Metadata(key, FloatToken(value)))
    else if key == "Searched_HMMs" then IntEntry(key, value)
    else if key == "Date" then Ok(Metadata("Rundate", TextValue(value)))
    else if key == "Command" then Ok(Metadata("Command line", TextValue(value)))
    else Err(UnknownKey(key))
  }

  /** What one line of the metadata block is. */
  datatype MetaLine = EndOfMetadata | Entry(field: HeaderField) | BadEntry(error: ParseError)

  /** A metadata line, stripped, then split at its first run of blanks into key and value. */
  function ClassifyMeta(line: string): (m: MetaLine)
    ensures m.EndOfMetadata? <==> Strip(line) == ""
    ensures m.Entry? && m.field.Metadata? ==> m.field.key in StoredKeys
    ensures Strip(line) != "" && SplitOnce(Strip(line)).None? ==> m == BadEntry(MissingValue(Strip(line)))
    ensures Strip(line) != "" && SplitOnce(Strip(line)).Some? ==>
      var (key, value) := SplitOnce(Strip(line)).value;
      match HeaderEntry(key, value)
      case Ok(f) => m == Entry(f)
      case Err(e) => m == BadEntry(e)
  {
    var t := Strip(line);
    if t == "" then EndOfMetadata
    else
      match SplitOnce(t)
      case None => BadEntry(MissingValue(t))
      case Some((key, value)) =>
        match HeaderEntry(key, value)
        case Ok(f) => Entry(f)
        case Err(e) => BadEntry(e)
  }

  /** What one line of the summary table is: the blank line that ends it, or a row and the number it starts with. */
  datatype Row = BlankRow | NumberedRow(n: int, line: string) | BadRow(error: ParseError)

  /** A summary row's number is its first word, read as an integer. */
  function ClassifyRow(line: string): (r: Row)
    ensures r.BlankRow? <==> Strip(line) == ""
    ensures !r.BlankRow? && SplitOnce(line).None? ==> r == BadRow(MissingValue(line))
    ensures r.NumberedRow? <==>
      Strip(line) != "" && SplitOnce(line).Some? && ParseInt(SplitOnce(line).value.0).Some?
    ensures r.NumberedRow? ==> r.line == line && ParseInt(SplitOnce(line).value.0) == Some(r.n)
  {
    if Strip(line) == "" then BlankRow
    else
      match SplitOnce(line)
      case None => BadRow(MissingValue(line))
      case Some((word, _)) =>
        match ParseInt(word)
        case None => BadRow(BadInteger(word))
        case Some(v) => NumberedRow(v, line)
  }

  /** The query name (an attribute of the iterator) and the metadata read so far. */
  datatype HeaderState = HeaderState(queryName: Option<string>, metadata: map<string, MetaValue>)

  const NoHeader: HeaderState := HeaderState(None, map[])

  /** Setting the attribute or the metadata entry a line names; nothing else changes. */
  function Store(h: HeaderState, f: HeaderField): (r: HeaderState)
    ensures f.QueryName? ==> r == HeaderState(Some(f.name), h.metadata)
    ensures f.Metadata? ==>
      && r.queryName == h.queryName
      && r.metadata.Keys == h.metadata.Keys + {f.key}
      && r.metadata[f.key] == f.value
      && forall k :: k in h.metadata && k != f.key ==> r.metadata[k] == h.metadata[k]
  {
    match f
    case QueryName(name) => h.(queryName := Some(name))
    case Metadata(k, v) => h.(metadata := h.metadata[k := v])
  }

  /** What one line means to each part of the constructor, read once: the line itself with its three readings. */
  datatype HeaderLine = HeaderLine(text: string, meta: MetaLine, columns: bool, row: Row)

  /** Every metadata entry among the read lines has a key the mapping may hold. */
  predicate KnownEntries(ms: seq<HeaderLine>) {
    forall i :: 0 <= i < |ms| && ms[i].meta.Entry? && ms[i].meta.field.Metadata? ==> ms[i].meta.field.key in StoredKeys
  }

  /**
   * The metadata loop over classified lines from `pos`: it ends after the
   * first blank line, or at the end of the stream, and yields the position
   * after it.
   */
  function ReadMetadata(ms: seq<HeaderLine>, pos: nat, h: HeaderState): (r: Parsed<(HeaderState, nat)>)
    requires pos <= |ms| && KnownEntries(ms)
    ensures r.Ok? ==> pos <= r.value.1 <= |ms|
    ensures r.Ok? ==> r.value.0.metadata.Keys <= h.metadata.Keys + StoredKeys
    decreases |ms| - pos
  {
    if pos == |ms| then Ok((h, pos))
    else
      match ms[pos].meta
      case EndOfMetadata => Ok((h, pos + 1))
      case BadEntry(e) => Err(e)
      case Entry(f) => ReadMetadata(ms, pos + 1, Store(h, f))
  }

  /**
   * The summary-row loop over classified lines from `pos`, with `number`
   * rows counted so far: it ends after the first blank line, or at the end
   * of the stream, and yields the count and the position after the table.
   */
  function CountRows(rows: seq<HeaderLine>, pos: nat, number: nat): (r: Parsed<(nat, nat)>)
    requires pos <= |rows|
    ensures r.Ok? ==> number <= r.value.0 && pos <= r.value.1 <= |rows|
    decreases |rows| - pos
  {
    if pos == |rows| then Ok((number, pos))
    else
      match rows[pos].row
      case BlankRow => Ok((number, pos + 1))
      case BadRow(e) => Err(e)
      case NumberedRow(v, line) =>
        if v != number + 1 then Err(BadRowNumber(number + 1, line)) else CountRows(rows, pos + 1, number + 1)
  }

  /** One line of the stream, read in every way the constructor may read it. */
  function ReadLine(line: string): (h: HeaderLine)
    ensures h.text == line && h.meta == ClassifyMeta(line) && h.row == ClassifyRow(line)
    ensures h.columns <==> Split(line) == ColumnHeader
  {
    HeaderLine(line, ClassifyMeta(line), Split(line) == ColumnHeader, ClassifyRow(line))
  }

  /** Every line of the stream, read. */
  function ReadLines(lines: seq<string>): (hs: seq<HeaderLine>)
    ensures |hs| == |lines| && KnownEntries(hs)
    ensures forall i :: 0 <= i < |lines| ==> hs[i] == ReadLine(lines[i])
  {
    seq(|lines|, i requires 0 <= i < |lines| => ReadLine(lines[i]))
  }

  /** The metadata loop run from the start of the stream. */
  function Metadata0(hs: seq<HeaderLine>): (r: Parsed<(HeaderState, nat)>)
    requires KnownEntries(hs)
    ensures r.Ok? ==> r.value.1 <= |hs| && r.value.0.metadata.Keys <= StoredKeys
  {
    ReadMetadata(hs, 0, NoHeader)
  }

  /** What the constructor leaves behind: the query name, the metadata, the hit count and the stream position. */
  datatype HeaderInfo = HeaderInfo(queryName: Option<string>, metadata: map<string, MetaValue>, number: nat, pos: nat)

  /**
   * The constructor on the read lines: metadata, then the line after the
   * metadata block must be the column header, then the summary rows.
   */
  function HeaderOf(hs: seq<HeaderLine>): (r: Parsed<HeaderInfo>)
    requires KnownEntries(hs)
    ensures r.Ok? ==> r.value.pos <= |hs|
    ensures r.Ok? ==> r.value.metadata.Keys <= StoredKeys
    ensures Metadata0(hs).Err? ==> r == Err(Metadata0(hs).error)
    ensures Metadata0(hs).Ok? && Metadata0(hs).value.1 == |hs| ==> r == Err(TruncatedFile)
    ensures Metadata0(hs).Ok? && Metadata0(hs).value.1 < |hs|
      ==> var p := Metadata0(hs).value.1;
          && (!hs[p].columns ==> r == Err(BadTableHeader(hs[p].text)))
          && (hs[p].columns ==>
                (r.Ok? <==> CountRows(hs, p + 1, 0).Ok?)
                && (r.Ok? ==> (r.value.number, r.value.pos) == CountRows(hs, p + 1, 0).value))
  {
    match Metadata0(hs)
    case Err(e) => Err(e)
    case Ok((h, p)) =>
      if p == |hs| then Err(TruncatedFile)
      else if !hs[p].columns then Err(BadTableHeader(hs[p].text))
      else
        match CountRows(hs, p + 1, 0)
        case Err(e) => Err(e)
        case Ok((n, q)) => Ok(HeaderInfo(h.queryName, h.metadata, n, q))
  }

  /** `AlignmentIterator.__init__` on a stream of lines. */
  function Header(lines: seq<string>): (r: Parsed<HeaderInfo>)
    ensures r.Ok? ==> r.value.pos <= |lines|
    ensures r.Ok? ==> r.value.metadata.Keys <= StoredKeys
    ensures lines == [] ==> r == Err(TruncatedFile)
  {
    HeaderOf(ReadLines(lines))
  }

  /** The first index at or after `pos` holding the end of the metadata block, or `|ms|`. */
  function MetadataEnd(ms: seq<HeaderLine>, pos: nat): (k: nat)
    requires pos <= |ms|
    ensures pos <= k <= |ms|
    ensures forall j :: pos <= j < k ==> !ms[j].meta.EndOfMetadata?
    ensures k < |ms| ==> ms[k].meta.EndOfMetadata?
    decreases |ms| - pos
  {
    if pos == |ms| || ms[pos].meta.EndOfMetadata? then pos else MetadataEnd(ms, pos + 1)
  }

  /**
   * The metadata loop stops at the first blank line: what it reads depends
   * only on the lines up to that one, and it resumes right after it.
   */
  lemma {:induction false} MetadataStopsAtBlank(ms: seq<HeaderLine>, other: seq<HeaderLine>, pos: nat, h: HeaderState)
    requires pos <= |ms| && MetadataEnd(ms, pos) < |ms| && KnownEntries(ms) && KnownEntries(other)
    requires MetadataEnd(ms, pos) < |other| && ms[..MetadataEnd(ms, pos) + 1] == other[..MetadataEnd(ms, pos) + 1]
    ensures ReadMetadata(ms, pos, h) == ReadMetadata(other, pos, h)
    ensures ReadMetadata(ms, pos, h).Ok? ==> ReadMetadata(ms, pos, h).value.1 == MetadataEnd(ms, pos) + 1
    decreases |ms| - pos
  {
    var k := MetadataEnd(ms, pos);
    assert ms[pos] == ms[..k + 1][pos] == other[..k + 1][pos] == other[pos];
    if pos < k && ms[pos].meta.Entry? {
      assert MetadataEnd(ms, pos + 1) == k;
      MetadataStopsAtBlank(ms, other, pos + 1, Store(h, ms[pos].meta.field));
    }
  }

  /** A non-blank metadata line whose key is not one of the recognised keys ends the parse with that key. */
  lemma UnknownKeyRejected(lines: seq<string>, pos: nat, h: HeaderState)
    requires pos < |lines| && SplitOnce(Strip(lines[pos])).Some?
    requires SplitOnce(Strip(lines[pos])).value.0 !in HeaderKeys
    ensures ReadMetadata(ReadLines(lines), pos, h) == Err(UnknownKey(SplitOnce(Strip(lines[pos])).value.0))
  {
    assert ReadLines(lines)[pos] == ReadLine(lines[pos]);
  }

  /** What a metadata line may set: the query name attribute, or the mapping's entry under a key. */
  datatype Slot = QuerySlot | KeySlot(key: string)

  /** Line `l` is a metadata entry that sets `slot`. */
  predicate Writes(l: HeaderLine, slot: Slot) {
    && l.meta.Entry?
    && match slot
       case QuerySlot => l.meta.field.QueryName?
       case KeySlot(k) => l.meta.field.Metadata? && l.meta.field.key == k
  }

  /** The last line in `[lo, hi)` that sets `slot`, if any. */
  function LastWrite(ms: seq<HeaderLine>, lo: nat, hi: nat, slot: Slot): (r: Option<nat>)
    requires lo <= hi <= |ms|
    ensures r.Some? ==> lo <= r.value < hi && Writes(ms[r.value], slot)
    ensures r.Some? ==> forall j :: r.value < j < hi ==> !Writes(ms[j], slot)
    ensures r.None? ==> forall j :: lo <= j < hi ==> !Writes(ms[j], slot)
    decreases hi - lo
  {
    if lo == hi then None
    else
      match LastWrite(ms, lo + 1, hi, slot)
      case Some(j) => Some(j)
      case None => if Writes(ms[lo], slot) then Some(lo) else None
  }

  /** The value the metadata mapping holds under `k` after lines `[lo, hi)` were stored on top of `h`. */
  function ValueAfter(ms: seq<HeaderLine>, lo: nat, hi: nat, h: HeaderState, k: string): Option<MetaValue>
    requires lo <= hi <= |ms|
  {
    match LastWrite(ms, lo, hi, KeySlot(k))
    case Some(j) => Some(ms[j].meta.field.value)
    case None => if k in h.metadata then Some(h.metadata[k]) else None
  }

  /** The query name after lines `[lo, hi)` were stored on top of `h`. */
  function NameAfter(ms: seq<HeaderLine>, lo: nat, hi: nat, h: HeaderState): Option<string>
    requires lo <= hi <= |ms|
  {
    match LastWrite(ms, lo, hi, QuerySlot)
    case Some(j) => Some(ms[j].meta.field.name)
    case None => h.queryName
  }

  /** The value a metadata mapping holds under `k`, if any. */
  function Lookup(m: map<string, MetaValue>, k: string): Option<MetaValue> {
    if k in m then Some(m[k]) else None
  }

  /**
   * What the metadata loop collects: under each key, the value of the last
   * entry line before the blank line that names it (or what was there
   * before); as the query name, the last `Query` line's value.
   */
  lemma {:induction false} MetadataCollected(ms: seq<HeaderLine>, pos: nat, h: HeaderState, k: string)
    requires pos <= |ms| && KnownEntries(ms) && ReadMetadata(ms, pos, h).Ok?
    ensures var e := MetadataEnd(ms, pos); var out := ReadMetadata(ms, pos, h).value.0;
      && Lookup(out.metadata, k) == ValueAfter(ms, pos, e, h, k)
      && out.queryName == NameAfter(ms, pos, e, h)
    decreases |ms| - pos
  {
    if pos < |ms| && ms[pos].meta.Entry? {
      var f := ms[pos].meta.field;
      var e := MetadataEnd(ms, pos);
      assert MetadataEnd(ms, pos + 1) == e;
      MetadataCollected(ms, pos + 1, Store(h, f), k);
    }
  }

  /** A line that is not a metadata entry, reached through entry lines only, ends the metadata loop with its error. */
  lemma {:induction false} MetadataReachesBadLine(ms: seq<HeaderLine>, pos: nat, j: nat, h: HeaderState)
    requires pos <= j < |ms| && KnownEntries(ms)
    requires forall i :: pos <= i < j ==> ms[i].meta.Entry?
    requires ms[j].meta.BadEntry?
    ensures ReadMetadata(ms, pos, h) == Err(ms[j].meta.error)
    decreases j - pos
  {
    if pos < j {
      MetadataReachesBadLine(ms, pos + 1, j, Store(h, ms[pos].meta.field));
    }
  }

  /** On a whole file: the constructor's metadata and query name are what the metadata loop collected from line 0. */
  lemma HeaderMetadata(lines: seq<string>, k: string)
    requires Header(lines).Ok?
    ensures var hs := ReadLines(lines); var e := MetadataEnd(hs, 0);
      && Lookup(Header(lines).value.metadata, k) == ValueAfter(hs, 0, e, NoHeader, k)
      && Header(lines).value.queryName == NameAfter(hs, 0, e, NoHeader)
  {
    var hs := ReadLines(lines);
    MetadataCollected(hs, 0, NoHeader, k);
  }

  /**
   * When every line before `j` is a metadata entry and line `j` starts with
   * a key the constructor does not know, the constructor fails with that key.
   */
  lemma UnknownKeyEndsHeader(lines: seq<string>, j: nat)
    requires j < |lines| && forall i :: 0 <= i < j ==> ClassifyMeta(lines[i]).Entry?
    requires SplitOnce(Strip(lines[j])).Some? && SplitOnce(Strip(lines[j])).value.0 !in HeaderKeys
    ensures Header(lines) == Err(UnknownKey(SplitOnce(Strip(lines[j])).value.0))
  {
    var hs := ReadLines(lines);
    forall i | 0 <= i < j
      ensures hs[i].meta.Entry?
    {
      assert hs[i] == ReadLine(lines[i]);
    }
    assert hs[j] == ReadLine(lines[j]);
    MetadataReachesBadLine(hs, 0, j, NoHeader);
  }

  /** The first index at or after `pos` holding a blank summary line, or `|rows|`. */
  function FirstBlank(rows: seq<HeaderLine>, pos: nat): (k: nat)
    requires pos <= |rows|
    ensures pos <= k <= |rows|
    ensures forall j :: pos <= j < k ==> !rows[j].row.BlankRow?
    ensures k < |rows| ==> rows[k].row.BlankRow?
    decreases |rows| - pos
  {
    if pos == |rows| || rows[pos].row.BlankRow? then pos else FirstBlank(rows, pos + 1)
  }

  /** A summary row that starts with the number `n`. */
  predicate Numbered(r: Row, n: int) {
    r.NumberedRow? && r.n == n
  }

  /** The rows from `pos` up to the first blank line are numbered `number + 1`, `number + 2`, ... in turn. */
  predicate NumberedFrom(rows: seq<HeaderLine>, pos: nat, number: nat)
    requires pos <= |rows|
  {
    forall j :: pos <= j < FirstBlank(rows, pos) ==> Numbered(rows[j].row, number + (j - pos) + 1)
  }

  /** A successful summary loop has seen rows numbered by their position up to the first blank line, and counted them. */
  lemma {:induction false} CountRowsNumbered(rows: seq<HeaderLine>, pos: nat, number: nat)
    requires pos <= |rows| && CountRows(rows, pos, number).Ok?
    ensures NumberedFrom(rows, pos, number)
    ensures CountRows(rows, pos, number).value.0 == number + (FirstBlank(rows, pos) - pos)
    decreases |rows| - pos
  {
    if pos < |rows| && !rows[pos].row.BlankRow? {
      CountRowsNumbered(rows, pos + 1, number + 1);
    }
  }

  /** The summary loop stops right after the first blank line, or at the end of the stream. */
  lemma {:induction false} CountRowsStops(rows: seq<HeaderLine>, pos: nat, number: nat)
    requires pos <= |rows| && CountRows(rows, pos, number).Ok?
    ensures var k := FirstBlank(rows, pos);
      CountRows(rows, pos, number).value.1 == if k < |rows| then k + 1 else k
    decreases |rows| - pos
  {
    if pos < |rows| && !rows[pos].row.BlankRow? {
      CountRowsStops(rows, pos + 1, number + 1);
    }
  }

  /** Rows numbered by their position up to the first blank line are all the summary loop needs. */
  lemma {:induction false} NumberedRowsAccepted(rows: seq<HeaderLine>, pos: nat, number: nat)
    requires pos <= |rows|
    requires NumberedFrom(rows, pos, number)
    ensures CountRows(rows, pos, number).Ok?
    decreases |rows| - pos
  {
    if pos < |rows| && !rows[pos].row.BlankRow? {
      assert Numbered(rows[pos].row, number + 1);
      NumberedRowsAccepted(rows, pos + 1, number + 1);
    }
  }

  /** A successful constructor found the column header right after the metadata block, and its count is the summary loop's. */
  lemma HeaderTable(hs: seq<HeaderLine>)
    requires KnownEntries(hs) && HeaderOf(hs).Ok?
    ensures Metadata0(hs).Ok?
    ensures var p := Metadata0(hs).value.1;
      && p < |hs| && hs[p].columns && CountRows(hs, p + 1, 0).Ok?
      && HeaderOf(hs).value.number == CountRows(hs, p + 1, 0).value.0
  {
  }

  /**
   * After a successful constructor the hit count is the number of summary
   * rows before the first blank line, each numbered by its 1-based position,
   * and the line before them is the column header.
   */
  lemma HeaderCount(hs: seq<HeaderLine>)
    requires KnownEntries(hs) && HeaderOf(hs).Ok?
    ensures Metadata0(hs).Ok?
    ensures var p := Metadata0(hs).value.1;
      && p < |hs| && hs[p].columns
      && HeaderOf(hs).value.number == FirstBlank(hs, p + 1) - (p + 1)
      && NumberedFrom(hs, p + 1, 0)
  {
    HeaderTable(hs);
    CountRowsNumbered(hs, Metadata0(hs).value.1 + 1, 0);
  }

  /** A summary row numbered out of turn anywhere before the first blank line makes the constructor fail. */
  lemma MisnumberedRowRejected(hs: seq<HeaderLine>, j: nat)
    requires KnownEntries(hs) && Metadata0(hs).Ok?
    requires var p := Metadata0(hs).value.1;
      p < |hs| && p + 1 <= j < FirstBlank(hs, p + 1) && !Numbered(hs[j].row, j - p)
    ensures HeaderOf(hs).Err?
  {
    var p := Metadata0(hs).value.1;
    if CountRows(hs, p + 1, 0).Ok? {
      CountRowsNumbered(hs, p + 1, 0);
    }
  }

  /** With a correct column header line, rows numbered by their position make the constructor succeed. */
  lemma NumberedTableAccepted(hs: seq<HeaderLine>)
    requires KnownEntries(hs) && Metadata0(hs).Ok?
    requires var p := Metadata0(hs).value.1;
      && p < |hs| && hs[p].columns
      && NumberedFrom(hs, p + 1, 0)
    ensures HeaderOf(hs).Ok?
  {
    var p := Metadata0(hs).value.1;
    NumberedRowsAccepted(hs, p + 1, 0);
  }
}
