/**
 * The iterator object of Bio/Align/hhr.py: its attributes are fields,
 * the constructor's header loops and the parser's line loop update them in
 * place, and each loop is proved to do what the functions of modules
 * Header and Blocks describe.
 */
module Iterator {
  import opened Wrappers
  import opened Text
  import opened HhrTypes
  import opened Assembly
  import opened HitLines
  import opened Header
  import opened Blocks

  /** The attributes before the constructor has read anything. */
  function Unset(): ParserState {
    Initial(HeaderInfo(None, map[], 0, 0))
  }

  /** What a step method did matches what the step function says: the records, and the error or the new attributes and position. */
  predicate Realises(r: StepResult, emitted: seq<Alignment>, err: Option<ParseError>, s: ParserState, pos: nat) {
    && emitted == r.emitted
    && (r.next.Err? ==> err == Some(r.next.error))
    && (r.next.Ok? ==> err.None? && s == r.next.value.0 && pos == r.next.value.1)
  }

  /** The annotation line after a '>' line, split into words. */
  method ReadAnnotations(line: string) returns (r: Parsed<map<string, string>>)
    ensures r == Annotations(line)
  {
    r := CollectWords(Split(line));
  }

  /** Line `i` of a stream, read as annotation words. */
  method ReadNotesAt(lines: seq<string>, i: nat) returns (r: Parsed<map<string, string>>)
    requires i < |lines|
    ensures r == Annotations(lines[i])
  {
    r := ReadAnnotations(lines[i]);
  }

  /** The loop over the annotation words: every word is `key=value`; Aligned_cols is skipped, a repeated key keeps its last value. */
  method CollectWords(words: seq<string>) returns (r: Parsed<map<string, string>>)
    ensures r == CollectAnnotations(AnnotationWords(words), 0, map[])
  {
    ghost var ws := AnnotationWords(words);
    var annotations: map<string, string> := map[];
    var i := 0;
    while i < |words|
      invariant i <= |words|
      invariant CollectAnnotations(ws, 0, map[]) == CollectAnnotations(ws, i, annotations)
      decreases |words| - i
    {
      match AnnotationWord(words[i])
      case Err(e) =>
        return Err(e);
      case Ok((key, value)) =>
        if key != AlignedCols {
          annotations := annotations[key := value];
        }
      i := i + 1;
    }
    return Ok(annotations);
  }

  /** One pass of the loop keeps the records yielded so far, followed by what the rest of the loop yields, equal to what the whole loop yields. */
  lemma StepRun(s: ParserState, hs: seq<HitLine>, p: nat, records: seq<Alignment>, emitted: seq<Alignment>,
                err: Option<ParseError>, s2: ParserState, p2: nat, whole: Outcome)
    requires p < |hs| && Realises(Step(s, hs, p), emitted, err, s2, p2)
    requires Prepend(records, Run(s, hs, p)) == whole
    ensures err.Some? ==> Outcome(records + emitted, err) == whole
    ensures err.None? ==> p2 <= |hs| && Prepend(records + emitted, Run(s2, hs, p2)) == whole
  {
  }

  class AlignmentIterator {
    /** The stream, one string per line, and the index of the next line to be read. */
    const lines: seq<string>
    var pos: nat
    /** The iterator's attributes, from `query_name` and `metadata` to the current hit's tracks, as one record. */
    var state: ParserState
    /** Every line of the stream as the constructor reads it, and as the parser reads it. */
    ghost const heads: seq<HeaderLine>
    ghost const hits: seq<HitLine>

    /** The two readings are those of the stream's own lines. */
    ghost predicate Valid() {
      && |heads| == |lines| && |hits| == |lines| && KnownEntries(heads)
      && (forall i {:trigger ReadLine(lines[i])} :: 0 <= i < |lines| ==> heads[i] == ReadLine(lines[i]))
      && (forall i {:trigger ReadHitLine(lines[i])} :: 0 <= i < |lines| ==> hits[i] == ReadHitLine(lines[i]))
      && (forall i {:trigger Annotations(lines[i])} :: 0 <= i < |lines| ==> hits[i].notes == Annotations(lines[i]))
    }

    /** An iterator on a stream, nothing read yet. */
    constructor (lines: seq<string>)
      ensures this.lines == lines && pos == 0 && state == Unset()
      ensures heads == ReadLines(lines) && hits == ReadHitLines(lines) && Valid()
    {
      this.lines := lines;
      pos := 0;
      state := Unset();
      heads := ReadLines(lines);
      hits := ReadHitLines(lines);
      new;
      forall i | 0 <= i < |lines|
        ensures hits[i].notes == Annotations(lines[i])
      {
        assert hits[i] == ReadHitLine(lines[i]);
      }
    }

    /** The line at `pos`, read as a metadata line. */
    method MetaAt() returns (m: MetaLine)
      requires Valid() && pos < |lines|
      ensures m == heads[pos].meta
    {
      m := ClassifyMeta(lines[pos]);
      assert heads[pos] == ReadLine(lines[pos]);
    }

    /** Whether the line at `pos` is the summary table's column header. */
    method ColumnsAt() returns (b: bool)
      requires Valid() && pos < |lines|
      ensures b == heads[pos].columns && lines[pos] == heads[pos].text
    {
      b := Split(lines[pos]) == ColumnHeader;
      assert heads[pos] == ReadLine(lines[pos]);
    }

    /** The line at `pos`, read as a summary row. */
    method RowAt() returns (r: Row)
      requires Valid() && pos < |lines|
      ensures r == heads[pos].row
    {
      r := ClassifyRow(lines[pos]);
      assert heads[pos] == ReadLine(lines[pos]);
    }

    /** The first loop of `__init__`: the metadata lines up to and including the first blank line. */
    method ReadMetadataLines() returns (err: Option<ParseError>)
      requires Valid() && pos == 0 && state == Unset()
      modifies this
      ensures var m := Metadata0(heads);
        && (m.Err? ==> err == Some(m.error))
        && (m.Ok? ==> (err.None? && pos == m.value.1
                        && state == Unset().(queryName := m.value.0.queryName, metadata := m.value.0.metadata)))
    {
      var meta: map<string, MetaValue> := map[];
      var ended := false;
      while pos < |lines| && !ended
        invariant pos <= |lines|
        invariant state == Unset().(queryName := state.queryName)
        invariant !ended ==> Metadata0(heads) == ReadMetadata(heads, pos, HeaderState(state.queryName, meta))
        invariant ended ==> Metadata0(heads) == Ok((HeaderState(state.queryName, meta), pos))
        decreases |lines| - pos, if ended then 0 else 1
      {
        var m := MetaAt();
        match m {
          case EndOfMetadata =>
            ended := true;
          case BadEntry(e) =>
            return Some(e);
          case Entry(f) =>
            match f {
              case QueryName(name) => state := state.(queryName := Some(name));
              case Metadata(key, value) => meta := meta[key := value];
            }
        }
        pos := pos + 1;
      }
      state := state.(metadata := meta);
      return None;
    }

    /** The second loop of `__init__`: the summary rows from `pos` up to and including the next blank line, counted into `number`. */
    method CountSummaryRows() returns (err: Option<ParseError>)
      requires Valid() && pos <= |lines|
      modifies this
      ensures var c := CountRows(heads, old(pos), 0);
        && (c.Err? ==> err == Some(c.error))
        && (c.Ok? ==> err.None? && pos == c.value.1 && state == old(state).(number := c.value.0, counter := 0))
    {
      var n: nat := 0;
      var ended := false;
      while pos < |lines| && !ended
        invariant old(pos) <= pos <= |lines|
        invariant state == old(state)
        invariant !ended ==> CountRows(heads, old(pos), 0) == CountRows(heads, pos, n)
        invariant ended ==> CountRows(heads, old(pos), 0) == Ok((n, pos))
        decreases |lines| - pos, if ended then 0 else 1
      {
        var r := RowAt();
        match r {
          case BlankRow =>
            ended := true;
          case BadRow(e) =>
            return Some(e);
          case NumberedRow(v, line) =>
            if v != n + 1 {
              return Some(BadRowNumber(n + 1, line));
            }
            n := n + 1;
        }
        pos := pos + 1;
      }
      state := state.(number := n, counter := 0);
      return None;
    }

    /**
     * The body of `__init__`: the metadata lines up to the first blank
     * line, the column header, then the summary rows up to the next blank
     * line, which leave the hit count in `number`.
     */
    method ReadHeader() returns (err: Option<ParseError>)
      requires Valid() && pos == 0 && state == Unset()
      modifies this
      ensures var h := HeaderOf(heads);
        && (h.Err? ==> err == Some(h.error))
        && (h.Ok? ==> err.None? && state == Initial(h.value) && pos == h.value.pos)
    {
      err := ReadMetadataLines();
      if err.Some? {
        return;
      }
      if pos == |lines| {
        return Some(TruncatedFile);
      }
      var columns := ColumnsAt();
      if !columns {
        return Some(BadTableHeader(lines[pos]));
      }
      pos := pos + 1;
      err := CountSummaryRows();
    }

    /** The '>' branch of the loop, on the line at `pos`: the hit starts, then the line after it is read as annotation words. */
    method HitStartLine(names: Option<(string, string)>, line: string) returns (err: Option<ParseError>)
      requires Valid() && pos < |lines|
      modifies this
      ensures Realises(HitStartStep(old(state), names, line, NextNotes(hits, old(pos)), old(pos)), [], err, state, pos)
    {
      match names
      case None =>
        return Some(MissingValue(line));
      case Some((name, description)) =>
        state := NewHit(state, name, description, state.annotations);
        err := HitNotes();
    }

    /** The line after `pos`, read as annotation words. */
    method NotesAt() returns (notes: Parsed<map<string, string>>)
      requires Valid() && pos + 1 < |lines|
      ensures notes == hits[pos + 1].notes
    {
      notes := ReadNotesAt(lines, pos + 1);
    }

    /** `next(stream)` after a '>' line, and its words as the hit's annotations. */
    method HitNotes() returns (err: Option<ParseError>)
      requires Valid() && pos < |lines|
      modifies this
      ensures Realises(NotesStep(old(state), NextNotes(hits, old(pos)), old(pos)), [], err, state, pos)
    {
      if pos + 1 >= |lines| {
        return Some(UnexpectedEnd);
      }
      var notes := NotesAt();
      match notes
      case Err(e) =>
        return Some(e);
      case Ok(m) =>
        state := state.(annotations := m);
        pos := pos + 2;
        return None;
    }

    /** The 'No k' branch: the previous hit is built first, then the counter moves on. */
    method HitNumberLine(k: Parsed<int>, line: string) returns (emitted: seq<Alignment>, err: Option<ParseError>)
      modifies this
      ensures Realises(NextHit(old(state), k, line, old(pos)), emitted, err, state, pos)
    {
      emitted := [];
      if state.counter > 0 {
        match Assemble(state)
        case Err(e) =>
          return [], Some(e);
        case Ok(a) =>
          emitted := [a];
      }
      state := state.(counter := state.counter + 1);
      match k
      case Err(e) =>
        return emitted, Some(e);
      case Ok(v) =>
        if v != state.counter {
          return emitted, Some(BadHitNumber(state.counter, line));
        }
        pos := pos + 1;
        return emitted, None;
    }

    /** A track line: `self.<track> += value`. */
    method TrackLineStep(t: TrackId, value: Parsed<string>) returns (err: Option<ParseError>)
      modifies this
      ensures Realises(TrackStep(old(state), t, value, old(pos)), [], err, state, pos)
    {
      match value
      case Err(e) =>
        return Some(e);
      case Ok(v) =>
        if state.hmmName.None? {
          return Some(MissingAttribute(TrackName(t)));
        }
        state := WithTrack(state, t, TrackValue(state, t) + v);
        pos := pos + 1;
        return None;
    }

    /** A query block line: the query length, the start if unset, the letters. */
    method QueryBlockStep(cells: Option<Cells>, line: string) returns (err: Option<ParseError>)
      modifies this
      ensures Realises(QueryStep(old(state), cells, line, old(pos)), [], err, state, pos)
    {
      match cells
      case None =>
        return Some(MissingValue(line));
      case Some(c) =>
        if state.queryName.None? {
          return Some(MissingAttribute("query_name"));
        }
        if !StartsWith(state.queryName.value, c.name) {
          return Some(QueryNameMismatch(c.name));
        }
        match c.span
        case Err(e) =>
          return Some(e);
        case Ok(span) =>
          if state.hmmName.None? {
            return Some(MissingAttribute("query_start"));
          }
          state := QueryCells(state, span, c.letters);
          pos := pos + 1;
          return None;
    }

    /** A target block line: the target name and length, the start if unset, the letters. */
    method TargetBlockStep(cells: Option<Cells>, line: string) returns (err: Option<ParseError>)
      modifies this
      ensures Realises(TargetStep(old(state), cells, line, old(pos)), [], err, state, pos)
    {
      match cells
      case None =>
        return Some(MissingValue(line));
      case Some(c) =>
        if c.tag != "T" {
          return Some(BadTargetTag(c.tag));
        }
        match c.span
        case Err(e) =>
          return Some(e);
        case Ok(span) =>
          if state.hmmName.None? {
            return Some(MissingAttribute("target_start"));
          }
          state := TargetCells(state, c.name, span, c.letters);
          pos := pos + 1;
          return None;
    }

    /** `line.rstrip()` of the line at `pos`, with its dispatch and its reading as annotation words. */
    method ReadLineAt() returns (h: HitLine)
      requires Valid() && pos < |lines|
      ensures h == hits[pos]
    {
      h := ReadHitLine(lines[pos]);
    }

    /** One pass of the loop in `parse`: the line at `pos` is right-stripped and dispatched on its prefix. */
    method ParseLine() returns (emitted: seq<Alignment>, err: Option<ParseError>)
      requires Valid() && pos < |lines|
      modifies this
      ensures Realises(Step(old(state), hits, old(pos)), emitted, err, state, pos)
    {
      var h := ReadLineAt();
      emitted := [];
      match h.kind
      case Blank =>
        pos := pos + 1;
        err := None;
      case HitStart(names) =>
        err := HitStartLine(names, h.text);
      case Done =>
        if pos + 1 < |lines| {
          err := Some(DataAfterDone);
        } else {
          pos := pos + 1;
          err := None;
        }
      case HitNumber(k) =>
        emitted, err := HitNumberLine(k, h.text);
      case TrackLine(t, value) =>
        err := TrackLineStep(t, value);
      case QueryBlock(cells) =>
        err := QueryBlockStep(cells, h.text);
      case TargetBlock(cells) =>
        err := TargetBlockStep(cells, h.text);
      case Unparsable(prefix) =>
        err := Some(UnparsableLine(prefix));
    }

    /**
     * `parse`: nothing when the table listed no hits; otherwise every line
     * to the end of the stream, then the last hit and the count check. The
     * records are those the generator would yield, up to the error it
     * would raise.
     */
    method Parse() returns (records: seq<Alignment>, err: Option<ParseError>)
      requires Valid() && pos <= |lines|
      modifies this
      ensures Outcome(records, err) == ParseHits(old(state), hits, old(pos))
    {
      if state.number == 0 {
        return [], None;
      }
      ghost var s0, p0 := state, pos;
      records := [];
      while pos < |lines|
        invariant pos <= |lines|
        invariant Prepend(records, Run(state, hits, pos)) == Run(s0, hits, p0)
        decreases |lines| - pos
      {
        ghost var s, p := state, pos;
        var emitted, e := ParseLine();
        StepRun(s, hits, p, records, emitted, e, state, pos, Run(s0, hits, p0));
        records := records + emitted;
        if e.Some? {
          return records, e;
        }
      }
      match Assemble(state)
      case Err(e) =>
        return records, Some(e);
      case Ok(a) =>
        records := records + [a];
        if state.number != state.counter {
          return records, Some(CountMismatch(state.number, state.counter));
        }
        return records, None;
    }
  }

  /** Open an iterator on a stream: the constructor, which fails when the header does not read. */
  method Open(lines: seq<string>) returns (r: Result<AlignmentIterator, ParseError>)
    ensures var h := Header.Header(lines);
      && (h.Err? <==> r.Err?)
      && (h.Err? ==> r.error == h.error)
      && (h.Ok? ==> (fresh(r.value) && r.value.lines == lines && r.value.hits == ReadHitLines(lines) && r.value.Valid()
                     && r.value.state == Initial(h.value) && r.value.pos == h.value.pos))
  {
    var it := new AlignmentIterator(lines);
    var err := it.ReadHeader();
    if err.Some? {
      return Err(err.value);
    }
    return Ok(it);
  }

  /** Every record an iterator on the stream yields, and the error that ends it, if any. */
  method ReadAll(lines: seq<string>) returns (o: Outcome)
    ensures o == Read(lines)
  {
    var r := Open(lines);
    match r
    case Err(e) =>
      return Outcome([], Some(e));
    case Ok(it) =>
      var records, err := it.Parse();
      return Outcome(records, err);
  }
}
