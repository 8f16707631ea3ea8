/**
 * The hit section of an hhr file as `parse` in Bio/Align/hhr.py reads it:
 * one step of the line dispatch, the run of steps to the end of the
 * stream, and what that run yields. A step is a function of the parser's
 * attributes and the line; the records a run yields are those built by
 * `_create_alignment` at each 'No k' line after the first and at the end.
 */
module Blocks {
  import opened Wrappers
  import opened Text
  import opened HhrTypes
  import opened Assembly
  import opened HitLines
  import opened Header

  /** The current text of a track attribute. */
  function TrackValue(s: ParserState, t: TrackId): string {
    match t
    case QuerySsPred => s.querySsPred
    case QueryConsensus => s.queryConsensus
    case QuerySequence => s.querySequence
    case TargetSsPred => s.targetSsPred
    case TargetConsensus => s.targetConsensus
    case TargetSsDssp => s.targetSsDssp
    case TargetSequence => s.targetSequence
    case ColumnScore => s.columnScore
    case Confidence => s.confidence
  }

  /** Every attribute other than the nine tracks is the same in `s` and `r`. */
  predicate SameOutsideTracks(s: ParserState, r: ParserState) {
    && r.queryName == s.queryName && r.metadata == s.metadata
    && r.number == s.number && r.counter == s.counter
    && r.queryLength == s.queryLength && r.targetName == s.targetName && r.targetLength == s.targetLength
    && r.hmmName == s.hmmName && r.hmmDescription == s.hmmDescription
    && r.queryStart == s.queryStart && r.targetStart == s.targetStart
    && r.annotations == s.annotations
  }

  /** Track `t` set to `v`; nothing else changes. */
  function WithTrack(s: ParserState, t: TrackId, v: string): (r: ParserState)
    ensures TrackValue(r, t) == v
    ensures forall u :: u != t ==> TrackValue(r, u) == TrackValue(s, u)
    ensures SameOutsideTracks(s, r)
  {
    match t
    case QuerySsPred => s.(querySsPred := v)
    case QueryConsensus => s.(queryConsensus := v)
    case QuerySequence => s.(querySequence := v)
    case TargetSsPred => s.(targetSsPred := v)
    case TargetConsensus => s.(targetConsensus := v)
    case TargetSsDssp => s.(targetSsDssp := v)
    case TargetSequence => s.(targetSequence := v)
    case ColumnScore => s.(columnScore := v)
    case Confidence => s.(confidence := v)
  }

  /** The attributes a '>' line (and the annotation line after it) sets: a new hit with empty tracks and no starts. */
  function NewHit(s: ParserState, name: string, description: string, notes: map<string, string>): (r: ParserState)
    ensures r.hmmName == Some(name) && r.hmmDescription == description && r.annotations == notes
    ensures forall t :: TrackValue(r, t) == ""
    ensures r.queryStart.None? && r.targetStart.None?
    ensures r.queryName == s.queryName && r.metadata == s.metadata && r.number == s.number && r.counter == s.counter
    ensures r.queryLength == s.queryLength && r.targetName == s.targetName && r.targetLength == s.targetLength
  {
    s.(hmmName := Some(name), hmmDescription := description,
       querySsPred := "", queryConsensus := "", querySequence := "", queryStart := None,
       targetSsPred := "", targetConsensus := "", targetSsDssp := "", targetSequence := "", targetStart := None,
       columnScore := "", confidence := "", annotations := notes)
  }

  /** A query block line: the query's length, its start if none is set yet, and the letters appended. */
  function QueryCells(s: ParserState, span: Span, letters: string): (r: ParserState)
    ensures r.queryLength == Some(span.total)
    ensures r.queryStart == if s.queryStart.None? then Some(span.start) else s.queryStart
    ensures TrackValue(r, QuerySequence) == s.querySequence + letters
    ensures forall u :: u != QuerySequence ==> TrackValue(r, u) == TrackValue(s, u)
    ensures SameOutsideTracks(s.(queryLength := r.queryLength, queryStart := r.queryStart), r)
  {
    s.(queryLength := Some(span.total),
       queryStart := if s.queryStart.None? then Some(span.start) else s.queryStart,
       querySequence := s.querySequence + letters)
  }

  /** A target block line: the target's name and length, its start if none is set yet, and the letters appended. */
  function TargetCells(s: ParserState, name: string, span: Span, letters: string): (r: ParserState)
    ensures r.targetName == Some(name) && r.targetLength == Some(span.total)
    ensures r.targetStart == if s.targetStart.None? then Some(span.start) else s.targetStart
    ensures TrackValue(r, TargetSequence) == s.targetSequence + letters
    ensures forall u :: u != TargetSequence ==> TrackValue(r, u) == TrackValue(s, u)
    ensures SameOutsideTracks(s.(targetName := r.targetName, targetLength := r.targetLength, targetStart := r.targetStart), r)
  {
    s.(targetName := Some(name), targetLength := Some(span.total),
       targetStart := if s.targetStart.None? then Some(span.start) else s.targetStart,
       targetSequence := s.targetSequence + letters)
  }

  /** What one step yields, and either the error it raises or the new attributes and the next line. */
  datatype StepResult = StepResult(emitted: seq<Alignment>, next: Parsed<(ParserState, nat)>)

  function Fail(e: ParseError): StepResult {
    StepResult([], Err(e))
  }

  function Continue(s: ParserState, pos: nat): StepResult {
    StepResult([], Ok((s, pos)))
  }

  /** The header attributes parsing never changes. */
  predicate Kept(s: ParserState, r: ParserState) {
    r.queryName == s.queryName && r.metadata == s.metadata && r.number == s.number
  }

  /** The lines that belong to the body of a hit: they consume one line each and never yield. */
  predicate InHit(k: LineKind) {
    k.Blank? || k.TrackLine? || k.QueryBlock? || k.TargetBlock?
  }

  /** A 'No k' line: the previous hit (when there is one) is built and yielded, then the counter moves on and `k` must match it. */
  function NextHit(s: ParserState, k: Parsed<int>, line: string, pos: nat): (r: StepResult)
    ensures r.emitted == if s.counter > 0 && Assemble(s).Ok? then [Assemble(s).value] else []
    ensures s.counter > 0 && Assemble(s).Err? ==> r.next == Err(Assemble(s).error)
    ensures r.next.Ok? <==> (s.counter == 0 || Assemble(s).Ok?) && k == Ok(s.counter + 1)
    ensures r.next.Ok? ==> r.next.value == (s.(counter := s.counter + 1), pos + 1)
    ensures (s.counter == 0 || Assemble(s).Ok?) && k.Ok? && k.value != s.counter + 1 ==>
      r.next == Err(BadHitNumber(s.counter + 1, line))
  {
    var s1 := s.(counter := s.counter + 1);
    var next: Parsed<(ParserState, nat)> :=
      match k
      case Err(e) => Err(e)
      case Ok(v) => if v != s1.counter then Err(BadHitNumber(s1.counter, line)) else Ok((s1, pos + 1));
    if s.counter > 0 then
      match Assemble(s)
      case Err(e) => Fail(e)
      case Ok(a) => StepResult([a], next)
    else StepResult([], next)
  }

  /** A 'Q <name> start letters end (total)' line. */
  function QueryStep(s: ParserState, cells: Option<Cells>, line: string, pos: nat): (r: StepResult)
    ensures r.emitted == []
    ensures r.next.Ok? <==>
      && cells.Some? && s.queryName.Some? && StartsWith(s.queryName.value, cells.value.name)
      && cells.value.span.Ok? && s.hmmName.Some?
    ensures r.next.Ok? ==> r.next.value == (QueryCells(s, cells.value.span.value, cells.value.letters), pos + 1)
    ensures cells.None? ==> r.next == Err(MissingValue(line))
    ensures cells.Some? && s.queryName.None? ==> r.next == Err(MissingAttribute("query_name"))
    ensures cells.Some? && s.queryName.Some? && !StartsWith(s.queryName.value, cells.value.name) ==>
      r.next == Err(QueryNameMismatch(cells.value.name))
    ensures cells.Some? && s.queryName.Some? && StartsWith(s.queryName.value, cells.value.name) && cells.value.span.Err? ==>
      r.next == Err(cells.value.span.error)
  {
    match cells
    case None => Fail(MissingValue(line))
    case Some(c) =>
      if s.queryName.None? then Fail(MissingAttribute("query_name"))
      else if !StartsWith(s.queryName.value, c.name) then Fail(QueryNameMismatch(c.name))
      else
        match c.span
        case Err(e) => Fail(e)
        case Ok(span) =>
          if s.hmmName.None? then Fail(MissingAttribute("query_start"))
          else Continue(QueryCells(s, span, c.letters), pos + 1)
  }

  /** A 'T <name> start letters end (total)' line. */
  function TargetStep(s: ParserState, cells: Option<Cells>, line: string, pos: nat): (r: StepResult)
    ensures r.emitted == []
    ensures r.next.Ok? <==> cells.Some? && cells.value.tag == "T" && cells.value.span.Ok? && s.hmmName.Some?
    ensures r.next.Ok? ==>
      r.next.value == (TargetCells(s, cells.value.name, cells.value.span.value, cells.value.letters), pos + 1)
    ensures cells.None? ==> r.next == Err(MissingValue(line))
    ensures cells.Some? && cells.value.tag != "T" ==> r.next == Err(BadTargetTag(cells.value.tag))
    ensures cells.Some? && cells.value.tag == "T" && cells.value.span.Err? ==> r.next == Err(cells.value.span.error)
    ensures cells.Some? && cells.value.tag == "T" && cells.value.span.Ok? && s.hmmName.None? ==>
      r.next == Err(MissingAttribute("target_start"))
  {
    match cells
    case None => Fail(MissingValue(line))
    case Some(c) =>
      if c.tag != "T" then Fail(BadTargetTag(c.tag))
      else
        match c.span
        case Err(e) => Fail(e)
        case Ok(span) =>
          if s.hmmName.None? then Fail(MissingAttribute("target_start"))
          else Continue(TargetCells(s, c.name, span, c.letters), pos + 1)
  }

  /** A track line: its value appended to the track, once a '>' line has created the track. */
  function TrackStep(s: ParserState, t: TrackId, value: Parsed<string>, pos: nat): (r: StepResult)
    ensures r.emitted == []
    ensures r.next.Ok? <==> value.Ok? && s.hmmName.Some?
    ensures r.next.Ok? ==> r.next.value == (WithTrack(s, t, TrackValue(s, t) + value.value), pos + 1)
    ensures value.Err? ==> r.next == Err(value.error)
    ensures value.Ok? && s.hmmName.None? ==> r.next == Err(MissingAttribute(TrackName(t)))
  {
    match value
    case Err(e) => Fail(e)
    case Ok(v) =>
      if s.hmmName.None? then Fail(MissingAttribute(TrackName(t)))
      else Continue(WithTrack(s, t, TrackValue(s, t) + v), pos + 1)
  }

  /**
   * A '>' line: the hmm name and description, then the annotation line
   * that must follow it (`next` is its reading, `None` at the end of the
   * stream).
   */
  function HitStartStep(s: ParserState, names: Option<(string, string)>, line: string,
                        next: Option<Parsed<map<string, string>>>, pos: nat): (r: StepResult)
    ensures r.next.Ok? ==> next.Some? && r.next.value.1 == pos + 2
  {
    match names
    case None => Fail(MissingValue(line))
    case Some((name, description)) => NotesStep(NewHit(s, name, description, s.annotations), next, pos)
  }

  /** The line after a '>' line, read as the hit's annotations; a '>' line at the end of the stream has none. */
  function NotesStep(s: ParserState, next: Option<Parsed<map<string, string>>>, pos: nat): (r: StepResult)
    ensures r.emitted == []
    ensures r.next.Ok? <==> next.Some? && next.value.Ok?
    ensures r.next.Ok? ==> r.next.value == (s.(annotations := next.value.value), pos + 2)
    ensures next.None? ==> r.next == Err(UnexpectedEnd)
  {
    match next
    case None => Fail(UnexpectedEnd)
    case Some(Err(e)) => Fail(e)
    case Some(Ok(m)) => Continue(s.(annotations := m), pos + 2)
  }

  /** The annotation reading of the line after `pos`, or `None` when there is none. */
  function NextNotes(hs: seq<HitLine>, pos: nat): Option<Parsed<map<string, string>>> {
    if pos + 1 < |hs| then Some(hs[pos + 1].notes) else None
  }

  /** The annotations a '>' line at `p` sees are those of the stream's next line, read as annotation words. */
  lemma NextNotesRead(lines: seq<string>, p: nat)
    requires p < |lines|
    ensures NextNotes(ReadHitLines(lines), p) == if p + 1 < |lines| then Some(Annotations(lines[p + 1])) else None
  {
    if p + 1 < |lines| {
      assert ReadHitLines(lines)[p + 1] == ReadHitLine(lines[p + 1]);
    }
  }

  /** One pass of the loop over the stream, on the line at `pos`. */
  function Step(s: ParserState, hs: seq<HitLine>, pos: nat): (r: StepResult)
    requires pos < |hs|
    ensures r.next.Ok? ==> pos < r.next.value.1 <= |hs| && Kept(s, r.next.value.0)
    ensures InHit(hs[pos].kind) && r.next.Ok? ==> r.next.value.1 == pos + 1
    ensures !hs[pos].kind.HitNumber? ==> r.emitted == [] && (r.next.Ok? ==> r.next.value.0.counter == s.counter)
    ensures |r.emitted| <= 1
  {
    var h := hs[pos];
    match h.kind
    case Blank => Continue(s, pos + 1)
    case HitStart(names) => HitStartStep(s, names, h.text, NextNotes(hs, pos), pos)
    case Done => if pos + 1 < |hs| then Fail(DataAfterDone) else Continue(s, pos + 1)
    case HitNumber(k) => NextHit(s, k, h.text, pos)
    case TrackLine(t, value) => TrackStep(s, t, value, pos)
    case QueryBlock(cells) => QueryStep(s, cells, h.text, pos)
    case TargetBlock(cells) => TargetStep(s, cells, h.text, pos)
    case Unparsable(prefix) => Fail(UnparsableLine(prefix))
  }

  /** After the last line: the last hit is built and yielded, then the hit count is checked against the table. */
  function Finish(s: ParserState): (o: Outcome)
    ensures o.records == if Assemble(s).Ok? then [Assemble(s).value] else []
    ensures o.error.None? <==> Assemble(s).Ok? && s.number == s.counter
    ensures Assemble(s).Ok? && s.number != s.counter ==> o.error == Some(CountMismatch(s.number, s.counter))
  {
    match Assemble(s)
    case Err(e) => Outcome([], Some(e))
    case Ok(a) => Outcome([a], if s.number != s.counter then Some(CountMismatch(s.number, s.counter)) else None)
  }

  /** The loop from line `pos` to the end of the stream, then the final record. */
  function Run(s: ParserState, hs: seq<HitLine>, pos: nat): (o: Outcome)
    requires pos <= |hs|
    ensures o.error.None? ==> o.records != []
    ensures |o.records| <= |hs| - pos + 1
    decreases |hs| - pos
  {
    if pos == |hs| then Finish(s)
    else
      var r := Step(s, hs, pos);
      match r.next
      case Err(e) => Outcome(r.emitted, Some(e))
      case Ok((s', p)) => Prepend(r.emitted, Run(s', hs, p))
  }

  /** `parse`: nothing at all when the summary table listed no hits. */
  function ParseHits(s: ParserState, hs: seq<HitLine>, pos: nat): (o: Outcome)
    requires pos <= |hs|
    ensures s.number == 0 ==> o == Outcome([], None)
    ensures s.number != 0 ==> o == Run(s, hs, pos)
  {
    if s.number == 0 then Outcome([], None) else Run(s, hs, pos)
  }

  /** The attributes once the header has been read: the query name, the metadata, the table's hit count, no hit yet. */
  function Initial(info: HeaderInfo): (s: ParserState)
    ensures s.queryName == info.queryName && s.metadata == info.metadata && s.number == info.number
    ensures s.counter == 0 && s.hmmName.None?
  {
    ParserState(info.queryName, info.metadata, info.number, 0, None, None, None, None, "",
                "", "", "", None, "", "", "", "", None, "", "", map[])
  }

  /** Everything the iterator yields on a whole file, and the error that ends it, if any. */
  function Read(lines: seq<string>): (o: Outcome)
    ensures Header.Header(lines).Err? ==> o == Outcome([], Some(Header.Header(lines).error))
    ensures Header.Header(lines).Ok? && Header.Header(lines).value.number == 0 ==> o == Outcome([], None)
    ensures Header.Header(lines).Ok? && Header.Header(lines).value.number != 0 ==>
      var info := Header.Header(lines).value;
      o == Run(Initial(info), ReadHitLines(lines), info.pos)
  {
    match Header.Header(lines)
    case Err(e) => Outcome([], Some(e))
    case Ok(info) => ParseHits(Initial(info), ReadHitLines(lines), info.pos)
  }
}
