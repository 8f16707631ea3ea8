/**
 * Building one alignment record from the attributes a hit has accumulated
 * (`_create_alignment` in Bio/Align/hhr.py).
 */
module Assembly {
  import opened Wrappers
  import opened Text
  import opened HhrTypes
  import opened Coordinates

  function Max(a: int, b: int): int {
    if a < b then b else a
  }

  /**
   * `" " * start + track`, then right-padded with `" " * (length - len(...))`:
   * blanks before the aligned region, the track, blanks up to `length`.
   */
  function PadTrack(track: string, start: int, length: int): (r: string)
    ensures |r| == Max(length, Max(start, 0) + |track|)
    ensures forall i :: 0 <= i < Max(start, 0) ==> r[i] == ' '
    ensures r[Max(start, 0)..Max(start, 0) + |track|] == track
    ensures forall i :: Max(start, 0) + |track| <= i < |r| ==> r[i] == ' '
  {
    var left := Spaces(start) + track;
    var r := left + Spaces(length - |left|);
    assert r[Max(start, 0)..Max(start, 0) + |track|] == track;
    r
  }

  /** An annotation track as attached to its record: `gap` characters taken out, then padded. */
  function Annotate(track: string, gap: char, start: int, length: int): (r: string)
    ensures |r| == Max(length, Max(start, 0) + |Remove(track, gap)|)
    ensures r[Max(start, 0)..Max(start, 0) + |Remove(track, gap)|] == Remove(track, gap)
  {
    PadTrack(Remove(track, gap), start, length)
  }

  /**
   * The query's letter annotations: its Consensus and ss_pred tracks, each
   * with its gaps taken out and padded as `Annotate` states.
   */
  function QueryLetters(consensus: string, ssPred: string, start: int, length: int): (m: map<LetterTrack, string>)
    ensures m.Keys == {ConsensusTrack, SsPredTrack}
    ensures m[ConsensusTrack] == Annotate(consensus, Gap, start, length)
    ensures m[SsPredTrack] == Annotate(ssPred, Gap, start, length)
  {
    map[ConsensusTrack := Annotate(consensus, Gap, start, length),
        SsPredTrack := Annotate(ssPred, Gap, start, length)]
  }

  /**
   * The target's letter annotations: Consensus, ss_dssp, ss_pred and
   * Confidence, padded the same way; Confidence has its blanks, not its
   * gaps, taken out.
   */
  function TargetLetters(consensus: string, ssDssp: string, ssPred: string, confidence: string,
                         start: int, length: int): (m: map<LetterTrack, string>)
    ensures m.Keys == {ConsensusTrack, SsDsspTrack, SsPredTrack, ConfidenceTrack}
    ensures m[ConsensusTrack] == Annotate(consensus, Gap, start, length)
    ensures m[SsDsspTrack] == Annotate(ssDssp, Gap, start, length)
    ensures m[SsPredTrack] == Annotate(ssPred, Gap, start, length)
    ensures m[ConfidenceTrack] == Annotate(confidence, ' ', start, length)
  {
    map[ConsensusTrack := Annotate(consensus, Gap, start, length),
        SsDsspTrack := Annotate(ssDssp, Gap, start, length),
        SsPredTrack := Annotate(ssPred, Gap, start, length),
        ConfidenceTrack := Annotate(confidence, ' ', start, length)]
  }

  /** The attributes `_create_alignment` reads up to the query's length check are present and agree. */
  predicate QueryReady(s: ParserState) {
    && s.queryName.Some?
    && s.queryLength.Some?
    && "Match_columns" in s.metadata
    && s.metadata["Match_columns"] == IntValue(s.queryLength.value)
  }

  /** Everything `_create_alignment` needs is present and consistent. */
  predicate Ready(s: ParserState) {
    && QueryReady(s)
    && s.targetName.Some?
    && s.hmmName.Some?
    && |s.targetSequence| == |s.querySequence|
    && s.targetStart.Some?
    && s.queryStart.Some?
    && s.targetLength.Some?
  }

  /**
   * `_create_alignment`: the query and target records, the coordinates of
   * the gapped pair shifted by the two start offsets, the hit annotations
   * and the column score. Fails on the first attribute that is missing or
   * inconsistent, in the order the source reads them.
   */
  function Assemble(s: ParserState): (r: Parsed<Alignment>)
    ensures r.Ok? <==> Ready(s)
    ensures QueryReady(s) && s.targetName.Some? && s.hmmName.Some? && |s.targetSequence| != |s.querySequence|
      ==> r == Err(SequenceLengthMismatch(|s.targetSequence|, |s.querySequence|))
    ensures s.queryLength.Some? && s.queryName.Some? && "Match_columns" in s.metadata
      && s.metadata["Match_columns"] != IntValue(s.queryLength.value)
      ==> r == Err(QueryLengthMismatch(s.queryLength.value))
    ensures r.Ok? ==>
      var a := r.value;
      && a.query.id == s.queryName.value && a.target.id == s.targetName.value
      && a.query.length == s.queryLength.value && a.target.length == s.targetLength.value
      && a.query.residues == map[s.queryStart.value := Remove(s.querySequence, Gap)]
      && a.target.residues == map[s.targetStart.value := Remove(s.targetSequence, Gap)]
      && a.target.annotations == map["hmm_name" := s.hmmName.value, "hmm_description" := s.hmmDescription]
      && a.annotations == s.annotations
      && a.columnAnnotations == map["column score" := s.columnScore]
      && a.query.letterAnnotations == QueryLetters(s.queryConsensus, s.querySsPred, s.queryStart.value, s.queryLength.value)
      && a.target.letterAnnotations == TargetLetters(s.targetConsensus, s.targetSsDssp, s.targetSsPred, s.confidence,
                                                     s.targetStart.value, s.targetLength.value)
      && a.coordinates == Shift(InferCoordinates(s.targetSequence, s.querySequence), s.targetStart.value, s.queryStart.value)
  {
    if s.queryName.None? then Err(MissingAttribute("query_name"))
    else if s.queryLength.None? then Err(MissingAttribute("query_length"))
    else if "Match_columns" !in s.metadata then Err(MissingMetadata("Match_columns"))
    else if s.metadata["Match_columns"] != IntValue(s.queryLength.value) then
      Err(QueryLengthMismatch(s.queryLength.value))
    else if s.targetName.None? then Err(MissingAttribute("target_name"))
    else if s.hmmName.None? then Err(MissingAttribute("hmm_name"))
    else if |s.targetSequence| != |s.querySequence| then
      Err(SequenceLengthMismatch(|s.targetSequence|, |s.querySequence|))
    else if s.targetStart.None? then Err(StartUnset("target_start"))
    else if s.queryStart.None? then Err(StartUnset("query_start"))
    else if s.targetLength.None? then Err(MissingAttribute("target_length"))
    else
      var coordinates := Shift(InferCoordinates(s.targetSequence, s.querySequence),
                               s.targetStart.value, s.queryStart.value);
      var queryLength := s.queryLength.value;
      var targetLength := s.targetLength.value;
      var queryStart := s.queryStart.value;
      var targetStart := s.targetStart.value;
      var query := SeqRecord(
        s.queryName.value, queryLength,
        map[queryStart := Remove(s.querySequence, Gap)],
        map[],
        QueryLetters(s.queryConsensus, s.querySsPred, queryStart, queryLength));
      var target := SeqRecord(
        s.targetName.value, targetLength,
        map[targetStart := Remove(s.targetSequence, Gap)],
        map["hmm_name" := s.hmmName.value, "hmm_description" := s.hmmDescription],
        TargetLetters(s.targetConsensus, s.targetSsDssp, s.targetSsPred, s.confidence,
                      targetStart, targetLength));
      Ok(Alignment(target, query, coordinates, s.annotations, map["column score" := s.columnScore]))
  }

  /**
   * When the stripped track fits between a non-negative start and the
   * declared length, the padded track is exactly as long as the record.
   */
  lemma PaddedToLength(track: string, gap: char, start: int, length: int)
    requires 0 <= start && start + |Remove(track, gap)| <= length
    ensures |Annotate(track, gap, start, length)| == length
  {
  }

  /**
   * The coordinates of an assembled record run from the two start offsets
   * to the start offsets plus the residues kept for each sequence, and every
   * segment between breakpoints is a match, a deletion or an insertion.
   */
  lemma AssembledCoordinates(s: ParserState)
    requires Assemble(s).Ok? && |s.querySequence| > 0
    ensures var a := Assemble(s).value;
      var c := a.coordinates;
      && |c| >= 1
      && c[0] == Point(s.targetStart.value, s.queryStart.value)
      && c[|c| - 1] == Point(s.targetStart.value + |a.target.residues[s.targetStart.value]|,
                             s.queryStart.value + |a.query.residues[s.queryStart.value]|)
      && IsPath(c)
  {
    ShiftedPath(s.targetSequence, s.querySequence, s.targetStart.value, s.queryStart.value);
  }
}
