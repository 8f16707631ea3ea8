/**
 * The values the hhr reader works with: header metadata, the errors it
 * raises, the parser's attributes, and the alignment records it builds.
 */
module HhrTypes {
  import opened Wrappers

  /** A value stored in the run metadata; floats are kept as the token that was read. */
  datatype MetaValue =
    | IntValue(i: int)
    | IntPair(first: int, second: int)
    | FloatToken(token: string)
    | TextValue(text: string)

  /** Every way the reader can fail; each corresponds to one exception the source raises. */
  datatype ParseError =
    | UnknownKey(key: string)                    // header key outside the recognised set
    | MissingValue(line: string)                 // a line without the fields it is unpacked into
    | BadInteger(token: string)                  // `int(...)` rejected the token
    | BadSequenceCount(value: string)            // `No_of_seqs` value not of the form "A out of B"
    | TruncatedFile                              // the stream ended right after the header
    | BadTableHeader(line: string)               // the summary table's column header is wrong
    | BadRowNumber(expected: nat, row: string)   // a summary row is not numbered by its position
    | BadAnnotation(word: string)                // a hit annotation word without exactly one '='
    | UnexpectedEnd                              // the stream ended right after a '>' line
    | DataAfterDone                              // a line follows 'Done!'
    | BadHitNumber(expected: nat, line: string)  // a 'No k' line with k not the next hit number
    | QueryNameMismatch(name: string)            // a 'Q' line whose name is not a prefix of the query
    | BadTotal(token: string)                    // a total not written as '(n)'
    | BadTargetTag(tag: string)                  // a 'T' line whose first word is not 'T'
    | UnparsableLine(prefix: string)             // first 30 characters of a line no branch accepts
    | MissingAttribute(name: string)             // an attribute read before it was ever set
    | MissingMetadata(key: string)               // a metadata key read but never stored
    | QueryLengthMismatch(queryLength: int)      // the query's total differs from Match_columns
    | SequenceLengthMismatch(target: nat, query: nat)  // gapped target and query differ in length
    | StartUnset(name: string)                   // a start offset still unset when it is used
    | CountMismatch(expected: nat, found: nat)   // fewer or more hits than the summary table lists

  type Parsed<T> = Result<T, ParseError>

  /** One column of the coordinate matrix: an offset in the target (row 0) and in the query (row 1). */
  datatype Point = Point(target: int, query: int)

  /** The per-residue tracks a record can carry in its letter annotations. */
  datatype LetterTrack = ConsensusTrack | SsDsspTrack | SsPredTrack | ConfidenceTrack

  /** The key under which the source stores each track in `letter_annotations`. */
  function TrackKey(t: LetterTrack): string {
    match t
    case ConsensusTrack => "Consensus"
    case SsDsspTrack => "ss_dssp"
    case SsPredTrack => "ss_pred"
    case ConfidenceTrack => "Confidence"
  }

  /** Different tracks are stored under different keys, so keying by track loses nothing. */
  lemma TrackKeysDistinct(a: LetterTrack, b: LetterTrack)
    ensures TrackKey(a) == TrackKey(b) <==> a == b
  {
    if a != b {
      var ka, kb := TrackKey(a), TrackKey(b);
      assert ka[0] != kb[0] || ka[3] != kb[3];
    }
  }

  /** A labelled sequence: its residues are known only from `residues` (start offset to text). */
  datatype SeqRecord = SeqRecord(
    id: string,
    length: int,
    residues: map<int, string>,
    annotations: map<string, string>,
    letterAnnotations: map<LetterTrack, string>)

  /** One pairwise alignment; the target comes first, as in the source's record list. */
  datatype Alignment = Alignment(
    target: SeqRecord,
    query: SeqRecord,
    coordinates: seq<Point>,
    annotations: map<string, string>,
    columnAnnotations: map<string, string>)

  /**
   * The attributes of the iterator that parsing reads and writes. An
   * attribute the source may not have set yet is an `Option`; the per-hit
   * attributes (the tracks, the starts, the annotations, the hmm name and
   * description) are all set together by a '>' line, so they exist exactly
   * when `hmmName` is `Some`.
   */
  datatype ParserState = ParserState(
    queryName: Option<string>,
    metadata: map<string, MetaValue>,
    number: nat,
    counter: nat,
    queryLength: Option<int>,
    targetName: Option<string>,
    targetLength: Option<int>,
    hmmName: Option<string>,
    hmmDescription: string,
    querySsPred: string,
    queryConsensus: string,
    querySequence: string,
    queryStart: Option<int>,
    targetSsPred: string,
    targetConsensus: string,
    targetSsDssp: string,
    targetSequence: string,
    targetStart: Option<int>,
    columnScore: string,
    confidence: string,
    annotations: map<string, string>)

  /** What the records requested from the iterator come to: those yielded, then the error raised, if any. */
  datatype Outcome = Outcome(records: seq<Alignment>, error: Option<ParseError>)

  function Prepend(records: seq<Alignment>, o: Outcome): Outcome {
    Outcome(records + o.records, o.error)
  }
}
