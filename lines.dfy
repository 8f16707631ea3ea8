/**
 * How `parse` in Bio/Align/hhr.py reads one line of the hit section: the
 * branch of its prefix dispatch the line falls into, and the cells that
 * branch unpacks from it. A line that follows a '>' line is read as
 * `key=value` annotation words instead, so every line also carries that
 * reading. None of this depends on the parser's attributes; the state
 * machine in module Blocks decides what to do with it.
 */
module HitLines {
  import opened Wrappers
  import opened Text
  import opened HhrTypes

  /** The nine string tracks a hit accumulates. */
  datatype TrackId =
    | QuerySsPred | QueryConsensus | QuerySequence
    | TargetSsPred | TargetConsensus | TargetSsDssp | TargetSequence
    | ColumnScore | Confidence

  /** The attribute name under which the source keeps a track. */
  function TrackName(t: TrackId): string {
    match t
    case QuerySsPred => "query_ss_pred"
    case QueryConsensus => "query_consensus"
    case QuerySequence => "query_sequence"
    case TargetSsPred => "target_ss_pred"
    case TargetConsensus => "target_consensus"
    case TargetSsDssp => "target_ss_dssp"
    case TargetSequence => "target_sequence"
    case ColumnScore => "column_score"
    case Confidence => "confidence"
  }

  /** The numbers of a `Q`/`T` block line: 0-based start, end, and the sequence's total length. */
  datatype Span = Span(start: int, end: int, total: int)

  /** The six cells of a `Q`/`T` block line: tag, name, start, letters, end, `(total)`; the numbers already read. */
  datatype Cells = Cells(tag: string, name: string, span: Parsed<Span>, letters: string)

  /** The branch of the dispatch a line falls into, with what that branch unpacks. */
  datatype LineKind =
    | Blank
    | HitStart(names: Option<(string, string)>)   // '>': hmm name and description
    | Done
    | HitNumber(k: Parsed<int>)                   // 'No k'
    | TrackLine(track: TrackId, value: Parsed<string>)
    | QueryBlock(cells: Option<Cells>)            // 'Q <name> ...'
    | TargetBlock(cells: Option<Cells>)           // 'T <name> ...'
    | Unparsable(prefix: string)

  /** A total written `(n)`, as `int(total[1:-1])` reads it. */
  function ParseTotal(total: string): (r: Parsed<int>)
    ensures r.Ok? ==>
      && |total| >= 2 && total[0] == '(' && total[|total| - 1] == ')'
      && ParseInt(total[1..|total| - 1]) == Some(r.value)
    ensures !(StartsWith(total, "(") && EndsWith(total, ")")) ==> r == Err(BadTotal(total))
    ensures StartsWith(total, "(") && EndsWith(total, ")") ==>
      && |total| >= 2
      && (r.Ok? <==> ParseInt(total[1..|total| - 1]).Some?)
      && (r.Err? ==> r == Err(BadInteger(total[1..|total| - 1])))
  {
    if !(StartsWith(total, "(") && EndsWith(total, ")")) then Err(BadTotal(total))
    else
      assert total[0] == '(' && total[|total| - 1] == ')';
      var inner := total[1..|total| - 1];
      match ParseInt(inner)
      case None => Err(BadInteger(inner))
      case Some(n) => Ok(n)
  }

  /** `int(total[1:-1])` reads back every total written `(n)`. */
  lemma TotalRoundTrip(n: nat)
    ensures ParseTotal("(" + FormatNat(n) + ")") == Ok(n)
  {
    var t := "(" + FormatNat(n) + ")";
    assert t[1..|t| - 1] == FormatNat(n);
    ParseFormatRoundTrip(n);
  }

  /** `int(start) - 1`, `int(end)` and the total, failing on the first that does not read. */
  function ParseSpan(start: string, end: string, total: string): (r: Parsed<Span>)
    ensures r.Ok? ==>
      && ParseInt(start) == Some(r.value.start + 1) && ParseInt(end) == Some(r.value.end)
      && ParseTotal(total) == Ok(r.value.total)
    ensures r.Ok? <==> ParseInt(start).Some? && ParseInt(end).Some? && ParseTotal(total).Ok?
    ensures ParseInt(start).None? ==> r == Err(BadInteger(start))
  {
    match ParseInt(start)
    case None => Err(BadInteger(start))
    case Some(b) =>
      match ParseInt(end)
      case None => Err(BadInteger(end))
      case Some(e) =>
        match ParseTotal(total)
        case Err(err) => Err(err)
        case Ok(n) => Ok(Span(b - 1, e, n))
  }

  /** A block line's six whitespace-separated cells; `None` when there are not exactly six. */
  function BlockCells(line: string): (r: Option<Cells>)
    ensures r.Some? <==> |Split(line)| == 6
    ensures r.Some? ==> var w := Split(line);
      r.value == Cells(w[0], w[1], ParseSpan(w[2], w[4], w[5]), w[3])
  {
    var w := Split(line);
    if |w| != 6 then None else Some(Cells(w[0], w[1], ParseSpan(w[2], w[4], w[5]), w[3]))
  }

  /** Six words joined by single blanks are read back as the six cells, in order. */
  lemma BlockCellsOfWords(tag: string, name: string, start: string, letters: string, end: string, total: string)
    requires IsWord(tag) && IsWord(name) && IsWord(start)
    requires IsWord(letters) && IsWord(end) && IsWord(total)
    ensures BlockCells(Join([tag, name, start, letters, end, total], " "))
      == Some(Cells(tag, name, ParseSpan(start, end, total), letters))
  {
    SplitJoin([tag, name, start, letters, end, total]);
  }

  /** The numbers of a block line written by `str` read back as a 0-based start, the end and the total. */
  lemma SpanRoundTrip(start: nat, end: nat, total: nat)
    ensures ParseSpan(FormatNat(start), FormatNat(end), "(" + FormatNat(total) + ")")
      == Ok(Span(start - 1, end, total))
  {
    ParseFormatRoundTrip(start);
    ParseFormatRoundTrip(end);
    TotalRoundTrip(total);
  }

  /** A consensus line: the letters in its fourth cell, once its numbers have been read. */
  function ConsensusValue(line: string): Parsed<string> {
    match BlockCells(line)
    case None => Err(MissingValue(line))
    case Some(c) =>
      match c.span
      case Err(e) => Err(e)
      case Ok(_) => Ok(c.letters)
  }

  /** A secondary-structure line: its last word (`rsplit(None, 1)`). */
  function LastWord(line: string): Parsed<string> {
    match RSplitOnce(line)
    case None => Err(MissingValue(line))
    case Some((_, w)) => Ok(w)
  }

  /** A Confidence line: everything after its first word (`split(None, 1)`). */
  function AfterFirstWord(line: string): Parsed<string> {
    match SplitOnce(line)
    case None => Err(MissingValue(line))
    case Some((_, rest)) => Ok(rest)
  }

  /** A `No k` line: exactly two words, the second read as an integer. */
  function HitNumberValue(line: string): Parsed<int> {
    var w := Split(line);
    if |w| != 2 then Err(MissingValue(line))
    else
      match ParseInt(w[1])
      case None => Err(BadInteger(w[1]))
      case Some(k) => Ok(k)
  }

  /** The prefixes the dispatch tests after the blank, '>' and 'Done!' cases. */
  predicate MatchesNoPrefix(r: string) {
    && !StartsWith(r, ">") && r != "Done!" && !StartsWith(r, TrackPrefix(ColumnScore)) && !StartsWith(r, "No ")
    && !StartsWith(r, TrackPrefix(Confidence)) && !StartsWith(r, "Q ") && !StartsWith(r, "T ")
  }

  /** The prefix that selects a line for a track: block lines for the sequences, the marked lines for the others. */
  function TrackPrefix(t: TrackId): string {
    match t
    case QuerySsPred => "Q ss_pred "
    case QueryConsensus => "Q Consensus "
    case QuerySequence => "Q "
    case TargetSsPred => "T ss_pred "
    case TargetConsensus => "T Consensus "
    case TargetSsDssp => "T ss_dssp "
    case TargetSequence => "T "
    case ColumnScore => " "
    case Confidence => "Confidence"
  }

  /**
   * A line starting with "Q ": "Q ss_pred ", then "Q Consensus ", then any
   * other query block line. Every one of these prefixes starts with "Q ", so
   * testing them here keeps the order of the source's dispatch.
   */
  function ClassifyQuery(r: string): (k: LineKind)
    ensures k.TrackLine? || k.QueryBlock?
    ensures k.TrackLine? ==> StartsWith(r, TrackPrefix(k.track))
    ensures k.QueryBlock? ==> !StartsWith(r, TrackPrefix(QuerySsPred)) && !StartsWith(r, TrackPrefix(QueryConsensus))
  {
    if StartsWith(r, TrackPrefix(QuerySsPred)) then TrackLine(QuerySsPred, LastWord(r))
    else if StartsWith(r, TrackPrefix(QueryConsensus)) then TrackLine(QueryConsensus, ConsensusValue(r))
    else QueryBlock(BlockCells(r))
  }

  /** A line starting with "T ": "T ss_pred ", "T ss_dssp ", "T Consensus ", then any other target block line. */
  function ClassifyTarget(r: string): (k: LineKind)
    ensures k.TrackLine? || k.TargetBlock?
    ensures k.TrackLine? ==> StartsWith(r, TrackPrefix(k.track))
    ensures k.TargetBlock? ==>
      && !StartsWith(r, TrackPrefix(TargetSsPred)) && !StartsWith(r, TrackPrefix(TargetSsDssp))
      && !StartsWith(r, TrackPrefix(TargetConsensus))
  {
    if StartsWith(r, TrackPrefix(TargetSsPred)) then TrackLine(TargetSsPred, LastWord(r))
    else if StartsWith(r, TrackPrefix(TargetSsDssp)) then TrackLine(TargetSsDssp, LastWord(r))
    else if StartsWith(r, TrackPrefix(TargetConsensus)) then TrackLine(TargetConsensus, ConsensusValue(r))
    else TargetBlock(BlockCells(r))
  }

  /** The more specific prefixes of the `Q`/`T` branches all start with "Q " or "T ". */
  lemma NestedPrefixes(r: string)
    ensures StartsWith(r, "Q ss_pred ") || StartsWith(r, "Q Consensus ") ==> StartsWith(r, "Q ")
    ensures StartsWith(r, "T ss_pred ") || StartsWith(r, "T ss_dssp ") || StartsWith(r, "T Consensus ")
      ==> StartsWith(r, "T ")
  {
    if StartsWith(r, "Q ss_pred ") { assert r[..2] == r[..10][..2]; }
    if StartsWith(r, "Q Consensus ") { assert r[..2] == r[..12][..2]; }
    if StartsWith(r, "T ss_pred ") { assert r[..2] == r[..10][..2]; }
    if StartsWith(r, "T ss_dssp ") { assert r[..2] == r[..10][..2]; }
    if StartsWith(r, "T Consensus ") { assert r[..2] == r[..12][..2]; }
  }

  /**
   * The dispatch on a line with its trailing whitespace removed, in the
   * source's order: blank, '>', 'Done!', a leading blank (column score),
   * 'No ', 'Confidence', then the `Q` lines and the `T` lines.
   */
  function Classify(r: string): (k: LineKind)
    ensures k.Blank? <==> r == ""
    ensures k.HitStart? <==> StartsWith(r, ">")
    ensures k.HitNumber? ==> StartsWith(r, "No ")
    ensures k.TrackLine? ==> StartsWith(r, TrackPrefix(k.track))
    ensures k.QueryBlock? ==> StartsWith(r, "Q ") && ClassifyQuery(r).QueryBlock?
    ensures k.TargetBlock? ==> StartsWith(r, "T ") && ClassifyTarget(r).TargetBlock?
  {
    if r == "" then Blank
    else if StartsWith(r, ">") then HitStart(SplitOnce(r[1..]))
    else if r == "Done!" then Done
    else if StartsWith(r, TrackPrefix(ColumnScore)) then TrackLine(ColumnScore, Ok(Strip(r)))
    else if StartsWith(r, "No ") then HitNumber(HitNumberValue(r))
    else if StartsWith(r, TrackPrefix(Confidence)) then TrackLine(Confidence, AfterFirstWord(r))
    else if StartsWith(r, "Q ") then ClassifyQuery(r)
    else if StartsWith(r, "T ") then ClassifyTarget(r)
    else Unparsable(Take(r, 30))
  }

  /** Only an empty line is blank. */
  lemma ClassifyBlank(r: string)
    ensures Classify(r).Blank? <==> r == ""
  {
  }

  /** Only the exact line 'Done!' ends the hits. */
  lemma ClassifyDone(r: string)
    ensures Classify(r).Done? <==> r == "Done!"
  {
    if r == "Done!" {
      assert r[0] == 'D' && r[..1][0] == 'D';
      assert r[..1] == ['D'];
      assert r[..3] == ['D', 'o', 'n'];
    }
  }

  /** A '>' line yields the hmm name and the description that follow the marker. */
  lemma ClassifyHitStart(r: string)
    requires r != "" && StartsWith(r, ">")
    ensures Classify(r) == HitStart(SplitOnce(r[1..]))
  {
  }

  /** A line starting with " " is a column-score line whatever follows. */
  lemma ClassifyColumnScore(r: string)
    requires StartsWith(r, TrackPrefix(ColumnScore))
    ensures Classify(r) == TrackLine(ColumnScore, Ok(Strip(r)))
  {
    assert r[..1][0] == ' ';
  }

  /** A line starting with "No " is a hit-number line whatever follows. */
  lemma ClassifyHitNumber(r: string)
    requires StartsWith(r, "No ")
    ensures Classify(r) == HitNumber(HitNumberValue(r))
  {
    assert r[..3][0] == 'N' && r[0] == 'N';
    assert !StartsWith(r, ">") && !StartsWith(r, TrackPrefix(ColumnScore)) by {
      assert r[..1][0] == 'N';
    }
  }

  /** A line starting with "Confidence" is a confidence line whatever follows. */
  lemma ClassifyConfidence(r: string)
    requires StartsWith(r, TrackPrefix(Confidence))
    ensures Classify(r) == TrackLine(Confidence, AfterFirstWord(r))
  {
    assert r[..10][0] == 'C' && r[..10][1] == 'o' && r[0] == 'C' && r[1] == 'o';
    assert !StartsWith(r, ">") && !StartsWith(r, TrackPrefix(ColumnScore)) by {
      assert r[..1][0] == 'C';
    }
    assert !StartsWith(r, "No ") by {
      assert |r| >= 3 && r[..3][1] == r[1];
    }
  }

  /** A line starting with "Q " goes to the query sub-dispatch. */
  lemma ClassifyQueryLine(r: string)
    requires StartsWith(r, "Q ")
    ensures Classify(r) == ClassifyQuery(r)
  {
    assert r[..2][0] == 'Q' && r[0] == 'Q';
    assert !StartsWith(r, ">") && !StartsWith(r, TrackPrefix(ColumnScore)) by {
      assert r[..1][0] == 'Q';
    }
    assert !StartsWith(r, "No ") by {
      assert |r| >= 3 ==> r[..3][0] == r[0];
    }
    assert !StartsWith(r, TrackPrefix(Confidence)) by {
      assert |r| >= 10 ==> r[..10][0] == r[0];
    }
  }

  /** A line starting with "T " goes to the target sub-dispatch. */
  lemma ClassifyTargetLine(r: string)
    requires StartsWith(r, "T ")
    ensures Classify(r) == ClassifyTarget(r)
  {
    assert r[..2][0] == 'T' && r[0] == 'T';
    assert !StartsWith(r, ">") && !StartsWith(r, TrackPrefix(ColumnScore)) by {
      assert r[..1][0] == 'T';
    }
    assert !StartsWith(r, "No ") by {
      assert |r| >= 3 ==> r[..3][0] == r[0];
    }
    assert !StartsWith(r, TrackPrefix(Confidence)) by {
      assert |r| >= 10 ==> r[..10][0] == r[0];
    }
    assert !StartsWith(r, "Q ") by {
      assert |r| >= 2 ==> r[..2][0] == r[0];
    }
  }

  /** A line falls through every branch exactly when it matches none of the prefixes; the error shows its first 30 characters. */
  lemma ClassifyUnparsable(r: string)
    ensures Classify(r).Unparsable? <==> r != "" && MatchesNoPrefix(r)
    ensures Classify(r).Unparsable? ==> Classify(r).prefix == Take(r, 30)
  {
  }

  /** Identities are written with a trailing '%'. */
  const Identities: string := "Identities"

  /** Aligned_cols is not kept: it follows from the coordinates. */
  const AlignedCols: string := "Aligned_cols"

  /**
   * One annotation word, `key=value` with exactly one '=' (`word.split("=")`
   * unpacked into two); an Identities value loses its trailing '%'.
   */
  function AnnotationWord(w: string): (r: Parsed<(string, string)>)
    ensures r.Err? ==> r == Err(BadAnnotation(w))
    ensures r.Ok? && r.value.0 == Identities ==> r.value.1 == [] || r.value.1[|r.value.1| - 1] != '%'
  {
    var parts := SplitOn(w, "=");
    if |parts| != 2 then Err(BadAnnotation(w))
    else Ok((parts[0], if parts[0] == Identities then RStripChar(parts[1], '%') else parts[1]))
  }

  /** A word reads exactly when it holds one '=': the key is what precedes it, the value what follows, less a trailing '%' for Identities. */
  lemma AnnotationWordSplits(w: string)
    ensures AnnotationWord(w).Ok? <==> Count(w, '=') == 1
    ensures AnnotationWord(w).Ok? ==> '=' !in AnnotationWord(w).value.0
    ensures AnnotationWord(w).Ok? ==> exists raw ::
      && w == AnnotationWord(w).value.0 + "=" + raw
      && AnnotationWord(w).value.1 == (if AnnotationWord(w).value.0 == Identities then RStripChar(raw, '%') else raw)
    ensures AnnotationWord(w).Err? ==> AnnotationWord(w).error == BadAnnotation(w)
  {
    SplitOnCharCount(w, '=');
    var parts := SplitOn(w, "=");
    if |parts| == 2 {
      SplitOnTwo(w, "=");
      assert w == parts[0] + ("=" + parts[1]);
      CountConcat(parts[0], "=" + parts[1], '=');
      CountConcat("=", parts[1], '=');
      CountZero(parts[0], '=');
    }
  }

  /** The annotation reading of every word of a line. */
  function AnnotationWords(words: seq<string>): (ws: seq<Parsed<(string, string)>>)
    ensures |ws| == |words|
    ensures forall i :: 0 <= i < |words| ==> ws[i] == AnnotationWord(words[i])
  {
    seq(|words|, i requires 0 <= i < |words| => AnnotationWord(words[i]))
  }

  /** The annotation loop from word `i`: a bad word fails, Aligned_cols is skipped, a later word overrides an earlier one. */
  function CollectAnnotations(ws: seq<Parsed<(string, string)>>, i: nat, acc: map<string, string>): (r: Parsed<map<string, string>>)
    requires i <= |ws|
    ensures r.Ok? ==> acc.Keys <= r.value.Keys
    ensures r.Err? ==> exists j :: i <= j < |ws| && ws[j] == Err(r.error)
    decreases |ws| - i
  {
    if i == |ws| then Ok(acc)
    else
      match ws[i]
      case Err(e) => Err(e)
      case Ok((key, value)) =>
        CollectAnnotations(ws, i + 1, if key == AlignedCols then acc else acc[key := value])
  }

  /** A line read as annotation words. */
  function Annotations(line: string): Parsed<map<string, string>> {
    CollectAnnotations(AnnotationWords(Split(line)), 0, map[])
  }

  /** Every reading of a line the parser may need: the (right-stripped) dispatch, and the annotation words. */
  datatype HitLine = HitLine(text: string, kind: LineKind, notes: Parsed<map<string, string>>)

  function ReadHitLine(line: string): (h: HitLine)
    ensures h.text == RStrip(line) && h.kind == Classify(RStrip(line)) && h.notes == Annotations(line)
  {
    var r := RStrip(line);
    HitLine(r, Classify(r), Annotations(line))
  }

  function ReadHitLines(lines: seq<string>): (hs: seq<HitLine>)
    ensures |hs| == |lines|
    ensures forall i {:trigger ReadHitLine(lines[i])} :: 0 <= i < |lines| ==> hs[i] == ReadHitLine(lines[i])
  {
    seq(|lines|, i requires 0 <= i < |lines| => ReadHitLine(lines[i]))
  }

  /** Aligned_cols never reaches the annotations. */
  lemma {:induction false} AlignedColsSkipped(ws: seq<Parsed<(string, string)>>, i: nat, acc: map<string, string>)
    requires i <= |ws| && AlignedCols !in acc && CollectAnnotations(ws, i, acc).Ok?
    ensures AlignedCols !in CollectAnnotations(ws, i, acc).value
    decreases |ws| - i
  {
    if i < |ws| {
      var (key, value) := ws[i].value;
      AlignedColsSkipped(ws, i + 1, if key == AlignedCols then acc else acc[key := value]);
    }
  }

  /** The annotation loop fails exactly when some word from `i` on is not `key=value`. */
  lemma {:induction false} AnnotationsFail(ws: seq<Parsed<(string, string)>>, i: nat, acc: map<string, string>)
    requires i <= |ws|
    ensures CollectAnnotations(ws, i, acc).Err? <==> exists j :: i <= j < |ws| && ws[j].Err?
    decreases |ws| - i
  {
    if i < |ws| && ws[i].Ok? {
      var (key, value) := ws[i].value;
      AnnotationsFail(ws, i + 1, if key == AlignedCols then acc else acc[key := value]);
    }
  }

  /** The word at `i` is the last one from `from` on with its key. */
  predicate LastWithKey(ws: seq<Parsed<(string, string)>>, from: nat, i: nat)
    requires from <= i < |ws| && ws[i].Ok?
  {
    forall j :: i < j < |ws| && ws[j].Ok? ==> ws[j].value.0 != ws[i].value.0
  }

  /**
   * The annotations are exactly the keys met (other than Aligned_cols), each
   * holding the value of its last word; keys already collected stay unless
   * a word overrides them.
   */
  lemma {:induction false} AnnotationsCollected(ws: seq<Parsed<(string, string)>>, i: nat, acc: map<string, string>)
    requires i <= |ws| && CollectAnnotations(ws, i, acc).Ok?
    ensures var m := CollectAnnotations(ws, i, acc).value;
      && (forall j :: i <= j < |ws| ==> ws[j].Ok?)
      && (forall j :: i <= j < |ws| && ws[j].value.0 != AlignedCols ==> ws[j].value.0 in m)
      && (forall j :: i <= j < |ws| && ws[j].value.0 != AlignedCols && LastWithKey(ws, i, j) ==>
            m[ws[j].value.0] == ws[j].value.1)
      && (forall k :: k in m ==> k in acc || exists j :: i <= j < |ws| && ws[j].value.0 == k)
    decreases |ws| - i
  {
    if i < |ws| {
      var (key, value) := ws[i].value;
      var acc' := if key == AlignedCols then acc else acc[key := value];
      AnnotationsCollected(ws, i + 1, acc');
      var m := CollectAnnotations(ws, i, acc).value;
      assert m == CollectAnnotations(ws, i + 1, acc').value;
      if key != AlignedCols && LastWithKey(ws, i, i) {
        KeptUnlessOverridden(ws, i + 1, acc', key);
      }
      forall k | k in m ensures k in acc || exists j :: i <= j < |ws| && ws[j].value.0 == k {
        if k !in acc && k == key {
          assert ws[i].value.0 == k;
        }
      }
    }
  }

  /** A collected key no later word names keeps its value. */
  lemma {:induction false} KeptUnlessOverridden(ws: seq<Parsed<(string, string)>>, i: nat, acc: map<string, string>, key: string)
    requires i <= |ws| && CollectAnnotations(ws, i, acc).Ok? && key in acc
    requires forall j :: i <= j < |ws| && ws[j].Ok? ==> ws[j].value.0 != key
    ensures key in CollectAnnotations(ws, i, acc).value
    ensures CollectAnnotations(ws, i, acc).value[key] == acc[key]
    decreases |ws| - i
  {
    if i < |ws| {
      var (k, value) := ws[i].value;
      KeptUnlessOverridden(ws, i + 1, if k == AlignedCols then acc else acc[k := value], key);
    }
  }
}
