/**
 * What the hit section's state machine guarantees: how many records a
 * file yields, which lines end parsing with an error, and that every
 * record is built from exactly the lines of its own hit.
 */
module HitProperties {
  import opened Wrappers
  import opened Text
  import opened HhrTypes
  import opened Assembly
  import opened HitLines
  import opened Header
  import opened Blocks

  /**
   * A run that ends without an error has seen exactly `number` hits, and
   * it yields one record per 'No k' line after the first plus the last hit.
   */
  lemma {:induction false} RunCount(s: ParserState, hs: seq<HitLine>, pos: nat)
    requires pos <= |hs|
    ensures var o := Run(s, hs, pos);
      o.error.None? ==>
        && s.counter <= s.number
        && |o.records| + (if s.counter == 0 && s.number > 0 then 1 else 0) == s.number - s.counter + 1
    decreases |hs| - pos
  {
    if pos < |hs| {
      var r := Step(s, hs, pos);
      StepCount(s, hs, pos);
      if r.next.Ok? {
        var (s', p) := r.next.value;
        RunCount(s', hs, p);
        var o, o' := Run(s, hs, pos), Run(s', hs, p);
        assert o == Prepend(r.emitted, o');
        assert |o.records| == |r.emitted| + |o'.records|;
      } else {
        assert Run(s, hs, pos).error.Some?;
      }
    }
  }

  /** One step that does not fail keeps the table's count, and only a 'No k' line moves the counter and yields. */
  lemma StepCount(s: ParserState, hs: seq<HitLine>, pos: nat)
    requires pos < |hs|
    ensures var r := Step(s, hs, pos);
      r.next.Ok? ==>
        && r.next.value.0.number == s.number
        && r.next.value.0.counter == s.counter + (if hs[pos].kind.HitNumber? then 1 else 0)
        && |r.emitted| == (if hs[pos].kind.HitNumber? && s.counter > 0 then 1 else 0)
  {
  }

  /**
   * A file read to its end without an error yields exactly as many
   * alignments as its summary table lists.
   */
  lemma ReadCount(lines: seq<string>)
    ensures Read(lines).error.None? ==>
      Header.Header(lines).Ok? && |Read(lines).records| == Header.Header(lines).value.number
  {
    match Header.Header(lines)
    case Err(_) =>
    case Ok(info) =>
      if info.number > 0 {
        RunCount(Initial(info), ReadHitLines(lines), info.pos);
      }
  }

  /** A metadata line with an unknown key, after entry lines only, ends the whole file with that key and no record. */
  lemma UnknownKeyEndsRead(lines: seq<string>, j: nat)
    requires j < |lines| && forall i :: 0 <= i < j ==> ClassifyMeta(lines[i]).Entry?
    requires SplitOnce(Strip(lines[j])).Some? && SplitOnce(Strip(lines[j])).value.0 !in HeaderKeys
    ensures Read(lines) == Outcome([], Some(UnknownKey(SplitOnce(Strip(lines[j])).value.0)))
  {
    UnknownKeyEndsHeader(lines, j);
  }

  /** A 'Done!' line that is not the last line of the stream is an error, and nothing more is yielded. */
  lemma DoneMustBeLast(s: ParserState, lines: seq<string>, pos: nat)
    requires pos + 1 < |lines| && RStrip(lines[pos]) == "Done!"
    ensures Run(s, ReadHitLines(lines), pos) == Outcome([], Some(DataAfterDone))
  {
    var hs := ReadHitLines(lines);
    ClassifyDone(RStrip(lines[pos]));
    assert hs[pos].kind == Classify(RStrip(lines[pos]));
    DoneStops(s, hs, pos);
  }

  lemma DoneStops(s: ParserState, hs: seq<HitLine>, pos: nat)
    requires pos + 1 < |hs| && hs[pos].kind.Done?
    ensures Run(s, hs, pos) == Outcome([], Some(DataAfterDone))
  {
  }

  /** A line that matches none of the dispatch's prefixes stops parsing with its first 30 characters. */
  lemma UnparsableRejected(s: ParserState, lines: seq<string>, pos: nat)
    requires pos < |lines| && RStrip(lines[pos]) != "" && MatchesNoPrefix(RStrip(lines[pos]))
    ensures Run(s, ReadHitLines(lines), pos) == Outcome([], Some(UnparsableLine(Take(RStrip(lines[pos]), 30))))
  {
    var hs := ReadHitLines(lines);
    ClassifyUnparsable(RStrip(lines[pos]));
    assert hs[pos].kind == Classify(RStrip(lines[pos]));
    UnparsableStops(s, hs, pos);
  }

  lemma UnparsableStops(s: ParserState, hs: seq<HitLine>, pos: nat)
    requires pos < |hs| && hs[pos].kind.Unparsable?
    ensures Run(s, hs, pos) == Outcome([], Some(UnparsableLine(hs[pos].kind.prefix)))
  {
  }

  /** A track line (secondary structure, consensus, column score or confidence) before the first '>' line has no attribute to append to. */
  lemma TrackBeforeHit(s: ParserState, hs: seq<HitLine>, pos: nat)
    requires pos < |hs| && s.hmmName.None?
    requires hs[pos].kind.TrackLine? && hs[pos].kind.value.Ok?
    ensures Run(s, hs, pos) == Outcome([], Some(MissingAttribute(TrackName(hs[pos].kind.track))))
  {
  }

  predicate AllInHit(hs: seq<HitLine>, lo: nat, hi: nat)
    requires lo <= hi <= |hs|
  {
    forall j :: lo <= j < hi ==> InHit(hs[j].kind)
  }

  /** The attributes after the body lines `lo` up to `hi` of a hit, or the error one of them raises. */
  function Advance(s: ParserState, hs: seq<HitLine>, lo: nat, hi: nat): Parsed<ParserState>
    requires lo <= hi <= |hs| && AllInHit(hs, lo, hi)
    decreases hi - lo
  {
    if lo == hi then Ok(s)
    else
      match Step(s, hs, lo).next
      case Err(e) => Err(e)
      case Ok((s', _)) => Advance(s', hs, lo + 1, hi)
  }

  /** The run after the body lines `lo` up to `hi`, or the error one of them raises. */
  function AfterBody(s: ParserState, hs: seq<HitLine>, lo: nat, hi: nat): Outcome
    requires lo <= hi <= |hs| && AllInHit(hs, lo, hi)
  {
    match Advance(s, hs, lo, hi)
    case Err(e) => Outcome([], Some(e))
    case Ok(s') => Run(s', hs, hi)
  }

  /** One body line of a hit yields nothing: the run goes on from the next line, or stops at its error. */
  lemma BodyLineRun(s: ParserState, hs: seq<HitLine>, lo: nat)
    requires lo < |hs| && InHit(hs[lo].kind)
    ensures Step(s, hs, lo).next.Err? ==> Run(s, hs, lo) == Outcome([], Some(Step(s, hs, lo).next.error))
    ensures Step(s, hs, lo).next.Ok? ==>
      Step(s, hs, lo).next.value.1 == lo + 1 && Run(s, hs, lo) == Run(Step(s, hs, lo).next.value.0, hs, lo + 1)
  {
    var r := Step(s, hs, lo);
    assert r.emitted == [];
  }

  /** The body lines after the first one: `AfterBody` takes one step of `Advance`. */
  lemma AfterBodyStep(s: ParserState, hs: seq<HitLine>, lo: nat, hi: nat)
    requires lo < hi <= |hs| && AllInHit(hs, lo, hi)
    ensures Step(s, hs, lo).next.Err? ==> AfterBody(s, hs, lo, hi) == Outcome([], Some(Step(s, hs, lo).next.error))
    ensures Step(s, hs, lo).next.Ok? ==> AfterBody(s, hs, lo, hi) == AfterBody(Step(s, hs, lo).next.value.0, hs, lo + 1, hi)
  {
  }

  /** Running over the body lines of a hit yields nothing: the run continues after them, or stops at their error. */
  lemma {:induction false} RunOverBody(s: ParserState, hs: seq<HitLine>, lo: nat, hi: nat)
    requires lo <= hi <= |hs| && AllInHit(hs, lo, hi)
    ensures Run(s, hs, lo) == AfterBody(s, hs, lo, hi)
    decreases hi - lo
  {
    if lo < hi {
      assert InHit(hs[lo].kind);
      BodyLineRun(s, hs, lo);
      AfterBodyStep(s, hs, lo, hi);
      var r := Step(s, hs, lo);
      if r.next.Ok? {
        RunOverBody(r.next.value.0, hs, lo + 1, hi);
      }
    }
  }

  /** What a body line appends to track `t` when it is accepted. */
  function Contribution(h: HitLine, t: TrackId): string {
    match h.kind
    case TrackLine(u, Ok(v)) => if u == t then v else ""
    case QueryBlock(Some(c)) => if t == QuerySequence then c.letters else ""
    case TargetBlock(Some(c)) => if t == TargetSequence then c.letters else ""
    case _ => ""
  }

  /** The text the lines `lo` up to `hi` append to track `t`, in order. */
  function Contributions(hs: seq<HitLine>, lo: nat, hi: nat, t: TrackId): string
    requires lo <= hi <= |hs|
    decreases hi - lo
  {
    if lo == hi then "" else Contribution(hs[lo], t) + Contributions(hs, lo + 1, hi, t)
  }

  /** The start offset a block line carries, if its numbers read. */
  function StartOf(c: Cells): Option<int> {
    if c.span.Ok? then Some(c.span.value.start) else None
  }

  /** The start of the first query block line among `lo` up to `hi`. */
  function FirstQueryStart(hs: seq<HitLine>, lo: nat, hi: nat): Option<int>
    requires lo <= hi <= |hs|
    decreases hi - lo
  {
    if lo == hi then None
    else if hs[lo].kind.QueryBlock? && hs[lo].kind.cells.Some? then StartOf(hs[lo].kind.cells.value)
    else FirstQueryStart(hs, lo + 1, hi)
  }

  /** The start of the first target block line among `lo` up to `hi`. */
  function FirstTargetStart(hs: seq<HitLine>, lo: nat, hi: nat): Option<int>
    requires lo <= hi <= |hs|
    decreases hi - lo
  {
    if lo == hi then None
    else if hs[lo].kind.TargetBlock? && hs[lo].kind.cells.Some? then StartOf(hs[lo].kind.cells.value)
    else FirstTargetStart(hs, lo + 1, hi)
  }

  /** One accepted body line appends its contribution to every track. */
  lemma StepTracks(s: ParserState, hs: seq<HitLine>, pos: nat)
    requires pos < |hs| && InHit(hs[pos].kind) && Step(s, hs, pos).next.Ok?
    ensures var s' := Step(s, hs, pos).next.value.0;
      forall t :: TrackValue(s', t) == TrackValue(s, t) + Contribution(hs[pos], t)
  {
    forall t ensures TrackValue(Step(s, hs, pos).next.value.0, t) == TrackValue(s, t) + Contribution(hs[pos], t) {
      StepTrack(s, hs, pos, t);
    }
  }

  /** One accepted body line appends its contribution to track `t`. */
  lemma StepTrack(s: ParserState, hs: seq<HitLine>, pos: nat, t: TrackId)
    requires pos < |hs| && InHit(hs[pos].kind) && Step(s, hs, pos).next.Ok?
    ensures TrackValue(Step(s, hs, pos).next.value.0, t) == TrackValue(s, t) + Contribution(hs[pos], t)
  {
    if hs[pos].kind.Blank? {
      assert Step(s, hs, pos).next.value.0 == s;
    } else if hs[pos].kind.TrackLine? {
      TrackLineTrack(s, hs, pos, t);
    } else if hs[pos].kind.QueryBlock? {
      QueryBlockTrack(s, hs, pos, t);
    } else {
      TargetBlockTrack(s, hs, pos, t);
    }
  }

  /** An accepted track line, seen through the dispatch, appends to its track only. */
  lemma TrackLineTrack(s: ParserState, hs: seq<HitLine>, pos: nat, t: TrackId)
    requires pos < |hs| && hs[pos].kind.TrackLine? && Step(s, hs, pos).next.Ok?
    ensures TrackValue(Step(s, hs, pos).next.value.0, t) == TrackValue(s, t) + Contribution(hs[pos], t)
  {
    var k := hs[pos].kind;
    assert Step(s, hs, pos) == TrackStep(s, k.track, k.value, pos);
    TrackStepTrack(s, k.track, k.value, pos, t);
  }

  /** An accepted track line appends its value to its own track and leaves the others. */
  lemma TrackStepTrack(s: ParserState, u: TrackId, value: Parsed<string>, pos: nat, t: TrackId)
    requires TrackStep(s, u, value, pos).next.Ok?
    ensures TrackValue(TrackStep(s, u, value, pos).next.value.0, t) == TrackValue(s, t) + (if u == t then value.value else "")
  {
    if u != t {
      assert TrackValue(s, t) + "" == TrackValue(s, t);
    }
  }

  /** An accepted query block line appends its letters to the query sequence only. */
  lemma QueryBlockTrack(s: ParserState, hs: seq<HitLine>, pos: nat, t: TrackId)
    requires pos < |hs| && hs[pos].kind.QueryBlock? && Step(s, hs, pos).next.Ok?
    ensures TrackValue(Step(s, hs, pos).next.value.0, t) == TrackValue(s, t) + Contribution(hs[pos], t)
  {
    var h := hs[pos];
    assert Step(s, hs, pos) == QueryStep(s, h.kind.cells, h.text, pos);
  }

  /** An accepted target block line appends its letters to the target sequence only. */
  lemma TargetBlockTrack(s: ParserState, hs: seq<HitLine>, pos: nat, t: TrackId)
    requires pos < |hs| && hs[pos].kind.TargetBlock? && Step(s, hs, pos).next.Ok?
    ensures TrackValue(Step(s, hs, pos).next.value.0, t) == TrackValue(s, t) + Contribution(hs[pos], t)
  {
    var h := hs[pos];
    assert Step(s, hs, pos) == TargetStep(s, h.kind.cells, h.text, pos);
  }

  /** One accepted body line keeps the hit's own attributes, and sets a start only where none was set. */
  lemma StepKeepsHit(s: ParserState, hs: seq<HitLine>, pos: nat)
    requires pos < |hs| && InHit(hs[pos].kind) && Step(s, hs, pos).next.Ok?
    ensures var s' := Step(s, hs, pos).next.value.0;
      && s'.hmmName == s.hmmName && s'.hmmDescription == s.hmmDescription
      && s'.annotations == s.annotations && s'.counter == s.counter
      && s'.queryStart == (if s.queryStart.Some? then s.queryStart else FirstQueryStart(hs, pos, pos + 1))
      && s'.targetStart == (if s.targetStart.Some? then s.targetStart else FirstTargetStart(hs, pos, pos + 1))
  {
  }

  /** An accepted run of body lines starts with an accepted line, after which the rest is advanced. */
  lemma AdvanceStep(s: ParserState, hs: seq<HitLine>, lo: nat, hi: nat)
    requires lo < hi <= |hs| && AllInHit(hs, lo, hi) && Advance(s, hs, lo, hi).Ok?
    ensures Step(s, hs, lo).next.Ok? && AllInHit(hs, lo + 1, hi)
    ensures Advance(s, hs, lo, hi) == Advance(Step(s, hs, lo).next.value.0, hs, lo + 1, hi)
  {
  }

  /** The body lines of a hit append, to every track, exactly their contributions in order. */
  lemma AdvanceTracks(s: ParserState, hs: seq<HitLine>, lo: nat, hi: nat)
    requires lo <= hi <= |hs| && AllInHit(hs, lo, hi) && Advance(s, hs, lo, hi).Ok?
    ensures (var s' := Advance(s, hs, lo, hi).value;
      forall t :: TrackValue(s', t) == TrackValue(s, t) + Contributions(hs, lo, hi, t))
  {
    forall t ensures TrackValue(Advance(s, hs, lo, hi).value, t) == TrackValue(s, t) + Contributions(hs, lo, hi, t) {
      AdvanceTrack(s, hs, lo, hi, t);
    }
  }

  /** The body lines of a hit append to track `t` exactly their contributions to it, in order. */
  lemma {:induction false} AdvanceTrack(s: ParserState, hs: seq<HitLine>, lo: nat, hi: nat, t: TrackId)
    requires lo <= hi <= |hs| && AllInHit(hs, lo, hi) && Advance(s, hs, lo, hi).Ok?
    ensures TrackValue(Advance(s, hs, lo, hi).value, t) == TrackValue(s, t) + Contributions(hs, lo, hi, t)
    decreases hi - lo
  {
    if lo < hi {
      AdvanceStep(s, hs, lo, hi);
      var s1 := Step(s, hs, lo).next.value.0;
      StepTrack(s, hs, lo, t);
      AdvanceTrack(s1, hs, lo + 1, hi, t);
      ConcatAssoc(TrackValue(s, t), Contribution(hs[lo], t), Contributions(hs, lo + 1, hi, t));
    }
  }

  /**
   * The body lines of a hit keep its name, description, annotations and
   * counter; each start offset is the one already set, or else that of the
   * first block line of its sequence.
   */
  lemma {:induction false} AdvanceKeepsHit(s: ParserState, hs: seq<HitLine>, lo: nat, hi: nat)
    requires lo <= hi <= |hs| && AllInHit(hs, lo, hi) && Advance(s, hs, lo, hi).Ok?
    ensures (var s' := Advance(s, hs, lo, hi).value;
      && s'.hmmName == s.hmmName && s'.hmmDescription == s.hmmDescription
      && s'.annotations == s.annotations && s'.counter == s.counter
      && s'.queryStart == (if s.queryStart.Some? then s.queryStart else FirstQueryStart(hs, lo, hi))
      && s'.targetStart == (if s.targetStart.Some? then s.targetStart else FirstTargetStart(hs, lo, hi)))
    decreases hi - lo
  {
    if lo < hi {
      AdvanceStep(s, hs, lo, hi);
      var s1 := Step(s, hs, lo).next.value.0;
      StepKeepsHit(s, hs, lo);
      AdvanceKeepsHit(s1, hs, lo + 1, hi);
    }
  }

  /** Where a hit's body ends: at a 'No k' line, at a final 'Done!' line, or at the end of the stream. */
  predicate HitEnd(hs: seq<HitLine>, hi: nat) {
    hi == |hs| || (hi < |hs| && (hs[hi].kind.HitNumber? || (hs[hi].kind.Done? && hi + 1 == |hs|)))
  }

  /** Line `a` is a '>' line whose names were read, followed by an annotation line that was. */
  predicate StartsHit(hs: seq<HitLine>, a: nat) {
    a + 1 < |hs| && hs[a].kind.HitStart? && hs[a].kind.names.Some? && hs[a + 1].notes.Ok?
  }

  /** An accepted '>' line and the annotation line after it start a new hit two lines on. */
  lemma RunAtHitStart(s: ParserState, hs: seq<HitLine>, a: nat)
    requires StartsHit(hs, a)
    ensures Run(s, hs, a) ==
      Run(NewHit(s, hs[a].kind.names.value.0, hs[a].kind.names.value.1, hs[a + 1].notes.value), hs, a + 2)
  {
    var (name, description) := hs[a].kind.names.value;
    var r := Step(s, hs, a);
    assert r == Continue(NewHit(s, name, description, hs[a + 1].notes.value), a + 2);
  }

  /** Where a hit ends, the run yields that hit's record first, if it can be built. */
  lemma RunAtEnd(s: ParserState, hs: seq<HitLine>, hi: nat)
    requires hi <= |hs| && HitEnd(hs, hi)
    requires hi < |hs| && hs[hi].kind.HitNumber? ==> s.counter > 0
    ensures var o := Run(s, hs, hi);
      && (o.records != [] <==> Assemble(s).Ok?)
      && (o.records != [] ==> o.records[0] == Assemble(s).value)
  {
    if hi < |hs| {
      var r := Step(s, hs, hi);
      if hs[hi].kind.Done? {
        assert r == Continue(s, hi + 1);
        assert Run(s, hs, hi) == Prepend([], Run(s, hs, hi + 1));
      } else {
        assert r.emitted == if Assemble(s).Ok? then [Assemble(s).value] else [];
        assert Assemble(s).Err? ==> r.next.Err?;
      }
    }
  }

  /**
   * A hit that begins with a '>' line and its annotation line, followed by
   * body lines up to where the hit ends, yields its record first: built
   * from the attributes its own lines set (`HitFields`), exactly when those
   * attributes were all accepted and can be assembled (`YieldsHit`).
   */
  lemma HitRecord(s: ParserState, hs: seq<HitLine>, a: nat, hi: nat)
    requires a + 2 <= hi <= |hs| && HitEnd(hs, hi) && AllInHit(hs, a + 2, hi)
    requires StartsHit(hs, a)
    requires hi < |hs| && hs[hi].kind.HitNumber? ==> s.counter > 0
    ensures YieldsHit(Run(s, hs, a), Advance(Opening(s, hs, a), hs, a + 2, hi))
    ensures Advance(Opening(s, hs, a), hs, a + 2, hi).Ok? ==>
      HitFields(Advance(Opening(s, hs, a), hs, a + 2, hi).value, hs, a, hi)
  {
    RunYields(s, hs, a, hi);
    HitRecordFields(s, hs, a, hi);
  }

  /** The attributes right after an accepted '>' line and the annotation line that follows it. */
  function Opening(s: ParserState, hs: seq<HitLine>, a: nat): ParserState
    requires StartsHit(hs, a)
  {
    NewHit(s, hs[a].kind.names.value.0, hs[a].kind.names.value.1, hs[a + 1].notes.value)
  }

  /** What a run yields first: a record exactly when the hit's attributes were all set and it can be built, and then that record. */
  predicate YieldsHit(o: Outcome, h: Parsed<ParserState>) {
    && (o.records != [] <==> h.Ok? && Assemble(h.value).Ok?)
    && (o.records != [] ==> o.records[0] == Assemble(h.value).value)
  }

  /**
   * The attributes of the hit that starts at line `a` and ends at `hi`:
   * every track holds exactly what its body lines contribute, the starts
   * are those of its first block lines, and the name, description and
   * annotations are those of its '>' line and the line after it.
   */
  predicate HitFields(h: ParserState, hs: seq<HitLine>, a: nat, hi: nat)
    requires a + 2 <= hi <= |hs| && StartsHit(hs, a)
  {
    && (forall t :: TrackValue(h, t) == Contributions(hs, a + 2, hi, t))
    && h.hmmName == Some(hs[a].kind.names.value.0) && h.hmmDescription == hs[a].kind.names.value.1
    && h.annotations == hs[a + 1].notes.value
    && h.queryStart == FirstQueryStart(hs, a + 2, hi)
    && h.targetStart == FirstTargetStart(hs, a + 2, hi)
  }

  /** From a '>' line, the run goes through the annotation line and yields first what the hit's body lines build. */
  lemma RunYields(s: ParserState, hs: seq<HitLine>, a: nat, hi: nat)
    requires a + 2 <= hi <= |hs| && HitEnd(hs, hi) && AllInHit(hs, a + 2, hi)
    requires StartsHit(hs, a)
    requires hi < |hs| && hs[hi].kind.HitNumber? ==> s.counter > 0
    ensures YieldsHit(Run(s, hs, a), Advance(Opening(s, hs, a), hs, a + 2, hi))
  {
    BodyYields(Opening(s, hs, a), hs, a + 2, hi);
    RunAtHitStart(s, hs, a);
  }

  /** The attributes after a hit's body lines are its own: `HitFields` holds of them. */
  lemma HitRecordFields(s: ParserState, hs: seq<HitLine>, a: nat, hi: nat)
    requires a + 2 <= hi <= |hs| && AllInHit(hs, a + 2, hi)
    requires StartsHit(hs, a)
    ensures Advance(Opening(s, hs, a), hs, a + 2, hi).Ok? ==>
      HitFields(Advance(Opening(s, hs, a), hs, a + 2, hi).value, hs, a, hi)
  {
    var start := Opening(s, hs, a);
    if Advance(start, hs, a + 2, hi).Ok? {
      AdvanceTracks(start, hs, a + 2, hi);
      AdvanceKeepsHit(start, hs, a + 2, hi);
    }
  }

  /** From the first body line of a hit, the run yields first the record built from the attributes the body lines leave, if any. */
  lemma BodyYields(s: ParserState, hs: seq<HitLine>, lo: nat, hi: nat)
    requires lo <= hi <= |hs| && HitEnd(hs, hi) && AllInHit(hs, lo, hi)
    requires hi < |hs| && hs[hi].kind.HitNumber? ==> s.counter > 0
    ensures YieldsHit(Run(s, hs, lo), Advance(s, hs, lo, hi))
  {
    RunOverBody(s, hs, lo, hi);
    HitYield(s, hs, lo, hi);
  }

  /** After the body lines of a hit, the run yields first the record built from the attributes they leave, if any. */
  lemma HitYield(s: ParserState, hs: seq<HitLine>, lo: nat, hi: nat)
    requires lo <= hi <= |hs| && HitEnd(hs, hi) && AllInHit(hs, lo, hi)
    requires hi < |hs| && hs[hi].kind.HitNumber? ==> s.counter > 0
    ensures YieldsHit(AfterBody(s, hs, lo, hi), Advance(s, hs, lo, hi))
  {
    match Advance(s, hs, lo, hi)
    case Err(e) =>
    case Ok(h) =>
      AdvanceKeepsHit(s, hs, lo, hi);
      RunAtEnd(h, hs, hi);
  }
}
