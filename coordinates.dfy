/**
 * Coordinate inference for two column-aligned gapped strings, and the shift
 * of its rows by the start offsets of the aligned region.
 *
 * The source calls the library function `Alignment.infer_coordinates`; that
 * function is not part of this model's sources, and `InferCoordinates` is a
 * reference definition of the run-length construction it performs: a
 * breakpoint is recorded wherever the gap state of a column (which of the
 * two rows holds a letter) changes, columns where both rows hold a gap are
 * skipped, and the final offsets close the path.
 */
module Coordinates {
  import opened Wrappers
  import opened Text
  import opened HhrTypes

  const Gap: char := '-'

  /** Which rows of a column hold a letter: (target, query). */
  type GapState = (bool, bool)

  /** From `a` to `b` the path follows columns of state `st` only. */
  predicate Along(a: Point, b: Point, st: GapState) {
    var dt := b.target - a.target;
    var dq := b.query - a.query;
    dt >= 0 && dq >= 0 &&
    (if st.0 && st.1 then dt == dq
     else if st.0 then dq == 0
     else if st.1 then dt == 0
     else dt == 0 && dq == 0)
  }

  /** A segment of a coordinate path: a match run (equal steps), a deletion or an insertion. */
  predicate IsRun(a: Point, b: Point) {
    Along(a, b, (true, true)) || Along(a, b, (true, false)) || Along(a, b, (false, true))
  }

  predicate IsPath(ps: seq<Point>) {
    forall k :: 0 <= k < |ps| - 1 ==> IsRun(ps[k], ps[k + 1])
  }

  /** The number of letters (non-gap characters) in a gapped string. */
  function Letters(s: string): nat {
    |Remove(s, Gap)|
  }

  lemma LettersStep(s: string, i: nat)
    requires i < |s|
    ensures Letters(s[i..]) == (if s[i] == Gap then 0 else 1) + Letters(s[i + 1..])
  {
    assert s[i..][1..] == s[i + 1..];
  }

  /** The letters of `s[i..]`, counted by position. */
  function LettersFrom(s: string, i: nat): nat
    requires i <= |s|
    decreases |s| - i
  {
    if i == |s| then 0 else (if s[i] == Gap then 0 else 1) + LettersFrom(s, i + 1)
  }

  lemma {:induction false} LettersFromIsLetters(s: string, i: nat)
    requires i <= |s|
    ensures LettersFrom(s, i) == Letters(s[i..])
    decreases |s| - i
  {
    if i == |s| {
      assert s[i..] == [];
    } else {
      LettersStep(s, i);
      LettersFromIsLetters(s, i + 1);
    }
  }

  lemma AlongTrans(a: Point, b: Point, c: Point, st: GapState)
    requires Along(a, b, st) && Along(b, c, st)
    ensures Along(a, c, st)
  {
  }

  /**
   * The breakpoints from column `i` on, with the path currently at `at` and
   * the previous column in state `state` (`None` before the first column
   * that holds a letter).
   */
  function InferFrom(t: string, q: string, i: nat, at: Point, state: Option<GapState>): seq<Point>
    requires |t| == |q| && i <= |t|
    decreases |t| - i
  {
    if i == |t| then [at]
    else
      var st: GapState := (t[i] != Gap, q[i] != Gap);
      if !st.0 && !st.1 then InferFrom(t, q, i + 1, at, state)
      else
        var next := Point(at.target + (if st.0 then 1 else 0), at.query + (if st.1 then 1 else 0));
        if state == Some(st) then InferFrom(t, q, i + 1, next, Some(st))
        else [at] + InferFrom(t, q, i + 1, next, Some(st))
  }

  lemma ConsPath(a: Point, rest: seq<Point>)
    requires |rest| >= 1 && IsPath(rest) && IsRun(a, rest[0])
    ensures IsPath([a] + rest)
  {
    var r := [a] + rest;
    forall k | 0 <= k < |r| - 1 ensures IsRun(r[k], r[k + 1]) {
      if k > 0 {
        assert r[k] == rest[k - 1] && r[k + 1] == rest[k];
      }
    }
  }

  /** The path from column `i` on ends at the letters counted from `i`. */
  lemma {:induction false} InferFromEnd(t: string, q: string, i: nat, at: Point, state: Option<GapState>)
    requires |t| == |q| && i <= |t|
    ensures var r := InferFrom(t, q, i, at, state);
      |r| >= 1 && r[|r| - 1] == Point(at.target + LettersFrom(t, i), at.query + LettersFrom(q, i))
    decreases |t| - i
  {
    if i < |t| {
      var st: GapState := (t[i] != Gap, q[i] != Gap);
      if !st.0 && !st.1 {
        InferFromEnd(t, q, i + 1, at, state);
      } else {
        var next := Point(at.target + (if st.0 then 1 else 0), at.query + (if st.1 then 1 else 0));
        InferFromEnd(t, q, i + 1, next, Some(st));
        if state != Some(st) {
          var rest := InferFrom(t, q, i + 1, next, Some(st));
          assert ([at] + rest)[|rest|] == rest[|rest| - 1];
        }
      }
    }
  }

  /**
   * The path from column `i` on is a path, and it starts where the current
   * run (of state `state`) leads.
   */
  lemma {:induction false} InferFromPath(t: string, q: string, i: nat, at: Point, state: Option<GapState>)
    requires |t| == |q| && i <= |t|
    ensures var r := InferFrom(t, q, i, at, state);
      && |r| >= 1 && IsPath(r)
      && (state.None? ==> r[0] == at)
      && (state.Some? ==> Along(at, r[0], state.value))
    decreases |t| - i
  {
    if i < |t| {
      var st: GapState := (t[i] != Gap, q[i] != Gap);
      if !st.0 && !st.1 {
        InferFromPath(t, q, i + 1, at, state);
      } else {
        var next := Point(at.target + (if st.0 then 1 else 0), at.query + (if st.1 then 1 else 0));
        InferFromPath(t, q, i + 1, next, Some(st));
        var rest := InferFrom(t, q, i + 1, next, Some(st));
        AlongTrans(at, next, rest[0], st);
        if state == Some(st) {
          assert InferFrom(t, q, i, at, state) == rest;
        } else {
          assert InferFrom(t, q, i, at, state) == [at] + rest;
          ConsPath(at, rest);
        }
      }
    }
  }

  /**
   * The coordinate path of two equal-length gapped strings: it starts at
   * (0, 0), ends at the two letter counts, and every segment is a match,
   * a deletion or an insertion.
   */
  function InferCoordinates(t: string, q: string): (r: seq<Point>)
    requires |t| == |q|
    ensures IsPath(r)
    ensures |t| > 0 ==> |r| >= 1 && r[0] == Point(0, 0)
    ensures |t| > 0 ==> r[|r| - 1] == Point(Letters(t), Letters(q))
  {
    if |t| == 0 then []
    else
      assert t[0..] == t && q[0..] == q;
      InferFromEnd(t, q, 0, Point(0, 0), None);
      LettersFromIsLetters(t, 0);
      LettersFromIsLetters(q, 0);
      InferFromPath(t, q, 0, Point(0, 0), None);
      InferFrom(t, q, 0, Point(0, 0), None)
  }

  /** `coordinates[0, :] += dt` and `coordinates[1, :] += dq`. */
  function Shift(ps: seq<Point>, dt: int, dq: int): (r: seq<Point>)
    ensures |r| == |ps|
    ensures forall k :: 0 <= k < |r| ==> r[k].target == ps[k].target + dt && r[k].query == ps[k].query + dq
  {
    seq(|ps|, k requires 0 <= k < |ps| => Point(ps[k].target + dt, ps[k].query + dq))
  }

  /** The path of two non-empty gapped strings, moved to start at (dt, dq): it starts there and ends the two letter counts further on. */
  lemma ShiftedPath(t: string, q: string, dt: int, dq: int)
    requires |t| == |q| > 0
    ensures var c := Shift(InferCoordinates(t, q), dt, dq);
      && |c| >= 1 && c[0] == Point(dt, dq) && c[|c| - 1] == Point(dt + Letters(t), dq + Letters(q))
      && IsPath(c)
  {
    ShiftKeepsPath(InferCoordinates(t, q), dt, dq);
  }

  /** Shifting both rows keeps every segment's kind, so the shifted path is still a path. */
  lemma ShiftKeepsPath(ps: seq<Point>, dt: int, dq: int)
    requires IsPath(ps)
    ensures IsPath(Shift(ps, dt, dq))
  {
    var r := Shift(ps, dt, dq);
    forall k | 0 <= k < |r| - 1 ensures IsRun(r[k], r[k + 1]) {
      assert IsRun(ps[k], ps[k + 1]);
    }
  }
}
