/**
 * The string operations of Python's `str` that the hhr reader relies on:
 * `strip`/`lstrip`/`rstrip`, `split()` on whitespace, `split(None, 1)`,
 * `rsplit(None, 1)`, `split(sep)`, `replace(c, "")`, `startswith`,
 * `endswith`, `" " * n` and `int(...)`.
 */
module Text {
  import opened Wrappers

  /** The characters for which Python's `str.isspace` holds; `split()` and `strip()` use exactly these. */
  predicate IsSpace(c: char) {
    c == ' ' || ('\t' <= c <= '\r') || ('\U{1C}' <= c <= '\U{1F}')
    || c == '\U{85}' || c == '\U{A0}' || c == '\U{1680}'
    || ('\U{2000}' <= c <= '\U{200A}') || c == '\U{2028}' || c == '\U{2029}'
    || c == '\U{202F}' || c == '\U{205F}' || c == '\U{3000}'
  }

  predicate NoSpace(s: string) {
    forall i :: 0 <= i < |s| ==> !IsSpace(s[i])
  }

  predicate AllSpace(s: string) {
    forall i :: 0 <= i < |s| ==> IsSpace(s[i])
  }

  /** Every character of an all-blank prefix `s[..n]` is a blank. */
  lemma SpaceInPrefix(s: string, n: nat, k: nat)
    requires n <= |s| && AllSpace(s[..n])
    ensures k < n ==> IsSpace(s[k])
  {
    if k < n {
      assert s[..n][k] == s[k];
    }
  }

  /** Every character of an all-blank suffix `s[n..]` is a blank. */
  lemma SpaceInSuffix(s: string, n: nat, k: nat)
    requires n <= |s| && AllSpace(s[n..])
    ensures n <= k < |s| ==> IsSpace(s[k])
  {
    if n <= k < |s| {
      assert s[n..][k - n] == s[k];
    }
  }

  /** Python's `s.lstrip()`: the suffix of `s` left after its leading whitespace. */
  function LStrip(s: string): (r: string)
    ensures |r| <= |s|
    ensures |r| < |s| ==> r == s[|s| - |r|..]
    ensures |r| == |s| ==> r == s
    ensures AllSpace(s[..|s| - |r|])
    ensures r == [] || !IsSpace(r[0])
    decreases |s|
  {
    if s == [] || !IsSpace(s[0]) then s else LStrip(s[1..])
  }

  /** Python's `s.rstrip()`: the prefix of `s` left after its trailing whitespace. */
  function RStrip(s: string): (r: string)
    ensures |r| <= |s|
    ensures |r| < |s| ==> r == s[..|r|]
    ensures |r| == |s| ==> r == s
    ensures AllSpace(s[|r|..])
    ensures r == [] || !IsSpace(r[|r| - 1])
    ensures s != [] && !IsSpace(s[0]) ==> r != [] && r[0] == s[0]
    decreases |s|
  {
    if s == [] || !IsSpace(s[|s| - 1]) then s
    else
      var r := RStrip(s[..|s| - 1]);
      assert s[|r|..] == s[..|s| - 1][|r|..] + [s[|s| - 1]];
      r
  }

  /** The number of whitespace characters `s` starts with. */
  function Lead(s: string): (k: nat)
    ensures k <= |s| && AllSpace(s[..k])
    ensures k == |s| || !IsSpace(s[k])
    decreases |s|
  {
    if s == [] || !IsSpace(s[0]) then 0
    else
      var k := 1 + Lead(s[1..]);
      assert s[..k] == [s[0]] + s[1..][..k - 1];
      k
  }

  /** Where the whitespace `s` ends with begins. */
  function Trail(s: string): (k: nat)
    ensures k <= |s| && AllSpace(s[k..])
    ensures k == 0 || !IsSpace(s[k - 1])
    decreases |s|
  {
    if s == [] || !IsSpace(s[|s| - 1]) then |s|
    else
      var k := Trail(s[..|s| - 1]);
      assert s[k..] == s[..|s| - 1][k..] + [s[|s| - 1]];
      k
  }

  /**
   * Python's `s.strip()`: the middle of `s` between its leading and its
   * trailing whitespace.
   */
  function Strip(s: string): (r: string)
    ensures r == [] <==> AllSpace(s)
    ensures r == [] || (!IsSpace(r[0]) && !IsSpace(r[|r| - 1]))
    ensures Lead(s) + |r| <= |s| && r == s[Lead(s)..Lead(s) + |r|] && AllSpace(s[Lead(s) + |r|..])
  {
    var i, j := Lead(s), Trail(s);
    if j <= i then
      forall k | 0 <= k < |s| ensures IsSpace(s[k]) {
        SpaceInPrefix(s, i, k);
        SpaceInSuffix(s, j, k);
      }
      []
    else
      assert s[j..] == s[i..][j - i..];
      s[i..j]
  }

  /** The longest whitespace-free prefix of `s`. */
  function Word(s: string): (w: string)
    ensures |w| <= |s| && w == s[..|w|] && NoSpace(w)
    ensures |w| == |s| || IsSpace(s[|w|])
    ensures s != [] && !IsSpace(s[0]) ==> w != []
    decreases |s|
  {
    if s == [] || IsSpace(s[0]) then [] else [s[0]] + Word(s[1..])
  }

  /** The longest whitespace-free suffix of `s`. */
  function RWord(s: string): (w: string)
    ensures |w| <= |s| && NoSpace(w)
    ensures |w| < |s| ==> w == s[|s| - |w|..]
    ensures |w| == |s| ==> w == s
    ensures |w| == |s| || IsSpace(s[|s| - |w| - 1])
    ensures s != [] && !IsSpace(s[|s| - 1]) ==> w != []
    decreases |s|
  {
    if s == [] || IsSpace(s[|s| - 1]) then [] else RWord(s[..|s| - 1]) + [s[|s| - 1]]
  }

  /** A non-empty whitespace-free token. */
  predicate IsWord(w: string) {
    w != [] && NoSpace(w)
  }

  /** Python's `s.split()`: the maximal whitespace-free runs of `s`, in order. */
  function Split(s: string): (r: seq<string>)
    ensures forall k :: 0 <= k < |r| ==> IsWord(r[k])
    ensures r == [] <==> LStrip(s) == []
    decreases |s|
  {
    var t := LStrip(s);
    if t == [] then []
    else
      var w := Word(t);
      var rest := Split(t[|w|..]);
      ConsWords(w, rest);
      [w] + rest
  }

  lemma ConsWords(w: string, rest: seq<string>)
    requires IsWord(w) && forall k :: 0 <= k < |rest| ==> IsWord(rest[k])
    ensures forall k :: 0 <= k < |[w] + rest| ==> IsWord(([w] + rest)[k])
  {
    forall k | 0 <= k < |[w] + rest| ensures IsWord(([w] + rest)[k]) {
      if k > 0 {
        assert ([w] + rest)[k] == rest[k - 1];
      }
    }
  }

  /** Leading whitespace never reaches `lstrip`'s result. */
  lemma {:induction false} LStripSpacePrefix(p: string, b: string)
    requires AllSpace(p)
    ensures LStrip(p + b) == LStrip(b)
    decreases |p|
  {
    if p == [] {
      assert p + b == b;
    } else {
      assert (p + b)[0] == p[0] && (p + b)[1..] == p[1..] + b;
      LStripSpacePrefix(p[1..], b);
    }
  }

  lemma {:induction false} WordOfNoSpace(w: string)
    requires NoSpace(w)
    ensures Word(w) == w
    decreases |w|
  {
    if w != [] {
      WordOfNoSpace(w[1..]);
    }
  }

  /** The first word of `t` is also the first word of `t + x` once it is followed by whitespace or ends `t + x`. */
  lemma {:induction false} WordConcat(t: string, x: string)
    requires |Word(t)| < |t| || x == [] || IsSpace(x[0])
    ensures Word(t + x) == Word(t)
    decreases |t|
  {
    if t == [] {
      assert t + x == x;
    } else if !IsSpace(t[0]) {
      assert (t + x)[0] == t[0] && (t + x)[1..] == t[1..] + x;
      WordConcat(t[1..], x);
    } else {
      assert (t + x)[0] == t[0];
    }
  }

  /** A single word splits into itself. */
  lemma SplitWord(w: string)
    requires IsWord(w)
    ensures Split(w) == [w]
  {
    WordOfNoSpace(w);
    assert w[|w|..] == [];
  }

  /** Whitespace alone splits into nothing. */
  lemma SplitSpace(sp: string)
    requires AllSpace(sp)
    ensures Split(sp) == []
  {
    LStripSpacePrefix(sp, []);
    assert sp + [] == sp;
  }

  /** A run of whitespace separates: the words on its two sides are split independently. */
  lemma {:induction false} SplitConcat(a: string, sp: string, b: string)
    requires sp != [] && AllSpace(sp)
    ensures Split(a + sp + b) == Split(a) + Split(b)
    decreases |a|
  {
    var x := a + sp + b;
    ConcatAssoc(a, sp, b);
    var t := LStrip(a);
    if t == [] {
      LStripEmptyConcat(a, sp + b);
      LStripSpacePrefix(sp, b);
      SplitIgnoresLeadingSpace(x);
      SplitIgnoresLeadingSpace(b);
    } else {
      var w := Word(t);
      LStripConcat(a, sp + b);
      WordConcat(t, sp + b);
      SplitStep(x);
      DropAppend(t, sp + b, |w|);
      ConcatAssoc(t[|w|..], sp, b);
      SplitConcat(t[|w|..], sp, b);
      SplitStep(a);
      ConcatAssoc([w], Split(t[|w|..]), Split(b));
    }
  }

  /** `split()` takes the first word, then splits what follows it. */
  lemma SplitStep(s: string)
    requires LStrip(s) != []
    ensures Split(s) == [Word(LStrip(s))] + Split(LStrip(s)[|Word(LStrip(s))|..])
  {
  }

  lemma {:induction false} LStripConcat(a: string, c: string)
    requires LStrip(a) != []
    ensures LStrip(a + c) == LStrip(a) + c
    decreases |a|
  {
    assert (a + c)[0] == a[0];
    if !IsSpace(a[0]) {
      assert LStrip(a) == a;
    } else {
      assert (a + c)[1..] == a[1..] + c;
      LStripConcat(a[1..], c);
    }
  }

  lemma {:induction false} LStripEmptyConcat(a: string, c: string)
    requires LStrip(a) == []
    ensures LStrip(a + c) == LStrip(c)
    decreases |a|
  {
    if a == [] {
      assert a + c == c;
    } else {
      assert (a + c)[0] == a[0] && (a + c)[1..] == a[1..] + c;
      LStripEmptyConcat(a[1..], c);
    }
  }

  lemma DropAppend<T>(p: seq<T>, q: seq<T>, n: nat)
    requires n <= |p|
    ensures (p + q)[n..] == p[n..] + q
  {
  }

  lemma ConcatAssoc<T>(p: seq<T>, q: seq<T>, r: seq<T>)
    ensures p + (q + r) == (p + q) + r
  {
  }

  /** `split()` undoes joining words with single blanks. */
  lemma {:induction false} SplitJoin(ws: seq<string>)
    requires |ws| >= 1 && forall k :: 0 <= k < |ws| ==> IsWord(ws[k])
    ensures Split(Join(ws, " ")) == ws
    decreases |ws|
  {
    if |ws| == 1 {
      SplitWord(ws[0]);
    } else {
      WordsTail(ws);
      SplitJoin(ws[1..]);
      SplitJoinCons(ws[0], Join(ws[1..], " "), ws[1..]);
      ConsTail(ws);
    }
  }

  /** A non-empty sequence is its first element followed by the rest. */
  lemma ConsTail<T>(s: seq<T>)
    requires |s| >= 1
    ensures [s[0]] + s[1..] == s
  {
  }

  /** The words after the first of a list of words are words. */
  lemma WordsTail(ws: seq<string>)
    requires |ws| >= 1 && forall k :: 0 <= k < |ws| ==> IsWord(ws[k])
    ensures forall k :: 0 <= k < |ws[1..]| ==> IsWord(ws[1..][k])
  {
    forall k | 0 <= k < |ws[1..]|
      ensures IsWord(ws[1..][k])
    {
      assert ws[1..][k] == ws[k + 1];
    }
  }

  /** A word, a blank and a string that splits into `more` split into that word followed by `more`. */
  lemma SplitJoinCons(w: string, rest: string, more: seq<string>)
    requires IsWord(w) && Split(rest) == more
    ensures Split(w + " " + rest) == [w] + more
  {
    SplitWord(w);
    assert AllSpace(" ");
    SplitConcat(w, " ", rest);
  }

  lemma LStripIdempotent(s: string)
    ensures LStrip(LStrip(s)) == LStrip(s)
  {
  }

  lemma SplitIgnoresLeadingSpace(s: string)
    ensures Split(LStrip(s)) == Split(s)
  {
    LStripIdempotent(s);
  }

  /**
   * Python's `s.split(None, 1)` when it yields two parts: the first word and
   * the rest of `s` after the whitespace that follows it (trailing whitespace
   * kept). `None` when `s` has fewer than two words, where the source's
   * `a, b = s.split(None, 1)` raises.
   */
  function SplitOnce(s: string): (r: Option<(string, string)>)
    ensures r.Some? ==> r.value.0 != [] && NoSpace(r.value.0)
    ensures r.Some? ==> r.value.1 != [] && !IsSpace(r.value.1[0])
    ensures r.Some? ==> SplitOnceShape(s, r.value.0, r.value.1)
  {
    var t := LStrip(s);
    if t == [] then None
    else
      var w := Word(t);
      var rest := LStrip(t[|w|..]);
      if rest == [] then None
      else
        SplitOnceParts(s);
        Some((w, rest))
  }

  /**
   * `s` is its leading whitespace, then `first`, then a non-empty run of
   * whitespace, then `rest` up to the end of `s`.
   */
  predicate SplitOnceShape(s: string, first: string, rest: string) {
    var i := Lead(s) + |first|;
    && i < |s| - |rest|
    && s[Lead(s)..i] == first
    && AllSpace(s[i..|s| - |rest|])
    && EndsWith(s, rest)
  }

  /** `Lead(s)` is the one place where an all-blank prefix meets a non-blank character or the end. */
  lemma LeadUnique(s: string, k: nat)
    requires k <= |s| && AllSpace(s[..k]) && (k == |s| || !IsSpace(s[k]))
    ensures Lead(s) == k
  {
    var l := Lead(s);
    SpaceInPrefix(s, k, l);
    SpaceInPrefix(s, l, k);
  }

  /** The two parts `split(None, 1)` cuts `s` into, where its rest is not empty. */
  lemma SplitOnceParts(s: string)
    requires LStrip(s) != []
    requires LStrip(LStrip(s)[|Word(LStrip(s))|..]) != []
    ensures var t := LStrip(s); var w := Word(t);
      SplitOnceShape(s, w, LStrip(t[|w|..]))
  {
    var t := LStrip(s);
    LStripSplits(s);
    var lead := s[..|s| - |t|];
    LeadUnique(s, |lead|);
    var w := Word(t);
    var rest := LStrip(t[|w|..]);
    var sp := WordGap(t);
    ConcatFour(lead, w, sp, rest);
    ShapeOfParts(s, lead, w, sp, rest);
  }

  /** The blanks between the first word of `t` and the rest `split(None, 1)` keeps. */
  lemma WordGap(t: string) returns (sp: string)
    requires t != [] && !IsSpace(t[0])
    requires LStrip(t[|Word(t)|..]) != []
    ensures sp != [] && AllSpace(sp)
    ensures t == Word(t) + (sp + LStrip(t[|Word(t)|..]))
  {
    var w := Word(t);
    var u := t[|w|..];
    var rest := LStrip(u);
    LStripSplits(u);
    sp := u[..|u| - |rest|];
    assert |w| < |t| && u[0] == t[|w|];
    assert t == w + u;
  }

  /** `s` is its leading blanks followed by `lstrip(s)`. */
  lemma LStripSplits(s: string)
    ensures s == s[..|s| - |LStrip(s)|] + LStrip(s)
  {
    var r := LStrip(s);
    if |r| == |s| {
      assert s[..0] == [];
    }
  }

  /** Four pieces concatenate the same way whichever way they are grouped. */
  lemma ConcatFour<T>(a: seq<T>, b: seq<T>, c: seq<T>, d: seq<T>)
    ensures a + (b + (c + d)) == a + b + c + d
  {
  }

  /** Leading blanks, a word, a blank run and a rest laid end to end have the shape of `split(None, 1)`. */
  lemma ShapeOfParts(s: string, lead: string, w: string, sp: string, rest: string)
    requires s == lead + w + sp + rest && Lead(s) == |lead|
    requires sp != [] && AllSpace(sp)
    ensures SplitOnceShape(s, w, rest)
  {
    var d, i := |lead|, |lead| + |w|;
    assert s[d..i] == w;
    assert s[i..|s| - |rest|] == sp;
    assert s[|s| - |rest|..] == rest;
  }

  /** `split(None, 1)` agrees with `split()`: two parts exactly when there are two words, the first word, then the rest's words. */
  lemma SplitOnceSplits(s: string)
    ensures SplitOnce(s).Some? <==> |Split(s)| >= 2
    ensures SplitOnce(s).Some? ==> SplitOnce(s).value.0 == Split(s)[0] && Split(SplitOnce(s).value.1) == Split(s)[1..]
  {
    var t := LStrip(s);
    if t != [] {
      SplitIgnoresLeadingSpace(t[|Word(t)|..]);
    }
  }

  /**
   * Python's `s.rsplit(None, 1)` when it yields two parts: everything before
   * the last word (trailing whitespace removed) and the last word. `None`
   * when the stripped text holds no whitespace, that is, at most one word.
   */
  function RSplitOnce(s: string): (r: Option<(string, string)>)
    ensures r.None? <==> NoSpace(LStrip(RStrip(s)))
    ensures r.Some? ==> RSplitShape(RStrip(s), r.value.0, r.value.1)
  {
    var t := RStrip(s);
    if t == [] then None
    else
      var w := RWord(t);
      var before := t[..|t| - |w|];
      var rest := RStrip(before);
      if rest == [] then
        RSplitNone(t);
        None
      else
        RSplitParts(t);
        Some((rest, w))
  }

  /**
   * `t` is `head`, then a non-empty run of whitespace, then the word `last`;
   * `head` neither starts the run nor ends in a blank.
   */
  predicate RSplitShape(t: string, head: string, last: string) {
    && head != [] && !IsSpace(head[|head| - 1])
    && last != [] && NoSpace(last)
    && |head| + |last| < |t|
    && StartsWith(t, head) && EndsWith(t, last)
    && AllSpace(t[|head|..|t| - |last|])
    && IsSpace(t[|t| - |last| - 1])
  }

  /** The two parts `rsplit(None, 1)` cuts a right-stripped text into. */
  lemma RSplitParts(t: string)
    requires t != [] && !IsSpace(t[|t| - 1])
    requires RStrip(t[..|t| - |RWord(t)|]) != []
    ensures var w := RWord(t); RSplitShape(t, RStrip(t[..|t| - |w|]), w)
    ensures !NoSpace(LStrip(t))
  {
    var w := RWord(t);
    var before := t[..|t| - |w|];
    var rest := RStrip(before);
    assert t == before + w;
    assert t[..|rest|] == rest;
    assert t[|rest|..|t| - |w|] == before[|rest|..];
    InnerSpace(t, |rest| - 1, |t| - |w| - 1);
  }

  /** A right-stripped text whose part before its last word is all blanks holds one word. */
  lemma RSplitNone(t: string)
    requires t != [] && RStrip(t[..|t| - |RWord(t)|]) == []
    ensures NoSpace(LStrip(t))
  {
    var w := RWord(t);
    var before := t[..|t| - |w|];
    assert t == before + w;
    SpaceThenWord(before, w);
  }

  /** Whitespace followed by one word strips to that word alone. */
  lemma SpaceThenWord(p: string, w: string)
    requires AllSpace(p) && NoSpace(w)
    ensures NoSpace(LStrip(p + w))
  {
    LStripSpacePrefix(p, w);
    assert w == [] || !IsSpace(w[0]);
  }

  /** A blank after a non-blank character survives `lstrip`. */
  lemma InnerSpace(t: string, i: nat, j: nat)
    requires i < j < |t| && !IsSpace(t[i]) && IsSpace(t[j])
    ensures !NoSpace(LStrip(t))
  {
    var l := LStrip(t);
    LStripSplits(t);
    SpaceSurvives(t[..|t| - |l|], l, i, j);
  }

  /** A blank after a non-blank character of `p + l` lies in `l` when `p` is all blanks. */
  lemma SpaceSurvives(p: string, l: string, i: nat, j: nat)
    requires AllSpace(p) && i < j < |p| + |l|
    requires !IsSpace((p + l)[i]) && IsSpace((p + l)[j])
    ensures !NoSpace(l)
  {
    SpaceInFront(p, l, i);
    assert (p + l)[j] == l[j - |p|];
  }

  /** Every character of `p + l` within an all-blank `p` is a blank. */
  lemma SpaceInFront(p: string, l: string, k: nat)
    requires AllSpace(p)
    ensures k < |p| ==> IsSpace((p + l)[k])
  {
    if k < |p| {
      assert (p + l)[k] == p[k];
    }
  }

  predicate StartsWith(s: string, prefix: string) {
    |prefix| <= |s| && s[..|prefix|] == prefix
  }

  predicate EndsWith(s: string, suffix: string) {
    |suffix| <= |s| && s[|s| - |suffix|..] == suffix
  }

  /** Python's `s[:n]` for `n >= 0`. */
  function Take(s: string, n: nat): (r: string)
    ensures |r| == if |s| < n then |s| else n
    ensures r == s[..|r|]
  {
    if |s| < n then s else s[..n]
  }

  /** `sep` occurs in `s` at index `i`. */
  predicate OccursAt(s: string, sep: string, i: int) {
    0 <= i && i + |sep| <= |s| && s[i..i + |sep|] == sep
  }

  ghost predicate Contains(s: string, sep: string) {
    exists i :: OccursAt(s, sep, i)
  }

  /** The first index at or after `from` where `sep` occurs in `s`. */
  function Find(s: string, sep: string, from: nat): (r: Option<nat>)
    requires from <= |s|
    ensures r.Some? ==> from <= r.value && OccursAt(s, sep, r.value)
    ensures r.Some? ==> forall j :: from <= j < r.value ==> !OccursAt(s, sep, j)
    ensures r.None? ==> forall j :: from <= j ==> !OccursAt(s, sep, j)
    decreases |s| - from
  {
    if from + |sep| > |s| then None
    else if s[from..from + |sep|] == sep then Some(from)
    else Find(s, sep, from + 1)
  }

  /** The inverse of `SplitOn`: the parts with `sep` between consecutive ones. */
  function Join(parts: seq<string>, sep: string): string
    requires |parts| >= 1
  {
    if |parts| == 1 then parts[0] else parts[0] + sep + Join(parts[1..], sep)
  }

  lemma NoOccurrenceInPrefix(s: string, sep: string, i: nat)
    requires sep != [] && i <= |s|
    requires forall j :: 0 <= j < i ==> !OccursAt(s, sep, j)
    ensures !Contains(s[..i], sep)
  {
    forall j | OccursAt(s[..i], sep, j)
      ensures false
    {
      assert s[..i][j..j + |sep|] == s[j..j + |sep|];
      assert OccursAt(s, sep, j);
    }
  }

  /**
   * Python's `s.split(sep)`: the pieces of `s` between the non-overlapping
   * occurrences of `sep`, found from the left.
   */
  function SplitOn(s: string, sep: string): (r: seq<string>)
    requires sep != []
    ensures |r| >= 1
    decreases |s|
  {
    match Find(s, sep, 0)
    case None => [s]
    case Some(i) => [s[..i]] + SplitOn(s[i + |sep|..], sep)
  }

  /** `split(sep)` loses nothing and keeps no separator: joining the pieces with `sep` gives `s` back. */
  lemma {:induction false} SplitOnJoins(s: string, sep: string)
    requires sep != []
    ensures Join(SplitOn(s, sep), sep) == s
    ensures forall k :: 0 <= k < |SplitOn(s, sep)| ==> !Contains(SplitOn(s, sep)[k], sep)
    decreases |s|
  {
    var r := SplitOn(s, sep);
    match Find(s, sep, 0)
    case None =>
      assert r == [s];
    case Some(i) =>
      NoOccurrenceInPrefix(s, sep, i);
      var tail := s[i + |sep|..];
      var rest := SplitOn(tail, sep);
      SplitOnJoins(tail, sep);
      assert r == [s[..i]] + rest;
      assert r[1..] == rest;
      assert Join(r, sep) == s[..i] + sep + Join(rest, sep);
      assert s == s[..i] + sep + tail;
      forall k | 0 <= k < |r|
        ensures !Contains(r[k], sep)
      {
        if k > 0 {
          assert r[k] == rest[k - 1];
        }
      }
  }

  /** When `split(sep)` gives two pieces, `s` is the first, `sep`, then the second, and the first holds no `sep`. */
  lemma SplitOnTwo(s: string, sep: string)
    requires sep != [] && |SplitOn(s, sep)| == 2
    ensures s == SplitOn(s, sep)[0] + sep + SplitOn(s, sep)[1]
    ensures !Contains(SplitOn(s, sep)[0], sep)
  {
    SplitOnJoins(s, sep);
    var parts := SplitOn(s, sep);
    assert parts[1..] == [parts[1]];
    assert Join(parts, sep) == parts[0] + sep + Join(parts[1..], sep);
  }

  /** The number of occurrences of `c` in `s`. */
  function Count(s: string, c: char): nat {
    if s == [] then 0 else (if s[0] == c then 1 else 0) + Count(s[1..], c)
  }

  lemma {:induction false} CountConcat(a: string, b: string, c: char)
    ensures Count(a + b, c) == Count(a, c) + Count(b, c)
    decreases |a|
  {
    if a != [] {
      assert (a + b)[1..] == a[1..] + b;
      assert Count(a + b, c) == (if a[0] == c then 1 else 0) + Count(a[1..] + b, c);
      CountConcat(a[1..], b, c);
    } else {
      assert a + b == b;
    }
  }

  lemma {:induction false} CountZero(s: string, c: char)
    ensures Count(s, c) == 0 <==> c !in s
    decreases |s|
  {
    if s != [] {
      CountZero(s[1..], c);
      assert c in s <==> s[0] == c || c in s[1..];
    }
  }

  /** A one-character separator splits `s` into one more piece than it has occurrences. */
  lemma {:induction false} SplitOnCharCount(s: string, c: char)
    ensures |SplitOn(s, [c])| == Count(s, c) + 1
    decreases |s|
  {
    match Find(s, [c], 0)
    case None =>
      forall j | 0 <= j < |s| ensures s[j] != c {
        assert !OccursAt(s, [c], j);
        assert s[j..j + 1] == [s[j]];
      }
      CountZero(s, c);
    case Some(i) =>
      forall j | 0 <= j < i ensures s[j] != c {
        assert !OccursAt(s, [c], j);
        assert s[j..j + 1] == [s[j]];
      }
      CountZero(s[..i], c);
      assert s[i..i + 1] == [c];
      assert s == s[..i] + ([c] + s[i + 1..]);
      assert Count([c], c) == 1 by { assert [c][1..] == []; }
      CountConcat(s[..i], [c] + s[i + 1..], c);
      CountConcat([c], s[i + 1..], c);
      assert Count(s, c) == Count(s[i + 1..], c) + 1;
      SplitOnCharCount(s[i + 1..], c);
      assert SplitOn(s, [c]) == [s[..i]] + SplitOn(s[i + 1..], [c]);
  }

  /** Python's `s.replace(c, "")`: `s` with every `c` taken out, order kept. */
  function Remove(s: string, c: char): (r: string)
    ensures c !in r
    ensures |r| + Count(s, c) == |s|
    ensures c !in s ==> r == s
  {
    if s == [] then []
    else if s[0] == c then Remove(s[1..], c)
    else [s[0]] + Remove(s[1..], c)
  }

  /** Removing a character distributes over concatenation, so stripping the blocks of a track one by one or the whole track at once agree. */
  lemma {:induction false} RemoveConcat(a: string, b: string, c: char)
    ensures Remove(a + b, c) == Remove(a, c) + Remove(b, c)
    decreases |a|
  {
    if a != [] {
      var head := if a[0] == c then [] else [a[0]];
      assert (a + b)[0] == a[0] && (a + b)[1..] == a[1..] + b;
      assert Remove(a + b, c) == head + Remove(a[1..] + b, c);
      RemoveConcat(a[1..], b, c);
      assert Remove(a, c) == head + Remove(a[1..], c);
    } else {
      assert a + b == b;
    }
  }

  /** Python's `s.rstrip(c)` for a one-character argument. */
  function RStripChar(s: string, c: char): (r: string)
    ensures |r| <= |s| && r == s[..|r|]
    ensures r == [] || r[|r| - 1] != c
    ensures forall i :: |r| <= i < |s| ==> s[i] == c
    decreases |s|
  {
    if s != [] && s[|s| - 1] == c then RStripChar(s[..|s| - 1], c) else s
  }

  /** Python's `" " * n`, empty when `n <= 0`. */
  function Spaces(n: int): (r: string)
    ensures |r| == if n <= 0 then 0 else n
    ensures forall i :: 0 <= i < |r| ==> r[i] == ' '
    decreases n
  {
    if n <= 0 then [] else [' '] + Spaces(n - 1)
  }

  predicate IsDigit(c: char) {
    '0' <= c <= '9'
  }

  predicate AllDigits(s: string) {
    forall i :: 0 <= i < |s| ==> IsDigit(s[i])
  }

  /** The decimal value of a digit string, most significant digit first. */
  function DigitsValue(s: string): nat
    requires AllDigits(s)
  {
    if s == [] then 0
    else DigitsValue(s[..|s| - 1]) * 10 + ((s[|s| - 1] as int) - ('0' as int))
  }

  function ParseNat(s: string): (r: Option<int>)
    ensures r.Some? ==> r.value >= 0
    ensures r.Some? <==> s != [] && AllDigits(s)
    ensures r.Some? ==> r.value == DigitsValue(s)
  {
    if s != [] && AllDigits(s) then Some(DigitsValue(s)) else None
  }

  /**
   * Python's `int(s)` on a string: surrounding whitespace is ignored, an
   * optional sign, then one or more decimal digits. `None` where `int`
   * raises ValueError.
   */
  function ParseInt(s: string): (r: Option<int>)
    ensures var t := Strip(s);
      r.Some? <==> t != [] && (AllDigits(t) || ((t[0] == '-' || t[0] == '+') && |t| >= 2 && AllDigits(t[1..])))
    ensures AllDigits(Strip(s)) && r.Some? ==> r.value == DigitsValue(Strip(s))
    ensures r.Some? && Strip(s)[0] == '-' ==> r.value + DigitsValue(Strip(s)[1..]) == 0
    ensures r.Some? && Strip(s)[0] == '+' ==> r.value == DigitsValue(Strip(s)[1..])
  {
    var t := Strip(s);
    if t != [] && (t[0] == '-' || t[0] == '+') then
      match ParseNat(t[1..])
      case None => None
      case Some(n) => if t[0] == '-' then Some(-n) else Some(n)
    else ParseNat(t)
  }

  /** The decimal digits of `n`, the way Python's `str(n)` writes them. */
  function FormatNat(n: nat): (s: string)
    ensures s != [] && AllDigits(s)
    decreases n
  {
    if n < 10 then [(('0' as int) + n) as char]
    else FormatNat(n / 10) + [(('0' as int) + n % 10) as char]
  }

  lemma {:induction false} DigitsOfFormat(n: nat)
    ensures DigitsValue(FormatNat(n)) == n
    decreases n
  {
    var s := FormatNat(n);
    if n >= 10 {
      DigitsOfFormat(n / 10);
      assert s[..|s| - 1] == FormatNat(n / 10);
    }
  }

  /** `int` reads back what `str` writes for every natural number. */
  lemma ParseFormatRoundTrip(n: nat)
    ensures ParseInt(FormatNat(n)) == Some(n)
  {
    var s := FormatNat(n);
    assert !IsSpace(s[0]) && !IsSpace(s[|s| - 1]);
    assert Lead(s) == 0 && Trail(s) == |s|;
    assert Strip(s) == s[0..|s|] == s;
    DigitsOfFormat(n);
  }
}
