/** The LaTeX scanners of apps/web/src/lib/math-utils.ts on texts with any
    number of expressions. The scanners only ever look forward, so a text
    in front of the scanned part changes nothing; a text is then read one
    expression at a time. */
module MathSpans {
  import opened Wrappers
  import opened MathText

  // ---------------------------------------------------------------------
  // Scanning past a prefix

  lemma {:induction false} NextDollarShift(p: string, r: string, j: nat)
    requires j <= |r|
    ensures NextDollar(p + r, |p| + j) == (if NextDollar(r, j).Some? then Some(|p| + NextDollar(r, j).value) else None)
    decreases |r| - j
  {
    if j < |r| {
      assert (p + r)[|p| + j] == r[j];
      NextDollarShift(p, r, j + 1);
    }
  }

  lemma DoubleAtShift(p: string, r: string, j: nat)
    ensures DoubleAt(p + r, |p| + j) == DoubleAt(r, j)
  {
    if j + 1 < |r| {
      assert (p + r)[|p| + j] == r[j] && (p + r)[|p| + j + 1] == r[j + 1];
    }
  }

  lemma {:induction false} NextDoubleShift(p: string, r: string, j: nat)
    requires j <= |r|
    ensures NextDouble(p + r, |p| + j) == (if NextDouble(r, j).Some? then Some(|p| + NextDouble(r, j).value) else None)
    decreases |r| - j
  {
    if j < |r| {
      DoubleAtShift(p, r, j);
      NextDoubleShift(p, r, j + 1);
    }
  }

  lemma SliceShift(p: string, r: string, j: nat, e: nat)
    requires j <= e <= |r|
    ensures (p + r)[|p| + j..|p| + e] == r[j..e]
  {
    var x, y := (p + r)[|p| + j..|p| + e], r[j..e];
    assert forall i :: 0 <= i < |x| ==> x[i] == y[i];
  }

  lemma InlineAtShift(p: string, r: string, j: nat)
    requires j <= |r|
    ensures InlineAt(p + r, |p| + j) == (if InlineAt(r, j).Some? then Some(|p| + InlineAt(r, j).value) else None)
  {
    if j < |r| {
      assert (p + r)[|p| + j] == r[j];
      NextDollarShift(p, r, j + 1);
    }
  }

  lemma BlockAtShift(p: string, r: string, j: nat)
    requires j <= |r|
    ensures BlockAt(p + r, |p| + j) == (if BlockAt(r, j).Some? then Some(|p| + BlockAt(r, j).value) else None)
  {
    DoubleAtShift(p, r, j);
    if DoubleAt(r, j) {
      NextDoubleShift(p, r, j + 2);
    }
  }

  /** The inline scanner finds the same matches in `r` whether or not `p`
      stands in front of it. */
  lemma {:induction false} InlineShift(p: string, r: string, j: nat)
    requires j <= |r|
    ensures InlineMatches(p + r, |p| + j) == InlineMatches(r, j)
    decreases |r| - j
  {
    if j < |r| {
      match InlineAt(r, j)
      case None =>
        InlineShift(p, r, j + 1);
        InlineShiftSkip(p, r, j);
      case Some(e) =>
        InlineShift(p, r, e);
        InlineShiftMatch(p, r, j, e);
    }
  }

  /** Where no inline match starts in `r`, none starts in `p + r` either,
      and both scans move on by one. */
  lemma InlineShiftSkip(p: string, r: string, j: nat)
    requires j < |r| && InlineAt(r, j).None?
    requires InlineMatches(p + r, |p| + (j + 1)) == InlineMatches(r, j + 1)
    ensures InlineMatches(p + r, |p| + j) == InlineMatches(r, j)
  {
    InlineAtShift(p, r, j);
  }

  /** An inline match of `r` is one of `p + r`, and both scans go on after it. */
  lemma InlineShiftMatch(p: string, r: string, j: nat, e: nat)
    requires j < |r| && InlineAt(r, j) == Some(e)
    requires InlineMatches(p + r, |p| + e) == InlineMatches(r, e)
    ensures InlineMatches(p + r, |p| + j) == InlineMatches(r, j)
  {
    InlineAtShift(p, r, j);
    SliceShift(p, r, j, e);
    assert InlineMatches(r, j) == [r[j..e]] + InlineMatches(r, e);
    assert InlineMatches(p + r, |p| + j) == [(p + r)[|p| + j..|p| + e]] + InlineMatches(p + r, |p| + e);
  }

  lemma InlinePast(p: string, r: string)
    ensures InlineMatches(p + r, |p|) == InlineMatches(r, 0)
  {
    InlineShift(p, r, 0);
  }

  lemma {:induction false} BlockShift(p: string, r: string, j: nat)
    requires j <= |r|
    ensures BlockMatches(p + r, |p| + j) == BlockMatches(r, j)
    decreases |r| - j
  {
    if j < |r| {
      match BlockAt(r, j)
      case None =>
        BlockShift(p, r, j + 1);
        BlockShiftSkip(p, r, j);
      case Some(e) =>
        BlockShift(p, r, e);
        BlockShiftMatch(p, r, j, e);
    }
  }

  /** Where no block starts in `r`, none starts in `p + r` either, and both
      scans move on by one. */
  lemma BlockShiftSkip(p: string, r: string, j: nat)
    requires j < |r| && BlockAt(r, j).None?
    requires BlockMatches(p + r, |p| + (j + 1)) == BlockMatches(r, j + 1)
    ensures BlockMatches(p + r, |p| + j) == BlockMatches(r, j)
  {
    BlockAtShift(p, r, j);
  }

  /** A block match of `r` is one of `p + r`, and both scans go on after it. */
  lemma BlockShiftMatch(p: string, r: string, j: nat, e: nat)
    requires j < |r| && BlockAt(r, j) == Some(e)
    requires BlockMatches(p + r, |p| + e) == BlockMatches(r, e)
    ensures BlockMatches(p + r, |p| + j) == BlockMatches(r, j)
  {
    BlockShiftHead(p, r, j, e);
    assert BlockMatches(r, j) == [r[j..e]] + BlockMatches(r, e);
  }

  /** The scan of `p + r` at `|p| + j` takes the block of `r` at `j`. */
  lemma BlockShiftHead(p: string, r: string, j: nat, e: nat)
    requires j < |r| && BlockAt(r, j) == Some(e)
    ensures BlockMatches(p + r, |p| + j) == [r[j..e]] + BlockMatches(p + r, |p| + e)
  {
    BlockAtShift(p, r, j);
    SliceShift(p, r, j, e);
    assert BlockMatches(p + r, |p| + j) == [(p + r)[|p| + j..|p| + e]] + BlockMatches(p + r, |p| + e);
  }

  lemma BlockPast(p: string, r: string)
    ensures BlockMatches(p + r, |p|) == BlockMatches(r, 0)
  {
    BlockShift(p, r, 0);
  }

  lemma ExtractAtShift(p: string, r: string, j: nat)
    requires j <= |r|
    ensures ExtractAt(p + r, |p| + j) == (if ExtractAt(r, j).Some? then Some(|p| + ExtractAt(r, j).value) else None)
  {
    var s := p + r;
    if j < |r| && r[j] == '$' {
      assert s[|p| + j] == r[j];
      DoubleAtShift(p, r, j);
      if DoubleAt(r, j) {
        NextDollarShift(p, r, j + 2);
        if NextDollar(r, j + 2).Some? {
          DoubleAtShift(p, r, NextDollar(r, j + 2).value);
        }
      } else {
        NextDollarShift(p, r, j + 1);
        if NextDollar(r, j + 1).Some? {
          DoubleAtShift(p, r, NextDollar(r, j + 1).value);
        }
      }
    } else if j < |r| {
      assert s[|p| + j] == r[j];
    }
  }

  lemma {:induction false} ExtractShift(p: string, r: string, j: nat)
    requires j <= |r|
    ensures ExtractMatches(p + r, |p| + j) == ExtractMatches(r, j)
    decreases |r| - j
  {
    if j < |r| {
      match ExtractAt(r, j)
      case None =>
        ExtractShift(p, r, j + 1);
        ExtractShiftSkip(p, r, j);
      case Some(e) =>
        ExtractShift(p, r, e);
        ExtractShiftMatch(p, r, j, e);
    }
  }

  /** An extraction match of `r` is one of `p + r`, and both scans go on after it. */
  lemma ExtractShiftMatch(p: string, r: string, j: nat, e: nat)
    requires j < |r| && ExtractAt(r, j) == Some(e)
    requires ExtractMatches(p + r, |p| + e) == ExtractMatches(r, e)
    ensures ExtractMatches(p + r, |p| + j) == ExtractMatches(r, j)
  {
    ExtractShiftHead(p, r, j, e);
    ExtractMatchAt(r, j, e);
  }

  /** The scan of `p + r` at `|p| + j` takes the match of `r` at `j`. */
  lemma ExtractShiftHead(p: string, r: string, j: nat, e: nat)
    requires j < |r| && ExtractAt(r, j) == Some(e)
    ensures ExtractMatches(p + r, |p| + j) == [Content(r[j..e])] + ExtractMatches(p + r, |p| + e)
  {
    ExtractAtShiftSome(p, r, j, e);
    SliceShift(p, r, j, e);
    ExtractMatchAt(p + r, |p| + j, |p| + e);
  }

  lemma ExtractAtShiftSome(p: string, r: string, j: nat, e: nat)
    requires j < |r| && ExtractAt(r, j) == Some(e)
    ensures ExtractAt(p + r, |p| + j) == Some(|p| + e)
  {
    ExtractAtShift(p, r, j);
  }

  /** Where extraction finds nothing in `r`, it finds nothing in `p + r`
      either, and both scans move on by one. */
  lemma ExtractShiftSkip(p: string, r: string, j: nat)
    requires j < |r| && ExtractAt(r, j).None?
    requires ExtractMatches(p + r, |p| + (j + 1)) == ExtractMatches(r, j + 1)
    ensures ExtractMatches(p + r, |p| + j) == ExtractMatches(r, j)
  {
    ExtractAtShift(p, r, j);
  }

  lemma ExtractPast(p: string, r: string)
    ensures ExtractMatches(p + r, |p|) == ExtractMatches(r, 0)
  {
    ExtractShift(p, r, 0);
  }

  // ---------------------------------------------------------------------
  // One expression, then anything

  /** The only dollar signs of `s[..b + 1]` are at `a` and `b`, with text between. */
  predicate InlineSpanAt(s: string, a: nat, b: nat) {
    && a + 1 < b < |s| && s[a] == '$' && s[b] == '$'
    && NoDollarIn(s, 0, a) && NoDollarIn(s, a + 1, b)
  }

  /** `t$c$rest` has its first two dollar signs around `c`. */
  predicate InlineLaidOut(t: string, c: string, rest: string) {
    var p := t + "$" + c + "$";
    && |p| == |t| + |c| + 2 && InlineSpanAt(p + rest, |t|, |p| - 1)
    && (p + rest)[|t|..|p|] == "$" + c + "$" && (p + rest)[|t| + 1..|p| - 1] == c
  }

  lemma InlineLayoutThen(t: string, c: string, rest: string)
    requires NoDollar(t) && NoDollar(c) && c != ""
    ensures InlineLaidOut(t, c, rest)
  {
    var s, a, b := t + "$" + c + "$" + rest, |t|, |t| + 1 + |c|;
    assert forall i :: 0 <= i < a ==> s[i] == t[i];
    assert forall i :: a < i < b ==> s[i] == c[i - a - 1];
    assert s[a + 1..b] == c;
  }

  /** `t$$c$$rest` has its first two `$$` around `c`. */
  predicate BlockLaidOut(t: string, c: string, rest: string) {
    var p := t + "$$" + c + "$$";
    && |p| == |t| + |c| + 4 && |t| + 2 <= |p| - 2
    && DoubleAt(p + rest, |t|) && DoubleAt(p + rest, |p| - 2)
    && NoDollarIn(p + rest, 0, |t|) && NoDollarIn(p + rest, |t| + 2, |p| - 2)
    && (p + rest)[|t|..|p|] == "$$" + c + "$$" && (p + rest)[|t| + 2..|p| - 2] == c
  }

  lemma BlockLayoutThen(t: string, c: string, rest: string)
    requires NoDollar(t) && NoDollar(c)
    ensures BlockLaidOut(t, c, rest)
  {
    var s, a, b := t + "$$" + c + "$$" + rest, |t|, |t| + 2 + |c|;
    assert forall i :: 0 <= i < a ==> s[i] == t[i];
    assert forall i :: a + 2 <= i < b ==> s[i] == c[i - a - 2];
    assert s[a + 2..b] == c;
  }

  /** An inline expression `$c$` with a body, not directly followed by a
      dollar sign, is one inline match, no block match and one extracted
      content, whatever comes after it. */
  lemma InlineThen(t: string, c: string, rest: string)
    requires NoDollar(t) && NoDollar(c) && c != ""
    requires rest == [] || rest[0] != '$'
    ensures InlineMatches(t + "$" + c + "$" + rest, 0) == ["$" + c + "$"] + InlineMatches(rest, 0)
    ensures BlockMatches(t + "$" + c + "$" + rest, 0) == BlockMatches(rest, 0)
    ensures ExtractMatches(t + "$" + c + "$" + rest, 0) == [c] + ExtractMatches(rest, 0)
  {
    InlineLayoutThen(t, c, rest);
    InlineAfterInline(t, c, rest);
    BlockAfterInline(t, c, rest);
    ExtractAfterInline(t, c, rest);
  }

  lemma InlineAfterInline(t: string, c: string, rest: string)
    requires InlineLaidOut(t, c, rest)
    ensures InlineMatches(t + "$" + c + "$" + rest, 0) == ["$" + c + "$"] + InlineMatches(rest, 0)
  {
    var p := t + "$" + c + "$";
    InlinePast(p, rest);
    InlineOverInline(p + rest, |t|, |p|);
  }

  lemma InlineOverInline(s: string, a: nat, e: nat)
    requires 0 < e && InlineSpanAt(s, a, e - 1)
    ensures InlineMatches(s, 0) == [s[a..e]] + InlineMatches(s, e)
  {
    InlineSkip(s, 0, a);
    NextDollarIs(s, a + 1, e - 1);
  }

  lemma BlockAfterInline(t: string, c: string, rest: string)
    requires InlineLaidOut(t, c, rest)
    requires rest == [] || rest[0] != '$'
    ensures BlockMatches(t + "$" + c + "$" + rest, 0) == BlockMatches(rest, 0)
  {
    var p := t + "$" + c + "$";
    var s := p + rest;
    assert |p| < |s| ==> s[|p|] == rest[0];
    BlockPast(p, rest);
    BlockOverInline(s, |t|, |p|);
  }

  lemma BlockOverInline(s: string, a: nat, e: nat)
    requires 0 < e && InlineSpanAt(s, a, e - 1) && (e == |s| || s[e] != '$')
    ensures BlockMatches(s, 0) == BlockMatches(s, e)
  {
    assert forall i :: 0 <= i < e ==> !DoubleAt(s, i);
    BlockSkip(s, 0, e);
  }

  lemma ExtractAfterInline(t: string, c: string, rest: string)
    requires InlineLaidOut(t, c, rest)
    requires rest == [] || rest[0] != '$'
    ensures ExtractMatches(t + "$" + c + "$" + rest, 0) == [c] + ExtractMatches(rest, 0)
  {
    var p := t + "$" + c + "$";
    var s := p + rest;
    assert |p| < |s| ==> s[|p|] == rest[0];
    ExtractPast(p, rest);
    ExtractOverInline(s, |t|, |p|);
  }

  lemma ExtractOverInline(s: string, a: nat, e: nat)
    requires 0 < e && InlineSpanAt(s, a, e - 1) && (e == |s| || s[e] != '$')
    ensures ExtractMatches(s, 0) == [s[a + 1..e - 1]] + ExtractMatches(s, e)
  {
    calc {
      ExtractMatches(s, 0);
    == { ExtractSkip(s, 0, a); }
      ExtractMatches(s, a);
    == { ExtractAtInline(s, a, e); ExtractMatchAt(s, a, e); }
      [Content(s[a..e])] + ExtractMatches(s, e);
    == { InlineContent(s, a, e); }
      [s[a + 1..e - 1]] + ExtractMatches(s, e);
    }
  }

  /** An inline span not followed by a dollar sign is one match of B. */
  lemma ExtractAtInline(s: string, a: nat, e: nat)
    requires 0 < e && InlineSpanAt(s, a, e - 1) && (e == |s| || s[e] != '$')
    ensures ExtractAt(s, a) == Some(e)
  {
    NextDollarIs(s, a + 1, e - 1);
  }

  /** The content of a match `$c$` with `c` not starting with a dollar sign is `c`. */
  lemma InlineContent(s: string, a: nat, e: nat)
    requires a + 2 < e <= |s| && s[a + 1] != '$'
    ensures Content(s[a..e]) == s[a + 1..e - 1]
  {
    var m := s[a..e];
    assert m[1] == s[a + 1];
    var body, want := m[1..|m| - 1], s[a + 1..e - 1];
    assert forall i :: 0 <= i < |body| ==> body[i] == want[i];
  }

  /** A block expression `$$c$$` is two empty inline matches, one block
      match and one extracted content, whatever comes after it. */
  lemma BlockThen(t: string, c: string, rest: string)
    requires NoDollar(t) && NoDollar(c)
    ensures InlineMatches(t + "$$" + c + "$$" + rest, 0) == ["$$", "$$"] + InlineMatches(rest, 0)
    ensures BlockMatches(t + "$$" + c + "$$" + rest, 0) == ["$$" + c + "$$"] + BlockMatches(rest, 0)
    ensures ExtractMatches(t + "$$" + c + "$$" + rest, 0) == [c] + ExtractMatches(rest, 0)
  {
    BlockLayoutThen(t, c, rest);
    InlineAfterBlock(t, c, rest);
    BlockAfterBlock(t, c, rest);
    ExtractAfterBlock(t, c, rest);
  }

  lemma InlineAfterBlock(t: string, c: string, rest: string)
    requires BlockLaidOut(t, c, rest)
    ensures InlineMatches(t + "$$" + c + "$$" + rest, 0) == ["$$", "$$"] + InlineMatches(rest, 0)
  {
    var p := t + "$$" + c + "$$";
    InlinePast(p, rest);
    InlineOverBlock(p + rest, |t|, |p|);
  }

  /** The inline scanner reads a `$$…$$` as two empty matches. */
  lemma InlineOverBlock(s: string, a: nat, e: nat)
    requires a + 2 <= e - 2 && DoubleAt(s, a) && DoubleAt(s, e - 2) && NoDollarIn(s, 0, a) && NoDollarIn(s, a + 2, e - 2)
    ensures InlineMatches(s, 0) == ["$$", "$$"] + InlineMatches(s, e)
  {
    var tail := InlineMatches(s, e);
    calc {
      InlineMatches(s, 0);
    == { InlineSkip(s, 0, a); }
      InlineMatches(s, a);
    == { InlineEmptyAt(s, a); }
      ["$$"] + InlineMatches(s, a + 2);
    == { InlineSkip(s, a + 2, e - 2); InlineEmptyAt(s, e - 2); }
      ["$$"] + (["$$"] + tail);
    == { assert (["$$"] + (["$$"] + tail))[..2] == ["$$", "$$"]; }
      ["$$", "$$"] + tail;
    }
  }

  /** The inline scanner reads a `$$` as an empty match. */
  lemma BlockAfterBlock(t: string, c: string, rest: string)
    requires BlockLaidOut(t, c, rest)
    ensures BlockMatches(t + "$$" + c + "$$" + rest, 0) == ["$$" + c + "$$"] + BlockMatches(rest, 0)
  {
    var p := t + "$$" + c + "$$";
    BlockPast(p, rest);
    BlockOverBlock(p + rest, |t|, |p|);
  }

  /** The block scanner reads a `$$…$$` as one match. */
  lemma BlockOverBlock(s: string, a: nat, e: nat)
    requires a + 2 <= e - 2 && DoubleAt(s, a) && DoubleAt(s, e - 2) && NoDollarIn(s, 0, a) && NoDollarIn(s, a + 2, e - 2)
    ensures BlockMatches(s, 0) == [s[a..e]] + BlockMatches(s, e)
  {
    BlockSkip(s, 0, a);
    NextDoubleIs(s, a + 2, e - 2);
    assert BlockAt(s, a) == Some(e);
  }

  lemma ExtractAfterBlock(t: string, c: string, rest: string)
    requires BlockLaidOut(t, c, rest)
    ensures ExtractMatches(t + "$$" + c + "$$" + rest, 0) == [c] + ExtractMatches(rest, 0)
  {
    var p := t + "$$" + c + "$$";
    ExtractPast(p, rest);
    ExtractOverBlock(p + rest, |t|, |p|);
  }

  /** Extraction reads a `$$…$$` as one match whose content is its body. */
  lemma ExtractOverBlock(s: string, a: nat, e: nat)
    requires a + 2 <= e - 2 && DoubleAt(s, a) && DoubleAt(s, e - 2) && NoDollarIn(s, 0, a) && NoDollarIn(s, a + 2, e - 2)
    ensures ExtractMatches(s, 0) == [s[a + 2..e - 2]] + ExtractMatches(s, e)
  {
    calc {
      ExtractMatches(s, 0);
    == { ExtractSkip(s, 0, a); }
      ExtractMatches(s, a);
    == { NextDollarIs(s, a + 2, e - 2); assert ExtractAt(s, a) == Some(e); }
      [Content(s[a..e])] + ExtractMatches(s, e);
    == { BlockContent(s, a, e); }
      [s[a + 2..e - 2]] + ExtractMatches(s, e);
    }
  }

  /** The content of a match `$$c$$` is `c`. */
  lemma BlockContent(s: string, a: nat, e: nat)
    requires a + 4 <= e <= |s| && DoubleAt(s, a)
    ensures Content(s[a..e]) == s[a + 2..e - 2]
  {
    var m := s[a..e];
    assert m[0] == s[a] && m[1] == s[a + 1];
    var body, want := m[2..|m| - 2], s[a + 2..e - 2];
    assert forall i :: 0 <= i < |body| ==> body[i] == want[i];
  }

  // ---------------------------------------------------------------------
  // Texts built from expressions

  /** Plain text, then one expression: `before$body$` or `before$$body$$`. */
  datatype Span = InlineSpan(before: string, body: string) | BlockSpan(before: string, body: string)

  function SpanText(x: Span): string {
    match x
    case InlineSpan(t, c) => t + "$" + c + "$"
    case BlockSpan(t, c) => t + "$$" + c + "$$"
  }

  function Render(xs: seq<Span>): string {
    if xs == [] then "" else SpanText(xs[0]) + Render(xs[1..])
  }

  /** Spans that read back as written: no stray dollar signs, inline bodies
      that are not empty, and no dollar sign right after an inline span
      (which the extraction expression would take as a closing `$$`). */
  predicate WellFormed(xs: seq<Span>) {
    forall i :: 0 <= i < |xs| ==> SpanFits(xs, i)
  }

  predicate SpanFits(xs: seq<Span>, i: nat)
    requires i < |xs|
  {
    && NoDollar(xs[i].before) && NoDollar(xs[i].body)
    && (xs[i].InlineSpan? ==> xs[i].body != "" && (i + 1 < |xs| ==> xs[i + 1].before != ""))
  }

  function Bodies(xs: seq<Span>): (r: seq<string>)
    ensures |r| == |xs|
  {
    if xs == [] then [] else [xs[0].body] + Bodies(xs[1..])
  }

  function InlineSpans(xs: seq<Span>): nat {
    if xs == [] then 0 else (if xs[0].InlineSpan? then 1 else 0) + InlineSpans(xs[1..])
  }

  function BlockSpans(xs: seq<Span>): nat {
    if xs == [] then 0 else (if xs[0].BlockSpan? then 1 else 0) + BlockSpans(xs[1..])
  }

  /** A text without dollar signs holds no expression. */
  lemma NoDollarNothing(u: string)
    requires NoDollar(u)
    ensures InlineMatches(u, 0) == [] && BlockMatches(u, 0) == [] && ExtractMatches(u, 0) == []
  {
    DollarsMonotone(u, 0, |u|);
    ExtractMatchesEmpty(u, 0);
  }

  /** After the first span of well-formed spans, the text goes on with the
      rest, and it does not start with a dollar sign when the first span is
      inline. */
  lemma RenderRest(xs: seq<Span>, tail: string)
    requires WellFormed(xs) && xs != [] && NoDollar(tail)
    ensures WellFormed(xs[1..])
    ensures NoDollar(xs[0].before) && NoDollar(xs[0].body) && (xs[0].InlineSpan? ==> xs[0].body != "")
    ensures Render(xs) + tail == SpanText(xs[0]) + (Render(xs[1..]) + tail)
    ensures var rest := Render(xs[1..]) + tail; xs[0].InlineSpan? ==> rest == [] || rest[0] != '$'
  {
    assert SpanFits(xs, 0);
    WellFormedTail(xs);
    if xs[0].InlineSpan? {
      RestStart(xs, tail);
    }
  }

  lemma WellFormedTail(xs: seq<Span>)
    requires WellFormed(xs) && xs != []
    ensures WellFormed(xs[1..])
  {
    var ys := xs[1..];
    forall i | 0 <= i < |ys|
      ensures SpanFits(ys, i)
    {
      assert SpanFits(xs, i + 1);
      assert ys[i] == xs[i + 1];
      assert i + 1 < |ys| ==> ys[i + 1] == xs[i + 2];
    }
  }

  lemma SpanTextStart(x: Span)
    ensures |SpanText(x)| > |x.before| && SpanText(x)[..|x.before|] == x.before
  {
  }

  lemma RestStart(xs: seq<Span>, tail: string)
    requires WellFormed(xs) && xs != [] && NoDollar(tail) && xs[0].InlineSpan?
    ensures var rest := Render(xs[1..]) + tail; rest == [] || rest[0] != '$'
  {
    var ys := xs[1..];
    var rest := Render(ys) + tail;
    if rest != [] {
      if ys == [] {
        assert rest == tail;
      } else {
        assert SpanFits(xs, 0) && SpanFits(xs, 1);
        assert ys[0] == xs[1];
        assert ys[0].before != "";
        SpanTextStart(ys[0]);
        assert Render(ys)[0] == SpanText(ys[0])[0];
        assert rest[0] == ys[0].before[0];
      }
    }
  }

  /** Extraction over well-formed spans followed by plain text gives the
      bodies of the spans, in order. */
  lemma {:induction false} SpansExtract(xs: seq<Span>, tail: string)
    requires WellFormed(xs) && NoDollar(tail)
    ensures ExtractMathContent(Render(xs) + tail) == Bodies(xs)
  {
    if xs == [] {
      assert Render(xs) + tail == tail;
      NoDollarNothing(tail);
    } else {
      RenderRest(xs, tail);
      SpansExtract(xs[1..], tail);
      var rest := Render(xs[1..]) + tail;
      match xs[0]
      case InlineSpan(t, c) =>
        InlineThen(t, c, rest);
      case BlockSpan(t, c) =>
        BlockThen(t, c, rest);
    }
  }

  /** Counting over well-formed spans followed by plain text gives the
      number of inline spans and the number of block spans. */
  lemma SpansCount(xs: seq<Span>, tail: string)
    requires WellFormed(xs) && NoDollar(tail)
    ensures CountMathExpressions(Render(xs) + tail) == MathCount(InlineSpans(xs), BlockSpans(xs))
  {
    SpansInline(xs, tail);
    SpansBlock(xs, tail);
  }

  lemma {:induction false} SpansInline(xs: seq<Span>, tail: string)
    requires WellFormed(xs) && NoDollar(tail)
    ensures |PureInline(InlineMatches(Render(xs) + tail, 0))| == InlineSpans(xs)
  {
    if xs == [] {
      assert Render(xs) + tail == tail;
      NoDollarNothing(tail);
    } else {
      RenderRest(xs, tail);
      SpansInline(xs[1..], tail);
      SpanInline(xs[0], Render(xs[1..]) + tail);
    }
  }

  /** One span in front of `rest` adds one pure inline match if it is inline, none if it is a block. */
  lemma SpanInline(x: Span, rest: string)
    requires NoDollar(x.before) && NoDollar(x.body)
    requires x.InlineSpan? ==> x.body != "" && (rest == [] || rest[0] != '$')
    ensures |PureInline(InlineMatches(SpanText(x) + rest, 0))| == (if x.InlineSpan? then 1 else 0) + |PureInline(InlineMatches(rest, 0))|
  {
    match x
    case InlineSpan(t, c) =>
      InlineThen(t, c, rest);
      PureInlineOne("$" + c + "$", InlineMatches(rest, 0));
    case BlockSpan(t, c) =>
      BlockThen(t, c, rest);
      PureInlineTwoEmpty(InlineMatches(rest, 0));
  }

  lemma PureInlineOne(m: string, ms: seq<string>)
    requires |m| >= 2 && m[1] != '$'
    ensures |PureInline([m] + ms)| == 1 + |PureInline(ms)|
  {
    PureInlineCons(m, ms);
  }

  lemma PureInlineTwoEmpty(ms: seq<string>)
    ensures PureInline(["$$", "$$"] + ms) == PureInline(ms)
  {
    PureInlineCons("$$", ["$$"] + ms);
    PureInlineCons("$$", ms);
    assert ["$$", "$$"] + ms == ["$$"] + (["$$"] + ms);
  }

  lemma {:induction false} SpansBlock(xs: seq<Span>, tail: string)
    requires WellFormed(xs) && NoDollar(tail)
    ensures |BlockMatches(Render(xs) + tail, 0)| == BlockSpans(xs)
  {
    if xs == [] {
      assert Render(xs) + tail == tail;
      NoDollarNothing(tail);
    } else {
      RenderRest(xs, tail);
      SpansBlock(xs[1..], tail);
      var rest := Render(xs[1..]) + tail;
      match xs[0]
      case InlineSpan(t, c) =>
        InlineThen(t, c, rest);
      case BlockSpan(t, c) =>
        BlockThen(t, c, rest);
    }
  }
}
