/** The LaTeX helpers of apps/web/src/lib/math-utils.ts. Each helper runs
    one of two regular expressions over the text; here the expressions are
    spelled out as scanners that try each start position from left to right,
    taking the shortest body the lazy `[\s\S]*?` allows:

      A = `\$\$[\s\S]*?\$\$|\$[\s\S]*?\$`    (splitting, testing, counting)
      B = `\$\$?([\s\S]*?)\$\$?`            (extraction)

    `parseMathText` splits the text at the matches of A, drops empty pieces
    and classifies each remaining piece by its delimiters. */
module MathText {
  import opened Wrappers

  // ---------------------------------------------------------------------
  // Dollar signs

  /** No dollar sign among `s[from..to]`. */
  predicate NoDollarIn(s: string, from: nat, to: nat)
    requires from <= to <= |s|
  {
    forall i :: from <= i < to ==> s[i] != '$'
  }

  predicate NoDollar(s: string) {
    forall i :: 0 <= i < |s| ==> s[i] != '$'
  }

  /** At most one dollar sign in `s`. */
  predicate AtMostOneDollar(s: string) {
    forall i, j :: 0 <= i < j < |s| ==> !(s[i] == '$' && s[j] == '$')
  }

  /** The number of dollar signs in `s[q..]`. */
  function DollarsFrom(s: string, q: nat): nat
    requires q <= |s|
    decreases |s| - q
  {
    if q == |s| then 0 else (if s[q] == '$' then 1 else 0) + DollarsFrom(s, q + 1)
  }

  function DollarCount(s: string): nat {
    DollarsFrom(s, 0)
  }

  /** Dropping a prefix never adds dollar signs; dropping one without any keeps the count. */
  lemma {:induction false} DollarsMonotone(s: string, q: nat, k: nat)
    requires q <= k <= |s|
    ensures DollarsFrom(s, q) >= DollarsFrom(s, k)
    ensures NoDollarIn(s, q, k) ==> DollarsFrom(s, q) == DollarsFrom(s, k)
    decreases k - q
  {
    if q < k {
      DollarsMonotone(s, q + 1, k);
    }
  }

  /** The first dollar sign at or after `j`. */
  function NextDollar(s: string, j: nat): (k: Option<nat>)
    requires j <= |s|
    ensures k.Some? ==> j <= k.value < |s| && s[k.value] == '$' && NoDollarIn(s, j, k.value)
    ensures k.None? ==> NoDollarIn(s, j, |s|)
    decreases |s| - j
  {
    if j == |s| then None else if s[j] == '$' then Some(j) else NextDollar(s, j + 1)
  }

  /** A `$$` starts at `k`. */
  predicate DoubleAt(s: string, k: nat) {
    k + 1 < |s| && s[k] == '$' && s[k + 1] == '$'
  }

  /** The first `$$` starting at or after `j`. */
  function NextDouble(s: string, j: nat): (k: Option<nat>)
    requires j <= |s|
    ensures k.Some? ==> j <= k.value && DoubleAt(s, k.value) && forall i :: j <= i < k.value ==> !DoubleAt(s, i)
    ensures k.None? ==> forall i :: j <= i < |s| ==> !DoubleAt(s, i)
    decreases |s| - j
  {
    if j == |s| then None else if DoubleAt(s, j) then Some(j) else NextDouble(s, j + 1)
  }

  // ---------------------------------------------------------------------
  // Expression A

  /** The match of the block alternative `\$\$[\s\S]*?\$\$` starting at `q`, as its end. */
  function BlockAt(s: string, q: nat): (e: Option<nat>)
    requires q <= |s|
    ensures e.Some? ==> q + 4 <= e.value <= |s| && DoubleAt(s, q) && DoubleAt(s, e.value - 2)
  {
    if DoubleAt(s, q) && NextDouble(s, q + 2).Some? then Some(NextDouble(s, q + 2).value + 2) else None
  }

  /** The match of the inline alternative `\$[\s\S]*?\$` starting at `q`, as its end. */
  function InlineAt(s: string, q: nat): (e: Option<nat>)
    requires q <= |s|
    ensures e.Some? ==> q + 2 <= e.value <= |s| && s[q] == '$' && s[e.value - 1] == '$' && NoDollarIn(s, q + 1, e.value - 1)
    ensures e.None? <==> !(q < |s| && s[q] == '$' && NextDollar(s, q + 1).Some?)
  {
    if q < |s| && s[q] == '$' && NextDollar(s, q + 1).Some? then Some(NextDollar(s, q + 1).value + 1) else None
  }

  /** The match of A starting at `q`: the block alternative is tried first. */
  function MatchAt(s: string, q: nat): (e: Option<nat>)
    requires q <= |s|
    ensures e.Some? ==> q + 2 <= e.value <= |s| && s[q] == '$' && s[e.value - 1] == '$'
    ensures e.None? <==> InlineAt(s, q).None?
    ensures q < |s| && s[q] != '$' ==> e.None?
  {
    if BlockAt(s, q).Some? then BlockAt(s, q) else InlineAt(s, q)
  }

  // ---------------------------------------------------------------------
  // Splitting

  /** A piece of `text.split(A)`: text between matches, or a match itself
      (the expression's one capture group is the whole match). */
  datatype Piece = Unmatched(text: string) | Matched(text: string)

  /** The split of `s[p..]` where the search for the next match has reached `q`. */
  function SplitFrom(s: string, p: nat, q: nat): (pieces: seq<Piece>)
    requires p <= q <= |s|
    ensures |pieces| >= 1
    decreases |s| - q
  {
    if q == |s| then [Unmatched(s[p..])]
    else match MatchAt(s, q)
      case None => SplitFrom(s, p, q + 1)
      case Some(e) => [Unmatched(s[p..q]), Matched(s[q..e])] + SplitFrom(s, e, e)
  }

  /** `text.split(A)`. */
  function Split(s: string): (pieces: seq<Piece>)
    ensures |pieces| >= 1
  {
    SplitFrom(s, 0, 0)
  }

  /** The split of a whole text: text and matches alternating, text first
      and last, every match delimited by dollar signs, spelling the text. */
  lemma SplitShape(s: string)
    ensures var pieces := Split(s);
      && |pieces| % 2 == 1
      && (forall i :: 0 <= i < |pieces| ==> (pieces[i].Unmatched? <==> i % 2 == 0))
      && (forall i :: 0 <= i < |pieces| && pieces[i].Matched? ==> Delimited(pieces[i].text))
      && Concat(pieces) == s
  {
    SplitAlternates(s, 0, 0);
    SplitMatches(s, 0, 0);
    SplitConcat(s, 0, 0);
  }

  function Concat(pieces: seq<Piece>): string {
    if pieces == [] then "" else pieces[0].text + Concat(pieces[1..])
  }

  /** The pieces, laid end to end, give back the text. */
  lemma {:induction false} SplitConcat(s: string, p: nat, q: nat)
    requires p <= q <= |s|
    ensures Concat(SplitFrom(s, p, q)) == s[p..]
    decreases |s| - q
  {
    if q == |s| {
      assert Concat([Unmatched(s[p..])]) == s[p..] + Concat([]);
    } else {
      match MatchAt(s, q)
      case None =>
        SplitConcat(s, p, q + 1);
      case Some(e) =>
        var rest := SplitFrom(s, e, e);
        var pieces := [Unmatched(s[p..q]), Matched(s[q..e])] + rest;
        SplitConcat(s, e, e);
        assert pieces[1..][1..] == rest;
        assert Concat(pieces) == s[p..q] + (s[q..e] + Concat(rest));
        assert s[p..] == s[p..q] + s[q..e] + s[e..];
    }
  }

  /** The pieces alternate, text first and last, matches between. */
  lemma {:induction false} SplitAlternates(s: string, p: nat, q: nat)
    requires p <= q <= |s|
    ensures var pieces := SplitFrom(s, p, q);
      && |pieces| % 2 == 1
      && forall i :: 0 <= i < |pieces| ==> (pieces[i].Unmatched? <==> i % 2 == 0)
    decreases |s| - q
  {
    if q < |s| {
      match MatchAt(s, q)
      case None =>
        SplitAlternates(s, p, q + 1);
      case Some(e) =>
        var rest := SplitFrom(s, e, e);
        SplitAlternates(s, e, e);
        assert SplitFrom(s, p, q) == [Unmatched(s[p..q]), Matched(s[q..e])] + rest;
        AlternatesCons(s[p..q], s[q..e], rest);
    }
  }

  /** Text and a match in front of an alternating sequence keep it alternating. */
  lemma AlternatesCons(t: string, m: string, rest: seq<Piece>)
    requires |rest| % 2 == 1
    requires forall i :: 0 <= i < |rest| ==> (rest[i].Unmatched? <==> i % 2 == 0)
    ensures var pieces := [Unmatched(t), Matched(m)] + rest;
      && |pieces| % 2 == 1
      && forall i :: 0 <= i < |pieces| ==> (pieces[i].Unmatched? <==> i % 2 == 0)
  {
    var pieces := [Unmatched(t), Matched(m)] + rest;
    forall i | 2 <= i < |pieces|
      ensures pieces[i].Unmatched? <==> i % 2 == 0
    {
      assert pieces[i] == rest[i - 2];
    }
  }

  /** A text of at least two characters that starts and ends with a dollar sign. */
  predicate Delimited(t: string) {
    |t| >= 2 && t[0] == '$' && t[|t| - 1] == '$'
  }

  /** Every match starts and ends with a dollar sign. */
  lemma {:induction false} SplitMatches(s: string, p: nat, q: nat)
    requires p <= q <= |s|
    ensures forall i :: 0 <= i < |SplitFrom(s, p, q)| && SplitFrom(s, p, q)[i].Matched? ==> Delimited(SplitFrom(s, p, q)[i].text)
    decreases |s| - q
  {
    if q < |s| {
      match MatchAt(s, q)
      case None =>
        SplitMatches(s, p, q + 1);
      case Some(e) =>
        var rest := SplitFrom(s, e, e);
        SplitMatches(s, e, e);
        var pieces := [Unmatched(s[p..q]), Matched(s[q..e])] + rest;
        assert pieces == SplitFrom(s, p, q);
        assert Delimited(s[q..e]) by {
          assert s[q..e][0] == s[q] && s[q..e][e - q - 1] == s[e - 1];
        }
        forall i | 2 <= i < |pieces| && pieces[i].Matched?
          ensures Delimited(pieces[i].text)
        {
          assert pieces[i] == rest[i - 2];
        }
    }
  }

  /** A stretch without dollar signs holds no match: the search skips it. */
  lemma {:induction false} SkipPlain(s: string, p: nat, q: nat, r: nat)
    requires p <= q <= r <= |s| && NoDollarIn(s, q, r)
    ensures SplitFrom(s, p, q) == SplitFrom(s, p, r)
    decreases r - q
  {
    if q < r {
      SkipPlain(s, p, q + 1, r);
    }
  }

  /** A dollar sign with no other after it matches nothing: the rest of the
      text is one piece. */
  lemma LoneDollar(s: string, p: nat, q: nat)
    requires p <= q < |s| && s[q] == '$' && NextDollar(s, q + 1).None?
    ensures SplitFrom(s, p, q) == [Unmatched(s[p..])]
  {
    SkipPlain(s, p, q + 1, |s|);
  }

  /** Text between two matches has no dollar sign; the text after the last
      match has at most one. */
  lemma {:induction false} SplitDollars(s: string, p: nat, q: nat)
    requires p <= q <= |s| && NoDollarIn(s, p, q)
    ensures var pieces := SplitFrom(s, p, q);
      && |pieces| >= 1 && pieces[|pieces| - 1].Unmatched?
      && (forall i :: 0 <= i < |pieces| - 1 && pieces[i].Unmatched? ==> NoDollar(pieces[i].text))
      && AtMostOneDollar(pieces[|pieces| - 1].text)
    decreases |s| - q
  {
    if q == |s| {
      assert SplitFrom(s, p, q) == [Unmatched(s[p..])];
      TailDollars(s, p, q);
    } else {
      match MatchAt(s, q)
      case None =>
        assert SplitFrom(s, p, q) == SplitFrom(s, p, q + 1);
        if s[q] != '$' {
          SplitDollars(s, p, q + 1);
        } else {
          LoneDollar(s, p, q);
          TailDollars(s, p, q);
        }
      case Some(e) =>
        var rest := SplitFrom(s, e, e);
        SplitDollars(s, e, e);
        assert SplitFrom(s, p, q) == [Unmatched(s[p..q]), Matched(s[q..e])] + rest;
        assert NoDollar(s[p..q]) by {
          assert forall i :: 0 <= i < |s[p..q]| ==> s[p..q][i] == s[p + i];
        }
        DollarsCons(s[p..q], s[q..e], rest);
    }
  }

  /** The text from `p` on has at most one dollar sign, at `q` if anywhere. */
  lemma TailDollars(s: string, p: nat, q: nat)
    requires p <= q <= |s| && NoDollarIn(s, p, q) && (q < |s| ==> NoDollarIn(s, q + 1, |s|))
    ensures AtMostOneDollar(s[p..])
  {
    var w := s[p..];
    assert forall i :: 0 <= i < |w| ==> w[i] == s[p + i];
    assert forall i :: 0 <= i < |w| && i != q - p ==> w[i] != '$';
  }

  /** Dollar-free text and a match in front of the rest keep its dollar layout. */
  lemma DollarsCons(t: string, m: string, rest: seq<Piece>)
    requires NoDollar(t)
    requires |rest| >= 1 && rest[|rest| - 1].Unmatched?
    requires forall i :: 0 <= i < |rest| - 1 && rest[i].Unmatched? ==> NoDollar(rest[i].text)
    requires AtMostOneDollar(rest[|rest| - 1].text)
    ensures var pieces := [Unmatched(t), Matched(m)] + rest;
      && |pieces| >= 1 && pieces[|pieces| - 1].Unmatched?
      && (forall i :: 0 <= i < |pieces| - 1 && pieces[i].Unmatched? ==> NoDollar(pieces[i].text))
      && AtMostOneDollar(pieces[|pieces| - 1].text)
  {
    var pieces := [Unmatched(t), Matched(m)] + rest;
    assert forall i :: 2 <= i < |pieces| ==> pieces[i] == rest[i - 2];
  }

  // ---------------------------------------------------------------------
  // Parsing

  datatype Kind = Text | InlineMath | BlockMath

  datatype Segment = Segment(kind: Kind, content: string)

  /** `part.slice(from, -dropEnd)`: the middle of `part`, or nothing when the
      two ends overlap. */
  function Inner(part: string, from: nat, dropEnd: nat): (r: string)
    requires from > 0 && dropEnd > 0
    ensures from + dropEnd <= |part| ==> r == part[from..|part| - dropEnd]
    ensures from + dropEnd > |part| ==> r == ""
  {
    if from + dropEnd <= |part| then part[from..|part| - dropEnd] else ""
  }

  /** `part.startsWith('$$') && part.endsWith('$$')`; the two may overlap. */
  predicate BlockDelimited(part: string) {
    |part| >= 2 && part[0] == '$' && part[1] == '$' && part[|part| - 2] == '$' && part[|part| - 1] == '$'
  }

  /** `part.startsWith('$') && part.endsWith('$')`. */
  predicate InlineDelimited(part: string) {
    |part| >= 1 && part[0] == '$' && part[|part| - 1] == '$'
  }

  /** The classification of one non-empty piece by its delimiters. */
  function Classify(part: string): (seg: Segment)
    ensures seg.kind == Text <==> !InlineDelimited(part)
    ensures seg.kind == Text ==> seg.content == part
    ensures seg.kind == BlockMath <==> BlockDelimited(part)
  {
    if BlockDelimited(part) then Segment(BlockMath, Inner(part, 2, 2))
    else if InlineDelimited(part) then Segment(InlineMath, Inner(part, 1, 1))
    else Segment(Text, part)
  }

  /** The texts of the non-empty pieces, in order. */
  function NonEmptyTexts(pieces: seq<Piece>): (parts: seq<string>)
    ensures |parts| <= |pieces|
    ensures forall i :: 0 <= i < |parts| ==> parts[i] != ""
  {
    if pieces == [] then []
    else (if pieces[0].text != "" then [pieces[0].text] else []) + NonEmptyTexts(pieces[1..])
  }

  function ConcatStrings(parts: seq<string>): string {
    if parts == [] then "" else parts[0] + ConcatStrings(parts[1..])
  }

  /** Dropping empty pieces does not change what they spell. */
  lemma {:induction false} NonEmptyTextsConcat(pieces: seq<Piece>)
    ensures ConcatStrings(NonEmptyTexts(pieces)) == Concat(pieces)
  {
    if pieces != [] {
      NonEmptyTextsConcat(pieces[1..]);
      var head := if pieces[0].text != "" then [pieces[0].text] else [];
      ConcatStringsAppend(head, NonEmptyTexts(pieces[1..]));
    }
  }

  lemma {:induction false} ConcatStringsAppend(a: seq<string>, b: seq<string>)
    ensures ConcatStrings(a + b) == ConcatStrings(a) + ConcatStrings(b)
  {
    if a == [] {
      assert a + b == b;
    } else {
      assert (a + b)[1..] == a[1..] + b;
      ConcatStringsAppend(a[1..], b);
    }
  }

  /** The pieces of `text.split(A)` that `parseMathText` keeps. */
  function Parts(s: string): seq<string> {
    NonEmptyTexts(Split(s))
  }

  /** `.filter(part => part.length > 0).map(classify)` over the pieces. */
  function Segments(pieces: seq<Piece>): (segments: seq<Segment>)
    ensures |segments| == |NonEmptyTexts(pieces)|
  {
    if pieces == [] then [] else PieceSegments(pieces[0]) + Segments(pieces[1..])
  }

  /** The segment of one piece as `parseMathText` classifies it: none for an empty piece. */
  function PieceSegments(p: Piece): seq<Segment> {
    if p.text != "" then [Classify(p.text)] else []
  }

  /** The segments classify the non-empty pieces one by one. */
  lemma {:induction false} SegmentsClassify(pieces: seq<Piece>)
    ensures var segments := Segments(pieces);
      forall i :: 0 <= i < |segments| ==> segments[i] == Classify(NonEmptyTexts(pieces)[i])
  {
    if pieces != [] {
      SegmentsClassify(pieces[1..]);
      var head := PieceSegments(pieces[0]);
      var rest := Segments(pieces[1..]);
      assert forall i :: |head| <= i < |head| + |rest| ==> (head + rest)[i] == rest[i - |head|];
    }
  }

  /** `parseMathText`. */
  function ParseMathText(s: string): (segments: seq<Segment>)
    ensures |segments| == |Parts(s)|
    ensures forall i :: 0 <= i < |segments| ==> segments[i] == Classify(Parts(s)[i])
  {
    SegmentsClassify(Split(s));
    Segments(Split(s))
  }

  /** The kept pieces are non-empty and spell the whole text. */
  lemma PartsSpellText(s: string)
    ensures ConcatStrings(Parts(s)) == s
    ensures forall i :: 0 <= i < |Parts(s)| ==> Parts(s)[i] != ""
  {
    SplitConcat(s, 0, 0);
    NonEmptyTextsConcat(Split(s));
  }

  lemma EmptyText()
    ensures ParseMathText("") == []
  {
    assert Split("") == [Unmatched("")];
  }

  /** A text with at most one dollar sign is never split. */
  lemma SplitUnclosed(s: string)
    requires AtMostOneDollar(s)
    ensures Split(s) == [Unmatched(s)]
  {
    match NextDollar(s, 0)
    case None =>
      SkipPlain(s, 0, 0, |s|);
    case Some(q) =>
      SkipPlain(s, 0, 0, q);
      LoneDollar(s, 0, q);
  }

  lemma SplitUnclosedWhen(s: string)
    ensures AtMostOneDollar(s) ==> Split(s) == [Unmatched(s)]
  {
    if AtMostOneDollar(s) {
      SplitUnclosed(s);
    }
  }

  /** A non-empty text with at most one dollar sign that starts and ends with one is "$". */
  lemma OnlyLoneDollarIsDelimited(w: string)
    requires AtMostOneDollar(w) && InlineDelimited(w)
    ensures w == "$"
  {
    assert |w| == 1;
  }

  /** Text without a matched pair of delimiters, such as one unclosed `$`,
      is a single text segment — unless the text is the lone "$". */
  lemma UnclosedIsText(s: string)
    requires s != "" && s != "$" && AtMostOneDollar(s)
    ensures ParseMathText(s) == [Segment(Text, s)]
  {
    SplitUnclosed(s);
    if InlineDelimited(s) {
      OnlyLoneDollarIsDelimited(s);
    }
  }

  /** The lone "$": as written, the piece starts and ends with a dollar sign
      and is read as inline math with empty content. */
  lemma LoneDollarAsWritten()
    ensures ParseMathText("$") == [Segment(InlineMath, "")]
  {
    SplitUnclosed("$");
  }

  // ---------------------------------------------------------------------
  // The corrected parse

  /** Classification that only reads delimiters on matches: text between
      matches is always text. */
  function FixedSegments(pieces: seq<Piece>): (segments: seq<Segment>)
    ensures |segments| == |NonEmptyTexts(pieces)|
  {
    if pieces == [] then [] else FixedPieceSegments(pieces[0]) + FixedSegments(pieces[1..])
  }

  /** The corrected segment of one piece: text between matches stays text. */
  function FixedPieceSegments(p: Piece): seq<Segment> {
    if p.text == "" then [] else if p.Unmatched? then [Segment(Text, p.text)] else [Classify(p.text)]
  }

  /** `parseMathText` as evidently intended: an unclosed `$` stays text. */
  function ParseMathTextFixed(s: string): (segments: seq<Segment>)
    ensures |segments| == |Parts(s)|
    ensures s != "" && AtMostOneDollar(s) ==> segments == [Segment(Text, s)]
  {
    SplitUnclosedWhen(s);
    FixedSegments(Split(s))
  }

  lemma {:induction false} SegmentsAppend(a: seq<Piece>, b: seq<Piece>)
    ensures Segments(a + b) == Segments(a) + Segments(b)
  {
    if a == [] {
      assert a + b == b;
    } else {
      calc {
        Segments(a + b);
        { assert (a + b)[0] == a[0] && (a + b)[1..] == a[1..] + b; }
        PieceSegments(a[0]) + Segments(a[1..] + b);
        { SegmentsAppend(a[1..], b); }
        PieceSegments(a[0]) + (Segments(a[1..]) + Segments(b));
        Segments(a) + Segments(b);
      }
    }
  }

  lemma {:induction false} FixedSegmentsAppend(a: seq<Piece>, b: seq<Piece>)
    ensures FixedSegments(a + b) == FixedSegments(a) + FixedSegments(b)
  {
    if a == [] {
      assert a + b == b;
    } else {
      calc {
        FixedSegments(a + b);
        { assert (a + b)[0] == a[0] && (a + b)[1..] == a[1..] + b; }
        FixedPieceSegments(a[0]) + FixedSegments(a[1..] + b);
        { FixedSegmentsAppend(a[1..], b); }
        FixedPieceSegments(a[0]) + (FixedSegments(a[1..]) + FixedSegments(b));
        FixedSegments(a) + FixedSegments(b);
      }
    }
  }

  /** When no text piece looks delimited, the two parses agree. */
  lemma {:induction false} SegmentsAgree(pieces: seq<Piece>)
    requires forall i :: 0 <= i < |pieces| && pieces[i].Unmatched? ==> !InlineDelimited(pieces[i].text)
    ensures Segments(pieces) == FixedSegments(pieces)
  {
    if pieces != [] {
      assert forall i :: 1 <= i < |pieces| ==> pieces[1..][i - 1] == pieces[i];
      SegmentsAgree(pieces[1..]);
    }
  }

  /** The parse as written and the corrected one differ exactly when the
      text after the last match is the lone "$". */
  lemma AgreesUnlessLoneDollar(s: string)
    ensures var pieces := Split(s);
      ParseMathText(s) == ParseMathTextFixed(s) <==> pieces[|pieces| - 1].text != "$"
  {
    var pieces := Split(s);
    SplitDollars(s, 0, 0);
    var n := |pieces|;
    if pieces[n - 1].text != "$" {
      forall i | 0 <= i < n && pieces[i].Unmatched?
        ensures !InlineDelimited(pieces[i].text)
      {
        if i == n - 1 && InlineDelimited(pieces[i].text) {
          OnlyLoneDollarIsDelimited(pieces[i].text);
        }
      }
      SegmentsAgree(pieces);
    } else {
      assert pieces == pieces[..n - 1] + [pieces[n - 1]];
      SegmentsAppend(pieces[..n - 1], [pieces[n - 1]]);
      FixedSegmentsAppend(pieces[..n - 1], [pieces[n - 1]]);
      var last := Segments([pieces[n - 1]]);
      var fixedLast := FixedSegments([pieces[n - 1]]);
      assert last == [Segment(InlineMath, "")];
      assert fixedLast == [Segment(Text, "$")];
      var a := Segments(pieces);
      var b := FixedSegments(pieces);
      assert a[|a| - 1] != b[|b| - 1];
    }
  }

  // ---------------------------------------------------------------------
  // Spans

  lemma NextDollarIs(s: string, j: nat, k: nat)
    requires j <= k < |s| && NoDollarIn(s, j, k) && s[k] == '$'
    ensures NextDollar(s, j) == Some(k)
  {
  }

  lemma NextDoubleIs(s: string, j: nat, k: nat)
    requires j <= k && DoubleAt(s, k) && forall i :: j <= i < k ==> !DoubleAt(s, i)
    ensures NextDouble(s, j) == Some(k)
  {
  }

  /** No `$$` inside `c`, and `c` does not end with a dollar sign. */
  predicate NoDoubleDollar(c: string) {
    && (forall i :: 0 <= i < |c| - 1 ==> !(c[i] == '$' && c[i + 1] == '$'))
    && (c == "" || c[|c| - 1] != '$')
  }

  /** The text segment for `x`, if `x` is not empty. */
  function TextSegment(x: string): seq<Segment> {
    if x == "" then [] else [Segment(Text, x)]
  }

  lemma ThreePieces(t: string, m: string, u: string)
    requires NoDollar(t) && NoDollar(u)
    ensures Segments([Unmatched(t), Matched(m), Unmatched(u)]) == TextSegment(t) + Segments([Matched(m)]) + TextSegment(u)
  {
    var ps := [Unmatched(t), Matched(m), Unmatched(u)];
    assert ps == [Unmatched(t)] + [Matched(m)] + [Unmatched(u)];
    SegmentsAppend([Unmatched(t)] + [Matched(m)], [Unmatched(u)]);
    SegmentsAppend([Unmatched(t)], [Matched(m)]);
    assert Segments([Unmatched(t)]) == TextSegment(t) by {
      if t != "" { assert t[0] != '$'; }
    }
    assert Segments([Unmatched(u)]) == TextSegment(u) by {
      if u != "" { assert u[0] != '$'; }
    }
  }

  /** A text with exactly one match splits into three pieces. */
  lemma SplitOneMatch(s: string, a: nat, e: nat)
    requires a <= |s| && NoDollarIn(s, 0, a) && MatchAt(s, a) == Some(e) && NoDollarIn(s, e, |s|)
    ensures Split(s) == [Unmatched(s[..a]), Matched(s[a..e]), Unmatched(s[e..])]
  {
    SkipPlain(s, 0, 0, a);
    SkipPlain(s, e, e, |s|);
  }

  /** Where the dollar signs of `t$c$u` are, and the match they make. */
  lemma InlineLayout(t: string, c: string, u: string)
    requires NoDollar(t) && NoDollar(c) && NoDollar(u) && c != ""
    ensures var s := t + "$" + c + "$" + u;
      && NoDollarIn(s, 0, |t|) && NoDollarIn(s, |t| + |c| + 2, |s|)
      && MatchAt(s, |t|) == Some(|t| + |c| + 2)
      && s[..|t|] == t && s[|t|..|t| + |c| + 2] == "$" + c + "$" && s[|t| + |c| + 2..] == u
  {
    var s := t + "$" + c + "$" + u;
    var a, b := |t|, |t| + 1 + |c|;
    assert forall i :: 0 <= i < a ==> s[i] == t[i];
    assert forall i :: a < i < b ==> s[i] == c[i - a - 1];
    assert forall i :: b + 1 <= i < |s| ==> s[i] == u[i - b - 1];
    assert s[a] == '$' && s[a + 1] == c[0] && s[b] == '$';
    NextDollarIs(s, a + 1, b);
  }

  /** `t$c$u`, with no other dollar sign, parses to the text `t`, inline
      math `c` and the text `u`. */
  lemma InlineSpan(t: string, c: string, u: string)
    requires NoDollar(t) && NoDollar(c) && NoDollar(u) && c != ""
    ensures ParseMathText(t + "$" + c + "$" + u) == TextSegment(t) + [Segment(InlineMath, c)] + TextSegment(u)
  {
    var s, m := t + "$" + c + "$" + u, "$" + c + "$";
    var e := |t| + |c| + 2;
    calc {
      ParseMathText(s);
      Segments(Split(s));
    == { InlineLayout(t, c, u); SplitOneMatch(s, |t|, e); }
      Segments([Unmatched(s[..|t|]), Matched(s[|t|..e]), Unmatched(s[e..])]);
    == { InlineLayout(t, c, u); }
      Segments([Unmatched(t), Matched(m), Unmatched(u)]);
    == { ThreePieces(t, m, u); }
      TextSegment(t) + Segments([Matched(m)]) + TextSegment(u);
    == { assert Segments([Matched(m)]) == [Classify(m)]; assert m[1] == c[0]; }
      TextSegment(t) + [Segment(InlineMath, c)] + TextSegment(u);
    }
  }

  /** Where the dollar signs of `t$$c$$u` are, and the match they make. */
  lemma BlockLayout(t: string, c: string, u: string)
    requires NoDollar(t) && NoDoubleDollar(c) && NoDollar(u)
    ensures var s := t + "$$" + c + "$$" + u;
      && NoDollarIn(s, 0, |t|) && NoDollarIn(s, |t| + |c| + 4, |s|)
      && MatchAt(s, |t|) == Some(|t| + |c| + 4)
      && s[..|t|] == t && s[|t|..|t| + |c| + 4] == "$$" + c + "$$" && s[|t| + |c| + 4..] == u
  {
    var s := t + "$$" + c + "$$" + u;
    var a, b := |t|, |t| + 2 + |c|;
    assert forall i :: 0 <= i < a ==> s[i] == t[i];
    assert forall i :: a + 2 <= i < b ==> s[i] == c[i - a - 2];
    assert forall i :: b + 2 <= i < |s| ==> s[i] == u[i - b - 2];
    assert s[a] == '$' && s[a + 1] == '$' && s[b] == '$' && s[b + 1] == '$';
    forall i | a + 2 <= i < b
      ensures !DoubleAt(s, i)
    {
      if i + 1 < b {
        assert s[i + 1] == c[i - a - 1];
      }
    }
    NextDoubleIs(s, a + 2, b);
  }

  /** `t$$c$$u` parses to the text `t`, block math `c` and the text `u`:
      the span is one block, never two inline spans. */
  lemma BlockSpan(t: string, c: string, u: string)
    requires NoDollar(t) && NoDoubleDollar(c) && NoDollar(u)
    ensures ParseMathText(t + "$$" + c + "$$" + u) == TextSegment(t) + [Segment(BlockMath, c)] + TextSegment(u)
  {
    var s, m := t + "$$" + c + "$$" + u, "$$" + c + "$$";
    var e := |t| + |c| + 4;
    calc {
      ParseMathText(s);
      Segments(Split(s));
    == { BlockLayout(t, c, u); SplitOneMatch(s, |t|, e); }
      Segments([Unmatched(s[..|t|]), Matched(s[|t|..e]), Unmatched(s[e..])]);
    == { BlockLayout(t, c, u); }
      Segments([Unmatched(t), Matched(m), Unmatched(u)]);
    == { ThreePieces(t, m, u); }
      TextSegment(t) + Segments([Matched(m)]) + TextSegment(u);
    == { assert Segments([Matched(m)]) == [Classify(m)]; assert Inner(m, 2, 2) == c; }
      TextSegment(t) + [Segment(BlockMath, c)] + TextSegment(u);
    }
  }

  /** The corrected parse reads the same spans as the parse as written. */
  lemma FixedSpans(t: string, c: string, u: string)
    requires NoDollar(t) && NoDollar(c) && NoDollar(u) && c != ""
    ensures ParseMathTextFixed(t + "$" + c + "$" + u) == TextSegment(t) + [Segment(InlineMath, c)] + TextSegment(u)
    ensures ParseMathTextFixed(t + "$$" + c + "$$" + u) == TextSegment(t) + [Segment(BlockMath, c)] + TextSegment(u)
  {
    FixedInlineSpan(t, c, u);
    FixedBlockSpan(t, c, u);
  }

  lemma FixedInlineSpan(t: string, c: string, u: string)
    requires NoDollar(t) && NoDollar(c) && NoDollar(u) && c != ""
    ensures ParseMathTextFixed(t + "$" + c + "$" + u) == TextSegment(t) + [Segment(InlineMath, c)] + TextSegment(u)
  {
    var s := t + "$" + c + "$" + u;
    InlineSpan(t, c, u);
    InlineLayout(t, c, u);
    SplitOneMatch(s, |t|, |t| + |c| + 2);
    AgreesUnlessLoneDollar(s);
  }

  lemma FixedBlockSpan(t: string, c: string, u: string)
    requires NoDollar(t) && NoDollar(c) && NoDollar(u) && c != ""
    ensures ParseMathTextFixed(t + "$$" + c + "$$" + u) == TextSegment(t) + [Segment(BlockMath, c)] + TextSegment(u)
  {
    var s := t + "$$" + c + "$$" + u;
    assert NoDoubleDollar(c) by {
      assert c[|c| - 1] != '$';
    }
    BlockSpan(t, c, u);
    BlockLayout(t, c, u);
    SplitOneMatch(s, |t|, |t| + |c| + 4);
    AgreesUnlessLoneDollar(s);
  }

  // ---------------------------------------------------------------------
  // Testing

  /** Whether A matches somewhere in `s[q..]`. */
  function Found(s: string, q: nat): bool
    requires q <= |s|
    decreases |s| - q
  {
    q < |s| && (MatchAt(s, q).Some? || Found(s, q + 1))
  }

  /** `hasLaTeXExpressions`: `A.test(text)`, which holds exactly when the
      text has two dollar signs. */
  function HasLaTeXExpressions(s: string): (r: bool)
    ensures r <==> DollarCount(s) >= 2
  {
    FoundIffTwoDollars(s, 0);
    Found(s, 0)
  }

  lemma {:induction false} FoundIffTwoDollars(s: string, q: nat)
    requires q <= |s|
    ensures Found(s, q) <==> DollarsFrom(s, q) >= 2
    decreases |s| - q
  {
    if q < |s| {
      FoundIffTwoDollars(s, q + 1);
      if s[q] == '$' {
        match NextDollar(s, q + 1)
        case Some(k) =>
          DollarsMonotone(s, q + 1, k);
        case None =>
          DollarsMonotone(s, q + 1, |s|);
      }
    }
  }

  // ---------------------------------------------------------------------
  // Counting

  /** `text.match(/\$\$[\s\S]*?\$\$/g)` over `s[q..]`: each match is a `$$`, a
      body and a `$$`, and each takes four dollar signs. */
  function BlockMatches(s: string, q: nat): (ms: seq<string>)
    requires q <= |s|
    ensures forall i :: 0 <= i < |ms| ==> |ms[i]| >= 4 && BlockDelimited(ms[i])
    ensures 4 * |ms| <= DollarsFrom(s, q)
    decreases |s| - q
  {
    if q == |s| then []
    else match BlockAt(s, q)
      case None => BlockMatches(s, q + 1)
      case Some(e) =>
        DollarsMonotone(s, q + 2, e - 2);
        var m := s[q..e];
        assert m[0] == s[q] && m[1] == s[q + 1] && m[|m| - 2] == s[e - 2] && m[|m| - 1] == s[e - 1];
        [m] + BlockMatches(s, e)
  }

  /** `text.match(/\$[\s\S]*?\$/g)` over `s[q..]`: the dollar signs taken in
      pairs, each match a dollar, a body without one, and a dollar. */
  function InlineMatches(s: string, q: nat): (ms: seq<string>)
    requires q <= |s|
    ensures forall i :: 0 <= i < |ms| ==> Delimited(ms[i]) && NoDollar(ms[i][1..|ms[i]| - 1])
    ensures |ms| == DollarsFrom(s, q) / 2
    decreases |s| - q
  {
    if q == |s| then []
    else match InlineAt(s, q)
      case None =>
        DollarsMonotone(s, q + 1, |s|);
        InlineMatches(s, q + 1)
      case Some(e) =>
        DollarsMonotone(s, q + 1, e - 1);
        var m := s[q..e];
        assert m[0] == s[q] && m[|m| - 1] == s[e - 1];
        var body := m[1..|m| - 1];
        assert forall i :: 0 <= i < |body| ==> body[i] == s[q + 1 + i];
        [m] + InlineMatches(s, e)
  }

  /** The inline matches that do not start with `$$`. */
  function PureInline(ms: seq<string>): (r: seq<string>)
    ensures |r| <= |ms|
  {
    if ms == [] then []
    else (if |ms[0]| >= 2 && ms[0][0] == '$' && ms[0][1] == '$' then [] else [ms[0]]) + PureInline(ms[1..])
  }

  /** An inline match starts with `$$` exactly when its body is empty, so
      the pure inline matches are those with a body. */
  lemma {:induction false} PureInlineHaveBodies(ms: seq<string>)
    requires forall i :: 0 <= i < |ms| ==> Delimited(ms[i]) && NoDollar(ms[i][1..|ms[i]| - 1])
    ensures forall i :: 0 <= i < |PureInline(ms)| ==> |PureInline(ms)[i]| > 2
    ensures |PureInline(ms)| == |ms| - CountEmpty(ms)
  {
    if ms != [] {
      var m := ms[0];
      if |m| > 2 {
        assert m[1..|m| - 1][0] == m[1];
      }
      assert forall i :: 1 <= i < |ms| ==> ms[1..][i - 1] == ms[i];
      PureInlineHaveBodies(ms[1..]);
    }
  }

  /** The number of matches with an empty body. */
  function CountEmpty(ms: seq<string>): (n: nat)
    ensures n <= |ms|
  {
    if ms == [] then 0 else (if |ms[0]| == 2 then 1 else 0) + CountEmpty(ms[1..])
  }

  datatype MathCount = MathCount(inline: nat, block: nat)

  /** `countMathExpressions`: the dollar signs taken in pairs from the left,
      counting the pairs that are not adjacent, and the `$$` tokens taken
      from the left without overlap, counting the complete pairs of them. */
  function CountMathExpressions(s: string): (r: MathCount)
    ensures r.inline == GappedPairs(Dollars(s, 0))
    ensures r.block == |DoubleTokens(s, 0)| / 2
    ensures 2 * r.inline <= DollarCount(s) && 4 * r.block <= DollarCount(s)
  {
    InlineCountAll(s, 0);
    BlockCountAll(s, 0);
    MathCount(|PureInline(InlineMatches(s, 0))|, |BlockMatches(s, 0)|)
  }

  /** The positions of the dollar signs of `s[q..]`, in order. */
  function Dollars(s: string, q: nat): (ps: seq<nat>)
    requires q <= |s|
    ensures forall i :: 0 <= i < |ps| ==> q <= ps[i] < |s| && s[ps[i]] == '$'
    decreases |s| - q
  {
    match NextDollar(s, q)
    case None => []
    case Some(a) => [a] + Dollars(s, a + 1)
  }

  /** Of the positions taken two by two, the pairs that are not adjacent. */
  function GappedPairs(ps: seq<nat>): nat {
    if |ps| < 2 then 0 else (if ps[1] > ps[0] + 1 then 1 else 0) + GappedPairs(ps[2..])
  }

  /** The starts of the `$$` tokens of `s[q..]`, found from the left, each
      search resuming after the previous token. */
  function DoubleTokens(s: string, q: nat): (ps: seq<nat>)
    requires q <= |s|
    decreases |s| - q
  {
    match NextDouble(s, q)
    case None => []
    case Some(a) => [a] + DoubleTokens(s, a + 2)
  }

  lemma {:induction false} InlineCountAll(s: string, q: nat)
    requires q <= |s|
    ensures |PureInline(InlineMatches(s, q))| == GappedPairs(Dollars(s, q))
    decreases |s| - q
  {
    match NextDollar(s, q)
    case None =>
      InlineCountEnd(s, q);
    case Some(a) =>
      match NextDollar(s, a + 1)
      case None =>
        InlineCountLone(s, q, a);
      case Some(b) =>
        InlineCountAll(s, b + 1);
        InlineCountPair(s, q, a, b);
  }

  /** No dollar sign left: no match and no pair. */
  lemma InlineCountEnd(s: string, q: nat)
    requires q <= |s| && NextDollar(s, q).None?
    ensures |PureInline(InlineMatches(s, q))| == GappedPairs(Dollars(s, q))
  {
    InlineSkip(s, q, |s|);
  }

  /** One dollar sign left: no match and no pair. */
  lemma InlineCountLone(s: string, q: nat, a: nat)
    requires q <= a < |s| && NextDollar(s, q) == Some(a) && NextDollar(s, a + 1).None?
    ensures |PureInline(InlineMatches(s, q))| == GappedPairs(Dollars(s, q))
  {
    InlineSkip(s, q, a);
    NextDollarIs(s, a, a);
    InlineLone(s, a);
  }

  /** The step of `InlineCountAll` over the next two dollar signs. */
  lemma InlineCountPair(s: string, q: nat, a: nat, b: nat)
    requires q <= a < |s| && NextDollar(s, q) == Some(a) && NextDollar(s, a + 1) == Some(b)
    requires |PureInline(InlineMatches(s, b + 1))| == GappedPairs(Dollars(s, b + 1))
    ensures |PureInline(InlineMatches(s, q))| == GappedPairs(Dollars(s, q))
  {
    var gap := if b > a + 1 then 1 else 0;
    calc {
      |PureInline(InlineMatches(s, q))|;
    == { InlineSkip(s, q, a); }
      |PureInline(InlineMatches(s, a))|;
    == { InlinePairStep(s, a, b); }
      gap + |PureInline(InlineMatches(s, b + 1))|;
      gap + GappedPairs(Dollars(s, b + 1));
    == { DollarsPair(s, a, b); }
      GappedPairs(Dollars(s, a));
    == { DollarsFromNext(s, q, a); }
      GappedPairs(Dollars(s, q));
    }
  }

  /** The dollar signs from `q` are those from the next one on. */
  lemma DollarsFromNext(s: string, q: nat, a: nat)
    requires q <= a < |s| && NextDollar(s, q) == Some(a)
    ensures Dollars(s, q) == Dollars(s, a)
  {
    NextDollarIs(s, a, a);
  }

  /** A last, unpaired dollar sign opens nothing. */
  lemma InlineLone(s: string, a: nat)
    requires a < |s| && s[a] == '$' && NextDollar(s, a + 1).None?
    ensures InlineMatches(s, a) == [] && Dollars(s, a) == [a]
  {
    NextDollarIs(s, a, a);
    InlineSkip(s, a + 1, |s|);
  }

  /** One pair of dollar signs: one inline match, pure exactly when the
      two are apart. */
  lemma InlinePairStep(s: string, a: nat, b: nat)
    requires a < |s| && s[a] == '$' && NextDollar(s, a + 1) == Some(b)
    ensures |PureInline(InlineMatches(s, a))| == (if b > a + 1 then 1 else 0) + |PureInline(InlineMatches(s, b + 1))|
  {
    InlinePairMatch(s, a, b);
    var m := s[a..b + 1];
    PureInlineCons(m, InlineMatches(s, b + 1));
    assert m[1] == s[a + 1];
  }

  lemma InlinePairMatch(s: string, a: nat, b: nat)
    requires a < |s| && s[a] == '$' && NextDollar(s, a + 1) == Some(b)
    ensures InlineMatches(s, a) == [s[a..b + 1]] + InlineMatches(s, b + 1)
  {
    assert InlineAt(s, a) == Some(b + 1);
  }

  lemma DollarsPair(s: string, a: nat, b: nat)
    requires a < |s| && s[a] == '$' && NextDollar(s, a + 1) == Some(b)
    ensures GappedPairs(Dollars(s, a)) == (if b > a + 1 then 1 else 0) + GappedPairs(Dollars(s, b + 1))
  {
    NextDollarIs(s, a, a);
    NextDollarIs(s, b, b);
    assert Dollars(s, a) == [a, b] + Dollars(s, b + 1);
    GappedPairsStep(a, b, Dollars(s, b + 1));
  }

  lemma PureInlineCons(m: string, ms: seq<string>)
    ensures PureInline([m] + ms) == (if |m| >= 2 && m[0] == '$' && m[1] == '$' then [] else [m]) + PureInline(ms)
  {
    assert ([m] + ms)[1..] == ms;
  }

  lemma GappedPairsStep(a: nat, b: nat, ps: seq<nat>)
    ensures GappedPairs([a, b] + ps) == (if b > a + 1 then 1 else 0) + GappedPairs(ps)
  {
    assert ([a, b] + ps)[2..] == ps;
  }

  lemma {:induction false} BlockCountAll(s: string, q: nat)
    requires q <= |s|
    ensures |BlockMatches(s, q)| == |DoubleTokens(s, q)| / 2
    decreases |s| - q
  {
    var n := NextDouble(s, q);
    if n.None? {
      BlockSkip(s, q, |s|);
    } else {
      var a := n.value;
      BlockSkip(s, q, a);
      NextDoubleIs(s, a, a);
      var n2 := NextDouble(s, a + 2);
      if n2.None? {
        BlockUnclosed(s, a);
      } else {
        var b := n2.value;
        BlockCountAll(s, b + 2);
        BlockPairStep(s, a, b);
      }
    }
  }

  /** A `$$` closed by the next `$$` is one block match. */
  lemma BlockPairStep(s: string, a: nat, b: nat)
    requires DoubleAt(s, a) && NextDouble(s, a + 2) == Some(b)
    ensures |BlockMatches(s, a)| == 1 + |BlockMatches(s, b + 2)|
    ensures DoubleTokens(s, a) == [a, b] + DoubleTokens(s, b + 2)
  {
    BlockPairMatch(s, a, b);
    BlockPairTokens(s, a, b);
  }

  lemma BlockPairMatch(s: string, a: nat, b: nat)
    requires DoubleAt(s, a) && NextDouble(s, a + 2) == Some(b)
    ensures |BlockMatches(s, a)| == 1 + |BlockMatches(s, b + 2)|
  {
    assert BlockAt(s, a) == Some(b + 2);
  }

  lemma BlockPairTokens(s: string, a: nat, b: nat)
    requires DoubleAt(s, a) && NextDouble(s, a + 2) == Some(b)
    ensures DoubleTokens(s, a) == [a, b] + DoubleTokens(s, b + 2)
  {
    NextDoubleIs(s, a, a);
    NextDoubleIs(s, b, b);
  }

  /** A `$$` with no `$$` after it opens no block. */
  lemma BlockUnclosed(s: string, a: nat)
    requires DoubleAt(s, a) && NextDouble(s, a + 2).None?
    ensures BlockMatches(s, a) == []
  {
    assert BlockAt(s, a).None?;
    assert a + 3 <= |s| ==> NextDouble(s, a + 3).None?;
    assert BlockAt(s, a + 1).None?;
    BlockSkip(s, a + 2, |s|);
  }

  lemma {:induction false} InlineSkip(s: string, q: nat, r: nat)
    requires q <= r <= |s| && NoDollarIn(s, q, r)
    ensures InlineMatches(s, q) == InlineMatches(s, r)
    decreases r - q
  {
    if q < r {
      InlineSkip(s, q + 1, r);
    }
  }

  lemma {:induction false} BlockSkip(s: string, q: nat, r: nat)
    requires q <= r <= |s| && forall i :: q <= i < r ==> !DoubleAt(s, i)
    ensures BlockMatches(s, q) == BlockMatches(s, r)
    decreases r - q
  {
    if q < r {
      BlockSkip(s, q + 1, r);
    }
  }

  // ---------------------------------------------------------------------
  // Extraction

  /** The end of the match at `k`'s closing dollar: the optional second
      dollar of `\$\$?` is taken when it is there. */
  function CloseAt(s: string, k: nat): (e: nat)
    requires k < |s|
    ensures e == k + 1 || (e == k + 2 && DoubleAt(s, k))
  {
    if DoubleAt(s, k) then k + 2 else k + 1
  }

  /** The match of B = `\$\$?([\s\S]*?)\$\$?` starting at `q`, as its end.
      When the opening `$$` has no closing dollar after it, the regex
      engine backtracks: the optional dollar is left out of the opening
      and becomes the closing dollar, so the match is just `$$`. */
  function ExtractAt(s: string, q: nat): (e: Option<nat>)
    requires q <= |s|
    ensures e.Some? ==> q + 2 <= e.value <= |s| && s[q] == '$' && s[e.value - 1] == '$'
    ensures e.None? <==> !(q < |s| && s[q] == '$' && NextDollar(s, q + 1).Some?)
  {
    if q < |s| && s[q] == '$' then
      if DoubleAt(s, q) then
        match NextDollar(s, q + 2)
        case Some(k) => Some(CloseAt(s, k))
        case None => Some(q + 2)
      else
        match NextDollar(s, q + 1)
        case Some(k) => Some(CloseAt(s, k))
        case None => None
    else None
  }

  /** The text of a match: `slice(2, -2)` after `$$`, `slice(1, -1)` otherwise. */
  function Content(m: string): (c: string)
    ensures |c| <= |m|
  {
    if |m| >= 2 && m[0] == '$' && m[1] == '$' then Inner(m, 2, 2) else Inner(m, 1, 1)
  }

  /** The contents of the matches of B over `s[q..]`; each match takes at
      least two dollar signs. */
  function ExtractMatches(s: string, q: nat): (cs: seq<string>)
    requires q <= |s|
    ensures 2 * |cs| <= DollarsFrom(s, q)
    decreases |s| - q
  {
    if q == |s| then []
    else match ExtractAt(s, q)
      case None => ExtractMatches(s, q + 1)
      case Some(e) =>
        DollarsMonotone(s, q + 1, e - 1);
        [Content(s[q..e])] + ExtractMatches(s, e)
  }

  /** `extractMathContent`. */
  function ExtractMathContent(s: string): (cs: seq<string>)
    ensures 2 * |cs| <= DollarCount(s)
    ensures cs == [] <==> DollarCount(s) < 2
  {
    ExtractMatchesEmpty(s, 0);
    ExtractMatches(s, 0)
  }

  lemma {:induction false} ExtractMatchesEmpty(s: string, q: nat)
    requires q <= |s|
    ensures ExtractMatches(s, q) == [] <==> DollarsFrom(s, q) < 2
    decreases |s| - q
  {
    if q < |s| {
      ExtractMatchesEmpty(s, q + 1);
      if s[q] == '$' && NextDollar(s, q + 1).None? {
        DollarsMonotone(s, q + 1, |s|);
      }
    }
  }

  /** Extraction finds something exactly when the text has LaTeX in it. */
  lemma ExtractEmptyIffNoLaTeX(s: string)
    ensures ExtractMathContent(s) == [] <==> !HasLaTeXExpressions(s)
  {
    ExtractMatchesEmpty(s, 0);
  }

  lemma {:induction false} ExtractSkip(s: string, q: nat, r: nat)
    requires q <= r <= |s| && NoDollarIn(s, q, r)
    ensures ExtractMatches(s, q) == ExtractMatches(s, r)
    decreases r - q
  {
    if q < r {
      ExtractSkip(s, q + 1, r);
    }
  }

  // ---------------------------------------------------------------------
  // Texts with two or four dollar signs

  /** The only dollar signs of `s` are at `a` and `b`. */
  predicate TwoDollarsAt(s: string, a: nat, b: nat) {
    && a < b < |s| && s[a] == '$' && s[b] == '$'
    && NoDollarIn(s, 0, a) && NoDollarIn(s, a + 1, b) && NoDollarIn(s, b + 1, |s|)
  }

  /** The only dollar signs of `s` are the pairs at `a` and `b`. */
  predicate TwoDoublesAt(s: string, a: nat, b: nat) {
    && a + 2 <= b && b + 2 <= |s| && DoubleAt(s, a) && DoubleAt(s, b)
    && NoDollarIn(s, 0, a) && NoDollarIn(s, a + 2, b) && NoDollarIn(s, b + 2, |s|)
  }

  lemma InlineDollars(t: string, c: string, u: string)
    requires NoDollar(t) && NoDollar(c) && NoDollar(u)
    ensures TwoDollarsAt(t + "$" + c + "$" + u, |t|, |t| + 1 + |c|)
  {
    var s := t + "$" + c + "$" + u;
    var a, b := |t|, |t| + 1 + |c|;
    assert forall i :: 0 <= i < a ==> s[i] == t[i];
    assert forall i :: a < i < b ==> s[i] == c[i - a - 1];
    assert forall i :: b + 1 <= i < |s| ==> s[i] == u[i - b - 1];
  }

  lemma BlockDollars(t: string, c: string, u: string)
    requires NoDollar(t) && NoDollar(c) && NoDollar(u)
    ensures TwoDoublesAt(t + "$$" + c + "$$" + u, |t|, |t| + 2 + |c|)
  {
    var s := t + "$$" + c + "$$" + u;
    var a, b := |t|, |t| + 2 + |c|;
    assert forall i :: 0 <= i < a ==> s[i] == t[i];
    assert forall i :: a + 2 <= i < b ==> s[i] == c[i - a - 2];
    assert forall i :: b + 2 <= i < |s| ==> s[i] == u[i - b - 2];
  }

  lemma TwoDollarsMatches(s: string, a: nat, b: nat)
    requires TwoDollarsAt(s, a, b)
    ensures InlineMatches(s, 0) == [s[a..b + 1]]
    ensures BlockMatches(s, 0) == []
  {
    InlineSkip(s, 0, a);
    NextDollarIs(s, a + 1, b);
    InlineSkip(s, b + 1, |s|);
    assert forall i :: 0 <= i < |s| && i != a && i != b ==> s[i] != '$';
    assert NextDouble(s, a + 2) == None;
    BlockSkip(s, 0, a);
    BlockSkip(s, a + 1, |s|);
  }

  lemma TwoDollarsExtract(s: string, a: nat, b: nat)
    requires TwoDollarsAt(s, a, b)
    ensures ExtractMathContent(s) == [s[a + 1..b]]
  {
    ExtractSkip(s, 0, a);
    var e := if b == a + 1 then a + 2 else b + 1;
    ExtractFirst(s, a, b);
    assert ExtractMatches(s, a) == [Content(s[a..e])] + ExtractMatches(s, e);
    ExtractSkip(s, e, |s|);
  }

  /** The match of B at the first of two dollar signs, and its content. */
  lemma ExtractFirst(s: string, a: nat, b: nat)
    requires TwoDollarsAt(s, a, b)
    ensures var e := if b == a + 1 then a + 2 else b + 1;
      ExtractAt(s, a) == Some(e) && Content(s[a..e]) == s[a + 1..b]
  {
    if b == a + 1 {
      assert DoubleAt(s, a);
      assert NextDollar(s, a + 2) == None;
      var m := s[a..a + 2];
      assert m[0] == '$' && m[1] == '$';
      assert Content(m) == "";
    } else {
      assert !DoubleAt(s, a);
      NextDollarIs(s, a + 1, b);
      assert !DoubleAt(s, b);
      assert CloseAt(s, b) == b + 1;
      var m := s[a..b + 1];
      assert m[1] == s[a + 1] && m[1] != '$';
      var body, want := m[1..|m| - 1], s[a + 1..b];
      assert |body| == |want|;
      forall i | 0 <= i < |body|
        ensures body[i] == want[i]
      {
        assert body[i] == m[1 + i] == s[a + 1 + i];
      }
      assert body == want;
    }
  }

  lemma TwoDoublesInline(s: string, a: nat, b: nat)
    requires TwoDoublesAt(s, a, b)
    ensures InlineMatches(s, 0) == [s[a..a + 2], s[b..b + 2]]
  {
    assert s[a..a + 2] == "$$" && s[b..b + 2] == "$$";
    calc {
      InlineMatches(s, 0);
      { InlineSkip(s, 0, a); }
      InlineMatches(s, a);
      { InlineEmptyAt(s, a); }
      ["$$"] + InlineMatches(s, a + 2);
      { InlineSkip(s, a + 2, b); }
      ["$$"] + InlineMatches(s, b);
      { InlineEmptyAt(s, b); }
      ["$$"] + (["$$"] + InlineMatches(s, b + 2));
      { InlineSkip(s, b + 2, |s|); }
      ["$$"] + (["$$"] + InlineMatches(s, |s|));
      ["$$", "$$"];
    }
  }

  /** A `$$` seen by the inline alternative is an empty inline match. */
  lemma InlineEmptyAt(s: string, k: nat)
    requires DoubleAt(s, k)
    ensures InlineMatches(s, k) == ["$$"] + InlineMatches(s, k + 2)
  {
    NextDollarIs(s, k + 1, k + 1);
    assert InlineAt(s, k) == Some(k + 2);
    assert s[k..k + 2] == "$$";
  }

  lemma TwoDoublesBlock(s: string, a: nat, b: nat)
    requires TwoDoublesAt(s, a, b)
    ensures BlockMatches(s, 0) == [s[a..b + 2]]
  {
    BlockSkip(s, 0, a);
    assert forall i :: a + 2 <= i < b ==> !DoubleAt(s, i);
    NextDoubleIs(s, a + 2, b);
    assert BlockAt(s, a) == Some(b + 2);
    assert BlockMatches(s, a) == [s[a..b + 2]] + BlockMatches(s, b + 2);
    BlockSkip(s, b + 2, |s|);
  }

  lemma TwoDoublesExtract(s: string, a: nat, b: nat)
    requires TwoDoublesAt(s, a, b)
    ensures ExtractMathContent(s) == [s[a + 2..b]]
  {
    var m := s[a..b + 2];
    assert Content(m) == s[a + 2..b] by {
      assert m[0] == s[a] && m[1] == s[a + 1];
      var x, y := m[2..|m| - 2], s[a + 2..b];
      assert forall i :: 0 <= i < |x| ==> x[i] == y[i];
    }
    calc {
      ExtractMatches(s, 0);
      { ExtractSkip(s, 0, a); }
      ExtractMatches(s, a);
      { NextDollarIs(s, a + 2, b); assert ExtractAt(s, a) == Some(b + 2); ExtractMatchAt(s, a, b + 2); }
      [Content(m)] + ExtractMatches(s, b + 2);
      { ExtractSkip(s, b + 2, |s|); }
      [Content(m)] + ExtractMatches(s, |s|);
    }
  }

  /** A match of B at `q` contributes its content, and the scan resumes after it. */
  lemma ExtractMatchAt(s: string, q: nat, e: nat)
    requires q < |s| && ExtractAt(s, q) == Some(e)
    ensures ExtractMatches(s, q) == [Content(s[q..e])] + ExtractMatches(s, e)
  {
  }

  /** `t$c$u` with no other dollar sign counts one inline expression when
      `c` is not empty, and `t$$u` counts nothing; its one extracted
      content is `c`. */
  lemma InlineCounted(t: string, c: string, u: string)
    requires NoDollar(t) && NoDollar(c) && NoDollar(u)
    ensures CountMathExpressions(t + "$" + c + "$" + u) == MathCount(if c == "" then 0 else 1, 0)
    ensures ExtractMathContent(t + "$" + c + "$" + u) == [c]
  {
    var s := t + "$" + c + "$" + u;
    var a, b := |t|, |t| + 1 + |c|;
    InlineDollars(t, c, u);
    TwoDollarsMatches(s, a, b);
    TwoDollarsExtract(s, a, b);
    assert s[a + 1..b] == c;
    var m := s[a..b + 1];
    if c != "" {
      assert m[1] == c[0];
    }
    assert PureInline([m]) == if c == "" then [] else [m];
  }

  /** `t$$c$$u` with no other dollar sign counts one block expression and
      no inline one, and its one extracted content is `c`. */
  lemma BlockCounted(t: string, c: string, u: string)
    requires NoDollar(t) && NoDollar(c) && NoDollar(u)
    ensures CountMathExpressions(t + "$$" + c + "$$" + u) == MathCount(0, 1)
    ensures ExtractMathContent(t + "$$" + c + "$$" + u) == [c]
  {
    var s := t + "$$" + c + "$$" + u;
    var a, b := |t|, |t| + 2 + |c|;
    BlockDollars(t, c, u);
    TwoDoublesInline(s, a, b);
    TwoDoublesBlock(s, a, b);
    TwoDoublesExtract(s, a, b);
    assert s[a + 2..b] == c;
    var ms := [s[a..a + 2], s[b..b + 2]];
    assert ms[1..] == [s[b..b + 2]];
    assert PureInline(ms) == [];
  }
}
