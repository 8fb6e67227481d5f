/** Testcases printed by the dashboard and built again: saving unchanged, and which cases come back. */
module Testcases {
  import opened Text
  import opened LineEndings
  import opened Judging
  import opened CaseBlocks

  // ----- the normalised non-blank pieces of a split

  function InkOf(pieces: seq<string>): seq<string> {
    if pieces == [] then []
    else (if AllSpace(pieces[0]) then [] else [Canonical(pieces[0])]) + InkOf(pieces[1..])
  }

  function OutputBlocks(value: string): seq<string> {
    NormalizeAll(SplitCaseBlocks(value))
  }

  lemma {:induction false} TrimStartPad(w: string, x: string)
    requires AllSpace(w)
    ensures TrimStart(w + x, Whitespace) == TrimStart(x, Whitespace)
  {
    if w == "" {
      assert w + x == x;
    } else {
      assert (w + x)[1..] == w[1..] + x;
      TrimStartPad(w[1..], x);
    }
  }

  lemma {:induction false} TrimEndPad(x: string, w: string)
    requires AllSpace(w)
    ensures TrimEnd(x + w, Whitespace) == TrimEnd(x, Whitespace)
  {
    if x == "" {
      assert x + w == w;
      TrimEndEmptyIff(w);
    } else {
      assert (x + w)[1..] == x[1..] + w;
      TrimEndPad(x[1..], w);
    }
  }

  lemma {:induction false} TrimStartAppend(x: string, w: string)
    requires !AllSpace(x)
    ensures TrimStart(x + w, Whitespace) == TrimStart(x, Whitespace) + w
  {
    assert (x + w)[1..] == x[1..] + w;
    if IsSpace(x[0]) { TrimStartAppend(x[1..], w); }
  }

  lemma StripPad(w: string, x: string, y: string)
    requires AllSpace(w) && AllSpace(y)
    ensures Strip(w + x + y, Whitespace) == Strip(x, Whitespace)
  {
    assert w + x + y == w + (x + y);
    TrimStartPad(w, x + y);
    if AllSpace(x) {
      AllSpaceConcat(x, y);
      BlankIff(x);
      BlankIff(x + y);
    } else {
      TrimStartAppend(x, y);
      TrimEndPad(TrimStart(x, Whitespace), y);
    }
  }

  lemma NewlinesAreSpace(s: string)
    requires forall i :: 0 <= i < |s| ==> s[i] == '\n'
    ensures AllSpace(s)
  {
    AllSpaceIff(s);
  }

  lemma StripNewlinesFirst(s: string)
    ensures Strip(Strip(s, Newline), Whitespace) == Strip(s, Whitespace)
  {
    var lead, tail := StripSpec(s, Newline);
    forall i | 0 <= i < |lead| ensures lead[i] == '\n' { assert Matches(Newline, lead[i]); }
    forall i | 0 <= i < |tail| ensures tail[i] == '\n' { assert Matches(Newline, tail[i]); }
    NewlinesAreSpace(lead);
    NewlinesAreSpace(tail);
    StripPad(lead, Strip(s, Newline), tail);
  }

  lemma {:induction false} KeptBlocksAreInk(ps: seq<string>)
    requires forall i :: 0 <= i < |ps| ==> '\r' !in ps[i]
    ensures NormalizeAll(KeepBlocks(ps)) == InkOf(ps)
  {
    if ps != [] {
      forall i | 0 <= i < |ps[1..]| ensures ps[1..][i] == ps[i + 1] {}
      KeptBlocksAreInk(ps[1..]);
      BlankIff(ps[0]);
      var b := Strip(ps[0], Newline);
      StripChars(ps[0], Newline, '\r');
      NormalizeNewlinesId(b);
      NormalizeIsCanonical(b);
      StripNewlinesFirst(ps[0]);
      var rest := KeepBlocks(ps[1..]);
      assert ([b] + rest)[1..] == rest;
      assert [] + rest == rest && [] + InkOf(ps[1..]) == InkOf(ps[1..]);
    }
  }

  /** The text left after a separator that starts in the padding of `w + x` is padding and a suffix of `x`. */
  lemma PaddingLeft(w: string, x: string, k: nat) returns (v: string, y: string, u: string)
    requires AllSpace(w) && k <= |w + x| && AllSpace((w + x)[..k])
    ensures (w + x)[k..] == v + y && x == u + y && AllSpace(v) && AllSpace(u)
    ensures v == "" || u == ""
    ensures |v| <= |w|
  {
    if k <= |w| {
      v, y, u := w[k..], x, "";
      AllSpaceConcat(w[..k], v);
      assert w[..k] + v == w;
    } else {
      v, y, u := "", x[k - |w|..], x[..k - |w|];
      AllSpaceConcat(w, u);
      assert (w + x)[..k] == w + u;
    }
  }

  /** Leading whitespace of a text does not change its non-blank blocks. */
  lemma {:induction false} InkPadStart(w: string, x: string)
    requires AllSpace(w)
    ensures InkOf(SplitAtSeparators(w + x)) == InkOf(SplitAtSeparators(x))
    decreases |w| + |x|
  {
    if w == "" {
      assert w + x == x;
    } else {
      var s := w + x;
      var t := w[1..] + x;
      assert s[1..] == t;
      if SeparatorLength(s) > 0 {
        var k := LastBreak(t);
        LastBreakSpec(t);
        assert s[k + 1..] == t[k..];
        InkOfAfterEmpty(SplitAtSeparators(t[k..]));
        var v, y, u := PaddingLeft(w[1..], x, k);
        InkPadStart(v, y);
        InkPadStart(u, y);
      } else {
        InkPadStart(w[1..], x);
        InkPadStartPiece(w[0], SplitAtSeparators(t));
      }
    }
  }

  lemma InkOfAfterEmpty(r: seq<string>)
    ensures InkOf([""] + r) == InkOf(r)
  {
    assert ([""] + r)[1..] == r;
    assert [] + InkOf(r) == InkOf(r);
  }

  lemma InkPadStartPiece(c: char, r: seq<string>)
    requires r != [] && IsSpace(c)
    ensures InkOf([[c] + r[0]] + r[1..]) == InkOf(r)
  {
    assert ([[c] + r[0]] + r[1..])[1..] == r[1..];
    assert ([c] + r[0])[1..] == r[0];
  }

  lemma InkOfBlank(s: string)
    requires AllSpace(s)
    ensures InkOf(SplitAtSeparators(s)) == []
    ensures TrimEnd(SplitAtSeparators(s)[0], Whitespace) == ""
    ensures InkOf(SplitAtSeparators(s)[1..]) == []
  {
    InkPadStart(s, "");
    assert s + "" == s;
    SplitShape(s);
    var p := SplitAtSeparators(s)[0];
    assert s == p + s[|p|..];
    AllSpaceConcat(p, s[|p|..]);
    TrimEndEmptyIff(p);
  }

  /** The first pieces agree up to trailing whitespace and the later ones have the same ink. */
  ghost predicate SameInk(r: seq<string>, r': seq<string>) {
    && r != [] && r' != []
    && TrimEnd(r[0], Whitespace) == TrimEnd(r'[0], Whitespace)
    && InkOf(r[1..]) == InkOf(r'[1..])
  }

  lemma SameInkCons(c: char, r: seq<string>, r': seq<string>)
    requires SameInk(r, r')
    ensures SameInk([[c] + r[0]] + r[1..], [[c] + r'[0]] + r'[1..])
  {
    assert ([c] + r[0])[1..] == r[0] && ([c] + r'[0])[1..] == r'[0];
    assert ([[c] + r[0]] + r[1..])[1..] == r[1..];
    assert ([[c] + r'[0]] + r'[1..])[1..] == r'[1..];
  }

  lemma SameInkAfterEmpty(r: seq<string>, r': seq<string>)
    requires SameInk(r, r')
    ensures SameInk([""] + r, [""] + r')
  {
    InkOfCongruent(r, r');
    assert ([""] + r)[1..] == r && ([""] + r')[1..] == r';
  }

  /** Trailing whitespace of a text changes no non-blank block beyond its own trailing whitespace. */
  lemma {:induction false} InkPadEnd(x: string, w: string)
    requires AllSpace(w)
    ensures SameInk(SplitAtSeparators(x + w), SplitAtSeparators(x))
    decreases |x|
  {
    AllSpaceConcat(x, w);
    if AllSpace(x) {
      InkOfBlank(x);
      InkOfBlank(x + w);
    } else {
      var c, t := x[0], x[1..];
      assert x == [c] + t && x + w == [c] + (t + w);
      assert (x + w)[1..] == t + w;
      LastBreakAppend(t, w);
      LastBreakBound(t);
      if SeparatorLength(x) > 0 && !AllSpace(t) {
        InkPadEnd(t[LastBreak(t)..], w);
        InkPadEndSkip(c, t, w);
      } else {
        InkPadEnd(t, w);
        InkPadEndStep(c, t, w);
      }
    }
  }

  lemma InkPadEndSkip(c: char, t: string, w: string)
    requires c == '\n' && LastBreak(t) > 0 && !AllSpace(t) && LastBreak(t) <= |t|
    requires SameInk(SplitAtSeparators(t[LastBreak(t)..] + w), SplitAtSeparators(t[LastBreak(t)..]))
    ensures SameInk(SplitAtSeparators([c] + (t + w)), SplitAtSeparators([c] + t))
  {
    hide SameInk, SplitAtSeparators, LastBreak, AllSpace;
    LastBreakAppend(t, w);
    SplitAfterBreak(c, t);
    SplitAfterBreak(c, t + w);
    assert (t + w)[LastBreak(t)..] == t[LastBreak(t)..] + w;
    SameInkAfterEmpty(SplitAtSeparators(t[LastBreak(t)..] + w), SplitAtSeparators(t[LastBreak(t)..]));
  }

  lemma SplitAfterBreak(c: char, t: string)
    requires c == '\n' && LastBreak(t) > 0
    ensures LastBreak(t) <= |t|
    ensures SplitAtSeparators([c] + t) == [""] + SplitAtSeparators(t[LastBreak(t)..])
  {
    LastBreakBound(t);
    assert ([c] + t)[1..] == t;
    assert ([c] + t)[LastBreak(t) + 1..] == t[LastBreak(t)..];
    SplitSkip([c] + t);
  }

  lemma InkPadEndStep(c: char, t: string, w: string)
    requires SeparatorLength([c] + t) == 0 && SeparatorLength([c] + (t + w)) == 0
    requires SameInk(SplitAtSeparators(t + w), SplitAtSeparators(t))
    ensures SameInk(SplitAtSeparators([c] + (t + w)), SplitAtSeparators([c] + t))
  {
    SplitStep(c, t);
    SplitStep(c, t + w);
    SameInkCons(c, SplitAtSeparators(t + w), SplitAtSeparators(t));
  }

  lemma InkOfCongruent(r: seq<string>, r': seq<string>)
    requires SameInk(r, r')
    ensures InkOf(r) == InkOf(r')
  {
    CanonicalOfTrimEnd(r[0]);
    CanonicalOfTrimEnd(r'[0]);
    TrimEndEmptyIff(r[0]);
    TrimEndEmptyIff(r'[0]);
  }

  lemma CanonicalOfTrimEnd(s: string)
    ensures Canonical(s) == Canonical(TrimEnd(s, Whitespace))
  {
    var u := TrimEnd(s, Whitespace);
    TrimEndSpec(s, Whitespace);
    AllSpaceIff(s[|u|..]);
    assert s == "" + u + s[|u|..];
    StripPad("", u, s[|u|..]);
  }

  lemma {:induction false} InkOfTrimLines(ps: seq<string>)
    ensures InkOf(TrimLinesAll(ps)) == InkOf(ps)
  {
    if ps != [] {
      InkOfTrimLines(ps[1..]);
      CanonicalTrimLines(ps[0]);
      TrimLinesAllSpace(ps[0]);
    }
  }

  /** The non-blank blocks of a text, stripped or not. */
  lemma InkOfPadded(w: string, x: string, y: string)
    requires AllSpace(w) && AllSpace(y)
    ensures InkOf(SplitAtSeparators(w + x + y)) == InkOf(SplitAtSeparators(x))
  {
    assert w + x + y == w + (x + y);
    InkPadStart(w, x + y);
    InkPadEnd(x, y);
    InkOfCongruent(SplitAtSeparators(x + y), SplitAtSeparators(x));
  }

  lemma OutputBlocksAreInk(value: string)
    ensures OutputBlocks(value) == InkOf(SplitAtSeparators(NormalizeNewlines(value)))
  {
    var s := NormalizeNewlines(value);
    var t := Strip(s, Newline);
    var lead, tail := StripSpec(s, Newline);
    forall i | 0 <= i < |lead| ensures lead[i] == '\n' { assert Matches(Newline, lead[i]); }
    forall i | 0 <= i < |tail| ensures tail[i] == '\n' { assert Matches(Newline, tail[i]); }
    NewlinesAreSpace(lead);
    NewlinesAreSpace(tail);
    InkOfPadded(lead, t, tail);
    NormalizeNewlinesNoCr(value);
    StripChars(s, Newline, '\r');
    SplitTidy(t);
    KeptBlocksAreInk(SplitAtSeparators(t));
  }

  /** Normalising an expected output keeps its blocks: same number, same normalised text. */
  lemma OutputBlocksOfNormalized(value: string)
    ensures OutputBlocks(NormalizeJudgeOutput(value)) == OutputBlocks(value)
  {
    var s := NormalizeNewlines(value);
    var t := Strip(s, Whitespace);
    NormalizeIsCanonical(value);
    NormalizeNoCr(value);
    NormalizeNewlinesId(NormalizeJudgeOutput(value));
    OutputBlocksAreInk(value);
    OutputBlocksAreInk(NormalizeJudgeOutput(value));
    SplitTrimLines(t);
    InkOfTrimLines(SplitAtSeparators(t));
    var lead, tail := StripSpec(s, Whitespace);
    forall i | 0 <= i < |lead| ensures IsSpace(lead[i]) { assert Matches(Whitespace, lead[i]); }
    forall i | 0 <= i < |tail| ensures IsSpace(tail[i]) { assert Matches(Whitespace, tail[i]); }
    AllSpaceIff(lead);
    AllSpaceIff(tail);
    InkOfPadded(lead, t, tail);
  }

  // ----- outputs printed one after the other

  /** `r` is a split like `q` whose later pieces go on with the blocks `more`. */
  ghost predicate GoesOnWith(r: seq<string>, q: seq<string>, more: seq<string>) {
    && r != [] && q != []
    && TrimEnd(r[0], Whitespace) == TrimEnd(q[0], Whitespace)
    && InkOf(r[1..]) == InkOf(q[1..]) + more
  }

  lemma InkGoesOn(r: seq<string>, q: seq<string>, more: seq<string>)
    requires GoesOnWith(r, q, more)
    ensures InkOf(r) == InkOf(q) + more
  {
    CanonicalOfTrimEnd(r[0]);
    CanonicalOfTrimEnd(q[0]);
    TrimEndEmptyIff(r[0]);
    TrimEndEmptyIff(q[0]);
  }

  lemma BreakAhead(w: string, y: string)
    requires w != "" && AllSpace(w) && w[|w| - 1] == '\n'
    ensures LastBreak(w + y) > 0
  {
    var n := |w| - 1;
    assert w == w[..n] + "\n" && w + y == w[..n] + ("\n" + y);
    AllSpaceConcat(w[..n], "\n");
    LastBreakAllSpace(w[..n], "\n" + y);
  }

  /** Blank lines in front of a text are one empty piece, and then the text's blocks follow. */
  lemma BlankLinesSplit(u: string, y: string)
    requires IsSeparator(u)
    ensures SplitAtSeparators(u + y)[0] == "" && InkOf(SplitAtSeparators(u + y)[1..]) == InkOf(SplitAtSeparators(y))
  {
    hide SplitAtSeparators, InkOf, LastBreak;
    var w := u[1..];
    var t := w + y;
    var k := LastBreak(t);
    assert u == ['\n'] + w && u + y == ['\n'] + t;
    assert AllSpace(w);
    BreakAhead(w, y);
    LastBreakSpec(t);
    SplitAfterBreak('\n', t);
    assert SplitAtSeparators(u + y)[1..] == SplitAtSeparators(t[k..]);
    var v, z, x := PaddingLeft(w, y, k);
    InkPadStart(v, z);
    InkPadStart(x, z);
  }

  lemma JoinedStep(c: char, t: string, y: string)
    requires SeparatorLength([c] + t) == 0 && SeparatorLength([c] + (t + "\n\n" + y)) == 0
    requires GoesOnWith(SplitAtSeparators(t + "\n\n" + y), SplitAtSeparators(t), InkOf(SplitAtSeparators(y)))
    ensures GoesOnWith(
      SplitAtSeparators([c] + (t + "\n\n" + y)), SplitAtSeparators([c] + t), InkOf(SplitAtSeparators(y)))
  {
    SplitStep(c, t);
    SplitStep(c, t + "\n\n" + y);
    var r, q := SplitAtSeparators(t + "\n\n" + y), SplitAtSeparators(t);
    assert ([c] + r[0])[1..] == r[0] && ([c] + q[0])[1..] == q[0];
    assert ([[c] + r[0]] + r[1..])[1..] == r[1..];
    assert ([[c] + q[0]] + q[1..])[1..] == q[1..];
  }

  lemma JoinedSkip(c: char, t: string, y: string)
    requires c == '\n' && LastBreak(t) > 0 && !AllSpace(t) && LastBreak(t) <= |t|
    requires var rest := t[LastBreak(t)..];
      GoesOnWith(SplitAtSeparators(rest + "\n\n" + y), SplitAtSeparators(rest), InkOf(SplitAtSeparators(y)))
    ensures GoesOnWith(
      SplitAtSeparators([c] + (t + "\n\n" + y)), SplitAtSeparators([c] + t), InkOf(SplitAtSeparators(y)))
  {
    hide SplitAtSeparators, LastBreak, AllSpace;
    var rest, gap := t[LastBreak(t)..], "\n\n" + y;
    assert t + "\n\n" + y == t + gap && rest + "\n\n" + y == rest + gap;
    LastBreakAppend(t, gap);
    SplitAfterBreak(c, t);
    SplitAfterBreak(c, t + gap);
    assert (t + gap)[LastBreak(t)..] == rest + gap;
    var r, q := SplitAtSeparators(rest + gap), SplitAtSeparators(rest);
    InkGoesOn(r, q, InkOf(SplitAtSeparators(y)));
    assert ([""] + r)[1..] == r && ([""] + q)[1..] == q;
  }

  lemma {:induction false} JoinedSplits(x: string, y: string)
    ensures GoesOnWith(SplitAtSeparators(x + "\n\n" + y), SplitAtSeparators(x), InkOf(SplitAtSeparators(y)))
    decreases |x|
  {
    if x == "" || (AllSpace(x) && x[0] == '\n') {
      AllSpaceConcat(x, "\n\n");
      BlankLinesSplit(x + "\n\n", y);
      InkOfBlank(x);
    } else {
      var c, t := x[0], x[1..];
      var gap := "\n\n" + y;
      assert x == [c] + t && x + "\n\n" + y == [c] + (t + "\n\n" + y);
      assert t + "\n\n" + y == t + gap && ([c] + (t + gap))[1..] == t + gap;
      LastBreakAppend(t, gap);
      LastBreakBound(t);
      if SeparatorLength(x) > 0 {
        JoinedSplits(t[LastBreak(t)..], y);
        JoinedSkip(c, t, y);
      } else {
        JoinedSplits(t, y);
        JoinedStep(c, t, y);
      }
    }
  }

  /** The blocks of two outputs printed with a blank line between are those of the first, then those of the second. */
  lemma OutputBlocksOfTwo(a: string, b: string)
    ensures OutputBlocks(a + "\n\n" + b) == OutputBlocks(a) + OutputBlocks(b)
  {
    hide OutputBlocks, NormalizeNewlines, SplitAtSeparators, InkOf, SameInk, GoesOnWith;
    OutputBlocksAreInk(a);
    OutputBlocksAreInk(b);
    OutputBlocksAreInk(a + "\n\n" + b);
    var x := NewlinesOfTwo(a, b);
    var y := NormalizeNewlines(b);
    InkPadEnd(x, "\n");
    InkOfCongruent(SplitAtSeparators(x + "\n"), SplitAtSeparators(x));
    JoinedSplits(x, y);
    InkGoesOn(SplitAtSeparators(x + "\n\n" + y), SplitAtSeparators(x), InkOf(SplitAtSeparators(y)));
  }

  function AllBlocks(outs: seq<string>): seq<string> {
    if outs == [] then [] else OutputBlocks(outs[0]) + AllBlocks(outs[1..])
  }

  /** Printing a list of outputs and splitting it gives the blocks of each, in order. */
  lemma {:induction false} PrintedOutputBlocks(outs: seq<string>)
    ensures OutputBlocks(Print(outs)) == AllBlocks(outs)
  {
    if outs == [] {
      NormalizeNewlinesId("");
    } else if |outs| == 1 {
      assert outs[1..] == [];
      assert OutputBlocks(outs[0]) + [] == OutputBlocks(outs[0]);
    } else {
      PrintedOutputBlocks(outs[1..]);
      OutputBlocksOfTwo(outs[0], Print(outs[1..]));
    }
  }

  /** An output that is one block: something is left of it, with no blank line in between. */
  predicate OneBlock(output: string) {
    var n := NormalizeJudgeOutput(output);
    n != "" && !HasSeparator(n)
  }

  lemma OneBlockIsItsBlock(output: string)
    requires OneBlock(output)
    ensures OutputBlocks(output) == [NormalizeJudgeOutput(output)]
  {
    var n := NormalizeJudgeOutput(output);
    OutputBlocksOfNormalized(output);
    OutputBlocksAreInk(n);
    NormalizeNoCr(output);
    NormalizeNewlinesId(n);
    NormalizeIsCanonical(output);
    CanonicalIdempotent(NormalizeNewlines(output));
    SplitShape(n);
    BlankIff(n);
  }

  /** Every block of an output is one block, already normalised. */
  lemma BlocksAreOneBlock(output: string)
    ensures forall i :: 0 <= i < |OutputBlocks(output)| ==> OneBlock(OutputBlocks(output)[i])
  {
    ParsedBlocksAreClean(output);
    var bs := SplitCaseBlocks(output);
    var ns := OutputBlocks(output);
    NormalizedBlocksAreClean(bs);
    NormalizeAllAt(bs);
    NormalizeAllAt(ns);
    forall i | 0 <= i < |ns| ensures OneBlock(ns[i]) {
      assert CleanBlock(ns[i]) && NormalizeAll(ns)[i] == ns[i];
    }
  }

  lemma {:induction false} AllBlocksAreOneBlock(outs: seq<string>)
    ensures forall i :: 0 <= i < |AllBlocks(outs)| ==> OneBlock(AllBlocks(outs)[i])
  {
    hide OneBlock;
    if outs != [] {
      BlocksAreOneBlock(outs[0]);
      AllBlocksAreOneBlock(outs[1..]);
    }
  }

  lemma {:induction false} OneBlocksSplit(outs: seq<string>)
    requires forall i :: 0 <= i < |outs| ==> OneBlock(outs[i])
    ensures AllBlocks(outs) == NormalizeAll(outs)
  {
    hide OneBlock;
    if outs != [] {
      OneBlockIsItsBlock(outs[0]);
      OneBlocksSplit(outs[1..]);
    }
  }

  /** Printed outputs come back normalised, one block each, exactly when each of them is one block. */
  lemma PrintedOutputsIff(outs: seq<string>)
    ensures OutputBlocks(Print(outs)) == NormalizeAll(outs) <==> forall i :: 0 <= i < |outs| ==> OneBlock(outs[i])
  {
    PrintedOutputBlocks(outs);
    if forall i :: 0 <= i < |outs| ==> OneBlock(outs[i]) { OneBlocksSplit(outs); }
    if AllBlocks(outs) == NormalizeAll(outs) {
      AllBlocksAreOneBlock(outs);
      NormalizeAllAt(outs);
      forall i | 0 <= i < |outs| ensures OneBlock(outs[i]) {
        assert OneBlock(AllBlocks(outs)[i]);
        NormalizeIdempotent(outs[i]);
      }
    }
  }

  // ----- saving again

  lemma {:induction false} FieldsAt(cases: seq<Testcase>)
    ensures |Inputs(cases)| == |cases| == |Outputs(cases)|
    ensures forall i :: 0 <= i < |cases| ==> Inputs(cases)[i] == cases[i].input
    ensures forall i :: 0 <= i < |cases| ==> Outputs(cases)[i] == cases[i].expectedOutput
  {
    if cases != [] { FieldsAt(cases[1..]); }
  }

  /** In the many-case branch the built fields are the parsed blocks. */
  lemma BuiltFields(testcaseInput: string, expectedOutput: string)
    requires |OutputBlocks(expectedOutput)| > 1
    requires |SplitCaseBlocks(testcaseInput)| == |OutputBlocks(expectedOutput)|
    ensures var cases := BuildTestcases(testcaseInput, expectedOutput);
      Inputs(cases) == SplitCaseBlocks(testcaseInput) && Outputs(cases) == OutputBlocks(expectedOutput)
  {
    FieldsAt(BuildTestcases(testcaseInput, expectedOutput));
  }

  lemma SameFieldsSameCases(a: seq<Testcase>, b: seq<Testcase>)
    requires Inputs(a) == Inputs(b) && Outputs(a) == Outputs(b)
    ensures a == b
  {
    FieldsAt(a);
    FieldsAt(b);
    forall i | 0 <= i < |a| ensures a[i] == b[i] {
      assert Inputs(a)[i] == Inputs(b)[i] && Outputs(a)[i] == Outputs(b)[i];
    }
  }

  /**
   * Printing the built testcases of any question with the dashboard's two serialiser functions
   * yields text that builds into the same testcases.
   */
  lemma ResaveIsStable(testcaseInput: string, expectedOutput: string)
    ensures var cases := BuildTestcases(testcaseInput, expectedOutput);
      BuildTestcases(Resave(cases).testcaseInput, Resave(cases).expectedOutput) == cases
  {
    var cases := BuildTestcases(testcaseInput, expectedOutput);
    var ins := SplitCaseBlocks(testcaseInput);
    var outs := OutputBlocks(expectedOutput);
    if |outs| > 1 && |ins| == |outs| {
      BuiltFields(testcaseInput, expectedOutput);
      ParsedBlocksAreClean(testcaseInput);
      ParsedBlocksAreClean(expectedOutput);
      NormalizedBlocksAreClean(SplitCaseBlocks(expectedOutput));
      PrintedBlocksParse(ins);
      PrintedBlocksParse(outs);
      BuiltFields(Print(ins), Print(outs));
      SameFieldsSameCases(BuildTestcases(Print(ins), Print(outs)), cases);
    } else {
      FieldsAt(cases);
      assert Inputs(cases) == [testcaseInput] && Outputs(cases) == [NormalizeJudgeOutput(expectedOutput)];
      OutputBlocksOfNormalized(expectedOutput);
      NormalizeIdempotent(expectedOutput);
    }
  }

  /** A question without testcases is shown, and printed, as one blank case. */
  lemma NoCasesAreOneBlankCase()
    ensures NormalizeQuestionTestcases([]) == [Testcase("", "")]
    ensures Resave([]) == TestcaseText("", "") && BuildTestcases("", "") == [Testcase("", "")]
  {
    NormalizeNewlinesId("");
    assert [Testcase("", "")][1..] == [];
  }

  // ----- the round trip

  function Normalized(cases: seq<Testcase>): seq<Testcase> {
    seq(|cases|, i requires 0 <= i < |cases| =>
      Testcase(cases[i].input, NormalizeJudgeOutput(cases[i].expectedOutput)))
  }

  lemma NormalizedFields(cases: seq<Testcase>)
    ensures Inputs(Normalized(cases)) == Inputs(cases)
    ensures Outputs(Normalized(cases)) == NormalizeAll(Outputs(cases))
  {
    FieldsAt(cases);
    FieldsAt(Normalized(cases));
    NormalizeAllAt(Outputs(cases));
  }

  /** The cases that printing and building gives back: one that does not look like several, or clean ones. */
  predicate ComesBack(cases: seq<Testcase>) {
    if |cases| == 0 then false
    else if |cases| == 1 then
      var blocks := |OutputBlocks(cases[0].expectedOutput)|;
      !(blocks > 1 && |SplitCaseBlocks(cases[0].input)| == blocks)
    else
      CleanBlocks(Inputs(cases)) && forall i :: 0 <= i < |cases| ==> OneBlock(cases[i].expectedOutput)
  }

  lemma ManyComeBackIff(cases: seq<Testcase>)
    requires |cases| >= 2
    ensures BuildTestcases(Serialize(cases).testcaseInput, Serialize(cases).expectedOutput) == Normalized(cases) <==>
      SplitCaseBlocks(Print(Inputs(cases))) == Inputs(cases)
      && OutputBlocks(Print(Outputs(cases))) == NormalizeAll(Outputs(cases))
  {
    var ins, outs := Print(Inputs(cases)), Print(Outputs(cases));
    var built := BuildTestcases(ins, outs);
    NormalizedFields(cases);
    FieldsAt(cases);
    NormalizeAllAt(Outputs(cases));
    if SplitCaseBlocks(ins) == Inputs(cases) && OutputBlocks(outs) == NormalizeAll(Outputs(cases)) {
      BuiltFields(ins, outs);
      SameFieldsSameCases(built, Normalized(cases));
    }
    if built == Normalized(cases) {
      BuiltFields(ins, outs);
    }
  }

  /** For any list of cases: they come back in order, outputs normalised, exactly under that condition. */
  lemma CaseRoundTripIff(cases: seq<Testcase>)
    ensures BuildTestcases(Serialize(cases).testcaseInput, Serialize(cases).expectedOutput) == Normalized(cases)
      <==> ComesBack(cases)
  {
    hide OneBlock, CleanBlocks;
    FieldsAt(cases);
    if |cases| >= 2 {
      BlocksRoundTripIff(Inputs(cases));
      PrintedOutputsIff(Outputs(cases));
      ManyComeBackIff(cases);
    } else if |cases| == 1 {
      assert Inputs(cases) == [cases[0].input] && Outputs(cases) == [cases[0].expectedOutput];
    }
  }

  /** One case that comes back as two: its input and its output both look like two blocks. */
  lemma OneCaseReadAsTwo()
    ensures !ComesBack([Testcase("1\n\n2", "3\n\n4")])
    ensures |BuildTestcases("1\n\n2", "3\n\n4")| == 2
  {
    hide SplitCaseBlocks, NormalizeJudgeOutput;
    TwoBlocks('1', '2');
    TwoBlocks('3', '4');
    assert ['1'] + "\n\n" + ['2'] == "1\n\n2" && ['3'] + "\n\n" + ['4'] == "3\n\n4";
    NormalizeAllAt([['3'], ['4']]);
  }

  lemma TwoBlocks(a: char, b: char)
    requires !IsSpace(a) && !IsSpace(b)
    ensures SplitCaseBlocks([a] + "\n\n" + [b]) == [[a], [b]]
  {
    hide SplitCaseBlocks;
    OneCharIsClean(a);
    OneCharIsClean(b);
    PrintedBlocksParse([[a], [b]]);
    assert [[a], [b]][1..] == [[b]];
    assert Join([[b]], "\n\n") == [b];
    assert Join([[a], [b]], "\n\n") == [a] + "\n\n" + Join([[b]], "\n\n");
  }

  lemma OneCharIsClean(c: char)
    requires !IsSpace(c)
    ensures CleanBlock([c]) && LastBreak([c]) == 0 && !TrailBreak([c])
  {
    assert [c][1..] == "";
  }

  /** No line of `s` is empty or all whitespace. */
  predicate NoBlankLine(s: string) {
    forall i :: 0 <= i < |Split(s, '\n')| ==> !AllSpace(Split(s, '\n')[i])
  }

  lemma {:induction false} FirstLineInk(s: string)
    requires !AllSpace(Split(s, '\n')[0])
    ensures LastBreak(s) == 0 && !AllSpace(s) && s != "" && s[0] != '\n'
  {
    if s != "" && s[0] != '\n' {
      var r := Split(s[1..], '\n');
      assert ([s[0]] + r[0])[1..] == r[0];
      if IsSpace(s[0]) { FirstLineInk(s[1..]); }
    }
  }

  lemma {:induction false} LaterLinesInk(s: string)
    requires forall i :: 1 <= i < |Split(s, '\n')| ==> !AllSpace(Split(s, '\n')[i])
    ensures !HasSeparator(s) && !TrailBreak(s)
  {
    if s != "" {
      var lines, r := Split(s, '\n'), Split(s[1..], '\n');
      forall i | 1 <= i < |r| ensures !AllSpace(r[i]) {
        assert r[i] == lines[if s[0] == '\n' then i + 1 else i];
      }
      LaterLinesInk(s[1..]);
      if s[0] == '\n' {
        assert r[0] == lines[1];
        FirstLineInk(s[1..]);
      }
    }
  }

  lemma NoBlankLineIsClean(s: string)
    requires '\r' !in s && NoBlankLine(s)
    ensures CleanBlock(s) && LastBreak(s) == 0 && !TrailBreak(s)
  {
    FirstLineInk(s);
    LaterLinesInk(s);
    TrailBreakIff(s);
  }

  lemma NoBlankLineIsOneBlock(s: string)
    requires '\r' !in s && NoBlankLine(s)
    ensures OneBlock(s)
  {
    NoBlankLineIsClean(s);
    NormalizeNewlinesId(s);
    NormalizeIsCanonical(s);
    CanonicalIsClean(s);
  }

  /**
   * Two or more cases whose inputs and outputs have no carriage return and no blank line are
   * built back from their printed text: same inputs in order, outputs normalised.
   */
  lemma CaseRoundTrip(cases: seq<Testcase>)
    requires |cases| >= 2
    requires forall i :: 0 <= i < |cases| ==> '\r' !in cases[i].input && NoBlankLine(cases[i].input)
    requires forall i :: 0 <= i < |cases| ==> '\r' !in cases[i].expectedOutput && NoBlankLine(cases[i].expectedOutput)
    ensures BuildTestcases(Serialize(cases).testcaseInput, Serialize(cases).expectedOutput) == Normalized(cases)
  {
    FieldsAt(cases);
    forall i | 0 <= i < |cases|
      ensures CleanBlock(Inputs(cases)[i]) && LastBreak(Inputs(cases)[i]) == 0 && !TrailBreak(Inputs(cases)[i])
      ensures OneBlock(cases[i].expectedOutput)
    {
      NoBlankLineIsClean(cases[i].input);
      NoBlankLineIsOneBlock(cases[i].expectedOutput);
    }
    CaseRoundTripIff(cases);
  }
}
