/** Edits of program output that the judge forgives: other line endings, and whitespace at the ends of lines. */
module OutputEdits {
  import opened Text
  import opened LineEndings
  import opened Judging
  import opened Testcases

  function PadAll(lines: seq<string>, pads: seq<string>): (padded: seq<string>)
    requires |lines| == |pads|
    ensures |padded| == |lines|
  {
    if lines == [] then [] else [lines[0] + pads[0]] + PadAll(lines[1..], pads[1..])
  }

  lemma {:induction false} PadAllAt(lines: seq<string>, pads: seq<string>)
    requires |lines| == |pads|
    requires forall i :: 0 <= i < |lines| ==> IsLine(lines[i]) && IsLine(pads[i]) && AllSpace(pads[i])
    ensures forall i :: 0 <= i < |lines| ==> IsLine(PadAll(lines, pads)[i])
    ensures TrimEndAll(PadAll(lines, pads)) == TrimEndAll(lines)
  {
    if lines != [] {
      forall i | 0 <= i < |lines[1..]| ensures lines[1..][i] == lines[i + 1] && pads[1..][i] == pads[i + 1] {}
      PadAllAt(lines[1..], pads[1..]);
      TrimEndPad(lines[0], pads[0]);
    }
  }

  lemma CanonicalOfLines(lines: seq<string>)
    requires |lines| >= 1 && forall i :: 0 <= i < |lines| ==> IsLine(lines[i])
    ensures NormalText(lines) == NormalText(TrimEndAll(lines))
  {
    SplitJoin(lines, '\n');
    TrimLinesIsSplitJoin(Join(lines, "\n"));
    CanonicalTrimLines(Join(lines, "\n"));
  }

  // ----- blank lines around the output

  /** What normalising makes of lines. */
  function NormalText(lines: seq<string>): string {
    Canonical(Join(lines, "\n"))
  }

  lemma BlankLineFirst(line: string, rest: seq<string>)
    requires AllSpace(line) && rest != []
    ensures NormalText([line] + rest) == NormalText(rest)
  {
    var s := Join(rest, "\n");
    JoinMore(line, rest);
    assert line + ("\n" + s) == (line + "\n") + s + "";
    AllSpaceConcat(line, "\n");
    StripPad(line + "\n", s, "");
  }

  lemma {:induction false} JoinSnoc(lines: seq<string>, line: string)
    requires lines != []
    ensures Join(lines + [line], "\n") == Join(lines, "\n") + ("\n" + line)
  {
    if |lines| == 1 {
      JoinMore(lines[0], [line]);
      assert lines + [line] == [lines[0]] + [line];
    } else {
      JoinSnoc(lines[1..], line);
      JoinMore(lines[0], lines[1..]);
      JoinMore(lines[0], lines[1..] + [line]);
      assert lines == [lines[0]] + lines[1..] && lines + [line] == [lines[0]] + (lines[1..] + [line]);
    }
  }

  lemma BlankLineLast(lines: seq<string>, line: string)
    requires AllSpace(line) && lines != []
    ensures NormalText(lines + [line]) == NormalText(lines)
  {
    var s := Join(lines, "\n");
    JoinSnoc(lines, line);
    assert s + ("\n" + line) == "" + s + ("\n" + line);
    assert ("\n" + line)[1..] == line;
    StripPad("", s, "\n" + line);
  }

  /** A blank first line makes no difference to what is read after it, fused or not. */
  lemma ReadAfterBlank(lines: seq<string>, endings: seq<LineEnding>)
    requires |lines| == |endings| + 1 && endings != [] && AllSpace(lines[0])
    ensures NormalText(ReadLines(lines, endings))
      == NormalText(ReadLines(lines[1..], endings[1..]))
  {
    if FusesFirst(lines, endings) {
      var read := ReadLines(lines[2..], endings[2..]);
      assert lines[1..][1..] == lines[2..] && endings[1..][1..] == endings[2..];
      assert ReadLines(lines[1..], endings[1..]) == [""] + read;
      BlankLineFirst("", read);
      BlankLineFirst(lines[0], read);
    } else {
      BlankLineFirst(lines[0], ReadLines(lines[1..], endings[1..]));
    }
  }

  lemma NothingToFuse(lines: seq<string>)
    requires |lines| == 1
    ensures ReadLines(lines, []) == lines
  {
  }

  lemma ReadStep(lines: seq<string>, endings: seq<LineEnding>)
    requires |lines| == |endings| + 1 && endings != []
    ensures ReadLines(lines, endings) ==
      if FusesFirst(lines, endings) then [lines[0]] + ReadLines(lines[2..], endings[2..])
      else [lines[0]] + ReadLines(lines[1..], endings[1..])
    ensures |endings| == 1 ==> ReadLines(lines, endings) == lines
  {
  }

  /** `read` is what is read before one more line; without that line an empty line may be read at the end. */
  predicate ReadsUpTo(read: seq<string>, lines: seq<string>, endings: seq<LineEnding>, line: string, ending: LineEnding)
    requires |lines| == |endings| + 1
  {
    && read != [] && ReadLines(lines + [line], endings + [ending]) == read + [line]
    && (ReadLines(lines, endings) == read || ReadLines(lines, endings) == read + [""])
  }

  lemma ReadsUpToStep(
      read: seq<string>, lines: seq<string>, endings: seq<LineEnding>, line: string, ending: LineEnding, n: nat)
    requires |lines| == |endings| + 1 && n == (if FusesFirst(lines, endings) then 2 else 1)
    requires endings != [] && FusesFirst(lines + [line], endings + [ending]) == FusesFirst(lines, endings)
    requires ReadsUpTo(read, lines[n..], endings[n..], line, ending)
    ensures ReadsUpTo([lines[0]] + read, lines, endings, line, ending)
  {
    hide ReadLines;
    ReadStep(lines, endings);
    ReadStep(lines + [line], endings + [ending]);
    assert (lines + [line])[n..] == lines[n..] + [line];
    assert (endings + [ending])[n..] == endings[n..] + [ending];
    assert [lines[0]] + (read + [line]) == ([lines[0]] + read) + [line];
    assert [lines[0]] + (read + [""]) == ([lines[0]] + read) + [""];
  }

  lemma ReadOneOrTwo(first: string, line: string, ending: LineEnding)
    ensures ReadsUpTo([first], [first], [], line, ending)
    ensures ending == Lf ==> ReadsUpTo([first], [first, ""], [Cr], line, ending)
  {
    assert [first] + [line] == [first, line] && [] + [ending] == [ending] && [ending][1..] == [];
    assert [first, line][1..] == [line];
    assert [first, ""] + [line] == [first, "", line] && [Cr] + [ending] == [Cr, ending];
    assert [first, "", line][2..] == [line] && [Cr, ending][2..] == [];
    assert [first, ""][1..] == [""] && [Cr][1..] == [];
  }

  lemma {:induction false} ReadUpTo(lines: seq<string>, endings: seq<LineEnding>, line: string, ending: LineEnding)
      returns (read: seq<string>)
    requires |lines| == |endings| + 1
    ensures ReadsUpTo(read, lines, endings, line, ending)
    decreases |lines|
  {
    hide ReadLines, ReadsUpTo;
    if endings == [] {
      read := lines;
      ReadOneOrTwo(lines[0], line, ending);
      assert lines == [lines[0]];
    } else if |endings| == 1 && endings[0] == Cr && lines[1] == "" && ending == Lf {
      read := [lines[0]];
      ReadOneOrTwo(lines[0], line, ending);
      assert lines == [lines[0], ""] && endings == [Cr];
    } else {
      var n := if FusesFirst(lines, endings) then 2 else 1;
      var more := ReadUpTo(lines[n..], endings[n..], line, ending);
      ReadsUpToStep(more, lines, endings, line, ending, n);
      read := [lines[0]] + more;
    }
  }

  /** A blank last line makes no difference to what is read before it, fused or not. */
  lemma ReadBeforeBlank(lines: seq<string>, endings: seq<LineEnding>, line: string, ending: LineEnding)
    requires |lines| == |endings| + 1 && AllSpace(line)
    ensures NormalText(ReadLines(lines + [line], endings + [ending])) == NormalText(ReadLines(lines, endings))
  {
    hide ReadLines, NormalText;
    var read := ReadUpTo(lines, endings, line, ending);
    BlankLineLast(read, line);
    BlankLineLast(read, "");
  }

  // ----- output whose first and last lines are not blank

  function Count(s: string): nat {
    if s == "" then 0 else (if s[0] == '\n' then 1 else 0) + Count(s[1..])
  }

  lemma {:induction false} CountConcat(x: string, y: string)
    ensures Count(x + y) == Count(x) + Count(y)
  {
    if x == "" {
      assert x + y == y;
    } else {
      assert (x + y)[1..] == x[1..] + y;
      CountConcat(x[1..], y);
    }
  }

  lemma {:induction false} CountNone(s: string)
    requires '\n' !in s
    ensures Count(s) == 0
  {
    if s != "" { CountNone(s[1..]); }
  }

  lemma {:induction false} CountJoin(lines: seq<string>)
    requires lines != [] && forall i :: 0 <= i < |lines| ==> IsLine(lines[i])
    ensures Count(Join(lines, "\n")) == |lines| - 1
  {
    CountNone(lines[0]);
    if |lines| > 1 {
      CountJoin(lines[1..]);
      JoinMore(lines[0], lines[1..]);
      assert lines == [lines[0]] + lines[1..];
      CountConcat(lines[0], "\n" + Join(lines[1..], "\n"));
      CountConcat("\n", Join(lines[1..], "\n"));
    }
  }

  lemma {:induction false} CountTrimLines(s: string)
    ensures Count(TrimLines(s)) == Count(s)
  {
    if s != "" {
      CountTrimLines(s[1..]);
      var r := TrimLines(s[1..]);
      assert ([s[0]] + r)[1..] == r;
    }
  }

  lemma PrefixInFirstLine(s: string, lead: string, line: string)
    requires lead <= s && line <= s && AllSpace(lead) && !AllSpace(line) && IsLine(line)
    ensures '\n' !in lead
  {
    if |lead| > |line| {
      assert lead == line + lead[|line|..];
      AllSpaceConcat(line, lead[|line|..]);
      assert false;
    }
    assert lead == line[..|lead|];
  }

  predicate EndsWith(s: string, tail: string) {
    |tail| <= |s| && s[|s| - |tail|..] == tail
  }

  lemma SuffixInLastLine(s: string, tail: string, line: string)
    requires EndsWith(s, tail) && EndsWith(s, line) && AllSpace(tail) && !AllSpace(line) && IsLine(line)
    ensures '\n' !in tail
  {
    var k := |tail| - |line|;
    if k > 0 {
      assert tail == tail[..k] + line;
      AllSpaceConcat(tail[..k], line);
      assert false;
    }
    assert tail == line[-k..];
  }

  lemma CountInside(lead: string, t: string, tail: string)
    requires '\n' !in lead && '\n' !in tail
    ensures Count(lead + t + tail) == Count(t)
  {
    CountNone(lead);
    CountNone(tail);
    CountConcat(lead + t, tail);
    CountConcat(lead, t);
  }

  lemma LeadAndTail(lead: string, t: string, tail: string)
    ensures lead <= lead + t + tail && EndsWith(lead + t + tail, tail)
  {
    assert lead + t + tail == lead + (t + tail);
  }

  /** Surrounding whitespace holds no newline when the first and the last line have ink. */
  lemma StripKeepsNewlines(s: string, first: string, last: string)
    requires first <= s && EndsWith(s, last) && !AllSpace(first) && !AllSpace(last) && IsLine(first) && IsLine(last)
    ensures Count(Strip(s, Whitespace)) == Count(s)
  {
    hide Strip, Count, AllSpace, IsLine, EndsWith;
    var lead, tail := StripSpec(s, Whitespace);
    SpacesOf(lead);
    SpacesOf(tail);
    var t := Strip(s, Whitespace);
    LeadAndTail(lead, t, tail);
    PrefixInFirstLine(s, lead, first);
    SuffixInLastLine(s, tail, last);
    CountInside(lead, t, tail);
  }

  lemma SpacesOf(s: string)
    requires forall i :: 0 <= i < |s| ==> Matches(Whitespace, s[i])
    ensures AllSpace(s)
  {
    AllSpaceIff(s);
    forall i | 0 <= i < |s| ensures IsSpace(s[i]) { assert Matches(Whitespace, s[i]); }
  }

  /** With ink on the first and the last line, normalising keeps the number of lines. */
  lemma InkedEndsKeepLines(lines: seq<string>)
    requires lines != [] && forall i :: 0 <= i < |lines| ==> IsLine(lines[i])
    requires !AllSpace(lines[0]) && !AllSpace(lines[|lines| - 1])
    ensures Count(NormalText(lines)) == |lines| - 1
  {
    hide Strip, Join, Count, AllSpace, IsLine, TrimLines;
    CountJoin(lines);
    FirstLineStarts(lines);
    LastLineEnds(lines);
    StripKeepsNewlines(Join(lines, "\n"), lines[0], lines[|lines| - 1]);
    CountTrimLines(Strip(Join(lines, "\n"), Whitespace));
  }

  lemma FirstLineStarts(lines: seq<string>)
    requires lines != []
    ensures lines[0] <= Join(lines, "\n")
  {
  }

  lemma EndOf(x: string, s: string, line: string)
    requires EndsWith(s, line)
    ensures EndsWith(x + s, line)
  {
    assert s == s[..|s| - |line|] + line;
    assert x + s == (x + s[..|s| - |line|]) + line;
  }

  lemma {:induction false} LastLineEnds(lines: seq<string>)
    requires lines != []
    ensures EndsWith(Join(lines, "\n"), lines[|lines| - 1])
  {
    hide EndsWith;
    if |lines| == 1 {
      Whole(lines[0]);
    } else {
      var rest := lines[1..];
      LastLineEnds(rest);
      assert rest[|rest| - 1] == lines[|lines| - 1];
      EndOf(lines[0] + "\n", Join(rest, "\n"), rest[|rest| - 1]);
    }
  }

  lemma Whole(s: string)
    ensures EndsWith(s, s)
  {
  }

  // ----- what the judge forgives

  /** Endings fuse somewhere between the first and the last line that is not blank. */
  predicate FusesInside(lines: seq<string>, endings: seq<LineEnding>)
    requires |lines| == |endings| + 1
    decreases |lines|
  {
    var n := |endings|;
    if n == 0 then false
    else if AllSpace(lines[0]) then FusesInside(lines[1..], endings[1..])
    else if AllSpace(lines[n]) then FusesInside(lines[..n], endings[..n - 1])
    else Fuses(lines, endings)
  }

  /** Line endings make no difference to the normalised lines exactly when none fuse inside the output. */
  lemma {:induction false} EndingsAreForgivenIff(lines: seq<string>, endings: seq<LineEnding>)
    requires AreLines(lines, endings)
    ensures NormalText(ReadLines(lines, endings)) == NormalText(lines)
      <==> !FusesInside(lines, endings)
    decreases |lines|
  {
    hide NormalText, ReadLines, Count;
    var n := |endings|;
    if n == 0 {
      NothingToFuse(lines);
    } else if AllSpace(lines[0]) {
      EndingsAreForgivenIff(lines[1..], endings[1..]);
      ReadAfterBlank(lines, endings);
      BlankLineFirst(lines[0], lines[1..]);
      assert lines == [lines[0]] + lines[1..];
    } else if AllSpace(lines[n]) {
      EndingsAreForgivenIff(lines[..n], endings[..n - 1]);
      ReadBeforeBlank(lines[..n], endings[..n - 1], lines[n], endings[n - 1]);
      BlankLineLast(lines[..n], lines[n]);
      assert lines == lines[..n] + [lines[n]] && endings == endings[..n - 1] + [endings[n - 1]];
    } else {
      ReadLinesAreLines(lines, endings);
      ReadLinesShape(lines, endings);
      InkedEndsKeepLines(lines);
      InkedEndsKeepLines(ReadLines(lines, endings));
    }
  }

  /**
   * Program output can change its line endings and gain trailing whitespace on any line without changing what the
   * judge compares, exactly when no line between the first and the last that is not blank is lost to fused endings.
   */
  lemma OutputEditsAreForgivenIff(lines: seq<string>, pads: seq<string>, endings: seq<LineEnding>)
    requires AreLines(lines, endings) && |pads| == |lines|
    requires forall i :: 0 <= i < |lines| ==> IsLine(pads[i]) && AllSpace(pads[i])
    ensures NormalizeJudgeOutput(Written(PadAll(lines, pads), endings)) == NormalizeJudgeOutput(Join(lines, "\n"))
      <==> !FusesInside(PadAll(lines, pads), endings)
  {
    hide NormalizeJudgeOutput, FusesInside, ReadLines;
    var padded := PadAll(lines, pads);
    PadAllAt(lines, pads);
    NormalizeWritten(padded, endings);
    EndingsAreForgivenIff(padded, endings);
    LfLinesId(lines, |endings|);
    NormalizeIsCanonical(Written(padded, endings));
    NormalizeIsCanonical(Join(lines, "\n"));
    CanonicalOfLines(lines);
    CanonicalOfLines(padded);
  }

  lemma {:induction false} LfLinesId(lines: seq<string>, n: nat)
    requires |lines| == n + 1 && forall i :: 0 <= i < |lines| ==> IsLine(lines[i])
    ensures NormalizeNewlines(Join(lines, "\n")) == Join(lines, "\n")
  {
    if n == 0 {
      NormalizeNewlinesId(lines[0]);
    } else {
      forall i | 0 <= i < |lines[1..]| ensures lines[1..][i] == lines[i + 1] {}
      LfLinesId(lines[1..], n - 1);
      var rest := Join(lines[1..], "\n");
      assert Join(lines, "\n") == lines[0] + (Ending(Lf) + rest);
      NormalizeLine(lines[0], Ending(Lf) + rest);
      NormalizeEnding(Lf, rest);
    }
  }
}
