/**
 * The shared judging helpers (output normalisation and testcase building) and the teacher
 * dashboard's serialiser, which prints the testcases that the helpers parse.
 */
module Judging {
  import opened Text

  datatype Testcase = Testcase(input: string, expectedOutput: string)

  /** A question's stored testcase text: the two fields that the dashboard saves. */
  datatype TestcaseText = TestcaseText(testcaseInput: string, expectedOutput: string)

  function TrimEndAll(lines: seq<string>): seq<string> {
    if lines == [] then [] else [TrimEnd(lines[0], Whitespace)] + TrimEndAll(lines[1..])
  }

  function NormalizeJudgeOutput(value: string): string {
    var normalized := Strip(NormalizeNewlines(value), Whitespace);
    Join(TrimEndAll(Split(normalized, '\n')), "\n")
  }

  /** How far into `s` its leading whitespace run has its last newline; 0 when it has none. */
  function LastBreak(s: string): nat {
    if s == "" || !IsSpace(s[0]) then 0
    else
      var r := LastBreak(s[1..]);
      if r > 0 then r + 1 else if s[0] == '\n' then 1 else 0
  }

  /** The length of the match of the regex `\n\s*\n` at the start of `s`; 0 when it does not match there. */
  function SeparatorLength(s: string): nat {
    if s != "" && s[0] == '\n' && LastBreak(s[1..]) > 0 then 1 + LastBreak(s[1..]) else 0
  }

  lemma {:induction false} LastBreakBound(s: string)
    ensures LastBreak(s) <= |s|
  {
    if s != "" { LastBreakBound(s[1..]); }
  }

  /** `re.split(r'\n\s*\n', s)`: scans from the left and takes the longest match at the first place that has one. */
  function SplitAtSeparators(s: string): (pieces: seq<string>)
    ensures |pieces| >= 1
    decreases |s|
  {
    if s == "" then [""]
    else
      var n := SeparatorLength(s);
      LastBreakBound(s[1..]);
      if n > 0 then [""] + SplitAtSeparators(s[n..])
      else
        var r := SplitAtSeparators(s[1..]);
        [[s[0]] + r[0]] + r[1..]
  }

  /** The comprehension in `split_case_blocks`: drops blank pieces and strips newlines off the others. */
  function KeepBlocks(pieces: seq<string>): seq<string> {
    if pieces == [] then []
    else
      (if Strip(pieces[0], Whitespace) != "" then [Strip(pieces[0], Newline)] else []) + KeepBlocks(pieces[1..])
  }

  function SplitCaseBlocks(value: string): seq<string> {
    var normalized := Strip(NormalizeNewlines(value), Newline);
    if normalized == "" then [] else KeepBlocks(SplitAtSeparators(normalized))
  }

  function NormalizeAll(blocks: seq<string>): seq<string> {
    if blocks == [] then [] else [NormalizeJudgeOutput(blocks[0])] + NormalizeAll(blocks[1..])
  }

  lemma {:induction false} NormalizeAllAt(blocks: seq<string>)
    ensures |NormalizeAll(blocks)| == |blocks|
    ensures forall i :: 0 <= i < |blocks| ==> NormalizeAll(blocks)[i] == NormalizeJudgeOutput(blocks[i])
  {
    if blocks != [] { NormalizeAllAt(blocks[1..]); }
  }

  function BuildTestcases(testcaseInput: string, expectedOutput: string): (cases: seq<Testcase>)
    ensures |cases| >= 1
  {
    var inputBlocks := SplitCaseBlocks(testcaseInput);
    var outputBlocks := NormalizeAll(SplitCaseBlocks(expectedOutput));
    if |outputBlocks| > 1 && |inputBlocks| == |outputBlocks| then
      seq(|outputBlocks|, i requires 0 <= i < |outputBlocks| => Testcase(inputBlocks[i], outputBlocks[i]))
    else
      [Testcase(testcaseInput, NormalizeJudgeOutput(expectedOutput))]
  }

  function TestcaseCount(testcaseInput: string, expectedOutput: string): nat {
    |BuildTestcases(testcaseInput, expectedOutput)|
  }

  function Inputs(cases: seq<Testcase>): seq<string> {
    if cases == [] then [] else [cases[0].input] + Inputs(cases[1..])
  }

  function Outputs(cases: seq<Testcase>): seq<string> {
    if cases == [] then [] else [cases[0].expectedOutput] + Outputs(cases[1..])
  }

  /** The dashboard's `normalizeQuestionTestcases`: an empty list becomes one blank case. */
  function NormalizeQuestionTestcases(cases: seq<Testcase>): seq<Testcase> {
    if cases == [] then [Testcase("", "")] else cases
  }

  /** The dashboard's `serializeQuestionTestcases`. */
  function Serialize(cases: seq<Testcase>): TestcaseText {
    TestcaseText(Join(Inputs(cases), "\n\n"), Join(Outputs(cases), "\n\n"))
  }

  /** Built testcases as the dashboard's two serialiser functions print them. */
  function Resave(cases: seq<Testcase>): TestcaseText {
    Serialize(NormalizeQuestionTestcases(cases))
  }

  // ----- output normalisation, one character at a time

  /** Drops every whitespace character that only whitespace separates from the end of its line. */
  function TrimLines(s: string): string {
    if s == "" then ""
    else
      var r := TrimLines(s[1..]);
      if IsSpace(s[0]) && s[0] != '\n' && (r == "" || r[0] == '\n') then r else [s[0]] + r
  }

  lemma {:induction false} TrimEndAllAt(lines: seq<string>)
    ensures |TrimEndAll(lines)| == |lines|
    ensures forall i :: 0 <= i < |lines| ==> TrimEndAll(lines)[i] == TrimEnd(lines[i], Whitespace)
  {
    if lines != [] { TrimEndAllAt(lines[1..]); }
  }

  function RestOfLines(lines: seq<string>): string {
    if lines == [] then "" else "\n" + Join(lines, "\n")
  }

  lemma JoinCons(line: string, lines: seq<string>)
    ensures Join([line] + lines, "\n") == line + RestOfLines(lines)
  {
    assert ([line] + lines)[1..] == lines;
    assert lines == [] ==> line + RestOfLines(lines) == line;
  }

  lemma TrimEndAllCons(line: string, lines: seq<string>)
    ensures TrimEndAll([line] + lines) == [TrimEnd(line, Whitespace)] + TrimEndAll(lines)
  {
    assert ([line] + lines)[1..] == lines;
  }

  lemma TrimEndCons(c: char, line: string)
    ensures var x := TrimEnd(line, Whitespace);
      TrimEnd([c] + line, Whitespace) == if x == "" && IsSpace(c) then "" else [c] + x
  {
    assert ([c] + line)[1..] == line;
  }

  lemma TrimEndHead(line: string)
    requires '\n' !in line
    ensures TrimEnd(line, Whitespace) != "" ==> TrimEnd(line, Whitespace)[0] != '\n'
  {
    TrimEndSpec(line, Whitespace);
    var x := TrimEnd(line, Whitespace);
    if x != "" { assert line[0] == x[0] && line[0] in line; }
  }

  /** One more character in front of the lines. */
  lemma TrimLinesCons(c: char, t: string, x: string, rest: string)
    requires c != '\n' && (x != "" ==> x[0] != '\n')
    requires rest == "" || rest[0] == '\n'
    requires TrimLines(t) == x + rest
    ensures TrimLines([c] + t) == (if x == "" && IsSpace(c) then "" else [c] + x) + rest
  {
    assert ([c] + t)[1..] == t;
    if x == "" {
      assert x + rest == rest;
    } else {
      assert (x + rest)[0] == x[0];
      assert [c] + (x + rest) == ([c] + x) + rest;
    }
  }

  /** Splitting into lines, right-stripping each and joining again is the one-pass `TrimLines`. */
  lemma {:induction false} TrimLinesIsSplitJoin(s: string)
    ensures Join(TrimEndAll(Split(s, '\n')), "\n") == TrimLines(s)
  {
    if s != "" {
      var c, t := s[0], s[1..];
      var r := Split(t, '\n');
      TrimLinesIsSplitJoin(t);
      SplitPieces(t, '\n');
      assert r == [r[0]] + r[1..];
      TrimEndAllCons(r[0], r[1..]);
      JoinCons(TrimEnd(r[0], Whitespace), TrimEndAll(r[1..]));
      if c == '\n' {
        TrimEndAllCons("", r);
        JoinCons("", TrimEndAll(r));
      } else {
        TrimEndAllCons([c] + r[0], r[1..]);
        JoinCons(TrimEnd([c] + r[0], Whitespace), TrimEndAll(r[1..]));
        TrimEndHead(r[0]);
        TrimEndCons(c, r[0]);
        assert [c] + t == s;
        TrimLinesCons(c, t, TrimEnd(r[0], Whitespace), RestOfLines(TrimEndAll(r[1..])));
      }
    }
  }

  /** `NormalizeJudgeOutput` on text whose line endings are already newlines. */
  function Canonical(s: string): string {
    TrimLines(Strip(s, Whitespace))
  }

  lemma NormalizeIsCanonical(s: string)
    ensures NormalizeJudgeOutput(s) == Canonical(NormalizeNewlines(s))
  {
    TrimLinesIsSplitJoin(Strip(NormalizeNewlines(s), Whitespace));
  }

  lemma {:induction false} TrimLinesChars(s: string)
    ensures |TrimLines(s)| <= |s|
    ensures forall c :: c in TrimLines(s) ==> c in s
  {
    if s != "" { TrimLinesChars(s[1..]); }
  }

  lemma {:induction false} TrimLinesIdempotent(s: string)
    ensures TrimLines(TrimLines(s)) == TrimLines(s)
  {
    if s != "" {
      TrimLinesIdempotent(s[1..]);
      var r := TrimLines(s[1..]);
      assert ([s[0]] + r)[1..] == r;
    }
  }

  lemma {:induction false} TrimLinesAllSpace(s: string)
    ensures AllSpace(TrimLines(s)) <==> AllSpace(s)
  {
    if s != "" {
      TrimLinesAllSpace(s[1..]);
      var r := TrimLines(s[1..]);
      assert ([s[0]] + r)[1..] == r;
    }
  }

  lemma {:induction false} TrimStartTrimLines(s: string)
    ensures TrimStart(TrimLines(s), Whitespace) == TrimLines(TrimStart(s, Whitespace))
  {
    if s != "" {
      TrimStartTrimLines(s[1..]);
      var r := TrimLines(s[1..]);
      assert ([s[0]] + r)[1..] == r;
    }
  }

  lemma {:induction false} TrimEndEmptyIff(s: string)
    ensures TrimEnd(s, Whitespace) == "" <==> AllSpace(s)
  {
    if s != "" { TrimEndEmptyIff(s[1..]); }
  }

  lemma {:induction false} TrimEndTrimLines(s: string)
    ensures TrimEnd(TrimLines(s), Whitespace) == TrimLines(TrimEnd(s, Whitespace))
  {
    if s != "" {
      var c, t := s[0], s[1..];
      TrimEndTrimLines(t);
      var r, u := TrimLines(t), TrimEnd(t, Whitespace);
      assert ([c] + r)[1..] == r && ([c] + u)[1..] == u;
      TrimEndEmptyIff(t);
      TrimEndEmptyIff(r);
      TrimLinesAllSpace(t);
      TrimEndSpec(r, Whitespace);
    }
  }

  /** Stripping the whole text and right-stripping its lines can be done in either order. */
  lemma StripTrimLines(s: string)
    ensures Strip(TrimLines(s), Whitespace) == Canonical(s)
  {
    TrimStartTrimLines(s);
    TrimEndTrimLines(TrimStart(s, Whitespace));
  }

  lemma CanonicalTrimLines(s: string)
    ensures Canonical(TrimLines(s)) == Canonical(s)
  {
    StripTrimLines(s);
    TrimLinesIdempotent(Strip(s, Whitespace));
  }

  lemma CanonicalIdempotent(s: string)
    ensures Canonical(Canonical(s)) == Canonical(s)
    ensures Strip(Canonical(s), Whitespace) == Canonical(s)
  {
    var t := Strip(s, Whitespace);
    StripTrimLines(t);
    StripIdempotent(s, Whitespace);
    TrimLinesIdempotent(t);
  }

  lemma {:induction false} StripChars(s: string, k: CharClass, c: char)
    requires c !in s
    ensures c !in Strip(s, k)
  {
    var lead, tail := StripSpec(s, k);
  }

  lemma CanonicalChars(s: string, c: char)
    requires c !in s
    ensures c !in Canonical(s)
  {
    StripChars(s, Whitespace, c);
    TrimLinesChars(Strip(s, Whitespace));
  }

  lemma NormalizeNoCr(s: string)
    ensures '\r' !in NormalizeJudgeOutput(s)
  {
    NormalizeIsCanonical(s);
    NormalizeNewlinesNoCr(s);
    CanonicalChars(NormalizeNewlines(s), '\r');
  }

  /** Normalising output twice changes nothing. */
  lemma NormalizeIdempotent(s: string)
    ensures NormalizeJudgeOutput(NormalizeJudgeOutput(s)) == NormalizeJudgeOutput(s)
  {
    NormalizeIsCanonical(s);
    NormalizeNoCr(s);
    NormalizeNewlinesId(NormalizeJudgeOutput(s));
    NormalizeIsCanonical(NormalizeJudgeOutput(s));
    CanonicalIdempotent(NormalizeNewlines(s));
  }

  /** The characters that are not whitespace. */
  function InkChars(s: string): string {
    if s == "" then "" else (if IsSpace(s[0]) then "" else [s[0]]) + InkChars(s[1..])
  }

  lemma {:induction false} LineEndingsKeepInk(s: string)
    ensures InkChars(ReplaceCrLf(s)) == InkChars(s)
    ensures InkChars(ReplaceChar(s, '\r', '\n')) == InkChars(s)
    decreases |s|
  {
    if s != "" {
      LineEndingsKeepInk(s[1..]);
      var u := ReplaceChar(s[1..], '\r', '\n');
      assert ([if s[0] == '\r' then '\n' else s[0]] + u)[1..] == u;
      if |s| >= 2 && s[0] == '\r' && s[1] == '\n' {
        LineEndingsKeepInk(s[2..]);
        var v := ReplaceCrLf(s[2..]);
        assert ("\n" + v)[1..] == v && s[1..][1..] == s[2..];
      } else {
        var v := ReplaceCrLf(s[1..]);
        assert ([s[0]] + v)[1..] == v;
      }
    }
  }

  lemma InkCons(c: char, s: string)
    ensures InkChars([c] + s) == if IsSpace(c) then InkChars(s) else [c] + InkChars(s)
  {
    assert ([c] + s)[1..] == s;
    assert "" + InkChars(s) == InkChars(s);
  }

  lemma {:induction false} TrimStartKeepsInk(s: string)
    ensures InkChars(TrimStart(s, Whitespace)) == InkChars(s)
  {
    if s != "" {
      assert s == [s[0]] + s[1..];
      InkCons(s[0], s[1..]);
      if IsSpace(s[0]) { TrimStartKeepsInk(s[1..]); }
    }
  }

  lemma {:induction false} TrimEndKeepsInk(s: string)
    ensures InkChars(TrimEnd(s, Whitespace)) == InkChars(s)
  {
    if s != "" {
      assert s == [s[0]] + s[1..];
      TrimEndKeepsInk(s[1..]);
      InkCons(s[0], s[1..]);
      InkCons(s[0], TrimEnd(s[1..], Whitespace));
    }
  }

  lemma {:induction false} TrimLinesKeepsInk(s: string)
    ensures InkChars(TrimLines(s)) == InkChars(s)
  {
    if s != "" {
      assert s == [s[0]] + s[1..];
      TrimLinesKeepsInk(s[1..]);
      InkCons(s[0], s[1..]);
      InkCons(s[0], TrimLines(s[1..]));
    }
  }

  /** Normalising drops and replaces whitespace only: the other characters stay, in order. */
  lemma NormalizeKeepsInk(s: string)
    ensures InkChars(NormalizeJudgeOutput(s)) == InkChars(s)
  {
    LineEndingsKeepInk(s);
    LineEndingsKeepInk(ReplaceCrLf(s));
    var t := NormalizeNewlines(s);
    TrimStartKeepsInk(t);
    TrimEndKeepsInk(TrimStart(t, Whitespace));
    TrimLinesKeepsInk(Strip(t, Whitespace));
    NormalizeIsCanonical(s);
  }

  /** No whitespace stands before a newline or at the end, newlines themselves apart. */
  predicate NoTrailingSpace(s: string) {
    forall i :: 0 <= i < |s| && IsSpace(s[i]) && s[i] != '\n' ==> i + 1 < |s| && s[i + 1] != '\n'
  }

  lemma {:induction false} TrimLinesFixedIff(s: string)
    ensures TrimLines(s) == s <==> NoTrailingSpace(s)
  {
    if s != "" {
      var t, r := s[1..], TrimLines(s[1..]);
      TrimLinesFixedIff(t);
      TrimLinesChars(t);
      assert s == [s[0]] + t;
      if NoTrailingSpace(s) {
        forall i | 0 <= i < |t| && IsSpace(t[i]) && t[i] != '\n' ensures i + 1 < |t| && t[i + 1] != '\n' {
          assert t[i] == s[i + 1];
        }
      }
      if TrimLines(s) == s {
        assert ([s[0]] + r)[1..] == r == t;
        forall i | 0 <= i < |s| && IsSpace(s[i]) && s[i] != '\n' ensures i + 1 < |s| && s[i + 1] != '\n' {
          if i > 0 { assert s[i] == t[i - 1]; }
        }
      }
    }
  }

  /** What normalised output looks like. */
  predicate IsNormal(s: string) {
    '\r' !in s && (s == "" || (!IsSpace(s[0]) && !IsSpace(s[|s| - 1]))) && NoTrailingSpace(s)
  }

  /** Output is left alone exactly when it is in normal form, and normalising always gives normal form. */
  lemma NormalFormIff(s: string)
    ensures NormalizeJudgeOutput(s) == s <==> IsNormal(s)
    ensures IsNormal(NormalizeJudgeOutput(s))
  {
    NormalIsFixed(s);
    if NormalizeJudgeOutput(s) == s { FixedIsNormal(s); }
    NormalizeIdempotent(s);
    FixedIsNormal(NormalizeJudgeOutput(s));
  }

  lemma NormalIsFixed(s: string)
    ensures IsNormal(s) ==> NormalizeJudgeOutput(s) == s
  {
    if IsNormal(s) {
      NormalizeNewlinesId(s);
      NormalizeIsCanonical(s);
      StripIdIff(s, Whitespace);
      TrimLinesFixedIff(s);
    }
  }

  lemma FixedIsNormal(s: string)
    requires NormalizeJudgeOutput(s) == s
    ensures IsNormal(s)
  {
    NormalizeNoCr(s);
    NormalizeNewlinesId(s);
    NormalizeIsCanonical(s);
    CanonicalIdempotent(s);
    StripIdIff(s, Whitespace);
    TrimLinesFixedIff(s);
  }
}
