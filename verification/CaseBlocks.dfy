/**
 * Splitting text into testcase blocks: which block lists survive being printed with blank
 * lines between them and parsed again, and what every parse returns.
 */
module CaseBlocks {
  import opened Text
  import opened Judging

  /** The regex `\n\s*\n` matches somewhere in `s`. */
  predicate HasSeparator(s: string) {
    s != "" && (SeparatorLength(s) > 0 || HasSeparator(s[1..]))
  }

  /** The trailing whitespace of `s` has a newline. */
  predicate TrailBreak(s: string) {
    s != "" && ((s[0] == '\n' && AllSpace(s[1..])) || TrailBreak(s[1..]))
  }

  predicate CleanBlock(b: string) {
    '\r' !in b && !AllSpace(b) && !HasSeparator(b) && b != "" && b[0] != '\n' && b[|b| - 1] != '\n'
  }

  /**
   * A list of blocks that printing and parsing cannot merge, split or trim. A newline may stand
   * in the leading whitespace of the first block only, and in the trailing whitespace of the last only.
   */
  predicate CleanBlocks(bs: seq<string>) {
    forall i :: 0 <= i < |bs| ==>
      CleanBlock(bs[i]) && (i > 0 ==> LastBreak(bs[i]) == 0) && (i < |bs| - 1 ==> !TrailBreak(bs[i]))
  }

  function Print(bs: seq<string>): string {
    Join(bs, "\n\n")
  }

  // ----- the separator regex

  /** A string in the language of the regex `\n\s*\n`. */
  predicate IsSeparator(u: string) {
    |u| >= 2 && u[0] == '\n' && u[|u| - 1] == '\n' && AllSpace(u)
  }

  lemma {:induction false} LastBreakSpec(s: string)
    ensures LastBreak(s) <= |s| && AllSpace(s[..LastBreak(s)])
    ensures LastBreak(s) > 0 ==> s[LastBreak(s) - 1] == '\n'
    ensures LastBreak(s[LastBreak(s)..]) == 0
  {
    if s != "" && IsSpace(s[0]) {
      LastBreakSpec(s[1..]);
      var n := LastBreak(s[1..]);
      if n > 0 {
        assert s[..n + 1][1..] == s[1..][..n];
        assert s[n + 1..] == s[1..][n..];
      } else if s[0] == '\n' {
        assert s[..1] == "\n";
        assert s[1..][0..] == s[1..];
      }
    }
    if LastBreak(s) == 0 { assert s[0..] == s; }
  }

  lemma {:induction false} LastBreakLongest(s: string, m: nat)
    requires 0 < m <= |s| && s[m - 1] == '\n' && AllSpace(s[..m])
    ensures m <= LastBreak(s)
  {
    assert s[..m][0] == s[0];
    if m > 1 {
      assert s[..m][1..] == s[1..][..m - 1];
      LastBreakLongest(s[1..], m - 1);
    }
  }

  /** `SeparatorLength` is the longest prefix that the regex accepts, and 0 exactly when it accepts none. */
  lemma {:induction false} SeparatorLengthIsLongestMatch(s: string)
    ensures SeparatorLength(s) <= |s|
    ensures SeparatorLength(s) > 0 ==> IsSeparator(s[..SeparatorLength(s)])
    ensures forall m :: 0 <= m <= |s| && IsSeparator(s[..m]) ==> m <= SeparatorLength(s)
  {
    if s != "" {
      LastBreakSpec(s[1..]);
      var n := LastBreak(s[1..]);
      if SeparatorLength(s) > 0 {
        assert s[..n + 1] == ['\n'] + s[1..][..n];
      }
      forall m | 0 <= m <= |s| && IsSeparator(s[..m]) ensures m <= SeparatorLength(s) {
        assert s[..m][1..] == s[1..][..m - 1];
        assert s[..m][m - 1] == s[1..][m - 2];
        assert s[..m][0] == s[0];
        LastBreakLongest(s[1..], m - 1);
      }
    }
  }

  lemma {:induction false} LastBreakAppend(x: string, y: string)
    ensures LastBreak(x) > 0 ==> LastBreak(x + y) > 0
    ensures !AllSpace(x) ==> LastBreak(x + y) == LastBreak(x)
  {
    if x != "" {
      assert (x + y)[1..] == x[1..] + y;
      LastBreakAppend(x[1..], y);
    }
  }

  lemma {:induction false} HasSeparatorAppend(w: string, x: string, y: string)
    requires HasSeparator(x)
    ensures HasSeparator(w + x + y)
  {
    if w == "" {
      assert w + x + y == x + y;
      assert (x + y)[1..] == x[1..] + y;
      LastBreakAppend(x[1..], y);
      if SeparatorLength(x) == 0 {
        HasSeparatorAppend("", x[1..], y);
        assert "" + x[1..] + y == x[1..] + y;
      }
    } else {
      assert (w + x + y)[1..] == w[1..] + x + y;
      HasSeparatorAppend(w[1..], x, y);
    }
  }

  lemma {:induction false} TrailBreakIff(s: string)
    ensures s != "" && s[|s| - 1] == '\n' ==> TrailBreak(s)
    ensures s != "" && !IsSpace(s[|s| - 1]) ==> !TrailBreak(s) && !AllSpace(s)
  {
    if |s| > 1 {
      TrailBreakIff(s[1..]);
      assert s[1..][|s[1..]| - 1] == s[|s| - 1];
    }
  }

  // ----- what a split looks like

  lemma SplitStep(c: char, t: string)
    requires SeparatorLength([c] + t) == 0
    ensures SplitAtSeparators([c] + t) == [[c] + SplitAtSeparators(t)[0]] + SplitAtSeparators(t)[1..]
  {
    assert ([c] + t)[1..] == t;
  }

  lemma {:induction false} SplitShape(s: string)
    ensures SplitAtSeparators(s)[0] <= s
    ensures |SplitAtSeparators(s)| == 1 ==> SplitAtSeparators(s) == [s]
    ensures |SplitAtSeparators(s)| > 1 ==>
      |SplitAtSeparators(s)[0]| < |s| && s[|SplitAtSeparators(s)[0]|] == '\n'
    ensures HasSeparator(s) <==> |SplitAtSeparators(s)| > 1
    decreases |s|
  {
    if s != "" && SeparatorLength(s) == 0 {
      SplitShape(s[1..]);
      var r := SplitAtSeparators(s[1..]);
      assert s == [s[0]] + s[1..];
      if |r| == 1 { assert [[s[0]] + r[0]] + r[1..] == [s]; }
    }
  }

  function Last(ps: seq<string>): string
    requires ps != []
  {
    ps[|ps| - 1]
  }

  predicate SameEnd(l: string, s: string) {
    l == "" || (s != "" && l[|l| - 1] == s[|s| - 1])
  }

  lemma LastOfSplitStep(c: char, t: string)
    requires SeparatorLength([c] + t) == 0
    requires SameEnd(Last(SplitAtSeparators(t)), t)
    ensures SameEnd(Last(SplitAtSeparators([c] + t)), [c] + t)
  {
    var r := SplitAtSeparators(t);
    SplitStep(c, t);
    SplitShape(t);
    if |r| > 1 {
      assert Last([[c] + r[0]] + r[1..]) == Last(r);
    }
  }

  lemma SplitSkip(s: string)
    requires SeparatorLength(s) > 0
    ensures SeparatorLength(s) <= |s|
    ensures SplitAtSeparators(s) == [""] + SplitAtSeparators(s[SeparatorLength(s)..])
  {
    LastBreakBound(s[1..]);
  }

  lemma LastAfterEmpty(r: seq<string>)
    requires r != []
    ensures Last([""] + r) == Last(r)
  {
  }

  lemma SameEndDrop(l: string, s: string, n: nat)
    requires n <= |s| && SameEnd(l, s[n..])
    ensures SameEnd(l, s)
  {
    if l != "" {
      assert |s[n..]| == |s| - n > 0;
      assert s[n..][|s| - n - 1] == s[|s| - 1];
    }
  }

  /** The last piece is empty or ends the text. */
  lemma {:induction false} SplitEnd(s: string)
    ensures SameEnd(Last(SplitAtSeparators(s)), s)
    decreases |s|
  {
    if s != "" {
      hide SameEnd;
      if SeparatorLength(s) > 0 {
        SplitSkip(s);
        var rest := s[SeparatorLength(s)..];
        SplitEnd(rest);
        LastAfterEmpty(SplitAtSeparators(rest));
        SameEndDrop(Last(SplitAtSeparators(rest)), s, SeparatorLength(s));
      } else {
        SplitEnd(s[1..]);
        assert s == [s[0]] + s[1..];
        LastOfSplitStep(s[0], s[1..]);
      }
    }
  }

  /** What holds of the pieces of every split. */
  predicate Tidy(ps: seq<string>) {
    forall j :: 0 <= j < |ps| ==>
      '\r' !in ps[j] && !HasSeparator(ps[j])
      && (j > 0 ==> LastBreak(ps[j]) == 0) && (j < |ps| - 1 ==> !TrailBreak(ps[j]))
  }

  lemma {:induction false} SplitTidy(s: string)
    requires '\r' !in s
    ensures Tidy(SplitAtSeparators(s))
    decreases |s|
  {
    if s != "" {
      var n := SeparatorLength(s);
      LastBreakSpec(s[1..]);
      if n > 0 {
        var rest := s[n..];
        assert rest == s[1..][n - 1..];
        SplitTidy(rest);
        SplitShape(rest);
        var r := SplitAtSeparators(rest);
        assert r[0] + rest[|r[0]|..] == rest;
        LastBreakAppend(r[0], rest[|r[0]|..]);
        var ps := [""] + r;
        forall j | 0 <= j < |ps|
          ensures '\r' !in ps[j] && !HasSeparator(ps[j])
          ensures (j > 0 ==> LastBreak(ps[j]) == 0) && (j < |ps| - 1 ==> !TrailBreak(ps[j]))
        {
          if j > 0 { assert ps[j] == r[j - 1]; }
        }
      } else {
        SplitTidyStep(s);
      }
    }
  }

  lemma SplitTidyStep(s: string)
    requires s != "" && '\r' !in s && SeparatorLength(s) == 0
    ensures Tidy(SplitAtSeparators(s))
    decreases |s|, 0
  {
    var t := s[1..];
    SplitTidy(t);
    SplitShape(t);
    var r := SplitAtSeparators(t);
    var tail := t[|r[0]|..];
    assert r[0] + tail == t;
    LastBreakAppend(r[0], tail);
    var head := [s[0]] + r[0];
    assert head[1..] == r[0];
    if s[0] == '\n' && AllSpace(r[0]) && |r| > 1 {
      LastBreakAllSpace(r[0], tail);
      assert false;
    }
    var ps := [head] + r[1..];
    forall j | 0 <= j < |ps|
      ensures '\r' !in ps[j] && !HasSeparator(ps[j])
      ensures (j > 0 ==> LastBreak(ps[j]) == 0) && (j < |ps| - 1 ==> !TrailBreak(ps[j]))
    {
      if j > 0 { assert ps[j] == r[j]; }
    }
  }

  lemma {:induction false} LastBreakAllSpace(x: string, y: string)
    requires AllSpace(x) && y != "" && y[0] == '\n'
    ensures LastBreak(x + y) > 0
  {
    if x == "" {
      assert x + y == y;
    } else {
      assert (x + y)[1..] == x[1..] + y;
      LastBreakAllSpace(x[1..], y);
    }
  }

  // ----- every parse returns a clean list

  lemma CleanCons(b: string, rest: seq<string>)
    requires CleanBlock(b) && CleanBlocks(rest)
    requires rest != [] ==> LastBreak(rest[0]) == 0 && !TrailBreak(b)
    ensures CleanBlocks([b] + rest)
  {
    var bs := [b] + rest;
    forall i | 0 <= i < |bs|
      ensures CleanBlock(bs[i]) && (i > 0 ==> LastBreak(bs[i]) == 0) && (i < |bs| - 1 ==> !TrailBreak(bs[i]))
    {
      if i > 0 { assert bs[i] == rest[i - 1]; }
    }
  }

  lemma TidyTail(ps: seq<string>)
    requires ps != [] && Tidy(ps)
    ensures Tidy(ps[1..]) && '\r' !in ps[0] && !HasSeparator(ps[0])
    ensures |ps| > 1 ==> LastBreak(ps[1]) == 0 && !TrailBreak(ps[0])
  {
    forall j | 0 <= j < |ps[1..]| ensures ps[1..][j] == ps[j + 1] {}
  }

  predicate EndsOpen(s: string) {
    s == "" || s[|s| - 1] != '\n'
  }

  /** `first` tells that `ps` starts the text, whose newlines were stripped off both ends. */
  lemma {:induction false} KeepBlocksClean(ps: seq<string>, first: bool)
    requires Tidy(ps)
    requires ps != [] ==> if first then ps[0] == "" || ps[0][0] != '\n' else LastBreak(ps[0]) == 0
    requires ps != [] ==> EndsOpen(Last(ps))
    ensures CleanBlocks(KeepBlocks(ps))
    ensures !first && KeepBlocks(ps) != [] ==> LastBreak(KeepBlocks(ps)[0]) == 0
  {
    if ps != [] {
      var b := ps[0];
      TidyTail(ps);
      assert |ps| > 1 ==> Last(ps[1..]) == Last(ps);
      KeepBlocksClean(ps[1..], false);
      BlankIff(b);
      if AllSpace(b) {
        assert KeepBlocks(ps) == [] + KeepBlocks(ps[1..]) == KeepBlocks(ps[1..]);
      } else {
        TrailBreakIff(b);
        StripIdIff(b, Newline);
        CleanCons(b, KeepBlocks(ps[1..]));
      }
    }
  }

  /** Whatever the text, the parsed blocks are a clean list. */
  lemma ParsedBlocksAreClean(value: string)
    ensures CleanBlocks(SplitCaseBlocks(value))
  {
    var s := NormalizeNewlines(value);
    var t := Strip(s, Newline);
    if t != "" {
      NormalizeNewlinesNoCr(value);
      StripChars(s, Newline, '\r');
      var _, _ := StripSpec(s, Newline);
      SplitTidy(t);
      SplitShape(t);
      SplitEnd(t);
      KeepBlocksClean(SplitAtSeparators(t), true);
    }
  }

  // ----- every clean list survives printing and parsing

  lemma SplitAtBlankLine(rest: string)
    requires LastBreak(rest) == 0
    ensures SplitAtSeparators("\n\n" + rest) == [""] + SplitAtSeparators(rest)
  {
    var s := "\n\n" + rest;
    assert s[1..] == "\n" + rest && ("\n" + rest)[1..] == rest;
    assert s[2..] == rest;
  }

  lemma {:induction false} SplitPrinted(b: string, rest: string)
    requires !HasSeparator(b) && !TrailBreak(b) && LastBreak(rest) == 0
    ensures SplitAtSeparators(b + ("\n\n" + rest)) == [b] + SplitAtSeparators(rest)
  {
    var gap := "\n\n" + rest;
    if b == "" {
      assert b + gap == gap;
      SplitAtBlankLine(rest);
    } else {
      var t := b[1..];
      assert b + gap == [b[0]] + (t + gap);
      assert ([b[0]] + (t + gap))[1..] == t + gap;
      SplitPrinted(t, rest);
      LastBreakAppend(t, gap);
      SplitStep(b[0], t + gap);
      assert [b[0]] + t == b;
    }
  }

  lemma {:induction false} KeepCleanBlocks(bs: seq<string>)
    requires forall i :: 0 <= i < |bs| ==> CleanBlock(bs[i])
    ensures KeepBlocks(bs) == bs
  {
    if bs != [] {
      forall i | 0 <= i < |bs[1..]| ensures bs[1..][i] == bs[i + 1] {}
      KeepCleanBlocks(bs[1..]);
      BlankIff(bs[0]);
      StripIdIff(bs[0], Newline);
      assert bs == [bs[0]] + bs[1..];
    }
  }

  lemma CleanTail(bs: seq<string>)
    requires bs != [] && CleanBlocks(bs)
    ensures CleanBlocks(bs[1..])
    ensures !AllSpace(bs[0]) && !HasSeparator(bs[0])
    ensures |bs| > 1 ==> LastBreak(bs[1]) == 0 && !TrailBreak(bs[0])
  {
    forall i | 0 <= i < |bs[1..]| ensures bs[1..][i] == bs[i + 1] {}
  }

  lemma PrintSplitsStep(b: string, rest: seq<string>)
    requires rest != [] && !HasSeparator(b) && !TrailBreak(b) && !AllSpace(b)
    requires LastBreak(Print(rest)) == 0 && SplitAtSeparators(Print(rest)) == rest
    ensures LastBreak(Print([b] + rest)) == LastBreak(b)
    ensures SplitAtSeparators(Print([b] + rest)) == [b] + rest
  {
    assert ([b] + rest)[1..] == rest;
    assert Print([b] + rest) == b + "\n\n" + Print(rest) == b + ("\n\n" + Print(rest));
    SplitPrinted(b, Print(rest));
    LastBreakAppend(b, "\n\n" + Print(rest));
  }

  lemma {:induction false} PrintSplits(bs: seq<string>)
    requires bs != [] && CleanBlocks(bs)
    ensures LastBreak(Print(bs)) == LastBreak(bs[0])
    ensures SplitAtSeparators(Print(bs)) == bs
  {
    CleanTail(bs);
    if |bs| == 1 {
      SplitShape(bs[0]);
    } else {
      PrintSplits(bs[1..]);
      PrintSplitsStep(bs[0], bs[1..]);
      assert [bs[0]] + bs[1..] == bs;
    }
  }

  lemma {:induction false} PrintShape(bs: seq<string>)
    requires bs != [] && CleanBlocks(bs)
    ensures '\r' !in Print(bs) && Print(bs) != ""
    ensures Print(bs)[0] != '\n' && Print(bs)[|Print(bs)| - 1] != '\n'
  {
    if |bs| > 1 {
      CleanTail(bs);
      PrintShape(bs[1..]);
      assert CleanBlock(bs[0]);
    }
  }

  lemma PrintedBlocksParse(bs: seq<string>)
    requires CleanBlocks(bs)
    ensures SplitCaseBlocks(Print(bs)) == bs
  {
    if bs != [] {
      PrintShape(bs);
      PrintSplits(bs);
      NormalizeNewlinesId(Print(bs));
      StripIdIff(Print(bs), Newline);
      KeepCleanBlocks(bs);
    }
  }

  /** Printing a list of blocks and parsing it gives the list back exactly when the list is clean. */
  lemma BlocksRoundTripIff(bs: seq<string>)
    ensures SplitCaseBlocks(Print(bs)) == bs <==> CleanBlocks(bs)
  {
    if CleanBlocks(bs) {
      PrintedBlocksParse(bs);
    }
    ParsedBlocksAreClean(Print(bs));
  }

  // ----- normalised blocks

  lemma {:induction false} LastBreakTrimLines(s: string)
    ensures LastBreak(TrimLines(s)) > 0 <==> LastBreak(s) > 0
    ensures LastBreak(s) <= |s| && LastBreak(TrimLines(s)) <= |TrimLines(s)|
    ensures TrimLines(s)[LastBreak(TrimLines(s))..] == TrimLines(s[LastBreak(s)..])
  {
    LastBreakBound(s);
    LastBreakBound(TrimLines(s));
    if s != "" {
      var c, t := s[0], s[1..];
      LastBreakTrimLines(t);
      var u := TrimLines(t);
      assert ([c] + u)[1..] == u;
      if LastBreak(t) > 0 {
        assert s[LastBreak(t) + 1..] == t[LastBreak(t)..];
        assert ([c] + u)[LastBreak(u) + 1..] == u[LastBreak(u)..];
      }
    }
    if LastBreak(s) == 0 { assert s[0..] == s; }
    assert TrimLines(s)[0..] == TrimLines(s);
  }

  function TrimLinesAll(ps: seq<string>): seq<string> {
    if ps == [] then [] else [TrimLines(ps[0])] + TrimLinesAll(ps[1..])
  }

  lemma {:induction false} SplitTrimLines(s: string)
    ensures SplitAtSeparators(TrimLines(s)) == TrimLinesAll(SplitAtSeparators(s))
    decreases |s|
  {
    if s != "" {
      var c, t := s[0], s[1..];
      var u := TrimLines(t);
      assert ([c] + u)[1..] == u;
      LastBreakTrimLines(t);
      LastBreakBound(t);
      var n := SeparatorLength(s);
      if n > 0 {
        var rest := t[LastBreak(t)..];
        assert s[n..] == rest;
        SplitTrimLines(rest);
        assert ([c] + u)[1 + LastBreak(u)..] == u[LastBreak(u)..] == TrimLines(rest);
        assert ([""] + SplitAtSeparators(rest))[1..] == SplitAtSeparators(rest);
      } else {
        SplitTrimLines(t);
        var r := SplitAtSeparators(t);
        var r' := SplitAtSeparators(u);
        SplitShape(u);
        assert r' == [TrimLines(r[0])] + TrimLinesAll(r[1..]);
        assert ([c] + r[0])[1..] == r[0];
        assert ([[c] + r[0]] + r[1..])[1..] == r[1..];
        assert TrimLinesAll(SplitAtSeparators(s)) == [TrimLines([c] + r[0])] + TrimLinesAll(r[1..]);
        assert (u == "" || u[0] == '\n') <==> (r'[0] == "" || r'[0][0] == '\n');
        assert r'[1..] == TrimLinesAll(r[1..]);
      }
    }
  }

  lemma HasSeparatorCanonical(b: string)
    requires !HasSeparator(b)
    ensures !HasSeparator(Canonical(b))
  {
    var t := Strip(b, Whitespace);
    var lead, tail := StripSpec(b, Whitespace);
    if HasSeparator(t) { HasSeparatorAppend(lead, t, tail); }
    SplitShape(t);
    SplitTrimLines(t);
    SplitShape(TrimLines(t));
  }

  lemma CanonicalIsClean(b: string)
    requires CleanBlock(b)
    ensures CleanBlock(Canonical(b)) && LastBreak(Canonical(b)) == 0 && !TrailBreak(Canonical(b))
  {
    var n := Canonical(b);
    HasSeparatorCanonical(b);
    CanonicalChars(b, '\r');
    CanonicalIdempotent(b);
    StripIdIff(n, Whitespace);
    BlankIff(b);
    TrimLinesAllSpace(Strip(b, Whitespace));
    BlankIff(Strip(b, Whitespace));
    StripIdempotent(b, Whitespace);
    TrailBreakIff(n);
  }

  /** The normalised output blocks of any text are themselves clean, so they survive being saved again. */
  lemma NormalizedBlocksAreClean(bs: seq<string>)
    requires CleanBlocks(bs)
    ensures CleanBlocks(NormalizeAll(bs)) && NormalizeAll(NormalizeAll(bs)) == NormalizeAll(bs)
  {
    var ns := NormalizeAll(bs);
    NormalizeAllAt(bs);
    NormalizeAllAt(ns);
    forall i | 0 <= i < |bs|
      ensures CleanBlock(ns[i]) && LastBreak(ns[i]) == 0 && !TrailBreak(ns[i])
      ensures NormalizeAll(ns)[i] == ns[i]
    {
      NormalizeNewlinesId(bs[i]);
      NormalizeIsCanonical(bs[i]);
      CanonicalIsClean(bs[i]);
      NormalizeIdempotent(bs[i]);
    }
  }
}
