/** Line endings: how `\r\n`, `\r` and `\n` are read, across texts that are put together and in written lines. */
module LineEndings {
  import opened Text

  datatype LineEnding = Lf | CrLf | Cr

  function Ending(e: LineEnding): string {
    match e
    case Lf => "\n"
    case CrLf => "\r\n"
    case Cr => "\r"
  }

  predicate IsLine(s: string) {
    '\n' !in s && '\r' !in s
  }

  predicate AreLines(lines: seq<string>, endings: seq<LineEnding>) {
    |lines| == |endings| + 1 && forall i :: 0 <= i < |lines| ==> IsLine(lines[i])
  }

  /** The lines as a program writes them, each but the last followed by its own line ending. */
  function Written(lines: seq<string>, endings: seq<LineEnding>): string
    requires |lines| == |endings| + 1
  {
    if endings == [] then lines[0] else lines[0] + Ending(endings[0]) + Written(lines[1..], endings[1..])
  }

  /** A lone carriage return, an empty line and a lone newline stand in a row: they read as one line ending. */
  predicate Fuses(lines: seq<string>, endings: seq<LineEnding>)
    requires |lines| == |endings| + 1
  {
    |endings| >= 2 && ((endings[0] == Cr && lines[1] == "" && endings[1] == Lf) || Fuses(lines[1..], endings[1..]))
  }

  lemma {:induction false} NormalizeLine(line: string, rest: string)
    requires IsLine(line)
    ensures NormalizeNewlines(line + rest) == line + NormalizeNewlines(rest)
  {
    if line == "" {
      assert line + rest == rest;
      assert line + NormalizeNewlines(rest) == NormalizeNewlines(rest);
    } else {
      assert (line + rest)[1..] == line[1..] + rest;
      NormalizeLine(line[1..], rest);
      var u := ReplaceCrLf(line[1..] + rest);
      assert ([line[0]] + u)[1..] == u;
      assert [line[0]] + (line[1..] + NormalizeNewlines(rest)) == line + NormalizeNewlines(rest);
    }
  }

  lemma NormalizeEnding(e: LineEnding, rest: string)
    requires !(e == Cr && rest != "" && rest[0] == '\n')
    ensures NormalizeNewlines(Ending(e) + rest) == "\n" + NormalizeNewlines(rest)
  {
    var s := Ending(e) + rest;
    var u := ReplaceCrLf(rest);
    match e
    case Lf =>
      assert s[1..] == rest;
      assert (['\n'] + u)[1..] == u;
    case CrLf =>
      assert s[2..] == rest;
      assert ("\n" + u)[1..] == u;
    case Cr =>
      assert s[1..] == rest;
      assert (['\r'] + u)[1..] == u;
  }

  // ----- texts put together

  lemma NewlinesHead(c: char, t: string)
    requires !(c == '\r' && t != "" && t[0] == '\n')
    ensures NormalizeNewlines([c] + t) == [if c == '\r' then '\n' else c] + NormalizeNewlines(t)
  {
    var s := [c] + t;
    assert s[1..] == t;
    var u := ReplaceCrLf(t);
    assert ([c] + u)[1..] == u;
  }

  /** Line endings of two texts are replaced on their own, unless one ending lies across the seam. */
  lemma {:induction false} NewlinesConcat(x: string, y: string)
    requires !(x != "" && x[|x| - 1] == '\r' && y != "" && y[0] == '\n')
    ensures NormalizeNewlines(x + y) == NormalizeNewlines(x) + NormalizeNewlines(y)
    decreases |x|
  {
    hide NormalizeNewlines;
    if x == "" {
      NormalizeNewlinesId(x);
      assert x + y == y;
    } else if |x| >= 2 && x[0] == '\r' && x[1] == '\n' {
      NewlinesConcat(x[2..], y);
      CrLfHead(x[2..], y);
      assert x == Ending(CrLf) + x[2..];
    } else {
      NewlinesConcat(x[1..], y);
      NewlinesHead(x[0], x[1..] + y);
      NewlinesHead(x[0], x[1..]);
      assert x == [x[0]] + x[1..] && x + y == [x[0]] + (x[1..] + y);
    }
  }

  lemma CrLfHead(x: string, y: string)
    requires NormalizeNewlines(x + y) == NormalizeNewlines(x) + NormalizeNewlines(y)
    ensures NormalizeNewlines(Ending(CrLf) + x + y) == NormalizeNewlines(Ending(CrLf) + x) + NormalizeNewlines(y)
  {
    hide NormalizeNewlines;
    assert Ending(CrLf) + x + y == Ending(CrLf) + (x + y);
    NormalizeEnding(CrLf, x + y);
    NormalizeEnding(CrLf, x);
  }

  lemma BlankLineThen(b: string)
    ensures NormalizeNewlines("\n\n" + b) == "\n\n" + NormalizeNewlines(b)
    ensures NormalizeNewlines("\r\n\n" + b) == "\n\n" + NormalizeNewlines(b)
  {
    hide NormalizeNewlines;
    assert "\n" + b == Ending(Lf) + b;
    NormalizeEnding(Lf, b);
    assert "\n\n" + b == Ending(Lf) + ("\n" + b);
    NormalizeEnding(Lf, "\n" + b);
    assert "\r\n\n" + b == Ending(CrLf) + ("\n" + b);
    NormalizeEnding(CrLf, "\n" + b);
  }

  /** A carriage return at the end of the first text is taken into the line ending after it. */
  lemma NewlinesOfTwo(a: string, b: string) returns (x: string)
    ensures NormalizeNewlines(a + "\n\n" + b) == x + "\n\n" + NormalizeNewlines(b)
    ensures NormalizeNewlines(a) == x || NormalizeNewlines(a) == x + "\n"
  {
    hide NormalizeNewlines;
    BlankLineThen(b);
    if a != "" && a[|a| - 1] == '\r' {
      var start := a[..|a| - 1];
      assert a == start + "\r" && a + "\n\n" + b == start + ("\r\n\n" + b);
      NewlinesConcat(start, "\r\n\n" + b);
      NewlinesConcat(start, "\r");
      assert "\r" == Ending(Cr) + "";
      NormalizeEnding(Cr, "");
      NormalizeNewlinesId("");
      assert NormalizeNewlines("\r") == "\n";
      x := NormalizeNewlines(start);
    } else {
      assert a + "\n\n" + b == a + ("\n\n" + b);
      NewlinesConcat(a, "\n\n" + b);
      x := NormalizeNewlines(a);
    }
    assert x + ("\n\n" + NormalizeNewlines(b)) == x + "\n\n" + NormalizeNewlines(b);
  }

  // ----- written lines

  lemma WrittenHead(lines: seq<string>, endings: seq<LineEnding>)
    requires AreLines(lines, endings)
    ensures var s := Written(lines, endings);
      (s != "" && s[0] == '\n') <==> (endings != [] && lines[0] == "" && endings[0] == Lf)
  {
    if lines[0] != "" {
      assert Written(lines, endings)[0] == lines[0][0];
      assert lines[0][0] in lines[0];
    }
  }

  /** The first two endings and the empty line between them are read as one line ending. */
  predicate FusesFirst(lines: seq<string>, endings: seq<LineEnding>)
    requires |lines| == |endings| + 1
  {
    |endings| >= 2 && endings[0] == Cr && lines[1] == "" && endings[1] == Lf
  }

  /** The lines that are read: an empty line between endings that fuse is lost. */
  function ReadLines(lines: seq<string>, endings: seq<LineEnding>): (read: seq<string>)
    requires |lines| == |endings| + 1
    ensures read != []
    decreases |lines|
  {
    if endings == [] then lines
    else if FusesFirst(lines, endings) then [lines[0]] + ReadLines(lines[2..], endings[2..])
    else [lines[0]] + ReadLines(lines[1..], endings[1..])
  }

  /** The first and the last line are always read, and every line is exactly when no endings fuse. */
  lemma {:induction false} ReadLinesShape(lines: seq<string>, endings: seq<LineEnding>)
    requires |lines| == |endings| + 1
    ensures var read := ReadLines(lines, endings);
      && read[0] == lines[0] && read[|read| - 1] == lines[|lines| - 1]
      && |read| <= |lines| && (|read| == |lines| <==> !Fuses(lines, endings))
      && (!Fuses(lines, endings) ==> read == lines)
    decreases |lines|
  {
    if FusesFirst(lines, endings) {
      ReadLinesShape(lines[2..], endings[2..]);
    } else if endings != [] {
      ReadLinesShape(lines[1..], endings[1..]);
    }
  }

  lemma {:induction false} ReadLinesAreLines(lines: seq<string>, endings: seq<LineEnding>)
    requires AreLines(lines, endings)
    ensures forall i :: 0 <= i < |ReadLines(lines, endings)| ==> IsLine(ReadLines(lines, endings)[i])
    decreases |lines|
  {
    if FusesFirst(lines, endings) {
      ReadLinesAreLines(lines[2..], endings[2..]);
    } else if endings != [] {
      ReadLinesAreLines(lines[1..], endings[1..]);
    }
  }

  lemma JoinMore(line: string, rest: seq<string>)
    requires rest != []
    ensures Join([line] + rest, "\n") == line + ("\n" + Join(rest, "\n"))
  {
    assert ([line] + rest)[1..] == rest;
    assert line + "\n" + Join(rest, "\n") == line + ("\n" + Join(rest, "\n"));
  }

  lemma {:induction false} NormalizeWritten(lines: seq<string>, endings: seq<LineEnding>)
    requires AreLines(lines, endings)
    ensures NormalizeNewlines(Written(lines, endings)) == Join(ReadLines(lines, endings), "\n")
    decreases |lines|
  {
    hide NormalizeNewlines;
    if endings == [] {
      NormalizeNewlinesId(lines[0]);
    } else {
      var rest := Written(lines[1..], endings[1..]);
      assert Written(lines, endings) == lines[0] + (Ending(endings[0]) + rest);
      NormalizeLine(lines[0], Ending(endings[0]) + rest);
      WrittenHead(lines[1..], endings[1..]);
      if FusesFirst(lines, endings) {
        var rest2 := Written(lines[2..], endings[2..]);
        assert lines[1..][1..] == lines[2..] && endings[1..][1..] == endings[2..];
        assert rest == "\n" + rest2 && Ending(Cr) + rest == Ending(CrLf) + rest2;
        NormalizeWritten(lines[2..], endings[2..]);
        NormalizeEnding(CrLf, rest2);
        JoinMore(lines[0], ReadLines(lines[2..], endings[2..]));
      } else {
        NormalizeEnding(endings[0], rest);
        NormalizeWritten(lines[1..], endings[1..]);
        JoinMore(lines[0], ReadLines(lines[1..], endings[1..]));
      }
    }
  }

  /** Any mix of line endings reads as the same lines exactly when no carriage return fuses with a later newline. */
  lemma SameLinesIff(lines: seq<string>, endings: seq<LineEnding>)
    requires AreLines(lines, endings)
    ensures NormalizeNewlines(Written(lines, endings)) == Join(lines, "\n") <==> !Fuses(lines, endings)
  {
    NormalizeWritten(lines, endings);
    ReadLinesShape(lines, endings);
    ReadLinesAreLines(lines, endings);
    SplitJoin(lines, '\n');
    SplitJoin(ReadLines(lines, endings), '\n');
  }

  /** Endings that fuse: a carriage return, an empty line and a newline are read as one line ending. */
  lemma FusedEndings()
    ensures AreLines(["a", "", "b"], [Cr, Lf]) && Written(["a", "", "b"], [Cr, Lf]) == "a\r\nb"
    ensures NormalizeNewlines("a\r\nb") == "a\nb" && Join(["a", "", "b"], "\n") == "a\n\nb"
  {
    hide NormalizeNewlines;
    assert "a\r\nb" == "a" + (Ending(CrLf) + "b");
    NormalizeLine("a", Ending(CrLf) + "b");
    NormalizeEnding(CrLf, "b");
    NormalizeNewlinesId("b");
    assert ["a", "", "b"][1..] == ["", "b"] && ["", "b"][1..] == ["b"] && [Cr, Lf][1..] == [Lf];
    assert Written(["", "b"], [Lf]) == "\nb" && Join(["", "b"], "\n") == "\nb";
  }
}
