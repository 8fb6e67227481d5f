/** The string operations of Python and JavaScript that the judge relies on, over sequences of characters. */
module Text {

  /** The character sets that the source passes to `strip`. */
  datatype CharClass = Whitespace | Newline | Slash

  /** Python's `str.isspace` for one character; `strip`, `rstrip` and the regex class `\s` use the same set. */
  predicate IsSpace(c: char) {
    var n := c as int;
    || 0x09 <= n <= 0x0D || 0x1C <= n <= 0x20 || n == 0x85 || n == 0xA0 || n == 0x1680
    || 0x2000 <= n <= 0x200A || n == 0x2028 || n == 0x2029 || n == 0x202F || n == 0x205F || n == 0x3000
  }

  predicate Matches(k: CharClass, c: char) {
    match k
    case Whitespace => IsSpace(c)
    case Newline => c == '\n'
    case Slash => c == '/'
  }

  predicate AllSpace(s: string) {
    s == "" || (IsSpace(s[0]) && AllSpace(s[1..]))
  }

  /** `s.lstrip(...)` */
  function TrimStart(s: string, k: CharClass): string {
    if s != "" && Matches(k, s[0]) then TrimStart(s[1..], k) else s
  }

  /** `s.rstrip(...)` */
  function TrimEnd(s: string, k: CharClass): string {
    if s == "" then ""
    else
      var r := TrimEnd(s[1..], k);
      if r == "" && Matches(k, s[0]) then "" else [s[0]] + r
  }

  /** `s.strip(...)` */
  function Strip(s: string, k: CharClass): string {
    TrimEnd(TrimStart(s, k), k)
  }

  /** `s.replace(a, b)` for single characters. */
  function ReplaceChar(s: string, a: char, b: char): string {
    if s == "" then "" else [if s[0] == a then b else s[0]] + ReplaceChar(s[1..], a, b)
  }

  /** `s.replace('\r\n', '\n')` */
  function ReplaceCrLf(s: string): string {
    if s == "" then ""
    else if |s| >= 2 && s[0] == '\r' && s[1] == '\n' then "\n" + ReplaceCrLf(s[2..])
    else [s[0]] + ReplaceCrLf(s[1..])
  }

  /** Both line-ending replacements, in the order the source applies them. */
  function NormalizeNewlines(s: string): string {
    ReplaceChar(ReplaceCrLf(s), '\r', '\n')
  }

  /** `s.split(c)`: never empty. */
  function Split(s: string, c: char): (parts: seq<string>)
    ensures |parts| >= 1
  {
    if s == "" then [""]
    else
      var r := Split(s[1..], c);
      if s[0] == c then [""] + r else [[s[0]] + r[0]] + r[1..]
  }

  /** `sep.join(parts)` */
  function Join(parts: seq<string>, sep: string): string {
    if |parts| == 0 then ""
    else if |parts| == 1 then parts[0]
    else parts[0] + sep + Join(parts[1..], sep)
  }

  // ----- stripping

  lemma {:induction false} TrimEndSpec(s: string, k: CharClass)
    ensures TrimEnd(s, k) <= s
    ensures forall i :: |TrimEnd(s, k)| <= i < |s| ==> Matches(k, s[i])
    ensures TrimEnd(s, k) != "" ==> !Matches(k, TrimEnd(s, k)[|TrimEnd(s, k)| - 1])
  {
    if s != "" {
      TrimEndSpec(s[1..], k);
      forall i | |TrimEnd(s, k)| <= i < |s| ensures Matches(k, s[i]) {
        if i > 0 { assert s[i] == s[1..][i - 1]; }
      }
    }
  }

  lemma {:induction false} TrimStartSpec(s: string, k: CharClass)
    ensures |TrimStart(s, k)| <= |s| && TrimStart(s, k) == s[|s| - |TrimStart(s, k)|..]
    ensures forall i :: 0 <= i < |s| - |TrimStart(s, k)| ==> Matches(k, s[i])
    ensures TrimStart(s, k) != "" ==> !Matches(k, TrimStart(s, k)[0])
  {
    if s != "" && Matches(k, s[0]) {
      TrimStartSpec(s[1..], k);
      forall i | 0 <= i < |s| - |TrimStart(s, k)| ensures Matches(k, s[i]) {
        if i > 0 { assert s[i] == s[1..][i - 1]; }
      }
    }
  }

  /** What `strip` returns: the text between the first and the last character outside the class. */
  lemma {:induction false} StripSpec(s: string, k: CharClass) returns (lead: string, tail: string)
    ensures s == lead + Strip(s, k) + tail
    ensures forall i :: 0 <= i < |lead| ==> Matches(k, lead[i])
    ensures forall i :: 0 <= i < |tail| ==> Matches(k, tail[i])
    ensures Strip(s, k) != "" ==> !Matches(k, Strip(s, k)[0]) && !Matches(k, Strip(s, k)[|Strip(s, k)| - 1])
  {
    hide TrimStart, TrimEnd, Matches;
    var t := TrimStart(s, k);
    var u := TrimEnd(t, k);
    TrimStartSpec(s, k);
    TrimEndSpec(t, k);
    lead, tail := s[..|s| - |t|], t[|u|..];
    ThreeParts(s, t, u);
  }

  lemma ThreeParts(s: string, t: string, u: string)
    requires |t| <= |s| && t == s[|s| - |t|..] && u <= t
    ensures s == s[..|s| - |t|] + u + t[|u|..]
  {
    assert t == u + t[|u|..];
    assert s == s[..|s| - |t|] + t;
  }

  lemma {:induction false} TrimEndId(s: string, k: CharClass)
    requires s != "" ==> !Matches(k, s[|s| - 1])
    ensures TrimEnd(s, k) == s
  {
    if |s| > 1 {
      TrimEndId(s[1..], k);
      assert s == [s[0]] + s[1..];
    }
  }

  /** A string is left alone by `strip` exactly when neither end is in the class. */
  lemma {:induction false} StripIdIff(s: string, k: CharClass)
    ensures Strip(s, k) == s <==> (s == "" || (!Matches(k, s[0]) && !Matches(k, s[|s| - 1])))
  {
    if s == "" || (!Matches(k, s[0]) && !Matches(k, s[|s| - 1])) {
      TrimEndId(s, k);
    } else {
      var lead, tail := StripSpec(s, k);
      assert Strip(s, k) == s ==> s != "";
    }
  }

  lemma {:induction false} StripIdempotent(s: string, k: CharClass)
    ensures Strip(Strip(s, k), k) == Strip(s, k)
  {
    var _, _ := StripSpec(s, k);
    StripIdIff(Strip(s, k), k);
  }

  // ----- whitespace-only strings

  lemma {:induction false} AllSpaceIff(s: string)
    ensures AllSpace(s) <==> forall i :: 0 <= i < |s| ==> IsSpace(s[i])
  {
    if s != "" {
      AllSpaceIff(s[1..]);
      if AllSpace(s) {
        forall i | 0 <= i < |s| ensures IsSpace(s[i]) {
          if i > 0 { assert s[i] == s[1..][i - 1]; }
        }
      }
      if forall i :: 0 <= i < |s| ==> IsSpace(s[i]) {
        forall i | 0 <= i < |s[1..]| ensures IsSpace(s[1..][i]) { assert s[1..][i] == s[i + 1]; }
      }
    }
  }

  lemma {:induction false} BlankIff(s: string)
    ensures Strip(s, Whitespace) == "" <==> AllSpace(s)
  {
    AllSpaceIff(s);
    var lead, tail := StripSpec(s, Whitespace);
    if Strip(s, Whitespace) == "" {
      assert s == lead + tail;
      forall i | 0 <= i < |s| ensures IsSpace(s[i]) {
        assert Matches(Whitespace, if i < |lead| then lead[i] else tail[i - |lead|]);
      }
    } else {
      assert s[|lead|] == Strip(s, Whitespace)[0];
      assert !Matches(Whitespace, s[|lead|]);
    }
  }

  lemma {:induction false} AllSpaceConcat(a: string, b: string)
    ensures AllSpace(a + b) <==> AllSpace(a) && AllSpace(b)
  {
    if a == "" {
      assert a + b == b;
    } else {
      assert (a + b)[1..] == a[1..] + b;
      AllSpaceConcat(a[1..], b);
    }
  }

  // ----- line endings

  lemma {:induction false} ReplaceCharRemoves(s: string, a: char, b: char)
    requires a != b
    ensures a !in ReplaceChar(s, a, b)
    ensures |ReplaceChar(s, a, b)| == |s|
  {
    if s != "" { ReplaceCharRemoves(s[1..], a, b); }
  }

  lemma {:induction false} ReplaceCharId(s: string, a: char, b: char)
    requires a !in s
    ensures ReplaceChar(s, a, b) == s
  {
    if s != "" {
      ReplaceCharId(s[1..], a, b);
      assert s == [s[0]] + s[1..];
    }
  }

  lemma {:induction false} ReplaceCrLfId(s: string)
    requires '\r' !in s
    ensures ReplaceCrLf(s) == s
  {
    if s != "" {
      ReplaceCrLfId(s[1..]);
      assert s == [s[0]] + s[1..];
    }
  }

  lemma NormalizeNewlinesId(s: string)
    requires '\r' !in s
    ensures NormalizeNewlines(s) == s
  {
    ReplaceCrLfId(s);
    ReplaceCharId(s, '\r', '\n');
  }

  lemma NormalizeNewlinesNoCr(s: string)
    ensures '\r' !in NormalizeNewlines(s)
  {
    ReplaceCharRemoves(ReplaceCrLf(s), '\r', '\n');
  }

  // ----- splitting and joining

  lemma {:induction false} SplitPieces(s: string, c: char)
    ensures forall i :: 0 <= i < |Split(s, c)| ==> c !in Split(s, c)[i]
    ensures Join(Split(s, c), [c]) == s
  {
    if s != "" {
      SplitPieces(s[1..], c);
      var r := Split(s[1..], c);
      assert s == [s[0]] + s[1..];
      if s[0] == c {
        assert ([""] + r)[1..] == r;
      } else {
        assert ([[s[0]] + r[0]] + r[1..])[1..] == r[1..];
      }
    }
  }

  lemma {:induction false} SplitNoSeparator(s: string, c: char)
    requires c !in s
    ensures Split(s, c) == [s]
  {
    if s != "" {
      SplitNoSeparator(s[1..], c);
      assert s == [s[0]] + s[1..];
    }
  }

  lemma {:induction false} SplitConcat(s: string, c: char, t: string)
    requires c !in s
    ensures Split(s + [c] + t, c) == [s] + Split(t, c)
  {
    if s == "" {
      assert s + [c] + t == [c] + t;
      assert ([c] + t)[1..] == t;
    } else {
      var u := s + [c] + t;
      assert u[1..] == s[1..] + [c] + t;
      SplitConcat(s[1..], c, t);
      assert s == [s[0]] + s[1..];
    }
  }

  /** Splitting undoes joining when no part contains the separator. */
  lemma {:induction false} SplitJoin(parts: seq<string>, c: char)
    requires |parts| >= 1
    requires forall i :: 0 <= i < |parts| ==> c !in parts[i]
    ensures Split(Join(parts, [c]), c) == parts
  {
    if |parts| == 1 {
      SplitNoSeparator(parts[0], c);
    } else {
      SplitJoin(parts[1..], c);
      SplitConcat(parts[0], c, Join(parts[1..], [c]));
    }
  }
}
