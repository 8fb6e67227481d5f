/** What an accepted workspace looks like, and when the sandbox leaves it as the web tier made it. */
module WorkspaceLaws {
  import opened Common
  import opened Text
  import opened Workspace

  // ----- sanitised paths

  lemma {:induction false} LaterPartsNonEmpty(s: string)
    requires !HasDoubleSlash(s) && (s != "" ==> s[|s| - 1] != '/')
    ensures forall i :: 1 <= i < |Split(s, '/')| ==> Split(s, '/')[i] != ""
  {
    if s != "" {
      var t, r := s[1..], Split(s[1..], '/');
      LaterPartsNonEmpty(t);
      if s[0] == '/' {
        FirstPartNonEmpty(t);
        forall i | 1 <= i < |[""] + r| ensures ([""] + r)[i] != "" { assert ([""] + r)[i] == r[i - 1]; }
      }
    }
  }

  lemma FirstPartNonEmpty(s: string)
    requires s != "" && s[0] != '/'
    ensures Split(s, '/')[0] != ""
  {
  }

  lemma {:induction false} NonEmptyKeepsAll(parts: seq<string>)
    requires forall i :: 0 <= i < |parts| ==> parts[i] != ""
    ensures NonEmpty(parts) == parts
  {
    if parts != [] {
      NonEmptyKeepsAll(parts[1..]);
      assert parts == [parts[0]] + parts[1..];
    }
  }

  /** A candidate that begins and ends with something else than a slash and has no double slash is its parts joined. */
  lemma CandidateIsItsParts(c: string)
    requires c != "" && c[0] != '/' && c[|c| - 1] != '/' && !HasDoubleSlash(c)
    ensures NonEmpty(Split(c, '/')) == Split(c, '/') && Join(Split(c, '/'), "/") == c
  {
    LaterPartsNonEmpty(c);
    FirstPartNonEmpty(c);
    NonEmptyKeepsAll(Split(c, '/'));
    SplitPieces(c, '/');
  }

  lemma CandidateEnds(pathValue: string)
    ensures var c := Candidate(pathValue); c != "" ==> c[0] != '/' && c[|c| - 1] != '/'
    ensures '\\' !in Candidate(pathValue)
  {
    var t := ReplaceChar(pathValue, '\\', '/');
    ReplaceCharRemoves(pathValue, '\\', '/');
    var u := Strip(t, Whitespace);
    var l1, t1 := StripSpec(t, Whitespace);
    var l2, t2 := StripSpec(u, Slash);
  }

  /**
   * Where a candidate comes from: a stretch of the given path, each backslash in it read as a slash; all that is cut
   * off on either side is whitespace and slashes.
   */
  lemma CandidateIsAStretch(pathValue: string) returns (at: nat)
    ensures var c := Candidate(pathValue);
      && at + |c| <= |pathValue|
      && (forall i :: 0 <= i < |c| ==> c[i] == if pathValue[at + i] == '\\' then '/' else pathValue[at + i])
      && (forall i :: 0 <= i < |pathValue| && !(at <= i < at + |c|) ==>
        IsSpace(pathValue[i]) || pathValue[i] == '/' || pathValue[i] == '\\')
  {
    hide Strip;
    var t := ReplaceChar(pathValue, '\\', '/');
    ReplaceCharAt(pathValue, '\\', '/');
    var u := Strip(t, Whitespace);
    var lead, tail := StripSpec(t, Whitespace);
    var lead', tail' := StripSpec(u, Slash);
    var c := Candidate(pathValue);
    at := |lead| + |lead'|;
    assert t == lead + (lead' + c + tail') + tail;
    forall i | 0 <= i < |c|
      ensures c[i] == if pathValue[at + i] == '\\' then '/' else pathValue[at + i]
    {
      assert t[at + i] == c[i];
    }
    forall i | 0 <= i < |pathValue| && !(at <= i < at + |c|)
      ensures IsSpace(pathValue[i]) || pathValue[i] == '/' || pathValue[i] == '\\'
    {
      assert Matches(Whitespace, t[i]) || Matches(Slash, t[i]) by { CutOff(lead, lead', c, tail', tail, i); }
    }
  }

  lemma CutOff(lead: string, lead': string, c: string, tail': string, tail: string, i: nat)
    requires forall j :: 0 <= j < |lead| ==> Matches(Whitespace, lead[j])
    requires forall j :: 0 <= j < |tail| ==> Matches(Whitespace, tail[j])
    requires forall j :: 0 <= j < |lead'| ==> Matches(Slash, lead'[j])
    requires forall j :: 0 <= j < |tail'| ==> Matches(Slash, tail'[j])
    requires i < |lead + (lead' + c + tail') + tail| && !(|lead| + |lead'| <= i < |lead| + |lead'| + |c|)
    ensures var x := (lead + (lead' + c + tail') + tail)[i]; Matches(Whitespace, x) || Matches(Slash, x)
  {
    hide Matches;
    var x := (lead + (lead' + c + tail') + tail)[i];
    if i < |lead| {
      assert x == lead[i];
    } else if i < |lead| + |lead'| {
      assert x == lead'[i - |lead|];
    } else if i < |lead| + |lead'| + |c| + |tail'| {
      assert x == tail'[i - |lead| - |lead'| - |c|];
    } else {
      assert x == tail[i - |lead| - |lead'| - |c| - |tail'|];
    }
  }

  lemma {:induction false} ReplaceCharAt(s: string, a: char, b: char)
    ensures |ReplaceChar(s, a, b)| == |s|
    ensures forall i :: 0 <= i < |s| ==> ReplaceChar(s, a, b)[i] == if s[i] == a then b else s[i]
  {
    if s != "" { ReplaceCharAt(s[1..], a, b); }
  }

  /** A backslash and a slash are the same to both sanitisers. */
  lemma BackslashesAreSlashes(pathValue: string)
    ensures SanitizeInWeb(ReplaceChar(pathValue, '\\', '/')) == SanitizeInWeb(pathValue)
    ensures SanitizeInSandbox(ReplaceChar(pathValue, '\\', '/')) == SanitizeInSandbox(pathValue)
  {
    ReplaceCharRemoves(pathValue, '\\', '/');
    ReplaceCharId(ReplaceChar(pathValue, '\\', '/'), '\\', '/');
  }

  /** A safe relative path: what both sanitisers return, apart from the web tier's length limit. */
  predicate SafePath(p: string) {
    && !Suspicious(p) && p[0] != '/' && p[|p| - 1] != '/' && '\\' !in p
    && !HasDotPart(Split(p, '/'))
  }

  /** A double slash, and a slash at either end, is an empty part. */
  lemma {:induction false} DoubleSlashIff(s: string)
    ensures HasDoubleSlash(s) <==> exists i :: 0 <= i < |s| - 1 && s[i] == '/' && s[i + 1] == '/'
  {
    if |s| >= 2 {
      DoubleSlashIff(s[1..]);
      if HasDoubleSlash(s[1..]) {
        var i :| 0 <= i < |s[1..]| - 1 && s[1..][i] == '/' && s[1..][i + 1] == '/';
        assert s[i + 1] == '/' && s[i + 1 + 1] == '/';
      }
      if i :| 0 <= i < |s| - 1 && s[i] == '/' && s[i + 1] == '/' {
        if i > 0 { assert s[1..][i - 1] == '/' && s[1..][i - 1 + 1] == '/'; }
      }
    }
  }

  lemma {:induction false} SlashMeansEmptyPart(s: string)
    requires s != "" && (HasDoubleSlash(s) || s[|s| - 1] == '/')
    ensures exists i :: 1 <= i < |Split(s, '/')| && Split(s, '/')[i] == ""
  {
    var t, r := s[1..], Split(s[1..], '/');
    if s[0] == '/' && (t == "" || t[0] == '/') {
      assert Split(s, '/')[1] == r[0] == "";
    } else {
      assert t != "" && (HasDoubleSlash(t) || t[|t| - 1] == '/');
      SlashMeansEmptyPart(t);
      var i :| 1 <= i < |r| && r[i] == "";
      assert Split(s, '/')[if s[0] == '/' then i + 1 else i] == "";
    }
  }

  /** A safe path starts with neither `.` nor `~`, and has no backslash and no part that is empty, `.` or `..`. */
  lemma SafePathIff(p: string)
    ensures SafePath(p) <==>
      && p != "" && '\\' !in p && p[0] != '.' && p[0] != '~'
      && forall i :: 0 <= i < |Split(p, '/')| ==>
        Split(p, '/')[i] != "" && Split(p, '/')[i] != "." && Split(p, '/')[i] != ".."
  {
    if p != "" {
      if SafePath(p) {
        FirstPartNonEmpty(p);
        LaterPartsNonEmpty(p);
      }
      if HasDoubleSlash(p) || p[|p| - 1] == '/' { SlashMeansEmptyPart(p); }
      if p[0] == '/' { assert Split(p, '/')[0] == ""; }
    }
  }

  /** A sanitiser returns its own candidate, and only when that is a safe path. */
  lemma SanitizedIsSafe(pathValue: string)
    ensures var r := SanitizeInSandbox(pathValue);
      && (r.Some? <==> SafePath(Candidate(pathValue)))
      && (r.Some? ==> r.value == Candidate(pathValue))
  {
    var c := Candidate(pathValue);
    CandidateEnds(pathValue);
    if !Suspicious(c) {
      CandidateIsItsParts(c);
    }
  }

  /** The web tier accepts exactly the sandbox's paths of at most 180 characters, and returns the same. */
  lemma WebSanitizerIsTheShorterOne(pathValue: string)
    ensures SanitizeInWeb(pathValue) ==
      var r := SanitizeInSandbox(pathValue);
      if r.Some? && |r.value| <= 180 then r else None
  {
    SanitizedIsSafe(pathValue);
  }

  lemma StripShorter(s: string, k: CharClass)
    ensures |Strip(s, k)| <= |s|
    ensures Strip(s, k) != s ==> |Strip(s, k)| < |s|
  {
    var lead, tail := StripSpec(s, k);
    if |Strip(s, k)| == |s| { assert lead == "" && tail == ""; }
  }

  /** A sanitised path sanitises to itself exactly when it has no surrounding whitespace. */
  lemma SanitizedFixedPointIff(p: string)
    requires SafePath(p)
    ensures SanitizeInSandbox(p) == Some(p) <==> Strip(p, Whitespace) == p
  {
    SanitizedIsSafe(p);
    ReplaceCharId(p, '\\', '/');
    StripIdIff(p, Slash);
    StripShorter(p, Whitespace);
    StripShorter(Strip(p, Whitespace), Slash);
  }

  /** A leading slash can hide whitespace from the first pass: the path that results is not a fixed point. */
  lemma SlashHidesWhitespace()
    ensures SanitizeInWeb("/ a") == Some(" a") && SanitizeInSandbox(" a") == Some("a")
  {
    var s := "/ a";
    assert ReplaceChar(s, '\\', '/') == s by { ReplaceCharId(s, '\\', '/'); }
    StripIdIff(s, Whitespace);
    StripIdIff("a", Whitespace);
    assert TrimStart(s, Slash) == " a" && TrimEnd(" a", Slash) == " a";
    SplitNoSeparator(" a", '/');
    assert ReplaceChar(" a", '\\', '/') == " a" by { ReplaceCharId(" a", '\\', '/'); }
    assert TrimStart(" a", Whitespace) == "a" && TrimEnd("a", Whitespace) == "a";
    SplitNoSeparator("a", '/');
  }

  lemma DefaultIsSafe(language: Language)
    ensures SanitizeInSandbox(DefaultEntryFile(language)) == Some(DefaultEntryFile(language))
  {
    var d := DefaultEntryFile(language);
    PlainNameIsSafe(d);
  }

  lemma PlainNameIsSafe(d: string)
    requires |d| > 2 && '/' !in d && '\\' !in d
    requires d[0] != '.' && d[0] != '~' && !IsSpace(d[0]) && !IsSpace(d[|d| - 1])
    ensures SanitizeInSandbox(d) == Some(d)
  {
    NoDoubleSlash(d);
    SplitNoSeparator(d, '/');
    assert d[0] != '/' && d[|d| - 1] != '/';
    assert SafePath(d);
    StripIdIff(d, Whitespace);
    SanitizedFixedPointIff(d);
  }

  lemma {:induction false} NoDoubleSlash(s: string)
    requires '/' !in s
    ensures !HasDoubleSlash(s)
  {
    if |s| >= 2 {
      assert s[0] in s;
      NoDoubleSlash(s[1..]);
    }
  }

  // ----- default entry files

  predicate HasSuffix(s: string, suffix: string) {
    |suffix| <= |s| && s[|s| - |suffix|..] == suffix
  }

  /** The suffixes of `infer_language_from_entry_file` and their languages, in its order. */
  const LANGUAGE_BY_EXTENSION: seq<(string, Language)> := [
    (".py", Python), (".cpp", Cpp), (".cc", Cpp), (".cxx", Cpp), (".c", C), (".java", Java), (".js", JavaScript),
    (".ts", TypeScript), (".rb", Ruby), (".go", Go), (".rs", Rust), (".php", Php), (".sql", Sql)]

  /** The language of the first suffix that a path has; the suffixes are in lower case. */
  function Inferred(path: string, table: seq<(string, Language)>): Option<Language> {
    if table == [] then None
    else if HasSuffix(path, table[0].0) then Some(table[0].1)
    else Inferred(path, table[1..])
  }

  lemma {:induction false} InferredFrom(path: string, table: seq<(string, Language)>, language: Language)
    requires exists i :: 0 <= i < |table| && HasSuffix(path, table[i].0)
    requires forall i :: 0 <= i < |table| && HasSuffix(path, table[i].0) ==> table[i].1 == language
    ensures Inferred(path, table) == Some(language)
  {
    var i :| 0 <= i < |table| && HasSuffix(path, table[i].0);
    if i > 0 && !HasSuffix(path, table[0].0) {
      assert HasSuffix(path, table[1..][i - 1].0);
      forall j | 0 <= j < |table[1..]| && HasSuffix(path, table[1..][j].0) ensures table[1..][j].1 == language {
        assert table[1..][j] == table[j + 1];
      }
      InferredFrom(path, table[1..], language);
    }
  }

  /** Two suffixes of one path end alike, character by character. */
  lemma SuffixesEndAlike(path: string, x: string, y: string, k: nat)
    requires HasSuffix(path, x) && HasSuffix(path, y) && 1 <= k <= |x| && k <= |y|
    ensures x[|x| - k] == y[|y| - k]
  {
    assert path[|path| - k] == path[|path| - |x|..][|x| - k] == path[|path| - |y|..][|y| - k];
  }

  /** No path has the suffixes of two languages. */
  lemma OneLanguage(path: string, i: nat, j: nat)
    requires i < |LANGUAGE_BY_EXTENSION| && j < |LANGUAGE_BY_EXTENSION|
    requires HasSuffix(path, LANGUAGE_BY_EXTENSION[i].0) && HasSuffix(path, LANGUAGE_BY_EXTENSION[j].0)
    ensures LANGUAGE_BY_EXTENSION[i].1 == LANGUAGE_BY_EXTENSION[j].1
  {
    SuffixesEndAlike(path, LANGUAGE_BY_EXTENSION[i].0, LANGUAGE_BY_EXTENSION[j].0, 1);
    SuffixesEndAlike(path, LANGUAGE_BY_EXTENSION[i].0, LANGUAGE_BY_EXTENSION[j].0, 2);
  }

  /** Where the table has a language's own suffix. */
  function RowOf(language: Language): nat {
    match language
    case Python => 0
    case Cpp => 1
    case C => 4
    case Java => 5
    case JavaScript => 6
    case TypeScript => 7
    case Ruby => 8
    case Go => 9
    case Rust => 10
    case Php => 11
    case _ => 12
  }

  lemma DefaultSuffix(language: Language)
    requires language != Unlisted
    ensures LANGUAGE_BY_EXTENSION[RowOf(language)].1 == language
    ensures HasSuffix(DefaultEntryFile(language), LANGUAGE_BY_EXTENSION[RowOf(language)].0)
  {
    var d, suffix := DefaultEntryFile(language), LANGUAGE_BY_EXTENSION[RowOf(language)].0;
    assert d[|d| - |suffix|..] == suffix;
  }

  lemma OtherEnd(path: string, suffix: string)
    requires path != "" && suffix != "" && path[|path| - 1] != suffix[|suffix| - 1]
    ensures !HasSuffix(path, suffix)
  {
    if |suffix| <= |path| {
      assert path[|path| - |suffix|..][|suffix| - 1] == path[|path| - 1];
    }
  }

  lemma {:induction false} NothingInferred(path: string, table: seq<(string, Language)>)
    requires forall i :: 0 <= i < |table| ==> !HasSuffix(path, table[i].0)
    ensures Inferred(path, table) == None
  {
    if table != [] {
      forall i | 0 <= i < |table[1..]| ensures !HasSuffix(path, table[1..][i].0) {
        assert table[1..][i] == table[i + 1];
      }
      NothingInferred(path, table[1..]);
    }
  }

  /**
   * A language's default entry file passes the check that the entry file's suffix fits the language; the default of
   * any other language says nothing about it.
   */
  lemma DefaultFitsItsLanguage(language: Language)
    ensures Inferred(DefaultEntryFile(language), LANGUAGE_BY_EXTENSION) ==
      if language == Unlisted then None else Some(language)
  {
    var d, table := DefaultEntryFile(language), LANGUAGE_BY_EXTENSION;
    if language == Unlisted {
      forall i | 0 <= i < |table| ensures !HasSuffix(d, table[i].0) {
        OtherEnd(d, table[i].0);
      }
      NothingInferred(d, table);
    } else {
      DefaultSuffix(language);
      forall i | 0 <= i < |table| && HasSuffix(d, table[i].0) ensures table[i].1 == language {
        OneLanguage(d, i, RowOf(language));
      }
      InferredFrom(d, table, language);
    }
  }

  // ----- accepted workspaces

  lemma {:induction false} CheckedFilesAreSafe(raw: seq<RawFile>)
    requires CheckFiles(raw).Good?
    ensures |CheckFiles(raw).files| == |raw|
    ensures forall i :: 0 <= i < |raw| ==>
      && raw[i].Object? && CheckFiles(raw).files[i].content == RawContent(raw[i])
      && SanitizeInWeb(RawPath(raw[i])) == Some(CheckFiles(raw).files[i].path)
  {
    hide SanitizeInWeb;
    if raw != [] { CheckedFilesAreSafe(raw[..|raw| - 1]); }
  }

  /** An entry that both tiers can use: an object whose path, or else name, is a safe relative path. */
  predicate UsableEntry(f: RawFile) {
    f.Object? && SafePath(Candidate(RawPath(f))) && |Candidate(RawPath(f))| <= 180
  }

  /** The path of an entry is its `path`, else its `name`; what is absent or empty counts as nothing. */
  lemma EntryFields(path: Option<string>, name: Option<string>, content: Option<string>)
    ensures var f := Object(path, name, content);
      && (path.Some? && path.value != "" ==> RawPath(f) == path.value)
      && ((path.None? || path.value == "") && name.Some? ==> RawPath(f) == name.value)
      && ((path.None? || path.value == "") && name.None? ==> RawPath(f) == "")
      && (content.Some? ==> RawContent(f) == content.value)
      && (content.None? ==> RawContent(f) == "")
  {
  }

  /** Entry `i` is the first that is not usable, and `failure` says what is wrong with it. */
  predicate IsFirstUnusable(raw: seq<RawFile>, i: nat, failure: Failure) {
    && i < |raw| && !UsableEntry(raw[i]) && (forall j :: 0 <= j < i ==> UsableEntry(raw[j]))
    && failure == if raw[i].NotAnObject? then NotAnObjectEntry else UnsafePath
  }

  lemma {:induction false} CheckIff(raw: seq<RawFile>) returns (bad: nat)
    ensures CheckFiles(raw).Good? <==> forall i :: 0 <= i < |raw| ==> UsableEntry(raw[i])
    ensures CheckFiles(raw).Bad? ==> IsFirstUnusable(raw, bad, CheckFiles(raw).failure)
  {
    hide SanitizeInWeb, SafePath;
    bad := 0;
    if raw != [] {
      var n := |raw| - 1;
      bad := CheckIff(raw[..n]);
      forall i | 0 <= i < n ensures raw[..n][i] == raw[i] {}
      if raw[n].Object? {
        WebSanitizerIsTheShorterOne(RawPath(raw[n]));
        SanitizedIsSafe(RawPath(raw[n]));
      }
      if CheckFiles(raw[..n]).Good? { bad := n; }
    }
  }

  /**
   * A payload is accepted exactly when it is a list whose first 32 entries are all usable. Otherwise the failure names
   * what is wrong with the payload, or with the first entry that is not usable.
   */
  lemma AcceptedIff(language: Language, code: string, payload: FilesPayload, entryFile: string) returns (bad: nat)
    ensures var r := WebNormalized(language, code, payload, entryFile);
      && (r.Accepted? <==>
        payload.Files? && forall i :: 0 <= i < |payload.files| && i < 32 ==> UsableEntry(payload.files[i]))
      && (payload.BadJson? ==> r == Rejected(InvalidPayload))
      && (payload.NotAList? ==> r == Rejected(NotAnArray))
      && (payload.Files? && r.Rejected? ==> bad < 32 && IsFirstUnusable(payload.files, bad, r.failure))
  {
    hide SanitizeInWeb, LastWins, EntryAmong, ContentOf, UsableEntry;
    bad := 0;
    if payload.Files? {
      var first := payload.files[..Min(|payload.files|, MAX_SUBMISSION_FILES)];
      bad := CheckIff(first);
    }
  }

  /** With no files the code becomes the one file, under the requested entry path or else the language's default. */
  lemma NoFilesKeepTheCode(language: Language, code: string, entryFile: string)
    ensures var r := WebNormalized(language, code, Files([]), entryFile);
      && r.Accepted? && r.code == code && r.files == [File(r.entryFile, code)]
      && (SanitizeInWeb(entryFile).Some? ==> Some(r.entryFile) == SanitizeInWeb(entryFile))
      && (SanitizeInWeb(entryFile).None? ==> r.entryFile == DefaultEntryFile(language))
  {
    hide SanitizeInWeb;
  }

  /** With files the entry is the requested one if it is among them, else the default if that is, else the first. */
  lemma EntryIsChosen(language: Language, code: string, raw: seq<RawFile>, entryFile: string)
    requires raw != [] && WebNormalized(language, code, Files(raw), entryFile).Accepted?
    ensures var r := WebNormalized(language, code, Files(raw), entryFile);
      var requested := SanitizeInWeb(entryFile);
      && r.files != []
      && (requested.Some? && requested.value in Paths(r.files) ==> r.entryFile == requested.value)
      && ((requested.None? || requested.value !in Paths(r.files)) && DefaultEntryFile(language) in Paths(r.files) ==>
        r.entryFile == DefaultEntryFile(language))
      && ((requested.None? || requested.value !in Paths(r.files)) && DefaultEntryFile(language) !in Paths(r.files) ==>
        r.entryFile == r.files[0].path)
  {
    hide SanitizeInWeb, Paths;
    var checked := CheckFiles(raw[..Min(|raw|, MAX_SUBMISSION_FILES)]).files;
    CheckedFilesAreSafe(raw[..Min(|raw|, MAX_SUBMISSION_FILES)]);
    LastWinsPaths(checked);
  }

  /** The sandbox takes the requested entry path or else the default, and puts the code there when no file has it. */
  lemma SandboxEntry(language: Language, code: string, raw: seq<RawFile>, entryFile: string)
    ensures var (files, entry) := SandboxNormalized(language, code, raw, entryFile);
      && (SanitizeInSandbox(entryFile).Some? ==> Some(entry) == SanitizeInSandbox(entryFile))
      && (SanitizeInSandbox(entryFile).None? ==> entry == DefaultEntryFile(language))
      && (entry in Paths(UsableFiles(raw)) ==> files == LastWins(UsableFiles(raw)))
      && (entry !in Paths(UsableFiles(raw)) ==> files == [File(entry, code)] + LastWins(UsableFiles(raw)))
  {
    hide SanitizeInSandbox, Paths;
    LastWinsPaths(UsableFiles(raw));
  }

  /**
   * An accepted workspace has distinct paths, its entry file is one of them, and the code is that file's content.
   */
  lemma AcceptedWorkspace(language: Language, code: string, payload: FilesPayload, entryFile: string)
    requires WebNormalized(language, code, payload, entryFile).Accepted?
    ensures var r := WebNormalized(language, code, payload, entryFile);
      && r.files != [] && DistinctPaths(r.files) && r.entryFile in Paths(r.files)
      && exists i :: 0 <= i < |r.files| && r.files[i] == File(r.entryFile, r.code)
  {
    hide SanitizeInWeb, Paths;
    var r := WebNormalized(language, code, payload, entryFile);
    var checked := CheckFiles(payload.files[..Min(|payload.files|, MAX_SUBMISSION_FILES)]).files;
    if checked == [] {
      assert r.files[0] == File(r.entryFile, r.code);
      PathsOfOne(r.files[0]);
    } else {
      LastWinsDistinct(checked);
      LastWinsPaths(checked);
      FirstPathIn(r.files);
      ContentFound(r.files, r.entryFile);
    }
  }

  lemma PathsOfOne(f: File)
    ensures Paths([f]) == {f.path}
  {
    assert [f][0].path == f.path;
  }

  lemma FirstPathIn(files: seq<File>)
    requires files != []
    ensures files[0].path in Paths(files)
  {
  }

  /** The files of an accepted workspace are the last occurrences, in order, among the first 32 of the payload. */
  lemma AcceptedFilesAreLastOccurrences(language: Language, code: string, raw: seq<RawFile>, entryFile: string)
      returns (checked: seq<File>, at: seq<nat>)
    requires raw != [] && WebNormalized(language, code, Files(raw), entryFile).Accepted?
    ensures |checked| == Min(|raw|, MAX_SUBMISSION_FILES)
    ensures forall i :: 0 <= i < |checked| ==>
      && raw[i].Object? && checked[i].content == RawContent(raw[i])
      && SanitizeInWeb(RawPath(raw[i])) == Some(checked[i].path)
    ensures ListsLastOccurrences(at, checked)
    ensures PicksAt(WebNormalized(language, code, Files(raw), entryFile).files, at, checked)
  {
    hide SanitizeInWeb, ListsLastOccurrences, PicksAt, LastWins, Paths, EntryAmong, ContentOf, RawPath, RawContent;
    var first := raw[..Min(|raw|, MAX_SUBMISSION_FILES)];
    CheckedFilesAreSafe(first);
    checked := CheckFiles(first).files;
    at := LastWinsSpec(checked);
  }

  // ----- the sandbox sees the same workspace

  /** A file of the accepted workspace as it travels in the message. */
  function AsRaw(files: seq<File>): seq<RawFile> {
    seq(|files|, i requires 0 <= i < |files| => Object(Some(files[i].path), None, Some(files[i].content)))
  }

  predicate AllTrimmed(files: seq<File>) {
    forall i :: 0 <= i < |files| ==> Strip(files[i].path, Whitespace) == files[i].path
  }

  lemma AsRawPrefix(files: seq<File>)
    requires files != []
    ensures AsRaw(files)[..|files| - 1] == AsRaw(files[..|files| - 1])
  {
  }

  /** One more file of the message: the sandbox keeps it under its sanitised path, or skips it. */
  lemma UsableStep(files: seq<File>, f: File)
    requires f.path != ""
    ensures
      var before := UsableFiles(AsRaw(files));
      var path := SanitizeInSandbox(f.path);
      UsableFiles(AsRaw(files + [f])) == if path.None? then before else before + [File(path.value, f.content)]
  {
    hide SanitizeInSandbox;
    var all := files + [f];
    AsRawPrefix(all);
    assert all[..|all| - 1] == files;
    var last := AsRaw(all)[|all| - 1];
    assert last == Object(Some(f.path), None, Some(f.content));
    assert RawPath(last) == f.path && RawContent(last) == f.content;
  }

  lemma AllTrimmedStep(files: seq<File>, f: File)
    ensures AllTrimmed(files + [f]) <==> AllTrimmed(files) && Strip(f.path, Whitespace) == f.path
  {
    var all := files + [f];
    assert all[|files|] == f;
    assert forall i :: 0 <= i < |files| ==> all[i] == files[i];
  }

  /** The sandbox keeps every file only when each path is left alone by `strip`. */
  lemma {:induction false} UsableOfAccepted(files: seq<File>)
    requires forall i :: 0 <= i < |files| ==> SafePath(files[i].path)
    ensures |UsableFiles(AsRaw(files))| <= |files|
    ensures UsableFiles(AsRaw(files)) == files <==> AllTrimmed(files)
  {
    hide SanitizeInSandbox, Strip, SafePath, UsableFiles, AsRaw, AllTrimmed;
    if files == [] {
      UsableOfNone();
    } else {
      var rest, f := files[..|files| - 1], files[|files| - 1];
      SafePathNonEmpty(f.path);
      UsableOfAccepted(rest);
      assert files == rest + [f];
      UsableStep(rest, f);
      AllTrimmedStep(rest, f);
      SanitizedFixedPointIff(f.path);
      var before, path := UsableFiles(AsRaw(rest)), SanitizeInSandbox(f.path);
      if path.Some? && before + [File(path.value, f.content)] == rest + [f] {
        AppendInjective(before, rest, File(path.value, f.content), f);
      }
    }
  }

  lemma UsableOfNone()
    ensures UsableFiles(AsRaw([])) == [] && AllTrimmed([])
  {
    assert AsRaw([]) == [];
  }

  lemma AppendInjective<T>(a: seq<T>, b: seq<T>, x: T, y: T)
    requires a + [x] == b + [y]
    ensures a == b && x == y
  {
    assert |a| + 1 == |a + [x]| == |b + [y]| == |b| + 1;
    assert (a + [x])[..|a|] == a && (b + [y])[..|b|] == b;
    assert (a + [x])[|a|] == x && (b + [y])[|b|] == y;
  }

  /** A file whose path is left alone by `strip` is always among those the sandbox keeps. */
  lemma {:induction false} TrimmedFileIsKept(files: seq<File>, i: nat)
    requires forall j :: 0 <= j < |files| ==> SafePath(files[j].path)
    requires i < |files| && Strip(files[i].path, Whitespace) == files[i].path
    ensures files[i] in UsableFiles(AsRaw(files))
  {
    hide SanitizeInSandbox, Strip, SafePath, UsableFiles, AsRaw;
    var rest, f := files[..|files| - 1], files[|files| - 1];
    assert files == rest + [f];
    SafePathNonEmpty(f.path);
    UsableStep(rest, f);
    if i < |rest| {
      TrimmedFileIsKept(rest, i);
    } else {
      SanitizedFixedPointIff(f.path);
    }
  }

  lemma SafePathNonEmpty(p: string)
    requires SafePath(p)
    ensures p != ""
  {
  }

  /** The workspace as the web tier accepted it: safe distinct paths, the entry file among them. */
  predicate WebWorkspace(files: seq<File>, entryFile: string) {
    && DistinctPaths(files) && entryFile in Paths(files)
    && forall i :: 0 <= i < |files| ==> SafePath(files[i].path)
  }

  lemma FileWithPath(files: seq<File>, path: string) returns (i: nat)
    requires path in Paths(files)
    ensures i < |files| && files[i].path == path
  {
    i :| 0 <= i < |files| && files[i].path == path;
  }

  lemma PathOfMember(files: seq<File>, f: File)
    requires f in files
    ensures f.path in Paths(files)
  {
    var i :| 0 <= i < |files| && files[i] == f;
    assert files[i].path == f.path;
  }

  /**
   * The sandbox reproduces an accepted workspace's files, order and entry file exactly when none of its
   * paths has surrounding whitespace.
   */
  lemma SandboxKeepsWorkspaceIff(language: Language, code: string, files: seq<File>, entryFile: string)
    requires WebWorkspace(files, entryFile)
    ensures SandboxNormalized(language, code, AsRaw(files), entryFile) == (files, entryFile) <==> AllTrimmed(files)
  {
    hide SanitizeInSandbox, Paths, LastWins, Strip, SafePath, UsableFiles;
    var usable := UsableFiles(AsRaw(files));
    UsableOfAccepted(files);
    LastWinsPaths(usable);
    DefaultIsSafe(language);
    var k := FileWithPath(files, entryFile);
    SanitizedFixedPointIff(entryFile);
    var result := SandboxNormalized(language, code, AsRaw(files), entryFile);
    if AllTrimmed(files) {
      LastWinsOfDistinct(files);
    }
    if result == (files, entryFile) {
      // The entry file is its own sanitised form, so its file is usable and nothing was inserted.
      assert SanitizeInSandbox(entryFile) == Some(entryFile);
      TrimmedFileIsKept(files, k);
      PathOfMember(usable, files[k]);
      assert LastWins(usable) == files;
    }
  }

  /** What the web tier accepts is such a workspace. */
  lemma AcceptedIsWebWorkspace(language: Language, code: string, payload: FilesPayload, entryFile: string)
    requires WebNormalized(language, code, payload, entryFile).Accepted?
    ensures var r := WebNormalized(language, code, payload, entryFile); WebWorkspace(r.files, r.entryFile)
  {
    hide SanitizeInWeb, SanitizeInSandbox, Paths, SafePath;
    var r := WebNormalized(language, code, payload, entryFile);
    AcceptedWorkspace(language, code, payload, entryFile);
    var first := payload.files[..Min(|payload.files|, MAX_SUBMISSION_FILES)];
    CheckedFilesAreSafe(first);
    var checked := CheckFiles(first).files;
    if checked == [] {
      DefaultPathIsSafe(language);
      WebPathIsSafe(entryFile);
    } else {
      var at := LastWinsSpec(checked);
      forall i | 0 <= i < |r.files| ensures SafePath(r.files[i].path) {
        assert r.files[i] == checked[at[i]];
        WebPathIsSafe(RawPath(first[at[i]]));
      }
    }
  }

  lemma WebPathIsSafe(pathValue: string)
    ensures SanitizeInWeb(pathValue).Some? ==> SafePath(SanitizeInWeb(pathValue).value)
  {
    WebSanitizerIsTheShorterOne(pathValue);
    SanitizedIsSafe(pathValue);
  }

  lemma DefaultPathIsSafe(language: Language)
    ensures SafePath(DefaultEntryFile(language))
  {
    DefaultIsSafe(language);
    SanitizedIsSafe(DefaultEntryFile(language));
  }

  /** End to end: the sandbox writes the workspace that the web tier accepted, exactly when its paths are trimmed. */
  lemma AcceptedWorkspaceReachesSandboxIff(language: Language, code: string, payload: FilesPayload, entryFile: string)
    requires WebNormalized(language, code, payload, entryFile).Accepted?
    ensures var r := WebNormalized(language, code, payload, entryFile);
      (SandboxNormalized(language, r.code, AsRaw(r.files), r.entryFile) == (r.files, r.entryFile))
      <==> AllTrimmed(r.files)
  {
    hide WebNormalized, SandboxNormalized, AllTrimmed, WebWorkspace;
    var r := WebNormalized(language, code, payload, entryFile);
    AcceptedIsWebWorkspace(language, code, payload, entryFile);
    SandboxKeepsWorkspaceIff(language, r.code, r.files, r.entryFile);
  }
}
