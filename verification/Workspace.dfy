/**
 * Workspace files: the web tier's normalisation of a submission's files, the sandbox's own one,
 * and the loops of both proved against "the last occurrence of a path wins".
 */
module Workspace {
  import opened Common
  import opened Text

  /** An element of the `files` array; absent and null fields are `None`. */
  datatype RawFile = NotAnObject | Object(path: Option<string>, name: Option<string>, content: Option<string>)

  datatype File = File(path: string, content: string)

  /** The `files` value, decoded when it came as a string; an absent or empty one counts as no files. */
  datatype FilesPayload = BadJson | NotAList | Files(files: seq<RawFile>)

  datatype Failure = InvalidPayload | NotAnArray | NotAnObjectEntry | UnsafePath | EntryNotFound

  datatype Result = Accepted(files: seq<File>, entryFile: string, code: string) | Rejected(failure: Failure)

  datatype Language = Python | JavaScript | Ruby | Php | Cpp | C | Go | Rust | Java | TypeScript | Sql | Unlisted

  const MAX_SUBMISSION_FILES := 32
  const MAX_FILE_PATH_LENGTH := 180

  function DefaultEntryFile(language: Language): string {
    match language
    case Python => "main.py"
    case JavaScript => "main.js"
    case Ruby => "main.rb"
    case Php => "main.php"
    case Cpp => "main.cpp"
    case C => "main.c"
    case Go => "main.go"
    case Rust => "main.rs"
    case Java => "Main.java"
    case TypeScript => "main.ts"
    case Sql => "query.sql"
    case Unlisted => "main.txt"
  }

  // ----- paths

  /** `'//' in s` */
  predicate HasDoubleSlash(s: string) {
    |s| >= 2 && ((s[0] == '/' && s[1] == '/') || HasDoubleSlash(s[1..]))
  }

  /** The list comprehension that drops empty parts. */
  function NonEmpty(parts: seq<string>): seq<string> {
    if parts == [] then [] else (if parts[0] != "" then [parts[0]] else []) + NonEmpty(parts[1..])
  }

  function Candidate(pathValue: string): string {
    Strip(Strip(ReplaceChar(pathValue, '\\', '/'), Whitespace), Slash)
  }

  predicate Suspicious(candidate: string) {
    candidate == "" || candidate[0] == '.' || candidate[0] == '~' || HasDoubleSlash(candidate)
  }

  predicate HasDotPart(parts: seq<string>) {
    "." in parts || ".." in parts
  }

  /** The sandbox's `_sanitize_relative_file_path`. */
  function SanitizeInSandbox(pathValue: string): Option<string> {
    var candidate := Candidate(pathValue);
    if Suspicious(candidate) then None
    else
      var parts := NonEmpty(Split(candidate, '/'));
      if parts == [] || HasDotPart(parts) then None else Some(Join(parts, "/"))
  }

  /** The web tier's `sanitize_relative_file_path`, which also limits the length. */
  function SanitizeInWeb(pathValue: string): Option<string> {
    var candidate := Candidate(pathValue);
    if candidate == "" then None
    else if Suspicious(candidate) then None
    else
      var parts := NonEmpty(Split(candidate, '/'));
      if parts == [] || HasDotPart(parts) then None
      else
        var normalized := Join(parts, "/");
        if |normalized| > MAX_FILE_PATH_LENGTH then None else Some(normalized)
  }

  /** `raw_file.get('path') or raw_file.get('name')`, as the string that sanitising starts from. */
  function RawPath(f: RawFile): string
    requires f.Object?
  {
    if f.path.Some? && f.path.value != "" then f.path.value
    else if f.name.Some? then f.name.value else ""
  }

  function RawContent(f: RawFile): string
    requires f.Object?
  {
    if f.content.Some? then f.content.value else ""
  }

  // ----- the last occurrence of a path wins

  function Paths(files: seq<File>): set<string> {
    set i | 0 <= i < |files| :: files[i].path
  }

  /** Keeps a file when no later one has its path. */
  function LastWins(files: seq<File>): seq<File> {
    if files == [] then []
    else (if files[0].path in Paths(files[1..]) then [] else [files[0]]) + LastWins(files[1..])
  }

  /** `[file for file in files if file['path'] != path]` */
  function Without(files: seq<File>, path: string): seq<File> {
    if files == [] then []
    else (if files[0].path != path then [files[0]] else []) + Without(files[1..], path)
  }

  lemma PathsCons(f: File, files: seq<File>)
    ensures Paths([f] + files) == {f.path} + Paths(files)
  {
    forall x | x in {f.path} + Paths(files) ensures x in Paths([f] + files) {
      if x == f.path {
        assert ([f] + files)[0].path == x;
      } else {
        var i :| 0 <= i < |files| && files[i].path == x;
        assert ([f] + files)[i + 1].path == x;
      }
    }
  }

  lemma PathsSnoc(files: seq<File>, f: File)
    ensures Paths(files + [f]) == Paths(files) + {f.path}
  {
    forall x | x in Paths(files) + {f.path} ensures x in Paths(files + [f]) {
      if x == f.path {
        assert (files + [f])[|files|].path == x;
      } else {
        var i :| 0 <= i < |files| && files[i].path == x;
        assert (files + [f])[i].path == x;
      }
    }
  }

  lemma {:induction false} WithoutAbsent(files: seq<File>, path: string)
    requires path !in Paths(files)
    ensures Without(files, path) == files
  {
    if files != [] {
      assert files == [files[0]] + files[1..];
      PathsCons(files[0], files[1..]);
      WithoutAbsent(files[1..], path);
    }
  }

  lemma LastWinsCons(f: File, rest: seq<File>)
    ensures LastWins([f] + rest) == if f.path in Paths(rest) then LastWins(rest) else [f] + LastWins(rest)
  {
    hide Paths;
    assert ([f] + rest)[1..] == rest;
    assert [] + LastWins(rest) == LastWins(rest);
  }

  lemma WithoutCons(f: File, rest: seq<File>, path: string)
    ensures Without([f] + rest, path) == if f.path != path then [f] + Without(rest, path) else Without(rest, path)
  {
    assert ([f] + rest)[1..] == rest;
    assert [] + Without(rest, path) == Without(rest, path);
  }

  lemma LastWinsSnocStep(g: File, rest: seq<File>, f: File)
    requires LastWins(rest + [f]) == Without(LastWins(rest), f.path) + [f]
    ensures LastWins([g] + (rest + [f])) == Without(LastWins([g] + rest), f.path) + [f]
  {
    hide Paths, LastWins, Without;
    PathsSnoc(rest, f);
    LastWinsCons(g, rest);
    LastWinsCons(g, rest + [f]);
    if g.path !in Paths(rest) {
      WithoutCons(g, LastWins(rest), f.path);
      if g.path != f.path {
        var w := Without(LastWins(rest), f.path);
        assert ([g] + w) + [f] == [g] + (w + [f]);
      }
    }
  }

  /** One turn of the loop: dropping the path's earlier file and appending the new one. */
  lemma {:induction false} LastWinsSnoc(files: seq<File>, f: File)
    ensures LastWins(files + [f]) == Without(LastWins(files), f.path) + [f]
  {
    hide Paths;
    if files == [] {
      assert files + [f] == [f] + [];
      LastWinsCons(f, []);
      NoPaths();
    } else {
      hide LastWins, Without;
      var g, rest := files[0], files[1..];
      LastWinsSnoc(rest, f);
      LastWinsSnocStep(g, rest, f);
      assert [g] + rest == files && [g] + (rest + [f]) == files + [f];
    }
  }

  lemma NoPaths()
    ensures Paths([]) == {}
  {
  }

  lemma {:induction false} LastWinsPaths(files: seq<File>)
    ensures Paths(LastWins(files)) == Paths(files)
    ensures |LastWins(files)| <= |files|
    ensures |LastWins(files)| == |files| ==> LastWins(files) == files
    ensures files != [] ==> LastWins(files) != []
  {
    if files != [] {
      var f, rest := files[0], files[1..];
      assert files == [f] + rest;
      LastWinsPaths(rest);
      PathsCons(f, rest);
      PathsCons(f, LastWins(rest));
      assert [] + LastWins(rest) == LastWins(rest);
      if rest == [] { assert Paths(rest) == {}; }
    }
  }

  predicate IsLastOccurrence(files: seq<File>, i: nat)
    requires i < |files|
  {
    files[i].path !in Paths(files[i + 1..])
  }

  function Shift(at: seq<nat>): seq<nat> {
    seq(|at|, k requires 0 <= k < |at| => at[k] + 1)
  }

  lemma ShiftMembers(at: seq<nat>)
    ensures forall i: nat :: i + 1 in Shift(at) <==> i in at
    ensures 0 !in Shift(at)
  {
    forall i: nat ensures i + 1 in Shift(at) <==> i in at {
      if i in at {
        var k :| 0 <= k < |at| && at[k] == i;
        assert Shift(at)[k] == i + 1;
      }
      if i + 1 in Shift(at) {
        var k :| 0 <= k < |at| && Shift(at)[k] == i + 1;
        assert at[k] == i;
      }
    }
  }

  /** `at` lists the last occurrences in increasing order. */
  ghost predicate ListsLastOccurrences(at: seq<nat>, files: seq<File>) {
    && (forall k :: 0 <= k < |at| ==> at[k] < |files|)
    && (forall j, k :: 0 <= j < k < |at| ==> at[j] < at[k])
    && (forall i: nat :: i < |files| ==> (i in at <==> IsLastOccurrence(files, i)))
  }

  lemma LastOccurrencesCons(f: File, rest: seq<File>, sub: seq<nat>)
    requires ListsLastOccurrences(sub, rest)
    ensures ListsLastOccurrences(if f.path in Paths(rest) then Shift(sub) else [0] + Shift(sub), [f] + rest)
  {
    hide Paths;
    var files := [f] + rest;
    var at := if f.path in Paths(rest) then Shift(sub) else [0] + Shift(sub);
    ShiftMembers(sub);
    forall i: nat | i < |files| ensures i in at <==> IsLastOccurrence(files, i) {
      if i == 0 {
        assert files[i] == f && files[i + 1..] == rest;
        assert f.path !in Paths(rest) ==> at[0] == 0;
        assert 0 in at <==> f.path !in Paths(rest);
      } else {
        var j: nat := i - 1;
        assert files[i] == rest[j] && files[i + 1..] == rest[j + 1..];
        assert i in at <==> j + 1 in Shift(sub);
        assert j in sub <==> IsLastOccurrence(rest, j);
      }
    }
  }

  predicate PicksAt(kept: seq<File>, at: seq<nat>, files: seq<File>) {
    |at| == |kept| && forall k :: 0 <= k < |at| ==> at[k] < |files| && kept[k] == files[at[k]]
  }

  lemma PicksAtCons(kept: seq<File>, at: seq<nat>, f: File, rest: seq<File>)
    requires PicksAt(kept, at, rest)
    ensures PicksAt(kept, Shift(at), [f] + rest)
    ensures PicksAt([f] + kept, [0] + Shift(at), [f] + rest)
  {
    forall k | 0 <= k < |at| ensures Shift(at)[k] < |[f] + rest| && kept[k] == ([f] + rest)[Shift(at)[k]] {
      assert Shift(at)[k] == at[k] + 1;
    }
    forall k | 0 <= k < |[0] + Shift(at)|
      ensures ([0] + Shift(at))[k] < |[f] + rest| && ([f] + kept)[k] == ([f] + rest)[([0] + Shift(at))[k]]
    {
      if k > 0 {
        assert ([0] + Shift(at))[k] == at[k - 1] + 1 && ([f] + kept)[k] == kept[k - 1];
      }
    }
  }

  /** The entries that survive are the last occurrences of their paths, in the order of those occurrences. */
  lemma {:induction false} LastWinsSpec(files: seq<File>) returns (at: seq<nat>)
    ensures PicksAt(LastWins(files), at, files) && ListsLastOccurrences(at, files)
  {
    if files == [] {
      at := [];
      NoOccurrences();
    } else {
      hide LastWins, ListsLastOccurrences, Paths, PicksAt;
      var f, rest := files[0], files[1..];
      assert files == [f] + rest;
      var sub := LastWinsSpec(rest);
      LastOccurrencesCons(f, rest, sub);
      LastWinsCons(f, rest);
      PicksAtCons(LastWins(rest), sub, f, rest);
      at := if f.path in Paths(rest) then Shift(sub) else [0] + Shift(sub);
    }
  }

  lemma NoOccurrences()
    ensures ListsLastOccurrences([], [])
  {
  }

  predicate DistinctPaths(files: seq<File>) {
    forall i, j :: 0 <= i < j < |files| ==> files[i].path != files[j].path
  }

  lemma {:induction false} LastWinsDistinct(files: seq<File>)
    ensures DistinctPaths(LastWins(files))
  {
    if files != [] {
      var f, rest := files[0], files[1..];
      LastWinsDistinct(rest);
      LastWinsPaths(rest);
      var kept := LastWins(rest);
      forall i | 0 <= i < |kept| ensures kept[i].path in Paths(rest) {
        assert kept[i].path in Paths(kept);
      }
    }
  }

  lemma {:induction false} LastWinsOfDistinct(files: seq<File>)
    requires DistinctPaths(files)
    ensures LastWins(files) == files
  {
    if files != [] {
      assert files == [files[0]] + files[1..];
      forall i | 0 <= i < |files[1..]| ensures files[1..][i] == files[i + 1] {}
      LastWinsOfDistinct(files[1..]);
      assert files[0].path !in Paths(files[1..]);
    }
  }

  // ----- the web tier

  datatype Checked = Good(files: seq<File>) | Bad(failure: Failure)

  /** The files of a payload in order, or the failure of the first one that is refused. */
  function CheckFiles(raw: seq<RawFile>): Checked {
    if raw == [] then Good([])
    else
      var before := CheckFiles(raw[..|raw| - 1]);
      var f := raw[|raw| - 1];
      if before.Bad? then before
      else if f.NotAnObject? then Bad(NotAnObjectEntry)
      else
        var path := SanitizeInWeb(RawPath(f));
        if path.None? then Bad(UnsafePath)
        else Good(before.files + [File(path.value, RawContent(f))])
  }

  lemma {:induction false} BadPrefix(raw: seq<RawFile>, n: nat)
    requires n <= |raw| && CheckFiles(raw[..n]).Bad?
    ensures CheckFiles(raw) == CheckFiles(raw[..n])
  {
    if n < |raw| {
      assert raw[..|raw| - 1][..n] == raw[..n];
      BadPrefix(raw[..|raw| - 1], n);
    } else {
      assert raw[..n] == raw;
    }
  }

  function EntryAmong(files: seq<File>, requested: Option<string>, default: string): string
    requires files != []
  {
    if requested.Some? && requested.value in Paths(files) then requested.value
    else if default in Paths(files) then default
    else files[0].path
  }

  function ContentOf(files: seq<File>, path: string): Option<string> {
    if files == [] then None
    else if files[0].path == path then Some(files[0].content)
    else ContentOf(files[1..], path)
  }

  function Orelse(a: Option<string>, b: string): string {
    if a.Some? then a.value else b
  }

  /** What the web tier accepts, in terms of the last occurrences among the first 32 files. */
  function WebNormalized(language: Language, code: string, payload: FilesPayload, entryFile: string): Result {
    match payload
    case BadJson => Rejected(InvalidPayload)
    case NotAList => Rejected(NotAnArray)
    case Files(raw) =>
      var checked := CheckFiles(raw[..Min(|raw|, MAX_SUBMISSION_FILES)]);
      if checked.Bad? then Rejected(checked.failure)
      else
        var requested := SanitizeInWeb(entryFile);
        var default := DefaultEntryFile(language);
        if checked.files == [] then
          var entry := Orelse(requested, default);
          Accepted([File(entry, code)], entry, code)
        else
          var files := LastWins(checked.files);
          LastWinsPaths(checked.files);
          var entry := EntryAmong(files, requested, default);
          Accepted(files, entry, Orelse(ContentOf(files, entry), ""))
  }

  lemma {:induction false} ContentFound(files: seq<File>, path: string)
    ensures ContentOf(files, path).Some? <==> path in Paths(files)
    ensures ContentOf(files, path).Some? ==>
      exists i :: 0 <= i < |files| && files[i] == File(path, ContentOf(files, path).value)
  {
    if files != [] {
      assert files == [files[0]] + files[1..];
      PathsCons(files[0], files[1..]);
      ContentFound(files[1..], path);
      if files[0].path == path {
        assert files[0] == File(path, ContentOf(files, path).value);
      } else if ContentOf(files, path).Some? {
        var i :| 0 <= i < |files[1..]| && files[1..][i] == File(path, ContentOf(files[1..], path).value);
        assert files[i + 1] == File(path, ContentOf(files, path).value);
      }
    }
  }

  /** The loop of `normalize_submission_files`. */
  method CollectFiles(raw: seq<RawFile>) returns (r: Checked)
    ensures r == if CheckFiles(raw).Bad? then CheckFiles(raw) else Good(LastWins(CheckFiles(raw).files))
  {
    hide SanitizeInWeb;
    var normalizedFiles: seq<File> := [];
    var seenPaths: set<string> := {};
    ghost var files: seq<File> := [];
    for i := 0 to |raw|
      invariant CheckFiles(raw[..i]) == Good(files)
      invariant normalizedFiles == LastWins(files) && seenPaths == Paths(files)
    {
      var rawFile := raw[i];
      assert raw[..i + 1][..i] == raw[..i];
      if rawFile.NotAnObject? {
        BadPrefix(raw, i + 1);
        return Bad(NotAnObjectEntry);
      }
      var path := SanitizeInWeb(RawPath(rawFile));
      if path.None? {
        BadPrefix(raw, i + 1);
        return Bad(UnsafePath);
      }
      var file := File(path.value, RawContent(rawFile));
      LastWinsSnoc(files, file);
      PathsSnoc(files, file);
      LastWinsPaths(files);
      if path.value in seenPaths {
        normalizedFiles := Without(normalizedFiles, path.value);
      } else {
        WithoutAbsent(normalizedFiles, path.value);
      }
      normalizedFiles := normalizedFiles + [file];
      seenPaths := seenPaths + {path.value};
      files := files + [file];
    }
    assert raw[..|raw|] == raw;
    return Good(normalizedFiles);
  }

  /** `normalize_submission_files`: its "not found" branch is never taken. */
  method NormalizeSubmissionFiles(language: Language, code: string, payload: FilesPayload, entryFile: string)
    returns (r: Result)
    ensures r == WebNormalized(language, code, payload, entryFile)
    ensures r != Rejected(EntryNotFound)
  {
    hide SanitizeInWeb, LastWins;
    if payload.BadJson? {
      return Rejected(InvalidPayload);
    }
    if payload.NotAList? {
      return Rejected(NotAnArray);
    }
    var raw := payload.files[..Min(|payload.files|, MAX_SUBMISSION_FILES)];
    FailuresOfCheck(raw);
    var collected := CollectFiles(raw);
    if collected.Bad? {
      return Rejected(collected.failure);
    }
    var normalizedFiles := collected.files;
    LastWinsPaths(CheckFiles(raw).files);

    var defaultEntryFile := DefaultEntryFile(language);
    var requestedEntryFile := SanitizeInWeb(entryFile);
    var resolved;
    if normalizedFiles != [] {
      if requestedEntryFile.Some? && requestedEntryFile.value in Paths(normalizedFiles) {
        resolved := requestedEntryFile.value;
      } else if defaultEntryFile in Paths(normalizedFiles) {
        resolved := defaultEntryFile;
      } else {
        resolved := normalizedFiles[0].path;
      }
    } else {
      resolved := Orelse(requestedEntryFile, defaultEntryFile);
      normalizedFiles := [File(resolved, code)];
    }
    assert resolved in Paths(normalizedFiles) by {
      assert normalizedFiles[0].path in Paths(normalizedFiles);
    }

    var primary := ContentOf(normalizedFiles, resolved);
    ContentFound(normalizedFiles, resolved);
    if primary.None? {
      r := Rejected(EntryNotFound);
    } else {
      r := Accepted(normalizedFiles, resolved, primary.value);
    }
  }

  lemma {:induction false} FailuresOfCheck(raw: seq<RawFile>)
    ensures CheckFiles(raw).Bad? ==> CheckFiles(raw).failure in {NotAnObjectEntry, UnsafePath}
  {
    hide SanitizeInWeb;
    if raw != [] { FailuresOfCheck(raw[..|raw| - 1]); }
  }

  // ----- the sandbox

  /** The files the sandbox keeps: it skips what it cannot use. */
  function UsableFiles(raw: seq<RawFile>): seq<File> {
    if raw == [] then []
    else
      var before := UsableFiles(raw[..|raw| - 1]);
      var f := raw[|raw| - 1];
      if f.NotAnObject? then before
      else
        var path := SanitizeInSandbox(RawPath(f));
        if path.None? then before else before + [File(path.value, RawContent(f))]
  }

  /** The sandbox's files and entry file, in terms of last occurrences. */
  function SandboxNormalized(language: Language, code: string, raw: seq<RawFile>, entryFile: string)
    : (seq<File>, string)
  {
    var entry := Orelse(SanitizeInSandbox(entryFile), DefaultEntryFile(language));
    var files := LastWins(UsableFiles(raw));
    (if entry in Paths(files) then files else [File(entry, code)] + files, entry)
  }

  /** `_normalize_workspace_files` */
  method NormalizeWorkspaceFiles(language: Language, code: string, raw: seq<RawFile>, entryFile: string)
    returns (files: seq<File>, entry: string)
    ensures (files, entry) == SandboxNormalized(language, code, raw, entryFile)
  {
    hide SanitizeInSandbox;
    entry := Orelse(SanitizeInSandbox(entryFile), DefaultEntryFile(language));
    files := [];
    var seenPaths: set<string> := {};
    for i := 0 to |raw|
      invariant files == LastWins(UsableFiles(raw[..i])) && seenPaths == Paths(UsableFiles(raw[..i]))
    {
      assert raw[..i + 1][..i] == raw[..i];
      var rawFile := raw[i];
      if rawFile.NotAnObject? {
        continue;
      }
      var path := SanitizeInSandbox(RawPath(rawFile));
      if path.None? {
        continue;
      }
      ghost var before := UsableFiles(raw[..i]);
      var file := File(path.value, RawContent(rawFile));
      LastWinsSnoc(before, file);
      PathsSnoc(before, file);
      LastWinsPaths(before);
      if path.value in seenPaths {
        files := Without(files, path.value);
      } else {
        WithoutAbsent(files, path.value);
      }
      files := files + [file];
      seenPaths := seenPaths + {path.value};
    }
    assert raw[..|raw|] == raw;
    LastWinsPaths(UsableFiles(raw));
    if entry !in seenPaths {
      files := [File(entry, code)] + files;
    }
  }
}
