/** The corpus scan of the batch driver: which files a run picks up, and the filename patterns it
    picks them up with. The directory walk and the regular-expression search are inputs. */
module FileList {
  import opened Wrappers
  import opened Seqs

  /** The test a walked path must pass: `re.search(regex, f)` holds and the path is not listed in
      the exclusion file. `search` stands for Python's `re.search`. */
  function Wanted(search: (string, string) -> bool, regex: string, excluded: seq<string>): string -> bool {
    f => search(regex, f) && f !in excluded
  }

  // `get_filelist`. `isDir` is `os.path.isdir(path)`. `argsPathWalk` is the sequence of paths the
  // recursive glob under the global `args.path` yields: the walk starts from `args.path`, not
  // from the `path` parameter, which serves only the directory test and the single-file answer.
  method GetFileList(path: string, isDir: bool, argsPathWalk: seq<string>, regex: string,
                     excluded: seq<string>, search: (string, string) -> bool)
    returns (files: seq<string>)
    ensures !isDir ==> files == [path]
    ensures isDir ==> files == FirstOccurrences(argsPathWalk, Wanted(search, regex, excluded))
    ensures isDir ==> forall f :: f in files ==> search(regex, f) && f !in excluded
    ensures isDir ==> forall f :: f in argsPathWalk && search(regex, f) && f !in excluded ==> f in files
    ensures isDir ==> Distinct(files)
    ensures isDir ==> forall i, j :: 0 <= i < j < |files| ==>
      files[i] in argsPathWalk && files[j] in argsPathWalk &&
      FirstIndex(argsPathWalk, files[i]) < FirstIndex(argsPathWalk, files[j])
  {
    if !isDir {
      return [path];
    }
    var walk := argsPathWalk;
    ghost var wanted := Wanted(search, regex, excluded);
    files := [];
    var i := 0;
    while i < |walk|
      invariant 0 <= i <= |walk|
      invariant files == FirstOccurrences(walk[..i], wanted)
    {
      var f := walk[i];
      assert walk[..i + 1] == walk[..i] + [f];
      FirstOccurrencesAppend(walk[..i], f, wanted);
      if search(regex, f) && f !in excluded && f !in files {
        files := files + [f];
      }
      i := i + 1;
    }
    assert walk[..i] == walk;
    FirstOccurrencesKeepOrder(walk, wanted, files);
  }

  // ---------------------------------------------------------------- patterns

  /** `sep.join(parts)`. */
  function Join(sep: string, parts: seq<string>): string {
    if |parts| == 0 then ""
    else if |parts| == 1 then parts[0]
    else parts[0] + sep + Join(sep, parts[1..])
  }

  /** `s.split(sep)` for a one-character separator. */
  function Split(s: string, sep: char): (parts: seq<string>)
    ensures |parts| > 0
    decreases |s|
  {
    if sep !in s then [s]
    else
      var i := FirstIndex(s, sep);
      [s[..i]] + Split(s[i + 1..], sep)
  }

  /** Joining alternatives none of which contains the separator loses nothing: splitting the
      joined text gives them back. So a pattern's `(a|b|c)` group names exactly the given list. */
  lemma {:induction false} SplitJoin(parts: seq<string>, sep: char)
    requires |parts| > 0
    requires forall p :: p in parts ==> sep !in p
    ensures Split(Join([sep], parts), sep) == parts
  {
    if |parts| == 1 {
      assert Join([sep], parts) == parts[0];
    } else {
      var rest := Join([sep], parts[1..]);
      var s := parts[0] + [sep] + rest;
      assert Join([sep], parts) == s;
      assert s[|parts[0]|] == sep && s[..|parts[0]|] == parts[0];
      FirstIndexUnique(s, sep, |parts[0]|);
      assert s[|parts[0]| + 1..] == rest;
      SplitJoin(parts[1..], sep);
      assert [parts[0]] + parts[1..] == parts;
    }
  }

  /** `(?i)\.(e1|e2|...)$`: a case-insensitive match of any of the extensions at the end. */
  function ExtensionPattern(extensions: seq<string>): string {
    "(?i)\\.(" + Join("|", extensions) + ")$"
  }

  /** The pattern `get_subtitles_filelist` scans with: with specific languages, the language tag
      and then the format as the last two suffixes; when 'all' is among the languages, the format
      alone. */
  function SubtitlePattern(languages: seq<string>, formats: seq<string>): string {
    if "all" !in languages then
      "(?i)\\.(" + Join("|", languages) + ")\\.(" + Join("|", formats) + ")$"
    else
      ExtensionPattern(formats)
  }

  /** With 'all' among the languages, the other languages are ignored and only the formats count.
      This only unfolds `SubtitlePattern`; it states the 'all' case in terms of the extension
      pattern the media scan shares. */
  lemma AllLanguagesPattern(languages: seq<string>, formats: seq<string>)
    requires "all" in languages
    ensures SubtitlePattern(languages, formats) == ExtensionPattern(formats)
    ensures SubtitlePattern(languages, formats) == SubtitlePattern(["all"], formats)
  {
  }

  /** With specific languages, the pattern is the format pattern with the language group put in
      front of the format group. This too only unfolds `SubtitlePattern`. */
  lemma SpecificLanguagesPattern(languages: seq<string>, formats: seq<string>)
    requires "all" !in languages
    ensures SubtitlePattern(languages, formats) ==
      "(?i)\\.(" + Join("|", languages) + ")" + ExtensionPattern(formats)[4..]
  {
    var f := ExtensionPattern(formats);
    assert f[4..] == "\\.(" + Join("|", formats) + ")$";
  }

  const MEDIA_EXTENSIONS: seq<string> := ["mkv", "mp4", "webm", "ts", "ogg"]

  /** The pattern `get_media_filelist` scans with, the same whatever the arguments. */
  function MediaPattern(): string {
    "(?i)\\.(mkv|mp4|webm|ts|ogg)$"
  }

  /** The media pattern is the extension pattern of the five container extensions. */
  lemma MediaPatternExtensions()
    ensures MediaPattern() == ExtensionPattern(MEDIA_EXTENSIONS)
  {
    var e := MEDIA_EXTENSIONS;
    assert Join("|", e[4..]) == "ogg";
    assert Join("|", e[3..]) == "ts|ogg" by { assert e[3..][1..] == e[4..]; }
    assert Join("|", e[2..]) == "webm|ts|ogg" by { assert e[2..][1..] == e[3..]; }
    assert Join("|", e[1..]) == "mp4|webm|ts|ogg" by { assert e[1..][1..] == e[2..]; }
    assert Join("|", e) == "mkv|mp4|webm|ts|ogg";
  }

  // ---------------------------------------------------------------- the two scans

  /** The command-line arguments the scans read. */
  datatype Args = Args(path: string, languages: seq<string>, formats: seq<string>)

  // ---------------------------------------------------------------- exclusion files

  /** The characters Python's `str.splitlines` ends a line at. */
  predicate IsLineBreak(c: char) {
    c == '\n' || c == '\r' || c == '\U{B}' || c == '\U{C}' || c == '\U{1C}' || c == '\U{1D}' ||
    c == '\U{1E}' || c == '\U{85}' || c == '\U{2028}' || c == '\U{2029}'
  }

  predicate NoLineBreak(s: string) {
    forall k :: 0 <= k < |s| ==> !IsLineBreak(s[k])
  }

  /** The index of the first line break at or after `from`, or `|s|` when there is none. */
  function LineEnd(s: string, from: nat): (i: nat)
    requires from <= |s|
    ensures from <= i <= |s|
    ensures forall k :: from <= k < i ==> !IsLineBreak(s[k])
    ensures i < |s| ==> IsLineBreak(s[i])
    decreases |s| - from
  {
    if from == |s| || IsLineBreak(s[from]) then from else LineEnd(s, from + 1)
  }

  /** A line ends at the first break: whatever index has only ordinary characters before it and
      a break on it is the one `LineEnd` finds. */
  lemma {:induction false} LineEndAt(s: string, from: nat, j: nat)
    requires from <= j < |s|
    requires forall k :: from <= k < j ==> !IsLineBreak(s[k])
    requires IsLineBreak(s[j])
    ensures LineEnd(s, from) == j
    decreases j - from
  {
    if from < j {
      LineEndAt(s, from + 1, j);
    }
  }

  /** The length of the line break at `i`: `\r\n` is one break of two characters. */
  function BreakLength(s: string, i: nat): (n: nat)
    requires i < |s| && IsLineBreak(s[i])
    ensures 1 <= n && i + n <= |s|
  {
    if s[i] == '\r' && i + 1 < |s| && s[i + 1] == '\n' then 2 else 1
  }

  /** `text.splitlines()`: the lines without their breaks; a break at the very end does not start
      another line, and the empty text has no lines. */
  function SplitLines(text: string): (lines: seq<string>)
    ensures forall l :: l in lines ==> NoLineBreak(l)
    ensures |text| == 0 <==> |lines| == 0
    decreases |text|
  {
    if |text| == 0 then []
    else
      var i := LineEnd(text, 0);
      if i == |text| then [text]
      else [text[..i]] + SplitLines(text[i + BreakLength(text, i)..])
  }

  /** Each line followed by a newline, as an exclusion file is written one path per line. */
  function Unlines(lines: seq<string>): string {
    if |lines| == 0 then "" else lines[0] + "\n" + Unlines(lines[1..])
  }

  /** Reading back a file of newline-terminated paths gives exactly those paths, in order. */
  lemma {:induction false} SplitLinesUnlines(lines: seq<string>)
    requires forall l :: l in lines ==> NoLineBreak(l)
    ensures SplitLines(Unlines(lines)) == lines
  {
    if |lines| > 0 {
      var l := lines[0];
      var rest := Unlines(lines[1..]);
      var text := l + "\n" + rest;
      assert Unlines(lines) == text;
      assert text[..|l|] == l;
      assert l in lines;
      assert forall k :: 0 <= k < |l| ==> text[k] == l[k] && !IsLineBreak(l[k]);
      LineEndAt(text, 0, |l|);
      assert text[|l| + 1..] == rest;
      SplitLinesUnlines(lines[1..]);
      assert [l] + lines[1..] == lines;
    }
  }

  /** One append of `main` to an exclusion file: the paths joined by newlines, with no newline
      after the last one. */
  function AppendPaths(text: string, paths: seq<string>): string {
    text + Join("\n", paths)
  }

  /** One such append to an empty file reads back as the appended paths. */
  lemma {:induction false} SplitLinesJoin(paths: seq<string>)
    requires forall p :: p in paths ==> p != "" && NoLineBreak(p)
    ensures SplitLines(Join("\n", paths)) == paths
  {
    if |paths| == 1 {
      var p := paths[0];
      assert p in paths;
      assert LineEnd(p, 0) == |p|;
    } else if |paths| > 1 {
      var l := paths[0];
      var rest := Join("\n", paths[1..]);
      var text := l + "\n" + rest;
      assert Join("\n", paths) == text;
      assert l in paths;
      assert forall k :: 0 <= k < |l| ==> text[k] == l[k] && !IsLineBreak(l[k]);
      LineEndAt(text, 0, |l|);
      assert text[..|l|] == l;
      assert text[|l| + 1..] == rest;
      assert forall p :: p in paths[1..] ==> p in paths;
      SplitLinesJoin(paths[1..]);
      assert [l] + paths[1..] == paths;
    }
  }

  /** A second append glues its first path onto the last path of the first one: after appending
      ["a", "b"] and then ["c", "d"], neither "b" nor "c" is excluded any more. */
  lemma SecondAppendGluesPaths()
    ensures SplitLines(AppendPaths(AppendPaths("", ["a", "b"]), ["c", "d"])) == ["a", "bc", "d"]
  {
    var text := AppendPaths(AppendPaths("", ["a", "b"]), ["c", "d"]);
    assert Join("\n", ["a", "b"]) == "a\nb" by {
      assert ["a", "b"][1..] == ["b"];
    }
    assert Join("\n", ["c", "d"]) == "c\nd" by {
      assert ["c", "d"][1..] == ["d"];
    }
    assert text == "a\nbc\nd";
    var tail := text[2..];
    assert tail == "bc\nd";
    assert LineEnd("d", 0) == 1;
    assert SplitLines("d") == ["d"];
    LineEndAt(tail, 0, 2);
    assert tail[..2] == "bc" && tail[3..] == "d";
    assert SplitLines(tail) == ["bc"] + SplitLines("d");
    LineEndAt(text, 0, 1);
    assert text[..1] == "a";
    assert SplitLines(text) == ["a"] + SplitLines(tail);
  }

  /** Appending newline-terminated paths instead keeps every path on its own line, however many
      appends there are. */
  lemma {:induction false} TerminatedAppendsKeepPaths(first: seq<string>, second: seq<string>)
    requires forall p :: p in first + second ==> NoLineBreak(p)
    ensures SplitLines(Unlines(first) + Unlines(second)) == first + second
  {
    UnlinesConcat(first, second);
    SplitLinesUnlines(first + second);
  }

  lemma {:induction false} UnlinesConcat(a: seq<string>, b: seq<string>)
    ensures Unlines(a) + Unlines(b) == Unlines(a + b)
  {
    if |a| > 0 {
      assert (a + b)[1..] == a[1..] + b;
      UnlinesConcat(a[1..], b);
    } else {
      assert a + b == b;
    }
  }

  /** The excluded paths: the lines of the exclusion file's text, or none when no exclusion file
      is configured. */
  function ExcludedPaths(exclusionText: Option<string>): (paths: seq<string>)
    ensures exclusionText.None? ==> paths == []
    ensures exclusionText.Some? ==> paths == SplitLines(exclusionText.value)
  {
    match exclusionText
    case None => []
    case Some(text) => SplitLines(text)
  }

  /** `get_subtitles_filelist`: the scan of `args.path` with the subtitle pattern. */
  method GetSubtitlesFileList(args: Args, isDir: bool, argsPathWalk: seq<string>,
                              exclusionText: Option<string>, search: (string, string) -> bool)
    returns (files: seq<string>)
    ensures !isDir ==> files == [args.path]
    ensures isDir ==> forall f :: f in files <==>
      f in argsPathWalk && search(SubtitlePattern(args.languages, args.formats), f) &&
      f !in ExcludedPaths(exclusionText)
    ensures isDir ==> (files ==
      FirstOccurrences(argsPathWalk, Wanted(search, SubtitlePattern(args.languages, args.formats),
                                            ExcludedPaths(exclusionText))))
    ensures isDir ==> Distinct(files)
  {
    var regex := SubtitlePattern(args.languages, args.formats);
    files := GetFileList(args.path, isDir, argsPathWalk, regex, ExcludedPaths(exclusionText), search);
  }

  /** `get_media_filelist`: the scan of `args.path` with the media pattern. */
  method GetMediaFileList(args: Args, isDir: bool, argsPathWalk: seq<string>,
                          exclusionText: Option<string>, search: (string, string) -> bool)
    returns (files: seq<string>)
    ensures !isDir ==> files == [args.path]
    ensures isDir ==> forall f :: f in files <==>
      f in argsPathWalk && search(MediaPattern(), f) && f !in ExcludedPaths(exclusionText)
    ensures isDir ==> (files ==
      FirstOccurrences(argsPathWalk, Wanted(search, MediaPattern(), ExcludedPaths(exclusionText))))
    ensures isDir ==> Distinct(files)
  {
    files := GetFileList(args.path, isDir, argsPathWalk, MediaPattern(), ExcludedPaths(exclusionText), search);
  }
}
