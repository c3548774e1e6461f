/**
 * File-name arithmetic the engine relies on: `PurePath.suffix`,
 * `with_suffix`, the video classification `is_video_file`, the output mapping
 * `get_output_path` and the temporary name `<output>.tmp.webm`
 * (main.py:198-212, 222, 285, 448).
 */
module Paths {
  import opened Files

  /** `str.rfind('.')`: the index of the last dot, or -1 when there is none. */
  function LastDot(s: string): (r: int)
    ensures -1 <= r < |s|
    ensures r >= 0 ==> s[r] == '.'
    ensures forall j :: r < j < |s| ==> s[j] != '.'
  {
    if |s| == 0 then -1
    else if s[|s| - 1] == '.' then |s| - 1
    else LastDot(s[..|s| - 1])
  }

  /** A suffix as `with_suffix` accepts it and as `suffix` can return it: a dot and at least one more character, no other dot. */
  predicate IsSimpleSuffix(s: string) {
    |s| >= 2 && s[0] == '.' && forall j :: 1 <= j < |s| ==> s[j] != '.'
  }

  /**
   * `PurePath.suffix` of a final component: from the last dot to the end,
   * provided that dot is neither the first nor the last character.
   */
  function Suffix(name: string): (r: string)
    ensures r == "" || (IsSimpleSuffix(r) && |r| < |name| && r == name[|name| - |r|..])
  {
    var i := LastDot(name);
    if 0 < i < |name| - 1 then name[i..] else ""
  }

  /** A name has a suffix exactly when its last dot is neither its first nor its last character. */
  lemma SuffixNonEmpty(name: string)
    ensures Suffix(name) != "" <==> 0 < LastDot(name) < |name| - 1
    ensures Suffix(name) != "" ==> Suffix(name) == name[LastDot(name)..]
  {
  }

  /** The final component without its suffix. */
  function Stem(name: string): string {
    name[..|name| - |Suffix(name)|]
  }

  /** `PurePath.with_suffix` on a final component. */
  function WithSuffix(name: string, s: string): string {
    Stem(name) + s
  }

  function PathWithSuffix(p: FilePath, s: string): FilePath {
    FilePath(p.dir, WithSuffix(p.name, s))
  }

  function LowerChar(c: char): char {
    if 'A' <= c <= 'Z' then (c as int + 32) as char else c
  }

  predicate NoUpper(s: string) {
    forall i :: 0 <= i < |s| ==> !('A' <= s[i] <= 'Z')
  }

  /** `str.lower()` on ASCII letters: no capital survives, and every other character is kept. */
  function Lower(s: string): (r: string)
    ensures |r| == |s|
    ensures NoUpper(r)
    ensures forall i :: 0 <= i < |s| && !('A' <= s[i] <= 'Z') ==> r[i] == s[i]
  {
    seq(|s|, i requires 0 <= i < |s| => LowerChar(s[i]))
  }

  /** VIDEO_EXTENSIONS (main.py:28-31). */
  const VideoExtensions: set<string> :=
    {".mp4", ".avi", ".mkv", ".mov", ".flv", ".wmv", ".m4v",
     ".mpeg", ".mpg", ".webm", ".3gp", ".ogv", ".ts", ".m2ts"}

  const Webm := ".webm"
  const TempSuffix := ".tmp.webm"

  /** `is_video_file`: the lower-cased suffix is a video extension. */
  predicate IsVideoFile(p: FilePath) {
    Lower(Suffix(p.name)) in VideoExtensions
  }

  /** `get_output_path`: same relative path; a video not already `.webm` (in any case) gets the suffix `.webm`. */
  function OutputPath(p: FilePath, isVideo: bool): FilePath {
    if isVideo && Lower(Suffix(p.name)) != Webm then PathWithSuffix(p, Webm) else p
  }

  /** The output `process_files` computes for a source (main.py:595-596). */
  function OutputFor(p: FilePath): FilePath {
    OutputPath(p, IsVideoFile(p))
  }

  /** `output_path.with_suffix('.tmp.webm')`: where the encoder writes. */
  function TempPath(out: FilePath): FilePath {
    PathWithSuffix(out, TempSuffix)
  }

  /** Matches the glob `*.tmp.webm` used by the temporary-file sweep. */
  predicate IsTempName(name: string) {
    |name| >= |TempSuffix| && name[|name| - |TempSuffix|..] == TempSuffix
  }

  // ---------------------------------------------------------------------------
  // Properties
  // ---------------------------------------------------------------------------

  /** A name is its stem followed by its suffix. */
  lemma StemSuffix(name: string)
    ensures name == Stem(name) + Suffix(name)
  {
  }

  /** `lower()` leaves a string without upper-case letters unchanged. */
  lemma LowerNoUpper(s: string)
    requires NoUpper(s)
    ensures Lower(s) == s
  {
  }

  /** Lower-casing twice is lower-casing once, so comparing lowered suffixes is insensitive to a second `lower()`. */
  lemma LowerIdempotent(s: string)
    ensures Lower(Lower(s)) == Lower(s)
  {
    LowerNoUpper(Lower(s));
  }

  /** Every entry of VIDEO_EXTENSIONS is already lower-case and is a suffix `with_suffix` accepts. */
  lemma VideoExtensionsLower()
    ensures forall ext :: ext in VideoExtensions ==> Lower(ext) == ext && IsSimpleSuffix(ext)
  {
    forall ext | ext in VideoExtensions
      ensures Lower(ext) == ext && IsSimpleSuffix(ext)
    {
      LowerNoUpper(ext);
    }
  }

  /** The stem of a non-empty name is non-empty (a suffix never starts at index 0). */
  lemma StemNonEmpty(name: string)
    requires name != ""
    ensures Stem(name) != ""
  {
  }

  /** The last dot of `a + s`, when `s` is a simple suffix, is the one that starts `s`. */
  lemma LastDotOfAppend(a: string, s: string)
    requires IsSimpleSuffix(s)
    ensures LastDot(a + s) == |a|
  {
    var t := a + s;
    var r := LastDot(t);
    assert t[|a|] == '.';
  }

  /** `with_suffix(s)` then `.suffix` gives back `s`, and leaves the stem alone. */
  lemma {:induction false} SuffixOfWithSuffix(name: string, s: string)
    requires name != "" && IsSimpleSuffix(s)
    ensures Suffix(WithSuffix(name, s)) == s
    ensures Stem(WithSuffix(name, s)) == Stem(name)
  {
    StemNonEmpty(name);
    LastDotOfAppend(Stem(name), s);
    assert WithSuffix(name, s)[|Stem(name)|..] == s;
  }

  /** Replacing the suffix twice is replacing it once with the second suffix. */
  lemma WithSuffixTwice(name: string, s: string, s': string)
    requires name != "" && IsSimpleSuffix(s)
    ensures WithSuffix(WithSuffix(name, s), s') == WithSuffix(name, s')
  {
    SuffixOfWithSuffix(name, s);
  }

  /**
   * `get_output_path` keeps the directory; the path is unchanged unless it is
   * a video whose lower-cased suffix is not `.webm`, in which case exactly the
   * suffix becomes `.webm`; and a video's output always ends in `.webm`.
   */
  lemma OutputPathShape(p: FilePath, isVideo: bool)
    requires p.name != ""
    ensures OutputPath(p, isVideo).dir == p.dir
    ensures (!isVideo || Lower(Suffix(p.name)) == Webm) ==> OutputPath(p, isVideo) == p
    ensures isVideo && Lower(Suffix(p.name)) != Webm ==>
      OutputPath(p, isVideo).name == Stem(p.name) + Webm
    ensures isVideo ==> Lower(Suffix(OutputPath(p, isVideo).name)) == Webm
    ensures OutputPath(p, isVideo).name != ""
  {
    if isVideo && Lower(Suffix(p.name)) != Webm {
      SuffixOfWithSuffix(p.name, Webm);
      LowerNoUpper(Webm);
    }
  }

  /** The output of a video is itself classified as a video. */
  lemma OutputOfVideoIsVideo(p: FilePath)
    requires p.name != "" && IsVideoFile(p)
    ensures IsVideoFile(OutputPath(p, true))
  {
    OutputPathShape(p, true);
  }

  /** The temporary name differs from its output and is caught by the `*.tmp.webm` sweep. */
  lemma TempPathShape(out: FilePath)
    ensures TempPath(out) != out
    ensures TempPath(out).dir == out.dir
    ensures IsTempName(TempPath(out).name)
  {
    var n := out.name;
    var t := WithSuffix(n, TempSuffix);
    assert !IsSimpleSuffix(TempSuffix) by { assert TempSuffix[4] == '.'; }
    assert n[|Stem(n)|..] == Suffix(n);
    assert t[|Stem(n)|..] == TempSuffix;
    assert t[|t| - |TempSuffix|..] == TempSuffix;
  }

  /** A name ending in `.tmp.webm` is a `.webm` video, so `get_output_path` maps it to itself. */
  lemma TempNameIsOwnOutput(p: FilePath)
    requires IsTempName(p.name)
    ensures IsVideoFile(p) && OutputFor(p) == p
  {
    var n := p.name;
    var x := n[..|n| - |Webm|];
    VideoExtensionsLower();
    assert n == x + Webm;
    assert x[|x| - 4] == '.';
    LastDotOfAppend(x, Webm);
    assert Suffix(n) == Webm;
    LowerNoUpper(Webm);
  }

  /** The suffix test ignores case: `x.MP4` is a video, and its output is `x.webm`. */
  lemma UpperCaseVideo()
    ensures IsVideoFile(FilePath([], "x.MP4")) && OutputFor(FilePath([], "x.MP4")) == FilePath([], "x.webm")
  {
    VideoExtensionsLower();
    assert "x.MP4" == "x" + ".MP4";
    LastDotOfAppend("x", ".MP4");
    assert Lower(Suffix("x.MP4")) == ".mp4";
    assert WithSuffix("x.MP4", Webm) == "x" + Webm;
  }

  /** `x.WEBM` is a video that is its own output: its lower-cased suffix is already `.webm`. */
  lemma UpperCaseWebm()
    ensures IsVideoFile(FilePath([], "x.WEBM")) && OutputFor(FilePath([], "x.WEBM")) == FilePath([], "x.WEBM")
  {
    VideoExtensionsLower();
    assert "x.WEBM" == "x" + ".WEBM";
    LastDotOfAppend("x", ".WEBM");
    assert Lower(Suffix("x.WEBM")) == Webm;
  }
}
