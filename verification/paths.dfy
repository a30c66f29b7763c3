/** The path rules the generator relies on: the file name of a scene path
    without its extension, and the output path built from a chosen folder. */
module Paths {

  /** The runtime's directory separators differ between editor platforms. */
  datatype Platform = Windows | Unix

  /** The characters that end a directory part: the directory separator, the
      alternative one and the volume separator (all three are `/` on Unix). */
  predicate IsSeparator(p: Platform, c: char) {
    match p
    case Windows => c == '\\' || c == '/' || c == ':'
    case Unix => c == '/'
  }

  /** The separator the runtime inserts when joining paths. */
  function DirectorySeparator(p: Platform): (c: char)
    ensures IsSeparator(p, c)
  {
    match p
    case Windows => '\\'
    case Unix => '/'
  }

  predicate NoSeparator(p: Platform, s: string) {
    forall i :: 0 <= i < |s| ==> !IsSeparator(p, s[i])
  }

  /** The position of the last separator in `s`, or -1 when there is none. */
  function LastSeparator(p: Platform, s: string): (k: int)
    ensures -1 <= k < |s|
    ensures k >= 0 ==> IsSeparator(p, s[k])
    ensures forall j :: k < j < |s| ==> !IsSeparator(p, s[j])
  {
    if s == [] then -1
    else if IsSeparator(p, s[|s| - 1]) then |s| - 1
    else LastSeparator(p, s[..|s| - 1])
  }

  /** The part of a path after its last separator: the longest suffix
      without a separator. */
  function FileName(p: Platform, path: string): (r: string)
    ensures |r| <= |path| && r == path[|path| - |r|..]
    ensures NoSeparator(p, r)
    ensures |r| < |path| ==> IsSeparator(p, path[|path| - |r| - 1])
  {
    path[LastSeparator(p, path) + 1..]
  }

  /** The position of the last `c` in `s`, or -1 when there is none. */
  function LastIndexOf(s: string, c: char): (k: int)
    ensures -1 <= k < |s|
    ensures k >= 0 ==> s[k] == c
    ensures forall j :: k < j < |s| ==> s[j] != c
  {
    if s == [] then -1
    else if s[|s| - 1] == c then |s| - 1
    else LastIndexOf(s[..|s| - 1], c)
  }

  /** The file name of a path with everything from its last `.` removed; a
      file name without a `.` is kept whole. */
  function FileNameWithoutExtension(p: Platform, path: string): (r: string)
    ensures var f := FileName(p, path);
      && |r| <= |f| && r == f[..|r|]
      && (|r| == |f| ==> '.' !in f)
      && (|r| < |f| ==> f[|r|] == '.' && '.' !in f[|r| + 1..])
  {
    var f := FileName(p, path);
    var k := LastIndexOf(f, '.');
    if k < 0 then f else f[..k]
  }

  const OUTPUT_FILE_NAME: string := "UnityConstants.cs"

  /** The path of the output file in a chosen folder: the folder and the
      fixed file name, joined by a separator unless the folder already ends
      in one. */
  function OutputPathIn(p: Platform, directory: string): (path: string)
    requires directory != []
    ensures |directory| < |path| && path[..|directory|] == directory
    ensures IsSeparator(p, directory[|directory| - 1]) ==> path[|directory|..] == OUTPUT_FILE_NAME
    ensures !IsSeparator(p, directory[|directory| - 1]) ==>
      path[|directory|..] == [DirectorySeparator(p)] + OUTPUT_FILE_NAME
    ensures FileName(p, path) == OUTPUT_FILE_NAME
    ensures FileNameWithoutExtension(p, path) == "UnityConstants"
  {
    var tail := if IsSeparator(p, directory[|directory| - 1])
      then OUTPUT_FILE_NAME
      else [DirectorySeparator(p)] + OUTPUT_FILE_NAME;
    var path := directory + tail;
    assert path[|directory|..] == tail;
    var folder := path[..|path| - |OUTPUT_FILE_NAME|];
    assert path == folder + OUTPUT_FILE_NAME;
    OutputFileNameIsPlain(p);
    FileNameOfJoin(p, folder, OUTPUT_FILE_NAME);
    path
  }

  /** The fixed file name has no separator and a single extension. */
  lemma OutputFileNameIsPlain(p: Platform)
    ensures NoSeparator(p, OUTPUT_FILE_NAME)
    ensures LastIndexOf(OUTPUT_FILE_NAME, '.') == 14
    ensures OUTPUT_FILE_NAME[..14] == "UnityConstants"
  {
    var f := OUTPUT_FILE_NAME;
    assert f[..|f| - 1] == "UnityConstants.c";
    assert f[..|f| - 1][..|f| - 2] == "UnityConstants.";
  }

  /** A separator-free name appended after a separator is the file name of
      the joined path. */
  lemma FileNameOfJoin(p: Platform, prefix: string, name: string)
    requires prefix != [] && IsSeparator(p, prefix[|prefix| - 1])
    requires NoSeparator(p, name)
    ensures FileName(p, prefix + name) == name
  {
    var path := prefix + name;
    var k := LastSeparator(p, path);
    assert path[|prefix| - 1] == prefix[|prefix| - 1];
    assert forall j :: |prefix| <= j < |path| ==> path[j] == name[j - |prefix|];
    assert k == |prefix| - 1;
    assert path[|prefix|..] == name;
  }
}
