/**
 Path handling of the acknowledgements generator: white-space trimming as
 Go's `strings.TrimSpace` does it, and `appendFileToPath`, which joins a
 directory and a file name with a single '/'.
 */
module Paths {

  /** White space as Go's `unicode.IsSpace` defines it. */
  predicate IsSpace(c: char) {
    || c == '\t' || c == '\n' || c == '\U{B}' || c == '\U{C}' || c == '\r' || c == ' '
    || c == '\U{85}' || c == '\U{A0}' || c == '\U{1680}'
    || ('\U{2000}' <= c <= '\U{200A}')
    || c == '\U{2028}' || c == '\U{2029}' || c == '\U{202F}' || c == '\U{205F}' || c == '\U{3000}'
  }

  /** Every character of `s` is white space; the empty string is blank. */
  predicate IsBlank(s: string) {
    forall i :: 0 <= i < |s| ==> IsSpace(s[i])
  }

  predicate EndsWithSlash(s: string) {
    |s| > 0 && s[|s| - 1] == '/'
  }

  /** `s` without its leading white space. */
  function TrimLeftSpace(s: string): (r: string)
    ensures |r| <= |s| && r == s[|s| - |r|..]
    ensures IsBlank(s[..|s| - |r|])
    ensures r == [] || !IsSpace(r[0])
    decreases |s|
  {
    if s != [] && IsSpace(s[0]) then
      var r := TrimLeftSpace(s[1..]);
      assert s[..|s| - |r|] == [s[0]] + s[1..][..|s| - 1 - |r|];
      r
    else
      s
  }

  /** `s` without its trailing white space. */
  function TrimRightSpace(s: string): (r: string)
    ensures |r| <= |s| && r == s[..|r|]
    ensures IsBlank(s[|r|..])
    ensures r == [] || !IsSpace(r[|r| - 1])
    decreases |s|
  {
    if s != [] && IsSpace(s[|s| - 1]) then
      var r := TrimRightSpace(s[..|s| - 1]);
      assert s[|r|..] == s[..|s| - 1][|r|..] + [s[|s| - 1]];
      r
    else
      s
  }

  /** `s` without leading and trailing white space (Go's `strings.TrimSpace`). */
  function TrimSpace(s: string): (r: string)
    ensures |r| <= |s|
    ensures |r| == 0 <==> IsBlank(s)
  {
    var left := TrimLeftSpace(s);
    var r := TrimRightSpace(left);
    assert IsBlank(s) ==> left == [] by {
      if left != [] {
        assert left[0] == s[|s| - |left|];
      }
    }
    assert r == [] ==> IsBlank(s) by {
      if r == [] {
        assert s == s[..|s| - |left|] + left;
        assert left == left[|r|..];
      }
    }
    r
  }

  /**
   Joins a directory path and a file name. A blank directory yields the file
   name alone; a directory already ending in '/' is followed directly by the
   file name; any other directory gets one '/' before the file name.
   */
  function AppendFileToPath(path: string, file: string): (r: string)
    ensures IsBlank(path) ==> r == file
    ensures !IsBlank(path) && EndsWithSlash(path) ==> r == path + file
    ensures !IsBlank(path) && !EndsWithSlash(path) ==> r == path + "/" + file
    ensures |file| <= |r| && r[|r| - |file|..] == file
  {
    if |TrimSpace(path)| < 1 then
      file
    else if path[|path| - 1..] == "/" then
      path + file
    else
      path + "/" + file
  }

  /** The directory part of a non-blank path as it appears in a joined path: a '/' is added only when it does not already end in one. */
  function WithSeparator(path: string): string {
    if EndsWithSlash(path) then path else path + "/"
  }

  /**
   Splits a path after its last '/': the directory part (empty, or ending in
   '/') and the final name, which contains no '/'.
   */
  function SplitLast(p: string): (r: (string, string))
    ensures p == r.0 + r.1
    ensures r.0 == [] || EndsWithSlash(r.0)
    ensures forall i :: 0 <= i < |r.1| ==> r.1[i] != '/'
    decreases |p|
  {
    if p == [] then ([], [])
    else if p[|p| - 1] == '/' then (p, [])
    else
      var s := SplitLast(p[..|p| - 1]);
      assert p == s.0 + (s.1 + [p[|p| - 1]]);
      (s.0, s.1 + [p[|p| - 1]])
  }

  /** A split of `p` into a '/'-terminated (or empty) directory and a '/'-free name is unique. */
  lemma {:induction false} SplitLastUnique(p: string, dir: string, name: string)
    requires p == dir + name
    requires dir == [] || EndsWithSlash(dir)
    requires forall i :: 0 <= i < |name| ==> name[i] != '/'
    ensures SplitLast(p) == (dir, name)
    decreases |name|
  {
    if name == [] {
      assert p == dir;
    } else {
      var name' := name[..|name| - 1];
      assert p[..|p| - 1] == dir + name';
      SplitLastUnique(p[..|p| - 1], dir, name');
      assert name == name' + [p[|p| - 1]];
    }
  }

  /**
   A joined path comes apart again at its last '/': for a file name without
   '/', splitting the result gives back the file name and the directory with
   exactly the separator the join supplied.
   */
  lemma JoinSplitRoundTrip(path: string, file: string)
    requires forall i :: 0 <= i < |file| ==> file[i] != '/'
    ensures IsBlank(path) ==> SplitLast(AppendFileToPath(path, file)) == ([], file)
    ensures !IsBlank(path) ==> SplitLast(AppendFileToPath(path, file)) == (WithSeparator(path), file)
  {
    var r := AppendFileToPath(path, file);
    if IsBlank(path) {
      SplitLastUnique(r, [], file);
    } else if EndsWithSlash(path) {
      SplitLastUnique(r, path, file);
    } else {
      assert r == (path + "/") + file;
      SplitLastUnique(r, path + "/", file);
    }
  }

  /**
   A directory written with or without its trailing '/' joins to the same
   path: the separator is never doubled by the join itself.
   */
  lemma JoinTrailingSlashIrrelevant(path: string, file: string)
    requires !IsBlank(path) && !EndsWithSlash(path)
    ensures AppendFileToPath(path + "/", file) == AppendFileToPath(path, file)
  {
  }
}
