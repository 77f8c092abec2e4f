/**
 * The parts of .NET's System.IO.Path and System.String that the pipeline
 * uses to derive blob names and content types: LastIndexOf, GetFileName,
 * GetExtension, GetFileNameWithoutExtension, TrimStart and ToLower.
 * Paths follow .NET on Unix, where '/' is the only directory separator.
 */
module DotNetPath {
  import opened Wrappers

  const Separator: char := '/'
  const Dot: char := '.'

  /** No character of `s` is `c`. */
  ghost predicate Free(s: string, c: char) {
    forall i :: 0 <= i < |s| ==> s[i] != c
  }

  /** Neither a dot nor a separator: text that cannot move the extension or the file name. */
  ghost predicate Plain(s: string) {
    Free(s, Dot) && Free(s, Separator)
  }

  /** String.LastIndexOf(char): the position of the last `c` in `s`, if any. */
  function LastIndexOf(s: string, c: char): (r: Option<nat>)
    ensures r.Some? ==> r.value < |s|
  {
    LastIndexBefore(s, c, |s|)
  }

  /** The scan behind LastIndexOf: the last `c` among the first `n` characters, looking from position `n - 1` down. */
  function LastIndexBefore(s: string, c: char, n: nat): (r: Option<nat>)
    requires n <= |s|
    ensures r.Some? ==> r.value < n
  {
    if n == 0 then None
    else if s[n - 1] == c then Some(n - 1)
    else LastIndexBefore(s, c, n - 1)
  }

  /** Path.GetFileName: everything after the last separator. */
  function GetFileName(path: string): string {
    match LastIndexOf(path, Separator)
    case None => path
    case Some(i) => path[i + 1..]
  }

  /**
   * Path.GetExtension: the last '.'-suffix of the file name, dot included;
   * empty when the file name has no dot or ends in one.
   */
  function GetExtension(path: string): string {
    var name := GetFileName(path);
    match LastIndexOf(name, Dot)
    case None => ""
    case Some(i) => if i == |name| - 1 then "" else name[i..]
  }

  /** Path.GetFileNameWithoutExtension: the file name cut at its last dot. */
  function GetFileNameWithoutExtension(path: string): string {
    var name := GetFileName(path);
    match LastIndexOf(name, Dot)
    case None => name
    case Some(i) => name[..i]
  }

  /** String.TrimStart(char): drops every leading `c`. */
  function TrimStart(s: string, c: char): string {
    if s != [] && s[0] == c then TrimStart(s[1..], c) else s
  }

  /** Char.ToLowerInvariant restricted to ASCII: 'A'..'Z' become 'a'..'z'. */
  function LowerChar(c: char): char {
    if 'A' <= c <= 'Z' then (c as int + 32) as char else c
  }

  /** String.ToLower, character by character. */
  function ToLower(s: string): string {
    seq(|s|, i requires 0 <= i < |s| => LowerChar(s[i]))
  }

  // ---------------------------------------------------------------------
  // Lemmas

  /** The scan finds `c` among the first `n` characters exactly when there is one there, and none between it and `n`. */
  lemma {:induction false} LastIndexBeforeSpec(s: string, c: char, n: nat)
    requires n <= |s|
    ensures LastIndexBefore(s, c, n).None? <==> forall i :: 0 <= i < n ==> s[i] != c
    ensures LastIndexBefore(s, c, n).Some? ==> s[LastIndexBefore(s, c, n).value] == c
    ensures LastIndexBefore(s, c, n).Some? ==> forall j :: LastIndexBefore(s, c, n).value < j < n ==> s[j] != c
  {
    if n > 0 && s[n - 1] != c {
      LastIndexBeforeSpec(s, c, n - 1);
    }
  }

  /** LastIndexOf finds `c` exactly when there is one, and no `c` follows the position it returns. */
  lemma LastIndexOfSpec(s: string, c: char)
    ensures LastIndexOf(s, c).None? <==> Free(s, c)
    ensures LastIndexOf(s, c).Some? ==> s[LastIndexOf(s, c).value] == c
    ensures LastIndexOf(s, c).Some? ==> Free(s[LastIndexOf(s, c).value + 1..], c)
  {
    LastIndexBeforeSpec(s, c, |s|);
  }

  /** GetFileName is a separator-free suffix of the path, preceded by a separator unless it is the whole path. */
  lemma FileNameSpec(path: string)
    ensures Free(GetFileName(path), Separator)
    ensures |GetFileName(path)| <= |path| && path[|path| - |GetFileName(path)|..] == GetFileName(path)
    ensures |GetFileName(path)| == |path| || path[|path| - |GetFileName(path)| - 1] == Separator
  {
    LastIndexOfSpec(path, Separator);
  }

  /** The stem GetFileNameWithoutExtension returns holds no separator. */
  lemma StemSpec(path: string)
    ensures Free(GetFileNameWithoutExtension(path), Separator)
  {
    var name := GetFileName(path);
    FileNameSpec(path);
    LastIndexOfSpec(name, Dot);
  }

  /**
   * An extension is empty, or a dot followed by at least one character;
   * either way it ends the path.
   */
  lemma ExtensionShape(path: string)
    ensures GetExtension(path) == [] || |GetExtension(path)| >= 2
    ensures GetExtension(path) == [] || GetExtension(path)[0] == Dot
    ensures |GetExtension(path)| <= |path|
    ensures path[|path| - |GetExtension(path)|..] == GetExtension(path)
  {
    var name := GetFileName(path);
    FileNameSpec(path);
    LastIndexOfSpec(name, Dot);
    match LastIndexOf(name, Dot)
    case None =>
    case Some(i) =>
      if i < |name| - 1 {
        assert GetExtension(path) == name[i..];
        SuffixOfSuffix(path, |path| - |name|, i);
      }
  }

  /** A suffix of a suffix is a suffix. */
  lemma SuffixOfSuffix(s: string, k: nat, i: nat)
    requires k + i <= |s|
    ensures s[k..][i..] == s[k + i..]
  {
  }

  /** TrimStart leaves a suffix that does not start with `c`, having dropped only `c`s. */
  lemma {:induction false} TrimStartShape(s: string, c: char)
    ensures var r := TrimStart(s, c);
      && |r| <= |s| && s[|s| - |r|..] == r
      && (r == [] || r[0] != c)
      && forall i :: 0 <= i < |s| - |r| ==> s[i] == c
  {
    if s != [] && s[0] == c {
      TrimStartShape(s[1..], c);
      assert s[1..][|s| - 1 - |TrimStart(s, c)|..] == s[|s| - |TrimStart(s, c)|..];
    }
  }

  /** The scan over a prefix of `s` reads only `s`, whatever follows it. */
  lemma {:induction false} LastIndexBeforePrefix(s: string, t: string, c: char, n: nat)
    requires n <= |s|
    ensures LastIndexBefore(s + t, c, n) == LastIndexBefore(s, c, n)
  {
    if n > 0 {
      assert (s + t)[n - 1] == s[n - 1];
      LastIndexBeforePrefix(s, t, c, n - 1);
    }
  }

  /** The scan passes over the first `k` characters of a `c`-free `t` appended to `s`. */
  lemma {:induction false} LastIndexBeforeSkip(s: string, t: string, c: char, k: nat)
    requires Free(t, c) && k <= |t|
    ensures LastIndexBefore(s + t, c, |s| + k) == LastIndexBefore(s + t, c, |s|)
  {
    if k > 0 {
      assert (s + t)[|s| + k - 1] == t[k - 1];
      LastIndexBeforeSkip(s, t, c, k - 1);
    }
  }

  /** Text without `c` appended to `s` leaves the last `c` where it was. */
  lemma LastIndexOfAppend(s: string, t: string, c: char)
    requires Free(t, c)
    ensures LastIndexOf(s + t, c) == LastIndexOf(s, c)
  {
    LastIndexBeforeSkip(s, t, c, |t|);
    LastIndexBeforePrefix(s, t, c, |s|);
  }

  /** Lower-casing moves neither dots nor separators: the scan stops at the same place. */
  lemma {:induction false} LastIndexBeforeLower(s: string, c: char, n: nat)
    requires c == Dot || c == Separator
    requires n <= |s|
    ensures LastIndexBefore(ToLower(s), c, n) == LastIndexBefore(s, c, n)
  {
    if n > 0 {
      assert ToLower(s)[n - 1] == LowerChar(s[n - 1]);
      LastIndexBeforeLower(s, c, n - 1);
    }
  }

  /** Lower-casing moves neither dots nor separators. */
  lemma LastIndexOfLower(s: string, c: char)
    requires c == Dot || c == Separator
    ensures LastIndexOf(ToLower(s), c) == LastIndexOf(s, c)
  {
    LastIndexBeforeLower(s, c, |s|);
  }

  /** Text without a separator appended to a path extends its file name. */
  lemma FileNameOfAppend(path: string, t: string)
    requires Free(t, Separator)
    ensures GetFileName(path + t) == GetFileName(path) + t
  {
    LastIndexOfAppend(path, t, Separator);
    match LastIndexOf(path, Separator)
    case None =>
      assert GetFileName(path + t) == path + t;
    case Some(i) =>
      assert GetFileName(path + t) == (path + t)[i + 1..];
      SuffixOfAppend(path, t, i + 1);
  }

  /** A suffix of `s + t` starting inside `s`. */
  lemma SuffixOfAppend(s: string, t: string, i: nat)
    requires i <= |s|
    ensures (s + t)[i..] == s[i..] + t
  {
  }

  /** The file name of `dir + name` is `name` when `dir` is empty or ends in a separator. */
  lemma FileNameAfterDirectory(dir: string, name: string)
    requires dir == [] || dir[|dir| - 1] == Separator
    requires Free(name, Separator)
    ensures GetFileName(dir + name) == name
  {
    FileNameOfAppend(dir, name);
    if dir != [] {
      assert LastIndexOf(dir, Separator) == Some(|dir| - 1);
    } else {
      LastIndexOfSpec(name, Separator);
    }
  }

  /** A path ending in `.ext`, with `ext` free of dots and separators, has extension `.ext` (or none, for an empty `ext`). */
  lemma ExtensionOfAppend(path: string, ext: string)
    requires Plain(ext)
    ensures GetExtension(path + "." + ext) == if ext == [] then [] else "." + ext
  {
    var name := GetFileName(path);
    FileNameOfDotted(path, ext);
    LastDot(name, ext);
    if ext != [] {
      TailAfter(name, ext);
    }
  }

  /** The stem of a path ending in `.ext`, with `ext` free of dots and separators, is its file name before the dot. */
  lemma StemOfAppend(path: string, ext: string)
    requires Plain(ext)
    ensures GetFileNameWithoutExtension(path + "." + ext) == GetFileName(path)
  {
    var name := GetFileName(path);
    FileNameOfDotted(path, ext);
    LastDot(name, ext);
    HeadBefore(name, ext);
  }

  /** Cutting `name + "." + ext` at the dot, the part after it. */
  lemma TailAfter(name: string, ext: string)
    ensures (name + "." + ext)[|name|..] == "." + ext
  {
  }

  /** Cutting `name + "." + ext` at the dot, the part before it. */
  lemma HeadBefore(name: string, ext: string)
    ensures (name + "." + ext)[..|name|] == name
  {
  }

  /** The file name of `path + "." + ext` is the file name of `path` followed by `"." + ext`. */
  lemma FileNameOfDotted(path: string, ext: string)
    requires Plain(ext)
    ensures GetFileName(path + "." + ext) == GetFileName(path) + "." + ext
  {
    var tail := "." + ext;
    assert path + "." + ext == path + tail;
    assert GetFileName(path) + "." + ext == GetFileName(path) + tail;
    FileNameOfAppend(path, tail);
  }

  /** The last dot of `name + "." + ext`, for `ext` without a dot, is the one before `ext`. */
  lemma LastDot(name: string, ext: string)
    requires Free(ext, Dot)
    ensures LastIndexOf(name + "." + ext, Dot) == Some(|name|)
  {
    LastIndexOfAppend(name + ".", ext, Dot);
    assert LastIndexBefore(name + ".", Dot, |name| + 1) == Some(|name|);
  }

  /** A file name without a dot has no extension and is its own stem. */
  lemma NoExtension(dir: string, name: string)
    requires dir == [] || dir[|dir| - 1] == Separator
    requires Plain(name)
    ensures GetExtension(dir + name) == []
    ensures GetFileNameWithoutExtension(dir + name) == name
  {
    FileNameAfterDirectory(dir, name);
    LastIndexOfSpec(name, Dot);
  }

  /** The stem of `dir + stem + "." + ext` is `stem`: directory and last extension drop away. */
  lemma StemOfJoin(dir: string, stem: string, ext: string)
    requires dir == [] || dir[|dir| - 1] == Separator
    requires Free(stem, Separator)
    requires Plain(ext)
    ensures GetFileNameWithoutExtension(dir + stem + "." + ext) == stem
  {
    StemOfAppend(dir + stem, ext);
    FileNameAfterDirectory(dir, stem);
  }

  /** Lower-casing a path lower-cases its file name. */
  lemma FileNameOfLower(path: string)
    ensures GetFileName(ToLower(path)) == ToLower(GetFileName(path))
  {
    LastIndexOfLower(path, Separator);
    match LastIndexOf(path, Separator)
    case None =>
    case Some(i) => LowerSuffix(path, i + 1);
  }

  /** Lower-casing a path lower-cases its extension and nothing else about it. */
  lemma ExtensionOfLower(path: string)
    ensures GetExtension(ToLower(path)) == ToLower(GetExtension(path))
  {
    var name := GetFileName(path);
    FileNameOfLower(path);
    LastIndexOfLower(name, Dot);
    match LastIndexOf(name, Dot)
    case None =>
    case Some(i) =>
      LowerSuffix(name, i);
  }

  /** Lower-casing commutes with taking a suffix. */
  lemma LowerSuffix(s: string, i: nat)
    requires i <= |s|
    ensures ToLower(s)[i..] == ToLower(s[i..])
  {
    assert forall j :: 0 <= j < |s| - i ==> ToLower(s)[i..][j] == ToLower(s[i..])[j];
  }

  /** Lower-casing commutes with trimming leading dots. */
  lemma {:induction false} TrimStartLower(s: string)
    ensures TrimStart(ToLower(s), Dot) == ToLower(TrimStart(s, Dot))
  {
    if s != [] && s[0] == Dot {
      assert ToLower(s)[1..] == ToLower(s[1..]);
      TrimStartLower(s[1..]);
    }
  }

  /** Lower-casing is idempotent. */
  lemma LowerIdempotent(s: string)
    ensures ToLower(ToLower(s)) == ToLower(s)
  {
  }
}
