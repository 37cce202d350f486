/**
 The part of Rust's `std::path` the backend uses — `file_name`, `file_stem`,
 `extension`, `PathBuf::push` and `with_extension` — over `/`-separated
 strings. A file name is the last component of the path; its extension is what
 follows its last dot, except that a name whose only dot is its first
 character (`.md`) has no extension.
 */
module Paths {
  import opened Wrappers

  /** Index of the last `c` in `s`, or -1 when there is none. */
  function LastIndex(s: string, c: char): (r: int)
    ensures -1 <= r < |s|
  {
    if |s| == 0 then -1
    else if s[|s| - 1] == c then |s| - 1
    else LastIndex(s[..|s| - 1], c)
  }

  /** `LastIndex` finds `c` when it is there, and no `c` follows it. */
  lemma {:induction false} LastIndexSpec(s: string, c: char)
    ensures LastIndex(s, c) >= 0 ==> s[LastIndex(s, c)] == c
    ensures forall k :: LastIndex(s, c) < k < |s| ==> s[k] != c
  {
    if |s| > 0 && s[|s| - 1] != c {
      LastIndexSpec(s[..|s| - 1], c);
    }
  }

  /** `s` holds no `c`. */
  predicate Lacks(s: string, c: char) {
    LastIndex(s, c) < 0
  }

  lemma LacksSpec(s: string, c: char)
    ensures Lacks(s, c) <==> c !in s
  {
    LastIndexSpec(s, c);
  }

  /** No position of a string that lacks `c` holds `c`. */
  lemma LacksAt(s: string, c: char, i: int)
    requires Lacks(s, c) && 0 <= i < |s|
    ensures s[i] != c
  {
    LastIndexSpec(s, c);
  }

  lemma LacksConcat(a: string, b: string, c: char)
    ensures Lacks(a + b, c) <==> Lacks(a, c) && Lacks(b, c)
  {
    LacksSpec(a, c);
    LacksSpec(b, c);
    LacksSpec(a + b, c);
    if c in a + b {
      var k :| 0 <= k < |a + b| && (a + b)[k] == c;
      if k < |a| { assert a[k] == c; } else { assert b[k - |a|] == c; }
    }
    if c in a {
      var k :| 0 <= k < |a| && a[k] == c;
      assert (a + b)[k] == c;
    }
    if c in b {
      var k :| 0 <= k < |b| && b[k] == c;
      assert (a + b)[|a| + k] == c;
    }
  }

  function StripTrailingSlashes(p: string): (r: string)
    ensures |r| <= |p|
  {
    if |p| > 0 && p[|p| - 1] == '/' then StripTrailingSlashes(p[..|p| - 1]) else p
  }

  /** The empty component, `.` or `..`: none of them names a file. */
  predicate IsDots(seg: string) {
    |seg| == 0 || (|seg| == 1 && seg[0] == '.') || (|seg| == 2 && seg[0] == '.' && seg[1] == '.')
  }

  /** A name that can be the last component of a path. */
  predicate IsFileName(name: string) {
    !IsDots(name) && Lacks(name, '/')
  }

  /** `Path::file_name`: the last component, if it is a normal name. */
  function FileName(p: string): Option<string> {
    var t := StripTrailingSlashes(p);
    var seg := t[LastIndex(t, '/') + 1..];
    if IsDots(seg) then None else Some(seg)
  }

  /** A file name found in a path is a single normal component. */
  lemma FileNameSpec(p: string)
    ensures FileName(p).Some? ==> IsFileName(FileName(p).value)
  {
    var t := StripTrailingSlashes(p);
    var i := LastIndex(t, '/') + 1;
    LastIndexSpec(t, '/');
    var seg := t[i..];
    forall k | 0 <= k < |seg| ensures seg[k] != '/' {
      assert seg[k] == t[i + k];
    }
    LacksSpec(seg, '/');
  }

  /** Where the stem of a file name ends: at its last dot, unless that dot is
      missing or is the first character. */
  function StemLength(name: string): (n: nat)
    ensures n <= |name|
  {
    var d := LastIndex(name, '.');
    if d <= 0 then |name| else d
  }

  function StemOf(name: string): string {
    name[..StemLength(name)]
  }

  function ExtensionOf(name: string): Option<string> {
    var d := StemLength(name);
    if d == |name| then None else Some(name[d + 1..])
  }

  /** `Path::file_stem`. */
  function FileStem(p: string): Option<string> {
    match FileName(p)
    case None => None
    case Some(n) => Some(StemOf(n))
  }

  /** `Path::extension`. */
  function Extension(p: string): Option<string> {
    match FileName(p)
    case None => None
    case Some(n) => ExtensionOf(n)
  }

  /** The stem of a path's file name holds no separator. */
  lemma FileStemSpec(p: string)
    ensures FileStem(p).Some? ==> Lacks(FileStem(p).value, '/')
  {
    if FileName(p).Some? {
      FileNameSpec(p);
      var n := FileName(p).value;
      var k := StemLength(n);
      assert n == n[..k] + n[k..];
      LacksConcat(n[..k], n[k..], '/');
    }
  }

  /** `PathBuf::push`: an absolute `name` replaces the path; otherwise one
      separator is inserted unless the path is empty or already ends in one. */
  function Push(dir: string, name: string): string {
    if |name| > 0 && name[0] == '/' then name else Separated(dir) + name
  }

  /** `dir` followed by a separator unless it is empty or already ends in one. */
  function Separated(dir: string): (pre: string)
    ensures |pre| == 0 || pre[|pre| - 1] == '/'
  {
    if |dir| == 0 || dir[|dir| - 1] == '/' then dir else dir + "/"
  }

  /** `Path::with_extension`: the path cut after the stem of its file name,
      followed by the new extension; unchanged when there is no file name. */
  function WithExtension(p: string, ext: string): string {
    match FileName(p)
    case None => p
    case Some(n) =>
      var t := StripTrailingSlashes(p);
      var start := LastIndex(t, '/') + 1;
      t[..start] + StemOf(n) + (if |ext| == 0 then "" else "." + ext)
  }

  lemma LastIndexAfterSeparator(pre: string, name: string, c: char)
    requires |pre| == 0 || pre[|pre| - 1] == c
    requires Lacks(name, c)
    ensures LastIndex(pre + name, c) == |pre| - 1
  {
    LacksSpec(name, c);
    var s := pre + name;
    LastIndexSpec(s, c);
    assert forall k :: |pre| <= k < |s| ==> s[k] == name[k - |pre|];
    assert |pre| > 0 ==> s[|pre| - 1] == c;
  }

  /** Pushing a file name onto any directory gives a path whose file name is
      exactly that name. */
  lemma {:induction false} FileNameOfPush(dir: string, name: string)
    requires IsFileName(name)
    ensures FileName(Push(dir, name)) == Some(name)
    ensures StripTrailingSlashes(Push(dir, name)) == Push(dir, name)
    ensures LastIndex(Push(dir, name), '/') + 1 == |Push(dir, name)| - |name|
  {
    var pre := Separated(dir);
    var p := pre + name;
    LacksAt(name, '/', 0);
    LacksAt(name, '/', |name| - 1);
    assert p[|p| - 1] == name[|name| - 1];
    LastIndexAfterSeparator(pre, name, '/');
    assert p[|pre|..] == name;
  }

  /** Replacing the extension of `dir/name` gives `dir/<stem of name>.<ext>`. */
  lemma {:induction false} WithExtensionOfPush(dir: string, name: string, ext: string)
    requires IsFileName(name)
    requires |ext| > 0
    ensures WithExtension(Push(dir, name), ext) == Push(dir, StemOf(name) + "." + ext)
  {
    var pre := Separated(dir);
    var stem := StemOf(name);
    var n2 := stem + "." + ext;
    LacksAt(name, '/', 0);
    assert Push(dir, name) == pre + name;
    assert Push(dir, n2) == pre + n2 by {
      assert n2[0] == name[0];
    }
    FileNameOfPush(dir, name);
    assert WithExtension(pre + name, ext) == (pre + name)[..|pre|] + stem + ("." + ext);
    assert (pre + name)[..|pre|] == pre;
    assert pre + stem + ("." + ext) == pre + n2;
  }

  /** A file name `stem.ext` whose stem is not empty and whose extension has
      no dot splits back into that stem and that extension. */
  lemma {:induction false} SplitDotted(stem: string, ext: string)
    requires |stem| > 0 && Lacks(ext, '.')
    ensures StemOf(stem + "." + ext) == stem
    ensures ExtensionOf(stem + "." + ext) == Some(ext)
  {
    var n := stem + "." + ext;
    assert (stem + ".") + ext == n;
    LastIndexAfterSeparator(stem + ".", ext, '.');
    assert n[..|stem|] == stem;
    assert n[|stem| + 1..] == ext;
  }

  lemma LacksInDotted(stem: string, ext: string, c: char)
    requires c != '.' && Lacks(stem, c) && Lacks(ext, c)
    ensures Lacks(stem + "." + ext, c)
  {
    LacksConcat(stem, ".", c);
    LacksConcat(stem + ".", ext, c);
  }

  /** `dir/stem.ext` with its extension replaced is `dir/stem.newExt`; both
      paths have the stem `stem`, and each has its own extension. */
  lemma {:induction false} ReplaceExtension(dir: string, stem: string, ext: string, newExt: string)
    requires |stem| > 0 && Lacks(stem, '/')
    requires |ext| > 0 && Lacks(ext, '/') && Lacks(ext, '.')
    requires |newExt| > 0 && Lacks(newExt, '/') && Lacks(newExt, '.')
    ensures WithExtension(Push(dir, stem + "." + ext), newExt) == Push(dir, stem + "." + newExt)
    ensures FileName(Push(dir, stem + "." + newExt)) == Some(stem + "." + newExt)
    ensures FileStem(Push(dir, stem + "." + ext)) == Some(stem)
    ensures FileStem(Push(dir, stem + "." + newExt)) == Some(stem)
    ensures Extension(Push(dir, stem + "." + ext)) == Some(ext)
    ensures Extension(Push(dir, stem + "." + newExt)) == Some(newExt)
  {
    var md := stem + "." + ext;
    var html := stem + "." + newExt;
    LacksInDotted(stem, ext, '/');
    LacksInDotted(stem, newExt, '/');
    assert IsFileName(md) && IsFileName(html);
    SplitDotted(stem, ext);
    SplitDotted(stem, newExt);
    FileNameOfPush(dir, md);
    FileNameOfPush(dir, html);
    WithExtensionOfPush(dir, md, newExt);
  }
}
