/**
 * The two `os.path` functions the command builder uses, for the two path
 * flavours Python picks by platform: `posixpath` (Linux, macOS) and
 * `ntpath` (Windows).  Only what the builder needs is modelled: joining a
 * plain child name such as "dist" onto a directory, and taking a base name.
 */
module Paths {

  /** `sys.platform == "win32"` versus every other platform. */
  datatype Platform = Windows | Posix

  /** The separator PyInstaller expects between source and destination in `--add-data`. */
  function DataSeparator(p: Platform): char {
    if p == Windows then ';' else ':'
  }

  /** The `--add-data` separator is `;` exactly on Windows and `:` exactly elsewhere. */
  lemma DataSeparatorByPlatform(p: Platform)
    ensures DataSeparator(p) == ';' <==> p == Windows
    ensures DataSeparator(p) == ':' <==> p.Posix?
  {
  }

  predicate IsSep(p: Platform, c: char) {
    c == '/' || (p == Windows && c == '\\')
  }

  /** A single path component without separators or drive colon, such as "dist" or "build". */
  predicate IsPlainName(name: string) {
    forall i | 0 <= i < |name| :: name[i] != '/' && name[i] != '\\' && name[i] != ':'
  }

  /** `X:` at the front of a Windows path. */
  predicate HasDrive(path: string) {
    |path| >= 2 && path[1] == ':'
  }

  /**
   * `os.path.join(dir, name)` for a plain child name: no separator is added
   * after an empty directory, after one that already ends in a separator or,
   * on Windows, after a bare drive such as `C:`.
   */
  function Join(p: Platform, dir: string, name: string): (r: string)
    requires IsPlainName(name)
    ensures |dir| + |name| <= |r| <= |dir| + |name| + 1
    ensures r[..|dir|] == dir && r[|r| - |name|..] == name
    ensures |r| == |dir| + |name| + 1 ==> IsSep(p, r[|dir|])
    ensures |r| == |dir| + |name| + 1 ==> r[|dir|] == (if p == Windows then '\\' else '/')
    ensures |r| == |dir| + |name| + 1 <==>
      dir != [] && !IsSep(p, dir[|dir| - 1]) && !(p == Windows && |dir| == 2 && dir[1] == ':')
  {
    if dir == [] || IsSep(p, dir[|dir| - 1]) || (p == Windows && |dir| == 2 && dir[1] == ':') then
      dir + name
    else if p == Windows then
      dir + "\\" + name
    else
      dir + "/" + name
  }

  /** The part of `s` after its last separator. */
  function AfterLastSep(p: Platform, s: string): (r: string)
    ensures |r| <= |s| && r == s[|s| - |r|..]
    ensures forall i | 0 <= i < |r| :: !IsSep(p, r[i])
    ensures |r| == |s| || IsSep(p, s[|s| - |r| - 1])
  {
    if s == [] || IsSep(p, s[|s| - 1]) then []
    else AfterLastSep(p, s[..|s| - 1]) + [s[|s| - 1]]
  }

  /**
   * `os.path.basename(path)`: what follows the last separator; `ntpath`
   * first drops a drive prefix `X:`.
   */
  function Basename(p: Platform, path: string): (r: string)
    ensures forall i | 0 <= i < |r| :: !IsSep(p, r[i])
    ensures |r| <= |path| && r == path[|path| - |r|..]
    ensures if p == Windows && HasDrive(path) then
        |r| <= |path| - 2 && (|r| == |path| - 2 || IsSep(p, path[|path| - |r| - 1]))
      else |r| == |path| || IsSep(p, path[|path| - |r| - 1])
  {
    BasenameOfSuffix(p, path);
    AfterLastSep(p, path[DriveLength(p, path)..])
  }

  /** The length of the drive prefix `ntpath` drops: 2 for `X:` on Windows, else 0. */
  function DriveLength(p: Platform, path: string): (n: nat)
    ensures n <= |path|
  {
    if p == Windows && HasDrive(path) then 2 else 0
  }

  /** The contract of `Basename`, stated for the text after the drive. */
  lemma BasenameOfSuffix(p: Platform, path: string)
    ensures var r := AfterLastSep(p, path[DriveLength(p, path)..]);
      if p == Windows && HasDrive(path) then
        |r| <= |path| - 2 && (|r| == |path| - 2 || IsSep(p, path[|path| - |r| - 1]))
      else |r| == |path| || IsSep(p, path[|path| - |r| - 1])
    ensures var r := AfterLastSep(p, path[DriveLength(p, path)..]);
      |r| <= |path| && r == path[|path| - |r|..]
  {
    AfterLastSepOfSuffix(p, path, DriveLength(p, path));
  }

  /** What `AfterLastSep` gives for a suffix of `path`, in terms of `path`. */
  lemma AfterLastSepOfSuffix(p: Platform, path: string, start: nat)
    requires start <= |path|
    ensures var r := AfterLastSep(p, path[start..]);
      |r| <= |path| - start && r == path[|path| - |r|..] &&
      (|r| == |path| - start || IsSep(p, path[|path| - |r| - 1]))
  {
    var r := AfterLastSep(p, path[start..]);
    assert path[start..][|path| - start - |r|..] == path[|path| - |r|..];
    if |r| < |path| - start {
      assert path[start..][|path| - start - |r| - 1] == path[|path| - |r| - 1];
    }
  }

  /** Joining a plain name onto any directory and taking the base name gives the name back. */
  lemma BasenameOfJoin(p: Platform, dir: string, name: string)
    requires IsPlainName(name)
    ensures Basename(p, Join(p, dir, name)) == name
  {
    var j := Join(p, dir, name);
    var sep := if p == Windows then "\\" else "/";
    if dir == [] {
      assert j == name;
      AfterPlainSuffix(p, [], name);
      assert [] + name == name;
      assert !(HasDrive(name) && p == Windows) by {
        if |name| >= 2 { assert name[1] != ':'; }
      }
    } else if IsSep(p, dir[|dir| - 1]) {
      assert j == dir + name;
      if p == Windows && HasDrive(j) {
        assert |dir| != 2;
        assert j[2..] == dir[2..] + name;
        AfterPlainSuffix(p, dir[2..], name);
      } else {
        AfterPlainSuffix(p, dir, name);
      }
    } else if p == Windows && |dir| == 2 && dir[1] == ':' {
      assert j == dir + name && HasDrive(j);
      assert j[2..] == [] + name;
      AfterPlainSuffix(p, [], name);
    } else {
      var d := dir + sep;
      assert j == d + name;
      if p == Windows && HasDrive(j) {
        assert j[2..] == d[2..] + name;
        AfterPlainSuffix(p, d[2..], name);
      } else {
        AfterPlainSuffix(p, d, name);
      }
    }
  }

  lemma {:induction false} AfterPlainSuffix(p: Platform, a: string, b: string)
    requires IsPlainName(b)
    requires a == [] || IsSep(p, a[|a| - 1])
    ensures AfterLastSep(p, a + b) == b
    decreases |b|
  {
    if b == [] {
      assert a + b == a;
    } else {
      var s := a + b;
      var b' := b[..|b| - 1];
      assert s[..|s| - 1] == a + b';
      var last := b[|b| - 1];
      assert last != '/' && last != '\\' && last != ':';
      assert s[|s| - 1] == last;
      AfterLastSepStep(p, s);
      PlainPrefix(b, |b| - 1);
      AfterPlainSuffix(p, a, b');
      assert b' + [last] == b;
    }
  }

  lemma PlainPrefix(name: string, k: nat)
    requires IsPlainName(name) && k <= |name|
    ensures IsPlainName(name[..k])
  {
  }

  lemma AfterLastSepStep(p: Platform, s: string)
    requires s != [] && !IsSep(p, s[|s| - 1])
    ensures AfterLastSep(p, s) == AfterLastSep(p, s[..|s| - 1]) + [s[|s| - 1]]
  {
  }
}
