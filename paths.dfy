/** The three `pathlib.PurePath` properties app.py reads from an input
    path: `name`, `suffix` and `stem`. */
module Paths {
  import opened Text

  /** `str.rfind(c)`: the index of the last occurrence of `c`, or -1. */
  function RFind(s: string, c: char): int
  {
    if s == [] then -1
    else if s[|s| - 1] == c then |s| - 1
    else RFind(s[..|s| - 1], c)
  }

  /** RFind finds the last `c`, and -1 only when there is none. */
  lemma {:induction false} RFindSpec(s: string, c: char)
    ensures var i := RFind(s, c);
      && -1 <= i < |s|
      && (i >= 0 ==> s[i] == c)
      && (forall k :: i < k < |s| ==> s[k] != c)
  {
    if s != [] && s[|s| - 1] != c {
      RFindSpec(s[..|s| - 1], c);
    }
  }

  /** `Path(p).name`: the last component, after trailing separators are dropped. */
  function FileName(path: string): string
  {
    var p := TrimRight(path, {'/'});
    RFindSpec(p, '/');
    p[RFind(p, '/') + 1..]
  }

  /** Once trailing separators are dropped, the name is what follows the
      last `/`, or the whole path when there is none. */
  lemma LastComponent(path: string)
    ensures var p, r := TrimRight(path, {'/'}), FileName(path);
      && |r| <= |p| && r == p[|p| - |r|..]
      && (|r| < |p| ==> p[|p| - |r| - 1] == '/')
  {
    var p := TrimRight(path, {'/'});
    RFindSpec(p, '/');
    var i := RFind(p, '/');
    assert FileName(path) == p[i + 1..];
    assert |p| - |FileName(path)| == i + 1;
  }

  /** The name is the last component of the path, contains no separator,
      and a path without any `/` is its own name. */
  lemma FileNameHasNoSlash(path: string)
    ensures var p, r := TrimRight(path, {'/'}), FileName(path);
      && '/' !in r
      && |r| <= |p| && r == p[|p| - |r|..]
      && (|r| < |p| ==> p[|p| - |r| - 1] == '/')
      && ('/' !in path ==> r == path)
  {
    RFindSpec(TrimRight(path, {'/'}), '/');
    LastComponent(path);
    if '/' !in path {
      NoSlashKept(path);
      LastComponent(path);
    }
  }

  /** Dropping trailing separators leaves a path without any unchanged. */
  lemma NoSlashKept(path: string)
    requires '/' !in path
    ensures TrimRight(path, {'/'}) == path
  {
    if path != [] {
      assert path[|path| - 1] in path;
    }
  }

  /** `PurePath.suffix` on a name: from the last dot, unless that dot
      is the first or the last character. */
  function Suffix(name: string): string
  {
    var i := RFind(name, '.');
    if 0 < i < |name| - 1 then name[i..] else ""
  }

  /** `PurePath.stem` on a name: what precedes the suffix. */
  function Stem(name: string): string
  {
    var i := RFind(name, '.');
    if 0 < i < |name| - 1 then name[..i] else name
  }

  /** The stem followed by the suffix gives back the name. A non-empty
      suffix is one dot followed by at least one character that is not a dot,
      and there is one exactly when the name's last dot is neither its first
      nor its last character. */
  lemma StemAndSuffix(name: string)
    ensures Stem(name) + Suffix(name) == name
    ensures var x := Suffix(name); x == [] || (|x| >= 2 && x[0] == '.' && '.' !in x[1..])
    ensures Suffix(name) != "" <==>
      exists i :: 0 < i < |name| - 1 && name[i] == '.' && forall k :: i < k < |name| ==> name[k] != '.'
  {
    RFindSpec(name, '.');
    if exists i :: 0 < i < |name| - 1 && name[i] == '.' && forall k :: i < k < |name| ==> name[k] != '.' {
      var i :| 0 < i < |name| - 1 && name[i] == '.' && forall k :: i < k < |name| ==> name[k] != '.';
      assert RFind(name, '.') == i;
    }
  }
}
