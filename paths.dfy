/**
 * The `System.IO.Path` helpers the plugin calls, as .NET implements them on
 * Unix, where '/' is the only directory separator.
 */
module Paths {
  import opened Wrappers
  import opened Text

  const Separator: char := '/'

  /** Length of the root of a path: 1 for an absolute path, else 0. */
  function RootLength(path: string): (n: nat)
    ensures n <= |path|
  {
    if path != [] && path[0] == Separator then 1 else 0
  }

  /** `while (end > root && !IsDirectorySeparator(path[--end]))`: the position of
      the last separator at or after the root, or the root itself. */
  function SeparatorScan(path: string, root: nat, end: nat): (r: nat)
    requires root <= end <= |path|
    ensures root <= r <= end
    ensures r == root || (r < end && path[r] == Separator)
    ensures forall i :: r < i < end ==> path[i] != Separator
    decreases end
  {
    if end <= root then end
    else if path[end - 1] == Separator then end - 1
    else SeparatorScan(path, root, end - 1)
  }

  /** `while (end > root && IsDirectorySeparator(path[end - 1])) end--`. */
  function DropSeparators(path: string, root: nat, end: nat): (r: nat)
    requires root <= end <= |path|
    ensures root <= r <= end
    ensures forall i :: r <= i < end ==> path[i] == Separator
    decreases end
  {
    if end > root && path[end - 1] == Separator then DropSeparators(path, root, end - 1) else end
  }

  /** `PathInternal.NormalizeDirectorySeparators`: a separator followed by another is dropped. */
  function CollapseSeparators(s: string): (r: string)
    ensures |r| <= |s|
    ensures IsBlank(s) ==> IsBlank(r)
  {
    if s == [] then []
    else if |s| >= 2 && s[0] == Separator && s[1] == Separator then CollapseSeparators(s[1..])
    else [s[0]] + CollapseSeparators(s[1..])
  }

  /** `Path.GetDirectoryName`: `None` for an empty path or a bare root, `""` for a
      name without any separator, otherwise everything before the last separator. */
  function DirectoryName(path: string): (d: Option<string>)
    ensures IsBlank(path) ==> IsNullOrWhiteSpace(d)
    ensures Separator !in path ==> d == (if path == [] then None else Some(""))
  {
    var root := RootLength(path);
    if |path| <= root then None
    else
      var end := DropSeparators(path, root, SeparatorScan(path, root, |path|));
      assert IsBlank(path) ==> IsBlank(path[..end]);
      Some(CollapseSeparators(path[..end]))
  }

  /** `Path.GetFileName`: the text after the last separator. */
  function FileName(path: string): (name: string)
    ensures Separator !in name
    ensures exists k :: 0 <= k <= |path| && name == path[k..]
  {
    if path == [] || path[|path| - 1] == Separator then
      assert path[|path|..] == [];
      []
    else
      var before := FileName(path[..|path| - 1]);
      assert exists k :: 0 <= k <= |path| && before + [path[|path| - 1]] == path[k..] by {
        var k :| 0 <= k <= |path| - 1 && before == path[..|path| - 1][k..];
        assert before + [path[|path| - 1]] == path[k..];
      }
      before + [path[|path| - 1]]
  }

  /** Position of the last occurrence of `c`, or -1. */
  function LastIndexOf(s: string, c: char): (k: int)
    ensures -1 <= k < |s|
    ensures k >= 0 ==> s[k] == c
    ensures forall i :: k < i < |s| ==> s[i] != c
  {
    if s == [] then -1
    else if s[|s| - 1] == c then |s| - 1
    else LastIndexOf(s[..|s| - 1], c)
  }

  /** `Path.GetFileNameWithoutExtension`: the file name up to its last '.'. */
  function FileNameWithoutExtension(path: string): (base: string)
    ensures Separator !in base
  {
    var name := FileName(path);
    var dot := LastIndexOf(name, '.');
    if dot < 0 then name else name[..dot]
  }

  /** `Path.Combine(dir, name)` for two non-empty parts. */
  function Combine(dir: string, name: string): (p: string)
    ensures name != [] && dir != [] && name[0] != Separator ==> |p| > |name| && p[|p| - |name|..] == name
  {
    if name == [] then dir
    else if dir == [] then name
    else if name[0] == Separator then name
    else if dir[|dir| - 1] == Separator then dir + name
    else dir + [Separator] + name
  }
}
