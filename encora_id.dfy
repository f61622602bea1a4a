/**
 * `EncoraMovieMetadataProvider.ExtractEncoraId`: the Encora recording id of a
 * media file, taken from a `{e-<digits>}` marker in its path, else from the
 * first `.encora-<digits>` file in its directory, else from the trimmed text of
 * a `.encora-id` file there.
 */
module EncoraId {
  import opened Wrappers
  import opened Text
  import opened Paths
  import opened Host

  /** The pattern `{e-(\d+)}`, ignoring case, matches at position `i`. */
  predicate MarkerAt(path: string, i: nat) {
    i + 3 <= |path| && path[i] == '{' && (path[i + 1] == 'e' || path[i + 1] == 'E') && path[i + 2] == '-'
    && var n := RunLength(path[i + 3..], Digit);
    n >= 1 && i + 3 + n < |path| && path[i + 3 + n] == '}'
  }

  /** The digits captured by the marker at `i`. */
  function MarkerDigits(path: string, i: nat): (id: string)
    requires MarkerAt(path, i)
    ensures |id| >= 1 && AllDigits(id)
  {
    path[i + 3..i + 3 + RunLength(path[i + 3..], Digit)]
  }

  /** The id in the leftmost marker of the path, if any. */
  function PathMarkerId(path: string): (id: Option<string>)
    ensures id.Some? ==> |id.value| >= 1 && AllDigits(id.value)
  {
    match FirstWhere(0, |path|, (i: nat) => MarkerAt(path, i))
    case None => None
    case Some(i) => Some(MarkerDigits(path, i))
  }

  /** The pattern `\.encora-(\d+)`, ignoring case, matches at position `i`. */
  predicate FileMarkerAt(name: string, i: nat) {
    i + 8 <= |name| && name[i] == '.' && EqualsIgnoreCase(name[i + 1..i + 7], "encora") && name[i + 7] == '-'
    && RunLength(name[i + 8..], Digit) >= 1
  }

  /** The id in the leftmost `.encora-<digits>` of a file name, if any. */
  function FileMarkerId(name: string): (id: Option<string>)
    ensures id.Some? ==> |id.value| >= 1 && AllDigits(id.value)
  {
    match FirstWhere(0, |name|, (i: nat) => FileMarkerAt(name, i))
    case None => None
    case Some(i) => Some(name[i + 8..i + 8 + RunLength(name[i + 8..], Digit)])
  }

  /** The id a listed file carries in its name. */
  function ListedFileId(file: string): (id: Option<string>)
    ensures id.Some? ==> |id.value| >= 1 && AllDigits(id.value)
  {
    FileMarkerId(FileName(file))
  }

  /** The first `Some` that `f` gives over `items`, scanning in order. */
  function FirstSome(items: seq<string>, f: string -> Option<string>): (r: Option<string>)
    ensures r.Some? ==> exists i :: 0 <= i < |items| && f(items[i]) == r
    ensures r.None? <==> forall j :: 0 <= j < |items| ==> f(items[j]).None?
  {
    if items == [] then None
    else if f(items[0]).Some? then f(items[0])
    else
      var r := FirstSome(items[1..], f);
      assert forall j :: 1 <= j < |items| ==> items[j] == items[1..][j - 1];
      r
  }

  /** The id of the first listed file whose name holds a marker. */
  function FirstFileMarker(files: seq<string>): (id: Option<string>)
    ensures id.Some? ==> |id.value| >= 1 && AllDigits(id.value)
  {
    FirstSome(files, ListedFileId)
  }

  /** The trimmed text of the `.encora-id` file, or `None` when it is missing or blank. */
  function IdFileContent(fs: FileSystem, idFile: string): (id: Option<string>)
    ensures id.Some? ==> !IsBlank(id.value) && Trimmed(id.value)
  {
    if !Exists(fs, idFile) then None
    else
      var t := Trim(ReadText(fs, idFile));
      if t == [] then None else Some(t)
  }

  /** What `ExtractEncoraId(path)` returns. */
  function EncoraIdOf(path: string, fs: FileSystem): Option<string> {
    match PathMarkerId(path)
    case Some(id) => Some(id)
    case None =>
      var dir := DirectoryName(path);
      if IsNullOrWhiteSpace(dir) then None
      else match FirstFileMarker(fs.listing(dir.value))
        case Some(id) => Some(id)
        case None => IdFileContent(fs, Combine(dir.value, ".encora-id"))
  }

  /** `ExtractEncoraId`: the path marker, else the directory listing scanned in
      order with an early return, else the `.encora-id` file. */
  method ExtractEncoraId(path: string, fs: FileSystem) returns (id: Option<string>)
    ensures id == EncoraIdOf(path, fs)
  {
    var fromPath := PathMarkerId(path);
    if fromPath.Some? {
      return fromPath;
    }
    var dir := DirectoryName(path);
    if !IsNullOrWhiteSpace(dir) {
      var files := fs.listing(dir.value);
      for k := 0 to |files|
        invariant FirstSome(files, ListedFileId) == FirstSome(files[k..], ListedFileId)
      {
        var fromFile := ListedFileId(files[k]);
        if fromFile.Some? {
          return fromFile;
        }
        assert files[k..][1..] == files[k + 1..];
      }
      return IdFileContent(fs, Combine(dir.value, ".encora-id"));
    }
    return None;
  }

  // ---------------------------------------------------------------------------
  // Properties

  /** Whatever its source, an id found is never blank, so the caller's blank check
      rejects exactly the case where no id was found. */
  lemma IdNeverBlank(path: string, fs: FileSystem)
    ensures EncoraIdOf(path, fs).Some? ==> !IsBlank(EncoraIdOf(path, fs).value)
  {
    var marker := PathMarkerId(path);
    var dir := DirectoryName(path);
    if marker.Some? {
      DigitsNotBlank(marker.value);
    } else if !IsNullOrWhiteSpace(dir) {
      var listed := FirstFileMarker(fs.listing(dir.value));
      if listed.Some? {
        DigitsNotBlank(listed.value);
      }
    }
  }

  /** A marker after text without '{' is the one found, and it takes precedence over
      everything in the directory. */
  lemma MarkerWins(pre: string, e: char, digits: string, post: string, fs: FileSystem)
    requires '{' !in pre && (e == 'e' || e == 'E')
    requires |digits| >= 1 && AllDigits(digits)
    ensures EncoraIdOf(pre + "{" + [e] + "-" + digits + "}" + post, fs) == Some(digits)
  {
    var path := pre + "{" + [e] + "-" + digits + "}" + post;
    var i := |pre|;
    assert path[i + 3..] == digits + ("}" + post);
    RunOf(digits, "}" + post, Digit);
    assert path[i + 3..i + 3 + |digits|] == digits;
    assert MarkerAt(path, i);
    var isMarker := (k: nat) => MarkerAt(path, k);
    assert forall k: nat :: k < i ==> !isMarker(k) by {
      forall k: nat | k < i ensures !isMarker(k) {
        assert path[k] == pre[k];
      }
    }
    assert isMarker(i);
    var found := FirstWhere(0, |path|, isMarker);
    assert found.Some? && found.value == i;
  }

  /** A file named ".encora-<digits>" (any case of "encora") carries its digits. */
  lemma FileNamedWithId(name: string, digits: string, rest: string)
    requires |name| == 7 && name[0] == '.' && EqualsIgnoreCase(name[1..], "encora")
    requires |digits| >= 1 && AllDigits(digits)
    requires rest == [] || !IsDigit(rest[0])
    ensures FileMarkerId(name + "-" + digits + rest) == Some(digits)
  {
    var s := name + "-" + digits + rest;
    assert s[1..7] == name[1..];
    assert s[8..] == digits + rest;
    RunOf(digits, rest, Digit);
    assert s[8..8 + |digits|] == digits;
    var isMarker := (k: nat) => FileMarkerAt(s, k);
    assert isMarker(0);
    var found := FirstWhere(0, |s|, isMarker);
    assert found.Some? && found.value == 0;
  }

  /** The listing is scanned in order: the first item for which `f` gives an id decides. */
  lemma {:induction false} FirstSomeAt(items: seq<string>, f: string -> Option<string>, k: nat)
    requires k < |items| && f(items[k]).Some?
    requires forall j :: 0 <= j < k ==> f(items[j]).None?
    ensures FirstSome(items, f) == f(items[k])
  {
    if k > 0 {
      assert items[1..][k - 1] == items[k];
      FirstSomeAt(items[1..], f, k - 1);
    }
  }

  /** The first listed file carrying an id decides, whatever the files after it hold. */
  lemma FirstListedFileWins(files: seq<string>, k: nat)
    requires k < |files| && ListedFileId(files[k]).Some?
    requires forall j :: 0 <= j < k ==> ListedFileId(files[j]).None?
    ensures FirstFileMarker(files) == ListedFileId(files[k])
  {
    FirstSomeAt(files, ListedFileId, k);
  }

  /** Without a path marker, a marked file in the directory is preferred over the
      `.encora-id` file. */
  lemma ListingBeforeIdFile(path: string, fs: FileSystem)
    requires PathMarkerId(path).None? && !IsNullOrWhiteSpace(DirectoryName(path))
    requires FirstFileMarker(fs.listing(DirectoryName(path).value)).Some?
    ensures EncoraIdOf(path, fs) == FirstFileMarker(fs.listing(DirectoryName(path).value))
  {
  }

  /** Without any marker, the `.encora-id` text is used trimmed: white space around an
      id is dropped, and a blank file gives no id. */
  lemma IdFileTrimmed(path: string, fs: FileSystem, before: string, id: string, after: string)
    requires PathMarkerId(path).None? && !IsNullOrWhiteSpace(DirectoryName(path))
    requires FirstFileMarker(fs.listing(DirectoryName(path).value)).None?
    requires Combine(DirectoryName(path).value, ".encora-id") in fs.files
    requires fs.files[Combine(DirectoryName(path).value, ".encora-id")] == before + id + after
    requires IsBlank(before) && IsBlank(after) && Trimmed(id)
    ensures EncoraIdOf(path, fs) == if id == [] then None else Some(id)
  {
    TrimOf(before, id, after);
  }

  /** A bare file name (no directory) has no fallback: only a path marker gives an id. */
  lemma NoDirectoryNoFallback(path: string, fs: FileSystem)
    requires Separator !in path && PathMarkerId(path).None?
    ensures EncoraIdOf(path, fs).None?
  {
  }
}
