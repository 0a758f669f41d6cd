/**
 * Locating a resource bundle's metadata (server/src/metadata.rs).  A resource
 * path is resolved against the assets directory, its `metadata.json` is read,
 * and the record remembers the directory it came from.  Reading and parsing the
 * file is I/O: its outcome is a parameter.
 */
module Metadata {
  import opened Util

  /** The assets directory used when `ASSETS_DIR` is not set. */
  const DEFAULT_ASSETS_DIR: string := "../assets"

  datatype Metadata = Metadata(
    name: string,
    description: string,
    url: string,
    license: string,
    audio: string,
    skip: nat,
    native: string,
    transcript: Option<string>,
    translations: map<string, string>,
    enclosingDirectory: string)

  /** Why the metadata file could not be turned into a record. */
  datatype LoadError = OpenFailed | ParseFailed

  predicate IsAbsolute(path: string) {
    |path| > 0 && path[0] == '/'
  }

  function AssetsDir(assetsDirEnv: Option<string>): string {
    if assetsDirEnv.Some? then assetsDirEnv.value else DEFAULT_ASSETS_DIR
  }

  /**
   * The bundle directory `from_resource_path` reads: an absolute resource path as
   * it is, any other one under the assets directory.
   */
  function FullPath(resourcePath: string, assetsDirEnv: Option<string>): (p: string)
    ensures IsAbsolute(resourcePath) ==> p == resourcePath
    ensures !IsAbsolute(resourcePath) ==> p == AssetsDir(assetsDirEnv) + "/" + resourcePath
    ensures |p| > 0 && (p[|p| - 1] == '/' <==> resourcePath == [] || resourcePath[|resourcePath| - 1] == '/')
  {
    if IsAbsolute(resourcePath) then resourcePath else AssetsDir(assetsDirEnv) + "/" + resourcePath
  }

  function MetadataPath(fullPath: string): string {
    fullPath + "/metadata.json"
  }

  // ---------------------------------------- Path::parent, for '/'-separated paths

  /**
   * Whether `p` ends in something `Path::parent` ignores: a separator, or a `.`
   * component that is not the leading one of a relative path.
   */
  predicate EndsInSeparatorOrDot(p: string) {
    p != [] && (p[|p| - 1] == '/' || (|p| >= 2 && p[|p| - 1] == '.' && p[|p| - 2] == '/'))
  }

  /** `p` without the trailing separators and `.` components `Path` does not count as components. */
  function TrimTrailing(s: string): (t: string)
    ensures |t| <= |s| && t == s[..|t|]
    ensures !EndsInSeparatorOrDot(t)
    ensures t == s <==> !EndsInSeparatorOrDot(s)
    ensures forall i :: |t| <= i < |s| ==> s[i] == '/' || s[i] == '.'
    decreases |s|
  {
    if EndsInSeparatorOrDot(s) then TrimTrailing(s[..|s| - 1]) else s
  }

  /** The index of the last '/' in `s`, if any. */
  function LastSlash(s: string): (r: Option<nat>)
    ensures r.Some? ==> r.value < |s| && s[r.value] == '/' && forall j :: r.value < j < |s| ==> s[j] != '/'
    ensures r.None? ==> forall j :: 0 <= j < |s| ==> s[j] != '/'
    decreases |s|
  {
    if s == [] then None
    else if s[|s| - 1] == '/' then Some(|s| - 1)
    else LastSlash(s[..|s| - 1])
  }

  /**
   * `Path::parent`: the path without its last component and the separators
   * and `.` components before it.  A component directly under the root has the
   * parent "/", a single relative component has the empty parent, and the root
   * and the empty path have none.
   */
  function Parent(path: string): (r: Option<string>)
    ensures r.None? <==> TrimTrailing(path) == []
    ensures r.Some? && r.value != "/" ==> |r.value| < |path| && r.value == path[..|r.value|]
    ensures r.Some? ==> !EndsInSeparatorOrDot(r.value) || r.value == "/"
  {
    var t := TrimTrailing(path);
    if t == [] then None
    else match LastSlash(t)
      case None => Some("")
      case Some(k) =>
        var head := TrimTrailing(t[..k]);
        if head == [] then Some("/") else Some(head)
  }

  lemma LastSlashAt(s: string, k: nat)
    requires k < |s| && s[k] == '/'
    requires forall j :: k < j < |s| ==> s[j] != '/'
    ensures LastSlash(s) == Some(k)
  {
  }

  /** `Parent` on a path that keeps its last separator at `k` and needs no trimming. */
  lemma ParentAt(p: string, k: nat)
    requires p != [] && !EndsInSeparatorOrDot(p)
    requires k < |p| && p[k] == '/' && forall j :: k < j < |p| ==> p[j] != '/'
    ensures var head := TrimTrailing(p[..k]);
            Parent(p) == Some(if head == [] then "/" else head)
  {
    LastSlashAt(p, k);
  }

  /**
   * The parent of `dir/name`, for one component `name` other than `.`, is
   * `dir` without its trailing separators and `.` components, or the root when
   * nothing of `dir` is left.
   */
  lemma ParentOfChild(dir: string, name: string)
    requires name != [] && name != "." && '/' !in name
    ensures var head := TrimTrailing(dir);
            Parent(dir + "/" + name) == Some(if head == [] then "/" else head)
  {
    var p := dir + "/" + name;
    var k := |dir|;
    assert p[k] == '/';
    forall j | k < j < |p| ensures p[j] != '/' {
      assert p[j] == name[j - k - 1];
    }
    assert p[|p| - 1] == name[|name| - 1] != '/';
    assert !EndsInSeparatorOrDot(p) by {
      if |name| == 1 {
        assert name == [name[0]];
      } else {
        assert p[|p| - 2] == name[|name| - 2] != '/';
      }
    }
    assert p[..k] == dir;
    ParentAt(p, k);
  }

  /** A metadata path always has a parent: the full path without its trailing separators and `.` components, or the root. */
  lemma ParentOfMetadataPath(fullPath: string)
    ensures Parent(MetadataPath(fullPath)).Some?
    ensures var head := TrimTrailing(fullPath);
            Parent(MetadataPath(fullPath)) == Some(if head == [] then "/" else head)
  {
    assert MetadataPath(fullPath) == fullPath + "/" + "metadata.json";
    ParentOfChild(fullPath, "metadata.json");
  }

  // ------------------------------------------------------------- the two loaders

  /**
   * `from_filename`: the record read from `filename`, remembering the file's
   * parent directory.  `loaded` is the outcome of opening and parsing the file.
   */
  function FromFilename(filename: string, loaded: Result<Metadata, LoadError>): (r: Result<Metadata, LoadError>)
    requires loaded.Ok? ==> Parent(filename).Some?
    ensures loaded.Err? ==> r == loaded
    ensures loaded.Ok? ==> r == Ok(loaded.value.(enclosingDirectory := Parent(filename).value))
  {
    match loaded
    case Err(e) => Err(e)
    case Ok(m) => Ok(m.(enclosingDirectory := Parent(filename).value))
  }

  /**
   * `from_resource_path`: the record read from the bundle's `metadata.json`,
   * remembering the bundle directory itself.  `loaded` is the outcome of opening
   * and parsing `MetadataPath(FullPath(resourcePath, assetsDirEnv))`.
   */
  function FromResourcePath(resourcePath: string, assetsDirEnv: Option<string>,
                            loaded: Result<Metadata, LoadError>): (r: Result<Metadata, LoadError>)
    ensures loaded.Err? ==> r == loaded
    ensures loaded.Ok? ==> r == Ok(loaded.value.(enclosingDirectory := FullPath(resourcePath, assetsDirEnv)))
  {
    var fullPath := FullPath(resourcePath, assetsDirEnv);
    var metadataPath := MetadataPath(fullPath);
    ParentOfMetadataPath(fullPath);
    match FromFilename(metadataPath, loaded)
    case Err(e) => Err(e)
    case Ok(m) => Ok(m.(enclosingDirectory := fullPath))
  }

  /**
   * The file `from_resource_path` reads is `metadata.json` inside the full path,
   * which is the resource path itself when absolute and lies under the assets
   * directory otherwise.
   */
  lemma MetadataFileLocation(resourcePath: string, assetsDirEnv: Option<string>)
    ensures var full := FullPath(resourcePath, assetsDirEnv);
            var p := MetadataPath(full);
            && p[..|full|] == full
            && p[|full|..] == "/metadata.json"
            && (!IsAbsolute(resourcePath) ==> p[..|AssetsDir(assetsDirEnv)| + 1] == AssetsDir(assetsDirEnv) + "/")
  {
  }

  /**
   * Overwriting `enclosing_directory` in `from_resource_path` changes a loaded
   * record exactly when the full path ends in a separator or a `.` component
   * (the root itself excepted): only then is the metadata file's parent
   * directory not the full path.
   */
  lemma EnclosingDirectoryAgrees(resourcePath: string, assetsDirEnv: Option<string>,
                                 loaded: Result<Metadata, LoadError>)
    requires loaded.Ok?
    ensures var full := FullPath(resourcePath, assetsDirEnv);
            FromResourcePath(resourcePath, assetsDirEnv, loaded) == FromFilename(MetadataPath(full), loaded)
            <==> full == "/" || !EndsInSeparatorOrDot(full)
  {
    var full := FullPath(resourcePath, assetsDirEnv);
    ParentOfMetadataPath(full);
    var parent := Parent(MetadataPath(full)).value;
    assert FromResourcePath(resourcePath, assetsDirEnv, loaded).value.enclosingDirectory == full;
    assert FromFilename(MetadataPath(full), loaded).value.enclosingDirectory == parent;
    if full == "/" || !EndsInSeparatorOrDot(full) {
      assert parent == full;
    } else {
      assert TrimTrailing(full) != full;
      assert parent != full;
    }
  }

  /** A trailing `.` component and the separator before it are dropped together. */
  lemma TrimDotComponent(dir: string)
    requires !EndsInSeparatorOrDot(dir)
    ensures TrimTrailing(dir + "/.") == dir
  {
    var d := dir + "/";
    assert (dir + "/.")[..|dir| + 1] == d;
    assert d[..|dir|] == dir;
  }

  /**
   * The resource path ".": the metadata file's parent is the assets directory
   * itself, and the overwrite replaces it with the assets directory followed by
   * "/.".  The default "../assets" meets the requirements.
   */
  lemma DotResourcePathIsOverwritten(assetsDirEnv: Option<string>, loaded: Result<Metadata, LoadError>)
    requires loaded.Ok? && AssetsDir(assetsDirEnv) != [] && !EndsInSeparatorOrDot(AssetsDir(assetsDirEnv))
    ensures FromFilename(MetadataPath(FullPath(".", assetsDirEnv)), loaded).value.enclosingDirectory
            == AssetsDir(assetsDirEnv)
    ensures FromResourcePath(".", assetsDirEnv, loaded).value.enclosingDirectory == AssetsDir(assetsDirEnv) + "/."
  {
    var dir := AssetsDir(assetsDirEnv);
    var full := FullPath(".", assetsDirEnv);
    assert !IsAbsolute(".");
    assert full == dir + "/.";
    ParentOfMetadataPath(full);
    TrimDotComponent(dir);
    assert Parent(MetadataPath(full)) == Some(dir);
  }
}
