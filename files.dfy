/**
 * The filesystem the library works against: a map from paths to file contents
 * and the set of directories known to exist. Errors are the exceptions the
 * exchange layer lets escape.
 */
module Files {
  import opened Wrappers
  import opened Codec

  type Path = string
  type FileMap = map<Path, seq<Byte>>

  datatype Error =
    | FileNotFound(path: Path)   // `open` or `os.remove` on a path that is not there
    | StructError(path: Path)    // `struct.unpack` on a read shorter than requested
    | NoIndexPath                // `self.index_path` was never set (AttributeError)

  /** The process-wide filesystem. */
  class FileSystem {
    var files: FileMap
    var dirs: set<Path>

    constructor (files: FileMap, dirs: set<Path>)
      ensures this.files == files && this.dirs == dirs
    {
      this.files := files;
      this.dirs := dirs;
    }
  }

  predicate NoSlash(s: string) { forall i :: 0 <= i < |s| ==> s[i] != '/' }

  /** Position of the last '/' in `p`, if any. */
  function LastSlash(p: Path): (r: Option<nat>)
    ensures r.None? ==> NoSlash(p)
    ensures r.Some? ==> r.value < |p| && p[r.value] == '/' && NoSlash(p[r.value + 1..])
  {
    if p == [] then None
    else if p[|p| - 1] == '/' then Some(|p| - 1)
    else
      var r := LastSlash(p[..|p| - 1]);
      assert r.Some? ==> p[r.value + 1..] == p[..|p| - 1][r.value + 1..] + [p[|p| - 1]];
      r
  }

  /** `str(Path(p).parent)`: everything before the last '/', "/" for a file at the
      root, "." when there is no '/'. */
  function Parent(p: Path): Path
  {
    match LastSlash(p)
    case None => "."
    case Some(i) => if i == 0 then "/" else p[..i]
  }

  /** The parent of `dir/name` is `dir`; a bare name lives in ".". The name is a
      real path component: not empty and not "." (pathlib drops both). */
  lemma ParentOfChild(dir: Path, name: string)
    requires dir != [] && dir[|dir| - 1] != '/'
    requires NoSlash(name) && name != "" && name != "."
    ensures Parent(dir + "/" + name) == dir
    ensures Parent(name) == "."
  {
    var p := dir + "/" + name;
    assert p[|dir|] == '/';
    assert p[|dir| + 1..] == name;
    var i := LastSlash(p).value;
    assert i == |dir|;
    assert p[..i] == dir;
  }
}
