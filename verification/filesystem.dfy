/**
  An abstract, read-only view of the disk as the validator sees it, and the
  POSIX rule of boost::filesystem's `path /= name`.
*/
module Filesystem {
  import opened Wrappers

  /** What a successful status lookup reports about an existing path. */
  datatype FileKind = Directory | RegularFile | OtherKind

  /** A path's status: it exists with some kind, or looking it up faults
      (permission denied, I/O error) with the given description. */
  datatype Entry = Present(kind: FileKind) | Inaccessible(what: string)

  /** The disk at one instant; a path that is not a key does not exist. */
  datatype Snapshot = Snapshot(entries: map<string, Entry>)

  /** True when `p` exists in `fs` and has kind `kind`. */
  predicate Exists(fs: Snapshot, p: string, kind: FileKind) {
    p in fs.entries && fs.entries[p] == Present(kind)
  }

  /** True when looking `p` up in `fs` faults. */
  predicate Faults(fs: Snapshot, p: string) {
    p in fs.entries && fs.entries[p].Inaccessible?
  }

  /** The kind query behind fs::is_directory and fs::is_regular_file: a path
      that does not exist answers false, a lookup fault is raised as a
      filesystem error carrying its description. */
  function HasKind(fs: Snapshot, p: string, kind: FileKind): (r: Result<bool, string>)
    ensures r.Failure? <==> Faults(fs, p)
    ensures r.Failure? ==> r.error == fs.entries[p].what
    ensures r == Success(true) <==> Exists(fs, p, kind)
  {
    if p !in fs.entries then Success(false)
    else match fs.entries[p]
      case Inaccessible(what) => Failure(what)
      case Present(k) => Success(k == kind)
  }

  function IsDirectory(fs: Snapshot, p: string): Result<bool, string> {
    HasKind(fs, p, Directory)
  }

  function IsRegularFile(fs: Snapshot, p: string): Result<bool, string> {
    HasKind(fs, p, RegularFile)
  }

  /** `dir /= name` on POSIX: a '/' is inserted only when both parts are
      non-empty and neither already supplies the separator. */
  function Join(dir: string, name: string): (p: string)
    ensures dir <= p
    ensures |p| >= |name| && p[|p| - |name|..] == name
    ensures |p| == |dir| + |name| || (|p| == |dir| + 1 + |name| && p[|dir|] == '/')
    ensures name != "" ==> p != dir
  {
    if name == [] then dir
    else if dir != [] && dir[|dir| - 1] != '/' && name[0] != '/' then dir + "/" + name
    else dir + name
  }
}
