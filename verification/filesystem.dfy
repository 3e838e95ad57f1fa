/** An abstract file system: regular files with contents and permission bits, and a set of
    directories. Every OS call the organizer makes is one method of `Fs`, and each can fail,
    either for a reason visible in the state (a missing source, a missing parent directory)
    or because the caller-supplied `fail` flag says the OS refused. */
module FileSystem {
  import opened Wrappers

  /** A path as its list of components; `[]` is the root. */
  type Path = seq<string>

  newtype byte = x: int | 0 <= x < 256

  /** A regular file: its bytes and its permission bits. */
  datatype File = File(data: seq<byte>, mode: nat)

  /** Permission bits `os.Create` gives a new file (0o666). */
  const CREATE_MODE: nat := 438

  /** `filepath.Join(dir, name)` for a single-component name. This is a definition: its
      ensures only make its shape available to the other proofs. */
  function Join(dir: Path, name: string): (p: Path)
    ensures |p| == |dir| + 1 && p[..|dir|] == dir && p[|dir|] == name
  {
    dir + [name]
  }

  /** `filepath.Dir`: the parent directory; the root is its own parent. A definition, like
      `Join`; its ensures only make its shape available to the other proofs. */
  function Dir(p: Path): (d: Path)
    ensures p != [] ==> |d| == |p| - 1 && d == p[..|p| - 1]
    ensures p == [] ==> d == []
  {
    if p == [] then [] else p[..|p| - 1]
  }

  lemma DirOfJoin(dir: Path, name: string)
    ensures Dir(Join(dir, name)) == dir
  {
  }

  /** A directory and all the directories above it, the root included. */
  function Ancestors(d: Path): (a: set<Path>)
    ensures d in a && [] in a
    ensures forall p :: p in a ==> |p| <= |d| && p == d[..|p|]
    ensures forall k :: 0 <= k <= |d| ==> d[..k] in a
  {
    assert d[..|d|] == d;
    assert d[..0] == [];
    set k | 0 <= k <= |d| :: d[..k]
  }

  /** The state of the file system. */
  datatype FsState = FsState(files: map<Path, File>, dirs: set<Path>)
  {
    /** The root exists, no path is both a file and a directory, and everything but the
        root sits in an existing directory. */
    ghost predicate Valid() {
      [] in dirs
      && (forall p :: p in files ==> p !in dirs && Dir(p) in dirs)
      && (forall p :: p in dirs ==> Dir(p) in dirs)
    }

    /** Something, file or directory, exists at `p` (`os.Stat` succeeds). */
    predicate Exists(p: Path) {
      p in files || p in dirs
    }

    /** `os.MkdirAll(d)` cannot succeed: `d` or a directory above it is a regular file. */
    predicate MkdirBlocked(d: Path) {
      exists k :: 0 <= k <= |d| && d[..k] in files
    }

    /** The state after `os.MkdirAll(d)` succeeds. */
    function WithDirs(d: Path): (s: FsState)
      ensures s.files == files && s.dirs == dirs + Ancestors(d)
    {
      FsState(files, dirs + Ancestors(d))
    }

    /** `os.Rename(src, dst)` can succeed: the source is a file and the destination's
        parent is a directory and the destination is not one. */
    predicate CanRename(src: Path, dst: Path) {
      src in files && Dir(dst) in dirs && dst !in dirs
    }

    /** The state after a successful rename: the source's file now lives at `dst`,
        replacing whatever file was there. */
    function Renamed(src: Path, dst: Path): (s: FsState)
      requires src in files
      ensures s.dirs == dirs && dst in s.files && s.files[dst] == files[src]
      ensures src != dst ==> src !in s.files
      ensures forall p :: p != src && p != dst ==> (p in s.files <==> p in files)
      ensures forall p :: p in files && p != src && p != dst ==> s.files[p] == files[p]
    {
      FsState((files - {src})[dst := files[src]], dirs)
    }

    /** `os.Create(dst)` can succeed: the parent is a directory and `dst` is not one. */
    predicate CanCreate(dst: Path) {
      Dir(dst) in dirs && dst !in dirs
    }

    /** The state after `os.Create(dst)`: an empty file at `dst`; an existing file is
        truncated and keeps its permission bits. */
    function Created(dst: Path): (s: FsState)
      ensures s.dirs == dirs && dst in s.files && s.files[dst].data == []
      ensures s.files[dst].mode == if dst in files then files[dst].mode else CREATE_MODE
      ensures forall p :: p != dst ==> (p in s.files <==> p in files)
      ensures forall p :: p in files && p != dst ==> s.files[p] == files[p]
    {
      FsState(files[dst := File([], if dst in files then files[dst].mode else CREATE_MODE)], dirs)
    }

    /** The state after the bytes `data` are written into the open file `dst`. */
    function Written(dst: Path, data: seq<byte>): (s: FsState)
      requires dst in files
      ensures s.dirs == dirs && s.files.Keys == files.Keys
      ensures s.files[dst] == File(data, files[dst].mode)
      ensures forall p :: p in files && p != dst ==> s.files[p] == files[p]
    {
      FsState(files[dst := File(data, files[dst].mode)], dirs)
    }

    /** The state after `os.Chmod(dst, mode)` on a file. */
    function Chmodded(dst: Path, mode: nat): (s: FsState)
      requires dst in files
      ensures s.dirs == dirs && s.files.Keys == files.Keys
      ensures s.files[dst] == File(files[dst].data, mode)
      ensures forall p :: p in files && p != dst ==> s.files[p] == files[p]
    {
      FsState(files[dst := File(files[dst].data, mode)], dirs)
    }

    /** The state after `os.Remove(p)` on a file. */
    function Removed(p: Path): (s: FsState)
      ensures s.dirs == dirs && s.files.Keys == files.Keys - {p}
      ensures forall q :: q in s.files ==> s.files[q] == files[q]
    {
      FsState(files - {p}, dirs)
    }
  }

  /** The live file system the organizer works on. */
  class Fs {
    var files: map<Path, File>
    var dirs: set<Path>

    function State(): FsState
      reads this
    {
      FsState(files, dirs)
    }

    constructor (s: FsState)
      ensures State() == s
    {
      files, dirs := s.files, s.dirs;
    }

    /** `os.MkdirAll(d, 0o755)`: creates `d` and every missing directory above it. */
    method MkdirAll(d: Path, fail: bool) returns (ok: bool)
      modifies this
      ensures ok == (!fail && !old(State()).MkdirBlocked(d))
      ensures State() == if ok then old(State()).WithDirs(d) else old(State())
    {
      ok := !fail && !State().MkdirBlocked(d);
      if ok {
        dirs := dirs + Ancestors(d);
      }
    }

    /** `os.Stat(p)` reports whether anything exists at `p`. */
    method Stat(p: Path) returns (exists_: bool)
      ensures exists_ == State().Exists(p)
    {
      exists_ := p in files || p in dirs;
    }

    /** `os.Rename(src, dst)`. */
    method Rename(src: Path, dst: Path, fail: bool) returns (ok: bool)
      modifies this
      ensures ok == (!fail && old(State()).CanRename(src, dst))
      ensures State() == if ok then old(State()).Renamed(src, dst) else old(State())
    {
      ok := !fail && src in files && Dir(dst) in dirs && dst !in dirs;
      if ok {
        files := (files - {src})[dst := files[src]];
      }
    }

    /** `os.Open(src)` for reading; it changes nothing. */
    method Open(src: Path, fail: bool) returns (ok: bool)
      ensures ok == (!fail && src in State().files)
    {
      ok := !fail && src in files;
    }

    /** `os.Create(dst)`: creates or truncates the file `dst`. */
    method Create(dst: Path, fail: bool) returns (ok: bool)
      modifies this
      ensures ok == (!fail && old(State()).CanCreate(dst))
      ensures State() == if ok then old(State()).Created(dst) else old(State())
    {
      ok := !fail && Dir(dst) in dirs && dst !in dirs;
      if ok {
        files := files[dst := File([], if dst in files then files[dst].mode else CREATE_MODE)];
      }
    }

    /** `io.Copy(dst, src)` between two open files. When `fail` is set the stream breaks
        after at most `written` bytes, which stay in `dst`. */
    method Stream(src: Path, dst: Path, fail: bool, written: nat) returns (ok: bool)
      requires src in files && dst in files
      modifies this
      ensures ok == !fail
      ensures var data := old(files)[src].data;
              State() == old(State()).Written(dst, if ok then data else data[..Min(written, |data|)])
    {
      var data := files[src].data;
      ok := !fail;
      var sent := if ok then data else data[..Min(written, |data|)];
      files := files[dst := File(sent, files[dst].mode)];
    }

    /** `os.Stat(src)` for its permission bits. */
    method StatMode(src: Path, fail: bool) returns (mode: Option<nat>)
      ensures mode.Some? <==> !fail && src in State().files
      ensures mode.Some? ==> mode.value == State().files[src].mode
    {
      if !fail && src in files {
        mode := Some(files[src].mode);
      } else {
        mode := None;
      }
    }

    /** `os.Chmod(dst, mode)` on a file. */
    method Chmod(dst: Path, mode: nat, fail: bool) returns (ok: bool)
      modifies this
      ensures ok == (!fail && dst in old(State()).files)
      ensures State() == if ok then old(State()).Chmodded(dst, mode) else old(State())
    {
      ok := !fail && dst in files;
      if ok {
        files := files[dst := File(files[dst].data, mode)];
      }
    }

    /** `os.Remove(p)` on a file. */
    method Remove(p: Path, fail: bool) returns (ok: bool)
      modifies this
      ensures ok == (!fail && p in old(State()).files)
      ensures State() == if ok then old(State()).Removed(p) else old(State())
    {
      ok := !fail && p in files;
      if ok {
        files := files - {p};
      }
    }
  }

  function Min(a: nat, b: nat): nat {
    if a <= b then a else b
  }

  /** Each successful OS step keeps the file system well formed. */
  lemma StepsPreserveValid(s: FsState, src: Path, dst: Path, d: Path, data: seq<byte>, mode: nat)
    requires s.Valid()
    ensures !s.MkdirBlocked(d) ==> s.WithDirs(d).Valid()
    ensures s.CanRename(src, dst) ==> s.Renamed(src, dst).Valid()
    ensures s.CanCreate(dst) ==> s.Created(dst).Valid()
    ensures dst in s.files ==> s.Written(dst, data).Valid() && s.Chmodded(dst, mode).Valid()
    ensures s.Removed(src).Valid()
  {
    if !s.MkdirBlocked(d) {
      var t := s.WithDirs(d);
      forall p | p in t.dirs ensures Dir(p) in t.dirs {
        if p in Ancestors(d) && p != [] {
          assert Dir(p) == d[..|p| - 1];
        }
      }
    }
  }

  /** In a well-formed state every directory above a directory is a directory too, so
      `os.MkdirAll` of an existing directory is never blocked by a regular file. */
  lemma {:induction false} DirsClosedUnderPrefix(s: FsState, d: Path)
    requires s.Valid() && d in s.dirs
    ensures forall k :: 0 <= k <= |d| ==> d[..k] in s.dirs
    ensures !s.MkdirBlocked(d)
    decreases |d|
  {
    if d != [] {
      DirsClosedUnderPrefix(s, Dir(d));
      forall k | 0 <= k <= |d| ensures d[..k] in s.dirs {
        if k < |d| {
          assert d[..k] == Dir(d)[..k];
        } else {
          assert d[..k] == d;
        }
      }
    } else {
      assert d[..0] == d;
    }
  }
}
