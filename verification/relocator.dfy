/** The file relocator: move one file to its destination path, by rename when possible and
    otherwise by copy, permission copy and removal of the source. */
module Relocator {
  import opened Wrappers
  import opened FileSystem

  /** Which OS steps refuse during one relocation. `written` is how many bytes reach the
      destination before a broken stream stops. */
  datatype Faults = Faults(
    mkdir: bool, rename: bool, open: bool, create: bool,
    stream: bool, written: nat, stat: bool, chmod: bool, remove: bool)

  /** Why `copyFile` failed. */
  datatype CopyError = OpenFailed | CreateFailed | StreamFailed | StatFailed | ChmodFailed

  /** Why `moveFile` failed. */
  datatype MoveError = MkdirFailed | AlreadyExists | CopyFailed(cause: CopyError) | RemoveFailed

  /** What an operation returned together with the state it left behind. */
  datatype Effect<+E> = Effect(outcome: Outcome<E>, state: FsState)

  /** The effect of `copyFile(src, dst)`: open the source, create the destination, stream the
      bytes, read the source's permission bits and set them on the destination. A copy
      makes no directory; it changes nothing when it fails before the destination is created;
      when it succeeds, the destination is an exact copy of the source, bytes and permission
      bits. */
  function CopySpec(s: FsState, src: Path, dst: Path, f: Faults): (r: Effect<CopyError>)
    ensures r.state.dirs == s.dirs
    ensures r.outcome == Fail(OpenFailed) || r.outcome == Fail(CreateFailed) ==> r.state == s
    ensures r.outcome.Pass? ==> src in s.files && dst in r.state.files
    ensures r.outcome.Pass? && src != dst ==> r.state.files[dst] == s.files[src]
  {
    if f.open || src !in s.files then Effect(Fail(OpenFailed), s)
    else if f.create || !s.CanCreate(dst) then Effect(Fail(CreateFailed), s)
    else
      var created := s.Created(dst);
      var data := created.files[src].data;
      if f.stream then Effect(Fail(StreamFailed), created.Written(dst, data[..Min(f.written, |data|)]))
      else
        var copied := created.Written(dst, data);
        if f.stat then Effect(Fail(StatFailed), copied)
        else if f.chmod then Effect(Fail(ChmodFailed), copied)
        else Effect(Pass, copied.Chmodded(dst, copied.files[src].mode))
  }

  /** The effect of `moveFile(src, dst)`. A failure to make the destination's directories
      changes nothing; a destination that exists after they are made changes no file; a
      successful move takes the source away and leaves a file at the destination. */
  function MoveSpec(s: FsState, src: Path, dst: Path, f: Faults): (r: Effect<MoveError>)
    ensures r.outcome == Fail(MkdirFailed) ==> r.state == s
    ensures r.outcome == Fail(AlreadyExists) ==> r.state.files == s.files
    ensures r.outcome.Pass? ==> src in s.files && src !in r.state.files && dst in r.state.files
  {
    if f.mkdir || s.MkdirBlocked(Dir(dst)) then Effect(Fail(MkdirFailed), s)
    else
      var withDir := s.WithDirs(Dir(dst));
      if withDir.Exists(dst) then Effect(Fail(AlreadyExists), withDir)
      else if !f.rename && withDir.CanRename(src, dst) then Effect(Pass, withDir.Renamed(src, dst))
      else
        var copy := CopySpec(withDir, src, dst, f);
        if copy.outcome.Fail? then Effect(Fail(CopyFailed(copy.outcome.error)), copy.state)
        else if f.remove || src !in copy.state.files then Effect(Fail(RemoveFailed), copy.state)
        else Effect(Pass, copy.state.Removed(src))
  }

  /** `copyFile`. */
  method CopyFile(fs: Fs, src: Path, dst: Path, f: Faults) returns (r: Outcome<CopyError>)
    modifies fs
    ensures Effect(r, fs.State()) == CopySpec(old(fs.State()), src, dst, f)
  {
    var ok := fs.Open(src, f.open);
    if !ok {
      return Fail(OpenFailed);
    }
    ok := fs.Create(dst, f.create);
    if !ok {
      return Fail(CreateFailed);
    }
    ok := fs.Stream(src, dst, f.stream, f.written);
    if !ok {
      return Fail(StreamFailed);
    }
    var mode := fs.StatMode(src, f.stat);
    if mode.None? {
      return Fail(StatFailed);
    }
    ok := fs.Chmod(dst, mode.value, f.chmod);
    if !ok {
      return Fail(ChmodFailed);
    }
    return Pass;
  }

  /** `moveFile`. */
  method MoveFile(fs: Fs, src: Path, dst: Path, f: Faults) returns (r: Outcome<MoveError>)
    modifies fs
    ensures Effect(r, fs.State()) == MoveSpec(old(fs.State()), src, dst, f)
  {
    var ok := fs.MkdirAll(Dir(dst), f.mkdir);
    if !ok {
      return Fail(MkdirFailed);
    }
    var exists_ := fs.Stat(dst);
    if exists_ {
      return Fail(AlreadyExists);
    }
    ok := fs.Rename(src, dst, f.rename);
    if ok {
      return Pass;
    }
    var copied := CopyFile(fs, src, dst, f);
    if copied.Fail? {
      return Fail(CopyFailed(copied.error));
    }
    ok := fs.Remove(src, f.remove);
    if !ok {
      return Fail(RemoveFailed);
    }
    return Pass;
  }

  /** A move never changes or deletes any file other than its source, and when something
      already exists at the destination it fails and changes no file at all; in a well-formed
      state whose directories can be made, that failure is `AlreadyExists`. */
  lemma MoveNeverOverwrites(s: FsState, src: Path, dst: Path, f: Faults)
    ensures var r := MoveSpec(s, src, dst, f);
            forall p :: p in s.files && p != src ==> p in r.state.files && r.state.files[p] == s.files[p]
    ensures s.Exists(dst) ==> var r := MoveSpec(s, src, dst, f);
            r.outcome.Fail? && r.state.files == s.files
    ensures s.dirs <= MoveSpec(s, src, dst, f).state.dirs
    ensures s.Valid() && !f.mkdir && s.Exists(dst) ==>
              MoveSpec(s, src, dst, f).outcome == Fail(AlreadyExists)
  {
    if s.Valid() && s.Exists(dst) {
      DirsClosedUnderPrefix(s, Dir(dst));
    }
  }

  /** A successful move leaves the source's bytes and permission bits at the destination and
      no file at the source, and creates the destination's directories; nothing else changes. */
  lemma MoveSuccess(s: FsState, src: Path, dst: Path, f: Faults)
    ensures var r := MoveSpec(s, src, dst, f);
            r.outcome.Pass? ==>
              src in s.files && !s.Exists(dst) && src != dst
              && r.state.files == (s.files - {src})[dst := s.files[src]]
              && r.state.dirs == s.dirs + Ancestors(Dir(dst))
  {
  }

  /** A failed move leaves the source where it was, and adds at most the destination file,
      which then holds a prefix of the source's bytes (all of them when only the final removal,
      or the copy's mode step, failed). A directory failure changes nothing at all. */
  lemma MoveFailureKeepsSource(s: FsState, src: Path, dst: Path, f: Faults)
    ensures var r := MoveSpec(s, src, dst, f);
            r.outcome.Fail? ==>
              (src in s.files ==> src in r.state.files && r.state.files[src] == s.files[src])
              && r.state.files.Keys <= s.files.Keys + {dst}
              && (dst in r.state.files && dst !in s.files ==>
                    src in s.files && r.state.files[dst].data <= s.files[src].data)
    ensures var r := MoveSpec(s, src, dst, f);
            r.outcome == Fail(RemoveFailed) ==> r.state.files[dst] == s.files[src]
    ensures var r := MoveSpec(s, src, dst, f);
            r.outcome == Fail(CopyFailed(StatFailed)) || r.outcome == Fail(CopyFailed(ChmodFailed)) ==>
              src in s.files && dst in r.state.files && r.state.files[dst].data == s.files[src].data
    ensures var r := MoveSpec(s, src, dst, f);
            r.outcome == Fail(MkdirFailed) ==> r.state == s
  {
  }

  /** When the rename is refused but every other step works, the copy fallback still
      relocates the file exactly: same bytes, same permission bits, no source left. */
  lemma FallbackRelocates(s: FsState, src: Path, dst: Path, f: Faults)
    requires s.Valid()
    requires f == Faults(false, true, false, false, false, f.written, false, false, false)
    requires src in s.files && !s.Exists(dst) && !s.MkdirBlocked(Dir(dst))
    ensures MoveSpec(s, src, dst, f)
            == Effect(Pass, FsState((s.files - {src})[dst := s.files[src]], s.dirs + Ancestors(Dir(dst))))
  {
    assert dst != [];
    var withDir := s.WithDirs(Dir(dst));
    assert dst !in Ancestors(Dir(dst));
    assert withDir.CanCreate(dst);
    MoveSuccess(s, src, dst, f);
  }

  /** A copy keeps a well-formed file system well formed, whatever it returns. */
  lemma CopyPreservesValid(s: FsState, src: Path, dst: Path, f: Faults)
    requires s.Valid()
    ensures CopySpec(s, src, dst, f).state.Valid()
  {
    if !(f.open || src !in s.files) && !(f.create || !s.CanCreate(dst)) {
      var created := s.Created(dst);
      assert created.Valid() by {
        StepsPreserveValid(s, src, dst, [], [], 0);
      }
      var data := created.files[src].data;
      var partial := data[..Min(f.written, |data|)];
      assert created.Written(dst, partial).Valid() by {
        StepsPreserveValid(created, src, dst, [], partial, 0);
      }
      var copied := created.Written(dst, data);
      assert copied.Valid() by {
        StepsPreserveValid(created, src, dst, [], data, 0);
      }
      assert copied.Chmodded(dst, copied.files[src].mode).Valid() by {
        StepsPreserveValid(copied, src, dst, [], data, copied.files[src].mode);
      }
    }
  }

  /** A move keeps a well-formed file system well formed, whatever it returns. */
  lemma MovePreservesValid(s: FsState, src: Path, dst: Path, f: Faults)
    requires s.Valid()
    ensures MoveSpec(s, src, dst, f).state.Valid()
  {
    var d := Dir(dst);
    if !(f.mkdir || s.MkdirBlocked(d)) {
      var withDir := s.WithDirs(d);
      assert withDir.Valid() by {
        StepsPreserveValid(s, src, dst, d, [], 0);
      }
      assert withDir.CanRename(src, dst) ==> withDir.Renamed(src, dst).Valid() by {
        StepsPreserveValid(withDir, src, dst, d, [], 0);
      }
      var copy := CopySpec(withDir, src, dst, f);
      CopyPreservesValid(withDir, src, dst, f);
      assert copy.state.Removed(src).Valid() by {
        StepsPreserveValid(copy.state, src, dst, d, [], 0);
      }
    }
  }
}
