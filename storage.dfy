/**
 * The part of the filesystem the detector touches: files addressed by (directory, name) and a set
 * of directories. The pure functions give the effect of each `os`/`shutil` call; the class
 * `FileSystem` performs the same calls in place, one step at a time.
 */
module Storage {
  import opened Wrappers
  import opened Errors

  type Bytes = seq<bv8>

  /** A file inside a directory; `Join` renders it as `os.path.join` does. */
  datatype FilePath = FilePath(dir: string, name: string)

  function Join(p: FilePath): string
  {
    p.dir + "/" + p.name
  }

  datatype Disk = Disk(files: map<FilePath, Bytes>, dirs: set<string>)

  /** Every file lives in an existing directory. */
  predicate WellFormed(d: Disk)
  {
    forall p :: p in d.files ==> p.dir in d.dirs
  }

  /** No file lives in `dir`. */
  predicate IsEmptyDir(d: Disk, dir: string)
  {
    forall p :: p in d.files ==> p.dir != dir
  }

  /** `NamedTemporaryFile(delete=False)` opening a new, empty file; raises when its directory is missing. */
  function CreateOn(d: Disk, p: FilePath): (Outcome<Error>, Disk)
  {
    if p.dir in d.dirs then (Pass, Disk(d.files[p := []], d.dirs))
    else (Fail(FileNotFound(Join(p))), d)
  }

  /** `temp_file.write(data)`; `accepted` is whether the device takes the bytes. A refused write
      leaves the file as it was. */
  function WriteOn(d: Disk, p: FilePath, data: Bytes, accepted: bool): (Outcome<Error>, Disk)
  {
    if accepted then (Pass, Disk(d.files[p := data], d.dirs))
    else (Fail(WriteFailed(Join(p))), d)
  }

  /** Leaving the `with` block closes the file and flushes what is still buffered; `flushed` is whether
      the device takes it. A refused flush raises and leaves the file as it was. */
  function CloseOn(d: Disk, p: FilePath, flushed: bool): (Outcome<Error>, Disk)
  {
    if flushed then (Pass, d) else (Fail(WriteFailed(Join(p))), d)
  }

  /**
   * `shutil.copy2(src, dst)`: overwrites `dst`; raises when `src` or the target directory is
   * missing. When the device refuses the bytes (`accepted` false), `dst` has already been opened
   * and truncated: it is left empty and the copy raises.
   */
  function CopyOn(d: Disk, src: FilePath, dst: FilePath, accepted: bool): (Outcome<Error>, Disk)
  {
    if src !in d.files then (Fail(FileNotFound(Join(src))), d)
    else if dst.dir !in d.dirs then (Fail(FileNotFound(Join(dst))), d)
    else if !accepted then (Fail(WriteFailed(Join(dst))), Disk(d.files[dst := []], d.dirs))
    else (Pass, Disk(d.files[dst := d.files[src]], d.dirs))
  }

  /** `os.unlink(p)`: raises when there is no such file. */
  function UnlinkOn(d: Disk, p: FilePath): (Outcome<Error>, Disk)
  {
    if p in d.files then (Pass, Disk(d.files - {p}, d.dirs))
    else (Fail(FileNotFound(Join(p))), d)
  }

  /** `os.rmdir(dir)`: raises when the directory is missing or still holds a file. */
  function RmdirOn(d: Disk, dir: string): (Outcome<Error>, Disk)
  {
    if dir !in d.dirs then (Fail(FileNotFound(dir)), d)
    else if !IsEmptyDir(d, dir) then (Fail(DirectoryNotEmpty(dir)), d)
    else (Pass, Disk(d.files, d.dirs - {dir}))
  }

  /** Writing the files `outs`, in order, into `dir`. */
  function WriteAllOn(d: Disk, dir: string, outs: seq<(string, Bytes)>): (r: Disk)
    decreases |outs|
  {
    if outs == [] then d
    else
      var n := |outs| - 1;
      var before := WriteAllOn(d, dir, outs[..n]);
      Disk(before.files[FilePath(dir, outs[n].0) := outs[n].1], before.dirs)
  }

  /** The names of written files, in the order they were written. */
  function Names(outs: seq<(string, Bytes)>): (names: seq<string>)
    ensures |names| == |outs| && forall i :: 0 <= i < |outs| ==> names[i] == outs[i].0
  {
    seq(|outs|, i requires 0 <= i < |outs| => outs[i].0)
  }

  predicate DistinctNames(outs: seq<(string, Bytes)>)
  {
    forall i, j :: 0 <= i < j < |outs| ==> outs[i].0 != outs[j].0
  }

  /** After writing: exactly the earlier files plus one file per written name; the directory set is unchanged. */
  lemma {:induction false} WriteAllFiles(d: Disk, dir: string, outs: seq<(string, Bytes)>, p: FilePath)
    ensures WriteAllOn(d, dir, outs).dirs == d.dirs
    ensures p in WriteAllOn(d, dir, outs).files <==> p in d.files || (p.dir == dir && p.name in Names(outs))
    ensures p.dir != dir && p in d.files ==> WriteAllOn(d, dir, outs).files[p] == d.files[p]
    decreases |outs|
  {
    if outs != [] {
      var n := |outs| - 1;
      WriteAllFiles(d, dir, outs[..n], p);
      assert Names(outs) == Names(outs[..n]) + [outs[n].0];
    }
  }

  /** With distinct names, each written file holds exactly the bytes written under its name. */
  lemma {:induction false} WriteAllContent(d: Disk, dir: string, outs: seq<(string, Bytes)>, i: nat)
    requires DistinctNames(outs) && i < |outs|
    ensures FilePath(dir, outs[i].0) in WriteAllOn(d, dir, outs).files
    ensures WriteAllOn(d, dir, outs).files[FilePath(dir, outs[i].0)] == outs[i].1
    decreases |outs|
  {
    var n := |outs| - 1;
    if i < n {
      WriteAllContent(d, dir, outs[..n], i);
    }
  }

  /** The directory a backend run created and filled, as `os.listdir` sees it. */
  lemma ListingMatchesDisk(d: Disk, dir: string, outs: seq<(string, Bytes)>)
    requires IsEmptyDir(d, dir)
    ensures forall name :: FilePath(dir, name) in WriteAllOn(d, dir, outs).files <==> name in Names(outs)
  {
    forall name
      ensures FilePath(dir, name) in WriteAllOn(d, dir, outs).files <==> name in Names(outs)
    {
      WriteAllFiles(d, dir, outs, FilePath(dir, name));
    }
  }

  /** The filesystem as the detector sees it, changed in place by each call. */
  class FileSystem {
    var files: map<FilePath, Bytes>
    var dirs: set<string>

    function State(): Disk
      reads this
    {
      Disk(files, dirs)
    }

    ghost predicate Valid()
      reads this
    {
      WellFormed(State())
    }

    constructor (initial: Disk)
      requires WellFormed(initial)
      ensures Valid() && State() == initial
    {
      files := initial.files;
      dirs := initial.dirs;
    }

    method CreateFile(p: FilePath) returns (r: Outcome<Error>)
      requires Valid()
      modifies this
      ensures Valid()
      ensures (r, State()) == CreateOn(old(State()), p)
    {
      if p.dir in dirs {
        files := files[p := []];
        r := Pass;
      } else {
        r := Fail(FileNotFound(Join(p)));
      }
    }

    method WriteFile(p: FilePath, data: Bytes, accepted: bool) returns (r: Outcome<Error>)
      requires Valid() && p in files
      modifies this
      ensures Valid()
      ensures (r, State()) == WriteOn(old(State()), p, data, accepted)
    {
      if accepted {
        files := files[p := data];
        r := Pass;
      } else {
        r := Fail(WriteFailed(Join(p)));
      }
    }

    method Close(p: FilePath, flushed: bool) returns (r: Outcome<Error>)
      requires Valid()
      ensures (r, State()) == CloseOn(State(), p, flushed)
    {
      if flushed {
        r := Pass;
      } else {
        r := Fail(WriteFailed(Join(p)));
      }
    }

    method Copy(src: FilePath, dst: FilePath, accepted: bool) returns (r: Outcome<Error>)
      requires Valid()
      modifies this
      ensures Valid()
      ensures (r, State()) == CopyOn(old(State()), src, dst, accepted)
    {
      if src !in files {
        r := Fail(FileNotFound(Join(src)));
      } else if dst.dir !in dirs {
        r := Fail(FileNotFound(Join(dst)));
      } else if !accepted {
        files := files[dst := []];
        r := Fail(WriteFailed(Join(dst)));
      } else {
        files := files[dst := files[src]];
        r := Pass;
      }
    }

    method Unlink(p: FilePath) returns (r: Outcome<Error>)
      requires Valid()
      modifies this
      ensures Valid()
      ensures (r, State()) == UnlinkOn(old(State()), p)
    {
      if p in files {
        files := files - {p};
        r := Pass;
      } else {
        r := Fail(FileNotFound(Join(p)));
      }
    }

    method Rmdir(dir: string) returns (r: Outcome<Error>)
      requires Valid()
      modifies this
      ensures Valid()
      ensures (r, State()) == RmdirOn(old(State()), dir)
    {
      if dir !in dirs {
        r := Fail(FileNotFound(dir));
      } else if exists p :: p in files && p.dir == dir {
        r := Fail(DirectoryNotEmpty(dir));
      } else {
        dirs := dirs - {dir};
        r := Pass;
      }
    }

    /** Creating `dir` and writing `outs` into it, one file after another. */
    method MakeDirWith(dir: string, outs: seq<(string, Bytes)>)
      requires Valid()
      modifies this
      ensures Valid()
      ensures State() == WriteAllOn(Disk(old(files), old(dirs) + {dir}), dir, outs)
    {
      dirs := dirs + {dir};
      ghost var start := State();
      var i := 0;
      while i < |outs|
        invariant 0 <= i <= |outs|
        invariant Valid() && dir in dirs
        invariant State() == WriteAllOn(start, dir, outs[..i])
      {
        assert outs[..i + 1][..i] == outs[..i];
        files := files[FilePath(dir, outs[i].0) := outs[i].1];
        i := i + 1;
      }
      assert outs[..i] == outs;
    }
  }
}
