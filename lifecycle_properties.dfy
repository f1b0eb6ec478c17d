/**
 * What a detection request leaves on disk, on every exit path of the lifecycle in module Lifecycle.
 */
module LifecycleProperties {
  import opened Wrappers
  import opened Errors
  import opened Models
  import opened Normalizer
  import opened Resolver
  import opened Strings
  import opened Storage
  import opened Lifecycle

  /** The disk once the input is staged and the backend has written its outputs. */
  function AfterBackend(d: Disk, temp: FilePath, data: Bytes, saveDir: string, outs: seq<(string, Bytes)>): Disk
  {
    Produce(Disk(d.files[temp := data], d.dirs), saveDir, outs)
  }

  /** Writing outputs into `dir` commutes with removing a file that lies elsewhere. */
  lemma {:induction false} WriteAllRemove(f: map<FilePath, Bytes>, ds: set<string>, dir: string,
                                          outs: seq<(string, Bytes)>, t: FilePath)
    requires t.dir != dir
    ensures WriteAllOn(Disk(f, ds), dir, outs).files - {t} == WriteAllOn(Disk(f - {t}, ds), dir, outs).files
    ensures WriteAllOn(Disk(f, ds), dir, outs).dirs == ds
    decreases |outs|
  {
    if outs != [] {
      WriteAllRemove(f, ds, dir, outs[..|outs| - 1], t);
    }
  }

  /** `saveDir` is new and lies under `temp/`: it is neither `static` nor the staged file's directory. */
  lemma SaveDirIsFresh(d: Disk, temp: FilePath, suffix: string, run: BackendRun)
    requires Environment(d, temp, suffix, run) && run.Returned? && temp.dir in d.dirs
    ensures temp.dir != run.saveDir && StaticDir != run.saveDir
  {
    assert run.saveDir[0] == 't' by { assert run.saveDir[..5] == "temp/"; }
    assert StaticDir[0] == 's';
  }

  /** A write that reaches the file stages exactly the uploaded bytes, with `temp_path` bound. */
  lemma StageAccepted(d: Disk, temp: FilePath, data: Bytes)
    requires temp.dir in d.dirs
    ensures Stage(d, temp, data, Written) == (Pass, Disk(d.files[temp := data], d.dirs), true)
  {
    assert d.files[temp := []][temp := data] == d.files[temp := data];
  }

  /** One path after staging and production: it exists exactly when it existed before, is the staged
      file or is an output; an earlier file keeps its bytes; the save directory is the one new directory. */
  lemma AfterBackendFile(d: Disk, temp: FilePath, suffix: string, data: Bytes, run: BackendRun, p: FilePath)
    requires Environment(d, temp, suffix, run) && run.Returned? && temp.dir in d.dirs
    ensures var p1 := AfterBackend(d, temp, data, run.saveDir, run.outputs);
      && (p in p1.files <==> p in d.files || p == temp || (p.dir == run.saveDir && p.name in Names(run.outputs)))
      && (p in d.files ==> p1.files[p] == d.files[p])
      && p1.dirs == d.dirs + {run.saveDir}
  {
    var s := Disk(d.files[temp := data], d.dirs + {run.saveDir});
    WriteAllFiles(s, run.saveDir, run.outputs, p);
    if p in d.files {
      assert p.dir in d.dirs;
    }
  }

  /** Output `i` exists after production, with its own bytes. */
  lemma AfterBackendOutput(d: Disk, temp: FilePath, suffix: string, data: Bytes, run: BackendRun, i: nat)
    requires Environment(d, temp, suffix, run) && run.Returned? && i < |run.outputs|
    ensures var p1 := AfterBackend(d, temp, data, run.saveDir, run.outputs);
      FilePath(run.saveDir, run.outputs[i].0) in p1.files && p1.files[FilePath(run.saveDir, run.outputs[i].0)] == run.outputs[i].1
  {
    WriteAllContent(Disk(d.files[temp := data], d.dirs + {run.saveDir}), run.saveDir, run.outputs, i);
  }

  /** Unlinking the staged file afterwards leaves what production alone would have left. */
  lemma AfterBackendAbort(d: Disk, temp: FilePath, suffix: string, data: Bytes, run: BackendRun)
    requires Environment(d, temp, suffix, run) && run.Returned? && temp.dir in d.dirs
    ensures Abort(AfterBackend(d, temp, data, run.saveDir, run.outputs), temp) == Produce(d, run.saveDir, run.outputs)
    ensures Produce(d, run.saveDir, run.outputs).dirs == d.dirs + {run.saveDir}
    ensures temp !in Produce(d, run.saveDir, run.outputs).files
  {
    var saveDir, outs := run.saveDir, run.outputs;
    var s := Disk(d.files[temp := data], d.dirs + {saveDir});
    SaveDirIsFresh(d, temp, suffix, run);
    WriteAllRemove(s.files, s.dirs, saveDir, outs, temp);
    assert s.files - {temp} == d.files;
    WriteAllFiles(s, saveDir, outs, temp);
    WriteAllFiles(Disk(d.files, d.dirs + {saveDir}), saveDir, outs, temp);
  }

  /** Copying to `dst` commutes with removing two other files. */
  lemma CopyCommutes(m: map<FilePath, Bytes>, temp: FilePath, src: FilePath, dst: FilePath, b: Bytes)
    requires dst != temp && dst != src
    ensures (m[dst := b] - {temp}) - {src} == ((m - {temp}) - {src})[dst := b]
  {
  }

  /** Truncating `dst` commutes with removing another file. */
  lemma TruncateCommutes(m: map<FilePath, Bytes>, temp: FilePath, dst: FilePath)
    requires dst != temp
    ensures m[dst := []] - {temp} == (m - {temp})[dst := []]
  {
  }

  /** The disk once the artifact is copied and both the staged input and the output are unlinked. */
  function Cleaned(p1: Disk, temp: FilePath, src: FilePath, dst: FilePath, b: Bytes): Disk
  {
    Disk((p1.files[dst := b] - {temp}) - {src}, p1.dirs)
  }

  /** The first index whose output name the resolver accepts. */
  function Matched(run: BackendRun, exts: seq<string>): Option<nat>
    requires run.Returned?
  {
    FirstMatch(Names(run.outputs), exts)
  }

  /** A published name starts with `result_`, a staged one with `tmp`: the two never coincide. */
  lemma PublishedIsNotStaged(temp: FilePath, file: string)
    requires StartsWith(temp.name, "tmp")
    ensures FilePath(StaticDir, ResultPrefix + file) != temp
  {
    assert (ResultPrefix + file)[0] == 'r';
    assert temp.name[..3] == "tmp";
  }

  /** The resolver picks output `i`, whose plain name is published as `result_<name>`. */
  lemma PublishResolves(d: Disk, temp: FilePath, saveDir: string, outs: seq<(string, Bytes)>,
                        exts: seq<string>, notFound: string, copyOk: bool, i: nat)
    requires FirstMatch(Names(outs), exts) == Some(i) && '/' !in outs[i].0
    ensures PublishedName(outs[i].0) == ResultPrefix + outs[i].0
    ensures Publish(d, temp, saveDir, outs, exts, notFound, copyOk) == PublishFile(d, temp, saveDir, outs[i].0, copyOk)
  {
    assert Basename(outs[i].0) == outs[i].0;
    assert FindArtifact(Names(outs), exts, notFound) == Success(outs[i].0);
  }

  /** Publishing a present output when the device takes the copy: copy, two unlinks, then `rmdir` decides. */
  lemma PublishSteps(p1: Disk, temp: FilePath, saveDir: string, file: string, b: Bytes)
    requires '/' !in file
    requires FilePath(saveDir, file) in p1.files && p1.files[FilePath(saveDir, file)] == b
    requires temp in p1.files && StaticDir in p1.dirs && saveDir in p1.dirs
    requires StartsWith(temp.name, "tmp") && temp.dir != saveDir && StaticDir != saveDir
    ensures var u2 := Cleaned(p1, temp, FilePath(saveDir, file), FilePath(StaticDir, ResultPrefix + file), b);
      PublishFile(p1, temp, saveDir, file, true)
        == if IsEmptyDir(u2, saveDir) then (Success(ResultPrefix + file), Disk(u2.files, u2.dirs - {saveDir}))
           else (Failure(DirectoryNotEmpty(saveDir)), u2)
  {
    assert Basename(file) == file;
    var src := FilePath(saveDir, file);
    var dst := FilePath(StaticDir, ResultPrefix + file);
    PublishedIsNotStaged(temp, file);
    var c1 := Disk(p1.files[dst := b], p1.dirs);
    assert CopyOn(p1, src, dst, true) == (Pass, c1);
    var u1 := Disk(c1.files - {temp}, c1.dirs);
    assert UnlinkOn(c1, temp) == (Pass, u1);
    assert src != dst && src != temp;
    var u2 := Cleaned(p1, temp, src, dst, b);
    assert UnlinkOn(u1, src) == (Pass, u2);
    assert saveDir in u2.dirs;
  }

  /** Another output beside the resolved one keeps `saveDir` non-empty, so `rmdir` raises. */
  lemma ExtraOutputBlocksRmdir(d: Disk, temp: FilePath, suffix: string, data: Bytes, run: BackendRun, i: nat)
    requires Environment(d, temp, suffix, run) && run.Returned? && temp.dir in d.dirs
    requires i < |run.outputs| && |run.outputs| > 1
    ensures var p1 := AfterBackend(d, temp, data, run.saveDir, run.outputs);
      var file := run.outputs[i].0;
      var u2 := Cleaned(p1, temp, FilePath(run.saveDir, file), FilePath(StaticDir, ResultPrefix + file), run.outputs[i].1);
      !IsEmptyDir(u2, run.saveDir)
  {
    var j := if i == 0 then 1 else 0;
    var other := FilePath(run.saveDir, run.outputs[j].0);
    assert run.outputs[j].0 != run.outputs[i].0;
    AfterBackendOutput(d, temp, suffix, data, run, j);
    SaveDirIsFresh(d, temp, suffix, run);
    assert other != temp;
  }

  /** With a single output, `saveDir` is empty once it is unlinked, and the disk is the original one plus the published copy. */
  lemma SingleOutputCleansUp(d: Disk, temp: FilePath, suffix: string, data: Bytes, run: BackendRun)
    requires Environment(d, temp, suffix, run) && run.Returned? && temp.dir in d.dirs
    requires |run.outputs| == 1
    ensures var p1 := AfterBackend(d, temp, data, run.saveDir, run.outputs);
      var file := run.outputs[0].0;
      var dst := FilePath(StaticDir, ResultPrefix + file);
      var u2 := Cleaned(p1, temp, FilePath(run.saveDir, file), dst, run.outputs[0].1);
      && IsEmptyDir(u2, run.saveDir)
      && Disk(u2.files, u2.dirs - {run.saveDir}) == Disk(d.files[dst := run.outputs[0].1], d.dirs)
  {
    var saveDir, outs := run.saveDir, run.outputs;
    var p1 := AfterBackend(d, temp, data, saveDir, outs);
    var file := outs[0].0;
    var src := FilePath(saveDir, file);
    var dst := FilePath(StaticDir, ResultPrefix + file);
    var u2 := Cleaned(p1, temp, src, dst, outs[0].1);
    assert Names(outs) == [file];
    SaveDirIsFresh(d, temp, suffix, run);
    PublishedIsNotStaged(temp, file);
    assert u2.dirs == d.dirs + {saveDir} by { AfterBackendFile(d, temp, suffix, data, run, temp); }
    forall p
      ensures p in u2.files <==> p in d.files[dst := outs[0].1]
      ensures p in u2.files ==> p.dir != saveDir
    {
      AfterBackendFile(d, temp, suffix, data, run, p);
      if p in d.files { assert p.dir in d.dirs; }
      if p.dir == saveDir && p.name in Names(outs) { assert p == src; }
    }
    assert u2.files == d.files[dst := outs[0].1] by {
      forall p | p in u2.files
        ensures u2.files[p] == d.files[dst := outs[0].1][p]
      {
        AfterBackendFile(d, temp, suffix, data, run, p);
      }
    }
  }

  /** Creating the staged file fails, or `write()` itself raises: `temp_path` is never bound, so
      nothing is cleaned up, and a refused write leaves the new, empty file behind. */
  lemma StagingFailure<P>(d: Disk, temp: FilePath, suffix: string, data: Bytes, fate: WriteFate, copyOk: bool, run: BackendRun,
                          payload: Result<P, Error>, exts: seq<string>, notFound: string)
    requires Environment(d, temp, suffix, run)
    requires temp.dir !in d.dirs || fate.RefusedOnWrite?
    ensures Run(d, temp, data, fate, copyOk, run, payload, exts, notFound)
      == if temp.dir !in d.dirs then (Failure(FileNotFound(Join(temp))), d)
         else (Failure(WriteFailed(Join(temp))), Disk(d.files[temp := []], d.dirs))
  {
  }

  /** The flush on leaving the `with` block raises: `temp_path` is already bound, so the `except`
      branch unlinks the staged file and the disk is exactly as before the call. */
  lemma CloseFailureRestoresDisk<P>(d: Disk, temp: FilePath, suffix: string, data: Bytes, copyOk: bool, run: BackendRun,
                                    payload: Result<P, Error>, exts: seq<string>, notFound: string)
    requires Environment(d, temp, suffix, run)
    requires temp.dir in d.dirs
    ensures Run(d, temp, data, RefusedOnClose, copyOk, run, payload, exts, notFound) == (Failure(WriteFailed(Join(temp))), d)
  {
    assert d.files[temp := []][temp := data] - {temp} == d.files;
  }

  /** The backend raises: the staged file is unlinked and the disk is exactly as before the call. */
  lemma BackendFailureRestoresDisk<P>(d: Disk, temp: FilePath, suffix: string, data: Bytes, copyOk: bool, run: BackendRun,
                                      payload: Result<P, Error>, exts: seq<string>, notFound: string)
    requires Environment(d, temp, suffix, run)
    requires temp.dir in d.dirs && run.Raised?
    ensures Run(d, temp, data, Written, copyOk, run, payload, exts, notFound) == (Failure(run.error), d)
  {
    StageAccepted(d, temp, data);
    assert d.files[temp := data] - {temp} == d.files;
  }

  /** Once staging succeeds and the backend returns, the rest of the request is `Finish`. */
  lemma RunAfterBackend<P>(d: Disk, temp: FilePath, suffix: string, data: Bytes, copyOk: bool, run: BackendRun,
                           payload: Result<P, Error>, exts: seq<string>, notFound: string)
    requires Environment(d, temp, suffix, run)
    requires temp.dir in d.dirs && run.Returned?
    ensures Run(d, temp, data, Written, copyOk, run, payload, exts, notFound)
      == Finish(AfterBackend(d, temp, data, run.saveDir, run.outputs), temp, run.saveDir, run.outputs, payload, exts, notFound, copyOk)
  {
    StageAccepted(d, temp, data);
  }

  /** The payload raises (no `results[0]`, or a rejected box): the staged file is gone, the
      backend's directory and every output stay, nothing else changes. */
  lemma PayloadFailureKeepsBackendOutput<P>(d: Disk, temp: FilePath, suffix: string, data: Bytes, copyOk: bool, run: BackendRun,
                                            payload: Result<P, Error>, exts: seq<string>, notFound: string)
    requires Environment(d, temp, suffix, run)
    requires temp.dir in d.dirs && run.Returned? && payload.Failure?
    ensures Run(d, temp, data, Written, copyOk, run, payload, exts, notFound)
      == (Failure(payload.error), Produce(d, run.saveDir, run.outputs))
  {
    AfterBackendAbort(d, temp, suffix, data, run);
    RunAfterBackend(d, temp, suffix, data, copyOk, run, payload, exts, notFound);
  }

  /** No output has an accepted extension: `ValueError`, with the same disk as a payload failure. */
  lemma MissingArtifactKeepsBackendOutput<P>(d: Disk, temp: FilePath, suffix: string, data: Bytes, copyOk: bool, run: BackendRun,
                                             payload: Result<P, Error>, exts: seq<string>, notFound: string)
    requires Environment(d, temp, suffix, run)
    requires temp.dir in d.dirs && run.Returned? && payload.Success? && Matched(run, exts).None?
    ensures Run(d, temp, data, Written, copyOk, run, payload, exts, notFound)
      == (Failure(ValueError(notFound)), Produce(d, run.saveDir, run.outputs))
  {
    var p1 := AfterBackend(d, temp, data, run.saveDir, run.outputs);
    AfterBackendAbort(d, temp, suffix, data, run);
    RunAfterBackend(d, temp, suffix, data, copyOk, run, payload, exts, notFound);
    assert Publish(p1, temp, run.saveDir, run.outputs, exts, notFound, copyOk) == (Failure(ValueError(notFound)), p1);
  }

  /** Publishing a present output when the target directory is missing: the copy raises and nothing changes. */
  lemma PublishCopyFails(p1: Disk, temp: FilePath, saveDir: string, file: string, copyOk: bool)
    requires '/' !in file
    requires FilePath(saveDir, file) in p1.files && StaticDir !in p1.dirs
    ensures PublishFile(p1, temp, saveDir, file, copyOk)
      == (Failure(FileNotFound(Join(FilePath(StaticDir, ResultPrefix + file)))), p1)
  {
    assert Basename(file) == file;
  }

  /** Publishing a present output when the device refuses the copied bytes: the copy raises after
      truncating `static/result_<name>`, and nothing is unlinked. */
  lemma PublishCopyRefused(p1: Disk, temp: FilePath, saveDir: string, file: string)
    requires '/' !in file
    requires FilePath(saveDir, file) in p1.files && StaticDir in p1.dirs
    ensures var dst := FilePath(StaticDir, ResultPrefix + file);
      PublishFile(p1, temp, saveDir, file, false) == (Failure(WriteFailed(Join(dst))), Disk(p1.files[dst := []], p1.dirs))
  {
    assert Basename(file) == file;
  }

  /** `static/` does not exist: the copy raises, with the same disk as a payload failure. */
  lemma MissingStaticKeepsBackendOutput<P>(d: Disk, temp: FilePath, suffix: string, data: Bytes, copyOk: bool, run: BackendRun,
                                           payload: Result<P, Error>, exts: seq<string>, notFound: string)
    requires Environment(d, temp, suffix, run)
    requires temp.dir in d.dirs && run.Returned? && payload.Success? && Matched(run, exts).Some?
    requires StaticDir !in d.dirs
    ensures var file := run.outputs[Matched(run, exts).value].0;
      Run(d, temp, data, Written, copyOk, run, payload, exts, notFound)
        == (Failure(FileNotFound(Join(FilePath(StaticDir, ResultPrefix + file)))), Produce(d, run.saveDir, run.outputs))
  {
    var saveDir, outs := run.saveDir, run.outputs;
    var p1 := AfterBackend(d, temp, data, saveDir, outs);
    var i := Matched(run, exts).value;
    var file := outs[i].0;
    assert FilePath(saveDir, file) in p1.files by { AfterBackendOutput(d, temp, suffix, data, run, i); }
    assert StaticDir !in p1.dirs by {
      SaveDirIsFresh(d, temp, suffix, run);
      AfterBackendFile(d, temp, suffix, data, run, temp);
    }
    PublishResolves(p1, temp, saveDir, outs, exts, notFound, copyOk, i);
    PublishCopyFails(p1, temp, saveDir, file, copyOk);
    AfterBackendAbort(d, temp, suffix, data, run);
    RunAfterBackend(d, temp, suffix, data, copyOk, run, payload, exts, notFound);
  }

  /** The device refuses the published copy: the call fails with the backend's outputs kept and an
      empty `static/result_<name>` left in place of the artifact; only the staged input is gone. */
  lemma CopyRefusedLeavesEmptyArtifact<P>(d: Disk, temp: FilePath, suffix: string, data: Bytes, run: BackendRun,
                                          payload: Result<P, Error>, exts: seq<string>, notFound: string)
    requires Environment(d, temp, suffix, run)
    requires temp.dir in d.dirs && run.Returned? && payload.Success? && Matched(run, exts).Some?
    requires StaticDir in d.dirs
    ensures var dst := FilePath(StaticDir, ResultPrefix + run.outputs[Matched(run, exts).value].0);
      Run(d, temp, data, Written, false, run, payload, exts, notFound)
        == (Failure(WriteFailed(Join(dst))), Disk(Produce(d, run.saveDir, run.outputs).files[dst := []], d.dirs + {run.saveDir}))
  {
    var saveDir, outs := run.saveDir, run.outputs;
    var p1 := AfterBackend(d, temp, data, saveDir, outs);
    var i := Matched(run, exts).value;
    var file := outs[i].0;
    var dst := FilePath(StaticDir, ResultPrefix + file);
    var c1 := Disk(p1.files[dst := []], p1.dirs);
    assert Publish(p1, temp, saveDir, outs, exts, notFound, false) == (Failure(WriteFailed(Join(dst))), c1) by {
      AfterBackendOutput(d, temp, suffix, data, run, i);
      AfterBackendFile(d, temp, suffix, data, run, temp);
      PublishResolves(p1, temp, saveDir, outs, exts, notFound, false, i);
      PublishCopyRefused(p1, temp, saveDir, file);
    }
    assert Abort(c1, temp) == Disk(Produce(d, saveDir, outs).files[dst := []], d.dirs + {saveDir}) by {
      PublishedIsNotStaged(temp, file);
      TruncateCommutes(p1.files, temp, dst);
      AfterBackendAbort(d, temp, suffix, data, run);
      AfterBackendFile(d, temp, suffix, data, run, temp);
    }
    RunAfterBackend(d, temp, suffix, data, false, run, payload, exts, notFound);
  }

  /** An output beside the resolved one: the artifact is published and both files are unlinked, then
      `rmdir` raises; the published copy, the backend's directory and its other outputs all stay. */
  lemma ExtraOutputFailsAfterPublishing<P>(d: Disk, temp: FilePath, suffix: string, data: Bytes, run: BackendRun,
                                           payload: Result<P, Error>, exts: seq<string>, notFound: string)
    requires Environment(d, temp, suffix, run)
    requires temp.dir in d.dirs && run.Returned? && payload.Success?
    requires Matched(run, exts).Some? && StaticDir in d.dirs && |run.outputs| > 1
    ensures var i := Matched(run, exts).value;
      var src := FilePath(run.saveDir, run.outputs[i].0);
      var dst := FilePath(StaticDir, ResultPrefix + run.outputs[i].0);
      Run(d, temp, data, Written, true, run, payload, exts, notFound)
        == (Failure(DirectoryNotEmpty(run.saveDir)),
            Disk((Produce(d, run.saveDir, run.outputs).files - {src})[dst := run.outputs[i].1], d.dirs + {run.saveDir}))
  {
    var saveDir, outs := run.saveDir, run.outputs;
    var p1 := AfterBackend(d, temp, data, saveDir, outs);
    var i := Matched(run, exts).value;
    var file := outs[i].0;
    var src := FilePath(saveDir, file);
    var dst := FilePath(StaticDir, ResultPrefix + file);
    var u2 := Cleaned(p1, temp, src, dst, outs[i].1);
    assert PublishFile(p1, temp, saveDir, file, true) == (Failure(DirectoryNotEmpty(saveDir)), u2) by {
      SaveDirIsFresh(d, temp, suffix, run);
      AfterBackendFile(d, temp, suffix, data, run, temp);
      AfterBackendOutput(d, temp, suffix, data, run, i);
      PublishSteps(p1, temp, saveDir, file, outs[i].1);
      ExtraOutputBlocksRmdir(d, temp, suffix, data, run, i);
    }
    assert Abort(u2, temp) == u2;
    assert u2 == Disk((Produce(d, saveDir, outs).files - {src})[dst := outs[i].1], d.dirs + {saveDir}) by {
      PublishedIsNotStaged(temp, file);
      CopyCommutes(p1.files, temp, src, dst, outs[i].1);
      AfterBackendAbort(d, temp, suffix, data, run);
      AfterBackendFile(d, temp, suffix, data, run, temp);
    }
    PublishResolves(p1, temp, saveDir, outs, exts, notFound, true, i);
    RunAfterBackend(d, temp, suffix, data, true, run, payload, exts, notFound);
  }

  /** A single output with an accepted extension, and `static/` present: the call succeeds and the
      disk is the original one plus the published copy of that output. */
  lemma SingleOutputSucceeds<P>(d: Disk, temp: FilePath, suffix: string, data: Bytes, run: BackendRun,
                                payload: Result<P, Error>, exts: seq<string>, notFound: string)
    requires Environment(d, temp, suffix, run)
    requires temp.dir in d.dirs && run.Returned? && payload.Success?
    requires |run.outputs| == 1 && EndsWithAny(run.outputs[0].0, exts) && StaticDir in d.dirs
    ensures var name := ResultPrefix + run.outputs[0].0;
      Run(d, temp, data, Written, true, run, payload, exts, notFound)
        == (Success((payload.value, name)), Disk(d.files[FilePath(StaticDir, name) := run.outputs[0].1], d.dirs))
  {
    var saveDir, outs := run.saveDir, run.outputs;
    var p1 := AfterBackend(d, temp, data, saveDir, outs);
    var file := outs[0].0;
    assert Names(outs) == [file];
    assert Matched(run, exts) == Some(0);
    var dst := FilePath(StaticDir, ResultPrefix + file);
    assert PublishFile(p1, temp, saveDir, file, true)
        == (Success(ResultPrefix + file), Disk(d.files[dst := outs[0].1], d.dirs)) by {
      SaveDirIsFresh(d, temp, suffix, run);
      AfterBackendFile(d, temp, suffix, data, run, temp);
      AfterBackendOutput(d, temp, suffix, data, run, 0);
      PublishSteps(p1, temp, saveDir, file, outs[0].1);
      SingleOutputCleansUp(d, temp, suffix, data, run);
    }
    PublishResolves(p1, temp, saveDir, outs, exts, notFound, true, 0);
    RunAfterBackend(d, temp, suffix, data, true, run, payload, exts, notFound);
  }

  /** The only way a request succeeds, and what it leaves behind: the staged input and the backend's
      directory are gone and the disk holds exactly one new (or overwritten) file, `static/result_<name>`,
      with the bytes of the backend's single output. */
  lemma {:induction false} RunSuccess<P>(d: Disk, temp: FilePath, suffix: string, data: Bytes, fate: WriteFate, copyOk: bool, run: BackendRun,
                                         payload: Result<P, Error>, exts: seq<string>, notFound: string)
    requires Environment(d, temp, suffix, run)
    ensures var r := Run(d, temp, data, fate, copyOk, run, payload, exts, notFound);
      r.0.Success? <==>
        temp.dir in d.dirs && fate == Written && run.Returned? && payload.Success? && StaticDir in d.dirs
        && copyOk && |run.outputs| == 1 && EndsWithAny(run.outputs[0].0, exts)
    ensures var r := Run(d, temp, data, fate, copyOk, run, payload, exts, notFound);
      r.0.Success? ==>
        && r.0.value == (payload.value, ResultPrefix + run.outputs[0].0)
        && r.1 == Disk(d.files[FilePath(StaticDir, r.0.value.1) := run.outputs[0].1], d.dirs)
        && temp !in r.1.files && run.saveDir !in r.1.dirs
  {
    var r := Run(d, temp, data, fate, copyOk, run, payload, exts, notFound);
    if temp.dir !in d.dirs || fate.RefusedOnWrite? {
      assert r.0.Failure? by { StagingFailure(d, temp, suffix, data, fate, copyOk, run, payload, exts, notFound); }
    } else if fate.RefusedOnClose? {
      assert r.0.Failure? by { CloseFailureRestoresDisk(d, temp, suffix, data, copyOk, run, payload, exts, notFound); }
    } else if run.Raised? {
      assert r.0.Failure? by { BackendFailureRestoresDisk(d, temp, suffix, data, copyOk, run, payload, exts, notFound); }
    } else if payload.Failure? {
      assert r.0.Failure? by { PayloadFailureKeepsBackendOutput(d, temp, suffix, data, copyOk, run, payload, exts, notFound); }
    } else if Matched(run, exts).None? {
      assert r.0.Failure? by { MissingArtifactKeepsBackendOutput(d, temp, suffix, data, copyOk, run, payload, exts, notFound); }
      assert !(|run.outputs| == 1 && EndsWithAny(run.outputs[0].0, exts)) by {
        if |run.outputs| == 1 {
          assert Names(run.outputs)[0] == run.outputs[0].0;
        }
      }
    } else if StaticDir !in d.dirs {
      assert r.0.Failure? by { MissingStaticKeepsBackendOutput(d, temp, suffix, data, copyOk, run, payload, exts, notFound); }
    } else if !copyOk {
      assert r.0.Failure? by { CopyRefusedLeavesEmptyArtifact(d, temp, suffix, data, run, payload, exts, notFound); }
    } else if |run.outputs| > 1 {
      assert r.0.Failure? by { ExtraOutputFailsAfterPublishing(d, temp, suffix, data, run, payload, exts, notFound); }
    } else {
      assert EndsWithAny(run.outputs[0].0, exts) by {
        assert Names(run.outputs)[Matched(run, exts).value] == run.outputs[0].0;
      }
      var dst := FilePath(StaticDir, ResultPrefix + run.outputs[0].0);
      assert r == (Success((payload.value, ResultPrefix + run.outputs[0].0)),
                   Disk(d.files[dst := run.outputs[0].1], d.dirs)) by {
        SingleOutputSucceeds(d, temp, suffix, data, run, payload, exts, notFound);
      }
      PublishedIsNotStaged(temp, run.outputs[0].0);
      assert run.saveDir !in d.dirs;
    }
  }

  /** After a failure: the staged input remains exactly when `write()` itself raised, since only then is
      it left behind unbound; once the backend has returned, its directory is never removed. */
  lemma {:induction false} RunFailureCleanup<P>(d: Disk, temp: FilePath, suffix: string, data: Bytes, fate: WriteFate,
                                                copyOk: bool, run: BackendRun, payload: Result<P, Error>, exts: seq<string>, notFound: string)
    requires Environment(d, temp, suffix, run)
    ensures var r := Run(d, temp, data, fate, copyOk, run, payload, exts, notFound);
      r.0.Failure? ==> (temp in r.1.files <==> temp.dir in d.dirs && fate.RefusedOnWrite?)
    ensures var r := Run(d, temp, data, fate, copyOk, run, payload, exts, notFound);
      r.0.Failure? && temp.dir in d.dirs && fate == Written && run.Returned? ==> run.saveDir in r.1.dirs
  {
    if temp.dir !in d.dirs || fate.RefusedOnWrite? {
      StagingFailure(d, temp, suffix, data, fate, copyOk, run, payload, exts, notFound);
    } else if fate.RefusedOnClose? {
      CloseFailureRestoresDisk(d, temp, suffix, data, copyOk, run, payload, exts, notFound);
    } else if run.Raised? {
      BackendFailureRestoresDisk(d, temp, suffix, data, copyOk, run, payload, exts, notFound);
    } else {
      var saveDir, outs := run.saveDir, run.outputs;
      assert temp !in Produce(d, saveDir, outs).files && Produce(d, saveDir, outs).dirs == d.dirs + {saveDir} by {
        AfterBackendAbort(d, temp, suffix, data, run);
      }
      if payload.Failure? {
        PayloadFailureKeepsBackendOutput(d, temp, suffix, data, copyOk, run, payload, exts, notFound);
      } else if Matched(run, exts).None? {
        MissingArtifactKeepsBackendOutput(d, temp, suffix, data, copyOk, run, payload, exts, notFound);
      } else if StaticDir !in d.dirs {
        MissingStaticKeepsBackendOutput(d, temp, suffix, data, copyOk, run, payload, exts, notFound);
      } else if !copyOk {
        CopyRefusedLeavesEmptyArtifact(d, temp, suffix, data, run, payload, exts, notFound);
        PublishedIsNotStaged(temp, outs[Matched(run, exts).value].0);
      } else if |outs| > 1 {
        ExtraOutputFailsAfterPublishing(d, temp, suffix, data, run, payload, exts, notFound);
        PublishedIsNotStaged(temp, outs[Matched(run, exts).value].0);
      } else {
        RunSuccess(d, temp, suffix, data, fate, copyOk, run, payload, exts, notFound);
        assert Names(outs)[Matched(run, exts).value] == outs[0].0;
      }
    }
  }
}
