/**
 * The staging / inference / publish / cleanup lifecycle of `LogoDetector.detect_image` and
 * `LogoDetector.detect_video`, as a function from the disk before a call to the outcome and the
 * disk after it. The methods of module Detector perform the same steps in place and are proved
 * to end in exactly this outcome and state.
 */
module Lifecycle {
  import opened Wrappers
  import opened Errors
  import opened Models
  import opened Normalizer
  import opened Resolver
  import opened Strings
  import opened Storage

  /** The fixed arguments of every `predict` call. */
  const Confidence: real := 0.25
  const Overlap: real := 0.01
  const Project: string := "temp"
  const RunName: string := "detection"

  /** Where published artifacts go, and the prefix of their names. */
  const StaticDir: string := "static"
  const ResultPrefix: string := "result_"

  /** Suffixes of the staged input files. */
  const ImageSuffix: string := ".jpg"
  const VideoSuffix: string := ".mp4"

  /**
   * What the inference backend did: it raised, or it returned its per-frame results after
   * creating `saveDir` and writing `outputs` into it; `outputs` is in the order `os.listdir`
   * reports the directory.
   */
  datatype BackendRun =
    | Raised(error: Error)
    | Returned(frames: seq<Frame>, saveDir: string, outputs: seq<(string, Bytes)>)

  /**
   * What the environment guarantees: `tempfile` picks a fresh `tmp…<suffix>` name; the backend
   * saves under `temp/` into a directory that did not exist before; directory entries are plain
   * names without duplicates.
   */
  predicate Environment(d: Disk, temp: FilePath, suffix: string, run: BackendRun)
  {
    WellFormed(d) && temp !in d.files
    && StartsWith(temp.name, "tmp") && EndsWith(temp.name, suffix)
    && (run.Returned? ==>
          StartsWith(run.saveDir, Project + "/") && run.saveDir !in d.dirs
          && DistinctNames(run.outputs)
          && forall i :: 0 <= i < |run.outputs| ==> '/' !in run.outputs[i].0)
  }

  /** `f"result_{os.path.basename(file)}"`. */
  function PublishedName(file: string): string
  {
    ResultPrefix + Basename(file)
  }

  /**
   * How the staging write ends: the bytes reach the file; `write()` itself raises (an upload larger
   * than the buffer on a full device); or `write()` only buffers and the flush on leaving the `with`
   * block raises, after `temp_path` is bound.
   */
  datatype WriteFate = Written | RefusedOnWrite | RefusedOnClose

  /**
   * The `with NamedTemporaryFile(...)` block: create the file, write the upload, bind `temp_path`,
   * then close. The third component says whether `temp_path` was bound, which decides whether the
   * `except` branch unlinks the file.
   */
  function Stage(d: Disk, temp: FilePath, data: Bytes, fate: WriteFate): (Outcome<Error>, Disk, bool)
  {
    var created := CreateOn(d, temp);
    if created.0.Fail? then (created.0, created.1, false)
    else
      var written := WriteOn(created.1, temp, data, !fate.RefusedOnWrite?);
      if written.0.Fail? then (written.0, written.1, false)
      else
        var closed := CloseOn(written.1, temp, !fate.RefusedOnClose?);
        (closed.0, closed.1, true)
  }

  /** The backend's side effect: `saveDir` created and filled with its outputs. */
  function Produce(d: Disk, saveDir: string, outs: seq<(string, Bytes)>): Disk
  {
    WriteAllOn(Disk(d.files, d.dirs + {saveDir}), saveDir, outs)
  }

  /** The `except` branch: unlink the staged input, swallowing any error of that unlink. */
  function Abort(d: Disk, temp: FilePath): Disk
  {
    UnlinkOn(d, temp).1
  }

  /**
   * Copy the resolved output `file` into `static/`, then unlink the input and the output and remove
   * `saveDir`. `copyOk` says whether the device takes the copied bytes.
   */
  function PublishFile(d: Disk, temp: FilePath, saveDir: string, file: string, copyOk: bool): (Result<string, Error>, Disk)
  {
    var src := FilePath(saveDir, file);
    var name := PublishedName(file);
    var copied := CopyOn(d, src, FilePath(StaticDir, name), copyOk);
    if copied.0.Fail? then (Failure(copied.0.error), copied.1)
    else
      var tempGone := UnlinkOn(copied.1, temp);
      if tempGone.0.Fail? then (Failure(tempGone.0.error), tempGone.1)
      else
        var srcGone := UnlinkOn(tempGone.1, src);
        if srcGone.0.Fail? then (Failure(srcGone.0.error), srcGone.1)
        else
          var removed := RmdirOn(srcGone.1, saveDir);
          if removed.0.Fail? then (Failure(removed.0.error), removed.1)
          else (Success(name), removed.1)
  }

  /** Resolve the artifact among the outputs, then publish it. */
  function Publish(d: Disk, temp: FilePath, saveDir: string, outs: seq<(string, Bytes)>,
                   exts: seq<string>, notFound: string, copyOk: bool): (Result<string, Error>, Disk)
  {
    match FindArtifact(Names(outs), exts, notFound)
    case Failure(e) => (Failure(e), d)
    case Success(file) => PublishFile(d, temp, saveDir, file, copyOk)
  }

  /** Everything after the backend returned: the payload, then publication, with cleanup on error. */
  function Finish<P>(d: Disk, temp: FilePath, saveDir: string, outs: seq<(string, Bytes)>,
                     payload: Result<P, Error>, exts: seq<string>, notFound: string, copyOk: bool)
    : (Result<(P, string), Error>, Disk)
  {
    match payload
    case Failure(e) => (Failure(e), Abort(d, temp))
    case Success(p) =>
      var published := Publish(d, temp, saveDir, outs, exts, notFound, copyOk);
      match published.0
      case Failure(e) => (Failure(e), Abort(published.1, temp))
      case Success(name) => (Success((p, name)), published.1)
  }

  /** One request from start to end. A staging failure is cleaned up only when `temp_path` was already bound. */
  function Run<P>(d: Disk, temp: FilePath, data: Bytes, fate: WriteFate, copyOk: bool, run: BackendRun,
                  payload: Result<P, Error>, exts: seq<string>, notFound: string): (Result<(P, string), Error>, Disk)
  {
    var staged := Stage(d, temp, data, fate);
    if staged.0.Fail? then (Failure(staged.0.error), if staged.2 then Abort(staged.1, temp) else staged.1)
    else
      match run
      case Raised(e) => (Failure(e), Abort(staged.1, temp))
      case Returned(frames, saveDir, outs) =>
        Finish(Produce(staged.1, saveDir, outs), temp, saveDir, outs, payload, exts, notFound, copyOk)
  }

  /** The image payload: the detections of `results[0]` only. */
  function ImagePayload(run: BackendRun): Result<seq<Detection>, Error>
  {
    match run
    case Raised(e) => Failure(e)
    case Returned(frames, _, _) =>
      if frames == [] then Failure(IndexOutOfRange) else FrameDetections(frames[0])
  }

  /** The video payload: the box count over all frames (and `results[0]` must exist). */
  function VideoPayload(run: BackendRun): Result<nat, Error>
  {
    match run
    case Raised(e) => Failure(e)
    case Returned(frames, _, _) =>
      if frames == [] then Failure(IndexOutOfRange) else Success(SumCount(frames))
  }

  function DetectImageSpec(d: Disk, temp: FilePath, data: Bytes, fate: WriteFate, copyOk: bool, run: BackendRun)
    : (Result<(seq<Detection>, string), Error>, Disk)
  {
    Run(d, temp, data, fate, copyOk, run, ImagePayload(run), ImageExtensions, ImageNotFound)
  }

  function DetectVideoSpec(d: Disk, temp: FilePath, data: Bytes, fate: WriteFate, copyOk: bool, run: BackendRun)
    : (Result<(nat, string), Error>, Disk)
  {
    Run(d, temp, data, fate, copyOk, run, VideoPayload(run), VideoExtensions, VideoNotFound)
  }
}
