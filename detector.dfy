/**
 * `LogoDetector` of app/detector.py. Its two entry points stage the upload in a temporary file,
 * hand the file to the inference backend, turn the backend's boxes into detections, publish the
 * annotated artifact into `static/` and clean up, all on the file system passed in. Each is proved
 * to end in exactly the outcome and disk that module Lifecycle specifies.
 */
module Detector {
  import opened Wrappers
  import opened Errors
  import opened Models
  import opened Normalizer
  import opened Resolver
  import opened Storage
  import opened Lifecycle

  const DefaultModelPath: string := "./models/model.pt"

  class LogoDetector {
    /** The weights file the backend was loaded from; loading itself is the backend's business. */
    const modelPath: string

    constructor (modelPath: string := DefaultModelPath)
      ensures this.modelPath == modelPath
    {
      this.modelPath := modelPath;
    }

    /**
     * `detect_image`: the detections of the first result and the name of the published image.
     * `fate` says how the write into the temporary file ends, `copyOk` whether the device takes the
     * published copy, `run` what `predict` does.
     */
    method DetectImage(fs: FileSystem, imageBytes: Bytes, temp: FilePath, fate: WriteFate, copyOk: bool, run: BackendRun)
      returns (r: Result<(seq<Detection>, string), Error>)
      requires fs.Valid() && Environment(fs.State(), temp, ImageSuffix, run)
      modifies fs
      ensures fs.Valid()
      ensures (r, fs.State()) == DetectImageSpec(old(fs.State()), temp, imageBytes, fate, copyOk, run)
    {
      var staged, bound := StageInput(fs, temp, imageBytes, fate);
      if staged.Fail? {
        if bound {
          Discard(fs, temp);
        }
        return Failure(staged.error);
      }
      match run
      case Raised(e) =>
        Discard(fs, temp);
        r := Failure(e);
      case Returned(frames, saveDir, outs) =>
        fs.MakeDirWith(saveDir, outs);
        if frames == [] {
          Discard(fs, temp);
          return Failure(IndexOutOfRange);
        }
        var detections := Success([]);
        if frames[0].boxes.Some? {
          detections := CollectDetections(frames[0].boxes.value);
        }
        if detections.Failure? {
          Discard(fs, temp);
          return Failure(detections.error);
        }
        var published := PublishArtifact(fs, temp, saveDir, outs, ImageExtensions, ImageNotFound, copyOk);
        if published.Failure? {
          Discard(fs, temp);
          return Failure(published.error);
        }
        r := Success((detections.value, published.value));
    }

    /** `detect_video`: the number of boxes over all frames and the name of the published video. */
    method DetectVideo(fs: FileSystem, videoBytes: Bytes, temp: FilePath, fate: WriteFate, copyOk: bool, run: BackendRun)
      returns (r: Result<(nat, string), Error>)
      requires fs.Valid() && Environment(fs.State(), temp, VideoSuffix, run)
      modifies fs
      ensures fs.Valid()
      ensures (r, fs.State()) == DetectVideoSpec(old(fs.State()), temp, videoBytes, fate, copyOk, run)
    {
      var staged, bound := StageInput(fs, temp, videoBytes, fate);
      if staged.Fail? {
        if bound {
          Discard(fs, temp);
        }
        return Failure(staged.error);
      }
      match run
      case Raised(e) =>
        Discard(fs, temp);
        r := Failure(e);
      case Returned(frames, saveDir, outs) =>
        fs.MakeDirWith(saveDir, outs);
        var total := CountDetections(frames);
        if frames == [] {
          Discard(fs, temp);
          return Failure(IndexOutOfRange);
        }
        var published := PublishArtifact(fs, temp, saveDir, outs, VideoExtensions, VideoNotFound, copyOk);
        if published.Failure? {
          Discard(fs, temp);
          return Failure(published.error);
        }
        r := Success((total, published.value));
    }
  }

  /**
   * The `NamedTemporaryFile(delete=False)` block: create the file, write the upload into it, bind
   * `temp_path`, then close the file on leaving the block. `bound` says whether `temp_path` was bound.
   */
  method StageInput(fs: FileSystem, temp: FilePath, data: Bytes, fate: WriteFate) returns (r: Outcome<Error>, bound: bool)
    requires fs.Valid()
    modifies fs
    ensures fs.Valid()
    ensures (r, fs.State(), bound) == Stage(old(fs.State()), temp, data, fate)
  {
    bound := false;
    r := fs.CreateFile(temp);
    if r.Fail? {
      return;
    }
    r := fs.WriteFile(temp, data, !fate.RefusedOnWrite?);
    if r.Fail? {
      return;
    }
    bound := true;
    r := fs.Close(temp, !fate.RefusedOnClose?);
  }

  /** The `except` branch: unlink the staged input and ignore whatever that unlink raises. */
  method Discard(fs: FileSystem, temp: FilePath)
    requires fs.Valid()
    modifies fs
    ensures fs.Valid()
    ensures fs.State() == Abort(old(fs.State()), temp)
  {
    var ignored := fs.Unlink(temp);
  }

  /** Find the artifact in the listing of `saveDir`, then publish it; the first step that raises ends the call. */
  method PublishArtifact(fs: FileSystem, temp: FilePath, saveDir: string, outs: seq<(string, Bytes)>,
                         exts: seq<string>, notFound: string, copyOk: bool) returns (r: Result<string, Error>)
    requires fs.Valid()
    modifies fs
    ensures fs.Valid()
    ensures (r, fs.State()) == Publish(old(fs.State()), temp, saveDir, outs, exts, notFound, copyOk)
  {
    var found := Resolve(Names(outs), exts, notFound);
    if found.Failure? {
      return Failure(found.error);
    }
    r := PublishResolved(fs, temp, saveDir, found.value, copyOk);
  }

  /** Copy the artifact to `static/result_<name>`, unlink the staged input and the artifact, and remove `saveDir`. */
  method PublishResolved(fs: FileSystem, temp: FilePath, saveDir: string, file: string, copyOk: bool)
    returns (r: Result<string, Error>)
    requires fs.Valid()
    modifies fs
    ensures fs.Valid()
    ensures (r, fs.State()) == PublishFile(old(fs.State()), temp, saveDir, file, copyOk)
  {
    var src := FilePath(saveDir, file);
    var name := PublishedName(file);
    var step := fs.Copy(src, FilePath(StaticDir, name), copyOk);
    if step.Fail? {
      return Failure(step.error);
    }
    step := fs.Unlink(temp);
    if step.Fail? {
      return Failure(step.error);
    }
    step := fs.Unlink(src);
    if step.Fail? {
      return Failure(step.error);
    }
    step := fs.Rmdir(saveDir);
    if step.Fail? {
      return Failure(step.error);
    }
    r := Success(name);
  }
}
