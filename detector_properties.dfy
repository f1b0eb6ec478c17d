/**
 * What `detect_image` and `detect_video` promise their caller, derived from the lifecycle lemmas:
 * exactly when they succeed, and what the successful result holds.
 */
module DetectorProperties {
  import opened Wrappers
  import opened Errors
  import opened Models
  import opened Truncation
  import opened Normalizer
  import opened Resolver
  import opened Storage
  import opened Lifecycle
  import opened LifecycleProperties

  /** The boxes of one result, none when `boxes` is `None`. */
  function Boxes(f: Frame): seq<NativeBox>
  {
    match f.boxes
    case None => []
    case Some(bs) => bs
  }

  /** Every corner coordinate of every box truncates to a non-negative integer. */
  predicate AllInFrame(f: Frame)
  {
    forall i :: 0 <= i < |Boxes(f)| ==>
      Boxes(f)[i].x1 > -1.0 && Boxes(f)[i].y1 > -1.0 && Boxes(f)[i].x2 > -1.0 && Boxes(f)[i].y2 > -1.0
  }

  /** The conditions on the disk, the device and the backend under which a request can be published. */
  predicate Publishable(d: Disk, temp: FilePath, fate: WriteFate, copyOk: bool, run: BackendRun, exts: seq<string>)
  {
    temp.dir in d.dirs && fate == Written && copyOk && run.Returned? && run.frames != [] && StaticDir in d.dirs
    && |run.outputs| == 1 && EndsWithAny(run.outputs[0].0, exts)
  }

  /**
   * The detections of one result: they exist exactly when every box lies within the frame, and are
   * then one valid detection per box, in order, each coordinate truncated.
   */
  lemma FrameAccepted(f: Frame)
    ensures FrameDetections(f).Success? <==> AllInFrame(f)
    ensures FrameDetections(f).Success? ==>
      var dets, bs := FrameDetections(f).value, Boxes(f);
      && ValidDetections(dets)
      && |dets| == BoxCount(f)
      && (forall i :: 0 <= i < |dets| ==>
            dets[i].bbox == BoundingBox(Trunc(bs[i].x1), Trunc(bs[i].y1), Trunc(bs[i].x2), Trunc(bs[i].y2)))
  {
    var bs := Boxes(f);
    assert FrameDetections(f) == NormalizeAll(bs);
    if AllInFrame(f) {
      forall i | 0 <= i < |bs| ensures Normalize(bs[i]).Success? {
        assert bs[i].x1 > -1.0 && bs[i].y1 > -1.0 && bs[i].x2 > -1.0 && bs[i].y2 > -1.0;
      }
    }
    if NormalizeAll(bs).Success? {
      var dets := NormalizeAll(bs).value;
      forall i | 0 <= i < |dets| ensures ValidDetection(dets[i]) {
        assert dets[i] == Normalize(bs[i]).value;
      }
    }
  }

  /**
   * `detect_image` succeeds exactly when the request is publishable and every box of the first
   * result lies within the frame; its detections are then the boxes of that first result, in order,
   * each coordinate truncated, and the returned name is `result_` followed by the backend's file name.
   */
  lemma DetectImageSuccess(d: Disk, temp: FilePath, data: Bytes, fate: WriteFate, copyOk: bool, run: BackendRun)
    requires Environment(d, temp, ImageSuffix, run)
    ensures var r := DetectImageSpec(d, temp, data, fate, copyOk, run).0;
      r.Success? <==> Publishable(d, temp, fate, copyOk, run, ImageExtensions) && AllInFrame(run.frames[0])
    ensures var r := DetectImageSpec(d, temp, data, fate, copyOk, run).0;
      r.Success? ==>
        var dets, bs := r.value.0, Boxes(run.frames[0]);
        && ValidDetections(dets)
        && |dets| == BoxCount(run.frames[0])
        && (forall i :: 0 <= i < |dets| ==>
              dets[i].bbox == BoundingBox(Trunc(bs[i].x1), Trunc(bs[i].y1), Trunc(bs[i].x2), Trunc(bs[i].y2)))
        && r.value.1 == ResultPrefix + run.outputs[0].0
  {
    var payload := ImagePayload(run);
    RunSuccess(d, temp, ImageSuffix, data, fate, copyOk, run, payload, ImageExtensions, ImageNotFound);
    if run.Returned? && run.frames != [] {
      assert payload == FrameDetections(run.frames[0]);
      FrameAccepted(run.frames[0]);
    }
  }

  /**
   * `detect_video` succeeds exactly when the request is publishable, whatever the boxes; its count is
   * the number of boxes over all results, and the returned name is `result_` followed by the backend's
   * file name.
   */
  lemma DetectVideoSuccess(d: Disk, temp: FilePath, data: Bytes, fate: WriteFate, copyOk: bool, run: BackendRun)
    requires Environment(d, temp, VideoSuffix, run)
    ensures var r := DetectVideoSpec(d, temp, data, fate, copyOk, run).0;
      r.Success? <==> Publishable(d, temp, fate, copyOk, run, VideoExtensions)
    ensures var r := DetectVideoSpec(d, temp, data, fate, copyOk, run).0;
      r.Success? ==> r.value.0 == SumCount(run.frames) && r.value.1 == ResultPrefix + run.outputs[0].0
  {
    RunSuccess(d, temp, VideoSuffix, data, fate, copyOk, run, VideoPayload(run), VideoExtensions, VideoNotFound);
  }

  /** `detect_image` reads `results[0]` only: later results change nothing. */
  lemma ImageIgnoresLaterResults(d: Disk, temp: FilePath, data: Bytes, fate: WriteFate, copyOk: bool,
                                 first: Frame, rest: seq<Frame>, saveDir: string, outs: seq<(string, Bytes)>)
    ensures DetectImageSpec(d, temp, data, fate, copyOk, Returned([first] + rest, saveDir, outs))
         == DetectImageSpec(d, temp, data, fate, copyOk, Returned([first], saveDir, outs))
  {
  }
}
