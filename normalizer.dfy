/**
 * The detection normalizer and the video aggregation of app/detector.py: backend boxes become
 * `Detection` records by truncating each coordinate, and a video's frames are summed into one count.
 */
module Normalizer {
  import opened Wrappers
  import opened Errors
  import opened Models
  import opened Truncation

  /** `box.xyxy[0]`: the corner coordinates (x1, y1, x2, y2) as the backend reports them. */
  datatype NativeBox = NativeBox(x1: real, y1: real, x2: real, y2: real)

  /** One element of what `predict` returns; only its `boxes`, which may be `None`, matters here. */
  datatype Frame = Frame(boxes: Option<seq<NativeBox>>)

  /** `Detection(bbox=BoundingBox(x_min=int(x1), y_min=int(y1), x_max=int(x2), y_max=int(y2)))`. */
  function Normalize(b: NativeBox): (r: Result<Detection, Error>)
    ensures r.Success? <==> b.x1 > -1.0 && b.y1 > -1.0 && b.x2 > -1.0 && b.y2 > -1.0
    ensures r.Success? ==> ValidDetection(r.value)
    ensures r.Success? ==> r.value.bbox == BoundingBox(Trunc(b.x1), Trunc(b.y1), Trunc(b.x2), Trunc(b.y2))
    ensures r.Failure? ==> r.error.ValidationError? && r.error.model == "BoundingBox"
  {
    TruncNonNegative(b.x1); TruncNonNegative(b.y1); TruncNonNegative(b.x2); TruncNonNegative(b.y2);
    match MakeBox(Trunc(b.x1), Trunc(b.y1), Trunc(b.x2), Trunc(b.y2))
    case Success(box) => Success(Detection(box))
    case Failure(e) => Failure(e)
  }

  /** Box `k` is the first one whose normalization is rejected. */
  predicate FirstRejected(boxes: seq<NativeBox>, k: int)
  {
    0 <= k < |boxes| && Normalize(boxes[k]).Failure?
    && forall j :: 0 <= j < k ==> Normalize(boxes[j]).Success?
  }

  /** Normalizing every box in order; the first rejected box raises and ends the scan. */
  function NormalizeAll(boxes: seq<NativeBox>): (r: Result<seq<Detection>, Error>)
    ensures r.Success? <==> forall i :: 0 <= i < |boxes| ==> Normalize(boxes[i]).Success?
    ensures r.Success? ==> |r.value| == |boxes|
    ensures r.Success? ==> forall i :: 0 <= i < |boxes| ==> r.value[i] == Normalize(boxes[i]).value
    ensures r.Failure? ==> r.error.ValidationError? && r.error.model == "BoundingBox"
    decreases |boxes|
  {
    if boxes == [] then Success([])
    else
      var n := |boxes| - 1;
      assert forall j :: 0 <= j < n ==> boxes[..n][j] == boxes[j];
      match NormalizeAll(boxes[..n])
      case Failure(e) => Failure(e)
      case Success(ds) =>
        match Normalize(boxes[n])
        case Failure(e) => Failure(e)
        case Success(d) => Success(ds + [d])
  }

  /** A failing scan raises the error of the first rejected box. */
  lemma {:induction false} RejectionIsFirst(boxes: seq<NativeBox>)
    requires NormalizeAll(boxes).Failure?
    ensures exists k :: FirstRejected(boxes, k) && NormalizeAll(boxes).error == Normalize(boxes[k]).error
    decreases |boxes|
  {
    var n := |boxes| - 1;
    var prefix := boxes[..n];
    assert forall j :: 0 <= j < n ==> prefix[j] == boxes[j];
    if NormalizeAll(prefix).Failure? {
      RejectionIsFirst(prefix);
      var k :| FirstRejected(prefix, k) && NormalizeAll(prefix).error == Normalize(prefix[k]).error;
      assert FirstRejected(boxes, k);
    } else {
      assert FirstRejected(boxes, n);
    }
  }

  /** Once a prefix of the boxes is rejected, the whole scan raises the same error. */
  lemma PrefixRejected(boxes: seq<NativeBox>, m: nat)
    requires m <= |boxes|
    requires NormalizeAll(boxes[..m]).Failure?
    ensures NormalizeAll(boxes) == NormalizeAll(boxes[..m])
  {
    var p := boxes[..m];
    var e := NormalizeAll(p).error;
    RejectionIsFirst(p);
    var k :| FirstRejected(p, k) && e == Normalize(p[k]).error;
    assert p[k] == boxes[k];
    forall j | 0 <= j < k
      ensures Normalize(boxes[j]).Success?
    {
      assert p[j] == boxes[j];
    }
    assert FirstRejected(boxes, k);
    var whole := NormalizeAll(boxes);
    RejectionIsFirst(boxes);
    var k' :| FirstRejected(boxes, k') && whole.error == Normalize(boxes[k']).error;
    FirstRejectedUnique(boxes, k, k');
  }

  lemma FirstRejectedUnique(boxes: seq<NativeBox>, k: int, k': int)
    requires FirstRejected(boxes, k) && FirstRejected(boxes, k')
    ensures k == k'
  {
  }

  /** Extending an accepted prefix by one box: the scan adds that box's detection, or raises its error. */
  lemma NormalizeExtend(boxes: seq<NativeBox>, j: nat, found: seq<Detection>)
    requires j < |boxes| && NormalizeAll(boxes[..j]) == Success(found)
    ensures Normalize(boxes[j]).Success? ==> NormalizeAll(boxes[..j + 1]) == Success(found + [Normalize(boxes[j]).value])
    ensures Normalize(boxes[j]).Failure? ==> NormalizeAll(boxes) == Failure(Normalize(boxes[j]).error)
  {
    assert boxes[..j + 1][..j] == boxes[..j];
    if Normalize(boxes[j]).Failure? {
      PrefixRejected(boxes, j + 1);
    }
  }

  /** The loop of lines 52-64: one detection appended per box, in box order. */
  method CollectDetections(boxes: seq<NativeBox>) returns (r: Result<seq<Detection>, Error>)
    ensures r == NormalizeAll(boxes)
  {
    var detections: seq<Detection> := [];
    var i := 0;
    while i < |boxes|
      invariant 0 <= i <= |boxes|
      invariant NormalizeAll(boxes[..i]) == Success(detections)
    {
      var d := Normalize(boxes[i]);
      NormalizeExtend(boxes, i, detections);
      if d.Failure? {
        return Failure(d.error);
      }
      detections := detections + [d.value];
      i := i + 1;
    }
    assert boxes[..i] == boxes;
    r := Success(detections);
  }

  /** The detections of one result: none at all when its `boxes` is `None`. */
  function FrameDetections(f: Frame): Result<seq<Detection>, Error>
  {
    match f.boxes
    case None => Success([])
    case Some(bs) => NormalizeAll(bs)
  }

  /** `len(result.boxes)`, or nothing when `boxes` is `None`. */
  function BoxCount(f: Frame): nat
  {
    match f.boxes
    case None => 0
    case Some(bs) => |bs|
  }

  /** Sum of the box counts of all frames. */
  function SumCount(frames: seq<Frame>): nat
    decreases |frames|
  {
    if frames == [] then 0
    else SumCount(frames[..|frames| - 1]) + BoxCount(frames[|frames| - 1])
  }

  /** The loop of lines 134-137: `total_detections` accumulated frame by frame. */
  method CountDetections(frames: seq<Frame>) returns (total: nat)
    ensures total == SumCount(frames)
  {
    total := 0;
    var i := 0;
    while i < |frames|
      invariant 0 <= i <= |frames|
      invariant total == SumCount(frames[..i])
    {
      assert frames[..i + 1][..i] == frames[..i];
      if frames[i].boxes.Some? {
        total := total + |frames[i].boxes.value|;
      }
      i := i + 1;
    }
    assert frames[..i] == frames;
  }

  /** The count is additive over consecutive runs of frames. */
  lemma {:induction false} SumCountAppend(a: seq<Frame>, b: seq<Frame>)
    ensures SumCount(a + b) == SumCount(a) + SumCount(b)
    decreases |b|
  {
    if b == [] {
      assert a + b == a;
    } else {
      var n := |b| - 1;
      assert (a + b)[..|a + b| - 1] == a + b[..n];
      SumCountAppend(a, b[..n]);
    }
  }

  /** A frame whose `boxes` is `None` adds nothing, wherever it stands. */
  lemma NoneFrameAddsNothing(a: seq<Frame>, b: seq<Frame>)
    ensures SumCount(a + [Frame(None)] + b) == SumCount(a + b)
  {
    SumCountAppend(a + [Frame(None)], b);
    SumCountAppend(a, b);
    assert (a + [Frame(None)])[..|a|] == a;
  }

  /** Frames with 0, 2, 1, 0 and 3 boxes give a total of 6. */
  lemma CountExample(b: NativeBox)
    ensures SumCount([Frame(None), Frame(Some([b, b])), Frame(Some([b])), Frame(Some([])), Frame(Some([b, b, b]))]) == 6
  {
    var fs := [Frame(None), Frame(Some([b, b])), Frame(Some([b])), Frame(Some([])), Frame(Some([b, b, b]))];
    assert SumCount(fs[..1]) == 0 by { assert fs[..1][..0] == []; }
    assert SumCount(fs[..2]) == 2 by { assert fs[..2][..1] == fs[..1]; }
    assert SumCount(fs[..3]) == 3 by { assert fs[..3][..2] == fs[..2]; }
    assert SumCount(fs[..4]) == 3 by { assert fs[..4][..3] == fs[..3]; }
    assert fs[..5] == fs;
  }
}
