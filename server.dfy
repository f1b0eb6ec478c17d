/**
 * The image routes of main.py: `_process_image`, which collects one detection per box over every
 * result of the backend and outlines each box on a copy of the picture, and the handlers of
 * `/detect` and `/detect_with_image`, which guard the content type and map exceptions to HTTP errors.
 */
module Server {
  import opened Wrappers
  import opened Errors
  import opened Models
  import opened Truncation
  import opened Normalizer
  import opened Strings

  /** `cv2.rectangle(..., (0, 255, 255), 2)`: yellow in BGR order, two pixels wide. */
  const OutlineColour: (int, int, int) := (0, 255, 255)
  const OutlineThickness: int := 2

  const NotAnImage: string := "Файл должен быть изображением"
  const ProcessingFailed: string := "Ошибка обработки изображения: "
  const DetectionFailed: string := "Ошибка детекции: "

  /** What decoding the upload and running `predict` on it gave: an exception, or the results. */
  datatype Prediction =
    | Raised(error: Error)
    | Predicted(frames: seq<Frame>)

  /** One rectangle drawn onto the annotated copy of the picture. */
  datatype Stroke = Stroke(x1: int, y1: int, x2: int, y2: int, colour: (int, int, int), thickness: int)

  /** fastapi's `HTTPException`. */
  datatype HttpException = HttpException(status: nat, detail: string)

  /** An uploaded file; `content_type` may be absent. */
  datatype Upload = Upload(contentType: Option<string>, content: seq<bv8>)

  /** How a handler ends: a body, an `HTTPException`, or some other exception escaping it. */
  datatype Reply<T> =
    | Respond(body: T)
    | Raise(exception: HttpException)
    | Unhandled(error: Error)

  /** Body of `/detect_with_image`; the annotated picture is given by the strokes drawn on it. */
  datatype ImageResponse = ImageResponse(detections: seq<Detection>, annotated: seq<Stroke>)

  /** `str(HTTPException)`: the status code, a colon, then the detail. */
  function HttpText(h: HttpException): string
  {
    NatToString(h.status) + ": " + h.detail
  }

  /** Two collections in a row: the first failure wins, otherwise the detections concatenate. */
  function Then(a: Result<seq<Detection>, Error>, b: Result<seq<Detection>, Error>): Result<seq<Detection>, Error>
  {
    if a.Failure? then a else if b.Failure? then b else Success(a.value + b.value)
  }

  /**
   * The detections of all results, ordered by result and then by box; results without boxes add
   * none, and the first rejected box ends the collection with its validation error.
   */
  function CollectAll(frames: seq<Frame>): (r: Result<seq<Detection>, Error>)
    ensures r.Success? ==> ValidDetections(r.value)
    ensures r.Failure? ==> r.error.ValidationError? && r.error.model == "BoundingBox"
    decreases |frames|
  {
    if frames == [] then Success([])
    else
      var n := |frames| - 1;
      Then(CollectAll(frames[..n]), FrameDetections(frames[n]))
  }

  /** What `_process_image` computes before any exception is turned into an HTTP error. */
  function Processed(p: Prediction): Result<seq<Detection>, Error>
  {
    match p
    case Raised(e) => Failure(e)
    case Predicted(frames) => CollectAll(frames)
  }

  /** The rectangle `cv2.rectangle` draws for a detection: its own four integers, in yellow, two pixels wide. */
  function Outline(d: Detection): Stroke
  {
    Stroke(d.bbox.xMin, d.bbox.yMin, d.bbox.xMax, d.bbox.yMax, OutlineColour, OutlineThickness)
  }

  /** `strokes` outlines `ds` one for one. */
  predicate Outlined(ds: seq<Detection>, strokes: seq<Stroke>)
  {
    |strokes| == |ds| && forall i :: 0 <= i < |ds| ==> strokes[i] == Outline(ds[i])
  }

  lemma OutlinedConcat(ds: seq<Detection>, strokes: seq<Stroke>, ds': seq<Detection>, strokes': seq<Stroke>)
    requires Outlined(ds, strokes) && Outlined(ds', strokes')
    ensures Outlined(ds + ds', strokes + strokes')
  {
  }

  lemma ThenAssociative(a: Result<seq<Detection>, Error>, b: Result<seq<Detection>, Error>, c: Result<seq<Detection>, Error>)
    ensures Then(Then(a, b), c) == Then(a, Then(b, c))
  {
    if a.Success? && b.Success? && c.Success? {
      assert (a.value + b.value) + c.value == a.value + (b.value + c.value);
    }
  }

  lemma ThenEmpty(a: Result<seq<Detection>, Error>)
    ensures Then(a, Success([])) == a && Then(Success([]), a) == a
  {
    if a.Success? {
      assert a.value + [] == a.value && [] + a.value == a.value;
    }
  }

  /** Collecting over two runs of results is collecting over each in turn. */
  lemma {:induction false} CollectAllAppend(a: seq<Frame>, b: seq<Frame>)
    ensures CollectAll(a + b) == Then(CollectAll(a), CollectAll(b))
    decreases |b|
  {
    if b == [] {
      assert a + b == a;
      ThenEmpty(CollectAll(a));
    } else {
      var n := |b| - 1;
      assert (a + b)[..|a + b| - 1] == a + b[..n];
      assert (a + b)[|a + b| - 1] == b[n];
      CollectAllAppend(a, b[..n]);
      ThenAssociative(CollectAll(a), CollectAll(b[..n]), FrameDetections(b[n]));
    }
  }

  /** Once a prefix of the results is rejected, the whole collection fails with the same error. */
  lemma CollectPrefixRejected(frames: seq<Frame>, m: nat)
    requires m <= |frames|
    requires CollectAll(frames[..m]).Failure?
    ensures CollectAll(frames) == CollectAll(frames[..m])
  {
    assert frames == frames[..m] + frames[m..];
    CollectAllAppend(frames[..m], frames[m..]);
  }

  /** The results of one frame alone are that frame's detections. */
  lemma CollectOne(f: Frame)
    ensures CollectAll([f]) == FrameDetections(f)
  {
    assert [f][..0] == [];
    ThenEmpty(FrameDetections(f));
  }

  /** A result without boxes contributes nothing, wherever it stands. */
  lemma NoneResultAddsNothing(a: seq<Frame>, b: seq<Frame>)
    ensures CollectAll(a + [Frame(None)] + b) == CollectAll(a + b)
  {
    CollectAllAppend(a + [Frame(None)], b);
    CollectAllAppend(a, [Frame(None)]);
    CollectAllAppend(a, b);
    CollectOne(Frame(None));
    ThenEmpty(CollectAll(a));
  }

  /** One detection per box: on success the count is the box count over all results. */
  lemma {:induction false} CollectAllCount(frames: seq<Frame>)
    requires CollectAll(frames).Success?
    ensures |CollectAll(frames).value| == SumCount(frames)
    decreases |frames|
  {
    if frames != [] {
      CollectAllCount(frames[..|frames| - 1]);
    }
  }

  /** Adding one result: the collection so far, then that result's detections. */
  lemma CollectStep(frames: seq<Frame>, i: nat)
    requires i < |frames|
    ensures CollectAll(frames[..i + 1]) == Then(CollectAll(frames[..i]), FrameDetections(frames[i]))
  {
    assert frames[..i + 1][..i] == frames[..i];
  }

  /** A result whose boxes do not all pass makes the whole collection fail. */
  lemma RejectedResultFails(frames: seq<Frame>, i: nat)
    requires i < |frames| && FrameDetections(frames[i]).Failure?
    ensures CollectAll(frames).Failure?
  {
    CollectStep(frames, i);
    if CollectAll(frames[..i]).Success? {
      CollectPrefixRejected(frames, i + 1);
    } else {
      CollectPrefixRejected(frames, i);
    }
  }

  /** When every result's boxes pass, so does the collection. */
  lemma {:induction false} AcceptedResultsSucceed(frames: seq<Frame>)
    requires forall i :: 0 <= i < |frames| ==> FrameDetections(frames[i]).Success?
    ensures CollectAll(frames).Success?
    decreases |frames|
  {
    if frames != [] {
      var n := |frames| - 1;
      var prefix := frames[..n];
      assert forall i :: 0 <= i < n ==> prefix[i] == frames[i];
      AcceptedResultsSucceed(prefix);
      CollectStep(frames, n);
      assert frames[..n + 1] == frames;
    }
  }

  /** Collection succeeds exactly when every result's boxes all pass validation. */
  lemma CollectAllSucceeds(frames: seq<Frame>)
    ensures CollectAll(frames).Success? <==> forall i :: 0 <= i < |frames| ==> FrameDetections(frames[i]).Success?
  {
    if forall i :: 0 <= i < |frames| ==> FrameDetections(frames[i]).Success? {
      AcceptedResultsSucceed(frames);
    } else {
      var i :| 0 <= i < |frames| && FrameDetections(frames[i]).Failure?;
      RejectedResultFails(frames, i);
    }
  }

  /**
   * On a single result the route and `LogoDetector.detect_image` agree; on several, the route's
   * detections begin with the detector's, which reads the first result only.
   */
  lemma FirstResultIsPrefix(first: Frame, rest: seq<Frame>)
    requires CollectAll([first] + rest).Success?
    ensures CollectAll([first]) == FrameDetections(first)
    ensures FrameDetections(first).Success?
    ensures FrameDetections(first).value <= CollectAll([first] + rest).value
  {
    CollectOne(first);
    CollectAllAppend([first], rest);
  }

  /**
   * The inner loop of `_process_image` over one result's boxes: each box yields a detection and
   * an outline with the same four integers; a rejected box raises its validation error.
   */
  method OutlineBoxes(boxes: seq<NativeBox>) returns (r: Result<(seq<Detection>, seq<Stroke>), Error>)
    ensures r.Success? <==> NormalizeAll(boxes).Success?
    ensures r.Success? ==> r.value.0 == NormalizeAll(boxes).value && Outlined(r.value.0, r.value.1)
    ensures r.Failure? ==> r.error == NormalizeAll(boxes).error
  {
    var found: seq<Detection> := [];
    var drawn: seq<Stroke> := [];
    var j := 0;
    while j < |boxes|
      invariant 0 <= j <= |boxes|
      invariant NormalizeAll(boxes[..j]) == Success(found)
      invariant Outlined(found, drawn)
    {
      var detection := Normalize(boxes[j]);
      NormalizeExtend(boxes, j, found);
      if detection.Failure? {
        return Failure(detection.error);
      }
      var bbox := detection.value.bbox;
      found := found + [detection.value];
      drawn := drawn + [Stroke(bbox.xMin, bbox.yMin, bbox.xMax, bbox.yMax, OutlineColour, OutlineThickness)];
      j := j + 1;
    }
    assert boxes[..j] == boxes;
    r := Success((found, drawn));
  }

  /** The outer loop of `_process_image`: the boxes of every result, in result order. */
  method AppendResults(frames: seq<Frame>) returns (r: Result<(seq<Detection>, seq<Stroke>), Error>)
    ensures r.Success? <==> CollectAll(frames).Success?
    ensures r.Success? ==> r.value.0 == CollectAll(frames).value && Outlined(r.value.0, r.value.1)
    ensures r.Failure? ==> r.error == CollectAll(frames).error
  {
    var detections: seq<Detection> := [];
    var annotated: seq<Stroke> := [];
    var i := 0;
    while i < |frames|
      invariant 0 <= i <= |frames|
      invariant CollectAll(frames[..i]) == Success(detections)
      invariant Outlined(detections, annotated)
    {
      CollectStep(frames, i);
      if frames[i].boxes.Some? {
        var outlined := OutlineBoxes(frames[i].boxes.value);
        if outlined.Failure? {
          CollectPrefixRejected(frames, i + 1);
          return Failure(outlined.error);
        }
        OutlinedConcat(detections, annotated, outlined.value.0, outlined.value.1);
        detections, annotated := detections + outlined.value.0, annotated + outlined.value.1;
      } else {
        assert detections + [] == detections;
      }
      i := i + 1;
    }
    assert frames[..i] == frames;
    r := Success((detections, annotated));
  }

  /**
   * `_process_image`: every box of every result becomes a detection and an outline on the
   * annotated copy; any exception, including a rejected bounding box, becomes a 400.
   */
  method ProcessImage(p: Prediction) returns (r: Result<(seq<Detection>, seq<Stroke>), HttpException>)
    ensures r.Success? <==> Processed(p).Success?
    ensures r.Success? ==> r.value.0 == Processed(p).value && Outlined(r.value.0, r.value.1)
    ensures r.Failure? ==> r.error == HttpException(400, ProcessingFailed + Message(Processed(p).error))
  {
    var collected: Result<(seq<Detection>, seq<Stroke>), Error>;
    match p {
      case Raised(e) =>
        collected := Failure(e);
      case Predicted(frames) =>
        collected := AppendResults(frames);
    }
    if collected.Failure? {
      return Failure(HttpException(400, ProcessingFailed + Message(collected.error)));
    }
    r := Success(collected.value);
  }

  /** `/detect`: the detections of `_process_image`, with the annotated picture dropped. */
  method DetectLogo(upload: Upload, p: Prediction) returns (r: Reply<DetectionResponse>)
    ensures r.Unhandled? <==> upload.contentType.None?
    ensures r.Raise? && r.exception.status == 400
        <==> upload.contentType.Some? && !StartsWith(upload.contentType.value, "image/")
    ensures r.Raise? && r.exception.status == 400 ==> r.exception.detail == NotAnImage
    ensures r.Respond? <==> upload.contentType.Some? && StartsWith(upload.contentType.value, "image/")
                            && Processed(p).Success?
    ensures r.Respond? ==> r.body == DetectionResponse(Processed(p).value) && ValidDetectionResponse(r.body)
    ensures r.Raise? && r.exception.status != 400 ==>
      r.exception == HttpException(500, DetectionFailed + HttpText(HttpException(400, ProcessingFailed + Message(Processed(p).error))))
  {
    if upload.contentType.None? {
      return Unhandled(AttributeError("'NoneType' object has no attribute 'startswith'"));
    }
    if !StartsWith(upload.contentType.value, "image/") {
      return Raise(HttpException(400, NotAnImage));
    }
    var processed := ProcessImage(p);
    if processed.Failure? {
      return Raise(HttpException(500, DetectionFailed + HttpText(processed.error)));
    }
    r := Respond(DetectionResponse(processed.value.0));
  }

  /** `/detect_with_image`: the detections together with the annotated picture. */
  method DetectLogoWithImage(upload: Upload, p: Prediction) returns (r: Reply<ImageResponse>)
    ensures r.Unhandled? <==> upload.contentType.None?
    ensures r.Raise? && r.exception.status == 400
        <==> upload.contentType.Some? && !StartsWith(upload.contentType.value, "image/")
    ensures r.Raise? && r.exception.status == 400 ==> r.exception.detail == NotAnImage
    ensures r.Respond? <==> upload.contentType.Some? && StartsWith(upload.contentType.value, "image/")
                            && Processed(p).Success?
    ensures r.Respond? ==> r.body.detections == Processed(p).value && ValidDetections(r.body.detections)
                           && Outlined(r.body.detections, r.body.annotated)
    ensures r.Raise? && r.exception.status != 400 ==>
      r.exception == HttpException(500, DetectionFailed + HttpText(HttpException(400, ProcessingFailed + Message(Processed(p).error))))
  {
    if upload.contentType.None? {
      return Unhandled(AttributeError("'NoneType' object has no attribute 'startswith'"));
    }
    if !StartsWith(upload.contentType.value, "image/") {
      return Raise(HttpException(400, NotAnImage));
    }
    var processed := ProcessImage(p);
    if processed.Failure? {
      return Raise(HttpException(500, DetectionFailed + HttpText(processed.error)));
    }
    r := Respond(ImageResponse(processed.value.0, processed.value.1));
  }

  /** The 500 of a route names the 400 it wraps: its detail reads "Ошибка детекции: 400: Ошибка обработки изображения: …". */
  lemma WrappedDetail(message: string)
    ensures HttpText(HttpException(400, ProcessingFailed + message)) == "400: " + ProcessingFailed + message
  {
    BadRequestCode();
  }

  /** `str(400)` is "400". */
  lemma BadRequestCode()
    ensures NatToString(400) == "400"
  {
    var four := NatToString(4);
    assert four == "4";
    var forty := NatToString(40);
    assert forty == four + "0";
    assert NatToString(400) == forty + "0";
  }
}
