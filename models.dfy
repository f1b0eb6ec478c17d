/**
 * The response records of the detector (app/models.py). Each pydantic field constraint
 * becomes a validity predicate; a record that pydantic would reject is never built.
 */
module Models {
  import opened Wrappers
  import opened Errors

  /** Absolute pixel coordinates of one detected logo. */
  datatype BoundingBox = BoundingBox(xMin: int, yMin: int, xMax: int, yMax: int)

  /** `ge=0` on each of the four fields, and nothing else: no ordering between min and max. */
  predicate ValidBox(b: BoundingBox)
  {
    b.xMin >= 0 && b.yMin >= 0 && b.xMax >= 0 && b.yMax >= 0
  }

  /** The fields whose value is below 0, in declaration order (the order pydantic reports them). */
  function FailingFields(xMin: int, yMin: int, xMax: int, yMax: int): (fields: seq<string>)
    ensures fields == [] <==> xMin >= 0 && yMin >= 0 && xMax >= 0 && yMax >= 0
    ensures |fields| <= 4
  {
    (if xMin < 0 then ["x_min"] else [])
    + (if yMin < 0 then ["y_min"] else [])
    + (if xMax < 0 then ["x_max"] else [])
    + (if yMax < 0 then ["y_max"] else [])
  }

  /** Each field is reported exactly when its own value is below 0, and `x_min` comes first when reported. */
  lemma ReportedFields(xMin: int, yMin: int, xMax: int, yMax: int)
    ensures var fields := FailingFields(xMin, yMin, xMax, yMax);
      && ("x_min" in fields <==> xMin < 0)
      && ("y_min" in fields <==> yMin < 0)
      && ("x_max" in fields <==> xMax < 0)
      && ("y_max" in fields <==> yMax < 0)
      && (xMin < 0 ==> fields[0] == "x_min")
  {
  }

  /** `BoundingBox(x_min=.., y_min=.., x_max=.., y_max=..)`: validates every field, then builds the record. */
  function MakeBox(xMin: int, yMin: int, xMax: int, yMax: int): (r: Result<BoundingBox, Error>)
    ensures r.Success? <==> xMin >= 0 && yMin >= 0 && xMax >= 0 && yMax >= 0
    ensures r.Success? ==> ValidBox(r.value)
    ensures r.Success? ==> r.value.xMin == xMin && r.value.yMin == yMin && r.value.xMax == xMax && r.value.yMax == yMax
    ensures r.Failure? ==> r.error.ValidationError? && r.error.model == "BoundingBox" && r.error.fields != []
  {
    var fields := FailingFields(xMin, yMin, xMax, yMax);
    if fields == [] then Success(BoundingBox(xMin, yMin, xMax, yMax))
    else Failure(ValidationError("BoundingBox", fields))
  }

  /** The model imposes no order between the minimum and maximum coordinates. */
  lemma MinMaxUnordered()
    ensures MakeBox(20, 30, 10, 5).Success?
    ensures exists b: BoundingBox :: ValidBox(b) && b.xMin > b.xMax && b.yMin > b.yMax
  {
    assert ValidBox(BoundingBox(20, 30, 10, 5));
  }

  /** One detected logo: exactly one bounding box. */
  datatype Detection = Detection(bbox: BoundingBox)

  predicate ValidDetection(d: Detection)
  {
    ValidBox(d.bbox)
  }

  predicate ValidDetections(ds: seq<Detection>)
  {
    forall i :: 0 <= i < |ds| ==> ValidDetection(ds[i])
  }

  /** Body of `/detect`. */
  datatype DetectionResponse = DetectionResponse(detections: seq<Detection>)

  /** Body of an error reply; `detail` is optional. */
  datatype ErrorResponse = ErrorResponse(error: string, detail: Option<string>)

  /** Body of `/detect-image`: the published file's name and the detections. */
  datatype ImageDetectionResponse = ImageDetectionResponse(imageData: string, detections: seq<Detection>)

  /** Body of `/detect-video`: the published file's name and an unbounded detection count. */
  datatype VideoDetectionResponse = VideoDetectionResponse(videoData: string, totalDetections: int)

  predicate ValidDetectionResponse(r: DetectionResponse)
  {
    ValidDetections(r.detections)
  }
}
