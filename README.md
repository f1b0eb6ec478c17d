# T-Bank logo detector: a verified model of the detection pipeline

This project models the core of the T-Bank logo detector. It covers:

- `LogoDetector.detect_image` and `LogoDetector.detect_video` in app/detector.py. Each call stages
  the uploaded bytes in a temporary file and hands that file to the inference backend. It then turns
  the backend's boxes into `Detection` records (image) or a box count (video), and finds the annotated
  artifact in the backend's save directory. Finally it copies the artifact to `static/result_<name>`
  and cleans up.
- The pydantic records of app/models.py.
- The image routes of main.py: `_process_image` with its nested collection loop, the content-type
  guard, and the mapping of exceptions to HTTP errors.

Modules, in dependency order:

- `Wrappers` has `Option`, `Result` and `Outcome` (a result without a value).
- `Strings` has `str.startswith` and `str.endswith`.
- `Errors` has the exceptions the pipeline raises and the text `str(e)` gives for each.
- `Models` has `BoundingBox`, `Detection` and the response records, with validity predicates.
  `MakeBox` is pydantic's validation.
- `Truncation` has Python's `int()` on a float: truncation toward zero.
- `Normalizer` turns boxes into detections and counts the boxes of a video. `CollectDetections` and
  `CountDetections` are the source's loops.
- `Resolver` finds the artifact in listing order, by extension (`FirstMatch`, `Resolve`), and has
  `os.path.basename`.
- `Storage` holds the file system, `Disk`: files keyed by (directory, name) plus a set of
  directories. The pure effect of each `os`/`shutil` call is a function (`CopyOn`, `UnlinkOn`,
  `RmdirOn`, …). The class `FileSystem` performs these calls in place.
- `Lifecycle` holds one request as a function from the disk before the call to the outcome and the
  disk after it: `Stage`, `Produce`, `Publish` (resolution, then `PublishFile`), `Abort`, `Finish`, `Run`, `DetectImageSpec` and
  `DetectVideoSpec`.
- `LifecycleProperties` proves the outcome and the disk on every exit path.
- `DetectorProperties` states when each entry point succeeds and what it returns.
- `Detector` holds the class `LogoDetector`. Its methods `DetectImage` and `DetectVideo` change a
  `FileSystem` step by step, as the source does. Each is proved to end in exactly the outcome and
  state of `DetectImageSpec` or `DetectVideoSpec`.
- `Server` models main.py.

Inputs the model takes instead of computing:

- The inference backend's behaviour is a parameter (`BackendRun` for the detector, `Prediction`
  for main.py). A `BackendRun` either raised, or returned per-frame boxes, the save directory, and
  the files it wrote there, in `os.listdir` order.
- How the write into the temporary file ends is a parameter (`WriteFate`). The bytes reach the
  file (`Written`). Or `write()` itself raises, before `temp_path` is bound (`RefusedOnWrite`). Or
  `write()` only buffers and the flush on leaving the `with` block raises, after `temp_path` is
  bound (`RefusedOnClose`), so the `except` branch unlinks the file.
- Whether the device takes the bytes of the published copy is a parameter (`copyOk`). When it
  does not, `shutil.copy2` has already opened and truncated `static/result_<name>` and raises
  `OSError` (errno 28); the `except` branch unlinks only the staged input, so the empty copy stays.
- `Environment` states what the surroundings guarantee:
  - the temporary name is fresh and starts with `tmp`;
  - the save directory is new and lies under `temp/`;
  - the names in it are distinct and contain no `/`.

app/models.py checks only that each field is `≥ 0` and sets no order between minimum and maximum;
`MinMaxUnordered` exhibits a valid box whose minimum is above its maximum.

## Model

| member | source | states |
|---|---|---|
| Models.FailingFields | app/models.py:7-10 | nothing is reported exactly when all four fields are ≥ 0, and at most the four fields are reported |
| Models.ReportedFields | app/models.py:7-10 | each field is reported exactly when its own value is below 0, and `x_min`, when reported, comes first |
| Models.MakeBox | app/models.py:5-10 | construction succeeds exactly when all four fields are ≥ 0, and keeps them unchanged; otherwise it raises a `BoundingBox` validation error naming at least one field |
| Models.MinMaxUnordered | app/models.py:7-10 | no order between min and max is enforced: a box with x_min > x_max and y_min > y_max is valid |
| Truncation.Trunc | app/detector.py:59-62 | `int(x)` truncates toward zero: for x ≥ 0 it is the largest integer ≤ x, for x < 0 the smallest integer ≥ x |
| Truncation.TruncUnique | app/detector.py:59-62 | those bounds determine the result uniquely |
| Truncation.TruncOdd | app/detector.py:59-62 | truncation is symmetric, int(-x) = -int(x) (flooring is not) |
| Truncation.TruncNonNegative | app/detector.py:57-64 | a truncated coordinate passes `ge=0` exactly when the float is above -1.0 |
| Truncation.TruncExample | app/detector.py:53-63 | (10.9, 5.1, 20.4, 30.9) becomes (10, 5, 20, 30); -0.5 becomes 0 and -1.5 becomes -1 |
| Normalizer.Normalize | app/detector.py:53-64 | a box becomes a valid detection whose four fields are the truncated corners, exactly when every corner is above -1.0; otherwise a validation error of the `BoundingBox` model |
| Normalizer.NormalizeAll | app/detector.py:52-64 | all boxes succeed exactly when each does; then there is one detection per box, in box order; a failure is a validation error of the `BoundingBox` model |
| Normalizer.FrameDetections | app/detector.py:49-66 | definition: no detections when `boxes` is `None`, otherwise the detections of every box; its properties are in `DetectorProperties.FrameAccepted` |
| Normalizer.RejectionIsFirst | app/detector.py:52-64 | a failing scan raises the error of the first rejected box |
| Normalizer.NormalizeExtend | app/detector.py:52-64 | an accepted box appends its detection to those of the boxes before it; a rejected box ends the whole scan with its own error |
| Normalizer.PrefixRejected | app/detector.py:52-64 | once a prefix of the boxes fails, the whole scan fails with the same error |
| Normalizer.CollectDetections | app/detector.py:48-66 | the append loop computes `NormalizeAll` of the first result's boxes |
| Normalizer.CountDetections | app/detector.py:134-137 | the accumulation loop computes `SumCount`, the sum of `len(boxes)` over frames whose boxes are not `None` |
| Normalizer.SumCountAppend | app/detector.py:134-137 | the count over two runs of frames is the sum of their counts |
| Normalizer.NoneFrameAddsNothing | app/detector.py:136-137 | a frame whose boxes are `None` adds 0 wherever it stands |
| Normalizer.CountExample | app/detector.py:134-137 | frames with None, 2, 1, 0 and 3 boxes count 6 |
| Resolver.FirstMatch | app/detector.py:73-77 | the first listed entry ending in an accepted extension, or none exactly when no entry matches |
| Resolver.Resolve | app/detector.py:73-81 | the search loop returns the first matching entry, which is in the listing; it raises `ValueError` with the not-found message exactly when nothing matches |
| Resolver.FirstMatchAt | app/detector.py:73-77 | a match with no match before it is the entry chosen |
| Resolver.MatchedNameNonEmpty | app/detector.py:79-81 | a matched name is never empty, so `if not image_file` is the no-match test |
| Resolver.ListingOrderWins | app/detector.py:73-77 | listing order, not extension order, decides: `a.png` before `b.jpg` yields `a.png` |
| Resolver.UpperCaseNotMatched | app/detector.py:75 | matching is case-sensitive: `a.JPG` is not an image |
| Resolver.Basename | app/detector.py:87 | `os.path.basename` is a suffix without `/` that is either the whole path or preceded by a `/` (so it starts after the last `/`), and a name without `/` is its own basename |
| Errors.NatToString | main.py:71 | `str(n)` is a non-empty run of decimal digits that denotes exactly `n`; a leading `0` occurs only as the whole string `0`, for `n` = 0 |
| Errors.Message | main.py:70-71 | definition of the text `str(e)` gives for each exception the pipeline raises; its use is stated by `Server.ProcessImage` and `Server.WrappedDetail` |
| Storage.WriteAllFiles | app/detector.py:69-70 | after the backend writes its outputs, the files are the earlier ones plus one per output name, and earlier files elsewhere keep their bytes |
| Storage.WriteAllContent | app/detector.py:83 | each output file holds the bytes written under its name |
| Storage.ListingMatchesDisk | app/detector.py:69-70 | the listing of a fresh save directory is exactly the output names |
| Storage.FileSystem.CreateFile | app/detector.py:30 | creates an empty file, or raises `FileNotFoundError` when its directory is missing; state is `CreateOn` |
| Storage.FileSystem.Close | app/detector.py:30-32 | leaving the `with` block flushes the file; a refused flush raises and leaves the disk as it was; state is `CloseOn` |
| Storage.FileSystem.WriteFile | app/detector.py:31 | stores the bytes, or raises and leaves the file as it was; state is `WriteOn` |
| Storage.FileSystem.Copy | app/detector.py:89 | copies the bytes to the destination, or raises when the source or the destination directory is missing; when the device refuses the bytes it raises errno 28 after truncating the destination to empty; state is `CopyOn` |
| Storage.FileSystem.Unlink | app/detector.py:93-94 | removes the file, or raises when it is missing; state is `UnlinkOn` |
| Storage.FileSystem.Rmdir | app/detector.py:95 | removes the directory only when it exists and is empty, otherwise raises errno 2 or 39; state is `RmdirOn` |
| Storage.FileSystem.MakeDirWith | app/detector.py:37-44 | the backend's save side effect: the loop creates the directory and writes every output; state is `WriteAllOn` |
| LifecycleProperties.SaveDirIsFresh | app/detector.py:37-44 | the backend's new directory under `temp/` is neither `static` nor the directory of the staged file |
| LifecycleProperties.StageAccepted | app/detector.py:30-32 | when the write reaches the file, the staged file holds exactly the uploaded bytes and `temp_path` is bound |
| LifecycleProperties.AfterBackendFile | app/detector.py:30-44 | after staging and saving, a file exists exactly when it existed before, is the staged input or is an output; earlier files keep their bytes; the save directory is the one new directory |
| LifecycleProperties.AfterBackendOutput | app/detector.py:37-44 | every output the backend reports exists in the save directory with its own bytes |
| LifecycleProperties.AfterBackendAbort | app/detector.py:100-107 | unlinking the staged file after saving leaves exactly what the backend alone would have left, without the staged file |
| LifecycleProperties.PublishResolves | app/detector.py:73-88 | when entry `i` is the first accepted name, that plain name is the one published, as `result_<name>` |
| LifecycleProperties.PublishedIsNotStaged | app/detector.py:87-88 | the published path `static/result_…` never coincides with the staged `tmp…` file |
| LifecycleProperties.PublishSteps | app/detector.py:86-95 | with the output and `static/` present and a device that takes the copy: copy to `static/result_<name>`, unlink the staged file, then the output, and `rmdir` alone decides the outcome |
| LifecycleProperties.ExtraOutputBlocksRmdir | app/detector.py:95 | any second output leaves the save directory non-empty, so `rmdir` raises `DirectoryNotEmpty` |
| LifecycleProperties.SingleOutputCleansUp | app/detector.py:93-95 | with a single output, the cleanup leaves the original disk plus the published copy |
| LifecycleProperties.StagingFailure | app/detector.py:30-32 | a missing temp directory raises with the disk unchanged; a `write()` that raises leaves the empty temp file, because `temp_path` is not yet bound |
| LifecycleProperties.CloseFailureRestoresDisk | app/detector.py:30-108 | a flush refused on leaving the `with` block raises after `temp_path` is bound, so the `except` branch unlinks the file and the disk is exactly as before the call |
| LifecycleProperties.BackendFailureRestoresDisk | app/detector.py:100-108 | a raising backend re-raises its own error, and the disk is exactly as before the call |
| LifecycleProperties.RunAfterBackend | app/detector.py:28-44 | after successful staging and a returning backend, the request continues from the staged and produced disk |
| LifecycleProperties.PayloadFailureKeepsBackendOutput | app/detector.py:100-108 | `results[0]` missing or a rejected box: that error is re-raised, the staged file is removed, and the save directory and its outputs remain |
| LifecycleProperties.MissingArtifactKeepsBackendOutput | app/detector.py:79-81 | no accepted extension: `ValueError` with the not-found message, and the save directory and its outputs remain |
| LifecycleProperties.PublishCopyFails | app/detector.py:89 | a missing `static/` makes the copy raise before anything else changes, whatever the device would do |
| LifecycleProperties.PublishCopyRefused | app/detector.py:89 | a device that refuses the copied bytes makes the copy raise errno 28 for the target path, leaving an empty `static/result_<name>` and unlinking nothing |
| LifecycleProperties.MissingStaticKeepsBackendOutput | app/detector.py:86-89 | a missing `static/` raises `FileNotFoundError` for the target path, and the save directory and its outputs remain |
| LifecycleProperties.CopyRefusedLeavesEmptyArtifact | app/detector.py:86-107 | a refused copy raises errno 28 for `static/result_<name>`; the staged file is removed, the save directory and its outputs remain, and an empty `static/result_<name>` is left behind |
| LifecycleProperties.ExtraOutputFailsAfterPublishing | app/detector.py:93-95 | an extra output makes `rmdir` raise after the copy and both unlinks: the published copy, the directory and the other outputs remain |
| LifecycleProperties.SingleOutputSucceeds | app/detector.py:86-98 | a single accepted output with `static/` present and a device that takes the copy: the call returns the payload and `result_<name>`, and the disk gains exactly that copy |
| LifecycleProperties.RunSuccess | app/detector.py:24-108 | a request succeeds exactly when staging works, the backend returns, the payload succeeds, `static/` exists, the device takes the copy and the single output has an accepted extension; afterwards neither the staged file nor the save directory exists |
| LifecycleProperties.RunFailureCleanup | app/detector.py:100-108 | after a failure the staged file survives exactly when `write()` itself raised (a refused flush on close and a refused copy are cleaned up), and a save directory the backend created is never removed |
| DetectorProperties.FrameAccepted | app/detector.py:48-64 | a result yields detections exactly when every corner of every box is above -1.0, and then one valid detection per box, in order, each the truncated corners |
| DetectorProperties.DetectImageSuccess | app/detector.py:24-98 | `detect_image` succeeds exactly when the request is publishable (staging works, the device takes the copy, the backend returns at least one result, `static/` exists, and its single output has an image extension) and every box of `results[0]` has all corners above -1.0. It then returns one valid detection per box of `results[0]`, in order, each the truncated corners, and the name `result_<file>` |
| DetectorProperties.DetectVideoSuccess | app/detector.py:110-174 | `detect_video` succeeds exactly when the request is publishable (as for images, with a video extension), whatever the boxes. It then returns the box count over all frames and the name `result_<file>` |
| DetectorProperties.ImageIgnoresLaterResults | app/detector.py:48-49 | results after `results[0]` change nothing in `detect_image` |
| Lifecycle.Finish | app/detector.py:46-108 | definition of everything after the backend returned: payload, resolution, publication, and the `except` cleanup; its properties are in the `LifecycleProperties` lemmas from `PayloadFailureKeepsBackendOutput` on |
| Lifecycle.Run | app/detector.py:28-108 | definition of one request: staging (cleaned up only when `temp_path` is bound), the backend, then `Finish`; its properties are in `LifecycleProperties.RunSuccess` and `LifecycleProperties.RunFailureCleanup` |
| Lifecycle.ImagePayload | app/detector.py:48-66 | definition: the backend's error, `IndexError` when there is no `results[0]`, otherwise the detections of `results[0]`; its properties are in `DetectorProperties.DetectImageSuccess` |
| Lifecycle.VideoPayload | app/detector.py:134-143 | definition: the backend's error, `IndexError` when there is no `results[0]` (read for its save directory), otherwise the box count over all results; its properties are in `DetectorProperties.DetectVideoSuccess` |
| Detector.LogoDetector.constructor | app/detector.py:15-22 | the detector keeps the model path it was given (default `./models/model.pt`) |
| Detector.LogoDetector.DetectImage | app/detector.py:24-108 | the in-place image pipeline ends in exactly the outcome and disk of `DetectImageSpec` |
| Detector.LogoDetector.DetectVideo | app/detector.py:110-184 | the in-place video pipeline ends in exactly the outcome and disk of `DetectVideoSpec` |
| Detector.StageInput | app/detector.py:30-32 | create the temporary input file, write it, bind `temp_path`, then close it; the outcome, state and binding are `Stage` |
| Detector.Discard | app/detector.py:102-107 | the `except` branch unlinks the staged file and swallows the unlink's own error; the state is `Abort` |
| Detector.PublishArtifact | app/detector.py:73-95 | resolve the artifact, then publish it, stopping at the first raise; the outcome and state are `Publish` |
| Detector.PublishResolved | app/detector.py:86-95 | copy, unlink, unlink, rmdir, stopping at the first raise; the outcome and state are `PublishFile` |
| Server.CollectAll | main.py:56-65 | the collected detections are all valid, and the only error is a validation error of the `BoundingBox` model |
| Server.HttpText | main.py:91-92 | definition of `str(HTTPException)`: the status code, `: `, then the detail; its use is stated by `Server.DetectLogo` and `Server.WrappedDetail` |
| Server.CollectAllAppend | main.py:56-65 | detections are ordered by result, then by box: collecting over `a + b` is collecting over `a` then `b`, and the first failure wins |
| Server.CollectStep | main.py:56-65 | adding one result to the collection appends that result's detections, or its error, after those gathered so far |
| Server.RejectedResultFails | main.py:59-65 | any result with a rejected box makes the whole collection fail |
| Server.AcceptedResultsSucceed | main.py:56-65 | when every result's boxes pass, the collection succeeds |
| Server.CollectPrefixRejected | main.py:63-65 | a rejected box ends the collection with its error, whatever follows |
| Server.CollectOne | main.py:56-65 | on a single result the route's detections are that result's detections |
| Server.NoneResultAddsNothing | main.py:57-58 | a result whose boxes are `None` contributes no detections |
| Server.CollectAllCount | main.py:59-65 | one detection per box: the number of detections is the box count over all results |
| Server.CollectAllSucceeds | main.py:56-65 | collection succeeds exactly when every result's boxes all pass validation |
| Server.FirstResultIsPrefix | main.py:56-65 | the route's detections start with the detections of `results[0]`, the only ones `detect_image` reports |
| Server.OutlineBoxes | main.py:59-67 | the inner loop returns exactly the detections of the result's boxes and one outline per detection, or the first rejected box's error |
| Server.AppendResults | main.py:56-67 | the outer loop returns exactly the collected detections with their outlines, or the collection's error |
| Server.ProcessImage | main.py:45-71 | the nested loops return every detection and an outline per detection with the same four integers, colour (0, 255, 255) and thickness 2; any exception becomes a 400 with the `Ошибка обработки изображения: ` prefix |
| Server.DetectLogo | main.py:73-92 | a missing content type escapes unhandled; a non-`image/` type is a 400 with `Файл должен быть изображением`, and is the only 400; success returns exactly the collected detections; every other failure is a 500 whose detail wraps the 400's text |
| Server.DetectLogoWithImage | main.py:94-118 | the same guard and error mapping, and success returns the detections together with their outlines |
| Server.BadRequestCode | main.py:71 | `str(400)` is `400` |
| Server.WrappedDetail | main.py:87-92 | the wrapped 400 reads `400: Ошибка обработки изображения: …` inside the 500's detail |

## Left out

- Model loading and `predict` (app/detector.py:18, 37-44, 123-130; main.py:18, 51) belong to the
  inference library. What they return or raise is an input. `conf=0.25`, `iou=0.01`,
  `project="temp"` and `name="detection"` appear only as constants.
- Decoding the upload with PIL, converting colours with cv2, and encoding with `cv2.imencode` and
  base64 (main.py:48-49, 113-114) are library calls. A decode failure is one of the `Prediction`
  errors. The annotated picture is modelled by the rectangles drawn on it, not by pixels, and the
  response carries those rectangles in place of the base64 JPEG.
- `await file.read()` is assumed to succeed.
- Logging, app/api.py, the HTML front end and the `uvicorn` start-up are not part of this model.
- `tempfile` naming, uniqueness of names across requests, and concurrent requests are not modelled.
  They appear only as the `Environment` assumption that the names are fresh.
- Paths are (directory, name) pairs. Nested directories, permissions and the metadata `copy2`
  copies are not modelled.
- Storage.FileSystem.Copy: a copy the device refuses part-way is modelled as leaving the
  destination empty, not holding a prefix of the bytes.
- A `write()` that fails part-way is modelled as leaving the staged file empty; what a refused
  flush leaves in the file is not modelled, since the `except` branch unlinks it.
- A backend that raises after creating its save directory is not modelled. A raising backend is
  assumed to have written nothing.
- Coordinates are unbounded reals. Float32 rounding, NaN and infinities are not modelled.
  `int()` raises on NaN and infinities.
- pydantic's exact multi-line message text (URLs, input values) is reduced to the count, the model
  name and the failing field names.
- The confidence value the detector logs is not modelled.
- The video path does not check the backend's per-frame save directories. It reads the directory
  of `results[0]` only, as the source does.
