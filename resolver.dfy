/**
 * The artifact resolver of app/detector.py: a scan of the backend's directory listing for the
 * first entry whose name ends with one of the expected extensions.
 */
module Resolver {
  import opened Wrappers
  import opened Errors
  import opened Strings

  /** Extensions accepted for the annotated image, as `str.endswith` gets them (case-sensitive). */
  const ImageExtensions: seq<string> := [".jpg", ".jpeg", ".png"]

  /** Extensions accepted for the annotated video. */
  const VideoExtensions: seq<string> := [".mp4", ".avi"]

  const ImageNotFound: string := "Не найден результат обработки изображения"
  const VideoNotFound: string := "Не найден результат обработки видео"

  /** `s.endswith(tuple(exts))`: true when any one of the suffixes matches. */
  predicate EndsWithAny(s: string, exts: seq<string>)
  {
    exists i :: 0 <= i < |exts| && EndsWith(s, exts[i])
  }

  /** Index of the first listed name that ends with one of `exts`, in listing order. */
  function FirstMatch(listing: seq<string>, exts: seq<string>): (r: Option<nat>)
    ensures r.Some? ==> r.value < |listing| && EndsWithAny(listing[r.value], exts)
    ensures r.Some? ==> forall j :: 0 <= j < r.value ==> !EndsWithAny(listing[j], exts)
    ensures r.None? <==> forall j :: 0 <= j < |listing| ==> !EndsWithAny(listing[j], exts)
    decreases |listing|
  {
    if listing == [] then None
    else if EndsWithAny(listing[0], exts) then Some(0)
    else
      match FirstMatch(listing[1..], exts)
      case None => None
      case Some(k) => Some(k + 1)
  }

  /** The outcome of the scan: the matched name, or the pipeline's `ValueError`. */
  function FindArtifact(listing: seq<string>, exts: seq<string>, notFound: string): Result<string, Error>
  {
    match FirstMatch(listing, exts)
    case Some(i) => Success(listing[i])
    case None => Failure(ValueError(notFound))
  }

  /** Lines 73-81 (image) and 149-157 (video): a loop that stops at the first match. */
  method Resolve(listing: seq<string>, exts: seq<string>, notFound: string) returns (r: Result<string, Error>)
    ensures r == FindArtifact(listing, exts, notFound)
    ensures r.Success? ==> r.value in listing && EndsWithAny(r.value, exts)
    ensures r.Failure? <==> forall j :: 0 <= j < |listing| ==> !EndsWithAny(listing[j], exts)
  {
    var i := 0;
    while i < |listing|
      invariant 0 <= i <= |listing|
      invariant forall j :: 0 <= j < i ==> !EndsWithAny(listing[j], exts)
    {
      if EndsWithAny(listing[i], exts) {
        FirstMatchAt(listing, exts, i);
        return Success(listing[i]);
      }
      i := i + 1;
    }
    r := Failure(ValueError(notFound));
  }

  /** A matching entry with no match before it is the one `FirstMatch` reports. */
  lemma FirstMatchAt(listing: seq<string>, exts: seq<string>, i: nat)
    requires i < |listing| && EndsWithAny(listing[i], exts)
    requires forall j :: 0 <= j < i ==> !EndsWithAny(listing[j], exts)
    ensures FirstMatch(listing, exts) == Some(i)
  {
  }

  /** A resolved name is never empty, so the source's `if not image_file` is the same test as
      "no entry matched". */
  lemma MatchedNameNonEmpty(name: string, exts: seq<string>)
    requires EndsWithAny(name, exts)
    requires forall i :: 0 <= i < |exts| ==> exts[i] != ""
    ensures name != ""
  {
    var i :| 0 <= i < |exts| && EndsWith(name, exts[i]);
  }

  /** Listing order wins over the order of the extensions: a `.png` listed before a `.jpg` is chosen. */
  lemma ListingOrderWins()
    ensures FindArtifact(["a.png", "b.jpg"], ImageExtensions, ImageNotFound) == Success("a.png")
  {
    assert EndsWith("a.png", ImageExtensions[2]);
  }

  /** Matching is case-sensitive: an upper-case extension is not recognised. */
  lemma UpperCaseNotMatched()
    ensures FindArtifact(["a.JPG"], ImageExtensions, ImageNotFound) == Failure(ValueError(ImageNotFound))
  {
    assert !EndsWith("a.JPG", ".jpg") by { assert "a.JPG"[2..] != ".jpg"; }
    assert !EndsWith("a.JPG", ".jpeg");
    assert !EndsWith("a.JPG", ".png") by { assert "a.JPG"[2..] != ".png"; }
    assert !EndsWithAny("a.JPG", ImageExtensions);
  }

  /** `os.path.basename`: the part after the last `/`. */
  function Basename(path: string): (r: string)
    ensures '/' !in r
    ensures |r| <= |path| && r == path[|path| - |r|..]
    ensures '/' !in path ==> r == path
    ensures |r| < |path| ==> path[|path| - |r| - 1] == '/'
    decreases |path|
  {
    if path == [] then []
    else if path[|path| - 1] == '/' then []
    else Basename(path[..|path| - 1]) + [path[|path| - 1]]
  }
}
