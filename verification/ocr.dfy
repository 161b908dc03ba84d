/**
 `extract_text_from_image` (tool.py, lines 44-59): the detector's fragments
 joined with newlines. The detector (`reader.readtext`) is abstract: its
 outcome is the list of detections in its own order, or the exception it
 raised; both an empty list and an exception give the empty text.
 */
module Ocr {
  import opened Wrappers
  import opened Text

  /** One detection: bounding box, recognised text, confidence. */
  datatype Detection = Detection(box: seq<(int, int)>, text: string, confidence: real)

  /** An exception raised while converting the image or running the detector. */
  datatype OcrError = OcrError(message: string)

  /** `[detection[1] for detection in result]`. */
  function Texts(ds: seq<Detection>): (ts: seq<string>)
    ensures |ts| == |ds|
    ensures forall k :: 0 <= k < |ds| ==> ts[k] == ds[k].text
  {
    if |ds| == 0 then [] else [ds[0].text] + Texts(ds[1..])
  }

  /** No detected fragment contains a newline of its own. */
  predicate SingleLine(ds: seq<Detection>)
  {
    forall k :: 0 <= k < |ds| ==> '\n' !in ds[k].text
  }

  /** `extract_text_from_image(image)` given the detector's outcome. */
  function ExtractText(detected: Result<seq<Detection>, OcrError>): (text: string)
    ensures detected.Failure? ==> text == ""
    ensures detected.Success? && |detected.value| == 0 ==> text == ""
  {
    match detected
    case Failure(_) => ""
    case Success(ds) => if |ds| > 0 then Join(Texts(ds), '\n') else ""
  }

  /** With at least one detection, splitting the text on newlines gives back
      the fragments in detector order (when none has a newline of its own). */
  lemma ExtractTextLines(ds: seq<Detection>)
    requires |ds| > 0 && SingleLine(ds)
    ensures Split(ExtractText(Success(ds)), '\n') == Texts(ds)
  {
    SplitJoin(Texts(ds), '\n');
  }
}
