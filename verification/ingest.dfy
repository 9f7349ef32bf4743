/**
 * `_should_run_in_background` (app/routers/ingest.py): whether an upload is
 * validated in the background, decided from its Content-Length header.
 */
module Ingest {
  import opened Text
  import opened Values

  /** Bytes per megabyte in the threshold setting. */
  const MIB: int := 1024 * 1024

  /** The size a Content-Length header states, when it is present, not empty and an integer. */
  function StatedSize(contentLength: Option<string>, py: Python): Option<int> {
    match contentLength
    case None => None
    case Some(cl) => if cl == "" then None else py.intOf(cl)
  }

  /**
   * The decision: background unless the header is present, parses as an
   * integer and is below the threshold. A parse error is caught, so the
   * decision is made for every header.
   */
  function ShouldRunInBackground(contentLength: Option<string>, thresholdMb: int, py: Python): (r: bool)
    ensures !r <==> StatedSize(contentLength, py).Some? && StatedSize(contentLength, py).value < thresholdMb * MIB
    ensures contentLength.None? || contentLength == Some("") ==> r
  {
    if contentLength.None? || contentLength.value == "" then true
    else
      match py.intOf(contentLength.value)
      case None => true
      case Some(size) => size >= thresholdMb * 1024 * 1024
  }

  /** A larger stated size never turns a background upload into an inline one. */
  lemma BackgroundIsMonotone(a: string, b: string, thresholdMb: int, py: Python)
    requires a != "" && b != ""
    requires py.intOf(a).Some? && py.intOf(b).Some? && py.intOf(a).value <= py.intOf(b).value
    ensures ShouldRunInBackground(Some(a), thresholdMb, py) ==> ShouldRunInBackground(Some(b), thresholdMb, py)
  {
  }

  /** A header that does not parse as an integer sends the upload to the background. */
  lemma UnparsableSizeRunsInBackground(cl: string, thresholdMb: int, py: Python)
    requires py.intOf(cl).None?
    ensures ShouldRunInBackground(Some(cl), thresholdMb, py)
  {
  }
}
