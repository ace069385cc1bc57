/** The parts of a yt-dlp info dictionary that the backend reads, and the outcome
    of asking yt-dlp for one. A field that is missing or `None` is `None` here, and
    so is a `requested_formats` or `formats` that is not a list, since the backend
    checks those with `isinstance`. */
module MediaInfo {
  import opened Wrappers

  /** One dictionary of `info["thumbnails"]`. */
  datatype Thumbnail = Thumbnail(url: Option<string>, width: Option<int>, height: Option<int>)

  /** One dictionary of `info["formats"]` or `info["requested_formats"]`; `abr` is
      an integer here (see README). */
  datatype Format = Format(url: Option<string>, height: Option<int>, abr: Option<int>)

  /** An info dictionary. `entries` may hold `None` for an entry yt-dlp could not
      resolve; an element of `requestedFormats` is `None` when it is not a dictionary. */
  datatype Info = Info(
    kind: Option<string>,
    entries: Option<seq<Option<Info>>>,
    requestedFormats: Option<seq<Option<Format>>>,
    url: Option<string>,
    formats: Option<seq<Format>>,
    thumbnails: Option<seq<Thumbnail>>,
    thumbnail: Option<string>)

  /** What one `extract_info(url, download=False)` call did: returned a dictionary,
      returned `None`, or raised an exception with the given message. */
  datatype Extraction = Extracted(info: Info) | NoInfo | Raised(message: string)

  /** `_info(url)`, given what its `extract_info` call did. */
  function FetchInfo(url: string, extraction: Extraction): (r: Result<Info>)
    ensures r.Ok? <==> url != "" && extraction.Extracted?
    ensures r.Ok? ==> r.value == extraction.info
    ensures url == "" ==> r == Err("Invalid URL")
    ensures url != "" && extraction.NoInfo? ==> r == Err("Failed to fetch metadata")
    ensures url != "" && extraction.Raised? ==> r == Err(extraction.message)
  {
    if url == "" then Err("Invalid URL")
    else match extraction
      case Extracted(info) => Ok(info)
      case NoInfo => Err("Failed to fetch metadata")
      case Raised(message) => Err(message)
  }

  /** `int(x or 0)` on an integer-or-missing field. */
  function OrZero(x: Option<int>): int
  {
    if x.Some? then x.value else 0
  }
}
