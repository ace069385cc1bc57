/** `_pick_stream_url_from_info` and the part of `get_stream_url` after extraction. */
module Streams {
  import opened Wrappers
  import opened Text
  import opened MediaInfo

  /** The sort key `(height, abr)` of a format, compared lexicographically:
      `KeyGreater(a, b)` is `key(a) > key(b)`. */
  predicate KeyGreater(a: Format, b: Format)
  {
    OrZero(a.height) > OrZero(b.height)
    || (OrZero(a.height) == OrZero(b.height) && OrZero(a.abr) > OrZero(b.abr))
  }

  /** `k` is the format Python's `max` returns: no format has a greater key, and
      every earlier one has a smaller key (the first of equal maxima wins). */
  predicate IsMaxFormat(fs: seq<Format>, k: int)
  {
    && 0 <= k < |fs|
    && (forall j :: 0 <= j < |fs| ==> !KeyGreater(fs[j], fs[k]))
    && (forall j :: 0 <= j < k ==> KeyGreater(fs[k], fs[j]))
  }

  /** The index of `max(formats, key=format_sort_key)`: `max` keeps the current
      maximum and replaces it only by a strictly greater key. */
  function MaxFormatIndex(fs: seq<Format>): (m: nat)
    requires |fs| > 0
    ensures IsMaxFormat(fs, m)
  {
    if |fs| == 1 then 0
    else
      var m := MaxFormatIndex(fs[..|fs| - 1]);
      if KeyGreater(fs[|fs| - 1], fs[m]) then |fs| - 1 else m
  }

  /** At most one index is the maximum in Python's sense. */
  lemma MaxFormatUnique(fs: seq<Format>, k1: int, k2: int)
    requires IsMaxFormat(fs, k1) && IsMaxFormat(fs, k2)
    ensures k1 == k2
  {
    assert !KeyGreater(fs[k2], fs[k1]) && !KeyGreater(fs[k1], fs[k2]);
  }

  /** `requested_formats[0].get("url")` when `requested_formats` is a non-empty
      list whose first element is a dictionary. */
  function FirstRequestedUrl(info: Info): (r: Option<string>)
    ensures r.Some? ==>
      && info.requestedFormats.Some? && |info.requestedFormats.value| > 0
      && info.requestedFormats.value[0].Some? && info.requestedFormats.value[0].value.url == r
    ensures info.requestedFormats.Some? && |info.requestedFormats.value| > 0 && info.requestedFormats.value[0].Some? ==>
      r == info.requestedFormats.value[0].value.url
    ensures !(info.requestedFormats.Some? && |info.requestedFormats.value| > 0 && info.requestedFormats.value[0].Some?) ==>
      r == None
  {
    var rf := info.requestedFormats;
    if rf.Some? && |rf.value| > 0 && rf.value[0].Some? then rf.value[0].value.url else None
  }

  /** `_pick_stream_url_from_info(info)`. */
  function PickStreamUrl(info: Info): (r: Option<string>)
    ensures r.Some? ==> r.value != ""
  {
    if Truthy(FirstRequestedUrl(info)) then FirstRequestedUrl(info)
    else if Truthy(info.url) then info.url
    else if info.formats.Some? && |info.formats.value| > 0
         && Truthy(info.formats.value[MaxFormatIndex(info.formats.value)].url)
    then info.formats.value[MaxFormatIndex(info.formats.value)].url
    else None
  }

  /** The priority chain: a URL of the first requested format, else `info["url"]`,
      else the URL of the maximal format by `(height, abr)`, else nothing. In the
      last step only the maximal format is looked at. */
  lemma PickStreamUrlPriority(info: Info)
    ensures Truthy(FirstRequestedUrl(info)) ==> PickStreamUrl(info) == FirstRequestedUrl(info)
    ensures !Truthy(FirstRequestedUrl(info)) && Truthy(info.url) ==> PickStreamUrl(info) == info.url
    ensures !Truthy(FirstRequestedUrl(info)) && !Truthy(info.url) ==>
      (PickStreamUrl(info).Some? <==>
         info.formats.Some? && exists k :: IsMaxFormat(info.formats.value, k) && Truthy(info.formats.value[k].url))
    ensures !Truthy(FirstRequestedUrl(info)) && !Truthy(info.url) && PickStreamUrl(info).Some? ==>
      exists k :: IsMaxFormat(info.formats.value, k) && PickStreamUrl(info) == info.formats.value[k].url
  {
    if !Truthy(FirstRequestedUrl(info)) && !Truthy(info.url) && info.formats.Some? {
      var fs := info.formats.value;
      if exists k :: IsMaxFormat(fs, k) {
        var k :| IsMaxFormat(fs, k);
        MaxFormatUnique(fs, k, MaxFormatIndex(fs));
      }
    }
  }

  /** Only the first element of `requested_formats` is ever consulted. */
  lemma OnlyFirstRequestedFormat(info: Info, first: Option<Format>, rest1: seq<Option<Format>>, rest2: seq<Option<Format>>)
    ensures PickStreamUrl(info.(requestedFormats := Some([first] + rest1)))
         == PickStreamUrl(info.(requestedFormats := Some([first] + rest2)))
  {
  }

  /** In the `formats` fallback only the maximal format is checked: when it has no
      URL the result is nothing, whatever URLs the other formats carry. */
  lemma MaximalFormatWithoutUrlGivesNone(info: Info, k: int)
    requires !Truthy(FirstRequestedUrl(info)) && !Truthy(info.url)
    requires info.formats.Some? && IsMaxFormat(info.formats.value, k) && !Truthy(info.formats.value[k].url)
    ensures PickStreamUrl(info) == None
  {
    MaxFormatUnique(info.formats.value, k, MaxFormatIndex(info.formats.value));
  }

  /** An instance: the maximal format lacks a URL, so the result is nothing,
      although the earlier, smaller format has one. */
  lemma MaximalFormatWithoutUrl()
    ensures var info := Info(None, None, None, None,
                             Some([Format(Some("low"), Some(360), None), Format(None, Some(720), None)]),
                             None, None);
            PickStreamUrl(info) == None && Truthy(info.formats.value[0].url)
  {
  }

  /** The message of the `AttributeError` raised by calling `.get` on `None`. */
  const NoneGetError := "'NoneType' object has no attribute 'get'"

  /** The stream URL of an extracted info dictionary: a playlist with entries
      delegates to its first entry (which raises when that entry is `None`). */
  function StreamUrlOfInfo(info: Info): (r: Result<Option<string>>)
    ensures r.Ok? && r.value.Some? ==> r.value.value != ""
    ensures r.Err? <==>
      info.kind == Some("playlist") && info.entries.Some? && |info.entries.value| > 0 && info.entries.value[0].None?
    ensures r.Err? ==> r.message == NoneGetError
  {
    if info.kind == Some("playlist") && info.entries.Some? && |info.entries.value| > 0 then
      var first := info.entries.value[0];
      if first.Some? then Ok(PickStreamUrl(first.value)) else Err(NoneGetError)
    else Ok(PickStreamUrl(info))
  }

  /** `get_stream_url(url)`, given what its `extract_info` call did. */
  function GetStreamUrl(url: string, extraction: Extraction): (r: Result<Option<string>>)
    ensures url == "" || extraction.NoInfo? ==> r == Ok(None)
    ensures r.Ok? && r.value.Some? ==> r.value.value != ""
    ensures r.Err? ==>
      && url != ""
      && ((extraction.Raised? && r.message == extraction.message) || (extraction.Extracted? && r.message == NoneGetError))
  {
    if url == "" then Ok(None)
    else match extraction
      case Extracted(info) => StreamUrlOfInfo(info)
      case NoInfo => Ok(None)
      case Raised(message) => Err(message)
  }

  /** A playlist with entries is answered from its first entry alone: neither the
      later entries nor the playlist's own fields matter. */
  lemma PlaylistUsesFirstEntry(url: string, p: Info, q: Info)
    requires url != ""
    requires p.kind == q.kind == Some("playlist")
    requires p.entries.Some? && q.entries.Some? && |p.entries.value| > 0 && |q.entries.value| > 0
    requires p.entries.value[0] == q.entries.value[0]
    ensures GetStreamUrl(url, Extracted(p)) == GetStreamUrl(url, Extracted(q))
    ensures p.entries.value[0].Some? ==>
      GetStreamUrl(url, Extracted(p)) == Ok(PickStreamUrl(p.entries.value[0].value))
  {
  }

  /** A playlist without entries falls back to its own info dictionary. */
  lemma EmptyPlaylistUsesOwnInfo(url: string, p: Info)
    requires url != ""
    requires p.kind == Some("playlist")
    requires p.entries.None? || p.entries.value == []
    ensures GetStreamUrl(url, Extracted(p)) == Ok(PickStreamUrl(p))
  {
  }
}
