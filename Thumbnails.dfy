/** `get_best_thumbnail`: the thumbnail with the largest area, else the single
    `thumbnail` field. */
module Thumbnails {
  import opened Wrappers
  import opened Text
  import opened MediaInfo

  /** `width * height`, a missing or zero dimension counting as 0. */
  function Area(t: Thumbnail): int
  {
    OrZero(t.width) * OrZero(t.height)
  }

  /** An entry the loop can select at all: it has a non-empty URL and its area
      beats the initial best area of -1. */
  predicate Eligible(t: Thumbnail)
  {
    Truthy(t.url) && Area(t) >= 0
  }

  /** `k` is the entry of largest area among the eligible ones, and the first of
      them when several share that area. */
  predicate IsBest(ts: seq<Thumbnail>, k: int)
  {
    && 0 <= k < |ts|
    && Eligible(ts[k])
    && (forall j :: 0 <= j < |ts| && Eligible(ts[j]) ==> Area(ts[j]) <= Area(ts[k]))
    && (forall j :: 0 <= j < k && Eligible(ts[j]) ==> Area(ts[j]) < Area(ts[k]))
  }

  /** The loop's variables `best_area` and `best_url`. */
  datatype Best = Best(area: int, url: Option<string>)

  /** The values of `best_area` and `best_url` after the loop has seen `ts`. */
  function Scan(ts: seq<Thumbnail>): Best
  {
    if ts == [] then Best(-1, None)
    else
      var b := Scan(ts[..|ts| - 1]);
      var t := ts[|ts| - 1];
      if Area(t) > b.area && Truthy(t.url) then Best(Area(t), t.url) else b
  }

  /** The list the loop runs over: `info.get("thumbnails") or []`. */
  function ThumbnailList(info: Info): seq<Thumbnail>
  {
    if info.thumbnails.Some? then info.thumbnails.value else []
  }

  /** What `get_best_thumbnail(info)` returns. */
  function BestThumbnail(info: Info): (r: Option<string>)
    ensures r != info.thumbnail ==> Truthy(r)
    ensures r != info.thumbnail ==>
      exists k :: IsBest(ThumbnailList(info), k) && ThumbnailList(info)[k].url == r
  {
    ScanFindsBest(ThumbnailList(info));
    var b := Scan(ThumbnailList(info));
    if Truthy(b.url) then b.url else info.thumbnail
  }

  /** The scan finds the first entry of largest eligible area, and finds nothing
      exactly when no entry is eligible. */
  lemma {:induction false} ScanFindsBest(ts: seq<Thumbnail>)
    ensures Scan(ts).url.None? <==> forall j :: 0 <= j < |ts| ==> !Eligible(ts[j])
    ensures Scan(ts).url.None? ==> Scan(ts).area == -1
    ensures Scan(ts).url.Some? ==> exists k :: IsBest(ts, k) && Scan(ts) == Best(Area(ts[k]), ts[k].url)
  {
    if ts != [] {
      var n := |ts| - 1;
      var front, t := ts[..n], ts[n];
      assert forall j :: 0 <= j < n ==> front[j] == ts[j];
      ScanFindsBest(front);
      var b := Scan(front);
      if Area(t) > b.area && Truthy(t.url) {
        assert IsBest(ts, n);
      } else if b.url.Some? {
        var k :| IsBest(front, k) && b == Best(Area(front[k]), front[k].url);
        assert IsBest(ts, k);
      } else {
        assert !Eligible(t);
      }
    }
  }

  /** At most one entry is the best. */
  lemma BestIsUnique(ts: seq<Thumbnail>, k1: int, k2: int)
    requires IsBest(ts, k1) && IsBest(ts, k2)
    ensures k1 == k2
  {
  }

  /** `get_best_thumbnail` returns the URL of the best eligible entry when there is
      one, and otherwise whatever the `thumbnail` field holds (possibly nothing). */
  lemma BestThumbnailSpec(info: Info)
    ensures (exists k :: IsBest(ThumbnailList(info), k))
      ==> exists k :: IsBest(ThumbnailList(info), k) && BestThumbnail(info) == ThumbnailList(info)[k].url
    ensures (forall j :: 0 <= j < |ThumbnailList(info)| ==> !Eligible(ThumbnailList(info)[j]))
      ==> BestThumbnail(info) == info.thumbnail
  {
    var ts := ThumbnailList(info);
    ScanFindsBest(ts);
    if exists k :: IsBest(ts, k) {
      var k :| IsBest(ts, k);
      assert Scan(ts).url.Some?;
    }
  }

  /** An entry without a URL is never the answer: the result is either the URL of
      an eligible entry or the fallback field. */
  lemma NeverAnEntryWithoutUrl(info: Info)
    ensures BestThumbnail(info) == info.thumbnail
      || exists k :: 0 <= k < |ThumbnailList(info)| && Eligible(ThumbnailList(info)[k])
           && BestThumbnail(info) == ThumbnailList(info)[k].url
  {
    ScanFindsBest(ThumbnailList(info));
  }

  /** The loop of `get_best_thumbnail`, then the fallback. */
  method GetBestThumbnail(info: Info) returns (r: Option<string>)
    ensures r == BestThumbnail(info)
  {
    var thumbnails := ThumbnailList(info);
    var bestUrl: Option<string> := None;
    var bestArea: int := -1;
    for i := 0 to |thumbnails|
      invariant Best(bestArea, bestUrl) == Scan(thumbnails[..i])
    {
      var t := thumbnails[i];
      var area := OrZero(t.width) * OrZero(t.height);
      assert thumbnails[..i + 1][..i] == thumbnails[..i];
      if area > bestArea && Truthy(t.url) {
        bestArea := area;
        bestUrl := t.url;
      }
    }
    assert thumbnails[..|thumbnails|] == thumbnails;
    if Truthy(bestUrl) {
      return bestUrl;
    }
    return info.thumbnail;
  }
}
