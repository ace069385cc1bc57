/** The HTTP handlers of the backend, each as a function from what the downloader
    did to the response the client sees: a JSON body, or an `HTTPException` with a
    status code and a `detail` string. Every handler turns a downloader exception
    into a 400 whose detail is the exception's message; the 400s a handler raises
    itself keep their own detail. */
module Api {
  import opened Wrappers
  import opened Text
  import opened MediaInfo
  import opened Thumbnails
  import opened Streams
  import opened JobQueue

  /** The JSON bodies of the successful responses. */
  datatype Body =
    | ThumbnailBody(thumbnail: string)
    | PreviewBody(streamUrl: string)
    | QueuedBody(queued: nat, jobIds: seq<JobId>)
    | QueueBody(queue: seq<JobView>)

  datatype Response = Success(body: Body) | HttpError(status: nat, detail: string)

  const BadRequest: nat := 400
  const NoThumbnailMessage := "No thumbnail found"
  const NoPreviewMessage := "No preview URL found"

  /** `POST /api/thumbnail`: `_info(url)`, then `get_best_thumbnail`; an empty or
      missing thumbnail is a 400 of its own, any exception a 400 with its message. */
  function ApiThumbnail(url: string, extraction: Extraction): (r: Response)
    ensures r.HttpError? ==> r.status == BadRequest
    ensures r.Success? ==> r.body.ThumbnailBody? && r.body.thumbnail != ""
  {
    match FetchInfo(url, extraction)
    case Err(message) => HttpError(BadRequest, message)
    case Ok(info) =>
      var thumb := BestThumbnail(info);
      if Truthy(thumb) then Success(ThumbnailBody(thumb.value))
      else HttpError(BadRequest, NoThumbnailMessage)
  }

  /** The thumbnail endpoint, case by case: the guard of `_info`, the two ways
      extraction fails, and the body naming the best eligible thumbnail, or the
      `thumbnail` field when no entry is eligible; "No thumbnail found" exactly
      when neither yields a non-empty URL. */
  lemma ThumbnailResponses(url: string, extraction: Extraction)
    ensures url == "" ==> ApiThumbnail(url, extraction) == HttpError(400, "Invalid URL")
    ensures url != "" && extraction.NoInfo? ==>
      ApiThumbnail(url, extraction) == HttpError(400, "Failed to fetch metadata")
    ensures url != "" && extraction.Raised? ==>
      ApiThumbnail(url, extraction) == HttpError(400, extraction.message)
    ensures url != "" && extraction.Extracted? ==>
      var info := extraction.info;
      var ts := ThumbnailList(info);
      && ((exists k :: IsBest(ts, k)) ==>
            exists k :: IsBest(ts, k) && ApiThumbnail(url, extraction) == Success(ThumbnailBody(ts[k].url.value)))
      && ((forall j :: 0 <= j < |ts| ==> !Eligible(ts[j])) ==>
            ApiThumbnail(url, extraction) ==
              if Truthy(info.thumbnail) then Success(ThumbnailBody(info.thumbnail.value))
              else HttpError(400, NoThumbnailMessage))
  {
    if url != "" && extraction.Extracted? {
      BestThumbnailSpec(extraction.info);
    }
  }

  /** `POST /api/preview`: `get_stream_url(url)`; no stream URL, or an empty one,
      is a 400 of its own, any exception a 400 with its message. */
  function ApiPreview(url: string, extraction: Extraction): (r: Response)
    ensures r.HttpError? ==> r.status == BadRequest
    ensures r.Success? ==> r.body.PreviewBody? && r.body.streamUrl != ""
  {
    match GetStreamUrl(url, extraction)
    case Err(message) => HttpError(BadRequest, message)
    case Ok(stream) =>
      if Truthy(stream) then Success(PreviewBody(stream.value))
      else HttpError(BadRequest, NoPreviewMessage)
  }

  /** The preview endpoint, case by case. Unlike the thumbnail endpoint, an empty
      URL is reported as "No preview URL found", since `get_stream_url` answers it
      with `None` instead of raising; so is an extraction that returns nothing. A
      playlist with entries is answered from its first entry. */
  lemma PreviewResponses(url: string, extraction: Extraction)
    ensures url == "" || extraction.NoInfo? ==> ApiPreview(url, extraction) == HttpError(400, NoPreviewMessage)
    ensures url != "" && extraction.Raised? ==> ApiPreview(url, extraction) == HttpError(400, extraction.message)
    ensures url != "" && extraction.Extracted? ==>
      var info := extraction.info;
      var source := if info.kind == Some("playlist") && info.entries.Some? && |info.entries.value| > 0
        then info.entries.value[0] else Some(info);
      ApiPreview(url, extraction) ==
        if source.None? then HttpError(400, NoneGetError)
        else if PickStreamUrl(source.value).Some? then Success(PreviewBody(PickStreamUrl(source.value).value))
        else HttpError(400, NoPreviewMessage)
  {
    if url != "" && extraction.Extracted? {
      var info := extraction.info;
      if !(info.kind == Some("playlist") && info.entries.Some? && |info.entries.value| > 0) {
        assert GetStreamUrl(url, extraction) == Ok(PickStreamUrl(info));
      }
    }
  }

  /** The body `api_download` and `api_queue_add` build from `add_to_queue`'s outcome. */
  function QueuedResponse(outcome: Result<seq<JobId>>): (r: Response)
    ensures outcome.Ok? <==> r.Success?
    ensures r.Success? ==> r.body == QueuedBody(|outcome.value|, outcome.value)
    ensures r.HttpError? ==> r == HttpError(BadRequest, outcome.message)
  {
    match outcome
    case Ok(ids) => Success(QueuedBody(|ids|, ids))
    case Err(message) => HttpError(BadRequest, message)
  }

  /** What `_ensure_runner` does inside `api_download` and `api_queue_add`. Both are
      plain `def` handlers, which FastAPI runs in a worker thread; there
      `asyncio.create_task` finds no running event loop and raises. */
  const InWorkerThread := RunnerFailed("no running event loop")

  /** `POST /api/download` as written: `add_to_queue([url])` when the next fresh id
      is `nextId` and starting the runner does what `runner` says. It fails
      exactly when the URL is not blank and the runner cannot be started. */
  function ApiDownload(url: string, nextId: nat, runner: RunnerStart): (r: Response)
    ensures r.Success? <==> runner.RunnerStarted? || Strip(url) == ""
    ensures r.Success? ==> r.body.QueuedBody?
    ensures r.HttpError? ==> r == HttpError(BadRequest, runner.message)
  {
    QueuedResponse(AddOutcome(UrlList([Some(url)]), nextId, runner))
  }

  /** As written, a non-blank URL is answered with a 400 from the worker thread,
      while `add_to_queue` has already appended its `queued` job, which no runner
      will ever pick up. */
  lemma DownloadRejectedAfterQueueing(url: string, nextId: nat)
    requires Strip(url) != ""
    ensures ApiDownload(url, nextId, InWorkerThread) == HttpError(400, "no running event loop")
    ensures NewJobs(ParsedUrls([Some(url)]), nextId) == [Job(nextId, Strip(url), Queued, None, None)]
  {
    ParsedUrlsSingle(Some(url));
    NewJobsAt(ParsedUrls([Some(url)]), nextId);
  }

  /** `POST /api/download` as evidently intended: the runner starts and the client
      gets the queued ids. */
  function ApiDownloadIntended(url: string, nextId: nat): (r: Response)
    ensures r.Success? && r.body.QueuedBody?
  {
    ApiDownload(url, nextId, RunnerStarted)
  }

  /** `api_download` queues the one body URL or nothing: `queued` is 1 with the
      single fresh id exactly when the URL is not blank, and 0 otherwise. */
  lemma DownloadQueuesAtMostOne(url: string, nextId: nat)
    ensures ApiDownloadIntended(url, nextId).body.queued <= 1
    ensures ApiDownloadIntended(url, nextId).body.queued == 1 <==> Strip(url) != ""
    ensures Strip(url) != "" ==> ApiDownloadIntended(url, nextId).body.jobIds == [nextId]
    ensures Strip(url) == "" ==> ApiDownloadIntended(url, nextId).body.jobIds == []
  {
    ParsedUrlsSingle(Some(url));
    FreshIdsAt(nextId, |ParsedUrls([Some(url)])|);
  }

  /** The list `api_queue_add` passes on: `body.urls or []`. */
  function RequestedUrls(urls: Option<seq<string>>): (r: seq<Option<string>>)
    ensures urls.None? ==> r == []
    ensures urls.Some? ==> |r| == |urls.value| && forall i :: 0 <= i < |r| ==> r[i] == Some(urls.value[i])
  {
    if urls.None? then [] else seq(|urls.value|, i requires 0 <= i < |urls.value| => Some(urls.value[i]))
  }

  /** `POST /api/queue/add` as written: `add_to_queue(urls or [])` when the next
      fresh id is `nextId` and starting the runner does what `runner` says. It
      fails exactly when some URL is not blank and the runner cannot be started. */
  function ApiQueueAdd(urls: Option<seq<string>>, nextId: nat, runner: RunnerStart): (r: Response)
    ensures r.Success? <==> runner.RunnerStarted? || ParsedUrls(RequestedUrls(urls)) == []
    ensures r.Success? ==> r.body.QueuedBody?
    ensures r.HttpError? ==> r == HttpError(BadRequest, runner.message)
  {
    QueuedResponse(AddOutcome(UrlList(RequestedUrls(urls)), nextId, runner))
  }

  /** As written, a batch with a non-blank URL is answered with a 400 from the
      worker thread, while `add_to_queue` has already appended one `queued` job per
      non-blank URL. */
  lemma QueueAddRejectedAfterQueueing(urls: seq<string>, nextId: nat)
    requires ParsedUrls(RequestedUrls(Some(urls))) != []
    ensures ApiQueueAdd(Some(urls), nextId, InWorkerThread) == HttpError(400, "no running event loop")
    ensures forall i :: 0 <= i < |ParsedUrls(RequestedUrls(Some(urls)))| ==>
      NewJobs(ParsedUrls(RequestedUrls(Some(urls))), nextId)[i].status == Queued
  {
    NewJobsAt(ParsedUrls(RequestedUrls(Some(urls))), nextId);
  }

  /** `POST /api/queue/add` as evidently intended: the runner starts and the client
      gets the queued ids. */
  function ApiQueueAddIntended(urls: Option<seq<string>>, nextId: nat): (r: Response)
    ensures r.Success? && r.body.QueuedBody?
  {
    ApiQueueAdd(urls, nextId, RunnerStarted)
  }

  /** `api_queue_add` never fails on a list of strings; `queued` is the number of
      returned ids, which is the number of non-blank URLs, and the ids are the
      consecutive fresh ids in input order; a missing list queues nothing. */
  lemma QueueAddCountsIds(urls: Option<seq<string>>, nextId: nat)
    ensures var body := ApiQueueAddIntended(urls, nextId).body;
      && body.queued == |body.jobIds| == |ParsedUrls(RequestedUrls(urls))|
      && forall i :: 0 <= i < |body.jobIds| ==> body.jobIds[i] == nextId + i
    ensures urls.None? ==> ApiQueueAddIntended(urls, nextId) == Success(QueuedBody(0, []))
  {
    FreshIdsAt(nextId, |ParsedUrls(RequestedUrls(urls))|);
  }

  /** `GET /api/queue`: the status snapshot of the queue. */
  function ApiQueue(jobs: seq<Job>): (r: Response)
    ensures r == Success(QueueBody(Statuses(jobs)))
  {
    Success(QueueBody(Statuses(jobs)))
  }
}
