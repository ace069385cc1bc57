# Modern video downloader: the backend's queue and selection rules

This project models the Python backend of a local video downloader. The backend
is a FastAPI layer over yt-dlp. The model covers the backend's own logic and
leaves out yt-dlp:

- **Thumbnails** (`get_best_thumbnail`): picks the thumbnail record with the
  largest `width * height` that has a URL. The first one wins on ties. When no
  record qualifies, it falls back to the single `thumbnail` field.
- **Streams** (`_pick_stream_url_from_info` and `get_stream_url`): picks a
  preview URL by priority: `requested_formats[0]`, then `url`, then the maximal
  format by `(height, abr)`. A playlist delegates to its first entry.
- **JobQueue** (`add_to_queue`, one iteration of `_runner`,
  `get_queue_statuses`): an in-memory FIFO of download jobs. Each URL is
  `queued`, then `running`, then `done` or `error`. The class `Queue` holds the
  list of jobs and a counter that stands for `uuid4`. Its methods update them in
  place.
- **Api** (the handlers of `main.py`): each handler is a function from what the
  downloader did to a success body or a 400 with a `detail` string.
  The two queuing handlers also take what `_ensure_runner` did. As written,
  they run in a worker thread where the runner cannot start (see Findings).
- **Supporting modules**:
  - `Text` models Python's `str.strip()` and truthiness.
  - `MediaInfo` models the yt-dlp info dictionary and the outcome of one
    `extract_info` call.
  - `Wrappers` provides `Option` and `Result`.

The queue keeps an invariant, `JobQueue.WellFormed`, which every step preserves:

- ids are distinct and below the counter;
- URLs are non-empty and stripped;
- the queued jobs form a suffix of the list;
- exactly the runner's job is `running`;
- `result` and `error` are set as the status says.

`JobQueue.Advances` states that old jobs keep their id and URL, and that their
status only moves forward. A yt-dlp call becomes a parameter:

- `Extraction` is what `extract_info` did: returned a dictionary, returned
  `None`, or raised.
- `DownloadOutcome` is what `download` did.
- The function `download` passed to `RunOnce` gives each URL's outcome.

`api_preview` answers an empty URL with "No preview URL found", because
`get_stream_url` returns `None` rather than raising. Only `api_thumbnail`
answers an empty URL with "Invalid URL". `Api.PreviewResponses` states this.

## Model

| member | source | states |
|---|---|---|
| Text.Strip | backend/downloader.py:173 | `strip()` never lengthens its input, and its result has no whitespace at either end |
| Text.TrimStartShape | backend/downloader.py:173 | `lstrip` removes a whitespace prefix only, and the result does not start with whitespace |
| Text.TrimEndShape | backend/downloader.py:173 | `rstrip` removes a whitespace suffix only, and the result does not end with whitespace |
| Text.StripShape | backend/downloader.py:173 | `strip()` splits its input into whitespace, the result and whitespace, and the result has no whitespace at either end |
| Text.StripTrimmed | backend/downloader.py:173 | a string with no whitespace at either end strips to itself |
| Text.StripIdempotent | backend/downloader.py:173 | stripping twice equals stripping once |
| Text.StripEmpty | backend/downloader.py:173-175 | the strip is empty exactly when the string is all whitespace, which is when `add_to_queue` skips the item |
| Text.OrEmpty | backend/downloader.py:173 | `raw or ""`: the string itself when truthy, otherwise the empty string |
| MediaInfo.FetchInfo | backend/downloader.py:21-28 | `_info` returns the extracted dictionary exactly when the URL is non-empty and extraction returned one; an empty URL raises "Invalid URL", a `None` result raises "Failed to fetch metadata", and an exception propagates with its message |
| Thumbnails.ScanFindsBest | backend/downloader.py:33-42 | the loop keeps no URL exactly when no entry has a URL and an area of at least 0; otherwise it holds the area and URL of the first entry of largest area among those |
| Thumbnails.BestIsUnique | backend/downloader.py:36-42 | the best entry is unique: a strict `>` makes the first of equal areas win |
| Thumbnails.BestThumbnail | backend/downloader.py:31-48 | the result is the `thumbnail` field, or else the non-empty URL of the best eligible entry |
| Thumbnails.BestThumbnailSpec | backend/downloader.py:31-48 | the result is the URL of the best eligible entry when there is one, and the `thumbnail` field (possibly absent) when there is none |
| Thumbnails.NeverAnEntryWithoutUrl | backend/downloader.py:40-48 | the result is either the `thumbnail` field or the URL of an entry that has a non-empty URL |
| Thumbnails.GetBestThumbnail | backend/downloader.py:31-48 | the loop over `thumbnails` with `best_area` and `best_url`, then the fallback, computes `BestThumbnail` |
| Streams.MaxFormatIndex | backend/downloader.py:69-74 | `max(formats, key=(height, abr))`: no format has a greater key, and every earlier format has a smaller one |
| Streams.MaxFormatUnique | backend/downloader.py:74 | there is exactly one such maximal position |
| Streams.FirstRequestedUrl | backend/downloader.py:54-60 | when `requested_formats` is a non-empty list whose first element is a dictionary, the result is that element's `url`; otherwise there is none |
| Streams.PickStreamUrl | backend/downloader.py:51-78 | the selected stream URL is never empty |
| Streams.PickStreamUrlPriority | backend/downloader.py:54-78 | a non-empty `requested_formats[0]` URL wins; otherwise a non-empty `url` wins; otherwise the result is the URL of the maximal format, and there is one exactly when that format has a URL |
| Streams.OnlyFirstRequestedFormat | backend/downloader.py:55-60 | elements of `requested_formats` after the first never affect the result |
| Streams.MaximalFormatWithoutUrlGivesNone | backend/downloader.py:62-78 | with no URL from `requested_formats[0]` or `url`, a maximal format without a URL makes the result `None`, whatever URLs the other formats have |
| Streams.MaximalFormatWithoutUrl | backend/downloader.py:74-78 | an instance: a dictionary whose maximal format lacks a URL gives `None`, although a smaller format has one |
| Streams.StreamUrlOfInfo | backend/downloader.py:89-95 | a returned stream URL is never empty; the call raises the AttributeError exactly when the info is a playlist whose first entry is `None` |
| Streams.GetStreamUrl | backend/downloader.py:81-95 | an empty URL or a `None` extraction gives `None`; a returned stream URL is never empty; it raises only for a non-empty URL, with the extraction's own exception or the AttributeError of a `None` first entry |
| Streams.PlaylistUsesFirstEntry | backend/downloader.py:90-93 | a playlist with entries is answered from `entries[0]` alone |
| Streams.EmptyPlaylistUsesOwnInfo | backend/downloader.py:90-95 | a playlist with no entries is answered from its own dictionary |
| JobQueue.ParsedUrls | backend/downloader.py:172-175 | the enqueued URLs are at most as many as the items |
| JobQueue.ParsedUrlsClean | backend/downloader.py:173-175 | every enqueued URL is non-empty and has no whitespace at either end |
| JobQueue.ParsedUrlsAppend | backend/downloader.py:172-186 | each item contributes on its own and in input order: parsing a concatenation concatenates the parses |
| JobQueue.ParsedUrlsSingle | backend/downloader.py:172-175 | one item yields its stripped value, or nothing when that is blank |
| JobQueue.NewJobs | backend/downloader.py:177-185 | one job record per enqueued URL |
| JobQueue.NewJobsAt | backend/downloader.py:176-185 | the i-th appended job has id `start + i`, the i-th URL, status `queued`, and no result and no error |
| JobQueue.FreshIds | backend/downloader.py:176-186 | one returned id per enqueued URL |
| JobQueue.FreshIdsAt | backend/downloader.py:176-186 | the i-th returned id is `start + i`, so the returned ids are the appended jobs' ids in order |
| JobQueue.AddOutcome | backend/downloader.py:168-190 | a non-list raises "urls must be a list of strings"; a list returns the appended jobs' fresh ids `nextId`, `nextId + 1`, … in order, one per non-blank item, unless some item is non-blank and starting the runner raises, in which case that exception propagates |
| JobQueue.AddKeepsWellFormed | backend/downloader.py:171-190 | appending the new jobs keeps the queue invariant and leaves the old jobs unchanged; the new ids differ from every existing id |
| JobQueue.FirstQueued | backend/downloader.py:145-148 | the position of the first `queued` job, or none exactly when no job is queued |
| JobQueue.Start | backend/downloader.py:144-150 | the first queued job becomes `running` and every other job is unchanged; with nothing queued the queue is unchanged; statuses only move forward |
| JobQueue.StartSpec | backend/downloader.py:144-154 | only the first queued job becomes `running` and the rest are unchanged; with nothing queued the queue is unchanged; the invariant holds with that job in flight |
| JobQueue.Complete | backend/downloader.py:156-165 | only the finished job changes and it keeps its id and URL; a download sets `done` and the result and leaves `error`; an exception sets `error` and the message and leaves `result`; a `running` job only moves forward |
| JobQueue.CompleteSpec | backend/downloader.py:156-165 | only the runner's job changes, to `done` with the result or to `error` with the message; the invariant holds with the runner idle; statuses only move forward |
| JobQueue.RunnerIteration | backend/downloader.py:140-165 | with nothing queued the queue is unchanged; otherwise only the first queued job changes: it ends `done` with the download's result exactly when the download returned, and `error` with its message exactly when it raised; statuses only move forward |
| JobQueue.RunnerIterationDrains | backend/downloader.py:140-165 | one iteration keeps the invariant and only moves statuses forward; it finishes exactly one queued job when there is one and changes nothing otherwise |
| JobQueue.View | backend/downloader.py:196-203 | one snapshot entry copies `id`, `url`, `status` and `error`, and takes `title` and `filepath` from the result, or `None` without one |
| JobQueue.Statuses | backend/downloader.py:193-205 | one entry per job, in queue order, copying `id`, `url`, `status` and `error`; `title` and `filepath` come from the result, or are `None` without one |
| JobQueue.StatusesShowOutcome | backend/downloader.py:195-205 | in a reachable queue, an entry has a title and file path exactly when it is `done`, and an error exactly when it is `error` |
| JobQueue.Queue.constructor | backend/downloader.py:128 | the queue starts empty, with no job in flight |
| JobQueue.Queue.AddToQueue | backend/downloader.py:168-190 | returns `AddOutcome`; a non-list leaves the queue unchanged; a list appends `NewJobs` of the parsed URLs and advances the counter by as many, also when starting the runner then raises; the invariant is kept |
| JobQueue.Queue.AppendJobs | backend/downloader.py:171-186 | the loop appends one queued job per non-blank item and returns the fresh ids in order |
| JobQueue.Queue.StartNext | backend/downloader.py:144-150 | the search loop finds `FirstQueued` and sets that job `running` in place, leaving the queue as `Start` says; that job becomes the runner's job |
| JobQueue.Queue.Finish | backend/downloader.py:156-165 | records the download outcome on the runner's job exactly as `Complete` says and makes the runner idle; the invariant is kept |
| JobQueue.Queue.RunOnce | backend/downloader.py:141-165 | one iteration of `_runner` changes the queue as `RunnerIteration` says |
| JobQueue.Queue.GetQueueStatuses | backend/downloader.py:193-205 | returns `Statuses` of the queue and changes nothing |
| Api.ApiThumbnail | backend/main.py:35-46 | every failure is a 400; a success carries a non-empty thumbnail |
| Api.ThumbnailResponses | backend/main.py:35-46 | an empty URL gives 400 "Invalid URL"; no info gives 400 "Failed to fetch metadata"; an exception gives 400 with its message; otherwise the body holds the best eligible thumbnail, or the `thumbnail` field, and "No thumbnail found" when that is empty or missing |
| Api.ApiPreview | backend/main.py:49-59 | every failure is a 400; a success carries a non-empty stream URL |
| Api.PreviewResponses | backend/main.py:49-59 | an empty URL or no info gives 400 "No preview URL found"; an exception gives 400 with its message; a `None` first playlist entry gives 400 with the AttributeError text; otherwise the body holds the picked URL of the first entry or of the info itself |
| Api.QueuedResponse | backend/main.py:65-68 | success exactly when `add_to_queue` returned; `queued` is the number of ids and `job_ids` the ids; an exception is a 400 with its message |
| Api.ApiDownload | backend/main.py:62-68 | succeeds, with a queued body, exactly when the runner starts or the URL is blank; otherwise a 400 with the runner's exception message |
| Api.DownloadRejectedAfterQueueing | backend/main.py:62-68 | in a worker thread, a non-blank URL gets 400 "no running event loop", although one `queued` job with that stripped URL was appended |
| Api.ApiDownloadIntended | backend/main.py:62-68 | with the runner started, `api_download` always succeeds with a queued body |
| Api.DownloadQueuesAtMostOne | backend/main.py:65-66 | with the runner started, `queued` is at most 1: it is 1, with the single fresh id, exactly when the stripped URL is not blank |
| Api.RequestedUrls | backend/main.py:74 | `body.urls or []`: a missing list is the empty list, and otherwise each string is passed on in order |
| Api.ApiQueueAdd | backend/main.py:71-77 | succeeds, with a queued body, exactly when the runner starts or every URL is blank; otherwise a 400 with the runner's exception message |
| Api.QueueAddRejectedAfterQueueing | backend/main.py:71-77 | in a worker thread, a batch with a non-blank URL gets 400 "no running event loop", although one `queued` job per non-blank URL was appended |
| Api.ApiQueueAddIntended | backend/main.py:71-77 | with the runner started, `api_queue_add` always succeeds with a queued body |
| Api.QueueAddCountsIds | backend/main.py:74-75 | with the runner started, `queued` equals the number of returned ids and the number of non-blank URLs; the ids are consecutive fresh ids in input order; a missing list queues nothing |
| Api.ApiQueue | backend/main.py:80-85 | always succeeds, and its body is the whole `get_queue_statuses` snapshot |

## Findings

| source | as written | input that shows it | evidently intended | confidence | as-written member | corrected member |
|---|---|---|---|---|---|---|
| backend/main.py:62-68 | `api_download` is a plain `def`, so FastAPI runs it in a worker thread; `add_to_queue` appends the job, then `asyncio.create_task` in `_ensure_runner` raises "no running event loop" and the handler answers 400; no runner ever starts, so the job stays `queued` | any body URL that is not blank | the runner starts and the response is `{"queued": 1, "job_ids": [id]}` | not executed; relies on FastAPI running `def` handlers in a thread pool | Api.DownloadRejectedAfterQueueing | Api.ApiDownloadIntended |
| backend/main.py:71-77 | `api_queue_add` is a plain `def` as well: the jobs of the non-blank URLs are appended, then the same `RuntimeError` becomes a 400 and the jobs are never run | `{"urls": ["u"]}` | the runner starts and the response lists one id per non-blank URL | not executed; relies on FastAPI running `def` handlers in a thread pool | Api.QueueAddRejectedAfterQueueing | Api.ApiQueueAddIntended |

## Left out

- yt-dlp itself is left out: `YoutubeDL`, `extract_info`, `prepare_filename` and the body of `download` (backend/downloader.py:98-123). Their results are parameters: `Extraction`, `DownloadOutcome` and the `download` function given to `RunOnce`.
- The async machinery is left out: the endless `while not _STOP_SIGNAL` loop, `_QUEUE_LOCK`, `asyncio.sleep` and `asyncio.to_thread`. One iteration runs sequentially, as `StartNext` followed by `Finish`.
- `_ensure_runner` (backend/downloader.py:134-137) is a parameter, `RunnerStart`: the runner starts, or `asyncio.create_task` raises with a message. Whether a runner task already exists is not tracked.
- JobQueue.Queue.AddToQueue: `uuid4()` is modelled as a counter, so ids are distinct by construction rather than with high probability.
- JobQueue.Queue.AddToQueue: the loop is the separate method `AppendJobs`. An item that is truthy but not a string is left out: it raises `AttributeError` after the earlier items were appended. List items are strings or `None`.
- JobQueue.Queue.Finish: the `traceback` field written on failure is left out.
- JobQueue.Queue.Finish: the model treats `str(e)` as an opaque message.
- JobQueue.Queue.RunOnce: the runner does not re-read `job` after it is marked `running`. The model keeps it as the position `inFlight`. Positions are stable because the queue only grows at its end.
- Streams.MaxFormatIndex: `abr` is compared as an integer rather than a Python float.
- Thumbnails.Area: `int()` on a non-numeric width or height is left out; dimensions are integers or absent.
- Elements of `thumbnails`, `formats` or `entries` that are not dictionaries are left out, apart from a `None` entry or a non-dictionary element of `requested_formats`. Calling `.get` on them raises, and the model does not cover that.
- A truthy `thumbnails` or `entries` that is not a list is left out. The backend only applies `or []` to them (backend/downloader.py:33, backend/downloader.py:91), so iterating or indexing such a value raises, or walks a string or dictionary. The model has no such value: each is a list or absent.
- A playlist's `entries` is taken to be a list, not a lazy generator.
- Python's `str.strip()` is modelled with the whitespace set of `str.isspace()` listed in `Text.SpaceChars`. Unicode data is not consulted beyond that set.
- In `ParsedUrls`, empty strings and `None` both count as blank. Other falsy values such as `0` or `[]` would also become `""` through `raw or ""`; they are left out because items are strings or `None`.
- Api.ApiQueue: `get_queue_statuses` cannot raise on the modelled jobs, so the 400 branch of `api_queue` never occurs in the model.
- Framework plumbing is left out: FastAPI routing, CORS, pydantic validation of request bodies, and environment configuration such as `DEFAULT_DOWNLOAD_DIR` and `YTDLP_COMMON_OPTS`.
- The progress hooks, cancel endpoint, quality selector and persistent queue are left out. They exist only as TODO comments (backend/downloader.py:105, backend/main.py:88-90).
