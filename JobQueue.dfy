/** The backend's in-memory FIFO of download jobs: `add_to_queue`, one iteration
    of `_runner` (pick the first queued job, then record its outcome) and
    `get_queue_statuses`. The pure functions say what each step does to the list
    of jobs; the class `Queue` holds that list and performs the steps in place. */
module JobQueue {
  import opened Wrappers
  import opened Text

  /** A job id. `uuid4()` is modelled by a counter that hands out fresh numbers. */
  type JobId = nat

  datatype Status = Queued | Running | Done | Error

  /** The dictionary that `download` returns. */
  datatype DownloadResult = DownloadResult(title: string, videoId: string, filepath: string)

  /** What `await download(job["url"])` did: returned a result or raised. */
  datatype DownloadOutcome = Downloaded(result: DownloadResult) | Failed(message: string)

  /** One job dictionary of `QUEUE`. */
  datatype Job = Job(id: JobId, url: string, status: Status, result: Option<DownloadResult>, error: Option<string>)

  /** One dictionary of the snapshot `get_queue_statuses` returns. */
  datatype JobView = JobView(id: JobId, url: string, status: Status, title: Option<string>,
                             filepath: Option<string>, error: Option<string>)

  /** The argument of `add_to_queue`: a list of strings (an item may be `None`), or
      something that is not a list. */
  datatype UrlsArgument = UrlList(items: seq<Option<string>>) | NotAList

  const NotAListMessage := "urls must be a list of strings"

  // ---------------------------------------------------------------------------
  // add_to_queue

  /** The URLs `add_to_queue` enqueues: `(raw or "").strip()` of each item, blank
      ones dropped, in input order. */
  function ParsedUrls(items: seq<Option<string>>): (r: seq<string>)
    ensures |r| <= |items|
  {
    if items == [] then []
    else
      var front := ParsedUrls(items[..|items| - 1]);
      var url := Strip(OrEmpty(items[|items| - 1]));
      if url == "" then front else front + [url]
  }

  /** Every enqueued URL is non-empty and carries no surrounding whitespace. */
  lemma {:induction false} ParsedUrlsClean(items: seq<Option<string>>)
    ensures forall i :: 0 <= i < |ParsedUrls(items)| ==> ParsedUrls(items)[i] != "" && IsTrimmed(ParsedUrls(items)[i])
  {
    if items != [] {
      ParsedUrlsClean(items[..|items| - 1]);
    }
  }

  /** Parsing a concatenation parses each part: every item contributes on its own
      and in its place. */
  lemma {:induction false} ParsedUrlsAppend(xs: seq<Option<string>>, ys: seq<Option<string>>)
    ensures ParsedUrls(xs + ys) == ParsedUrls(xs) + ParsedUrls(ys)
  {
    if ys != [] {
      var n := |ys| - 1;
      assert (xs + ys)[..|xs + ys| - 1] == xs + ys[..n];
      assert (xs + ys)[|xs + ys| - 1] == ys[n];
      ParsedUrlsAppend(xs, ys[..n]);
    } else {
      assert xs + ys == xs;
    }
  }

  /** A single item yields its stripped value, or nothing when that is blank. */
  lemma ParsedUrlsSingle(x: Option<string>)
    ensures ParsedUrls([x]) == if Strip(OrEmpty(x)) == "" then [] else [Strip(OrEmpty(x))]
  {
    assert [x][..0] == [];
  }

  /** The job records appended for `urls`, numbered from `start`. */
  function NewJobs(urls: seq<string>, start: nat): (r: seq<Job>)
    ensures |r| == |urls|
  {
    if urls == [] then []
    else NewJobs(urls[..|urls| - 1], start) + [Job(start + |urls| - 1, urls[|urls| - 1], Queued, None, None)]
  }

  /** `n` fresh ids from `start` on. */
  function FreshIds(start: nat, n: nat): (r: seq<JobId>)
    ensures |r| == n
  {
    if n == 0 then [] else FreshIds(start, n - 1) + [start + n - 1]
  }

  /** The `i`-th appended job is a fresh `queued` job for the `i`-th URL, with no
      result and no error. */
  lemma {:induction false} NewJobsAt(urls: seq<string>, start: nat)
    ensures forall i :: 0 <= i < |urls| ==> NewJobs(urls, start)[i] == Job(start + i, urls[i], Queued, None, None)
  {
    if urls != [] {
      var front := urls[..|urls| - 1];
      NewJobsAt(front, start);
      assert forall i :: 0 <= i < |front| ==> urls[i] == front[i];
    }
  }

  /** The `i`-th fresh id is `start + i`; in particular they are pairwise distinct. */
  lemma {:induction false} FreshIdsAt(start: nat, n: nat)
    ensures forall i :: 0 <= i < n ==> FreshIds(start, n)[i] == start + i
  {
    if n > 0 {
      FreshIdsAt(start, n - 1);
    }
  }

  /** An item that strips to nothing adds nothing. */
  lemma SkipBlankItem(items: seq<Option<string>>, i: nat)
    requires i < |items| && Strip(OrEmpty(items[i])) == ""
    ensures ParsedUrls(items[..i + 1]) == ParsedUrls(items[..i])
  {
    assert items[..i + 1][..i] == items[..i];
  }

  /** An item that strips to a non-blank `url` adds `url`. */
  lemma AppendItem(items: seq<Option<string>>, i: nat, url: string)
    requires i < |items| && url == Strip(OrEmpty(items[i])) && url != ""
    ensures ParsedUrls(items[..i + 1]) == ParsedUrls(items[..i]) + [url]
  {
    assert items[..i + 1][..i] == items[..i];
  }

  /** One more URL appends one more job and one more fresh id. */
  lemma JobsStep(prefix: seq<Job>, urls: seq<string>, url: string, start: nat)
    ensures prefix + NewJobs(urls + [url], start) == (prefix + NewJobs(urls, start)) + [Job(start + |urls|, url, Queued, None, None)]
    ensures FreshIds(start, |urls + [url]|) == FreshIds(start, |urls|) + [start + |urls|]
  {
    assert (urls + [url])[..|urls|] == urls;
  }

  /** The state `add_to_queue` has reached after the first `i` items: the jobs of
      their non-blank URLs appended to `before`, and as many fresh ids handed out. */
  ghost predicate AppendedUpTo(items: seq<Option<string>>, i: nat, start: nat, before: seq<Job>,
                               jobs: seq<Job>, nextId: nat, ids: seq<JobId>)
    requires i <= |items|
  {
    var parsed := ParsedUrls(items[..i]);
    && jobs == before + NewJobs(parsed, start)
    && nextId == start + |parsed|
    && ids == FreshIds(start, |parsed|)
  }

  /** One iteration of the loop in `add_to_queue` keeps `AppendedUpTo`. */
  lemma AppendedStep(items: seq<Option<string>>, i: nat, start: nat, before: seq<Job>,
                     jobs: seq<Job>, nextId: nat, ids: seq<JobId>)
    requires i < |items| && AppendedUpTo(items, i, start, before, jobs, nextId, ids)
    ensures var url := Strip(OrEmpty(items[i]));
      if url == "" then AppendedUpTo(items, i + 1, start, before, jobs, nextId, ids)
      else AppendedUpTo(items, i + 1, start, before, jobs + [Job(nextId, url, Queued, None, None)], nextId + 1, ids + [nextId])
  {
    var url := Strip(OrEmpty(items[i]));
    if url == "" {
      SkipBlankItem(items, i);
    } else {
      AppendItem(items, i, url);
      JobsStep(before, ParsedUrls(items[..i]), url, start);
    }
  }

  /** What `_ensure_runner()` does when `add_to_queue` calls it: it returns, or
      `asyncio.create_task` raises an exception with the given message. */
  datatype RunnerStart = RunnerStarted | RunnerFailed(message: string)

  /** What `add_to_queue(urls)` returns when the next fresh id is `nextId` and
      `_ensure_runner` does what `runner` says. It is called only once some job
      was appended, and an exception it raises replaces the ids. */
  function AddOutcome(urls: UrlsArgument, nextId: nat, runner: RunnerStart): (r: Result<seq<JobId>>)
    ensures urls.NotAList? ==> r == Err(NotAListMessage)
    ensures urls.UrlList? && (runner.RunnerStarted? || ParsedUrls(urls.items) == []) ==>
      r.Ok? && |r.value| == |ParsedUrls(urls.items)|
    ensures urls.UrlList? && runner.RunnerFailed? && ParsedUrls(urls.items) != [] ==> r == Err(runner.message)
    ensures r.Ok? ==> forall i, j :: 0 <= i < j < |r.value| ==> r.value[i] != r.value[j]
    ensures urls.UrlList? && r.Ok? ==> r.value == FreshIds(nextId, |ParsedUrls(urls.items)|)
    ensures r.Ok? ==> forall i :: 0 <= i < |r.value| ==> r.value[i] == nextId + i
  {
    match urls
    case NotAList => Err(NotAListMessage)
    case UrlList(items) =>
      var ids := FreshIds(nextId, |ParsedUrls(items)|);
      if ids != [] && runner.RunnerFailed? then Err(runner.message)
      else
        FreshIdsAt(nextId, |ParsedUrls(items)|);
        Ok(ids)
  }

  // ---------------------------------------------------------------------------
  // The invariant of the queue

  /** Which of `result` and `error` a job has in each status. */
  predicate FieldsMatchStatus(j: Job)
  {
    match j.status
    case Queued => j.result.None? && j.error.None?
    case Running => j.result.None? && j.error.None?
    case Done => j.result.Some? && j.error.None?
    case Error => j.result.None? && j.error.Some?
  }

  /** Every id is below the counter, so the counter's next value is fresh. */
  ghost predicate IdsBelow(jobs: seq<Job>, nextId: nat)
  {
    forall i :: 0 <= i < |jobs| ==> jobs[i].id < nextId
  }

  ghost predicate IdsDistinct(jobs: seq<Job>)
  {
    forall i, j :: 0 <= i < j < |jobs| ==> jobs[i].id != jobs[j].id
  }

  /** Every URL is a non-empty stripped string. */
  ghost predicate UrlsClean(jobs: seq<Job>)
  {
    forall i :: 0 <= i < |jobs| ==> jobs[i].url != "" && IsTrimmed(jobs[i].url)
  }

  /** The queued jobs form a suffix: jobs are started in the order they came. */
  ghost predicate QueuedSuffix(jobs: seq<Job>)
  {
    forall i, j :: 0 <= i < j < |jobs| && jobs[i].status == Queued ==> jobs[j].status == Queued
  }

  /** A job is running exactly when it is the runner's job `inFlight`. */
  ghost predicate RunnerHolds(jobs: seq<Job>, inFlight: Option<nat>)
  {
    && (inFlight.Some? ==> inFlight.value < |jobs|)
    && (forall i :: 0 <= i < |jobs| ==> (jobs[i].status == Running <==> inFlight == Some(i)))
  }

  ghost predicate FieldsMatch(jobs: seq<Job>)
  {
    forall i :: 0 <= i < |jobs| ==> FieldsMatchStatus(jobs[i])
  }

  /** The invariant every reachable queue keeps. `inFlight` is the runner's `job`
      variable: the position of the job it is downloading, if any. */
  ghost predicate WellFormed(jobs: seq<Job>, nextId: nat, inFlight: Option<nat>)
  {
    && IdsBelow(jobs, nextId)
    && IdsDistinct(jobs)
    && UrlsClean(jobs)
    && QueuedSuffix(jobs)
    && RunnerHolds(jobs, inFlight)
    && FieldsMatch(jobs)
  }

  /** Replacing one job by one with the same id and URL keeps the first three
      parts of the invariant. */
  lemma UpdateKeepsIdentity(jobs: seq<Job>, nextId: nat, k: nat, j: Job)
    requires k < |jobs| && j.id == jobs[k].id && j.url == jobs[k].url
    requires IdsBelow(jobs, nextId) && IdsDistinct(jobs) && UrlsClean(jobs)
    ensures IdsBelow(jobs[k := j], nextId) && IdsDistinct(jobs[k := j]) && UrlsClean(jobs[k := j])
  {
    var after := jobs[k := j];
    assert forall i :: 0 <= i < |jobs| ==> after[i].id == jobs[i].id && after[i].url == jobs[i].url;
  }

  /** The statuses a job can reach along `queued -> running -> done | error`. */
  predicate MayBecome(before: Status, after: Status)
  {
    before == after
    || (before == Queued && after != Queued)
    || (before == Running && (after == Done || after == Error))
  }

  /** `after` is `before` with jobs possibly appended and each old job keeping its
      id and URL and moving its status only forward. */
  predicate Advances(before: seq<Job>, after: seq<Job>)
  {
    && |before| <= |after|
    && forall i :: 0 <= i < |before| ==>
         after[i].id == before[i].id && after[i].url == before[i].url
         && MayBecome(before[i].status, after[i].status)
  }

  /** Appending the jobs of well-formed URLs keeps the invariant, and the new ids
      are distinct from each other and from every id already in the queue. */
  lemma AddKeepsWellFormed(jobs: seq<Job>, nextId: nat, inFlight: Option<nat>, urls: seq<string>)
    requires WellFormed(jobs, nextId, inFlight)
    requires forall i :: 0 <= i < |urls| ==> urls[i] != "" && IsTrimmed(urls[i])
    ensures WellFormed(jobs + NewJobs(urls, nextId), nextId + |urls|, inFlight)
    ensures Advances(jobs, jobs + NewJobs(urls, nextId))
    ensures forall i, k :: 0 <= i < |jobs| && 0 <= k < |urls| ==> jobs[i].id != FreshIds(nextId, |urls|)[k]
  {
    var added := NewJobs(urls, nextId);
    var all := jobs + added;
    AppendedIdsFresh(jobs, nextId, urls);
    NewJobsAt(urls, nextId);
    assert forall i :: 0 <= i < |jobs| ==> all[i] == jobs[i];
    assert forall i :: |jobs| <= i < |all| ==> all[i] == added[i - |jobs|];
    assert UrlsClean(all);
    assert QueuedSuffix(all) by {
      forall i, j | 0 <= i < j < |all| && all[i].status == Queued ensures all[j].status == Queued {
        if j < |jobs| { assert jobs[i].status == Queued; }
      }
    }
    assert RunnerHolds(all, inFlight);
    assert FieldsMatch(all);
  }

  /** The appended jobs take the next ids in turn, so all ids stay below the
      advanced counter and pairwise distinct. */
  lemma AppendedIdsFresh(jobs: seq<Job>, nextId: nat, urls: seq<string>)
    requires IdsBelow(jobs, nextId) && IdsDistinct(jobs)
    ensures IdsBelow(jobs + NewJobs(urls, nextId), nextId + |urls|)
    ensures IdsDistinct(jobs + NewJobs(urls, nextId))
    ensures forall i, k :: 0 <= i < |jobs| && 0 <= k < |urls| ==> jobs[i].id != FreshIds(nextId, |urls|)[k]
  {
    var added := NewJobs(urls, nextId);
    var all := jobs + added;
    NewJobsAt(urls, nextId);
    FreshIdsAt(nextId, |urls|);
    assert forall i :: |jobs| <= i < |all| ==> all[i].id == nextId + (i - |jobs|);
    assert IdsDistinct(all) by {
      forall i, j | 0 <= i < j < |all| ensures all[i].id != all[j].id {
        if j >= |jobs| {
          assert all[j].id == nextId + (j - |jobs|);
          if i >= |jobs| { assert all[i].id == nextId + (i - |jobs|); } else { assert all[i] == jobs[i]; }
        } else {
          assert all[i] == jobs[i] && all[j] == jobs[j];
        }
      }
    }
  }

  // ---------------------------------------------------------------------------
  // One iteration of _runner

  /** The position of the first job whose status is `queued`, if any. */
  function FirstQueued(jobs: seq<Job>): (r: Option<nat>)
    ensures r.None? <==> forall i :: 0 <= i < |jobs| ==> jobs[i].status != Queued
    ensures r.Some? ==> r.value < |jobs| && jobs[r.value].status == Queued
                        && forall i :: 0 <= i < r.value ==> jobs[i].status != Queued
  {
    if jobs == [] then None
    else if jobs[0].status == Queued then Some(0)
    else
      match FirstQueued(jobs[1..])
      case None => None
      case Some(k) => Some(k + 1)
  }

  /** The first half of an iteration: the first queued job becomes running. */
  function Start(jobs: seq<Job>): (r: seq<Job>)
    ensures |r| == |jobs|
    ensures FirstQueued(jobs).None? ==> r == jobs
    ensures FirstQueued(jobs).Some? ==>
      var k := FirstQueued(jobs).value;
      && r[k] == jobs[k].(status := Running)
      && forall i :: 0 <= i < |jobs| && i != k ==> r[i] == jobs[i]
    ensures Advances(jobs, r)
  {
    match FirstQueued(jobs)
    case None => jobs
    case Some(k) => jobs[k := jobs[k].(status := Running)]
  }

  /** The second half: the runner's job records what its download did. */
  function Complete(jobs: seq<Job>, k: nat, outcome: DownloadOutcome): (r: seq<Job>)
    requires k < |jobs|
    ensures |r| == |jobs|
    ensures forall i :: 0 <= i < |jobs| && i != k ==> r[i] == jobs[i]
    ensures r[k].id == jobs[k].id && r[k].url == jobs[k].url
    ensures outcome.Downloaded? ==> r[k].status == Done && r[k].result == Some(outcome.result) && r[k].error == jobs[k].error
    ensures outcome.Failed? ==> r[k].status == Error && r[k].error == Some(outcome.message) && r[k].result == jobs[k].result
    ensures jobs[k].status == Running ==> Advances(jobs, r)
  {
    match outcome
    case Downloaded(result) => jobs[k := jobs[k].(result := Some(result), status := Done)]
    case Failed(message) => jobs[k := jobs[k].(error := Some(message), status := Error)]
  }

  /** Starting moves exactly the first queued job to `running` and leaves every
      other job as it was; with nothing queued it changes nothing. It keeps the
      invariant with that job as the runner's. */
  lemma StartSpec(jobs: seq<Job>, nextId: nat)
    requires WellFormed(jobs, nextId, None)
    ensures FirstQueued(jobs).None? ==> Start(jobs) == jobs
    ensures FirstQueued(jobs).Some? ==>
      var k := FirstQueued(jobs).value;
      && |Start(jobs)| == |jobs| && Start(jobs)[k].status == Running
      && forall i :: 0 <= i < |jobs| && i != k ==> Start(jobs)[i] == jobs[i]
    ensures WellFormed(Start(jobs), nextId, FirstQueued(jobs))
    ensures Advances(jobs, Start(jobs))
  {
    if FirstQueued(jobs).Some? {
      var k := FirstQueued(jobs).value;
      var after := Start(jobs);
      assert after == jobs[k := jobs[k].(status := Running)];
      UpdateKeepsIdentity(jobs, nextId, k, after[k]);
      assert QueuedSuffix(after) by {
        forall i, j | 0 <= i < j < |after| && after[i].status == Queued ensures after[j].status == Queued {
          assert i != k && jobs[i].status == Queued;
        }
      }
      assert RunnerHolds(after, Some(k));
      assert FieldsMatch(after) by {
        forall i | 0 <= i < |after| ensures FieldsMatchStatus(after[i]) {
          assert FieldsMatchStatus(jobs[i]);
        }
      }
    }
  }

  /** Completing sets only the runner's job, to `done` with the result or to
      `error` with the message, and keeps the invariant with the runner idle. */
  lemma CompleteSpec(jobs: seq<Job>, nextId: nat, k: nat, outcome: DownloadOutcome)
    requires WellFormed(jobs, nextId, Some(k))
    ensures k < |jobs| && |Complete(jobs, k, outcome)| == |jobs|
    ensures forall i :: 0 <= i < |jobs| && i != k ==> Complete(jobs, k, outcome)[i] == jobs[i]
    ensures outcome.Downloaded? ==>
      Complete(jobs, k, outcome)[k].status == Done && Complete(jobs, k, outcome)[k].result == Some(outcome.result)
    ensures outcome.Failed? ==>
      Complete(jobs, k, outcome)[k].status == Error && Complete(jobs, k, outcome)[k].error == Some(outcome.message)
    ensures WellFormed(Complete(jobs, k, outcome), nextId, None)
    ensures Advances(jobs, Complete(jobs, k, outcome))
  {
    var after := Complete(jobs, k, outcome);
    assert jobs[k].status == Running;
    assert after == jobs[k := after[k]];
    UpdateKeepsIdentity(jobs, nextId, k, after[k]);
    assert QueuedSuffix(after) by {
      forall i, j | 0 <= i < j < |after| && after[i].status == Queued ensures after[j].status == Queued {
        assert i != k && jobs[i].status == Queued;
      }
    }
    assert RunnerHolds(after, None);
    assert FieldsMatch(after) by {
      forall i | 0 <= i < |after| ensures FieldsMatchStatus(after[i]) {
        assert FieldsMatchStatus(jobs[i]);
      }
    }
  }

  /** The number of queued jobs. */
  function QueuedCount(jobs: seq<Job>): nat
  {
    if jobs == [] then 0 else (if jobs[0].status == Queued then 1 else 0) + QueuedCount(jobs[1..])
  }

  /** Replacing one job changes the count by that job's own contribution. */
  lemma {:induction false} QueuedCountUpdate(jobs: seq<Job>, k: nat, j: Job)
    requires k < |jobs|
    ensures QueuedCount(jobs[k := j]) ==
            QueuedCount(jobs) - (if jobs[k].status == Queued then 1 else 0) + (if j.status == Queued then 1 else 0)
  {
    if k == 0 {
      assert jobs[k := j][1..] == jobs[1..];
    } else {
      assert jobs[k := j][1..] == jobs[1..][k - 1 := j];
      QueuedCountUpdate(jobs[1..], k - 1, j);
    }
  }

  /** One whole iteration of `_runner` when `download` gives each URL's outcome. */
  function RunnerIteration(jobs: seq<Job>, download: string -> DownloadOutcome): (r: seq<Job>)
    ensures |r| == |jobs|
    ensures FirstQueued(jobs).None? ==> r == jobs
    ensures FirstQueued(jobs).Some? ==>
      var k := FirstQueued(jobs).value;
      && (forall i :: 0 <= i < |jobs| && i != k ==> r[i] == jobs[i])
      && (r[k].status == Done <==> download(jobs[k].url).Downloaded?)
      && (r[k].status == Error <==> download(jobs[k].url).Failed?)
      && (download(jobs[k].url).Downloaded? ==> r[k].result == Some(download(jobs[k].url).result))
      && (download(jobs[k].url).Failed? ==> r[k].error == Some(download(jobs[k].url).message))
    ensures Advances(jobs, r)
  {
    match FirstQueued(jobs)
    case None => jobs
    case Some(k) => Complete(Start(jobs), k, download(jobs[k].url))
  }

  /** An iteration keeps the invariant, only moves statuses forward, and finishes
      exactly one queued job when there is one: the queue drains one job per
      iteration, oldest first. */
  lemma RunnerIterationDrains(jobs: seq<Job>, nextId: nat, download: string -> DownloadOutcome)
    requires WellFormed(jobs, nextId, None)
    ensures WellFormed(RunnerIteration(jobs, download), nextId, None)
    ensures Advances(jobs, RunnerIteration(jobs, download))
    ensures QueuedCount(jobs) == 0 ==> RunnerIteration(jobs, download) == jobs
    ensures QueuedCount(jobs) > 0 ==> QueuedCount(RunnerIteration(jobs, download)) == QueuedCount(jobs) - 1
  {
    match FirstQueued(jobs)
    case None =>
      if QueuedCount(jobs) > 0 {
        QueuedCountPositive(jobs);
      }
    case Some(k) =>
      StartSpec(jobs, nextId);
      var started := Start(jobs);
      CompleteSpec(started, nextId, k, download(jobs[k].url));
      QueuedCountUpdate(jobs, k, started[k]);
      assert started == jobs[k := started[k]];
      var done := Complete(started, k, download(jobs[k].url));
      assert done == started[k := done[k]];
      QueuedCountUpdate(started, k, done[k]);
  }

  /** A positive count means some job is queued. */
  lemma {:induction false} QueuedCountPositive(jobs: seq<Job>)
    requires QueuedCount(jobs) > 0
    ensures exists i :: 0 <= i < |jobs| && jobs[i].status == Queued
  {
    if jobs[0].status != Queued {
      QueuedCountPositive(jobs[1..]);
      var i :| 0 <= i < |jobs[1..]| && jobs[1..][i].status == Queued;
      assert jobs[i + 1].status == Queued;
    }
  }

  // ---------------------------------------------------------------------------
  // get_queue_statuses

  /** The snapshot entry of one job; `title` and `filepath` come from its result. */
  function View(j: Job): (v: JobView)
    ensures v.id == j.id && v.url == j.url && v.status == j.status && v.error == j.error
    ensures j.result.None? ==> v.title.None? && v.filepath.None?
    ensures j.result.Some? ==> v.title == Some(j.result.value.title) && v.filepath == Some(j.result.value.filepath)
  {
    JobView(j.id, j.url, j.status,
            if j.result.Some? then Some(j.result.value.title) else None,
            if j.result.Some? then Some(j.result.value.filepath) else None,
            j.error)
  }

  /** `get_queue_statuses()`: one entry per job, in queue order. */
  function Statuses(jobs: seq<Job>): (r: seq<JobView>)
    ensures |r| == |jobs|
    ensures forall i :: 0 <= i < |jobs| ==>
      r[i].id == jobs[i].id && r[i].url == jobs[i].url && r[i].status == jobs[i].status && r[i].error == jobs[i].error
    ensures forall i :: 0 <= i < |jobs| ==>
      (jobs[i].result.None? ==> r[i].title.None? && r[i].filepath.None?)
      && (jobs[i].result.Some? ==> r[i].title == Some(jobs[i].result.value.title)
                                   && r[i].filepath == Some(jobs[i].result.value.filepath))
  {
    seq(|jobs|, i requires 0 <= i < |jobs| => View(jobs[i]))
  }

  /** In the snapshot of a well-formed queue, a job shows a title and a file path
      exactly when it is done, and an error exactly when it failed. */
  lemma StatusesShowOutcome(jobs: seq<Job>, nextId: nat, inFlight: Option<nat>)
    requires WellFormed(jobs, nextId, inFlight)
    ensures forall i :: 0 <= i < |jobs| ==>
      (Statuses(jobs)[i].title.Some? <==> Statuses(jobs)[i].status == Done)
      && (Statuses(jobs)[i].filepath.Some? <==> Statuses(jobs)[i].status == Done)
      && (Statuses(jobs)[i].error.Some? <==> Statuses(jobs)[i].status == Error)
  {
    forall i | 0 <= i < |jobs|
      ensures Statuses(jobs)[i].title.Some? <==> Statuses(jobs)[i].status == Done
      ensures Statuses(jobs)[i].error.Some? <==> Statuses(jobs)[i].status == Error
    {
      assert FieldsMatchStatus(jobs[i]);
    }
  }

  // ---------------------------------------------------------------------------
  // The queue object

  /** `QUEUE` together with the id counter that stands for `uuid4`, and the
      runner's current job. */
  class Queue {
    var jobs: seq<Job>
    var nextId: nat
    var inFlight: Option<nat>

    ghost predicate Valid()
      reads this
    {
      WellFormed(jobs, nextId, inFlight)
    }

    constructor ()
      ensures Valid() && jobs == [] && inFlight == None
    {
      jobs, nextId, inFlight := [], 0, None;
    }

    /** `add_to_queue(urls)`: raise on a non-list; otherwise one `queued` job per
        non-blank stripped item, appended in order, and their fresh ids, unless
        starting the runner raises. The jobs stay appended in that case too. */
    method AddToQueue(urls: UrlsArgument, runner: RunnerStart) returns (r: Result<seq<JobId>>)
      requires Valid()
      modifies this
      ensures Valid()
      ensures r == AddOutcome(urls, old(nextId), runner)
      ensures urls.NotAList? ==> jobs == old(jobs) && nextId == old(nextId)
      ensures urls.UrlList? ==>
        && jobs == old(jobs) + NewJobs(ParsedUrls(urls.items), old(nextId))
        && nextId == old(nextId) + |ParsedUrls(urls.items)|
      ensures inFlight == old(inFlight)
    {
      if urls.NotAList? {
        return Err(NotAListMessage);
      }
      var ids := AppendJobs(urls.items);
      ParsedUrlsClean(urls.items);
      AddKeepsWellFormed(old(jobs), old(nextId), inFlight, ParsedUrls(urls.items));
      if ids != [] && runner.RunnerFailed? {
        return Err(runner.message);
      }
      return Ok(ids);
    }

    /** The loop of `add_to_queue`: append a job for each non-blank item. */
    method AppendJobs(items: seq<Option<string>>) returns (ids: seq<JobId>)
      modifies this
      ensures jobs == old(jobs) + NewJobs(ParsedUrls(items), old(nextId))
      ensures nextId == old(nextId) + |ParsedUrls(items)|
      ensures ids == FreshIds(old(nextId), |ParsedUrls(items)|)
      ensures inFlight == old(inFlight)
    {
      ids := [];
      ghost var start, before := nextId, jobs;
      for i := 0 to |items|
        invariant AppendedUpTo(items, i, start, before, jobs, nextId, ids)
        invariant inFlight == old(inFlight)
      {
        AppendedStep(items, i, start, before, jobs, nextId, ids);
        var url := Strip(OrEmpty(items[i]));
        if url != "" {
          jobs, ids, nextId := jobs + [Job(nextId, url, Queued, None, None)], ids + [nextId], nextId + 1;
        }
      }
      assert items[..|items|] == items;
    }

    /** First half of a `_runner` iteration: find the first queued job and mark
        it running; with none queued, change nothing. */
    method StartNext() returns (started: Option<nat>)
      requires Valid() && inFlight == None
      modifies this
      ensures Valid()
      ensures started == FirstQueued(old(jobs)) && inFlight == started
      ensures jobs == Start(old(jobs)) && nextId == old(nextId)
    {
      var i := 0;
      while i < |jobs| && jobs[i].status != Queued
        invariant 0 <= i <= |jobs|
        invariant forall j :: 0 <= j < i ==> jobs[j].status != Queued
      {
        i := i + 1;
      }
      StartSpec(jobs, nextId);
      if i == |jobs| {
        return None;
      }
      jobs := jobs[i := jobs[i].(status := Running)];
      inFlight := Some(i);
      started := Some(i);
    }

    /** Second half: record the outcome of the runner's download on its job. */
    method Finish(outcome: DownloadOutcome)
      requires Valid() && inFlight.Some?
      modifies this
      ensures Valid() && inFlight == None
      ensures jobs == Complete(old(jobs), old(inFlight).value, outcome) && nextId == old(nextId)
    {
      var k := inFlight.value;
      CompleteSpec(jobs, nextId, k, outcome);
      match outcome {
        case Downloaded(result) =>
          jobs := jobs[k := jobs[k].(result := Some(result), status := Done)];
        case Failed(message) =>
          jobs := jobs[k := jobs[k].(error := Some(message), status := Error)];
      }
      inFlight := None;
    }

    /** One iteration of `_runner`, with `download` standing for the downloads. */
    method RunOnce(download: string -> DownloadOutcome)
      requires Valid() && inFlight == None
      modifies this
      ensures Valid() && inFlight == None
      ensures jobs == RunnerIteration(old(jobs), download) && nextId == old(nextId)
    {
      var started := StartNext();
      if started.Some? {
        Finish(download(jobs[started.value].url));
      }
    }

    /** `get_queue_statuses()`; it changes nothing. */
    method GetQueueStatuses() returns (views: seq<JobView>)
      ensures views == Statuses(jobs)
    {
      views := Statuses(jobs);
    }
  }
}
