/**
  The job store: one record per conversion job, keyed by job id, and the set
  of job ids that still hold a processing lock.

  Every store operation is given twice: as a function from one `StoreView`
  (the two maps of the store) to the next, which is where its properties are
  stated and proved, and as a method of `InMemoryJobStore` that updates the
  store's fields in place and promises to move its view exactly as that
  function does. Lock objects carry no information beyond "this id is locked",
  so the lock map is the set `locks`.
 */
module Jobs {
  import opened Wrappers
  import opened Text
  import opened Numbers

  /** One entry of a job's `downloads` list. */
  datatype Download = Download(original: string, url: string)

  /** The record the store keeps for a job (the dictionary it hands out). */
  datatype Job = Job(
    totalFiles: int,
    processedFiles: int,
    successfulFiles: int,
    errorFiles: int,
    status: string,
    downloads: seq<Download>,
    currentFileIndex: int,
    currentFilePercent: real,
    currentFileEstSeconds: Option<real>,
    createdAt: Option<real>)

  /** The store's two maps: job records, and the ids whose lock is still held. */
  datatype StoreView = StoreView(jobs: map<string, Job>, locks: set<string>)

  /** The bookkeeping identities every record keeps. */
  predicate Consistent(j: Job) {
    j.successfulFiles >= 0 && j.errorFiles >= 0
    && j.processedFiles == j.successfulFiles + j.errorFiles
    && |j.downloads| == j.successfulFiles
  }

  /** Every record is consistent, and only known jobs are locked. */
  predicate Invariant(v: StoreView) {
    v.locks <= v.jobs.Keys && forall id | id in v.jobs :: Consistent(v.jobs[id])
  }

  /** Every job other than `id` keeps its record. */
  predicate OthersUnchanged(v: StoreView, r: StoreView, id: string) {
    r.jobs.Keys - {id} == v.jobs.Keys - {id}
    && forall o | o in v.jobs && o != id :: o in r.jobs && r.jobs[o] == v.jobs[o]
  }

  /** The record of a freshly created job. */
  function NewJob(total: int, now: real): (j: Job)
    ensures Consistent(j) && j.totalFiles == total && j.createdAt == Some(now)
    ensures j.processedFiles == 0 && j.successfulFiles == 0 && j.errorFiles == 0 && j.downloads == []
    ensures j.status == "initializing" && j.currentFileIndex == 0
    ensures j.currentFilePercent == 0.0 && j.currentFileEstSeconds.None?
  {
    Job(total, 0, 0, 0, "initializing", [], 0, 0.0, None, Some(now))
  }

  /** `create_job`: a new record under `id` (replacing any earlier one), and `id` locked. */
  function Created(v: StoreView, id: string, total: int, now: real): (r: StoreView)
    ensures id in r.jobs && r.jobs[id] == NewJob(total, now)
    ensures r.locks == v.locks + {id}
    ensures OthersUnchanged(v, r, id)
    ensures Invariant(v) ==> Invariant(r)
  {
    StoreView(v.jobs[id := NewJob(total, now)], v.locks + {id})
  }

  /** `update_progress`: only the current file's index, percentage, estimate and the status change. */
  function ProgressUpdated(v: StoreView, id: string, fileIndex: int, percent: real,
                           estSeconds: Option<real>, status: string): (r: StoreView)
    ensures id !in v.jobs ==> r == v
    ensures r.locks == v.locks && r.jobs.Keys == v.jobs.Keys && OthersUnchanged(v, r, id)
    ensures id in v.jobs ==>
      var (j, k) := (v.jobs[id], r.jobs[id]);
      k.totalFiles == j.totalFiles && k.processedFiles == j.processedFiles
      && k.successfulFiles == j.successfulFiles && k.errorFiles == j.errorFiles
      && k.downloads == j.downloads && k.createdAt == j.createdAt
      && k.currentFileIndex == fileIndex && k.status == status
      && k.currentFilePercent == Round2(percent)
      && (k.currentFileEstSeconds.Some? <==> estSeconds.Some?)
      && (estSeconds.Some? ==> k.currentFileEstSeconds == Some(RoundHalfEven(estSeconds.value) as real))
    ensures Invariant(v) ==> Invariant(r)
  {
    if id in v.jobs then
      var est := match estSeconds
        case None => None
        case Some(e) => Some(RoundHalfEven(e) as real);
      var j := v.jobs[id].(currentFileIndex := fileIndex, currentFilePercent := Round2(percent),
                           currentFileEstSeconds := est, status := status);
      StoreView(v.jobs[id := j], v.locks)
    else v
  }

  /** Progress 50.5 with 10.5 seconds left is stored as 50.5 and 10 (the tie goes to the even neighbour). */
  lemma ProgressRoundingExample(v: StoreView, now: real)
    ensures var r := ProgressUpdated(Created(v, "job1", 2, now), "job1", 1, 50.5, Some(10.5), "Converting...");
      r.jobs["job1"].currentFilePercent == 50.5 && r.jobs["job1"].currentFileEstSeconds == Some(10.0)
  {
    assert (10.5).Floor == 10;
    assert (5050.0).Floor == 5050;
  }

  /** `record_file_success`: one more processed and successful file, and one more download entry. */
  function SuccessRecorded(v: StoreView, id: string, original: string, url: string): (r: StoreView)
    ensures id !in v.jobs ==> r == v
    ensures r.locks == v.locks && r.jobs.Keys == v.jobs.Keys && OthersUnchanged(v, r, id)
    ensures id in v.jobs ==>
      var (j, k) := (v.jobs[id], r.jobs[id]);
      k.processedFiles == j.processedFiles + 1 && k.successfulFiles == j.successfulFiles + 1
      && k.errorFiles == j.errorFiles && k.downloads == j.downloads + [Download(original, url)]
      && k.totalFiles == j.totalFiles && k.status == j.status
      && k.currentFileIndex == j.currentFileIndex && k.currentFilePercent == j.currentFilePercent
      && k.currentFileEstSeconds == j.currentFileEstSeconds && k.createdAt == j.createdAt
    ensures Invariant(v) ==> Invariant(r)
  {
    if id in v.jobs then
      var j := v.jobs[id];
      var k := j.(processedFiles := j.processedFiles + 1, successfulFiles := j.successfulFiles + 1,
                  downloads := j.downloads + [Download(original, url)]);
      StoreView(v.jobs[id := k], v.locks)
    else v
  }

  /** `record_file_error`: one more processed and failed file; the downloads stay. */
  function ErrorRecorded(v: StoreView, id: string): (r: StoreView)
    ensures id !in v.jobs ==> r == v
    ensures r.locks == v.locks && r.jobs.Keys == v.jobs.Keys && OthersUnchanged(v, r, id)
    ensures id in v.jobs ==>
      var (j, k) := (v.jobs[id], r.jobs[id]);
      k.processedFiles == j.processedFiles + 1 && k.errorFiles == j.errorFiles + 1
      && k.successfulFiles == j.successfulFiles && k.downloads == j.downloads
      && k.totalFiles == j.totalFiles && k.status == j.status
      && k.currentFileIndex == j.currentFileIndex && k.currentFilePercent == j.currentFilePercent
      && k.currentFileEstSeconds == j.currentFileEstSeconds && k.createdAt == j.createdAt
    ensures Invariant(v) ==> Invariant(r)
  {
    if id in v.jobs then
      var j := v.jobs[id];
      StoreView(v.jobs[id := j.(processedFiles := j.processedFiles + 1, errorFiles := j.errorFiles + 1)], v.locks)
    else v
  }

  /** What `record_file_success` and `record_file_error` answer: the job exists and has had all its files. */
  predicate IsLast(v: StoreView, id: string) {
    id in v.jobs && v.jobs[id].processedFiles == v.jobs[id].totalFiles
  }

  /** `finalize_job`: the final status, percentage 100, estimate 0, index = total; the lock goes, the record stays. */
  function Finalized(v: StoreView, id: string, status: string): (r: StoreView)
    ensures r.jobs.Keys == v.jobs.Keys && OthersUnchanged(v, r, id)
    ensures r.locks == v.locks - {id}
    ensures id in v.jobs ==>
      var (j, k) := (v.jobs[id], r.jobs[id]);
      k.status == status && k.currentFilePercent == 100.0 && k.currentFileEstSeconds == Some(0.0)
      && k.currentFileIndex == j.totalFiles
      && k.totalFiles == j.totalFiles && k.processedFiles == j.processedFiles
      && k.successfulFiles == j.successfulFiles && k.errorFiles == j.errorFiles
      && k.downloads == j.downloads && k.createdAt == j.createdAt
    ensures Invariant(v) ==> Invariant(r)
  {
    var jobs := if id in v.jobs then
      var j := v.jobs[id];
      v.jobs[id := j.(status := status, currentFilePercent := 100.0,
                      currentFileEstSeconds := Some(0.0), currentFileIndex := j.totalFiles)]
    else v.jobs;
    StoreView(jobs, v.locks - {id})
  }

  /** `set_status`: only the status of an existing job changes. */
  function StatusSet(v: StoreView, id: string, status: string): (r: StoreView)
    ensures id !in v.jobs ==> r == v
    ensures r.locks == v.locks && r.jobs.Keys == v.jobs.Keys && OthersUnchanged(v, r, id)
    ensures id in v.jobs ==> r.jobs[id] == v.jobs[id].(status := status)
    ensures Invariant(v) ==> Invariant(r)
  {
    if id in v.jobs then StoreView(v.jobs[id := v.jobs[id].(status := status)], v.locks) else v
  }

  /** `remove_job`: the record and the lock of `id` are gone; nothing else changes. */
  function Removed(v: StoreView, id: string): (r: StoreView)
    ensures id !in r.jobs && id !in r.locks
    ensures r.jobs.Keys == v.jobs.Keys - {id} && r.locks == v.locks - {id}
    ensures OthersUnchanged(v, r, id)
    ensures Invariant(v) ==> Invariant(r)
  {
    StoreView(v.jobs - {id}, v.locks - {id})
  }

  lemma RemoveIdempotent(v: StoreView, id: string)
    ensures Removed(Removed(v, id), id) == Removed(v, id)
  {
  }

  /** A job may be swept: it has a creation time, is not locked, and is older than `ttl` (strictly). */
  predicate IsExpired(v: StoreView, id: string, now: real, ttl: real) {
    id in v.jobs && v.jobs[id].createdAt.Some? && id !in v.locks
    && now - v.jobs[id].createdAt.value > ttl
  }

  /** The ids `list_expired_jobs` reports. */
  ghost function ExpiredIds(v: StoreView, now: real, ttl: real): (r: set<string>)
    ensures r <= v.jobs.Keys && r !! v.locks
  {
    set id | id in v.jobs && IsExpired(v, id, now, ttl)
  }

  /** Start of the status of a job that converted some but not all of its files. */
  const PartialPrefix: string := "completed with errors ("

  /** The final status of a job with `successful` of `total` files converted. */
  function FinalStatus(total: int, successful: int): (r: string)
    ensures r == "done" <==> successful == total
    ensures r == "failed" <==> successful != total && successful <= 0
    ensures StartsWith(r, PartialPrefix) <==> successful != total && successful > 0
    ensures StartsWith(r, PartialPrefix) ==>
      r == PartialPrefix + IntToString(successful) + "/" + IntToString(total) + " successful)"
  {
    if successful == total then "done"
    else if successful > 0 then
      PartialPrefix + IntToString(successful) + "/" + IntToString(total) + " successful)"
    else "failed"
  }

  /** `compute_final_status`: "unknown" for a missing job, otherwise its final status. */
  function FinalStatusIn(v: StoreView, id: string): (r: string)
    ensures id !in v.jobs ==> r == "unknown"
    ensures id in v.jobs ==> r == FinalStatus(v.jobs[id].totalFiles, v.jobs[id].successfulFiles)
  {
    if id in v.jobs then FinalStatus(v.jobs[id].totalFiles, v.jobs[id].successfulFiles) else "unknown"
  }

  /** Two of three files converted: the status reads "completed with errors (2/3 successful)". */
  lemma PartialStatusExample()
    ensures FinalStatus(3, 2) == "completed with errors (2/3 successful)"
  {
    assert IntToString(2) == "2" && IntToString(3) == "3";
  }

  /** The outcome of one file, as the store records it. */
  datatype FileRecord = Succeeded(original: string, url: string) | Failed

  function Recorded(v: StoreView, id: string, f: FileRecord): StoreView {
    match f
    case Succeeded(original, url) => SuccessRecorded(v, id, original, url)
    case Failed => ErrorRecorded(v, id)
  }

  /** The store after recording `fs` for job `id`, in order. */
  function RecordedAll(v: StoreView, id: string, fs: seq<FileRecord>): StoreView
    decreases |fs|
  {
    if fs == [] then v else Recorded(RecordedAll(v, id, fs[..|fs| - 1]), id, fs[|fs| - 1])
  }

  function SuccessCount(fs: seq<FileRecord>): nat {
    if fs == [] then 0 else SuccessCount(fs[..|fs| - 1]) + (if fs[|fs| - 1].Succeeded? then 1 else 0)
  }

  function DownloadsOf(fs: seq<FileRecord>): seq<Download> {
    if fs == [] then []
    else DownloadsOf(fs[..|fs| - 1])
         + match fs[|fs| - 1] case Succeeded(o, u) => [Download(o, u)] case Failed => []
  }

  /** Recording a run of outcomes adds one processed file per outcome, split by kind, with the downloads in order. */
  lemma {:induction false} RecordedAllCounts(v: StoreView, id: string, fs: seq<FileRecord>)
    requires id in v.jobs
    ensures id in RecordedAll(v, id, fs).jobs
    ensures var (j, k) := (v.jobs[id], RecordedAll(v, id, fs).jobs[id]);
      k.totalFiles == j.totalFiles
      && k.processedFiles == j.processedFiles + |fs|
      && k.successfulFiles == j.successfulFiles + SuccessCount(fs)
      && k.errorFiles == j.errorFiles + (|fs| - SuccessCount(fs))
      && k.downloads == j.downloads + DownloadsOf(fs)
    decreases |fs|
  {
    if fs != [] {
      RecordedAllCounts(v, id, fs[..|fs| - 1]);
    }
  }

  /**
    From a fresh job of `total >= 1` files, the k-th record reports "last file"
    exactly when k is the total.
   */
  lemma OnlyLastRecordIsLast(v: StoreView, id: string, total: int, now: real, fs: seq<FileRecord>, k: nat)
    requires total >= 1 && |fs| == total && 1 <= k <= |fs|
    ensures IsLast(RecordedAll(Created(v, id, total, now), id, fs[..k]), id) <==> k == total
  {
    RecordedAllCounts(Created(v, id, total, now), id, fs[..k]);
  }

  /** `JobState`: a job's state together with its id. */
  datatype JobState = JobState(
    jobId: string,
    totalFiles: int,
    processedFiles: int,
    successfulFiles: int,
    errorFiles: int,
    status: string,
    downloads: seq<Download>,
    currentFileIndex: int,
    currentFilePercent: real,
    currentFileEstSeconds: Option<real>,
    createdAt: real)

  /** A `JobState` built with only its id, total and creation time given. */
  function DefaultJobState(jobId: string, total: int, now: real): JobState {
    JobState(jobId, total, 0, 0, 0, "initializing", [], 0, 0.0, None, now)
  }

  /** `JobState.to_dict`: every field except the id. */
  function ToDict(s: JobState): (r: Job)
    ensures r.totalFiles == s.totalFiles && r.processedFiles == s.processedFiles
    ensures r.successfulFiles == s.successfulFiles && r.errorFiles == s.errorFiles
    ensures r.status == s.status && r.downloads == s.downloads
    ensures r.currentFileIndex == s.currentFileIndex && r.currentFilePercent == s.currentFilePercent
    ensures r.currentFileEstSeconds == s.currentFileEstSeconds && r.createdAt == Some(s.createdAt)
  {
    Job(s.totalFiles, s.processedFiles, s.successfulFiles, s.errorFiles, s.status, s.downloads,
        s.currentFileIndex, s.currentFilePercent, s.currentFileEstSeconds, Some(s.createdAt))
  }

  /** Two states give the same dictionary exactly when they differ at most in their id. */
  lemma ToDictForgetsOnlyId(a: JobState, b: JobState)
    ensures ToDict(a) == ToDict(b) <==> a.(jobId := b.jobId) == b
  {
  }

  /** A default `JobState` serialises to the record `create_job` stores. */
  lemma DefaultStateIsNewJob(jobId: string, total: int, now: real)
    ensures ToDict(DefaultJobState(jobId, total, now)) == NewJob(total, now)
  {
  }

  /** `InMemoryJobStore`: the two dictionaries, updated in place. */
  class InMemoryJobStore {
    var jobs: map<string, Job>
    var locks: set<string>

    function View(): StoreView
      reads this
    {
      StoreView(jobs, locks)
    }

    ghost predicate Valid()
      reads this
    {
      Invariant(View())
    }

    constructor ()
      ensures Valid() && View() == StoreView(map[], {})
    {
      jobs := map[];
      locks := {};
    }

    /** `time.time()` at creation is the parameter `now`. */
    method CreateJob(id: string, total: int, now: real)
      requires Valid()
      modifies this
      ensures Valid() && View() == Created(old(View()), id, total, now)
    {
      locks := locks + {id};
      jobs := jobs[id := NewJob(total, now)];
    }

    function GetJob(id: string): (r: Option<Job>)
      reads this
      ensures r.Some? <==> id in jobs
      ensures r.Some? ==> r.value == jobs[id]
    {
      if id in jobs then Some(jobs[id]) else None
    }

    function HasJob(id: string): (r: bool)
      reads this
      ensures r <==> GetJob(id).Some?
    {
      id in jobs
    }

    function HasLock(id: string): (r: bool)
      reads this
      ensures r <==> id in View().locks
      ensures r ==> Valid() ==> HasJob(id)
    {
      id in locks
    }

    method UpdateProgress(id: string, fileIndex: int, percent: real, estSeconds: Option<real>, status: string)
      requires Valid()
      modifies this
      ensures Valid() && View() == ProgressUpdated(old(View()), id, fileIndex, percent, estSeconds, status)
    {
      if id in jobs {
        var est: Option<real> := None;
        if estSeconds.Some? {
          est := Some(RoundHalfEven(estSeconds.value) as real);
        }
        jobs := jobs[id := jobs[id].(currentFileIndex := fileIndex, currentFilePercent := Round2(percent),
                                     currentFileEstSeconds := est, status := status)];
      }
    }

    method RecordFileSuccess(id: string, original: string, url: string) returns (last: bool)
      requires Valid()
      modifies this
      ensures Valid() && View() == SuccessRecorded(old(View()), id, original, url)
      ensures last == IsLast(View(), id)
    {
      if id !in jobs {
        return false;
      }
      var job := jobs[id];
      job := job.(processedFiles := job.processedFiles + 1, successfulFiles := job.successfulFiles + 1);
      job := job.(downloads := job.downloads + [Download(original, url)]);
      jobs := jobs[id := job];
      last := job.processedFiles == job.totalFiles;
    }

    method RecordFileError(id: string) returns (last: bool)
      requires Valid()
      modifies this
      ensures Valid() && View() == ErrorRecorded(old(View()), id)
      ensures last == IsLast(View(), id)
    {
      if id !in jobs {
        return false;
      }
      var job := jobs[id];
      job := job.(processedFiles := job.processedFiles + 1, errorFiles := job.errorFiles + 1);
      jobs := jobs[id := job];
      last := job.processedFiles == job.totalFiles;
    }

    method FinalizeJob(id: string, status: string)
      requires Valid()
      modifies this
      ensures Valid() && View() == Finalized(old(View()), id, status)
    {
      if id in jobs {
        var job := jobs[id];
        jobs := jobs[id := job.(status := status, currentFilePercent := 100.0,
                                currentFileEstSeconds := Some(0.0), currentFileIndex := job.totalFiles)];
      }
      locks := locks - {id};
    }

    method SetStatus(id: string, status: string)
      requires Valid()
      modifies this
      ensures Valid() && View() == StatusSet(old(View()), id, status)
    {
      if id in jobs {
        jobs := jobs[id := jobs[id].(status := status)];
      }
    }

    method RemoveJob(id: string)
      requires Valid()
      modifies this
      ensures Valid() && View() == Removed(old(View()), id)
    {
      jobs := jobs - {id};
      locks := locks - {id};
    }

    /** `list_expired_jobs`: each expired id once, and nothing else; the store is only read. */
    method ListExpiredJobs(now: real, ttl: real) returns (expired: seq<string>)
      ensures forall id :: id in expired <==> IsExpired(View(), id, now, ttl)
      ensures forall i, j | 0 <= i < j < |expired| :: expired[i] != expired[j]
    {
      expired := [];
      var pending := jobs.Keys;
      while pending != {}
        invariant pending <= jobs.Keys
        invariant forall id :: id in expired <==> id in jobs.Keys - pending && IsExpired(View(), id, now, ttl)
        invariant forall i, j | 0 <= i < j < |expired| :: expired[i] != expired[j]
        decreases |pending|
      {
        var id :| id in pending;
        var job := jobs[id];
        if job.createdAt.Some? && id !in locks && now - job.createdAt.value > ttl {
          expired := expired + [id];
        }
        pending := pending - {id};
      }
    }

    function ComputeFinalStatus(id: string): (r: string)
      reads this
      ensures r == "unknown" <==> id !in jobs
      ensures r == FinalStatusIn(View(), id)
    {
      if id !in jobs then "unknown" else FinalStatus(jobs[id].totalFiles, jobs[id].successfulFiles)
    }
  }
}
