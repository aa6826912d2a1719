/**
  The HTTP layer's own logic: the checks `/convert` makes before it creates
  a job, its loop over the uploaded files (a file whose trim window does not
  parse or is not a window is skipped with one recorded error, every other
  file gets a worker), the "processing" status after that loop, the progress
  lookup, and the name guard of `/download`.

  Request decoding and responses are left out: a rejection is a value, the
  job id (a fresh UUID in the original) and the clock reading are
  parameters, and the workers `/convert` starts on threads are returned as
  the list of their arguments.
 */
module App {
  import opened Wrappers
  import opened Text
  import opened Numbers
  import opened Jobs
  import Files
  import opened Conversion

  /** Why `/convert` answers with an error instead of a job id. */
  datatype Rejection = NoFiles | CountMismatch | InvalidScale | StorageFailed

  /** The request-level checks of `/convert`, in the order it makes them. */
  function RequestRejection(numFiles: nat, numStarts: nat, numEnds: nat, scale: string): (r: Option<Rejection>)
    ensures r == Some(NoFiles) <==> numFiles == 0
    ensures r == Some(CountMismatch) <==> numFiles > 0 && (numStarts != numFiles || numEnds != numFiles)
    ensures r == Some(InvalidScale) <==>
      numFiles > 0 && numStarts == numFiles && numEnds == numFiles && !IsScaleAllowed(scale)
    ensures r.None? <==> numFiles > 0 && numStarts == numFiles && numEnds == numFiles && IsScaleAllowed(scale)
  {
    if numFiles == 0 then Some(NoFiles)
    else if numStarts != numFiles || numEnds != numFiles then Some(CountMismatch)
    else if !IsScaleAllowed(scale) then Some(InvalidScale)
    else None
  }

  /** A trim window is usable when both ends are non-negative and the end lies after the start. */
  predicate ValidTrimWindow(start: real, end: real) {
    start >= 0.0 && end >= 0.0 && end > start
  }

  /** The trim window of one file, or `None` where the original raises `ValueError`. */
  function TrimWindow(startText: string, endText: string): (r: Option<(real, real)>)
    ensures r.Some? <==> ParseFloat(startText).Some? && ParseFloat(endText).Some?
                         && ValidTrimWindow(ParseFloat(startText).value, ParseFloat(endText).value)
    ensures r.Some? ==> r.value == (ParseFloat(startText).value, ParseFloat(endText).value)
  {
    match ParseFloat(startText)
    case None => None
    case Some(start) =>
      match ParseFloat(endText)
      case None => None
      case Some(end) => if ValidTrimWindow(start, end) then Some((start, end)) else None
  }

  /** An uploaded file: its name and its contents, `None` where reading it raises. */
  datatype Upload = Upload(filename: string, contents: Option<Files.Bytes>)

  /** The arguments `/convert` hands to the worker of one file. */
  datatype WorkerArgs = WorkerArgs(
    jobId: string,
    originalName: string,
    contents: Files.Bytes,
    scale: string,
    fps: int,
    startTimeSec: real,
    endTimeSec: real,
    fileIndex: int,
    totalFiles: int)

  /** The trim windows of all files, in order. */
  function Windows(starts: seq<string>, ends: seq<string>): (ws: seq<Option<(real, real)>>)
    requires |starts| == |ends|
    ensures |ws| == |starts|
    decreases |starts|
  {
    if starts == [] then []
    else Windows(starts[..|starts| - 1], ends[..|ends| - 1]) + [TrimWindow(starts[|starts| - 1], ends[|ends| - 1])]
  }

  /** The window of file `i` is the one its two texts give. */
  lemma {:induction false} WindowAt(starts: seq<string>, ends: seq<string>, i: nat)
    requires |starts| == |ends| && i < |starts|
    ensures Windows(starts, ends)[i] == TrimWindow(starts[i], ends[i])
    decreases |starts|
  {
    var n := |starts|;
    if i < n - 1 {
      WindowAt(starts[..n - 1], ends[..n - 1], i);
    }
  }

  /** Every window that parsed is a valid window. */
  predicate WindowsValid(windows: seq<Option<(real, real)>>) {
    forall i | 0 <= i < |windows| :: windows[i].Some? ==> ValidTrimWindow(windows[i].value.0, windows[i].value.1)
  }

  lemma WindowsAreValid(starts: seq<string>, ends: seq<string>)
    requires |starts| == |ends|
    ensures WindowsValid(Windows(starts, ends))
  {
    var ws := Windows(starts, ends);
    forall i | 0 <= i < |ws| && ws[i].Some? ensures ValidTrimWindow(ws[i].value.0, ws[i].value.1) {
      WindowAt(starts, ends, i);
    }
  }

  /** The worker of file `i` (0-based), or `None` when that file is skipped. */
  function WorkerFor(jobId: string, u: Upload, window: Option<(real, real)>, scale: string, fps: int,
                     i: nat, total: nat): (r: Option<WorkerArgs>)
    ensures r.Some? <==> window.Some? && u.contents.Some?
    ensures r.Some? ==> r.value == WorkerArgs(jobId, u.filename, u.contents.value, scale, fps,
                                              window.value.0, window.value.1, i + 1, total)
  {
    match window
    case None => None
    case Some(w) =>
      match u.contents
      case None => None
      case Some(data) => Some(WorkerArgs(jobId, u.filename, data, scale, fps, w.0, w.1, i + 1, total))
  }

  /** The workers started for the first `k` files, in order. */
  function WorkersOf(jobId: string, uploads: seq<Upload>, windows: seq<Option<(real, real)>>,
                     scale: string, fps: int, k: nat): (r: seq<WorkerArgs>)
    requires k <= |uploads| && |windows| == |uploads|
    ensures |r| <= k
    decreases k
  {
    if k == 0 then []
    else
      var rest := WorkersOf(jobId, uploads, windows, scale, fps, k - 1);
      match WorkerFor(jobId, uploads[k - 1], windows[k - 1], scale, fps, k - 1, |uploads|)
      case None => rest
      case Some(w) => rest + [w]
  }

  /**
    Of the first `k` files at most `k` get a worker; worker indices are
    1-based, strictly increasing and within the first `k`; every worker has
    the job's id and total, the trim window of its file and that file's
    contents.
   */
  lemma {:induction false} WorkersAreOrdered(jobId: string, uploads: seq<Upload>, windows: seq<Option<(real, real)>>,
                                             scale: string, fps: int, k: nat)
    requires k <= |uploads| && |windows| == |uploads|
    ensures var ws := WorkersOf(jobId, uploads, windows, scale, fps, k);
      |ws| <= k
      && (forall a | 0 <= a < |ws| ::
            1 <= ws[a].fileIndex <= k && ws[a].totalFiles == |uploads| && ws[a].jobId == jobId
            && windows[ws[a].fileIndex - 1] == Some((ws[a].startTimeSec, ws[a].endTimeSec))
            && uploads[ws[a].fileIndex - 1].contents == Some(ws[a].contents))
      && (forall a, b | 0 <= a < b < |ws| :: ws[a].fileIndex < ws[b].fileIndex)
    decreases k
  {
    if k > 0 {
      WorkersAreOrdered(jobId, uploads, windows, scale, fps, k - 1);
    }
  }

  /** The file with index `i + 1` has a worker exactly when its window parsed and its contents were read. */
  lemma {:induction false} WorkerForEachGoodFile(jobId: string, uploads: seq<Upload>, windows: seq<Option<(real, real)>>,
                                                 scale: string, fps: int, k: nat, i: nat)
    requires k <= |uploads| && |windows| == |uploads| && i < k
    ensures (exists a | 0 <= a < |WorkersOf(jobId, uploads, windows, scale, fps, k)| ::
               WorkersOf(jobId, uploads, windows, scale, fps, k)[a].fileIndex == i + 1)
        <==> windows[i].Some? && uploads[i].contents.Some?
    decreases k
  {
    var ws := WorkersOf(jobId, uploads, windows, scale, fps, k);
    var rest := WorkersOf(jobId, uploads, windows, scale, fps, k - 1);
    WorkersAreOrdered(jobId, uploads, windows, scale, fps, k - 1);
    assert forall a | 0 <= a < |rest| :: ws[a] == rest[a];
    if i < k - 1 {
      WorkerForEachGoodFile(jobId, uploads, windows, scale, fps, k - 1, i);
      assert forall a | |rest| <= a < |ws| :: ws[a].fileIndex == k;
      if windows[i].Some? && uploads[i].contents.Some? {
        var a :| 0 <= a < |rest| && rest[a].fileIndex == i + 1;
        assert ws[a].fileIndex == i + 1;
      } else {
        forall a | 0 <= a < |ws| ensures ws[a].fileIndex != i + 1 {
          if a < |rest| {
            assert ws[a] == rest[a];
          }
        }
      }
    } else {
      assert forall a | 0 <= a < |rest| :: rest[a].fileIndex != i + 1;
      match WorkerFor(jobId, uploads[k - 1], windows[k - 1], scale, fps, k - 1, |uploads|)
      case None =>
        assert ws == rest;
      case Some(w) =>
        assert ws == rest + [w] && ws[|rest|] == w;
    }
  }

  /** The store after `m` skipped files of job `id`. */
  function SkipsRecorded(v: StoreView, id: string, m: nat): StoreView
    decreases m
  {
    if m == 0 then v else SkipRecorded(SkipsRecorded(v, id, m - 1), id)
  }

  /** The status rule after the loop: "processing" exactly while not every file has been accounted for. */
  function ProcessingSet(v: StoreView, id: string, numFiles: int): StoreView {
    if id in v.jobs && v.jobs[id].processedFiles < numFiles then StatusSet(v, id, "processing") else v
  }

  /**
    Skipping `m` of a fresh job's `n` files records `m` errors and nothing
    else; the job keeps its lock until all `n` are skipped, and is then
    "failed".
   */
  lemma {:induction false} SkipsCount(v: StoreView, id: string, n: nat, now: real, m: nat)
    requires Invariant(v) && 1 <= n && m <= n
    ensures var w := SkipsRecorded(Created(v, id, n, now), id, m);
      Invariant(w) && id in w.jobs && w.jobs[id].totalFiles == n
      && w.jobs[id].processedFiles == m && w.jobs[id].errorFiles == m && w.jobs[id].successfulFiles == 0
      && (id in w.locks <==> m < n)
      && (m < n ==> w.jobs[id].status == "initializing")
      && (m == n ==> w.jobs[id].status == "failed")
    decreases m
  {
    if m > 0 {
      SkipsCount(v, id, n, now, m - 1);
    }
  }

  /**
    Where `/convert` leaves a fresh job of `n` files of which `m` were
    skipped: "processing" exactly when some file got a worker; with every
    file skipped it is "failed" and unlocked.
   */
  lemma AfterLaunch(v: StoreView, id: string, n: nat, now: real, m: nat)
    requires Invariant(v) && 1 <= n && m <= n
    ensures var w := ProcessingSet(SkipsRecorded(Created(v, id, n, now), id, m), id, n);
      id in w.jobs && (w.jobs[id].status == "processing" <==> m < n)
      && (m == n ==> w.jobs[id].status == "failed" && id !in w.locks)
      && (m < n ==> id in w.locks && w.jobs[id].processedFiles == m)
  {
    SkipsCount(v, id, n, now, m);
  }

  /** The answer of `/convert`: an error, or the job id and the workers it started. */
  datatype ConvertResult = Refused(reason: Rejection) | Started(jobId: string, workers: seq<WorkerArgs>)

  /** The store after the sweep of expired jobs. */
  ghost function Cleaned(v: StoreView, now: real, ttl: real): StoreView {
    StoreView(v.jobs - ExpiredIds(v, now, ttl), v.locks)
  }

  /**
    The store after `/convert` has swept the expired jobs, created job `id`
    of `n` files, started `workers` and booked every other file as failed,
    and applied the status rule.
   */
  ghost function Launched(v: StoreView, id: string, n: nat, now: real, ttl: real, workers: seq<WorkerArgs>): StoreView
    requires |workers| <= n
  {
    ProcessingSet(SkipsRecorded(Created(Cleaned(v, now, ttl), id, n, now), id, n - |workers|), id, n)
  }

  /**
    The disk after `/convert` has swept the expired jobs' directories and
    made the new job's one, and whether making it succeeded.
   */
  ghost function DiskPrepared(service: ConversionService, d: Files.Disk, v: StoreView, jobId: string, now: real)
    : (bool, Files.Disk)
  {
    Files.MadeDirs(Files.Swept(d, service.files.JobDirs(ExpiredIds(v, now, service.ttlSeconds))),
                   service.files.JobDir(jobId))
  }

  /**
    The loop of `/convert` over the files: a file whose window did not parse
    or whose contents were not read is booked as a failed file; every other
    file gets a worker, in order.
   */
  method Launch(service: ConversionService, jobId: string, uploads: seq<Upload>, windows: seq<Option<(real, real)>>,
                scale: string, fps: int) returns (workers: seq<WorkerArgs>)
    requires service.Valid() && |windows| == |uploads|
    modifies service.store
    ensures service.Valid()
    ensures workers == WorkersOf(jobId, uploads, windows, scale, fps, |uploads|)
    ensures |workers| <= |uploads|
    ensures service.store.View() == SkipsRecorded(old(service.store.View()), jobId, |uploads| - |workers|)
  {
    ghost var start := service.store.View();
    var n := |uploads|;
    workers := [];
    var i := 0;
    while i < n
      invariant 0 <= i <= n
      invariant service.Valid()
      invariant workers == WorkersOf(jobId, uploads, windows, scale, fps, i)
      invariant |workers| <= i
      invariant service.store.View() == SkipsRecorded(start, jobId, i - |workers|)
    {
      var worker := WorkerFor(jobId, uploads[i], windows[i], scale, fps, i, n);
      if worker.None? {
        service.RecordSkipError(jobId, n);
      } else {
        workers := workers + [worker.value];
      }
      i := i + 1;
    }
  }

  /**
    `/convert`. A request refused by the checks changes nothing; otherwise
    expired jobs are swept, the job is created (or the request fails with
    `StorageFailed`), each file is skipped or given a worker, and the status
    rule is applied.
   */
  method Convert(service: ConversionService, jobId: string, uploads: seq<Upload>, scale: string, fps: int,
                 starts: seq<string>, ends: seq<string>, now: real) returns (r: ConvertResult)
    requires service.Valid()
    modifies service.store, service.files.fs
    ensures service.Valid()
    ensures RequestRejection(|uploads|, |starts|, |ends|, scale).Some? ==>
      r == Refused(RequestRejection(|uploads|, |starts|, |ends|, scale).value)
      && service.store.View() == old(service.store.View()) && service.files.fs.View() == old(service.files.fs.View())
    ensures RequestRejection(|uploads|, |starts|, |ends|, scale).None? ==>
      service.files.fs.View() == DiskPrepared(service, old(service.files.fs.View()), old(service.store.View()), jobId, now).1
    ensures RequestRejection(|uploads|, |starts|, |ends|, scale).None? ==>
      r == if DiskPrepared(service, old(service.files.fs.View()), old(service.store.View()), jobId, now).0
           then Started(jobId, WorkersOf(jobId, uploads, Windows(starts, ends), scale, fps, |uploads|))
           else Refused(StorageFailed)
    ensures RequestRejection(|uploads|, |starts|, |ends|, scale).None? ==>
      if DiskPrepared(service, old(service.files.fs.View()), old(service.store.View()), jobId, now).0
         then r.Started? && |r.workers| <= |uploads|
              && service.store.View() == Launched(old(service.store.View()), jobId, |uploads|, now, service.ttlSeconds, r.workers)
         else service.store.View() == Cleaned(old(service.store.View()), now, service.ttlSeconds)
  {
    var rejection := RequestRejection(|uploads|, |starts|, |ends|, scale);
    if rejection.Some? {
      return Refused(rejection.value);
    }
    ghost var v0 := service.store.View();
    var made := Prepare(service, jobId, |uploads|, now);
    if !made {
      return Refused(StorageFailed);
    }
    var workers := LaunchAll(service, jobId, uploads, Windows(starts, ends), scale, fps, v0, now);
    r := Started(jobId, workers);
  }

  /**
    The loop over the files, then the status rule, on the job `Prepare`
    created from the store `v0`.
   */
  method LaunchAll(service: ConversionService, jobId: string, uploads: seq<Upload>, windows: seq<Option<(real, real)>>,
                   scale: string, fps: int, ghost v0: StoreView, now: real) returns (workers: seq<WorkerArgs>)
    requires service.Valid() && |windows| == |uploads|
    requires service.store.View() == Created(Cleaned(v0, now, service.ttlSeconds), jobId, |uploads|, now)
    modifies service.store
    ensures service.Valid()
    ensures workers == WorkersOf(jobId, uploads, windows, scale, fps, |uploads|)
    ensures service.store.View() == Launched(v0, jobId, |uploads|, now, service.ttlSeconds, workers)
  {
    workers := Launch(service, jobId, uploads, windows, scale, fps);
    ghost var skipped := service.store.View();
    assert skipped == SkipsRecorded(Created(Cleaned(v0, now, service.ttlSeconds), jobId, |uploads|, now),
                                    jobId, |uploads| - |workers|);
    var job := service.GetJob(jobId);
    if job.Some? && job.value.processedFiles < |uploads| {
      service.SetJobStatus(jobId, "processing");
    }
    assert service.store.View() == ProcessingSet(skipped, jobId, |uploads|);
  }

  /** The sweep of expired jobs and the creation of the new one. */
  method Prepare(service: ConversionService, jobId: string, n: nat, now: real) returns (made: bool)
    requires service.Valid()
    modifies service.store, service.files.fs
    ensures service.Valid()
    ensures (made, service.files.fs.View())
         == DiskPrepared(service, old(service.files.fs.View()), old(service.store.View()), jobId, now)
    ensures service.store.View()
         == if made then Created(Cleaned(old(service.store.View()), now, service.ttlSeconds), jobId, n, now)
            else Cleaned(old(service.store.View()), now, service.ttlSeconds)
  {
    ghost var before := service.store.View();
    service.CleanupExpiredJobs(now);
    assert service.store.View() == Cleaned(before, now, service.ttlSeconds);
    made := service.CreateJob(jobId, n, now);
  }

  /** `/progress`: the job's record as it is, or not found. */
  function Progress(service: ConversionService, jobId: string): (r: Option<Job>)
    reads service.store
    ensures r.Some? <==> jobId in service.store.jobs
    ensures r.Some? ==> r.value == service.store.jobs[jobId]
  {
    service.GetJob(jobId)
  }

  /** A path segment `/download` accepts: non-empty, without "..", "/" or "\". */
  predicate SafeSegment(s: string) {
    s != [] && !Contains(s, "..") && '/' !in s && '\\' !in s
  }

  /** The names the tests use: a plain id and GIF name pass; an empty name or one that climbs out does not. */
  lemma SafeSegmentExamples()
    ensures SafeSegment("job1") && SafeSegment("file.gif")
    ensures !SafeSegment("") && !SafeSegment("../escape") && !SafeSegment("../file.gif")
    ensures !SafeSegment("a/b") && !SafeSegment("a\\b")
  {
    assert OccursAt("../escape", "..", 0);
    assert OccursAt("../file.gif", "..", 0);
    assert "a/b"[1] == '/';
    assert "a\\b"[1] == '\\';
    assert !Contains("job1", "..") by {
      assert '.' in ".." && '.' !in "job1";
      AbsentCharNotContained("job1", "..", '.');
    }
    assert !Contains("file.gif", "..") by {
      var t := "file.gif";
      forall i: nat | i <= |t| ensures !OccursAt(t, "..", i) {
        if i + 2 <= |t| {
          assert t[i] != '.' || t[i + 1] != '.';
          assert t[i..i + 2][0] == t[i] && t[i..i + 2][1] == t[i + 1];
        }
      }
    }
  }

  /** The answers of `/download`. */
  datatype DownloadResult = InvalidJobId | InvalidFilename | FileNotFound | Serve(path: Files.Path)

  /** `/download`: the job id is checked first, then the file name, then that the file exists. */
  function Download(service: ConversionService, jobId: string, filename: string): (r: DownloadResult)
    reads service.files.fs
    ensures r == InvalidJobId <==> !SafeSegment(jobId)
    ensures r == InvalidFilename <==> SafeSegment(jobId) && !SafeSegment(filename)
    ensures r == FileNotFound <==>
      SafeSegment(jobId) && SafeSegment(filename) && service.files.GetFilePath(jobId, filename) !in service.files.fs.files
    ensures r.Serve? ==> r.path == service.files.GetFilePath(jobId, filename) && r.path in service.files.fs.files
  {
    if !SafeSegment(jobId) then InvalidJobId
    else if !SafeSegment(filename) then InvalidFilename
    else if !service.FileExists(jobId, filename) then FileNotFound
    else Serve(service.GetFilePath(jobId, filename))
  }

  /**
    A file `/download` serves lies two levels below the base directory, and
    the two components it adds are real names: none is empty, none is "..",
    and none holds a separator.
   */
  lemma ServedPathStaysInBase(service: ConversionService, jobId: string, filename: string)
    requires Download(service, jobId, filename).Serve?
    ensures var p := Download(service, jobId, filename).path;
      |p| == |service.files.baseDir| + 2 && p[..|service.files.baseDir|] == service.files.baseDir
      && forall k | |service.files.baseDir| <= k < |p| ::
           p[k] != [] && p[k] != ".." && '/' !in p[k] && '\\' !in p[k]
  {
    var p := Download(service, jobId, filename).path;
    var base := service.files.baseDir;
    assert p == base + [jobId] + [filename];
    assert p[|base|] == jobId && p[|base| + 1] == filename;
    ContainsSelf("..");
  }

  lemma ContainsSelf(w: string)
    ensures Contains(w, w)
  {
    assert w[0..|w|] == w;
    assert OccursAt(w, w, 0);
  }

  /** Two strings without "..", glued where not both sides are dots, have no "..". */
  lemma NoDoubleDotConcat(a: string, b: string)
    requires !Contains(a, "..") && !Contains(b, "..")
    requires a == [] || b == [] || a[|a| - 1] != '.' || b[0] != '.'
    ensures !Contains(a + b, "..")
  {
    var s := a + b;
    forall i: nat | i <= |s| ensures !OccursAt(s, "..", i) {
      if i + 2 <= |s| {
        if i + 2 <= |a| {
          assert s[i..i + 2] == a[i..i + 2];
          assert !OccursAt(a, "..", i);
        } else if i >= |a| {
          assert s[i..i + 2] == b[i - |a|..i - |a| + 2];
          assert !OccursAt(b, "..", i - |a|);
        } else {
          assert s[i..i + 2] == [a[|a| - 1], b[0]];
        }
      }
    }
  }

  /** A prefix of a string without ".." has none either. */
  lemma PrefixNoDoubleDot(s: string, k: nat)
    requires !Contains(s, "..") && k <= |s|
    ensures !Contains(s[..k], "..")
  {
    forall i: nat | i <= k ensures !OccursAt(s[..k], "..", i) {
      if i + 2 <= k {
        assert s[..k][i..i + 2] == s[i..i + 2];
        assert !OccursAt(s, "..", i);
      }
    }
  }

  /** ".gif" has no "..", no "/" and no "\". */
  lemma GifIsSafe()
    ensures !Contains(".gif", "..") && '/' !in ".gif" && '\\' !in ".gif"
  {
    var e := ".gif";
    assert e[1] == 'g' && e[2] == 'i' && e[3] == 'f';
    forall i: nat | i <= |e| ensures !OccursAt(e, "..", i) {
      if i + 2 <= |e| {
        assert e[i..i + 2][1] == e[i + 1];
      }
    }
  }

  /** The stem of a name without ".." that does not end in a dot is a prefix of it that does not end in a dot either. */
  lemma StemOfSafeName(name: string)
    requires name != [] && !Contains(name, "..") && name[|name| - 1] != '.'
    ensures var stem := Files.Stem(name);
      stem != [] && stem == name[..|stem|] && stem[|stem| - 1] != '.'
  {
    var stem := Files.Stem(name);
    assert stem + Files.Suffix(name) == name;
    assert stem == name[..|stem|];
    if |stem| < |name| {
      assert name[|stem|] == '.';
      assert name[|stem| - 1..|stem| + 1] == [stem[|stem| - 1], '.'];
      assert !OccursAt(name, "..", |stem| - 1);
    }
  }

  /**
    The link `process_file` stores for a converted file is accepted by
    `/download` whenever the job id and the original name are, and the name
    does not end in a dot.
   */
  lemma LinkPassesGuard(jobId: string, originalName: string)
    requires SafeSegment(jobId) && SafeSegment(originalName) && originalName[|originalName| - 1] != '.'
    ensures SafeSegment(Files.Stem(originalName) + ".gif")
  {
    var stem := Files.Stem(originalName);
    StemOfSafeName(originalName);
    PrefixNoDoubleDot(originalName, |stem|);
    GifIsSafe();
    NoDoubleDotConcat(stem, ".gif");
    assert '/' !in stem && '\\' !in stem by {
      assert forall k | 0 <= k < |stem| :: stem[k] == originalName[k];
    }
  }

  /**
    A name ending in a dot keeps the dot in its stem, so the GIF of
    "clip." is "clip..gif", and `/download` refuses that name.
   */
  lemma TrailingDotLinkRefused(originalName: string)
    requires originalName != [] && originalName != "." && originalName[|originalName| - 1] == '.'
    ensures !SafeSegment(Files.Stem(originalName) + ".gif")
  {
    var n := |originalName|;
    LastIndexOfCharIs(originalName, '.', n - 1);
    var name := originalName + ".gif";
    assert name[n - 1..n + 1] == "..";
    assert OccursAt(name, "..", n - 1);
  }

  /** The name "." alone has the empty stem, so its GIF is ".gif", which `/download` serves. */
  lemma DotNameLinkPasses()
    ensures Files.Stem(".") + ".gif" == ".gif" && SafeSegment(".gif")
  {
    GifIsSafe();
  }
}
