/**
  The conversion service: the set of accepted scale values, and the
  orchestration of one file of a job — store its upload, convert it, report
  progress, record the outcome in the store, finish the job after its last
  file, and delete the upload again.

  The per-job lock of the original only serialises the workers of one job;
  the model runs one worker at a time, so the lock is not represented.
 */
module Conversion {
  import opened Wrappers
  import opened Text
  import opened Numbers
  import opened Jobs
  import Files
  import opened Strategy
  import opened Commands
  import opened Runner

  /** `ALLOWED_SCALES`. */
  const AllowedScales: set<string> :=
    {"original", "320:-1", "360:-1", "480:-1", "720:-1", "1080:-1", "1920:-1", "2560:-1", "3840:-1"}

  /**
    `is_scale_allowed`: membership in the allow-list, which holds "original"
    and eight widths with the height left to ffmpeg, none of which has a
    comma, a semicolon or a space that could reach the filter graph.
   */
  function IsScaleAllowed(scale: string): (allowed: bool)
    ensures allowed ==> scale == Original || EndsWith(scale, ":-1")
    ensures allowed ==> ',' !in scale && ';' !in scale && ' ' !in scale
  {
    scale in AllowedScales
  }

  /** All nine presets are accepted; the empty string, other words and near misses are not. */
  lemma ScaleExamples()
    ensures IsScaleAllowed("original") && IsScaleAllowed("320:-1") && IsScaleAllowed("360:-1")
    ensures IsScaleAllowed("480:-1") && IsScaleAllowed("720:-1") && IsScaleAllowed("1080:-1")
    ensures IsScaleAllowed("1920:-1") && IsScaleAllowed("2560:-1") && IsScaleAllowed("3840:-1")
    ensures !IsScaleAllowed("") && !IsScaleAllowed("auto") && !IsScaleAllowed("320x240")
    ensures !IsScaleAllowed("320:-2") && !IsScaleAllowed("320;-1") && !IsScaleAllowed("320:-1;rm -rf /")
  {
    assert "auto"[0] == 'a';
    assert "320x240"[3] == 'x';
    assert "320:-2"[5] == '2';
    assert "320;-1"[3] == ';';
    assert |"320:-1;rm -rf /"| == 15;
  }

  /** No accepted scale has a comma, so none can smuggle an extra filter into `-vf`. */
  lemma AllowedScaleKeepsFilters(s: GifConversionStrategy, p: ConversionParams)
    requires IsScaleAllowed(p.scale)
    ensures SplitOn(s.VideoFilter(p), ',') == s.Filters(p)
  {
    assert ',' !in p.scale;
    FilterSplitsIntoFilters(s, p);
  }

  /** How one file ended: converted, ffmpeg failed, or an exception was raised on the way. */
  datatype FileOutcome = Success | Failure | Crashed

  /** `run_conversion`'s answer, with a raised exception as `Crashed`. */
  function OutcomeOf(run: RunOutcome): (o: FileOutcome)
    ensures o == Crashed <==> run.Raised?
    ensures o == Success <==> run == Finished(true)
  {
    match run
    case Raised => Crashed
    case Finished(success) => if success then Success else Failure
  }

  /** The name an upload is stored under: its 1-based index, an underscore, and the original name. */
  function InputFilename(fileIndex: int, originalName: string): string {
    IntToString(fileIndex) + "_" + originalName
  }

  /** Two uploads share an input file name only if they have the same index and the same name. */
  lemma InputFilenameInjective(i: int, a: string, j: int, b: string)
    requires InputFilename(i, a) == InputFilename(j, b)
    ensures i == j && a == b
  {
    var si, sj := IntToString(i), IntToString(j);
    assert '_' !in si;
    assert '_' !in sj;
    var s := InputFilename(i, a);
    assert s[..|si|] == si && s[|si|] == '_';
    IndexOfCharIs(s, '_', |si|);
    assert s[..|sj|] == sj && s[|sj|] == '_';
    IndexOfCharIs(s, '_', |sj|);
    assert si == sj;
    IntRoundTrip(i);
    IntRoundTrip(j);
    assert s[|si| + 1..] == a;
  }

  /** The link under which a converted file is offered. */
  function DownloadUrl(jobId: string, originalName: string, ext: string): string {
    "/download/" + jobId + "/" + Files.Stem(originalName) + ext
  }

  /**
    For a job id and a name without a slash, the link has exactly the four
    slash-separated fields "", "download", the job id and the name of the
    output file `get_output_path` gives.
   */
  lemma DownloadUrlNamesOutput(fm: Files.FileManager, jobId: string, originalName: string, ext: string)
    requires '/' !in jobId && '/' !in originalName && '/' !in ext
    ensures var out := fm.GetOutputPath(jobId, originalName, ext);
      SplitOn(DownloadUrl(jobId, originalName, ext), '/') == ["", "download", jobId, out[|out| - 1]]
  {
    var stem := Files.Stem(originalName);
    var name := stem + ext;
    assert '/' !in stem by {
      assert stem == originalName[..|stem|];
    }
    var url := DownloadUrl(jobId, originalName, ext);
    assert url == "/download/" + jobId + "/" + name;
    DownloadFields(jobId, name);
    SlashFreeWord();
    var parts := ["", "download", jobId, name];
    SplitJoin(parts, '/');
    assert SplitOn(url, '/') == parts;
    var out := fm.GetOutputPath(jobId, originalName, ext);
    assert out[|out| - 1] == name;
  }

  lemma DownloadFields(jobId: string, name: string)
    ensures Join(["", "download", jobId, name], "/") == "/download/" + jobId + "/" + name
  {
    var parts := ["", "download", jobId, name];
    assert parts[1..] == ["download", jobId, name];
    JoinThree("download", jobId, name, "/");
    var w, sl := "download", "/";
    assert Join(parts, sl) == [] + sl + (w + sl + jobId + sl + name);
    assert sl + w + sl == "/download/";
  }

  lemma SlashFreeWord()
    ensures '/' !in "download"
  {
    var w := "download";
    forall k | 0 <= k < |w| ensures w[k] != '/' {
    }
  }

  /** The status while file `fileIndex` of `total` converts. */
  function ConvertingStatus(fileIndex: int, total: int, originalName: string): string {
    "Converting file " + IntToString(fileIndex) + "/" + IntToString(total) + " (" + originalName + ")..."
  }

  /** The status after a file that is not the last one. */
  function ProcessedStatus(processed: int, total: int): string {
    "Processed " + IntToString(processed) + "/" + IntToString(total) + " files..."
  }

  /** The status after an exception on a file that is not the last one. */
  function ErrorStatus(fileIndex: int, processed: int, total: int): string {
    "Error on file " + IntToString(fileIndex) + ". Processed " + IntToString(processed) + "/" + IntToString(total) + "..."
  }

  /** The store after the progress callback has seen `reports`, in order; a job that is gone is left alone. */
  function ProgressApplied(v: StoreView, id: string, fileIndex: int, total: int, originalName: string,
                           reports: seq<ProgressInfo>): StoreView
    decreases |reports|
  {
    if reports == [] then v
    else
      var w := ProgressApplied(v, id, fileIndex, total, originalName, reports[..|reports| - 1]);
      var r := reports[|reports| - 1];
      if id in w.jobs then
        ProgressUpdated(w, id, fileIndex, r.percent, r.estSecondsRemaining, ConvertingStatus(fileIndex, total, originalName))
      else w
  }

  /**
    Progress reports change neither the keys, the locks, other jobs, nor the
    counts and downloads of the job; after at least one report the job shows
    the file being converted and the last report's percentage.
   */
  lemma {:induction false} ProgressKeepsCounts(v: StoreView, id: string, fileIndex: int, total: int,
                                               originalName: string, reports: seq<ProgressInfo>)
    ensures var w := ProgressApplied(v, id, fileIndex, total, originalName, reports);
      w.jobs.Keys == v.jobs.Keys && w.locks == v.locks && OthersUnchanged(v, w, id)
      && (Invariant(v) ==> Invariant(w))
      && (id in v.jobs ==>
            var (j, k) := (v.jobs[id], w.jobs[id]);
            k.totalFiles == j.totalFiles && k.processedFiles == j.processedFiles
            && k.successfulFiles == j.successfulFiles && k.errorFiles == j.errorFiles
            && k.downloads == j.downloads && k.createdAt == j.createdAt
            && (reports != [] ==>
                  k.status == ConvertingStatus(fileIndex, total, originalName)
                  && k.currentFileIndex == fileIndex
                  && k.currentFilePercent == Round2(reports[|reports| - 1].percent)))
    decreases |reports|
  {
    if reports != [] {
      ProgressKeepsCounts(v, id, fileIndex, total, originalName, reports[..|reports| - 1]);
    }
  }

  /**
    The locked block after the conversion: nothing for a job that is gone;
    otherwise one success (with its link) or one error is recorded, and then
    either the job is finalized with its final status, or its status says how
    far it has got.
   */
  function Booked(v: StoreView, id: string, fileIndex: int, total: int, originalName: string, ext: string,
                  outcome: FileOutcome): StoreView
  {
    if id !in v.jobs then v
    else
      var w := if outcome == Success then SuccessRecorded(v, id, originalName, DownloadUrl(id, originalName, ext))
               else ErrorRecorded(v, id);
      if IsLast(w, id) then Finalized(w, id, FinalStatusIn(w, id))
      else
        var processed := w.jobs[id].processedFiles;
        StatusSet(w, id, if outcome == Crashed then ErrorStatus(fileIndex, processed, total)
                         else ProcessedStatus(processed, total))
  }

  /**
    Booking a file records it exactly once: one more processed file, counted
    as a success exactly when it converted, with its link appended to the
    downloads; the job is finalized, releasing its lock, exactly when this
    was its last file. A missing job is left alone.
   */
  lemma BookedRecordsOnce(v: StoreView, id: string, fileIndex: int, total: int, originalName: string,
                          ext: string, outcome: FileOutcome)
    requires Invariant(v)
    ensures var w := Booked(v, id, fileIndex, total, originalName, ext, outcome);
      Invariant(w) && w.jobs.Keys == v.jobs.Keys && OthersUnchanged(v, w, id)
      && (id !in v.jobs ==> w == v)
      && (id in v.jobs ==>
            var (j, k) := (v.jobs[id], w.jobs[id]);
            var last := j.processedFiles + 1 == j.totalFiles;
            k.totalFiles == j.totalFiles && k.processedFiles == j.processedFiles + 1
            && k.successfulFiles == j.successfulFiles + (if outcome == Success then 1 else 0)
            && k.errorFiles == j.errorFiles + (if outcome == Success then 0 else 1)
            && k.downloads == j.downloads
                 + (if outcome == Success then [Download(originalName, DownloadUrl(id, originalName, ext))] else [])
            && w.locks == (if last then v.locks - {id} else v.locks)
            && (last ==> k.status == FinalStatus(k.totalFiles, k.successfulFiles) && k.currentFilePercent == 100.0)
            && (!last ==> k.status == (if outcome == Crashed then ErrorStatus(fileIndex, k.processedFiles, total)
                                       else ProcessedStatus(k.processedFiles, total))))
  {
  }

  /** `record_skip_error`: one error recorded, and the job finalized if that was its last file. */
  function SkipRecorded(v: StoreView, id: string): StoreView {
    var w := ErrorRecorded(v, id);
    if IsLast(w, id) then Finalized(w, id, FinalStatusIn(w, id)) else w
  }

  /**
    A skip records exactly one error and no download; the job is finalized,
    releasing its lock, exactly when that was its last file, and otherwise
    keeps its status. A missing job is left alone.
   */
  lemma SkipRecordsOneError(v: StoreView, id: string)
    requires Invariant(v)
    ensures var w := SkipRecorded(v, id);
      Invariant(w) && w.jobs.Keys == v.jobs.Keys && OthersUnchanged(v, w, id)
      && (id !in v.jobs ==> w == v)
      && (id in v.jobs ==>
            var (j, k) := (v.jobs[id], w.jobs[id]);
            var last := j.processedFiles + 1 == j.totalFiles;
            k.processedFiles == j.processedFiles + 1 && k.errorFiles == j.errorFiles + 1
            && k.successfulFiles == j.successfulFiles && k.downloads == j.downloads
            && w.locks == (if last then v.locks - {id} else v.locks)
            && (last ==> k.status == FinalStatus(k.totalFiles, k.successfulFiles))
            && (!last ==> k.status == j.status))
  {
  }

  /** A job of one file whose only file is skipped ends "failed", with one error and its lock released. */
  lemma SkippedOnlyFileFails(v: StoreView, id: string, now: real)
    ensures var w := SkipRecorded(Created(v, id, 1, now), id);
      id in w.jobs && w.jobs[id].errorFiles == 1 && w.jobs[id].status == "failed" && id !in w.locks
  {
  }

  /** One file of a job: its index, original name, the reports its conversion sent, and how it ended. */
  datatype FileRun = FileRun(fileIndex: int, originalName: string, reports: seq<ProgressInfo>, outcome: FileOutcome)

  /** The store effect of `process_file` for one run: its progress, then its booking. */
  function FileProcessed(v: StoreView, id: string, total: int, ext: string, f: FileRun): StoreView {
    Booked(ProgressApplied(v, id, f.fileIndex, total, f.originalName, f.reports),
           id, f.fileIndex, total, f.originalName, ext, f.outcome)
  }

  /** The store after the runs of `runs`, one after another. */
  function AllProcessed(v: StoreView, id: string, total: int, ext: string, runs: seq<FileRun>): StoreView
    decreases |runs|
  {
    if runs == [] then v
    else FileProcessed(AllProcessed(v, id, total, ext, runs[..|runs| - 1]), id, total, ext, runs[|runs| - 1])
  }

  /** The number of runs that converted. */
  function Conversions(runs: seq<FileRun>): (n: nat)
    ensures n <= |runs|
  {
    if runs == [] then 0
    else Conversions(runs[..|runs| - 1]) + (if runs[|runs| - 1].outcome == Success then 1 else 0)
  }

  /**
    The life of a job of `total` files: after `k` of its files have been
    processed it has `k` processed files, as many successes as conversions,
    and it keeps its lock exactly while `k < total`; after the last one its
    status is the final status.
   */
  lemma {:induction false} JobLifecycle(v: StoreView, id: string, total: int, now: real, ext: string,
                                        runs: seq<FileRun>)
    requires Invariant(v) && 1 <= total && |runs| <= total
    ensures var w := AllProcessed(Created(v, id, total, now), id, total, ext, runs);
      Invariant(w) && id in w.jobs && w.jobs[id].totalFiles == total
      && w.jobs[id].processedFiles == |runs| && w.jobs[id].successfulFiles == Conversions(runs)
      && (id in w.locks <==> |runs| < total)
      && (|runs| == total ==> w.jobs[id].status == FinalStatus(total, Conversions(runs)))
    decreases |runs|
  {
    var c := Created(v, id, total, now);
    if runs != [] {
      var init, f := runs[..|runs| - 1], runs[|runs| - 1];
      JobLifecycle(v, id, total, now, ext, init);
      var u := AllProcessed(c, id, total, ext, init);
      ProgressKeepsCounts(u, id, f.fileIndex, total, f.originalName, f.reports);
      var p := ProgressApplied(u, id, f.fileIndex, total, f.originalName, f.reports);
      BookedRecordsOnce(p, id, f.fileIndex, total, f.originalName, ext, f.outcome);
    }
  }

  /** The result of one attempt at a file: how it ended, its progress reports, and the disk afterwards. */
  datatype Attempt = Attempt(outcome: FileOutcome, reports: seq<ProgressInfo>, disk: Files.Disk)

  /** The default lifetime of a job, in seconds. */
  const DefaultTtlSeconds: real := 3600.0

  /**
    Writing `upload` (or not), deleting at most the palette, and then
    deleting `upload` leaves only files that were there before, with their
    bytes, and takes away at most `upload` and the palette.
   */
  lemma InputLeavesOthers(d: Files.Disk, d1: Files.Disk, d2: Files.Disk, d3: Files.Disk, upload: Files.Path,
                          data: Files.Bytes, palette: Option<Files.Path>)
    requires d1.files == d.files || d1.files == d.files[upload := data]
    requires d2 == d1 || (palette.Some? && d2 == Files.Unlinked(d1, palette.value).1)
    requires d3 == Files.Unlinked(d2, upload).1
    ensures forall q | q in d3.files :: q in d.files && d3.files[q] == d.files[q]
    ensures forall q | q in d.files && q !in d3.files :: q == upload || (palette.Some? && q == palette.value)
  {
    assert forall q | q in d1.files && q != upload :: q in d.files && d1.files[q] == d.files[q];
  }

  /** `ConversionService`: the store, the file manager and the runner it coordinates. */
  class ConversionService {
    const store: InMemoryJobStore
    const files: Files.FileManager
    const runner: FFmpegRunner
    const ttlSeconds: real

    /** The file manager and the runner work on the same disk. */
    constructor (store: InMemoryJobStore, files: Files.FileManager, runner: FFmpegRunner, ttlSeconds: real)
      requires runner.fs == files.fs
      ensures this.store == store && this.files == files && this.runner == runner && this.ttlSeconds == ttlSeconds
      ensures this.runner.fs == this.files.fs
    {
      this.store := store;
      this.files := files;
      this.runner := runner;
      this.ttlSeconds := ttlSeconds;
    }

    ghost predicate Valid()
      reads store
    {
      store.Valid() && runner.fs == files.fs
    }

    /** Where the upload lives for the attempt (`None` where the original raises before converting), and the disk after it is written. */
    function InputResolved(d: Files.Disk, jobId: string, originalName: string, fileIndex: int,
                           fileBytes: Option<Files.Bytes>, inputPath: Option<Files.Path>): (r: (Option<Files.Path>, Files.Disk))
      ensures inputPath.Some? ==> r == (inputPath, d)
      ensures r.1.dirs == d.dirs
      ensures inputPath.None? ==>
        var path := files.GetFilePath(jobId, InputFilename(fileIndex, originalName));
        (r.0.Some? <==> fileBytes.Some? && Files.IsDir(d, files.JobDir(jobId)) && path !in d.dirs)
        && (r.0.Some? ==> r.0.value == path && r.1.files == d.files[path := fileBytes.value])
        && (r.0.None? ==> r.1 == d)
    {
      if inputPath.Some? then (inputPath, d)
      else if fileBytes.None? then (None, d)
      else
        var path := files.GetFilePath(jobId, InputFilename(fileIndex, originalName));
        var (ok, e) := Files.Written(d, path, fileBytes.value);
        (if ok then Some(path) else None, e)
    }

    /** The output file of an attempt. */
    function OutputPath(jobId: string, originalName: string): Files.Path {
      files.GetOutputPath(jobId, originalName, runner.strategy.OutputExtension())
    }

    /**
      Everything `process_file` does apart from the store: resolve the input,
      run the conversion with a progress callback, delete the palette the
      runner made, and delete the input in the end.
     */
    function Tried(d: Files.Disk, jobId: string, originalName: string, fileBytes: Option<Files.Bytes>,
                   inputPath: Option<Files.Path>, scale: string, fps: int, startTimeSec: real,
                   endTimeSec: real, fileIndex: int, tool: Tool): (r: (Attempt, Option<Files.Path>))
      ensures r.1 == InputResolved(d, jobId, originalName, fileIndex, fileBytes, inputPath).0
      ensures r.1.None? ==> r.0 == Attempt(Crashed, [], InputResolved(d, jobId, originalName, fileIndex, fileBytes, inputPath).1)
      ensures var d1 := InputResolved(d, jobId, originalName, fileIndex, fileBytes, inputPath).1;
        var palette := PalettePath(OutputPath(jobId, originalName));
        r.0.disk == d1 || (palette.Some? && r.0.disk == Files.Unlinked(d1, palette.value).1)
    {
      var (resolved, d1) := InputResolved(d, jobId, originalName, fileIndex, fileBytes, inputPath);
      match resolved
      case None => (Attempt(Crashed, [], d1), None)
      case Some(input) =>
        var p := ConversionParams(input, OutputPath(jobId, originalName), scale, fps, startTimeSec, endTimeSec);
        var r := Converted(runner.strategy, p, runner.segmentMaxDuration, runner.formatFloat, true, tool);
        (Attempt(OutcomeOf(r.0), r.1, if r.2.Some? then Files.Unlinked(d1, r.2.value).1 else d1), resolved)
    }

    /** The attempt, with the input deleted in the end. */
    function Attempted(d: Files.Disk, jobId: string, originalName: string, fileBytes: Option<Files.Bytes>,
                       inputPath: Option<Files.Path>, scale: string, fps: int, startTimeSec: real,
                       endTimeSec: real, fileIndex: int, tool: Tool): Attempt
    {
      var (a, input) := Tried(d, jobId, originalName, fileBytes, inputPath, scale, fps, startTimeSec, endTimeSec, fileIndex, tool);
      if input.Some? then a.(disk := Files.Unlinked(a.disk, input.value).1) else a
    }

    /**
      `process_file` leaves no file of its own behind: the input it was given
      or wrote is gone and no directory changes. Without an input at all the
      attempt is an exception and nothing is converted.
     */
    lemma AttemptLeavesNoInput(d: Files.Disk, jobId: string, originalName: string, fileBytes: Option<Files.Bytes>,
                               inputPath: Option<Files.Path>, scale: string, fps: int, startTimeSec: real,
                               endTimeSec: real, fileIndex: int, tool: Tool)
      ensures var a := Attempted(d, jobId, originalName, fileBytes, inputPath, scale, fps, startTimeSec, endTimeSec, fileIndex, tool);
        a.disk.dirs == d.dirs
        && (InputResolved(d, jobId, originalName, fileIndex, fileBytes, inputPath).0.Some? ==>
              InputResolved(d, jobId, originalName, fileIndex, fileBytes, inputPath).0.value !in a.disk.files)
      ensures inputPath.None? && fileBytes.None? ==>
        Attempted(d, jobId, originalName, fileBytes, inputPath, scale, fps, startTimeSec, endTimeSec, fileIndex, tool)
          == Attempt(Crashed, [], d)
    {
      var (resolved, d1) := InputResolved(d, jobId, originalName, fileIndex, fileBytes, inputPath);
      var (t, input) := Tried(d, jobId, originalName, fileBytes, inputPath, scale, fps, startTimeSec, endTimeSec, fileIndex, tool);
      assert t.disk.dirs == d1.dirs == d.dirs;
    }

    /**
      Every file left after `process_file` was there before with the same
      bytes, and a file that went missing is the input or the palette.
     */
    lemma AttemptKeepsOtherFiles(d: Files.Disk, jobId: string, originalName: string, fileBytes: Option<Files.Bytes>,
                                 inputPath: Option<Files.Path>, scale: string, fps: int, startTimeSec: real,
                                 endTimeSec: real, fileIndex: int, tool: Tool)
      ensures var a := Attempted(d, jobId, originalName, fileBytes, inputPath, scale, fps, startTimeSec, endTimeSec, fileIndex, tool);
        var upload := if inputPath.Some? then inputPath.value else files.GetFilePath(jobId, InputFilename(fileIndex, originalName));
        var palette := PalettePath(OutputPath(jobId, originalName));
        (forall q | q in a.disk.files :: q in d.files && a.disk.files[q] == d.files[q])
        && (forall q | q in d.files && q !in a.disk.files :: q == upload || (palette.Some? && q == palette.value))
    {
      var (resolved, d1) := InputResolved(d, jobId, originalName, fileIndex, fileBytes, inputPath);
      var (t, input) := Tried(d, jobId, originalName, fileBytes, inputPath, scale, fps, startTimeSec, endTimeSec, fileIndex, tool);
      var upload := if inputPath.Some? then inputPath.value else files.GetFilePath(jobId, InputFilename(fileIndex, originalName));
      var palette := PalettePath(OutputPath(jobId, originalName));
      var a := Attempted(d, jobId, originalName, fileBytes, inputPath, scale, fps, startTimeSec, endTimeSec, fileIndex, tool);
      assert input == resolved;
      if resolved.None? {
        assert a.disk == t.disk == d1 == d;
      } else {
        assert resolved.value == upload;
        assert a.disk == Files.Unlinked(t.disk, upload).1;
        var data := if fileBytes.Some? then fileBytes.value else [];
        assert d1.files == d.files || d1.files == d.files[upload := data];
        InputLeavesOthers(d, d1, t.disk, a.disk, upload, data, palette);
      }
    }

    /** `cleanup_expired_jobs` with the service's lifetime; the clock reading is the parameter `now`. */
    method CleanupExpiredJobs(now: real)
      requires Valid()
      modifies store, files.fs
      ensures Valid()
      ensures store.jobs == old(store.jobs) - ExpiredIds(old(store.View()), now, ttlSeconds)
      ensures store.locks == old(store.locks)
      ensures files.fs.View() == Files.Swept(old(files.fs.View()), files.JobDirs(ExpiredIds(old(store.View()), now, ttlSeconds)))
    {
      files.CleanupExpiredJobs(store, now, ttlSeconds);
    }

    /** `create_job`: the job directory first; where making it raises, no job is created. */
    method CreateJob(jobId: string, totalFiles: int, now: real) returns (ok: bool)
      requires Valid()
      modifies store, files.fs
      ensures Valid()
      ensures (ok, files.fs.View()) == Files.MadeDirs(old(files.fs.View()), files.JobDir(jobId))
      ensures store.View() == if ok then Created(old(store.View()), jobId, totalFiles, now) else old(store.View())
    {
      var dir;
      ok, dir := files.CreateJobDir(jobId);
      if ok {
        store.CreateJob(jobId, totalFiles, now);
      }
    }

    function GetJob(jobId: string): (r: Option<Job>)
      reads store
      ensures r.Some? <==> jobId in store.jobs
      ensures r.Some? ==> r.value == store.jobs[jobId]
    {
      store.GetJob(jobId)
    }

    method SetJobStatus(jobId: string, status: string)
      requires Valid()
      modifies store
      ensures Valid() && store.View() == StatusSet(old(store.View()), jobId, status)
    {
      store.SetStatus(jobId, status);
    }

    function FileExists(jobId: string, filename: string): (r: bool)
      reads files.fs
      ensures r <==> files.GetFilePath(jobId, filename) in files.fs.files
    {
      files.FileExists(jobId, filename)
    }

    function GetFilePath(jobId: string, filename: string): (r: Files.Path)
      ensures r == files.JobDir(jobId) + [filename]
    {
      files.GetFilePath(jobId, filename)
    }

    /** The progress callback, once per report. */
    method ApplyProgress(jobId: string, fileIndex: int, totalFiles: int, originalName: string, reports: seq<ProgressInfo>)
      requires store.Valid()
      modifies store
      ensures store.Valid()
      ensures store.View() == ProgressApplied(old(store.View()), jobId, fileIndex, totalFiles, originalName, reports)
    {
      var i := 0;
      while i < |reports|
        invariant 0 <= i <= |reports|
        invariant store.Valid()
        invariant store.View() == ProgressApplied(old(store.View()), jobId, fileIndex, totalFiles, originalName, reports[..i])
      {
        if store.HasJob(jobId) {
          store.UpdateProgress(jobId, fileIndex, reports[i].percent, reports[i].estSecondsRemaining,
                               ConvertingStatus(fileIndex, totalFiles, originalName));
        }
        assert reports[..i + 1][..i] == reports[..i];
        i := i + 1;
      }
      assert reports[..i] == reports;
    }

    /** The locked block once the conversion is over, or after an exception. */
    method Book(jobId: string, fileIndex: int, totalFiles: int, originalName: string, outcome: FileOutcome)
      requires store.Valid()
      modifies store
      ensures store.Valid()
      ensures store.View() == Booked(old(store.View()), jobId, fileIndex, totalFiles, originalName,
                                     runner.strategy.OutputExtension(), outcome)
    {
      if !store.HasJob(jobId) {
        return;
      }
      var last;
      if outcome == Success {
        var url := DownloadUrl(jobId, originalName, runner.strategy.OutputExtension());
        last := store.RecordFileSuccess(jobId, originalName, url);
      } else {
        last := store.RecordFileError(jobId);
      }
      if last {
        var status := store.ComputeFinalStatus(jobId);
        store.FinalizeJob(jobId, status);
      } else {
        var job := store.GetJob(jobId);
        if job.Some? {
          var processed := job.value.processedFiles;
          store.SetStatus(jobId, if outcome == Crashed then ErrorStatus(fileIndex, processed, totalFiles)
                                 else ProcessedStatus(processed, totalFiles));
        }
      }
    }

    /**
      `process_file`: the store moves as the progress reports and the booking
      of the attempt say, and the disk ends as the attempt says; the gate has
      its slot back.
     */
    method ProcessFile(jobId: string, originalName: string, fileBytes: Option<Files.Bytes>,
                       inputPath: Option<Files.Path>, scale: string, fps: int, startTimeSec: real,
                       endTimeSec: real, fileIndex: int, totalFiles: int, tool: Tool)
      requires Valid()
      requires runner.commandRunner.gate != null ==> runner.commandRunner.gate.inUse < runner.commandRunner.gate.capacity
      modifies store, files.fs, runner.commandRunner.gate
      ensures Valid()
      ensures var a := Attempted(old(files.fs.View()), jobId, originalName, fileBytes, inputPath, scale, fps,
                                 startTimeSec, endTimeSec, fileIndex, tool);
        store.View() == Booked(ProgressApplied(old(store.View()), jobId, fileIndex, totalFiles, originalName, a.reports),
                               jobId, fileIndex, totalFiles, originalName, runner.strategy.OutputExtension(), a.outcome)
        && files.fs.View() == a.disk
      ensures runner.commandRunner.gate != null ==> runner.commandRunner.gate.inUse == old(runner.commandRunner.gate.inUse)
    {
      var outcome, reports, resolved := Try(jobId, originalName, fileBytes, inputPath, scale, fps, startTimeSec,
                                            endTimeSec, fileIndex, tool);
      ApplyProgress(jobId, fileIndex, totalFiles, originalName, reports);
      Book(jobId, fileIndex, totalFiles, originalName, outcome);
      if resolved.Some? {
        files.CleanupInputFile(resolved.value);
      }
    }

    /** The part of `process_file` before the locked block: resolve the input and run the conversion. */
    method Try(jobId: string, originalName: string, fileBytes: Option<Files.Bytes>,
               inputPath: Option<Files.Path>, scale: string, fps: int, startTimeSec: real,
               endTimeSec: real, fileIndex: int, tool: Tool)
      returns (outcome: FileOutcome, reports: seq<ProgressInfo>, resolved: Option<Files.Path>)
      requires runner.fs == files.fs
      requires runner.commandRunner.gate != null ==> runner.commandRunner.gate.inUse < runner.commandRunner.gate.capacity
      modifies files.fs, runner.commandRunner.gate
      ensures (Attempt(outcome, reports, files.fs.View()), resolved)
           == Tried(old(files.fs.View()), jobId, originalName, fileBytes, inputPath, scale, fps, startTimeSec, endTimeSec, fileIndex, tool)
      ensures runner.commandRunner.gate != null ==> runner.commandRunner.gate.inUse == old(runner.commandRunner.gate.inUse)
    {
      resolved := None;
      if inputPath.Some? {
        resolved := inputPath;
      } else if fileBytes.Some? {
        var ok, path := files.WriteInputFile(jobId, InputFilename(fileIndex, originalName), fileBytes.value);
        if ok {
          resolved := Some(path);
        }
      }
      outcome, reports := Crashed, [];
      if resolved.Some? {
        var params := ConversionParams(resolved.value, OutputPath(jobId, originalName), scale, fps, startTimeSec, endTimeSec);
        var run;
        run, reports := runner.RunConversion(params, true, tool);
        outcome := OutcomeOf(run);
      }
    }

    /** `record_skip_error`. */
    method RecordSkipError(jobId: string, totalFiles: int)
      requires Valid()
      modifies store
      ensures Valid() && store.View() == SkipRecorded(old(store.View()), jobId)
    {
      var last := store.RecordFileError(jobId);
      if last {
        var status := store.ComputeFinalStatus(jobId);
        store.FinalizeJob(jobId, status);
      }
    }
  }
}
