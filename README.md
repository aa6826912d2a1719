# vid2gif: a verified model of the conversion back end

vid2gif is a small web service that turns uploaded video clips into GIFs.
A `/convert` request carries one or more files, a scale, a frame rate and a
trim window per file. It is checked, a job is created, and every file with a
usable trim window is handed to a worker. The worker stores the upload,
runs ffmpeg, reports progress into the job record and books the outcome.
After the job's last file, the worker gives the job its final status.
`/progress` returns the job record. `/download` serves a converted file,
behind a guard against path traversal. Expired, finished jobs are swept
together with their temporary directories.

This project models that core in Dafny, one module per source file:

- `Jobs`: the in-memory job store (`job_store.py`).
  - Every operation is a function from one `StoreView` (the job map and the set of locked ids) to the next.
  - The class `InMemoryJobStore` updates its two fields in place and promises to move exactly as that function does.
  - The bookkeeping identities `processed == successful + errors` and `|downloads| == successful` are an invariant that every operation keeps.
- `Files`: the temporary-file manager (`file_manager.py`) over an abstract disk. The disk is a map from file paths to bytes plus a set of directories.
- `Strategy`: the trim window and the single-pass ffmpeg command of the GIF strategy (`conversion_strategy.py`).
- `Runner`: the single-pass/two-pass choice and the palette commands of `FFmpegRunner` (`ffmpeg_runner.py`).
- `Commands`: timestamp and progress-line parsing, the progress loop, and the success rule (`command_runner.py`). The optional semaphore is a counter.
- `Conversion`: the accepted scales and the orchestration of one file (`conversion.py`):
  - progress updates;
  - booking one success or one error;
  - finalizing after the last file;
  - deleting the input on every path;
  - skipped files.
- `App`: the checks and the per-file loop of `/convert`, the progress lookup, and the guard of `/download` (`app.py`).
- `Text` and `Numbers`: Python's string operations and the decimal text of numbers. This includes `int()`, `float()`, `str()` of integers and `round()` with ties to even.

The external world comes in as parameters:
- The ffmpeg process is a function `tool` from an argument list to either a failure to start or an exit code. An exit carries the standard-error lines, each with the wall-clock reading at which it was read.
- The current time is the parameter `now`.
- `str()` of a float is the parameter `formatFloat`.
- The job id (a fresh UUID) is a parameter of `Convert`.
- The workers `/convert` starts on threads are returned as the list of their arguments. `ProcessFile` then models one worker's run.

Two points where the model follows the code closely:
- `get_output_path` is declared with two arguments and always appends `.gif`, but the conversion service and the tests call it with a third argument, the extension. The model follows the calls: `GetOutputPath(job, name, ext)` is `base/job/(stem(name) + ext)`. With `ext == ".gif"` this coincides with the two-argument form.
- When the palette pass of a long clip fails, the runner returns before the palette is deleted. The model keeps that: no deletion on that path.

Progress percentages are capped at 100 from above only. No lower bound is claimed.

Two lemmas record how the download guard and link generation interact:
- `App.LinkPassesGuard`: the link stored for a converted file passes the `/download` name guard whenever the job id and the file name do and the name does not end in a dot.
- `App.TrailingDotLinkRefused`: for a name such as `clip.`, `pathlib` keeps the dot in the stem. The output is then called `clip..gif`, and the guard refuses its link.
- `App.DotNameLinkPasses`: the name "." alone is the exception. `pathlib` drops it, so its stem is empty, the output is `.gif`, and the guard accepts that link.

## Model

Several specification functions carry no contract of their own and get their meaning from the lemmas about them: `Conversion.InputFilename` (`InputFilenameInjective`), `Conversion.DownloadUrl` (`DownloadUrlNamesOutput`), `Conversion.ProgressApplied` (`ProgressKeepsCounts`), `Conversion.Booked` (`BookedRecordsOnce`), `Conversion.SkipRecorded` (`SkipRecordsOneError`), `Jobs.IsExpired` (`ListExpiredJobs`), `App.ProcessingSet` (`AfterLaunch`), `App.SafeSegment` (`Download`, `SafeSegmentExamples`), and `Numbers.ParseInt` and `Numbers.ParseFloat` (`IntRoundTrip`, `DecimalRoundTrip`, `TrimWindow`).

| member | source | states |
|---|---|---|
| `Jobs.NewJob` | vid2gif/backend/services/job_store.py:146-157 | a fresh record has zero processed, successful and error files, status "initializing", no downloads, index 0, percent 0.0, no estimate, and `created_at` = now; it satisfies the bookkeeping identities |
| `Jobs.Created` | vid2gif/backend/services/job_store.py:133-158 | after `create_job` the id maps to a fresh record (replacing an earlier one), the id is locked, every other job is untouched, and the store invariant is kept |
| `Jobs.InMemoryJobStore.constructor` | vid2gif/backend/services/job_store.py:117-121 | a new store is empty, with no jobs and no locks |
| `Jobs.InMemoryJobStore.CreateJob` | vid2gif/backend/services/job_store.py:133-158 | the store's two maps move exactly as `Created` says, and the invariant holds afterwards |
| `Jobs.ProgressUpdated` | vid2gif/backend/services/job_store.py:204-230 | for a missing job nothing changes; otherwise only index, status, percent and estimate change: the percent is `Round2` of the given one (`round(percent, 2)`), and an estimate is present iff one was given and is then `RoundHalfEven` of it (`round(est)`); counts, downloads, locks and other jobs stay, so the invariant is kept |
| `Jobs.ProgressRoundingExample` | vid2gif/backend/services/job_store.py:225-228 | 50.5 % with 10.5 s left is stored as 50.5 and 10 (the tie goes to even) |
| `Jobs.InMemoryJobStore.UpdateProgress` | vid2gif/backend/services/job_store.py:204-230 | the store moves exactly as `ProgressUpdated` says |
| `Jobs.SuccessRecorded` | vid2gif/backend/services/job_store.py:232-258 | for a missing job nothing changes; otherwise processed and successful go up by exactly one, errors stay, exactly one `{original, url}` entry is appended, and nothing else changes |
| `Jobs.InMemoryJobStore.RecordFileSuccess` | vid2gif/backend/services/job_store.py:232-258 | the store moves as `SuccessRecorded`; the answer is true iff the job exists and now has processed == total (false for a missing job) |
| `Jobs.ErrorRecorded` | vid2gif/backend/services/job_store.py:260-275 | for a missing job nothing changes; otherwise processed and errors go up by exactly one, and successes and downloads stay |
| `Jobs.InMemoryJobStore.RecordFileError` | vid2gif/backend/services/job_store.py:260-275 | the store moves as `ErrorRecorded`; the answer is true iff the job exists and processed == total |
| `Jobs.Finalized` | vid2gif/backend/services/job_store.py:277-293 | the job gets the status, percent 100.0, estimate 0 and index = total; the counts stay; the lock is released while the record stays |
| `Jobs.InMemoryJobStore.FinalizeJob` | vid2gif/backend/services/job_store.py:277-293 | the store moves exactly as `Finalized` says |
| `Jobs.StatusSet` | vid2gif/backend/services/job_store.py:295-304 | only the status of an existing job changes; a missing job is a no-op |
| `Jobs.InMemoryJobStore.SetStatus` | vid2gif/backend/services/job_store.py:295-304 | the store moves exactly as `StatusSet` says |
| `Jobs.Removed` | vid2gif/backend/services/job_store.py:306-314 | the record and the lock of the id are gone, and nothing else changes |
| `Jobs.RemoveIdempotent` | vid2gif/backend/services/job_store.py:312-314 | removing a job twice is the same as removing it once |
| `Jobs.InMemoryJobStore.RemoveJob` | vid2gif/backend/services/job_store.py:306-314 | the store moves exactly as `Removed` says |
| `Jobs.ExpiredIds` | vid2gif/backend/services/job_store.py:326-335 | expired ids are known jobs and never locked ones |
| `Jobs.InMemoryJobStore.ListExpiredJobs` | vid2gif/backend/services/job_store.py:316-335 | an id is listed iff its job has a creation time, is not locked, and is strictly older than the TTL; each is listed once; the store is only read |
| `Jobs.FinalStatus` | vid2gif/backend/services/job_store.py:350-357 | "done" iff successful == total; "failed" iff successful != total and successful <= 0; "completed with errors (S/T successful)" iff successful != total and successful > 0 |
| `Jobs.FinalStatusIn` | vid2gif/backend/services/job_store.py:346-357 | "unknown" for a missing job, otherwise the final status of its counts |
| `Jobs.PartialStatusExample` | vid2gif/backend/services/job_store.py:355-356 | two of three files give "completed with errors (2/3 successful)" |
| `Jobs.InMemoryJobStore.ComputeFinalStatus` | vid2gif/backend/services/job_store.py:337-357 | the answer is "unknown" iff the job is missing, and otherwise agrees with `FinalStatusIn` |
| `Jobs.InMemoryJobStore.GetJob` | vid2gif/backend/services/job_store.py:160-169 | a record is returned iff the id is known, and it is the stored one |
| `Jobs.InMemoryJobStore.HasJob` | vid2gif/backend/services/job_store.py:171-180 | agrees with `GetJob` finding a record |
| `Jobs.InMemoryJobStore.HasLock` | vid2gif/backend/services/job_store.py:182-191 | true iff the id is in the lock set; in a valid store a locked id always has a record |
| `Jobs.RecordedAllCounts` | vid2gif/backend/services/job_store.py:252-274 | recording a run of outcomes adds one processed file per outcome, one success per success and one error per failure, and appends the downloads in order |
| `Jobs.OnlyLastRecordIsLast` | vid2gif/backend/services/job_store.py:258-275 | from `create_job(id, T)` with T >= 1, the k-th of T record calls reports "last" iff k == T |
| `Jobs.ToDict` | vid2gif/backend/services/job_store.py:30-47 | the dictionary carries every field of the state except the id |
| `Jobs.ToDictForgetsOnlyId` | vid2gif/backend/services/job_store.py:30-47 | two states give the same dictionary iff they differ at most in their id |
| `Jobs.DefaultStateIsNewJob` | vid2gif/backend/services/job_store.py:15-28 | a `JobState` with default fields serialises to the record `create_job` stores |
| `Conversion.IsScaleAllowed` | vid2gif/backend/services/conversion.py:22-44 | an accepted scale is "original" or ends in ":-1", and none has a comma, a semicolon or a space that could reach the filter graph |
| `Conversion.ScaleExamples` | vid2gif/backend/services/conversion.py:22-44 | all nine presets are accepted; "", "auto", "320x240", "320:-2", "320;-1" and "320:-1;rm -rf /" are rejected |
| `Conversion.AllowedScaleKeepsFilters` | vid2gif/backend/services/conversion.py:22-32 | no accepted scale can add a filter: splitting `-vf` at commas gives back exactly the intended filters |
| `Conversion.OutcomeOf` | vid2gif/backend/services/conversion.py:226-240 | an exception becomes the crash outcome, exit code 0 becomes success, and any other exit code becomes failure |
| `Conversion.InputFilenameInjective` | vid2gif/backend/services/conversion.py:189 | two uploads share an input file name only with the same index and original name |
| `Conversion.DownloadUrlNamesOutput` | vid2gif/backend/services/conversion.py:232-235 | the stored link splits into "", "download", the job id and exactly the name of the output file the file manager writes |
| `Conversion.ProgressKeepsCounts` | vid2gif/backend/services/conversion.py:214-224 | progress reports never touch keys, locks, other jobs, counts or downloads; after a report the job shows "Converting file i/T (name)...", index i and the last report's percentage (rounded) |
| `Conversion.BookedRecordsOnce` | vid2gif/backend/services/conversion.py:228-298 | for a missing job nothing changes; otherwise exactly one outcome is recorded: processed + 1, a success iff converted, and its link appended; the job is finalized with `compute_final_status` and unlocked iff this was its last file; otherwise the status is "Processed p/T files..." or, after an exception, "Error on file i. Processed p/T..." |
| `Conversion.SkipRecordsOneError` | vid2gif/backend/services/conversion.py:304-321 | for a missing job nothing changes; otherwise exactly one error and no download is recorded; the job is finalized with the final status, releasing its lock, iff that was its last file, and otherwise its status stays as it was |
| `Conversion.SkippedOnlyFileFails` | vid2gif/backend/services/conversion.py:304-321 | a one-file job whose file is skipped ends "failed", with one error and no lock |
| `Conversion.JobLifecycle` | vid2gif/backend/services/conversion.py:143-302 | after k of a job's T files are processed, it has k processed files and one success per conversion; it keeps its lock iff k < T; after the last file its status is the final status |
| `Conversion.InputLeavesOthers` | vid2gif/backend/services/conversion.py:192-302 | writing the upload, deleting at most the palette, and then deleting the upload: every file still there was there before with the same bytes, and only the upload or the palette can be missing |
| `Conversion.ConversionService.constructor` | vid2gif/backend/services/conversion.py:58-77 | the service holds the given store, file manager, runner and TTL |
| `Conversion.ConversionService.InputResolved` | vid2gif/backend/services/conversion.py:192-201 | a given input path is used as is and the disk stays; otherwise an input exists iff bytes were given, the job directory exists and `base/job/"i_name"` is not a directory; then the input is that path and holds exactly the bytes; without an input the disk is unchanged; directories never change |
| `Conversion.ConversionService.Tried` | vid2gif/backend/services/conversion.py:192-226 | without an input the attempt is the crash outcome with no reports; the disk afterwards is the disk after the input step, possibly without the palette file |
| `Conversion.ConversionService.AttemptLeavesNoInput` | vid2gif/backend/services/conversion.py:190-302 | no directory changes; an input that was resolved is gone afterwards; with neither bytes nor a path the attempt is a crash that changes nothing |
| `Conversion.ConversionService.AttemptKeepsOtherFiles` | vid2gif/backend/services/conversion.py:192-302 | every file left after `process_file` was there before with the same bytes; a file that went missing is the upload or the palette |
| `Conversion.ConversionService.CleanupExpiredJobs` | vid2gif/backend/services/conversion.py:97-108 | exactly the expired jobs (under the service's TTL) leave the store, and exactly their directories are swept |
| `Conversion.ConversionService.CreateJob` | vid2gif/backend/services/conversion.py:110-121 | the job directory is made first; the job is created iff making it succeeded, and the store is unchanged otherwise |
| `Conversion.ConversionService.GetJob` | vid2gif/backend/services/conversion.py:123-132 | the stored record iff the job exists |
| `Conversion.ConversionService.SetJobStatus` | vid2gif/backend/services/conversion.py:134-141 | the store moves exactly as `StatusSet` says |
| `Conversion.ConversionService.FileExists` | vid2gif/backend/services/conversion.py:323-333 | true iff `base/job/name` is a regular file |
| `Conversion.ConversionService.GetFilePath` | vid2gif/backend/services/conversion.py:335-345 | the path is `base/job/name` |
| `Conversion.ConversionService.ApplyProgress` | vid2gif/backend/services/conversion.py:214-224 | the callback applied once per report, in order, skipping a job that is gone |
| `Conversion.ConversionService.Book` | vid2gif/backend/services/conversion.py:228-298 | the locked block after the conversion or after an exception; the store moves as `Booked`, whose meaning `BookedRecordsOnce` states |
| `Conversion.ConversionService.Try` | vid2gif/backend/services/conversion.py:189-226 | the outcome, the reports, the disk and the resolved input are those of `Tried`; a gate slot is given back |
| `Conversion.ConversionService.ProcessFile` | vid2gif/backend/services/conversion.py:143-302 | the whole worker: the store gets the attempt's progress reports and then its booking; the disk ends as the attempt leaves it (input deleted once it was resolved); the gate count is restored |
| `Conversion.ConversionService.RecordSkipError` | vid2gif/backend/services/conversion.py:304-321 | one error is recorded; the job is finalized only if that was its last file; no intermediate status is set |
| `Strategy.ClipDuration` | vid2gif/backend/services/conversion_strategy.py:35-42 | the duration is never below 0.01 nor below end - start, and it is one of the two |
| `Strategy.ClipDurationExamples` | vid2gif/backend/services/conversion_strategy.py:35-42 | (2.0, 5.0) gives 3.0 and (0.0, 0.0) gives 0.01 |
| `Strategy.GifConversionStrategy.Filters` | vid2gif/backend/services/conversion_strategy.py:122-127 | the frame-rate filter first, then the scale filter unless the scale is "original", then the palette chain last |
| `Strategy.GifConversionStrategy.VideoFilter` | vid2gif/backend/services/conversion_strategy.py:122-128 | the `-vf` argument always starts with "fps=F," and always ends with "," and the palette chain |
| `Strategy.GifConversionStrategy.BuildCommand` | vid2gif/backend/services/conversion_strategy.py:130-144 | the command has thirteen arguments |
| `Strategy.CommandLayout` | vid2gif/backend/services/conversion_strategy.py:130-144 | the command is exactly `ffmpeg -y -ss start -i input -to end -vf filter -loop 0 output`, with the output last |
| `Strategy.OriginalHasNoScale` | vid2gif/backend/services/conversion_strategy.py:122-128 | with scale "original" the `-vf` argument contains no "scale=" |
| `Strategy.ScaledFilterLayout` | vid2gif/backend/services/conversion_strategy.py:122-128 | with any other scale the filter is "fps=F,scale=S:flags=lanczos," followed by the palette chain |
| `Strategy.FilterSplitsIntoFilters` | vid2gif/backend/services/conversion_strategy.py:122-128 | for a scale without a comma, splitting the filter at commas gives back the filter list |
| `Strategy.GifExtensionIsSuffix` | vid2gif/backend/services/conversion_strategy.py:93-100 | for a name other than "" and ".", ".gif" becomes the output name's suffix, and the name's stem stays |
| `Strategy.StrategyDeclarations` | vid2gif/backend/services/conversion_strategy.py:93-109 | the output extension is ".gif" and the description is "GIF conversion" |
| `Runner.PalettePath` | vid2gif/backend/services/ffmpeg_runner.py:132 | the palette path exists iff the output path has a name; it lies in the same directory with the name's suffix replaced by ".palette.png" |
| `Runner.PaletteIsNotOutput` | vid2gif/backend/services/ffmpeg_runner.py:132 | the palette file is never the GIF itself |
| `Runner.PaletteCommand` | vid2gif/backend/services/ffmpeg_runner.py:136-148 | the palette pass has eleven arguments, writing to the palette path last (its full layout is `PaletteCommandLayout`) |
| `Runner.PaletteCommandLayout` | vid2gif/backend/services/ffmpeg_runner.py:136-148 | the palette pass is exactly `ffmpeg -y -ss start -i input -to end -vf fps=1,palettegen palette`: one frame per second, no scale, the palette file last |
| `Runner.ConvertFilters` | vid2gif/backend/services/ffmpeg_runner.py:155-161 | the frame rate, the scale unless "original", and "paletteuse" last |
| `Runner.ConvertCommand` | vid2gif/backend/services/ffmpeg_runner.py:163-179 | the second pass has fifteen arguments, the output last (its full layout is `ConvertCommandLayout`) |
| `Runner.ConvertCommandLayout` | vid2gif/backend/services/ffmpeg_runner.py:163-179 | the second pass is exactly `ffmpeg -y -ss start -i input -i palette -to end -lavfi filters -loop 0 output`, the filters joined by commas |
| `Runner.ScaledConvertFilter` | vid2gif/backend/services/ffmpeg_runner.py:155-161 | with a scale other than "original" the second-pass filter is "fps=F,scale=S:flags=lanczos,paletteuse" |
| `Runner.OriginalConvertFilter` | vid2gif/backend/services/ffmpeg_runner.py:155-161 | with the scale "original" the second-pass filter is "fps=F,paletteuse" |
| `Runner.PaletteFeedsConversion` | vid2gif/backend/services/ffmpeg_runner.py:136-179 | the file the first pass writes is the second `-i` input of the second pass, and both passes read the same input and trim window |
| `Runner.ConvertFilterMatchesStrategy` | vid2gif/backend/services/ffmpeg_runner.py:155-161 | the second-pass filters equal the single-pass filters except that the palette chain is replaced |
| `Runner.Converted` | vid2gif/backend/services/ffmpeg_runner.py:114-194 | the palette is deleted only on a path that ran to a normal end; an exception carries no progress reports |
| `Runner.ShortClipSinglePass` | vid2gif/backend/services/ffmpeg_runner.py:116-123 | a clip no longer than the threshold runs exactly the strategy's command, with the clip duration and the callback, returns its result, and deletes nothing |
| `Runner.LongClipTwoPasses` | vid2gif/backend/services/ffmpeg_runner.py:132-194 | a longer clip: it succeeds iff both passes exit with 0; the palette is deleted iff the palette pass exited with 0 and the second pass ran to its end, so a failed first pass deletes nothing; all progress comes from the second pass |
| `Runner.FFmpegRunner.constructor` | vid2gif/backend/services/ffmpeg_runner.py:67-82 | the runner keeps the given command runner, disk, segment threshold and float formatting |
| `Runner.FFmpegRunner.RunConversion` | vid2gif/backend/services/ffmpeg_runner.py:93-194 | the result and the reports are those of `Converted`, the disk loses exactly the palette file when `Converted` says so, and the gate count is restored |
| `Commands.ParseFfmpegTime` | vid2gif/backend/services/command_runner.py:42-55 | anything that does not split into exactly three colon-separated fields is an error |
| `Commands.Seconds` | vid2gif/backend/services/command_runner.py:55 | a value exists iff hours, minutes and seconds all parsed |
| `Commands.ParseTimeOfDigits` | vid2gif/backend/services/command_runner.py:54-55 | "H:M:W.F" written in digits reads back as H*3600 + M*60 + W.F |
| `Commands.TimeFields` | vid2gif/backend/services/command_runner.py:54 | three colon-free fields joined by colons split back into those three |
| `Commands.TimeToken` | vid2gif/backend/services/command_runner.py:80-84 | a token exists only for a line containing "time="; it is non-empty and has no white space (which token it is: `TimeTokenIs`) |
| `Commands.TimeTokenIs` | vid2gif/backend/services/command_runner.py:84 | for a line `pre + "time=" + tok + rest` where `pre` has no "time=", `tok` is a non-empty word without white space and `rest` is empty or starts with white space, the token is exactly `tok` |
| `Commands.Percent` | vid2gif/backend/services/command_runner.py:86-90 | for a positive clip the percent is min(100, 100*elapsed/clip), otherwise it is 0; it is never above 100 (no lower clamp) |
| `Commands.Estimate` | vid2gif/backend/services/command_runner.py:92-93 | an estimate exists iff 0 < percent < 100, and then estimate * percent == wall * (100 - percent) |
| `Commands.ParseProgressLine` | vid2gif/backend/services/command_runner.py:65-99 | a line without "time=" gives nothing; a report's percent is at most 100; an estimate exists iff 0 < percent < 100 (which time the report comes from: `ProgressLineMeaning`) |
| `Commands.ProgressLineMeaning` | vid2gif/backend/services/command_runner.py:80-99 | a line whose first "time=" is followed by the word `tok` gives a report iff `tok` parses as a time; the report is then min(100, 100*time/clip) (0 for a non-positive clip) with the estimate from the wall time spent; a malformed token gives nothing, not an error |
| `Commands.ProgressOf` | vid2gif/backend/services/command_runner.py:206-213 | the callback gets at most one report per line, and no report is above 100 percent |
| `Commands.ProgressOfAppend` | vid2gif/backend/services/command_runner.py:206-213 | the reports of a stream are the reports of its parts, one after the other |
| `Commands.ProgressOfStep` | vid2gif/backend/services/command_runner.py:206-213 | one more line adds exactly that line's report, if it has one |
| `Commands.ParseProgress` | vid2gif/backend/services/command_runner.py:191-213 | the loop delivers one report per line that parses, in stream order |
| `Commands.Executed` | vid2gif/backend/services/command_runner.py:152-189 | an exception iff the process failed to start; success iff the exit code is 0; with a callback and a non-zero clip duration the reports are exactly `ProgressOf` the process's standard-error lines, and otherwise there are none |
| `Commands.CommandRunner.constructor` | vid2gif/backend/services/command_runner.py:109-120 | the runner keeps the given gate, or none |
| `Commands.CommandRunner.Execute` | vid2gif/backend/services/command_runner.py:152-189 | its outcome and reports are those of `Executed` |
| `Commands.CommandRunner.RunCommand` | vid2gif/backend/services/command_runner.py:122-150 | the same outcome as `_execute`; with a gate, one extra slot is held while the command runs and the count afterwards equals the count before |
| `Commands.Gate.constructor` | vid2gif/backend/services/command_runner.py:143-148 | a new gate has all its slots free |
| `Commands.Gate.Acquire` | vid2gif/backend/services/command_runner.py:144 | one more slot in use |
| `Commands.Gate.Release` | vid2gif/backend/services/command_runner.py:148 | one slot fewer in use |
| `Files.MadeDirs` | vid2gif/backend/services/file_manager.py:146-147 | fails, changing nothing, iff some prefix of the path is a file; on success the path and every directory above it exist; files never change |
| `Files.Written` | vid2gif/backend/services/file_manager.py:162-163 | succeeds iff the parent is a directory and the path is not one; then the path holds exactly the data; directories never change |
| `Files.Unlinked` | vid2gif/backend/services/file_manager.py:186-188 | succeeds iff the path is a file; afterwards that file is gone and nothing else changes |
| `Files.Rmdired` | vid2gif/backend/services/file_manager.py:231 | succeeds iff the path is an empty directory; afterwards that directory is gone |
| `Files.JobDirRemoved` | vid2gif/backend/services/file_manager.py:212-238 | for an existing job directory, every file directly inside is deleted, whatever else fails, and the directory goes unless a sub-directory keeps it non-empty; nothing else is touched and no error escapes |
| `Files.SweptLeavesOthers` | vid2gif/backend/services/file_manager.py:193-238 | a sweep deletes only the files directly inside swept directories (all of those) and only swept directories; every other entry keeps its bytes |
| `Files.SweptStep` | vid2gif/backend/services/file_manager.py:208-210 | removing one more job directory extends the sweep of its siblings |
| `Files.SweptAllIsSwept` | vid2gif/backend/services/file_manager.py:208-210 | sweeping distinct jobs one after another gives the same disk whatever the order |
| `Files.FileSystem.MakeDirs` | vid2gif/backend/services/file_manager.py:147 | the disk moves as `MadeDirs` says |
| `Files.FileSystem.WriteBytes` | vid2gif/backend/services/file_manager.py:163 | the disk moves as `Written` says |
| `Files.FileSystem.Unlink` | vid2gif/backend/services/file_manager.py:188 | the disk moves as `Unlinked` says |
| `Files.FileSystem.Rmdir` | vid2gif/backend/services/file_manager.py:231 | the disk moves as `Rmdired` says |
| `Files.FileSystem.Children` | vid2gif/backend/services/file_manager.py:221 | exactly the files and directories directly inside the directory |
| `Files.Suffix` | vid2gif/backend/services/file_manager.py:177 | `pathlib`'s suffix: for a non-empty name it is empty iff the name has no dot after its first character or ends in a dot; otherwise it is a proper ending of the name that starts with its only dot |
| `Files.Stem` | vid2gif/backend/services/file_manager.py:177 | the stem followed by the suffix is the name, except for ".", which `pathlib` drops to the empty name; the stem is empty exactly for "" and "." |
| `Files.WithSuffix` | vid2gif/backend/services/ffmpeg_runner.py:132 | the result starts with the stem, ends with the new suffix and is exactly as long as both, so it is the stem followed by the suffix |
| `Files.ReplacedSuffix` | vid2gif/backend/services/file_manager.py:177-178 | a name other than "" and "." given a proper extension keeps its stem, and the extension becomes its suffix |
| `Files.StemExample` | vid2gif/backend/services/file_manager.py:177 | "video.mp4" has the stem "video" |
| `Files.FileManager.constructor` | vid2gif/backend/services/file_manager.py:113-119 | the manager keeps the base directory and the disk |
| `Files.FileManager.JobDir` | vid2gif/backend/services/file_manager.py:146 | the job directory is directly inside the base directory and is named after the job |
| `Files.FileManager.GetFilePath` | vid2gif/backend/services/file_manager.py:253-263 | the path is directly inside the job directory and is named after the file |
| `Files.FileManager.GetOutputPath` | vid2gif/backend/services/file_manager.py:167-178 | the path is directly inside the job directory and is named stem + extension |
| `Files.FileManager.FileExists` | vid2gif/backend/services/file_manager.py:240-251 | true iff `base/job/name` is a regular file |
| `Files.FileManager.EnsureBaseDir` | vid2gif/backend/services/file_manager.py:130-132 | the disk moves as `MadeDirs` of the base directory |
| `Files.FileManager.CreateJobDir` | vid2gif/backend/services/file_manager.py:134-149 | the disk moves as `MadeDirs` of `base/job`, and that directory is returned |
| `Files.FileManager.WriteInputFile` | vid2gif/backend/services/file_manager.py:151-165 | exactly the data is stored at `base/job/filename`, and that path is returned |
| `Files.FileManager.CleanupInputFile` | vid2gif/backend/services/file_manager.py:180-191 | the file is gone afterwards; a missing path, or a directory, is left as is without an error |
| `Files.FileManager.RemoveJobDir` | vid2gif/backend/services/file_manager.py:212-238 | the disk moves as `JobDirRemoved` says |
| `Files.FileManager.JobDirs` | vid2gif/backend/services/file_manager.py:218 | a path is one of the directories iff it is directly inside the base directory and named after one of the jobs |
| `Files.FileManager.RemoveJobAndDir` | vid2gif/backend/services/file_manager.py:208-210 | one round of the sweep: the job leaves the store as `Removed` says, and its directory is removed |
| `Files.FileManager.CleanupExpiredJobs` | vid2gif/backend/services/file_manager.py:193-210 | exactly the ids `list_expired_jobs` reports leave the store and have their directories swept; the locks and every other job stay |
| `App.RequestRejection` | vid2gif/backend/app.py:166-178 | "no files" iff there are none; a count mismatch iff there are files but the start or end lists differ in length; an invalid scale iff the counts agree but the scale is not allowed; acceptance iff none of these |
| `App.TrimWindow` | vid2gif/backend/app.py:193-199 | a window exists iff both times parse and start >= 0, end >= 0 and end > start; it is the two parsed times |
| `App.Windows` | vid2gif/backend/app.py:191-199 | one window (or none) per file |
| `App.WindowAt` | vid2gif/backend/app.py:193-199 | the window of file i is the one its two texts give |
| `App.WindowsAreValid` | vid2gif/backend/app.py:195-199 | every window that parsed satisfies the window check |
| `App.WorkerFor` | vid2gif/backend/app.py:193-222 | a file gets a worker iff its window is valid and its contents were read; the worker's arguments are the job, the file's name and bytes, scale, fps, window, index i+1 and the total |
| `App.WorkersOf` | vid2gif/backend/app.py:191-222 | at most one worker per file |
| `App.WorkersAreOrdered` | vid2gif/backend/app.py:207-222 | worker indices are 1-based, strictly increasing and within range; every worker has the job's id and total and its own file's window and bytes |
| `App.WorkerForEachGoodFile` | vid2gif/backend/app.py:191-243 | file i+1 has a worker iff its window is valid and its contents were read |
| `App.SkipsCount` | vid2gif/backend/app.py:224-243 | m skips of a fresh job of n files record m errors and nothing else; the lock stays until all n are skipped; the job is then "failed" |
| `App.AfterLaunch` | vid2gif/backend/app.py:245-248 | after the loop the status is "processing" iff some file got a worker; with every file skipped the job is "failed" and unlocked |
| `App.Launch` | vid2gif/backend/app.py:191-243 | the loop gives the workers of `WorkersOf`, in order, and books one skip error per other file |
| `App.Prepare` | vid2gif/backend/app.py:180-188 | expired jobs are swept, then the job directory is made; the job is created iff that succeeded |
| `App.LaunchAll` | vid2gif/backend/app.py:191-248 | the loop, then the status rule, leaving the store as `Launched` from the store before the sweep |
| `App.Convert` | vid2gif/backend/app.py:158-251 | a request failing a check is refused with the first failed check and changes neither store nor disk; otherwise expired jobs are swept and the job directory is made; without the directory the answer is a storage failure with the store only swept; with the directory, the answer is the job id and the workers of every good file, and the store is swept, created, skip-booked and status-ruled |
| `App.Progress` | vid2gif/backend/app.py:254-270 | the job's record as stored iff the job exists, not found otherwise |
| `App.Download` | vid2gif/backend/app.py:273-306 | an invalid job id iff it is empty or has "..", "/" or "\"; then an invalid file name under the same rule; then not found iff the file is missing; otherwise `base/job/name` is served |
| `App.SafeSegmentExamples` | vid2gif/backend/app.py:286-294 | "job1" and "file.gif" pass the name guard; "", "../escape", "../file.gif", "a/b" and "a\\b" do not |
| `App.ServedPathStaysInBase` | vid2gif/backend/app.py:286-306 | as a list of components, a served path is the base directory followed by two components, neither of them empty, "..", or holding a separator ("." is not collapsed here, see "## Left out") |
| `App.LinkPassesGuard` | vid2gif/backend/app.py:290-294 | the GIF name of a converted file passes the file-name guard when the job id and the original name do and the name does not end in a dot |
| `App.TrailingDotLinkRefused` | vid2gif/backend/app.py:290-294 | for an original name other than "." ending in a dot, the GIF name holds ".." and is refused |
| `App.DotNameLinkPasses` | vid2gif/backend/app.py:290-294 | the original name "." has the empty stem, so its GIF name is ".gif", which the guard accepts |
| `Numbers.RoundHalfEven` | vid2gif/backend/services/job_store.py:227 | the result is within 0.5 of x, and on a tie it is even |
| `Numbers.RoundHalfEvenUnique` | vid2gif/backend/services/job_store.py:227 | no other integer has those two properties |
| `Numbers.Round2` | vid2gif/backend/services/job_store.py:225 | `round(x, 2)` on an exact real: a whole number of hundredths within 0.005 of x, and on a tie the even number of hundredths |
| `Numbers.Round2Unique` | vid2gif/backend/services/job_store.py:225 | no other real has those three properties |
| `Numbers.DecimalRoundTrip` | vid2gif/backend/services/command_runner.py:55 | `float("W.F")` of digit strings is W + 0.F |
| `Numbers.IntToString` | vid2gif/backend/services/conversion.py:189 | `str()` of an integer: an optional minus sign, then digits only |
| `Numbers.IntRoundTrip` | vid2gif/backend/services/command_runner.py:55 | `int(str(i)) == i` for every integer |
| `Text.SplitOn` | vid2gif/backend/services/command_runner.py:54 | `split(c)` never gives an empty list, no part holds the separator, and joining the parts gives back the string |
| `Text.SplitJoin` | vid2gif/backend/services/command_runner.py:54 | splitting a join of separator-free parts gives back the parts |
| `Text.SecondField` | vid2gif/backend/services/command_runner.py:84 | `split(w)[1]` exists iff the line contains w; it has no w in it, starts right after the first w, and runs to the end or to the next w |
| `Text.FirstWord` | vid2gif/backend/services/command_runner.py:84 | `split()[0]` exists iff the text is not all white space; it is the non-empty word that starts after the leading white space and ends at white space or at the end |

## Left out

- Threads and locks. The store lock, the per-job locks and the worker threads all serialise or start concurrent work; the model runs each step alone. `/convert` returns the workers' arguments instead of starting threads, and a failure to start a thread is not modelled.
- Commands.CommandRunner.RunCommand: requires a free gate slot instead of blocking until one is free (so do `Commands.Gate.Acquire`, `Runner.FFmpegRunner.RunConversion` and `Conversion.ConversionService.ProcessFile`).
- Subprocesses and streams. ffmpeg is the parameter `tool`. The progress callback is applied after the process has ended, from the lines it wrote, in their order, instead of while it runs.
- The files ffmpeg itself writes (the GIF, the palette) are not added to the model's disk; only the deletions the program makes are.
- Floating point. Every number is an exact real. `str()` of a float is the parameter `formatFloat`. `round()` is exact round-half-even, not the binary-float library result.
- `float()` and `int()` accept only an optional sign, ASCII digits and at most one point. Exponents, `inf`, `nan`, underscores and non-ASCII digits are not modelled.
- Paths are sequences of components. A file name that itself contains a separator is not modelled, and neither are permission errors beyond the failures the abstract disk can show.
- Jobs.InMemoryJobStore.ListExpiredJobs: promises the set of ids and that each appears once, not the insertion order of the Python dictionary.
- JSON typing of the record. The estimate 0 that `finalize_job` stores is the real 0.0; the int/float distinction of the serialised record is not modelled.
- Configuration and environment loading (`constant.py`, `env_loader.py`), `get_default_store`, and the deprecated `run_with_ffmpeg_semaphore` shim. The segment threshold, the TTL and the gate capacity are parameters.
- Files.Stem: the name "." is the only dropped component modelled. `Path(".")` has the empty name, so its stem is empty. A name holding a separator, whose `pathlib` stem would be that of its last component, is not modelled (see "Paths are sequences of components").
- Files.WithSuffix: `with_suffix` raises `ValueError` for the empty name and for "."; the model's function returns the stem (empty there) followed by the suffix instead. Its only use is on output names, which are never empty. For the same reason `Files.ReplacedSuffix` and `Strategy.GifExtensionIsSuffix` require a name other than "" and ".": for ".", the output `.gif` has the stem ".gif", not the empty stem of ".".
- App.ServedPathStaysInBase: paths are lists of components, so "." is an ordinary name here. `pathlib` collapses `base / "." / name` to `base/name`, so for the job id "." the program serves a file one level below the base directory; the lemma does not show that case.
- backend/app.py, the superseded monolithic version of the service, is not part of this model.
- FastAPI plumbing: request decoding, `await file.read()` (its result, or its failure, is the upload's `contents`), the response types, the frontend mount, the validation of `fps` by the framework, the UUID generation for job ids, and logging.
- `Runner.FFmpegRunner.constructor`: only the default GIF strategy is modelled, not an injected one. The two-pass path builds its own commands whatever the strategy; with the GIF strategy this is what the source does.
- `Conversion.ConversionService.constructor` requires that the file manager and the runner work on the same disk; the original has no such requirement because both act on the one real filesystem.
