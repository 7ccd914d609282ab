# opusclip-MVP core, modelled in Dafny

opusclip-MVP turns a long video into short highlight clips. A client posts a video URL, a clip length and a clip count to `POST /generate-clips`. The route validates the three fields and creates a job record, then schedules `run_pipeline` in the background. The pipeline goes through five stages, writing a new status record into the shared `jobs` table before each one:

1. download the video;
2. extract its audio;
3. detect highlight windows from the audio's energy;
4. cut and upload one clip per window;
5. upload the source video.

At the end it writes `completed` with the URLs, or `failed` with the error message.

The repository also defines three small pieces of state that nothing in the application uses: app/main.py mounts only `CORSMiddleware`, and neither the routes nor the pipeline import them. Each is modelled on its own, as written:

- a registry of running ffmpeg processes with a sweep of stale entries;
- a request-limiting middleware that would admit at most two generation requests at once;
- a temp-file manager that tracks files and directories to delete.

This project models that core. Each source file becomes one module:

| module | file | form |
|---|---|---|
| `Highlights` | app/services/highlights.py | pure functions for the selection rules; methods with loop invariants for the scan, candidate, greedy, fallback and clamp loops |
| `LegacyHighlights` | scripts/highlights_audio.py | the older selector, modelled on its own |
| `ProcessRegistry` | app/core/ffmpeg_lock.py | a class whose `active` map the methods update in place |
| `RequestLimiter` | app/core/request_limiter.py | a class holding the `active_requests` counter |
| `Jobs` | the `jobs` table | a class whose map every write replaces one record of, with a ghost log of every write in order |
| `Routes` | app/api/routes.py | pure validators, and a `generate_clips` method that writes the table and queues a task |
| `Pipeline` | app/services/pipeline.py | a method per stage, proved against `Expected`, the run as a list of events |
| `Clipper` | app/services/clipper.py | the per-clip loop, proved against the recursive `CutFrom` |
| `Downloader` | app/services/downloader.py | URL classification, the `?dl=0` rewrite, the chunk loop and the size check |
| `TempManager` | app/core/temp_manager.py | `TempFileManager` over a `FileSystem` class |

External services are given as values:

- ffmpeg, S3, HTTP, gdown and the deletion of files are functions in a `Services` datatype, or stage outcomes in `Stages`. Each returns a value or the message of the exception it raised (`Err`).
- The clock is the parameter `now`.
- The audio is given as the function `rms` (the energy of the one-second slice at `t`) and its duration `total`.

A run of the pipeline or the clipper is the list of calls and record writes it makes. That list is what lets the model state ordering and abort properties.

Where the source and its design notes disagree, the model follows the source:

- Job ids are fresh per request, so identical requests are not de-duplicated. `Routes.SameBodyTwice` shows two jobs for one body.
- Each clip gets exactly one ffmpeg run, with no copy-then-transcode fallback.
- Progress goes 65 and then 60, so it is not monotonic.
- The process registry is never called by the clipper or the pipeline, so the two are separate here.
- Job keys are the route's id, not a content hash.

The current selector's early branch for an empty energy list (app/services/highlights.py:37-38) cannot be reached. Once the audio is longer than one clip (at least 1 s), the scan always has a position at 0.0; `Highlights.AnalysisAlwaysRuns` proves this. The branch is kept in `DetectHighlights` all the same.

## Model

| member | source | states |
|---|---|---|
| Highlights.ClampDuration | app/services/highlights.py:14 | the clip length is at least 1.0, and equals the request's value whenever that is at least 1 |
| Highlights.ClampCount | app/services/highlights.py:15 | the clip count is at least 1, and equals the request's value whenever that is at least 1 |
| Highlights.PositionsSpec | app/services/highlights.py:21-35 | the scan positions are 0, 0.5, 1.0, …; each satisfies t + 1.0 < total, the next one would not, and consecutive positions differ by exactly 0.5 |
| Highlights.AnalysisAlwaysRuns | app/services/highlights.py:17-38 | when the audio is longer than a clip of at least 1 s, the scan yields at least one position, so the empty-energies branch is never taken |
| Highlights.ScanPositions | app/services/highlights.py:24-35 | the `while` loop produces exactly the positions above, and the energy of each in order |
| Highlights.SeqMin | app/services/highlights.py:44 | `energies.min()` is a member of the sequence and at most every element |
| Highlights.SeqMax | app/services/highlights.py:44 | `energies.max()` is a member of the sequence and at least every element |
| Highlights.NormalizeInUnitRange | app/services/highlights.py:43-48 | every normalised energy lies in [0, 1] |
| Highlights.NormalizePreservesOrder | app/services/highlights.py:43-48 | for every pair, e[i] <= e[j] exactly when the normalised values compare the same way |
| Highlights.NormalizeConstant | app/services/highlights.py:47-48 | a constant signal normalises to all zeros |
| Highlights.TopMask | app/services/highlights.py:51-52 | exactly `k` positions are chosen, and every chosen energy is at least every unchosen one, whatever the tie-break |
| Highlights.TopCandidates | app/services/highlights.py:50-52 | the candidates chosen from the normalised energies number `k`, and are a top set of the raw energies too |
| Highlights.Select | app/services/highlights.py:53 | one time is kept per chosen position |
| Highlights.SelectMembers | app/services/highlights.py:53 | every selected time is one of the scan's times |
| Highlights.SelectIncreasing | app/services/highlights.py:53 | the selected times come out strictly increasing, which is what `sorted` gives |
| Highlights.CandidateWindow | app/services/highlights.py:57-67 | a window starts at max(0, t − D/2); past the end it is shifted left to end at total, keeping length D when total ≥ D; it always lies in [0, total] |
| Highlights.CandidatesSound | app/services/highlights.py:55-70 | kept candidates lie in [0, total] and are at least 0.5 s long; when total ≥ D ≥ 0.5 every time yields one window of length exactly D |
| Highlights.BuildCandidates | app/services/highlights.py:55-70 | the loop over the top times builds exactly `Candidates` |
| Highlights.Insert | app/services/highlights.py:76 | inserting into a sorted list keeps it sorted (by (start, end) tuple order) and adds exactly one copy of the window |
| Highlights.SortWindows | app/services/highlights.py:76 | `sorted(...)` yields a sorted permutation of its input |
| Highlights.InsertKeepsDisjoint | app/services/highlights.py:114 | inserting a window that overlaps none keeps a list pairwise non-overlapping |
| Highlights.SortKeepsDisjoint | app/services/highlights.py:114 | sorting keeps a list pairwise non-overlapping |
| Highlights.GreedySpec | app/services/highlights.py:72-81 | the greedy pass keeps at most K windows, all from its input; the first starts at or after `last_end`, and each ends no later than the next starts; it keeps the first window when that one qualifies |
| Highlights.RemoveOverlaps | app/services/highlights.py:72-81 | the loop with `last_end` and the early `break` keeps exactly what `Greedy` keeps |
| Highlights.ChainedDisjoint | app/services/highlights.py:72-81 | non-empty windows that each end before the next starts are pairwise non-overlapping |
| Highlights.FillSpec | app/services/highlights.py:83-104 | the fallback keeps every window already kept, adds at most one per step, and keeps every window in bounds and every pair non-overlapping, earlier fallbacks included |
| Highlights.FillEvenly | app/services/highlights.py:84-104 | the `for` loop over the `needed` steps builds exactly `Fill`, with step (total − D)/(needed + 1) |
| Highlights.CleanSpec | app/services/highlights.py:106-112 | the final clamp yields only windows with 0 ≤ start < end ≤ total, never more than it was given, and leaves in-bounds windows untouched |
| Highlights.CleanWindows | app/services/highlights.py:106-112 | the clamp loop builds exactly `Clean` |
| Highlights.SortedDisjointChained | app/services/highlights.py:114 | a sorted, pairwise non-overlapping list of non-empty windows has each window ending before the next starts |
| Highlights.PrefixKeeps | app/services/highlights.py:114 | truncating to `[:clip_count]` keeps sortedness, the chaining and the bounds |
| Highlights.GreedyOverCandidates | app/services/highlights.py:51-81 | from at least one top time the greedy pass keeps between 1 and K windows, in bounds and pairwise non-overlapping |
| Highlights.SelectChosen | app/services/highlights.py:53 | every selected time is the time of a marked position |
| Highlights.CandidatesFrom | app/services/highlights.py:55-70 | every candidate window is the window of one of the top times |
| Highlights.FillFrom | app/services/highlights.py:83-104 | the fallback adds only the fallback windows of its steps |
| Highlights.ShortlistSpec | app/services/highlights.py:55-104 | from at least one top time, the greedy pass and the fallback give between 1 and K windows, in bounds and pairwise non-overlapping |
| Highlights.FinishSpec | app/services/highlights.py:106-114 | the clamp, `sorted` and `[:clip_count]` turn such windows into 1 to K windows, sorted, in bounds, each ending before the next starts |
| Highlights.SelectionWithSpec | app/services/highlights.py:43-114 | for ANY set of top positions (however argsort breaks ties) the selection has between 1 and K windows, sorted, in [0, total], consecutive ones not overlapping |
| Highlights.GreedyFrom | app/services/highlights.py:72-81 | the greedy pass keeps only candidate windows of the top times |
| Highlights.ShortlistFrom | app/services/highlights.py:55-104 | every window before the clamp is a candidate window of a top time or one of the fallback windows, the latter only when the greedy pass kept fewer than K |
| Highlights.FinishFrom | app/services/highlights.py:106-114 | the final clamp, sort and cut of in-bounds windows introduce no new window |
| Highlights.CandidateFromTop | app/services/highlights.py:51-70 | the window of a selected time is centred on a marked position whose raw energy is at least that of every unmarked position |
| Highlights.SelectionFromEnergies | app/services/highlights.py:43-114 | for any set of top positions, every output window is the candidate window of a position whose raw energy is at least that of every position not chosen, or, when the greedy pass kept g < K windows, one of the K − g evenly spaced fallback windows |
| Highlights.SelectWindows | app/services/highlights.py:40-114 | the loops compute exactly `Selection` of the energies (normalise, top min(3K, n), candidates, greedy, fallback, clamp, sort, cut); the result has between 1 and K windows, sorted, in [0, total], consecutive ones not overlapping |
| Highlights.ScanAdvance | app/services/highlights.py:27-35 | one scan iteration appends the next position and its energy and stays within the loop's bound |
| Highlights.EnergiesStep | app/services/highlights.py:32-34 | the energy list grows by the energy of the new position |
| Highlights.DetectSpec | app/services/highlights.py:5-114 | for every energy function: short audio gives exactly [(0, total)]; otherwise at least one window, each in [0, total]; never more than max(1, clip_count); sorted; consecutive windows do not overlap |
| Highlights.DetectFromEnergies | app/services/highlights.py:21-114 | for audio longer than one clip, every detected window is centred on one of the top min(3K, n) scan positions by energy, or is a fallback window when the greedy pass fell short |
| Highlights.DetectHighlights | app/services/highlights.py:5-114 | the method computes exactly `Detect` of the audio's energies; short audio gives exactly [(0, total)]; otherwise at least one window, each in [0, total]; never more than max(1, clip_count); sorted; consecutive windows do not overlap |
| LegacyHighlights.LegacyNormalizePreservesOrder | scripts/highlights_audio.py:46 | the ε-normalisation keeps the order of every pair of energies, both ways |
| LegacyHighlights.TopCount | scripts/highlights_audio.py:47 | `argsort(norm)[-clip_count:]` takes min(clip_count, n) positions, and all n when clip_count is 0 |
| LegacyHighlights.LegacyTopChosen | scripts/highlights_audio.py:46-47 | the chosen positions are a top set of the raw energies |
| LegacyHighlights.EnergyWindows | scripts/highlights_audio.py:50-53 | one window per top time, each start = max(0, t − D/2), end = min(start + D, duration) |
| LegacyHighlights.FallbackWindows | scripts/highlights_audio.py:56-62 | exactly `n` fallback windows, the i-th built from i·step |
| LegacyHighlights.LegacyAtMostCount | scripts/highlights_audio.py:64 | the older selector never returns more than clip_count windows |
| LegacyHighlights.LegacyEnergyPath | scripts/highlights_audio.py:45-53 | with a peak (max > mean·1.05), the result has min(clip_count, n) windows, built at the selected top-energy times in order, and the selection is a top set |
| LegacyHighlights.EnergyWindowsInTimeOrder | scripts/highlights_audio.py:48-53 | windows built from increasing times have non-decreasing starts |
| LegacyHighlights.LegacyEnergyPathInTimeOrder | scripts/highlights_audio.py:22-53 | on the energy path the windows come out in time order |
| LegacyHighlights.LegacyFallback | scripts/highlights_audio.py:56-62 | without a peak, the result has exactly clip_count windows, the i-th starting at i·duration/(clip_count + 1), so the first starts at 0 |
| LegacyHighlights.LegacyFallbackMayOverlap | scripts/highlights_audio.py:56-62 | the older fallback can return overlapping windows ((0, 40) and (25, 65) for duration 100, D 40, count 3) |
| LegacyHighlights.LegacyTruncatesWhereCurrentShifts | scripts/highlights_audio.py:50-53 | near the end the older selector shortens a window ((85, 100)) where the current one shifts it left ((80, 100)) |
| LegacyHighlights.EnergyWindowsLoop | scripts/highlights_audio.py:50-53 | the loop over the top times builds exactly `EnergyWindows` |
| LegacyHighlights.FallbackLoop | scripts/highlights_audio.py:58-62 | the fallback loop builds exactly `FallbackWindows` with step duration/(clip_count + 1) |
| LegacyHighlights.DetectHighlightsLegacy | scripts/highlights_audio.py:5-64 | the whole older selector returns exactly `Legacy` over the scan's positions and energies |
| ProcessRegistry.Sweep | app/core/ffmpeg_lock.py:33-47 | a key survives the sweep exactly when it was present and not stale, with its entry unchanged |
| ProcessRegistry.StaleKeys | app/core/ffmpeg_lock.py:36-44 | the stale keys are exactly the present keys whose age strictly exceeds the limit |
| ProcessRegistry.SweepSettles | app/core/ffmpeg_lock.py:39-47 | after a sweep every entry is at most max_age old, and a second sweep at the same time changes nothing |
| ProcessRegistry.SweepMonotone | app/core/ffmpeg_lock.py:39 | a later sweep keeps no more keys than an earlier one with the same limit |
| ProcessRegistry.SweepRemovesStale | app/core/ffmpeg_lock.py:46-47 | popping exactly the stale keys leaves exactly the sweep |
| ProcessRegistry.Registry.constructor | app/core/ffmpeg_lock.py:11 | the registry starts empty |
| ProcessRegistry.Registry.RegisterProcess | app/core/ffmpeg_lock.py:50-53 | the key maps to (pid, now), replacing any earlier entry; nothing else changes |
| ProcessRegistry.Registry.UnregisterProcess | app/core/ffmpeg_lock.py:56-59 | the key is removed; an absent key leaves the map unchanged |
| ProcessRegistry.Registry.KillProcessTree | app/core/ffmpeg_lock.py:15-25 | one kill attempt is recorded; its failure is swallowed and the registry is untouched |
| ProcessRegistry.Registry.KillStale | app/core/ffmpeg_lock.py:36-44 | the first loop collects each stale key once, and gives each one kill attempt, in collection order |
| ProcessRegistry.Registry.PopAll | app/core/ffmpeg_lock.py:46-47 | the second loop removes exactly the collected keys |
| ProcessRegistry.Registry.CleanupHungProcesses | app/core/ffmpeg_lock.py:28-47 | the map becomes exactly `Sweep` of the old map; every stale entry got one kill attempt, failing or not |
| RequestLimiter.BusyResponse | app/core/request_limiter.py:16-21 | the rejection is a 503 with `Retry-After: 30` |
| RequestLimiter.ConcurrentRequestLimiter.constructor | app/core/request_limiter.py:7-10 | the counter starts at 0 under the given ceiling, 2 by default |
| RequestLimiter.ConcurrentRequestLimiter.TryAdmit | app/core/request_limiter.py:15-22 | admits exactly when the counter is below the ceiling, adding 1; 0 ≤ active ≤ max is kept |
| RequestLimiter.ConcurrentRequestLimiter.Release | app/core/request_limiter.py:28-29 | the `finally` decrement takes exactly 1 off, keeping 0 ≤ active ≤ max |
| RequestLimiter.ConcurrentRequestLimiter.Call | app/core/request_limiter.py:12-31 | a limited request at the ceiling gets the 503 and the handler is not called; an admitted request's handler runs with the counter one above its value on entry (its slot held); any other request's handler runs with the counter untouched; the outcome is the handler's, exception included; the counter is as before afterwards in every case |
| RequestLimiter.ThirdRequestWaits | app/core/request_limiter.py:34 | a limiter built like the global one (ceiling 2) admits two requests, refuses a third while both are held, and admits again after one release |
| Jobs.Submitted | app/api/routes.py:42-45 | the submitted record is {status: "processing", clips: []} and nothing else |
| Jobs.Stage | app/services/pipeline.py:27 | a stage record holds only status and progress |
| Jobs.Completed | app/services/pipeline.py:104-109 | the completed record holds progress 100, the video URL and the clip URLs |
| Jobs.Failed | app/services/pipeline.py:116-119 | the failed record holds only status "failed" and the error message |
| Jobs.JobStore.Put | app/services/pipeline.py:27 | a write replaces the job's whole record and no other, and is appended to the store's log of writes |
| Jobs.TaggedAppend | app/services/pipeline.py:27 | the log entries of two runs of writes one after the other are those of each, in order |
| Jobs.TaggedAt | app/services/pipeline.py:27 | the i-th log entry of a run of writes to one job is that job's id with the i-th record |
| Routes.ValidateVideoUrl | app/api/routes.py:16-22 | the URL is accepted exactly when it is non-empty and starts with "http"; each rejection carries its own message |
| Routes.ValidateClipDuration | app/api/routes.py:24-28 | the clip duration is accepted exactly when 10 ≤ d ≤ 300 |
| Routes.ValidateClipCount | app/api/routes.py:30-34 | the clip count is accepted exactly when 1 ≤ c ≤ 10 |
| Routes.Validate | app/api/routes.py:10-34 | a request is accepted exactly when all three fields are, and then unchanged; otherwise it carries one to three errors |
| Routes.ValidateRanges | app/api/routes.py:16-34 | acceptance in plain ranges, and each field's error is reported exactly when that field is out of range |
| Routes.DefaultsAccepted | app/api/routes.py:12-13 | omitted fields default to duration 40 and count 5, which are accepted |
| Routes.BackgroundTasks.AddTask | app/api/routes.py:47-53 | scheduling appends exactly one task |
| Routes.GenerateClips | app/api/routes.py:38-58 | jobs[id] becomes {status: "processing", clips: []}, which is the one write logged, exactly one pipeline task with the fields and the id is queued, and the reply carries that id with "processing" |
| Routes.Submit | app/api/routes.py:10-58 | a rejected body touches neither the table, its log, nor the queue; an accepted one does what `GenerateClips` does |
| Routes.SameBodyTwice | app/api/routes.py:40 | two identical submissions create two jobs and two tasks: nothing is de-duplicated |
| Pipeline.ReachedWrites | app/services/pipeline.py:26-89 | the status writes up to a stage are a prefix of the success sequence |
| Pipeline.SuccessWrites | app/services/pipeline.py:26-109 | on success the writes are downloading/10, extracting_audio/25, detecting_highlights/40, cutting_clips/65, cutting_clips/60, uploading/80, then completed/100 with the video URL and the clips, and nothing is raised |
| Pipeline.FailureWrites | app/services/pipeline.py:114-120 | on a stage's exception the writes are a prefix of the success sequence, then exactly {failed, error: message}, which is the last event, and the message is re-raised |
| Pipeline.RemovalFailureSwallowed | app/services/pipeline.py:53-97 | whether the audio or the video deletion fails changes neither the writes nor the outcome |
| Pipeline.ReachedLayout | app/services/pipeline.py:26-89 | where each call sits among the events of the stages reached |
| Pipeline.CleanupOrder | app/services/pipeline.py:50-94 | the audio is deleted only after detection returned and before cutting; the video is deleted only after its upload succeeded |
| Pipeline.FailedAt | app/services/pipeline.py:114-120 | a run that fails at stage k is that stage's events, then the failed record and the re-raise |
| Pipeline.LogExtends | app/services/pipeline.py:21-120 | the log entries of a run that goes on are those so far followed by those of the rest |
| Pipeline.LogStep | app/services/pipeline.py:21-120 | appending a block's writes to a log that holds the run so far gives the log of the longer run |
| Pipeline.Overwrite | app/services/pipeline.py:27 | a later write to the job's entry hides the earlier one |
| Pipeline.Advance | app/services/pipeline.py:36-41 | a stage's opening write replaces the job's record, is logged, and is followed by the stage's call in the run |
| Pipeline.Raise | app/services/pipeline.py:114-120 | the handler writes the failed record, which is logged and is the run's last event, and re-raises |
| Pipeline.RunPipeline | app/services/pipeline.py:21-120 | `run_pipeline` makes exactly the writes and calls of `Expected`; the job's record ends as the last write, no other job changes, and the store's log grows by exactly the run's writes, in order, all to this job |
| Pipeline.ExtractStage | app/services/pipeline.py:36-41 | stage 2 and what follows it, with the same guarantee (record, log and events) from the events so far |
| Pipeline.DetectStage | app/services/pipeline.py:45-50 | stage 3 and what follows it, likewise |
| Pipeline.CutStage | app/services/pipeline.py:53-76 | the audio's deletion and stage 4, likewise |
| Pipeline.UploadStage | app/services/pipeline.py:80-109 | stage 5, the video's deletion and completion, likewise |
| Common.NatToStringInjective | app/services/clipper.py:20 | different clip numbers have different decimal forms |
| Clipper.ClipNamesDistinct | app/services/clipper.py:20-40 | two clips of a job never share a file name, a local path or an S3 key |
| Clipper.FirstClipSucceeds | app/services/clipper.py:19-49 | a clip that encodes and uploads contributes its three calls and its URL in front of the rest |
| Clipper.CutOk | app/services/clipper.py:19-51 | `cut_clips` returns a list exactly when every clip's ffmpeg run and upload succeed |
| Clipper.CutSuccess | app/services/clipper.py:19-51 | a successful run returns one URL per highlight, in order, each the upload of "clips/<job_id>_clip_<i>.mp4" with the highlight's own bounds encoded to the local path, three calls per clip |
| Clipper.FirstFailure | app/services/clipper.py:35-41 | the first failing clip: every earlier one succeeds and it does not |
| Clipper.CutAbort | app/services/clipper.py:35-41 | a failing ffmpeg run or upload ends the run: the earlier clips' calls, then only the failing clip's own, and its exception is the result |
| Clipper.RemovalIgnored | app/services/clipper.py:46-49 | whether deleting a local clip fails never changes the result |
| Clipper.CutNothing | app/services/clipper.py:19-51 | no highlights: no call and an empty list |
| Clipper.CutClips | app/services/clipper.py:9-51 | the loop makes exactly the calls of `Cut` and returns its result |
| Downloader.ReplaceAbsent | app/services/downloader.py:35-36 | a URL without "?dl=0" is left as it is |
| Downloader.ReplaceKeepsLength | app/services/downloader.py:36 | a same-length replacement keeps the length |
| Downloader.RewriteComplete | app/services/downloader.py:36 | no "?dl=0" remains after the rewrite |
| Downloader.DirectLinkSpec | app/services/downloader.py:35-36 | the Dropbox rewrite is the identity without "?dl=0", keeps the length, and leaves no "?dl=0" |
| Downloader.FetchFor | app/services/downloader.py:20-53 | Drive URLs go to gdown; otherwise Dropbox URLs are rewritten and fetched over HTTP; any other URL is fetched as is; all into storage/uploads/<job_id>.mp4 |
| Downloader.FetchPlan | app/services/downloader.py:9-53 | the destination is the same in every branch; Drive wins over Dropbox; the rewritten URL has no "?dl=0" and is unchanged when there is none |
| Downloader.Download | app/services/downloader.py:17-62 | a success returns the dict whose only key is "video", mapped to the destination path |
| Downloader.DownloadSpec | app/services/downloader.py:56-62 | success exactly when the file is present with at least 100000 bytes; a fetch's exception passes through; a missing or smaller file raises "Downloaded file is invalid or too small" |
| Downloader.WriteChunks | app/services/downloader.py:41-43 | the file's size is the sum of the chunk sizes; empty chunks are skipped |
| Downloader.Stream | app/services/downloader.py:38-43 | the streamed download gives the file `FileAfter` describes |
| Downloader.DownloadVideo | app/services/downloader.py:17-62 | `download_video` makes the fetch of `FetchFor` and returns what `Download` gives |
| TempManager.Prune | app/core/temp_manager.py:45 | `rmtree` removes exactly the paths under the root |
| TempManager.FileSystem.Remove | app/core/temp_manager.py:27 | a removal succeeds exactly when the file is removable, and then removes exactly that path |
| TempManager.FileSystem.RemoveTree | app/core/temp_manager.py:45 | a tree removal succeeds exactly when the whole tree is removable, and then removes exactly the tree |
| TempManager.FileSystem.MakeTempDir | app/core/temp_manager.py:15 | `mkdtemp` creates exactly one new directory "/tmp/<prefix><tag>" |
| TempManager.RemoveFirstCount | app/core/temp_manager.py:29 | `list.remove` takes out one occurrence, and shortens a list that holds the path by one |
| TempManager.RemoveFirstSpec | app/core/temp_manager.py:28-29 | `list.remove` leaves an untracked list unchanged and removes exactly the first occurrence otherwise |
| TempManager.RemoveFiles | app/core/temp_manager.py:35-40 | the file sweep only removes paths, leaving every other entry as it was |
| TempManager.RemoveTrees | app/core/temp_manager.py:42-47 | the directory sweep only removes paths, leaving every other entry as it was |
| TempManager.RemoveFilesSpec | app/core/temp_manager.py:35-40 | after the file sweep a path is gone exactly when it was listed and removable; one failure does not stop the rest |
| TempManager.RemoveTreesSpec | app/core/temp_manager.py:42-47 | the directory sweep keeps every path under no listed directory, and empties every listed directory that was removable |
| TempManager.CleanupAllEffect | app/core/temp_manager.py:33-50 | `cleanup_all` only removes, keeps untracked paths, removes every removable tracked file and every removable tracked tree |
| TempManager.Purge | app/core/temp_manager.py:52-62 | the old-file sweep only removes paths, leaving every other entry as it was |
| TempManager.PurgeSpec | app/core/temp_manager.py:52-62 | only listed regular files older than the limit (strictly) are removed; when no such file refuses removal, all of them are |
| TempManager.PurgeStops | app/core/temp_manager.py:56-62 | the first failing removal stops the sweep: nothing listed after it is touched |
| TempManager.PurgeInDirectory | app/core/temp_manager.py:56-60 | over the listing of a directory, only its direct children that are expired, deletable regular files are removed; if none of those refuses, all of them are |
| TempManager.TempFileManager.constructor | app/core/temp_manager.py:8-11 | both lists start empty |
| TempManager.TempFileManager.CreateTempDir | app/core/temp_manager.py:13-17 | the new directory is created, appended to `temp_dirs` and returned |
| TempManager.TempFileManager.AddTempFile | app/core/temp_manager.py:19-21 | the path is appended, duplicates allowed |
| TempManager.TempFileManager.CleanupFile | app/core/temp_manager.py:23-31 | the file is removed when removable; the first occurrence of the path leaves the list, except when the removal raised |
| TempManager.TempFileManager.CleanupAll | app/core/temp_manager.py:33-50 | the filesystem ends as the file sweep then the directory sweep over the tracked lists, and both lists end empty whatever failed |
| TempManager.TempFileManager.CleanupOldFiles | app/core/temp_manager.py:52-62 | with no "." the sweep does nothing; otherwise it is `Purge` with now = mtime(".") and limit max_age_hours·3600 over `directory`'s listing; whatever it removes is a direct child of `directory`, an expired regular file, and deletable |

## Left out

- Decoding the audio (`librosa.load`, `get_duration`) and the RMS computation are foreign numerics. They are the inputs `rms` and `total`.
- `round(x, 2)` is taken to be the identity. So the early return is exactly (0, total), and every clamp is exact.
- `np.argsort`'s tie-break is not modelled. The chosen positions are specified as any top set of the right size, and `TopMask` computes one of them.
- `str(start)` and `str(end)` in the ffmpeg command are not modelled: the `Encode` call carries the two reals.
- ffmpeg, S3 (`upload_file`), `requests`, `gdown`, `os.remove`, `os.path.getsize` and `kill_process_tree`'s `killpg` / `taskkill` are outcomes given as functions or datatype fields. Their internals are not part of this model.
- `extract_audio` and `detect_highlights` are stage outcomes in the pipeline model, so the pipeline does not call the highlight model.
- `download_video`, `cut_clips` and `upload_file` are likewise stage outcomes in `Stages` within the pipeline model, not calls into the `Downloader` and `Clipper` models; those two are proved on their own.
- The `if len(segment) == 0: break` of the scan loops (app/services/highlights.py:30-31, scripts/highlights_audio.py:31-32) is not modelled. With `total = len(y) / sr`, every slice the loop condition admits ends inside the samples, so it is never empty and the break is never taken.
- `os.makedirs`, `print` and `logging` have no effect on the state modelled here, and are left out.
- The semaphore and the locks are not modelled. Each locked operation is an atomic method, and concurrent interleavings are not modelled.
- FastAPI's `BackgroundTasks` is only a queue of tasks: the queued pipeline run is not executed by the route model.
- Pydantic's type coercion is not modelled: the fields are already a string and two integers. `HTTPException(400)` around `generate_clips` cannot occur once the id is a parameter.
- The job id comes from `uuid4`, and is a parameter of the route model.
- `mkdtemp`'s random suffix is the parameter `tag`. `Path(directory).glob('*')` is the parameter `listing`: the caller supplies the direct children of `directory`, each once, in the order the file system gives them. The `atexit` registration and the module-level instances `temp_manager` and `active_processes` are not modelled. `request_limiter` appears only as a fresh limiter with its ceiling of 2, in `ThirdRequestWaits`.
- TempManager.FileSystem.RemoveTree: `rmtree` is all or nothing here; a tree removal that fails halfway is not modelled.
- TempManager.TempFileManager.CleanupOldFiles: an error from `getmtime('.')` is modelled as "." missing. Other errors in the sweep stop it at the first refused removal (`PurgeStops`).
- ProcessRegistry.Registry.KillStale: the keys are visited in an arbitrary order, not the insertion order of `active_processes.items()` (app/core/ffmpeg_lock.py:38). The final map and the set of kill attempts do not depend on it; the order of the pids in `killLog` does.
- LegacyHighlights.DetectHighlightsLegacy: clip_count is a `nat`, so the negative counts the script would accept are not modelled.
- `get_job` (app/main.py) is a plain lookup in the job table and is not part of this model. Neither are app/core/config.py, app/core/storage.py, app/core/media_utils.py, app/core/memory_limiter.py, app/services/audio.py, run_local.py, scripts/run_pipeline.py and the React frontend.
