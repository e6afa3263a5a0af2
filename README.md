# ffmpeg-batch core in Dafny

This project models the batch-processing core of ffmpeg-batch: the job queue
that stores video jobs, hands them to workers in FIFO order and keeps
statistics, and the pure helpers of the video processor that build ffmpeg
argument lists and turn ffmpeg's progress output into percentages.

Modules:

- `Wrappers`: `Option` and `Result`.
- `Text`: ASCII lower-casing (`str.lower` on the format names), decimal
  printing and parsing of naturals (`str(n)`, `int(...)` on `\d+`).
- `Paths`: the part of `pathlib.PurePosixPath` the core uses (`parent`,
  `name`, `suffix`, `stem`, `with_suffix`) on normalised path strings.
- `Jobs` (job_queue.py): `JobStatus`, the `Job` record and its generated
  output path, and the class `JobQueue` with its job store, FIFO queue and
  counters. One worker turn is `WorkerStep`: dequeue the head, skip it if it
  was cancelled, otherwise run `_process_job` against a handler whose
  behaviour (progress reports, then a reply or an exception) is an input.
- `VideoProcessor` (video_processor.py): thumbnail extension correction,
  quality arguments, filter strings, the `generate_thumbnail` and
  `trim_video` argument lists, and the `out_time_ms=` progress relay.
- `Pipeline`: the two files together. A generated thumbnail output path
  already carries the extension the processor would correct it to.

The job store is `jobs: map<string, Job>`, with `order` recording Python's
dict insertion order. The queue holds job ids. The class invariant
`JobQueue.Valid` says:

- every stored job is consistent with its status;
- every pending job is queued exactly once, and a job cancelled while
  queued stays in the queue until a worker dequeues and skips it;
- `total_jobs`, `completed_jobs` and `failed_jobs` equal the number of
  stored, completed and failed jobs;
- no job is left processing between worker turns.

Even for an operation the processor cannot resolve, `_process_job` marks the
job processing and increments `processing_jobs` before the job fails
(job_queue.py:187-201).

## Model

| member | source | states |
|---|---|---|
| Jobs.NewJob | job_queue.py:24-42 | a new job is Pending with progress 0, no times, error or result, and keeps its id, input, operation and parameters; its output is the caller's path when non-empty, else the generated path |
| Jobs.OutputExtension | job_queue.py:48-59 | a thumbnail's extension is `.jpg` exactly when the lower-cased `image_format` is `jpg` or `jpeg`, `.png` exactly when it is `png`, and `.webp` otherwise and when the parameter is absent; a GIF's is `.gif`; audio extraction uses `.` plus `audio_format` (default `mp3`); every other operation keeps the input's suffix |
| Jobs.ThumbnailFormatExt | job_queue.py:50-51 | the lookup yields `jpg` exactly when the lower-cased format is `jpg` or `jpeg`, `png` exactly when it is `png`, and `webp` for everything else |
| Jobs.GenerateOutputPath | job_queue.py:44-59 | the generated path starts with the input's directory and ends with the extension the operation selects |
| Jobs.GeneratedPathShape | job_queue.py:44-59 | the generated path lies in the input's directory and is named `<stem>_<operation>_<stamp>` plus the extension; for thumbnails and GIFs its suffix is exactly that extension |
| Jobs.Processed | job_queue.py:185-232 | the job record after `_process_job`: Completed exactly when the operation resolves and the handler reports success (then progress 100 and the result stored); otherwise Failed with the "Unknown operation" text, the raised message or the reply's error ("Unknown error" by default), progress left at its last reported value; start and finish times set; identity fields kept |
| Jobs.ProcessedConsistent | job_queue.py:185-232 | processing a pending job leaves a consistent terminal record whose progress stays in [0, 100] when every report does |
| Jobs.CountAfterPut | job_queue.py:97-99 | replacing one job changes the count for a status only by the old and new job's membership |
| Jobs.StatusPartition | job_queue.py:13-18 | every stored job has exactly one of the five statuses, so the five counts add up to the number of jobs |
| Jobs.WithStatus | job_queue.py:111-117 | the filtered list holds exactly the listed jobs with the status, and is no longer than the listing |
| Jobs.FilterByStatus | job_queue.py:113-117 | the comprehension's loop computes `WithStatus` |
| Jobs.ListingOf | job_queue.py:109 | the stored jobs in insertion order, one per id |
| Jobs.ListingWithStatusCount | job_queue.py:113-117 | filtering the listing keeps exactly one entry per stored id with the status |
| Jobs.ListedWithStatus | job_queue.py:111-117 | filtering the store's listing finds exactly the stored jobs with that status |
| Jobs.QueueAccount | job_queue.py:95-101 | the finished jobs plus the queued jobs never outnumber the stored jobs |
| Jobs.Drained | job_queue.py:157-183 | with the queue empty no job is pending; with none processing, failed or cancelled either, all jobs completed |
| Jobs.JobQueue.constructor | job_queue.py:82-93 | an empty store and queue with all counters 0 |
| Jobs.JobQueue.AddJob | job_queue.py:95-101 | the job is stored under its id, appended to the queue, `total_jobs` rises by 1, the id is returned, and nothing else changes |
| Jobs.JobQueue.GetJob | job_queue.py:103-105 | the stored job for a present id, none otherwise |
| Jobs.JobQueue.GetAllJobs | job_queue.py:107-109 | every stored job, once each, in insertion order (`ListingOf`) |
| Jobs.JobQueue.GetJobsByStatus | job_queue.py:111-117 | exactly the stored jobs whose status is the one asked for, each once, in insertion order: the listing filtered by status, as many as the jobs with that status |
| Jobs.JobQueue.CancelJob | job_queue.py:119-126 | true exactly for a stored pending job, which becomes cancelled; otherwise nothing changes |
| Jobs.JobQueue.GetStats | job_queue.py:234-240 | the counters and queue size; processing is never negative, completed plus failed plus queued never exceeds the total, and the total is completed plus failed plus processing plus pending plus cancelled |
| Jobs.JobQueue.ProcessJob | job_queue.py:185-232 | the job becomes `Processed`, progress reports are applied one by one, exactly one of `completed_jobs` and `failed_jobs` rises, and `processing_jobs` returns to its prior value |
| Jobs.JobQueue.WorkerStep | job_queue.py:163-175 | an empty queue changes nothing; a cancelled head leaves the queue and nothing else changes; any other head is pending and is processed; terminal jobs never change |
| Jobs.JobQueue.RunWorker | job_queue.py:160-183 | after at least as many turns as queued jobs no job is pending; if every handler succeeds on a known operation and no job had failed or been cancelled, every job is completed; terminal jobs never change |
| VideoProcessor.ThumbnailExtension | video_processor.py:226-234 | the result is `.jpg` exactly when the lower-cased format is `jpg` or `jpeg`, `.png` exactly when it is `png`, and `.webp` for everything else; it is always a lower-case extension |
| VideoProcessor.ThumbnailExtensionIgnoresCase | video_processor.py:233 | a format and its lower-cased form select the same extension |
| VideoProcessor.CorrectThumbnailExtension | video_processor.py:222-239 | the path is returned unchanged exactly when its suffix already matches case-insensitively; otherwise the result is `with_suffix` of the mapped extension, keeping the directory and the stem, and `with_suffix`'s error on an empty name is the only failure |
| VideoProcessor.CorrectThumbnailExtensionIdempotent | video_processor.py:236-239 | correcting a corrected path changes nothing |
| VideoProcessor.ClampQuality | video_processor.py:244 | the quality is clamped to [0, 100] |
| VideoProcessor.JpegQScale | video_processor.py:253-256 | the JPEG scale of any quality lies in [2, 31] |
| VideoProcessor.JpegQScaleIsTruncation | video_processor.py:244-256 | the JPEG scale equals the floor of `31 - q * 29 / 100` for the clamped quality `q`, so the final clamp to 2..31 never changes it |
| VideoProcessor.JpegQScaleRange | video_processor.py:253-257 | the JPEG scale stays in [2, 31], is 31 at quality 0 and 2 at quality 100, and never rises as quality rises |
| VideoProcessor.ThumbnailQualityArgs | video_processor.py:241-257 | no arguments exactly for `png` in any case; `-quality q` for `webp`; `-q:v j` for everything else |
| VideoProcessor.ThumbnailFilter | video_processor.py:210-220 | every filter starts with `scale=W:H`; `cover` continues with `:force_original_aspect_ratio=increase,crop=W:H`, `contain` with `:force_original_aspect_ratio=decrease,pad=W:H`, and any other fit gives just the scale |
| VideoProcessor.ThumbnailFilterModes | video_processor.py:210-220 | for the same size, the `cover` and `contain` filters differ from each other, and every other fit is the bare scale |
| VideoProcessor.ColonsToX | video_processor.py:183 | each `:` becomes `x` and every other character is kept |
| VideoProcessor.ParseSize | video_processor.py:183 | a parsed size is the two `x`-free parts around the single separator; a refused size has no separator with `x`-free text on both sides |
| VideoProcessor.ParseSizeRoundTrip | video_processor.py:183 | `WxH` and `W:H` parse back into their two parts; a size without a separator is refused |
| VideoProcessor.ThumbnailCommand | video_processor.py:182-206 | a malformed size or an empty output name is an error, and the call succeeds otherwise, with the exact argument list, 13 elements exactly for `png`, ending in a path with the right extension in the original directory |
| VideoProcessor.ThumbnailCommandWithDefaults | video_processor.py:156-206 | every absent keyword argument takes its default (`00:00:01`, `1280x720`, `cover`, `webp`, 75); with all absent and a named output path the call succeeds with a 1280x720 crop and WebP quality 75 |
| VideoProcessor.DefaultArguments | video_processor.py:160-164 | the default size parses as 1280 by 720, the default format and quality give `-quality 75`, and the default extension is `.webp` |
| VideoProcessor.TrimCommand | video_processor.py:359-375 | starts with the input and start time, then `-to end` when an end time is given, else `-t duration` when one is, never both, and ends with `-c copy -progress pipe:1 -y output` |
| VideoProcessor.SearchFromFinds | video_processor.py:408 | searching from a position succeeds exactly when the marker followed by a digit occurs at or after it, and reads the number at the leftmost such occurrence |
| VideoProcessor.ParseProgressLine | video_processor.py:408-410 | a line yields a value exactly when it holds the marker followed by a digit, and the value is the whole digit run after the leftmost occurrence |
| VideoProcessor.ParseProgressLineRoundTrip | video_processor.py:408-410 | a line `out_time_ms=<n>` followed by a non-digit yields `n` |
| VideoProcessor.ProgressPercent | video_processor.py:411-412 | the percentage is in [0, 100] and is 0 when the duration is not positive |
| VideoProcessor.ProgressPercentShape | video_processor.py:411-412 | with a positive duration it reaches 100 exactly when the output time reaches the duration, and never falls as time grows |
| VideoProcessor.Reports | video_processor.py:405-413 | at most one report per line, each in [0, 100] |
| VideoProcessor.ReportsAppend | video_processor.py:405-413 | two chunks of output report what each chunk reports, in order |
| VideoProcessor.ReportsWithoutMarker | video_processor.py:408-409 | lines without the marker report nothing |
| VideoProcessor.RelayProgress | video_processor.py:405-413 | the loop hands the callback exactly `Reports`, or nothing when there is no callback |
| Pipeline.ThumbnailPathSuffix | job_queue.py:49-52 | a generated thumbnail path's suffix is the extension its `image_format` selects |
| Pipeline.GeneratedThumbnailPathKept | job_queue.py:49-52 | a thumbnail job's generated output path passes the processor's extension correction unchanged |
| Pipeline.ExtensionTablesAgree | job_queue.py:50-51 | the job queue's format table and the processor's extension table (video_processor.py:226-234) pick the same extension for every format |
| Text.Lower | video_processor.py:233 | lower-casing keeps the length and lower-cases each character |
| Text.IntToString | video_processor.py:368 | a non-negative integer is written as its digits, a negative one as `-` followed by the digits of its magnitude |
| Text.LowerIdempotent | video_processor.py:233 | lower-casing twice is lower-casing once |
| Text.NatToString | video_processor.py:251 | the decimal form is non-empty, all digits, and has no leading zero |
| Text.ParseNatToString | video_processor.py:409-410 | reading a printed natural gives it back |
| Text.DigitRunLength | video_processor.py:408 | the greedy `\d+` run is all digits and stops at a non-digit or the end |
| Paths.LastIndexOf | video_processor.py:224 | the last position of a character, or -1 when it does not occur |
| Paths.Dir | video_processor.py:237 | the directory part (`parent` joined back) is a prefix of the path that is empty or ends in `/` |
| Paths.Name | video_processor.py:224 | the final component holds no `/` and the directory plus the name is the path |
| Paths.Suffix | video_processor.py:236 | a suffix is empty or a whole extension: a dot, at least one more character, no further dot and no `/` |
| Paths.Stem | video_processor.py:236 | the stem followed by the suffix is the name |
| Paths.WithSuffix | video_processor.py:237 | fails exactly on an empty name; otherwise the directory plus the stem plus the new suffix |
| Paths.WithSuffixShape | video_processor.py:237 | the new path keeps the directory and the stem, has the new suffix, and differs from the old path when the suffix changed |
| Paths.JoinSplits | job_queue.py:52 | joining a directory and a slash-free name splits back into the two |
| Paths.StemAndSuffixOf | job_queue.py:52 | a name built from a slash-free stem and a proper extension has that stem and that suffix |

## Left out

- The asyncio machinery (`start`, `stop`, `wait_for`, `run_in_executor`,
  task cancellation) is not modelled: one worker runs sequentially, one
  turn per `WorkerStep`, and a dequeue timeout is a turn on an empty queue.
  Several workers running at once are not modelled.
- `uuid4` and `datetime.now` are parameters: the id, the clock readings and
  the formatted stamp are supplied by the caller.
- Jobs.JobQueue.AddJob: requires the id not to be stored yet and the job to
  be freshly built (Pending). The source would silently overwrite a
  duplicate id, which fresh uuids rule out.
- Job records are values. `get_job` in the source returns a live reference
  that later updates show through; `GetJob` returns the current value. The
  queue holds ids rather than references, which is equivalent because ids
  are never reused.
- `to_dict` and `isoformat` are not modelled: listings return the job
  records themselves.
- `active_workers` in `get_stats` is not modelled (it counts asyncio tasks).
- `save_state` and `load_state` are file I/O and are not modelled.
- Running ffmpeg and ffprobe, the exit-code check, and the success and
  error dictionaries of `_execute_ffmpeg` are not modelled. A handler's
  outcome is an input to `ProcessJob`, and a progress run is a sequence of
  output lines.
- `get_video_info`, `transcode`, `compress` (with its bitrate arithmetic),
  `add_watermark`, `extract_audio`, `create_gif` and `concatenate_videos`
  are not modelled. They are fixed argument lists, floating-point
  arithmetic or file I/O.
- Floating point is modelled by exact reals (progress, durations).
- Paths are modelled on normalised POSIX strings. The normalisation
  `pathlib` applies first (repeated or trailing `/`, `.` components) is not
  modelled.
- Text.DigitRunLength: ASCII digits only. Python's `\d` and `int` also
  accept other Unicode decimal digits, so a progress line whose number is
  written in such digits reports nothing here. ffmpeg writes these lines
  in ASCII.
- Text.Lower: ASCII only. Python's Unicode lower-casing agrees with it on
  every string that can match `webp`, `jpg`, `jpeg` or `png`.
- Job parameters are modelled as strings. Non-string values, and the
  `AttributeError` a non-string `image_format` raises, are not modelled.
- VideoProcessor.ThumbnailCommandWithDefaults: the job's parameters are
  given as one optional value per keyword. Unknown keywords, which make the
  call raise `TypeError`, are not modelled.
- VideoProcessor.ThumbnailCommand: models the `ValueError` of a malformed
  size and of an empty output name as error values. Python's exception
  type and text are not modelled.
- VideoProcessor.TrimCommand: the duration is an integer, as its type hint
  says. Other duration types are not modelled.
