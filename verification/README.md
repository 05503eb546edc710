# Video2Text bookkeeping, in Dafny

Video2Text turns a directory of video files into transcripts. For each video it
validates the file with FFmpeg, extracts a WAV track, runs Whisper on it, writes
the text next to a mirror of the input tree, and records the attempt in a JSON
processing history. This project models the decisions around those engines:

- the processing history and its counters;
- video discovery, and the output and relocation path rules;
- the per-file pipeline of `MP4ToTextProcessor` and its cancellable sequential batch;
- the interpretation of FFmpeg's progress and probe output, and the validation order;
- the txt, SubRip, WebVTT and JSON renderers, with their timestamps;
- the configuration and platform decision rules;
- the `auto_process.py` front end.

FFmpeg, Whisper, torch, psutil, the clock and the filesystem's contents do not
appear as code here. They are parameters: a `Probe` for FFmpeg's stderr, a
`RunOutcome` for an FFmpeg run, an `EngineOutcome` for Whisper, an elapsed time
per file and a `FileSystem` map from paths to nodes. Everything else is a
function over immutable values.

Modules follow the program's files:

| module | file | models |
|---|---|---|
| `Wrappers` | wrappers.dfy | `Option` / `Result` |
| `Text` | text.dfy | the `str` operations the code relies on: `strip`, `lower`, `find`, `str(int)`, `int(str)`, `:02d` padding |
| `Paths` | paths.dfy | `pathlib` paths, the filesystem map, `glob`, `mkdir(parents=True)`, `sorted` |
| `PlatformUtils` | platform_utils.dfy | core/platform_utils.py |
| `ConfigManager` | config_manager.dfy | core/config_manager.py |
| `FileManager` | file_manager.dfy | core/file_manager.py |
| `AudioProcessor` | audio_processor.dfy | core/audio_processor.py |
| `Transcriber` | transcriber.dfy | core/transcriber.py |
| `Processor` | processor.dfy | `MP4ToTextProcessor` in mp4_to_text.py |
| `AutoProcess` | auto_process.dfy | auto_process.py |

Modelling choices:

- **Timestamps.** These are integer milliseconds. Durations, processing times and ratios are `real`.
- **History.** The ledger is a map keyed by the video path alone; an mtime is not part of the key. Its counters count attempts, not distinct files.
- **Shutdown flag.** The cancellation flag is a `Cancel` value: the set of flag reads, numbered in order, at which a signal has arrived. Every check of `_shutdown_requested` consumes one read.
- **Exceptions.** An exception that escapes `process_single_file` is a `Failure` result. This happens when `mark_processed` itself raises inside the `except` block.

## Model

| member | source | states |
|---|---|---|
| PlatformUtils.Flags | core/platform_utils.py:30-34 | each OS flag holds exactly when the lower-cased system name is `windows`, `darwin` or `linux` |
| PlatformUtils.AtMostOneFlag | core/platform_utils.py:31-34 | for any system name, at most one of the three flags holds |
| PlatformUtils.ExecutableExtension | core/platform_utils.py:136-138 | the extension is `.exe` exactly on Windows and empty everywhere else |
| PlatformUtils.DetectDevice | core/platform_utils.py:48-83 | cuda iff torch and CUDA are available; mps iff torch and MPS are available and CUDA is not; otherwise cpu; the reported availability flags agree with the chosen device |
| PlatformUtils.RecommendedWorkers | core/platform_utils.py:164-183 | the worker count is always between 1 and 4, whether or not the CPU count or memory is known |
| PlatformUtils.WorkersWithMemory | core/platform_utils.py:167-176 | with total memory known, the count is the least of the CPU count, 4, and one worker per 4 GB (at least one) |
| PlatformUtils.WorkersWithoutPsutil | core/platform_utils.py:177-180 | without psutil, the count is `min(cpu // 2, 2)` above two CPUs and 1 otherwise; from four CPUs on, it is 2 |
| PlatformUtils.EstimateModelMemory | core/platform_utils.py:185-196 | the estimate is positive and between 1 and 10 GB; an unknown model gets 5 GB |
| PlatformUtils.MemoryTableMonotone | core/platform_utils.py:187-195 | a later model in the size order never needs less memory than an earlier one |
| ConfigManager.CatalogueSizes | core/config_manager.py:53-122 | there are seven Whisper models and thirteen languages, including the defaults `medium` and `auto` |
| ConfigManager.RecommendedModel | core/config_manager.py:175-194 | the result is a catalogue model; unknown memory gives `medium`; `large-v3` exactly from 12 GB up; `tiny` exactly below 2 GB |
| ConfigManager.RecommendedModelMonotone | core/config_manager.py:179-194 | more memory never gives a smaller model, and from 1 GB up the recommended model's memory estimate fits in the available memory |
| ConfigManager.DefaultConfig | core/config_manager.py:157-173 | the default configuration uses the detected device, the model recommended for the available memory, the worker count it is given, language `auto`, empty directories, the default audio settings, and the given log file with level INFO |
| ConfigManager.CheckArgs | core/config_manager.py:248-258 | an update is rejected iff a given model is outside the catalogue or a given language is unsupported; the model check comes first, and each rejection carries its message |
| ConfigManager.UpdateFromArgs | core/config_manager.py:240-275 | the update's error is exactly the first failing catalogue check |
| ConfigManager.UpdateBeforeChecks | core/config_manager.py:240-252 | the directories are set before any check, so even a rejected update applies them; a known model is applied before the language check |
| ConfigManager.UpdateFailureEffect | core/config_manager.py:240-275 | audio settings and `cleanup_temp` are never touched; after a rejection, language, device, workers and logging are unchanged |
| ConfigManager.UpdateSuccessEffect | core/config_manager.py:242-275 | an accepted update copies every given (truthy) argument and keeps the rest; `verbose` also sets level DEBUG and `quiet` turns off console output |
| ConfigManager.UpdateExample | tests/test_config_manager.py:92-110 | the command-line test's arguments are accepted and give model `small`, language `en`, two workers, verbose and DEBUG |
| ConfigManager.UpdateKeepsCatalogueValues | core/config_manager.py:248-258 | starting from a catalogue model and language, no update can store a model or language outside the catalogues |
| ConfigManager.UpdateWithNoArgs | core/config_manager.py:240-275 | an argument list with nothing set leaves the configuration unchanged and raises nothing |
| ConfigManager.EffectiveDevice | core/config_manager.py:375-380 | the configured device unless it is `auto`, in which case the detected device |
| ConfigManager.ValidateConfig | core/config_manager.py:277-321 | an "invalid model" issue is reported iff the model is not a catalogue key; a missing-FFmpeg issue iff FFmpeg is absent |
| ConfigManager.SaveConfig | core/config_manager.py:323-361 | the file has the three sections, carries model and language verbatim, and has a log-file entry iff a non-empty log file is configured |
| ConfigManager.GetInt | core/config_manager.py:206-206 | a missing key gives the fallback; a present value is read as `int()` reads it, and an unreadable one fails |
| ConfigManager.GetBool | core/config_manager.py:207-208 | a missing key gives the fallback; otherwise `1/yes/true/on` and `0/no/false/off` (case-insensitive, stripped) are the only values read as true and false |
| ConfigManager.LoadProcessing | core/config_manager.py:201-213 | model and language come from the file when present; the file's device applies only when it is not `auto`; the directories are never loaded |
| ConfigManager.LoadConfigFile | core/config_manager.py:196-238 | without a processing section the processing settings are unchanged; the directories are never loaded; a clean load takes the file's model |
| ConfigManager.ReadBackInt | core/config_manager.py:339-339 | an integer written with `str()` reads back as the same integer |
| ConfigManager.ReadBackBool | core/config_manager.py:340-341 | a boolean written with `str()` reads back as the same boolean |
| ConfigManager.ProcessingRoundTrip | core/config_manager.py:334-341 | loading the saved processing section restores model, language, workers and the two flags; the device only when it is not `auto` |
| ConfigManager.AudioRoundTrip | core/config_manager.py:343-348 | loading the saved audio section restores it exactly |
| ConfigManager.LoggingRoundTrip | core/config_manager.py:350-357 | loading the saved logging section restores it, with the log file normalised |
| ConfigManager.SaveLoadRoundTrip | core/config_manager.py:196-238 | save then load raises nothing, restores every saved processing and audio setting (the device unless `auto`) and keeps the loader's directories |
| Text.StripEmptyIffAllSpace | mp4_to_text.py:263-263 | a transcript strips to the empty string iff it consists only of whitespace |
| Text.StripIdempotent | core/transcriber.py:260-260 | stripping an already stripped text changes nothing |
| Text.ParseIntRoundTrip | core/config_manager.py:206-206 | `int(str(i)) == i` for every integer |
| Text.PadNatValue | core/transcriber.py:391-391 | zero-padding a number keeps its value |
| Text.PadNatExact | core/transcriber.py:391-398 | `:02d` of a number below 100 has two digits, `:03d` of one below 1000 has three, and padding never gives fewer digits than the width |
| Paths.StemSuffixSplit | core/file_manager.py:385-386 | a name is its stem followed by its suffix; a suffix is empty or a dot and at least one further character, with no other dot |
| Paths.WithSuffix | core/file_manager.py:139-139 | `with_suffix` succeeds iff the suffix has no `/`, is empty or a dot plus more, and the last part is non-empty; only the last part changes, to its stem plus the suffix |
| Paths.RelativeTo | core/file_manager.py:133-133 | `relative_to` succeeds iff the base is a prefix of the path, and the base followed by the result is the path |
| Paths.Children | auto_process.py:103-103 | a directory's entries are exactly the paths one level below it |
| Paths.Descendants | core/file_manager.py:111-111 | the recursive glob reaches exactly the paths below the directory, the direct entries included |
| Paths.MakeDirs | core/file_manager.py:376-376 | `mkdir(parents=True, exist_ok=True)` fails iff a file stands on the way; it keeps every existing entry and adds only the directory and its ancestors |
| Paths.PathLessOrder | core/file_manager.py:118-118 | the path order `sorted` uses is irreflexive, transitive and total |
| Paths.SortPaths | core/file_manager.py:118-118 | sorting a set of paths gives a strictly increasing sequence of exactly those paths, the only such sequence (`SortedOf`) |
| Paths.SortedHead | core/file_manager.py:118-118 | the first of a sorted list precedes every other path in it |
| Paths.SortedExists | core/file_manager.py:118-118 | every finite set of paths has a strictly increasing listing |
| Paths.SortedUnique | core/file_manager.py:118-118 | two strictly sorted sequences with the same elements are equal, so the sorted order is unique |
| FileManager.VideoNameBySuffix | core/file_manager.py:111-113 | a name is a video iff its lower-cased suffix is one of the ten allowed extensions |
| FileManager.TestNamesQualify | tests/test_file_manager.py:56-69 | of the test's five names, exactly the `.mp4`, `.avi` and `.mov` files qualify |
| FileManager.LoadHistory | core/file_manager.py:61-79 | a missing or unreadable history file gives an empty ledger with zeroed statistics; a readable one is taken as stored |
| FileManager.GetOutputPathAsWritten | core/file_manager.py:120-145 | a video outside the input directory makes the method raise, because `with_suffix` is called on a string |
| FileManager.GetOutputPath | core/file_manager.py:120-145 | the output path is the output directory followed by the relative path with its suffix replaced, and it exists iff that replacement succeeds |
| FileManager.OutputPathAgreesInside | core/file_manager.py:131-145 | for videos inside the input directory, the corrected method and the code as written agree |
| FileManager.OutputPathFallbackDefect | core/file_manager.py:134-139 | for a named video outside the input directory, the code as written raises while the corrected method gives `output_dir/stem.ext` |
| FileManager.OutputPathMirrors | core/file_manager.py:131-145 | inside the input directory, the output keeps every subdirectory and the stem and takes the new extension |
| FileManager.IsProcessed | core/file_manager.py:173-203 | false without `skip_existing`; true iff the output exists with size > 0 and the ledger has a successful entry for the video's path |
| FileManager.OutputAloneIsNotProcessed | core/file_manager.py:192-203 | with an empty ledger a video never counts as processed, however its output file looks |
| FileManager.Count | core/file_manager.py:234-243 | an attempt adds one to the total and exactly one to `successful` or `failed` |
| FileManager.MarkProcessed | core/file_manager.py:205-246 | the entry for the video is replaced and no other entry changes; it stores the outcome, the output path, the model, and the error only on failure; totals, durations and times grow by this attempt |
| FileManager.MarkKeepsConsistent | core/file_manager.py:234-243 | `total_processed = successful + failed` is preserved by every attempt |
| FileManager.GetProcessingStats | core/file_manager.py:248-250 | the returned counters satisfy `total = successful + failed` whenever the ledger's do |
| FileManager.ProcessedAfterSuccess | core/file_manager.py:192-203 | right after recording an attempt, the video counts as processed iff the attempt succeeded and its output exists and is non-empty |
| FileManager.MarkAllCounts | core/file_manager.py:234-243 | a run of attempts adds its length to the total, its successes to `successful` and the rest to `failed` |
| FileManager.MarkAllKeys | core/file_manager.py:219-228 | after a run of attempts the ledger's keys are the old keys plus the attempted videos |
| FileManager.StatisticsExample | tests/test_file_manager.py:125-139 | one success and one failure on a fresh ledger give 2 processed, 1 successful, 1 failed, 100 s of video and 30 s of processing |
| FileManager.ScanVideos | core/file_manager.py:89-118 | a missing root fails first, then a non-directory root; otherwise the result is exactly the video files in scope, strictly sorted |
| FileManager.ShallowScanWithinDeep | core/file_manager.py:108-113 | the non-recursive scan finds a subset of the recursive one, and every file found lies below the root |
| FileManager.FreeCounter | core/file_manager.py:382-388 | the counter loop stops at the first free `stem_k.suffix` |
| FileManager.MoveTarget | core/file_manager.py:378-388 | the target does not exist yet and lies in the destination; it is `dest/name` if free, otherwise the first free `stem_k.suffix` from k = 1 |
| FileManager.MoveProcessedFile | core/file_manager.py:360-399 | the move happens iff the destination can be made and the video is a file; it never overwrites, moves the node unchanged, removes the source and leaves every other entry alone |
| FileManager.MoveKeepsEverythingElse | core/file_manager.py:379-392 | a move keeps the number of files |
| FileManager.SortNewestFirst | core/file_manager.py:268-269 | the temp files are reordered, newest first, without losing or adding any |
| FileManager.KeptTempFiles | core/file_manager.py:267-274 | the kept files number `min(keep_recent, n)` when positive, none otherwise |
| FileManager.TempFilesToDelete | core/file_manager.py:267-274 | with a non-positive `keep_recent` every temp file is deleted, otherwise all but the newest `keep_recent` |
| FileManager.TempSelectionSplit | core/file_manager.py:267-274 | kept and deleted files together are the listed files, and every kept file is at least as new as every deleted one |
| FileManager.DeleteFiles | core/file_manager.py:276-283 | exactly the listed regular files disappear; other entries keep their nodes; the count is the number removed |
| FileManager.SurvivorsWereKept | core/file_manager.py:264-283 | a temp WAV that was not selected for deletion is among the kept ones |
| FileManager.OnlyTempWavsDeleted | core/file_manager.py:263-283 | cleanup removes nothing but regular `.wav` files in the audio temp directory |
| FileManager.AtMostKeptRemain | core/file_manager.py:267-283 | with a positive `keep_recent`, at most that many temp WAVs remain |
| FileManager.KeptSurvive | core/file_manager.py:267-272 | over a sorted listing, no file is both among the `keep_recent` newest and among those to delete |
| FileManager.UniquePathsSplit | core/file_manager.py:267-272 | when a listing names each path once, no path is both kept and deleted |
| FileManager.ExactlyKeptRemain | core/file_manager.py:264-283 | a temp WAV survives the deletion exactly when it is one of the kept ones |
| FileManager.CleanupOutcomeEffects | core/file_manager.py:252-289 | with the audio temp directory present, only temp WAVs go: all of them with `keep_recent <= 0`; otherwise exactly the ones not among the `keep_recent` newest, so at most `keep_recent` remain |
| FileManager.CleanupTempFiles | core/file_manager.py:252-289 | nothing happens without the audio temp directory; only temp WAVs go; all of them with `keep_recent <= 0`; otherwise a temp WAV stays exactly when it is among the `keep_recent` newest, so at most `keep_recent` remain; the count is the number deleted |
| FileManager.TallyShape | core/file_manager.py:340-352 | adding a file adds one to the count and its size to the total, and appends its extension only when it is new |
| FileManager.GroupByExtension | core/file_manager.py:336-352 | the per-extension counts add up to the number of files, and the sizes to the total size |
| FileManager.TallyAt | core/file_manager.py:341-351 | counting a video changes an entry only when it is the first with the video's extension, by one and by the size |
| FileManager.TallyNew | core/file_manager.py:342-343 | a new extension gets a last entry with count 1 and the video's size |
| FileManager.TallyEntries | core/file_manager.py:341-351 | counting a video changes only its extension's entry, by one and by its size, or appends a new entry with count 1 |
| FileManager.GroupTallies | core/file_manager.py:336-352 | each entry's count and size are the number and total size of the files with that extension (`CountOf`, `SizeOf`); an extension without an entry has no files |
| FileManager.GroupFormatsDistinct | core/file_manager.py:342-344 | each extension is listed once |
| FileManager.GroupFormatsExactly | core/file_manager.py:340-344 | the listed extensions are exactly those of the files |
| FileManager.Summarize | core/file_manager.py:332-358 | the summary's total count and size equal the sums over the extensions; each entry holds the number and total size of the videos with its extension |
| FileManager.SummaryFormats | core/file_manager.py:340-358 | the summary lists each extension of the scanned videos once and no other |
| FileManager.CountOfVideos | core/file_manager.py:340-351 | over a sorted scan, the count of an extension is the number of distinct videos with it |
| FileManager.VideoFilesSummary | core/file_manager.py:332-358 | the summary fails as the scan does; otherwise it summarises the sorted videos below the root, grouped by distinct extension, each entry counting the videos with its extension, consistently with the totals |
| AudioProcessor.Fraction | core/audio_processor.py:376-381 | a progress value never exceeds 1, is non-negative for a non-negative time, and is the exact `N/1e6/total` below the cap |
| AudioProcessor.Interpret | core/audio_processor.py:366-388 | at most one value per line, none above 1; an end marker stops the fold with 1.0 as the last value; without a known duration only the end marker emits |
| AudioProcessor.InterpretAppend | core/audio_processor.py:366-388 | interpreting two line sequences in turn equals interpreting their concatenation |
| AudioProcessor.MonitorAppend | core/audio_processor.py:366-388 | once `progress=end` is read later lines are ignored; otherwise the values of consecutive chunks are concatenated |
| AudioProcessor.ClassifyProgressLine | core/audio_processor.py:374-376 | the line `out_time_ms=N` is read as the integer N |
| AudioProcessor.ProgressLineRead | core/audio_processor.py:374-381 | an `out_time_ms=N` line emits exactly the capped fraction for N |
| AudioProcessor.EndLineStops | core/audio_processor.py:386-388 | a `progress=end` line emits exactly 1.0 and nothing after it is read |
| AudioProcessor.ProgressCanDecrease | core/audio_processor.py:379-381 | two successive progress lines can emit a decreasing pair, so progress is not monotone |
| AudioProcessor.MonitorProcess | core/audio_processor.py:362-406 | the reported progress is the fold over the lines, and the run fails iff the return code is non-zero |
| AudioProcessor.FindDuration | core/audio_processor.py:185-185 | the search finds the leftmost `Duration: HH:MM:SS.cc` match from a position, or reports none |
| AudioProcessor.DurationCentis | core/audio_processor.py:184-188 | there is no duration iff no position matches; otherwise it is the value at the leftmost match |
| AudioProcessor.DurationSeconds | core/audio_processor.py:184-188 | the duration is non-negative, and 0 when the pattern is absent |
| AudioProcessor.DurationRoundTrip | core/audio_processor.py:184-188 | a printed `Duration: HH:MM:SS.cc` reads back as `h*3600 + m*60 + s + cc/100` seconds, whatever follows |
| AudioProcessor.VideoInfoOf | core/audio_processor.py:165-211 | audio (video) is reported iff stderr contains `Audio:` (`Video:`); the size is the file's size; a raising probe gives the all-zero record; the duration is non-negative |
| AudioProcessor.ValidateVideoFile | core/audio_processor.py:446-475 | a file is valid iff it exists as a non-empty regular file with an audio stream and a positive duration; valid iff the message is empty; a missing file reports that it does not exist |
| AudioProcessor.ValidationIsFirstFailure | core/audio_processor.py:453-472 | validation reports exactly the first failing check, in the order exists, is file, non-empty, has audio, has duration |
| AudioProcessor.DefaultAudioPath | core/audio_processor.py:230-232 | the default audio output lies in the temp directory and is named by the video's stem and the output format |
| AudioProcessor.SameStemSameAudioPath | core/audio_processor.py:230-232 | two videos with the same stem, in different directories or with different extensions, share one temp audio path |
| AudioProcessor.RunFfmpeg | core/audio_processor.py:314-337 | progress appears only for a monitored run with a known duration and never exceeds 1; an exited run fails iff its return code is non-zero; a raised run fails with its message |
| AudioProcessor.Unlinked | core/audio_processor.py:344-350 | removing a partial output removes only that file and leaves no file at that path |
| AudioProcessor.ExtractAudio | core/audio_processor.py:213-249 | a missing video raises FileNotFoundError and a silent one ValueError, both before FFmpeg runs; success iff FFmpeg exits 0 with a non-empty output; any later failure is a RuntimeError that leaves no output file; nothing but the target changes |
| AudioProcessor.CleanupTempAudio | core/audio_processor.py:438-444 | the audio file is removed iff it is a file directly in the temp directory; nothing else changes and nothing is raised |
| AudioProcessor.ExtractThenCleanup | core/audio_processor.py:438-444 | cleaning up a freshly extracted default output gives back the original filesystem without that path |
| Transcriber.ClockOf | core/transcriber.py:387-391 | the clock fields are normalised (minutes and seconds below 60, milliseconds below 1000) and add up to the timestamp |
| Transcriber.ClockUnique | core/transcriber.py:387-391 | a normalised clock is the only clock for its total |
| Transcriber.StampRoundTrip | core/transcriber.py:393-405 | an SRT or WebVTT timestamp reads back as the milliseconds it was made from |
| Transcriber.HmsTruncates | core/transcriber.py:387-391 | the plain `hh:mm:ss` timestamp reads back as the whole seconds, the milliseconds truncated |
| Transcriber.SrtVttDiffer | core/transcriber.py:393-405 | the SRT and WebVTT timestamps have the same length and differ only in the `,` vs `.` before the milliseconds |
| Transcriber.TimestampExample | core/transcriber.py:393-405 | 3725.25 s prints as `01:02:05,250` and `01:02:05.250` |
| Transcriber.WordProbabilities | core/transcriber.py:255-255 | one score per word, in order, with 0.0 for a missing probability |
| Transcriber.Confidences | core/transcriber.py:251-256 | the scores number the words of all segments |
| Transcriber.ConfidencesAt | core/transcriber.py:251-256 | word `j` of segment `i` has its probability (0.0 when missing) at the offset counting the words of all earlier segments |
| Transcriber.ConfidencesAppend | core/transcriber.py:251-256 | the scores of concatenated segments are the concatenated scores, so segment order is kept |
| Transcriber.Transcribe | core/transcriber.py:192-292 | a missing audio file and an unloadable model raise; an engine exception gives the empty result; otherwise the text is the engine's text stripped, the segments are the engine's, the duration is the last segment's end, the language falls back to the requested one, and the scores are the word probabilities in order |
| Transcriber.TranscribedResult | core/transcriber.py:251-260 | a transcription has no text exactly when the engine's text was all whitespace, and each word's probability sits at its place among all words |
| Transcriber.LanguageOption | core/transcriber.py:225-226 | a language is passed to Whisper iff it is neither `auto` nor empty |
| Transcriber.RenderTxt | core/transcriber.py:322-334 | without timestamped segments the output is the text, plus one newline iff the text is non-empty and does not already end in one |
| Transcriber.TxtIsLines | core/transcriber.py:325-330 | with timestamps and segments, the output is one `[start --> end] text` line per segment |
| Transcriber.RenderSrt | core/transcriber.py:336-347 | no segments give an empty file |
| Transcriber.SrtNumbered | core/transcriber.py:336-347 | the SRT file is the cue blocks numbered 1..n in segment order |
| Transcriber.SrtAppend | core/transcriber.py:339-347 | the blocks of later segments continue the numbering of earlier ones |
| Transcriber.RenderVtt | core/transcriber.py:349-361 | the file always starts with `WEBVTT` and a blank line, and is only that without segments |
| Transcriber.VttCuesAre | core/transcriber.py:349-361 | after the header the WebVTT file is one unnumbered cue per segment, in order |
| Transcriber.JsonMetadata | core/transcriber.py:377-381 | the metadata counts the segments and the words, and the average confidence is 0 without scores |
| Transcriber.AverageInUnitRange | core/transcriber.py:378-378 | with scores in [0, 1], the average confidence is in [0, 1] |
| Transcriber.MetadataCountsScores | core/transcriber.py:377-381 | for a transcription result the word count equals the number of confidence scores |
| Transcriber.SaveResult | core/transcriber.py:294-320 | an unknown format and a write error both raise RuntimeError with the save prefix; otherwise the file has the chosen format, WebVTT with its header and JSON with the segment count |
| Transcriber.FirstFitting | core/transcriber.py:498-501 | the first model whose memory fits, or none iff no model fits |
| Transcriber.FirstFittingIsFirst | core/transcriber.py:498-501 | the model picked is the first fitting one in the list |
| Transcriber.GetRecommendedModel | core/transcriber.py:488-503 | unknown memory gives `medium`; any result other than `tiny` fits in the available memory |
| Transcriber.MemoryTablesAgree | core/transcriber.py:51-59 | the transcriber's memory table agrees with the platform estimate for every model |
| Transcriber.RecommendationThresholds | core/transcriber.py:498-503 | from 10 GB large-v3, from 8 large, from 5 medium, from 3 small, from 2 base, else tiny |
| Transcriber.RecommendationsCompared | core/transcriber.py:488-503 | the transcriber and the configuration recommend the same model except between 10 and 12 GB, where they give large-v3 and large |
| Processor.AudioPath | mp4_to_text.py:240-243 | the pipeline's temp audio lies in the audio processor's temp directory |
| Processor.SaveText | mp4_to_text.py:275-276 | saving with the defaults writes the plain text as UTF-8 and changes nothing else; it succeeds iff the parent can be made, the target is not a directory and the write does not fail |
| Processor.TryBlockOf | mp4_to_text.py:214-311 | the try block ends in validation failure, shutdown after extraction, no text or completion, each with its ledger effect, or it raises |
| Processor.TranscribeAndSave | mp4_to_text.py:257-311 | after extraction, no text records the failure and removes the temp audio; otherwise the result is saved and recorded |
| Processor.SaveAndRecord | mp4_to_text.py:274-311 | a saved result is recorded as a success with its effects |
| Processor.CleanedUp | mp4_to_text.py:278-280 | with `cleanup_temp` the temp audio goes; without it the filesystem is untouched |
| Processor.AfterSave | mp4_to_text.py:278-299 | after saving, a success entry is recorded; without a move, the output stays and the temp audio goes only with `cleanup_temp` |
| Processor.ProcessSingleFile | mp4_to_text.py:198-328 | the flag on entry changes nothing but the flag read; otherwise `processed` grows by one; True iff completed; only completion grows `successful` and the totals; only the except path grows `failed`; only the output-path error escapes |
| Processor.ValidationFailureRecorded | mp4_to_text.py:216-222 | a validation failure records the validator's message, returns False, leaves the files alone and does not count as failed |
| Processor.ExtractionFailureRecorded | mp4_to_text.py:313-325 | an extraction failure records its message with the video's duration, returns False and counts as failed |
| Processor.FailedMeansFailureEntry | mp4_to_text.py:313-325 | whenever the except path runs, the ledger holds a failure entry naming the configured model |
| Processor.NoTextRecorded | mp4_to_text.py:263-272 | an empty transcript records "No text extracted from audio", removes the temp audio, returns False and does not count as failed |
| Processor.ShutdownAfterExtractionCleans | mp4_to_text.py:245-247 | a shutdown seen after extraction removes the temp audio, writes no ledger entry and returns False |
| Processor.CompletedRecorded | mp4_to_text.py:282-288 | a completed file has a success entry with its output path, its duration and its processing time |
| Processor.CompletedFiles | mp4_to_text.py:275-299 | without a move, a completed file's output exists; the temp audio is removed iff `cleanup_temp` |
| Processor.EscapesIffNoOutputPath | mp4_to_text.py:313-328 | past the entry check, an exception escapes iff the output path cannot be derived and the run did not stop after extraction |
| Processor.StepIsSound | mp4_to_text.py:198-328 | one file's processing reads the flag, keeps the counters balanced and touches only that video's ledger entry |
| Processor.Sequential | mp4_to_text.py:366-378 | the loop handles a prefix of the list, in order; True means every file was handled; the counters stay balanced; the ledger changes only for handled files |
| Processor.ProcessSequential | mp4_to_text.py:366-378 | the sequential batch over `process_single_file` keeps those guarantees |
| Processor.SequentialUnfold | mp4_to_text.py:371-376 | with the flag clear, the loop processes the first file and continues with the rest |
| Processor.SequentialWithoutShutdown | mp4_to_text.py:366-378 | without a signal the loop handles every file and returns True |
| Processor.ProcessSequentialWithoutShutdown | mp4_to_text.py:366-378 | without a signal, and with no exception escaping any file, `_process_sequential` handles every file and returns True |
| Processor.FilterOut | mp4_to_text.py:179-183 | the kept files are exactly those whose check is False; the filter fails iff some check raises |
| Processor.SkipProcessed | mp4_to_text.py:179-183 | the skip filter keeps exactly the files not yet processed and keeps the order |
| Processor.GetVideoFiles | mp4_to_text.py:172-196 | a bad input directory fails; otherwise the list is sorted, holds exactly the videos below the input directory not already processed, and sets `total_files` to its length; it is the list `VideoList` describes |
| Processor.ProcessBatch | mp4_to_text.py:330-364 | a failed setup or model load returns False at once; a failing file listing propagates with nothing changed; an empty list returns True with nothing changed; otherwise the result is the sequential run's, and with `cleanup_temp` set and no exception the files afterwards are the run's with temp files cleaned up with `keep_recent = 5`; without a signal or an escaping exception the batch returns True; counters stay balanced; `skipped` never changes; on True the processed count grows by the list's length; new ledger keys are videos under the input directory |
| Processor.FinalSummary | mp4_to_text.py:417-450 | the success rate is shown iff something was processed, the RTF iff there is duration, and the per-file average iff something succeeded |
| Processor.SuccessRateIsPercentage | mp4_to_text.py:433-435 | the success rate lies in [0, 100] and is 100 iff every processed file succeeded |
| Processor.ExitCode | mp4_to_text.py:601-601 | the exit status is 0 iff the batch returned True, and 1 otherwise |
| Processor.CleanupSetting | mp4_to_text.py:585-586 | temp files are cleaned iff the configuration asks for it and `--no-cleanup` is absent |
| AutoProcess.LayoutOf | auto_process.py:75-82 | the three directories are distinct and lie next to the script |
| AutoProcess.MakeDir | auto_process.py:85-87 | `mkdir(exist_ok=True)` succeeds iff the directory exists or is absent with an existing parent; only that directory is added |
| AutoProcess.ValidateDirectories | auto_process.py:75-95 | the three directories are made in order; with the script directory present this succeeds iff nothing else stands in their place; nothing else changes |
| AutoProcess.ValidateIdempotent | auto_process.py:85-87 | making the directories a second time changes nothing |
| AutoProcess.CheckVideosTodo | auto_process.py:98-107 | the todo list is sorted, holds only direct entries of the directory, and keeps exactly the regular files with an allowed suffix |
| AutoProcess.TodoAgreesWithScan | auto_process.py:100-107 | the todo list equals the file manager's non-recursive scan and lies within the recursive one |
| AutoProcess.Override | auto_process.py:217-222 | a non-empty option replaces the configured value |
| AutoProcess.SettingsFor | auto_process.py:210-244 | the processor reads `videos_todo` and writes `results`; `move_to_done` is `not --no-move`; `done_dir` is `videos_done`; cleanup is off with `--no-cleanup` |
| AutoProcess.MovesUnlessNoMove | auto_process.py:239-244 | completed videos are moved to `videos_done` exactly when `--no-move` is absent |
| AutoProcess.DefaultsOverrideConfig | auto_process.py:128-134 | the option defaults `medium`, `auto`, `auto` always override the configuration file's model, language and device |
| AutoProcess.Prepare | auto_process.py:168-201 | the information options return 0 before touching anything; a directory that cannot be made gives 1; an empty todo list gives 0; otherwise the list is non-empty |
| AutoProcess.AutoMain | auto_process.py:168-296 | the status is 0 or 1; 1 without a processor only when the directories cannot be made; a processor runs only on a non-empty todo list, with the derived settings, and the status is 0 iff its batch returned True |

## Left out

- **Concurrency.** `_process_concurrent` is not modelled: its thread pool updates `stats` and the history without a lock. `process_batch` is modelled as always taking the sequential path. `auto_process.py` always passes one worker (default `--workers 1`), so it always runs sequentially. Signal handlers appear only as the `Cancel` schedule of flag reads.
- **Engines.** FFmpeg, Whisper, torch and psutil are parameters, not code.
  - The FFmpeg probe output and each FFmpeg run's outcome are inputs.
  - Whisper's raw result or exception, and whether the model loads, are inputs.
  - The memory and CPU probes are inputs.
  - `_find_ffmpeg`, `_load_whisper_model` and the `ffmpeg-python` routes of `extract_audio` (with its audio filters) and of `get_video_info` are not modelled; the subprocess routes are. setup.py lists `ffmpeg-python`, so an installed system takes the other route.
  - The audio-codec regular expression of `_get_video_info_subprocess` and `get_audio_info` are not modelled; only the audio flag is.
- **Setup checks.** `validate_input_directory`, `validate_output_directory` and the `os.access` checks behind `_validate_setup` are one boolean input of `ProcessBatch`, and so is the model load.
- **FileManager construction.** `_ensure_directories` is not modelled. `AutoMain` receives the ledger the `FileManager` loads, not the history file.
- **Writing the history file.** `_save_processing_history` is not modelled; the ledger is the in-memory map. A JSON write error is therefore not an outcome of `mark_processed`.
- **Unused naming.** `get_temp_audio_path` and `_get_file_hash` (MD5) are not modelled, because the pipeline never calls them.
- **Presentation.** Printing, colours, tqdm and logging setup are not modelled. Neither are the header and the configuration summary, or the listing of results and moved files at auto_process.py:264-281.
- **Timing.** Wall-clock timing (`start_time`, total time) is out. Each file's processing time is one elapsed value, used both for the ledger and for `stats`.
- **Probe reuse.** One probe value stands for all three FFmpeg probes of a file: validation, `get_video_info` and `extract_audio`.
- **Floating point.** Timestamps are integer milliseconds, so the float truncation in `int((seconds % 1) * 1000)` is not modelled. Averages, rates and durations are exact reals.
- **Strings and encodings.**
  - `Text.Lower` folds ASCII letters only.
  - `int()` is modelled without underscores and non-ASCII digits.
  - ConfigParser interpolation and JSON encoding are not modelled.
  - `Path.resolve` and `expanduser` in `normalize_path` are the `normalize` parameter of `ConfigManager.UpdateFromArgs`.
- **Glob order.** Directory listing order is taken to be sorted. This changes nothing for scans, because the code sorts them. It does matter for `cleanup_temp_files`: its sort by modification time is stable, so among files with equal times the listing order decides which are kept. The model fixes that order to sorted order (`FileManager.TempListing`).
- **Exit 130.** `KeyboardInterrupt` in `main` (exit 130) is not modelled. Nor is the generic `except` giving exit 1 for errors other than a directory that cannot be made.
- **Command line.** The `main` of mp4_to_text.py is modelled only through `ExitCode` and `CleanupSetting`; its argument parsing is not. In auto_process.py, `--workers`, `--verbose` and `--quiet` are not carried into the settings. An empty `done_dir` is treated like `None`.
- AudioProcessor.VideoInfoOf: this is `_get_video_info_subprocess`. `get_video_info` takes it only when `ffmpeg-python` cannot be imported (core/audio_processor.py:114-117). Otherwise it reads the streams of `ffmpeg.probe`, which is not modelled.
- FileManager.GetOutputPath: this is the branch without `pathvalidate`. When it is installed (setup.py lists it), core/file_manager.py:142-143 passes the whole relative output name through `sanitize_filename`. That also removes the `/` between sub-directories. The sanitiser is not modelled, so `FileManager.OutputPathMirrors` holds only without it.
- Transcriber.GetRecommendedModel: when no memory figure is passed it probes memory itself; the model takes the probe's result as its input, with `None` meaning the probe found nothing.
- Processor.ProcessSequential: a file that escapes with an exception ends the run, as it does in the code. The model does not say which later files would have been reached had the exception been caught higher up.
- FileManager.IsProcessed: this follows the code: a successful ledger entry is required. tests/test_file_manager.py:97-101 expects a bare output file to count as processed; `FileManager.OutputAloneIsNotProcessed` states the opposite, which is what the code does.
- **Validation failures.** A validation failure increments `processed` but not `failed`; `Processor.ValidationFailureRecorded` states this. So `successful + failed` can stay below `processed`, and `Balanced` is an inequality.
- **`skipped`.** The `skipped` counter is never incremented by the code; `ProcessBatch` states that it keeps its value.
- **Audio format key.** The configuration's audio section stores `format`, while `AudioProcessor` reads `output_format`. Its settings are therefore a separate `AudioSettings` value, not derived from `ConfigManager`.
- **Temp directories.** `cleanup_temp_files` scans `temp_dir/audio`, while extraction writes into the audio processor's own temp directory. They are modelled as two directories (`AudioTempDir` and `audioTempDir`), as the code has them.

## Findings

| source | as written | input that shows it | evidently intended | confidence | as-written member | corrected member |
|---|---|---|---|---|---|---|
| core/file_manager.py:131-139 | when the video is not under `input_dir`, the fallback assigns `video_path.name` (a `str`) and then calls `.with_suffix` on it, which raises `AttributeError` | `input_dir = /in`, video `/elsewhere/clip.mp4`, extension `.txt` | `output_dir/clip.txt`: the file name with its suffix replaced, directly in the output directory | not executed | FileManager.GetOutputPathAsWritten | FileManager.GetOutputPath |

`FileManager.OutputPathFallbackDefect` proves both halves for every such input: the code as written raises, and the corrected method gives `output_dir/stem.ext`. `FileManager.OutputPathAgreesInside` proves the two definitions agree for every video inside the input directory. The rest of the model, the pipeline included, uses `FileManager.GetOutputPath`. With it, `mark_processed` raises only when no output path can be derived at all (a video path with an empty name); `Processor.EscapesIffNoOutputPath` states when such an exception escapes `process_single_file`.
