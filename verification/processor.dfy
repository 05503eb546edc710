/** `MP4ToTextProcessor`: one video through validation, audio extraction,
    transcription, saving, the ledger and the optional move, with the
    `stats` counters it keeps; the skip filter of the file list; the
    sequential batch with its shutdown checks; the guards of the final
    summary; the exit status of `main`. FFmpeg, Whisper, the clock and write
    failures arrive as an `Engines` record per video, and the shutdown flag
    as a `Cancel` schedule. */
module Processor {
  import opened Wrappers
  import opened Text
  import opened Paths
  import opened Errors
  import FileManager
  import AudioProcessor
  import Transcriber

  // ---------------------------------------------------------------- state

  /** The `stats` dictionary, without `start_time` (a clock reading). */
  datatype Stats = Stats(
    totalFiles: nat, processed: nat, successful: nat, failed: nat, skipped: nat,
    totalDuration: real, totalProcessingTime: real)

  const ZeroStats := Stats(0, 0, 0, 0, 0, 0.0, 0.0)

  /** Every success and every failure counted was also counted as processed. */
  predicate Balanced(s: Stats) {
    s.successful + s.failed <= s.processed
  }

  /** When the shutdown flag goes up: never, or from the `read`-th time it is
      read (counting from 0). A signal handler only ever sets it, so once a
      read sees it, every later read does too. */
  datatype Cancel = Never | From(read: nat)

  /** The value of `_shutdown_requested` at read number `flagReads`. */
  predicate Requested(c: Cancel, flagReads: nat) {
    c.From? && c.read <= flagReads
  }

  /** Everything a run changes: the filesystem, the processing ledger, the
      counters, and how often the flag has been read. */
  datatype State = State(fs: FileSystem, history: FileManager.History, stats: Stats, flagReads: nat)

  /** What the processor is configured with: the directories of its
      `FileManager`, the temporary directory and settings of its
      `AudioProcessor`, the transcription options, `cleanup_temp`, the move
      options (`done_dir` absent or empty as `None`), and the timestamp the
      ledger writes. */
  datatype Settings = Settings(
    dirs: FileManager.Dirs, audioTempDir: Path, audio: AudioProcessor.AudioSettings,
    language: string, model: string, device: string,
    cleanupTemp: bool, moveToDone: bool, doneDir: Option<Path>, now: string)

  /** What the outside world does while one video is processed: the probe
      and extraction runs, what Whisper returns, how long it takes, whether
      writing the transcript fails (and the text of an `OSError`), the
      modification time of the written transcript, and `time.time() -
      start_time` when the ledger is written. */
  datatype Engines = Engines(
    probe: AudioProcessor.Probe, ffmpeg: AudioProcessor.FfmpegRun, whisper: Transcriber.Engine,
    transcribeTime: real, writeError: Option<string>, osError: string, writtenAt: real, elapsed: real)

  const NoTextMessage := "No text extracted from audio"

  /** Where `extract_audio` puts the audio when no output path is given. */
  function AudioPath(cfg: Settings, video: Path): (r: Path)
    ensures Parent(r) == cfg.audioTempDir
  {
    AudioProcessor.AudioTarget(cfg.audio, cfg.audioTempDir, video, None)
  }

  // ---------------------------------------------------------------- saving

  /** `save_result(result, output_path)` with its defaults (txt, no
      timestamps): the parent directories are made outside the `try`, so a
      failure there raises unwrapped; a failed open or write is re-raised
      with the save prefix. */
  function SaveText(fs: FileSystem, out: Path, result: Transcriber.TranscriptionResult, e: Engines): (r: Result<FileSystem, string>)
    ensures r.Success? ==> IsFile(r.value, out) && r.value[out].size == Utf8Len(Transcriber.RenderTxt(result, false))
    ensures r.Success? ==> forall p :: p in fs && p != out ==> p in r.value && r.value[p] == fs[p]
    ensures r.Success? <==> MakeDirs(fs, Parent(out)).Some? && !IsDir(MakeDirs(fs, Parent(out)).value, out) && e.writeError.None?
    ensures MakeDirs(fs, Parent(out)).Some? && !IsDir(MakeDirs(fs, Parent(out)).value, out) && e.writeError.Some? ==>
      r == Failure(Transcriber.SaveFailurePrefix + e.writeError.value)
  {
    match MakeDirs(fs, Parent(out))
    case None => Failure(e.osError)
    case Some(made) =>
      if IsDir(made, out) then Failure(Transcriber.SaveFailurePrefix + e.osError)
      else
        match Transcriber.SaveResult(result, "txt", false, e.writeError)
        case Failure(err) => Failure(err.message)
        case Success(saved) => Success(made[out := Node(RegularFile, Utf8Len(saved.content), e.writtenAt)])
  }

  // ---------------------------------------------------------------- one video

  /** `h` holds a failure entry for `video` with error text `message`. */
  predicate FailureEntry(h: FileManager.History, video: Path, message: string) {
    video in h.processedFiles && !h.processedFiles[video].success && h.processedFiles[video].error == message
  }

  /** `h` holds a success entry for `video` naming `out` as the transcript. */
  predicate SuccessEntry(h: FileManager.History, video: Path, out: Path, duration: real, time: real) {
    && video in h.processedFiles && h.processedFiles[video].success && h.processedFiles[video].error == ""
    && h.processedFiles[video].outputFile == out
    && h.processedFiles[video].duration == duration && h.processedFiles[video].processingTime == time
  }

  /** The ledger `after` differs from `before` at most in the entry of `video`. */
  predicate Touches(before: FileManager.History, after: FileManager.History, video: Path) {
    && after.processedFiles.Keys <= before.processedFiles.Keys + {video}
    && forall k :: k in before.processedFiles && k != video ==> k in after.processedFiles && after.processedFiles[k] == before.processedFiles[k]
  }

  /** Which `return` of `process_single_file` was taken, or how it left by an
      exception: `Failed` is the `except` branch, `Escaped` an exception
      raised inside the `except` branch itself. */
  datatype Exit = ShutdownOnEntry | Invalid | ShutdownAfterExtraction | NoText | Completed | Failed | Escaped

  /** How the `try` block ended: by a `return`, with the filesystem, ledger
      and flag flagReads at that point, or by an exception, with the filesystem,
      flag flagReads and `video_duration` at that point and the exception's
      text. Every exception leaves the ledger as it was. */
  datatype TryBlock =
    | Returned(fs: FileSystem, history: FileManager.History, flagReads: nat, exit: Exit)
    | Threw(fs: FileSystem, flagReads: nat, duration: real, message: string)

  /** The `try` block up to the second shutdown check: validation (with its
      own ledger entry), the duration probe, extraction with a progress
      callback, and cleanup when shutdown was requested meanwhile. */
  function TryBlockOf(cfg: Settings, c: Cancel, fs: FileSystem, h: FileManager.History, flagReads: nat,
                      video: Path, e: Engines): (t: TryBlock)
    ensures t.Returned? ==> t.exit in {Invalid, ShutdownAfterExtraction, NoText, Completed} && t.flagReads >= flagReads
    ensures t.Returned? ==> Touches(h, t.history, video)
    ensures t.Returned? && t.exit != ShutdownAfterExtraction ==> FileManager.GetOutputPath(cfg.dirs, video, ".txt").Success?
    ensures t.Returned? && t.exit == ShutdownAfterExtraction ==> t.history == h && !IsFile(t.fs, AudioPath(cfg, video))
    ensures t.Returned? && t.exit == NoText ==>
      FailureEntry(t.history, video, NoTextMessage) && !IsFile(t.fs, AudioPath(cfg, video))
    ensures t.Returned? && t.exit == Completed ==>
      CompletedEffects(cfg, fs, t, video, AudioPath(cfg, video), AudioProcessor.VideoInfoOf(fs, video, e.probe).duration, e)
    ensures t.Threw? ==> t.flagReads >= flagReads
  {
    var verdict := AudioProcessor.ValidateVideoFile(fs, video, e.probe);
    if !verdict.valid then
      match FileManager.MarkProcessed(cfg.dirs, h, FileManager.Attempt(video, false, 0.0, 0.0, "", verdict.message), cfg.now)
      case Failure(m) => Threw(fs, flagReads, 0.0, m)
      case Success(h1) => Returned(fs, h1, flagReads, Invalid)
    else
      var duration := AudioProcessor.VideoInfoOf(fs, video, e.probe).duration;
      var x := AudioProcessor.ExtractAudio(fs, cfg.audio, cfg.audioTempDir, video, None, e.probe, e.ffmpeg, true);
      match x.result
      case Failure(err) => Threw(x.fs, flagReads, duration, err.message)
      case Success(audio) =>
        if Requested(c, flagReads) then
          Returned(AudioProcessor.CleanupTempAudio(x.fs, cfg.audioTempDir, audio), h, flagReads + 1, ShutdownAfterExtraction)
        else TranscribeAndSave(cfg, x.fs, h, flagReads + 1, video, audio, duration, e)
  }

  /** The rest of the `try` block: transcription (the model is already
      loaded by the batch) and the empty-text check. */
  function TranscribeAndSave(cfg: Settings, fs: FileSystem, h: FileManager.History, flagReads: nat,
                             video: Path, audio: Path, duration: real, e: Engines): (t: TryBlock)
    requires audio in fs
    ensures t.Returned? ==> t.exit in {NoText, Completed} && t.flagReads == flagReads
    ensures t.Returned? ==> Touches(h, t.history, video) && FileManager.GetOutputPath(cfg.dirs, video, ".txt").Success?
    ensures t.Returned? && t.exit == NoText ==> FailureEntry(t.history, video, NoTextMessage)
    ensures t.Returned? && t.exit == NoText && Parent(audio) == cfg.audioTempDir ==> !IsFile(t.fs, audio)
    ensures t.Returned? && t.exit == Completed ==> CompletedEffects(cfg, fs, t, video, audio, duration, e)
  {
    match Transcriber.Transcribe(fs, audio, cfg.language, cfg.model, cfg.device, true, e.whisper, e.transcribeTime)
    case Failure(err) => Threw(fs, flagReads, duration, err.message)
    case Success(result) =>
      if Strip(result.text) == "" then
        match FileManager.MarkProcessed(cfg.dirs, h, FileManager.Attempt(video, false, duration, e.elapsed, cfg.model, NoTextMessage), cfg.now)
        case Failure(m) => Threw(fs, flagReads, duration, m)
        case Success(h1) => Returned(AudioProcessor.CleanupTempAudio(fs, cfg.audioTempDir, audio), h1, flagReads, NoText)
      else SaveAndRecord(cfg, fs, h, flagReads, video, audio, duration, result, e)
  }

  /** What a completed `try` block has done: a success entry naming the
      transcript, and, unless the video was moved, the transcript in place
      and the temporary audio removed exactly when `cleanup_temp` is set. */
  predicate CompletedEffects(cfg: Settings, fs: FileSystem, t: TryBlock, video: Path, audio: Path, duration: real, e: Engines)
    requires t.Returned?
  {
    && FileManager.GetOutputPath(cfg.dirs, video, ".txt").Success?
    && var out := FileManager.GetOutputPath(cfg.dirs, video, ".txt").value;
    && SuccessEntry(t.history, video, out, duration, e.elapsed)
    && (!(cfg.moveToDone && cfg.doneDir.Some?) ==>
         && (audio != out || !cfg.cleanupTemp ==> IsFile(t.fs, out))
         && (audio != out && cfg.cleanupTemp && Parent(audio) == cfg.audioTempDir ==> !IsFile(t.fs, audio))
         && (audio != out && !cfg.cleanupTemp ==> audio in t.fs))
  }

  /** Saving the transcript, then the rest of the success path. */
  function SaveAndRecord(cfg: Settings, fs: FileSystem, h: FileManager.History, flagReads: nat,
                         video: Path, audio: Path, duration: real, result: Transcriber.TranscriptionResult, e: Engines): (t: TryBlock)
    requires audio in fs
    ensures t.Returned? ==> t.exit == Completed && t.flagReads == flagReads && Touches(h, t.history, video)
    ensures t.Returned? ==> CompletedEffects(cfg, fs, t, video, audio, duration, e)
    ensures t.Threw? ==> t.flagReads == flagReads
  {
    match FileManager.GetOutputPath(cfg.dirs, video, ".txt")
    case Failure(m) => Threw(fs, flagReads, duration, m)
    case Success(out) =>
      match SaveText(fs, out, result, e)
      case Failure(m) => Threw(fs, flagReads, duration, m)
      case Success(saved) =>
        assert audio != out ==> audio in saved;
        AfterSave(cfg, saved, h, flagReads, video, audio, out, duration, e)
  }

  /** The temporary audio removed when `cleanup_temp` is set. */
  function CleanedUp(cfg: Settings, fs: FileSystem, audio: Path): (r: FileSystem)
    ensures forall p :: p != audio ==> (p in r <==> p in fs) && (p in r ==> r[p] == fs[p])
    ensures cfg.cleanupTemp && Parent(audio) == cfg.audioTempDir ==> !IsFile(r, audio)
    ensures !cfg.cleanupTemp ==> r == fs
  {
    if cfg.cleanupTemp then AudioProcessor.CleanupTempAudio(fs, cfg.audioTempDir, audio) else fs
  }

  /** After the transcript is written: cleanup, the success entry, and the
      move when both `move_to_done` and `done_dir` are set. */
  function AfterSave(cfg: Settings, fs: FileSystem, h: FileManager.History, flagReads: nat,
                     video: Path, audio: Path, out: Path, duration: real, e: Engines): (t: TryBlock)
    requires FileManager.GetOutputPath(cfg.dirs, video, ".txt") == Success(out)
    ensures t.Returned? ==> t.exit == Completed && t.flagReads == flagReads && Touches(h, t.history, video)
    ensures t.Returned? ==> SuccessEntry(t.history, video, out, duration, e.elapsed)
    ensures t.Returned? && !(cfg.moveToDone && cfg.doneDir.Some?) ==>
      && (IsFile(fs, out) && (audio != out || !cfg.cleanupTemp) ==> IsFile(t.fs, out))
      && (audio != out && cfg.cleanupTemp && Parent(audio) == cfg.audioTempDir ==> !IsFile(t.fs, audio))
      && (!cfg.cleanupTemp ==> t.fs == fs)
    ensures t.Threw? ==> t.flagReads == flagReads
  {
    var cleaned := CleanedUp(cfg, fs, audio);
    match FileManager.MarkProcessed(cfg.dirs, h, FileManager.Attempt(video, true, duration, e.elapsed, cfg.model, ""), cfg.now)
    case Failure(m) => Threw(cleaned, flagReads, duration, m)
    case Success(h1) =>
      if cfg.moveToDone && cfg.doneDir.Some? then
        Returned(FileManager.MoveProcessedFile(cleaned, video, cfg.doneDir.value).fs, h1, flagReads, Completed)
      else Returned(cleaned, h1, flagReads, Completed)
  }

  /** The result of `process_single_file`: the new state, which way it left,
      and its return value or the text of the exception that escaped it. */
  datatype Processed = Processed(state: State, exit: Exit, returned: Result<bool, string>)

  function Counted(s: Stats): (r: Stats)
    ensures r.processed == s.processed + 1
  {
    Stats(s.totalFiles, s.processed + 1, s.successful, s.failed, s.skipped, s.totalDuration, s.totalProcessingTime)
  }

  function Succeeded(s: Stats, duration: real, time: real): (r: Stats)
    ensures r.successful == s.successful + 1
  {
    Stats(s.totalFiles, s.processed, s.successful + 1, s.failed, s.skipped, s.totalDuration + duration, s.totalProcessingTime + time)
  }

  function FailedOnce(s: Stats): (r: Stats)
    ensures r.failed == s.failed + 1
  {
    Stats(s.totalFiles, s.processed, s.successful, s.failed + 1, s.skipped, s.totalDuration, s.totalProcessingTime)
  }

  /** `process_single_file`. With the flag up on entry nothing happens but
      the read. Otherwise the `finally` counts the call as processed on
      every way out; a success also counts as successful and adds its
      duration and time; the `except` branch records the exception's text
      in the ledger and counts a failure; the other early returns count
      neither. */
  function ProcessSingleFile(cfg: Settings, c: Cancel, s: State, video: Path, e: Engines): (r: Processed)
    ensures Requested(c, s.flagReads) ==>
      r == Processed(State(s.fs, s.history, s.stats, s.flagReads + 1), ShutdownOnEntry, Success(false))
    ensures !Requested(c, s.flagReads) ==> r.state.stats.processed == s.stats.processed + 1 && r.exit != ShutdownOnEntry
    ensures r.returned == Success(true) <==> r.exit == Completed
    ensures r.returned.Failure? <==> r.exit == Escaped
    ensures r.exit == Completed ==>
      && r.state.stats.successful == s.stats.successful + 1 && r.state.stats.failed == s.stats.failed
      && r.state.stats.totalDuration == s.stats.totalDuration + AudioProcessor.VideoInfoOf(s.fs, video, e.probe).duration
      && r.state.stats.totalProcessingTime == s.stats.totalProcessingTime + e.elapsed
    ensures r.exit == Failed ==> r.state.stats.failed == s.stats.failed + 1 && r.state.stats.successful == s.stats.successful
    ensures r.exit != Completed && r.exit != Failed ==>
      && r.state.stats.successful == s.stats.successful && r.state.stats.failed == s.stats.failed
      && r.state.stats.totalDuration == s.stats.totalDuration && r.state.stats.totalProcessingTime == s.stats.totalProcessingTime
    ensures r.state.stats.totalFiles == s.stats.totalFiles && r.state.stats.skipped == s.stats.skipped
    ensures r.state.flagReads > s.flagReads
    ensures Touches(s.history, r.state.history, video)
    ensures FileManager.GetOutputPath(cfg.dirs, video, ".txt").Success? ==> r.exit != Escaped
  {
    if Requested(c, s.flagReads) then Processed(State(s.fs, s.history, s.stats, s.flagReads + 1), ShutdownOnEntry, Success(false))
    else
      var stats := Counted(s.stats);
      match TryBlockOf(cfg, c, s.fs, s.history, s.flagReads + 1, video, e)
      case Returned(fs, h, flagReads, exit) =>
        if exit == Completed then
          var duration := AudioProcessor.VideoInfoOf(s.fs, video, e.probe).duration;
          Processed(State(fs, h, Counted(Succeeded(s.stats, duration, e.elapsed)), flagReads), Completed, Success(true))
        else Processed(State(fs, h, stats, flagReads), exit, Success(false))
      case Threw(fs, flagReads, duration, message) =>
        match FileManager.MarkProcessed(cfg.dirs, s.history, FileManager.Attempt(video, false, duration, e.elapsed, cfg.model, message), cfg.now)
        case Failure(m) => Processed(State(fs, s.history, stats, flagReads), Escaped, Failure(m))
        case Success(h) => Processed(State(fs, h, Counted(FailedOnce(s.stats)), flagReads), Failed, Success(false))
  }

  /** The ledger entry written for `video`. */
  function EntryOf(r: Processed, video: Path): Option<FileManager.Entry> {
    if video in r.state.history.processedFiles then Some(r.state.history.processedFiles[video]) else None
  }

  /** A video that fails validation gets a failure entry carrying the
      validator's message; nothing else changes, and it is not counted as
      failed. */
  lemma ValidationFailureRecorded(cfg: Settings, c: Cancel, s: State, video: Path, e: Engines)
    requires !Requested(c, s.flagReads)
    requires !AudioProcessor.ValidateVideoFile(s.fs, video, e.probe).valid
    requires FileManager.GetOutputPath(cfg.dirs, video, ".txt").Success?
    ensures var r := ProcessSingleFile(cfg, c, s, video, e);
      && r.exit == Invalid && r.returned == Success(false) && r.state.fs == s.fs
      && EntryOf(r, video).Some? && !EntryOf(r, video).value.success
      && EntryOf(r, video).value.error == AudioProcessor.ValidateVideoFile(s.fs, video, e.probe).message
      && r.state.stats.failed == s.stats.failed
  {
  }

  /** An extraction that raises is handled by the `except` branch: a failure
      entry with the exception's text, one more failure counted. */
  lemma ExtractionFailureRecorded(cfg: Settings, c: Cancel, s: State, video: Path, e: Engines)
    requires !Requested(c, s.flagReads)
    requires AudioProcessor.ValidateVideoFile(s.fs, video, e.probe).valid
    requires AudioProcessor.ExtractAudio(s.fs, cfg.audio, cfg.audioTempDir, video, None, e.probe, e.ffmpeg, true).result.Failure?
    requires FileManager.GetOutputPath(cfg.dirs, video, ".txt").Success?
    ensures var r := ProcessSingleFile(cfg, c, s, video, e);
      var x := AudioProcessor.ExtractAudio(s.fs, cfg.audio, cfg.audioTempDir, video, None, e.probe, e.ffmpeg, true);
      && r.exit == Failed && r.returned == Success(false) && r.state.fs == x.fs
      && EntryOf(r, video).Some? && !EntryOf(r, video).value.success
      && EntryOf(r, video).value.error == x.result.error.message
      && EntryOf(r, video).value.duration == AudioProcessor.VideoInfoOf(s.fs, video, e.probe).duration
      && r.state.stats.failed == s.stats.failed + 1
  {
  }

  /** Whatever the exception, the `except` branch writes a failure entry. */
  lemma FailedMeansFailureEntry(cfg: Settings, c: Cancel, s: State, video: Path, e: Engines)
    requires ProcessSingleFile(cfg, c, s, video, e).exit == Failed
    ensures var r := ProcessSingleFile(cfg, c, s, video, e);
      EntryOf(r, video).Some? && !EntryOf(r, video).value.success && EntryOf(r, video).value.modelUsed == cfg.model
  {
  }

  /** A transcript with no text gets the failure entry "No text extracted
      from audio", the temporary audio is removed whatever `cleanup_temp`
      says, and no failure is counted. */
  lemma NoTextRecorded(cfg: Settings, c: Cancel, s: State, video: Path, e: Engines)
    requires ProcessSingleFile(cfg, c, s, video, e).exit == NoText
    ensures var r := ProcessSingleFile(cfg, c, s, video, e);
      && FailureEntry(r.state.history, video, NoTextMessage)
      && !IsFile(r.state.fs, AudioPath(cfg, video))
      && r.state.stats.failed == s.stats.failed && r.returned == Success(false)
  {
  }

  /** A shutdown noticed after extraction removes the temporary audio and
      leaves the ledger alone. */
  lemma ShutdownAfterExtractionCleans(cfg: Settings, c: Cancel, s: State, video: Path, e: Engines)
    requires ProcessSingleFile(cfg, c, s, video, e).exit == ShutdownAfterExtraction
    ensures var r := ProcessSingleFile(cfg, c, s, video, e);
      && r.state.history == s.history
      && !IsFile(r.state.fs, AudioPath(cfg, video))
      && r.returned == Success(false)
  {
  }

  /** A success writes a success entry pointing at the transcript, with no
      error text, the probed duration and the elapsed time. */
  lemma CompletedRecorded(cfg: Settings, c: Cancel, s: State, video: Path, e: Engines)
    requires ProcessSingleFile(cfg, c, s, video, e).exit == Completed
    ensures var r := ProcessSingleFile(cfg, c, s, video, e);
      && FileManager.GetOutputPath(cfg.dirs, video, ".txt").Success?
      && SuccessEntry(r.state.history, video, FileManager.GetOutputPath(cfg.dirs, video, ".txt").value,
           AudioProcessor.VideoInfoOf(s.fs, video, e.probe).duration, e.elapsed)
  {
  }

  /** Without a move, a success leaves the transcript in place, and the
      temporary audio is gone exactly when `cleanup_temp` is set (the video
      stays where it was). */
  lemma CompletedFiles(cfg: Settings, c: Cancel, s: State, video: Path, e: Engines)
    requires ProcessSingleFile(cfg, c, s, video, e).exit == Completed
    requires !(cfg.moveToDone && cfg.doneDir.Some?)
    requires FileManager.GetOutputPath(cfg.dirs, video, ".txt").Success?
    requires AudioPath(cfg, video) != FileManager.GetOutputPath(cfg.dirs, video, ".txt").value
    ensures var r := ProcessSingleFile(cfg, c, s, video, e);
      var out := FileManager.GetOutputPath(cfg.dirs, video, ".txt").value;
      && IsFile(r.state.fs, out)
      && (cfg.cleanupTemp ==> !IsFile(r.state.fs, AudioPath(cfg, video)))
      && (!cfg.cleanupTemp ==> AudioPath(cfg, video) in r.state.fs)
  {
  }

  /** An exception escapes `process_single_file` exactly when the output
      path cannot be derived (so that even the `except` branch's ledger
      write raises), unless shutdown stopped the file first. */
  lemma EscapesIffNoOutputPath(cfg: Settings, c: Cancel, s: State, video: Path, e: Engines)
    requires !Requested(c, s.flagReads)
    ensures var r := ProcessSingleFile(cfg, c, s, video, e);
      r.exit == Escaped <==> FileManager.GetOutputPath(cfg.dirs, video, ".txt").Failure? && r.exit != ShutdownAfterExtraction
  {
  }

  // ---------------------------------------------------------------- the batch

  /** `after` differs from `before` at most in the entries of `handled`. */
  predicate LedgerWithin(before: FileManager.History, after: FileManager.History, handled: seq<Path>) {
    && after.processedFiles.Keys <= before.processedFiles.Keys + Elems(handled)
    && forall k :: k in before.processedFiles && k !in handled ==>
         k in after.processedFiles && after.processedFiles[k] == before.processedFiles[k]
  }

  /** What every call of `process_single_file` guarantees, whatever the
      engines do (see `StepIsSound`). */
  predicate StepSound(c: Cancel, s: State, video: Path, p: Processed) {
    && (Requested(c, s.flagReads) ==>
         p == Processed(State(s.fs, s.history, s.stats, s.flagReads + 1), ShutdownOnEntry, Success(false)))
    && (!Requested(c, s.flagReads) ==> p.state.stats.processed == s.stats.processed + 1)
    && p.state.flagReads > s.flagReads
    && (Balanced(s.stats) ==> Balanced(p.state.stats))
    && p.state.stats.totalFiles == s.stats.totalFiles && p.state.stats.skipped == s.stats.skipped
    && Touches(s.history, p.state.history, video)
  }

  lemma StepIsSound(cfg: Settings, c: Cancel, s: State, video: Path, e: Engines)
    ensures StepSound(c, s, video, ProcessSingleFile(cfg, c, s, video, e))
  {
    var r := ProcessSingleFile(cfg, c, s, video, e);
    assert Balanced(s.stats) ==> Balanced(r.state.stats) by {
      if !Requested(c, s.flagReads) {
        assert r.exit == Completed || r.exit == Failed || (r.exit != Completed && r.exit != Failed);
      }
    }
  }

  /** The result of `_process_sequential`: the state, how many videos were
      handed to `process_single_file`, and its return value or the text of
      an exception that escaped. */
  datatype Run = Run(state: State, handled: nat, returned: Result<bool, string>)

  lemma PrefixCons(xs: seq<Path>, n: nat)
    requires 0 < |xs| && n < |xs|
    ensures xs[..n + 1] == [xs[0]] + xs[1..][..n]
  {
  }

  /** The loop of `_process_sequential` over the per-video call `step`: the
      videos in list order; the flag is read before each one (a raised flag
      ends the loop) and once more for the return value; an exception from
      `step` ends the loop and propagates. */
  function Sequential(c: Cancel, s: State, videos: seq<Path>, step: (State, Path) -> Processed): (r: Run)
    requires forall st, v :: StepSound(c, st, v, step(st, v))
    decreases |videos|
    ensures r.handled <= |videos|
    ensures r.state.flagReads > s.flagReads
    ensures r.state.stats.processed <= s.stats.processed + r.handled
    ensures Balanced(s.stats) ==> Balanced(r.state.stats)
    ensures r.state.stats.totalFiles == s.stats.totalFiles && r.state.stats.skipped == s.stats.skipped
    ensures r.returned == Success(true) ==> !Requested(c, r.state.flagReads - 1)
    ensures r.returned == Success(true) ==> r.handled == |videos| && r.state.stats.processed == s.stats.processed + |videos|
    ensures r.returned.Success? && r.handled < |videos| ==> r.returned == Success(false)
    ensures r.returned.Failure? ==> r.handled > 0
    ensures LedgerWithin(s.history, r.state.history, videos[..r.handled])
  {
    if |videos| == 0 then Run(State(s.fs, s.history, s.stats, s.flagReads + 1), 0, Success(!Requested(c, s.flagReads)))
    else if Requested(c, s.flagReads) then
      Run(State(s.fs, s.history, s.stats, s.flagReads + 2), 0, Success(!Requested(c, s.flagReads + 1)))
    else
      var p := step(State(s.fs, s.history, s.stats, s.flagReads + 1), videos[0]);
      assert StepSound(c, State(s.fs, s.history, s.stats, s.flagReads + 1), videos[0], p);
      if p.returned.Failure? then
        assert videos[..1] == [videos[0]];
        Run(p.state, 1, p.returned)
      else
        var rest := Sequential(c, p.state, videos[1..], step);
        PrefixCons(videos, rest.handled);
        Run(rest.state, rest.handled + 1, rest.returned)
  }

  /** `_process_sequential` with `process_single_file` as the step. */
  /** `process_single_file` as the loop's step. */
  function Step(cfg: Settings, c: Cancel, env: Path -> Engines): (State, Path) -> Processed {
    (st: State, v: Path) => ProcessSingleFile(cfg, c, st, v, env(v))
  }

  function ProcessSequential(cfg: Settings, c: Cancel, s: State, videos: seq<Path>, env: Path -> Engines): (r: Run)
    ensures r.handled <= |videos|
    ensures r.returned == Success(true) ==> r.handled == |videos| && r.state.stats.processed == s.stats.processed + |videos|
    ensures r.returned.Success? && r.handled < |videos| ==> r.returned == Success(false)
    ensures Balanced(s.stats) ==> Balanced(r.state.stats)
    ensures r.state.stats.totalFiles == s.stats.totalFiles && r.state.stats.skipped == s.stats.skipped
    ensures LedgerWithin(s.history, r.state.history, videos[..r.handled])
  {
    var step := Step(cfg, c, env);
    assert forall st, v :: StepSound(c, st, v, step(st, v)) by {
      forall st: State, v: Path ensures StepSound(c, st, v, step(st, v)) {
        StepIsSound(cfg, c, st, v, env(v));
      }
    }
    Sequential(c, s, videos, step)
  }

  /** One turn of the loop: with the flag down and no exception, the run
      over a list is the run over its tail after the first video. */
  lemma SequentialUnfold(c: Cancel, s: State, videos: seq<Path>, step: (State, Path) -> Processed)
    requires forall st, v :: StepSound(c, st, v, step(st, v))
    requires |videos| > 0 && !Requested(c, s.flagReads)
    requires step(State(s.fs, s.history, s.stats, s.flagReads + 1), videos[0]).returned.Success?
    ensures var rest := Sequential(c, step(State(s.fs, s.history, s.stats, s.flagReads + 1), videos[0]).state, videos[1..], step);
      Sequential(c, s, videos, step) == Run(rest.state, rest.handled + 1, rest.returned)
  {
  }

  /** Without a shutdown, the loop hands every video over, and reports
      success unless an exception escaped. */
  lemma {:induction false} SequentialWithoutShutdown(s: State, videos: seq<Path>, step: (State, Path) -> Processed)
    requires forall st, v :: StepSound(Never, st, v, step(st, v))
    requires forall st, v :: step(st, v).returned.Success?
    ensures Sequential(Never, s, videos, step).returned == Success(true)
    ensures Sequential(Never, s, videos, step).handled == |videos|
    decreases |videos|
  {
    if |videos| > 0 {
      var p := step(State(s.fs, s.history, s.stats, s.flagReads + 1), videos[0]);
      SequentialWithoutShutdown(p.state, videos[1..], step);
      SequentialUnfold(Never, s, videos, step);
    }
  }

  /** No exception escapes `process_single_file`, whatever the state and
      the video. */
  ghost predicate NeverRaises(cfg: Settings, env: Path -> Engines) {
    forall st, v :: ProcessSingleFile(cfg, Never, st, v, env(v)).returned.Success?
  }

  /** With no shutdown and no exception from any file, the sequential run
      handles every video and returns `True`. */
  lemma ProcessSequentialWithoutShutdown(cfg: Settings, s: State, videos: seq<Path>, env: Path -> Engines)
    requires NeverRaises(cfg, env)
    ensures ProcessSequential(cfg, Never, s, videos, env).returned == Success(true)
    ensures ProcessSequential(cfg, Never, s, videos, env).handled == |videos|
  {
    var step := Step(cfg, Never, env);
    forall st: State, v: Path ensures StepSound(Never, st, v, step(st, v)) && step(st, v).returned.Success? {
      StepIsSound(cfg, Never, st, v, env(v));
    }
    SequentialWithoutShutdown(s, videos, step);
  }

  /** A list comprehension `[v for v in videos if not done(v)]` whose test
      may raise: the first exception aborts it. */
  function FilterOut(videos: seq<Path>, done: Path -> Result<bool, string>): (r: Result<seq<Path>, string>)
    ensures r.Success? ==> forall v :: v in r.value <==> v in videos && done(v) == Success(false)
    ensures r.Success? ==> |r.value| <= |videos|
    ensures r.Failure? <==> exists i :: 0 <= i < |videos| && done(videos[i]).Failure?
  {
    if |videos| == 0 then Success([])
    else
      match done(videos[0])
      case Failure(e) => Failure(e)
      case Success(skip) =>
        match FilterOut(videos[1..], done)
        case Failure(e) =>
          assert forall i :: 0 <= i < |videos| - 1 ==> videos[1..][i] == videos[i + 1];
          Failure(e)
        case Success(rest) =>
          assert forall i :: 1 <= i < |videos| ==> videos[i] == videos[1..][i - 1];
          if skip then Success(rest) else Success([videos[0]] + rest)
  }

  /** Filtering keeps a strictly sorted list sorted. */
  lemma {:induction false} FilterOutSorted(videos: seq<Path>, done: Path -> Result<bool, string>)
    requires StrictlySorted(videos) && FilterOut(videos, done).Success?
    ensures StrictlySorted(FilterOut(videos, done).value)
    decreases |videos|
  {
    if |videos| > 0 {
      assert StrictlySorted(videos[1..]) by {
        forall i, j | 0 <= i < j < |videos[1..]| ensures PathLess(videos[1..][i], videos[1..][j]) {
          assert videos[1..][i] == videos[i + 1] && videos[1..][j] == videos[j + 1];
        }
      }
      FilterOutSorted(videos[1..], done);
    }
    if |videos| > 0 && done(videos[0]) == Success(false) {
      var rest := FilterOut(videos[1..], done).value;
      forall y | y in rest ensures PathLess(videos[0], y) {
        var i :| 0 <= i < |videos[1..]| && videos[1..][i] == y;
        assert videos[i + 1] == y;
      }
      ConsSorted(videos[0], rest);
    }
  }

  lemma ConsSorted(v: Path, rest: seq<Path>)
    requires StrictlySorted(rest) && forall y :: y in rest ==> PathLess(v, y)
    ensures StrictlySorted([v] + rest)
  {
    var all := [v] + rest;
    forall i, j | 0 <= i < j < |all| ensures PathLess(all[i], all[j]) {
      if i == 0 {
        assert all[j] == rest[j - 1];
      } else {
        assert all[i] == rest[i - 1] && all[j] == rest[j - 1];
      }
    }
  }

  /** The `skip_existing` filter of `_get_video_files`. */
  function SkipProcessed(d: FileManager.Dirs, h: FileManager.History, fs: FileSystem, videos: seq<Path>): (r: Result<seq<Path>, string>)
    ensures r.Success? ==> forall v :: v in r.value <==> v in videos && FileManager.IsProcessed(d, h, fs, v, true) == Success(false)
    ensures r.Success? && StrictlySorted(videos) ==> StrictlySorted(r.value)
  {
    var done := (v: Path) => FileManager.IsProcessed(d, h, fs, v, true);
    assert FilterOut(videos, done).Success? && StrictlySorted(videos) ==> StrictlySorted(FilterOut(videos, done).value) by {
      if FilterOut(videos, done).Success? && StrictlySorted(videos) {
        FilterOutSorted(videos, done);
      }
    }
    FilterOut(videos, done)
  }

  /** The counters with `total_files` set. */
  function WithTotalFiles(s: Stats, n: nat): (r: Stats)
    ensures r.totalFiles == n
  {
    Stats(n, s.processed, s.successful, s.failed, s.skipped, s.totalDuration, s.totalProcessingTime)
  }

  /** The list `_get_video_files` produces, for use in specifications. */
  ghost function VideoList(d: FileManager.Dirs, h: FileManager.History, fs: FileSystem, skipExisting: bool): Result<seq<Path>, string> {
    if d.inputDir !in fs then Failure(FileManager.MissingInputMessage(d.inputDir))
    else if !IsDir(fs, d.inputDir) then Failure(FileManager.NotDirectoryMessage(d.inputDir))
    else
      var all := SortedOf(FileManager.VideosIn(fs, d.inputDir, true));
      if skipExisting then SkipProcessed(d, h, fs, all) else Success(all)
  }

  /** `_get_video_files`: the recursive scan, filtered when `skip_existing`
      is set; `total_files` becomes the number left. A failing scan or
      filter raises before `total_files` is set. */
  method GetVideoFiles(d: FileManager.Dirs, h: FileManager.History, fs: FileSystem, skipExisting: bool, stats: Stats)
    returns (r: Result<seq<Path>, string>, after: Stats)
    ensures !IsDir(fs, d.inputDir) ==> r.Failure?
    ensures r.Failure? ==> after == stats
    ensures r.Success? ==> StrictlySorted(r.value)
    ensures r.Success? ==> forall v :: v in r.value <==>
      v in FileManager.VideosIn(fs, d.inputDir, true) && (!skipExisting || FileManager.IsProcessed(d, h, fs, v, true) == Success(false))
    ensures r.Success? ==> after == WithTotalFiles(stats, |r.value|)
    ensures r == VideoList(d, h, fs, skipExisting)
  {
    var scanned := FileManager.ScanVideos(fs, d.inputDir, true);
    if scanned.Failure? {
      return Failure(scanned.error), stats;
    }
    var videos := scanned.value;
    if skipExisting {
      var kept := SkipProcessed(d, h, fs, videos);
      if kept.Failure? {
        return Failure(kept.error), stats;
      }
      videos := kept.value;
    }
    r := Success(videos);
    after := WithTotalFiles(stats, |videos|);
  }

  /** The result of `process_batch`. */
  datatype Batch = Batch(state: State, returned: Result<bool, string>)

  /** `process_batch`: a failed setup check or model load returns `False`
      at once; an empty file list returns `True`; otherwise the videos are
      processed in order, and when that returns, temporary files are
      cleaned up if `cleanup_temp` is set. */
  method ProcessBatch(cfg: Settings, c: Cancel, s: State, setupValid: bool, modelLoads: bool, skipExisting: bool,
                      env: Path -> Engines) returns (r: Batch)
    ensures !setupValid || !modelLoads ==> r == Batch(s, Success(false))
    ensures Balanced(s.stats) ==> Balanced(r.state.stats)
    ensures r.state.stats.skipped == s.stats.skipped
    ensures setupValid && modelLoads && r.returned == Success(true) ==>
      r.state.stats.processed == s.stats.processed + r.state.stats.totalFiles
    ensures forall k :: k in r.state.history.processedFiles && k !in s.history.processedFiles ==>
      k in FileManager.VideosIn(s.fs, cfg.dirs.inputDir, true)
    ensures setupValid && modelLoads && VideoList(cfg.dirs, s.history, s.fs, skipExisting).Failure? ==>
      r == Batch(s, Failure(VideoList(cfg.dirs, s.history, s.fs, skipExisting).error))
    ensures setupValid && modelLoads && VideoList(cfg.dirs, s.history, s.fs, skipExisting) == Success([]) ==>
      r.returned == Success(true) && r.state.fs == s.fs && r.state.history == s.history
    ensures setupValid && modelLoads && c == Never && NeverRaises(cfg, env) && VideoList(cfg.dirs, s.history, s.fs, skipExisting).Success? ==>
      r.returned == Success(true)
    ensures setupValid && modelLoads && VideoList(cfg.dirs, s.history, s.fs, skipExisting).Success? ==>
      var videos := VideoList(cfg.dirs, s.history, s.fs, skipExisting).value;
      var run := ProcessSequential(cfg, c, State(s.fs, s.history, WithTotalFiles(s.stats, |videos|), s.flagReads), videos, env);
      |videos| > 0 ==>
        r.returned == run.returned && r.state.history == run.state.history && r.state.stats == run.state.stats &&
        r.state.fs == (if cfg.cleanupTemp && run.returned.Success? then FileManager.CleanupOutcome(run.state.fs, cfg.dirs.tempDir, 5)
                       else run.state.fs)
  {
    if !setupValid || !modelLoads {
      return Batch(s, Success(false));
    }
    var files, stats := GetVideoFiles(cfg.dirs, s.history, s.fs, skipExisting, s.stats);
    if files.Failure? {
      return Batch(s, Failure(files.error));
    }
    var videos := files.value;
    if |videos| == 0 {
      return Batch(State(s.fs, s.history, stats, s.flagReads), Success(true));
    }
    var run := ProcessSequential(cfg, c, State(s.fs, s.history, stats, s.flagReads), videos, env);
    assert forall k :: k in Elems(videos[..run.handled]) ==> k in videos;
    if c == Never && NeverRaises(cfg, env) {
      ProcessSequentialWithoutShutdown(cfg, State(s.fs, s.history, stats, s.flagReads), videos, env);
    }
    if run.returned.Failure? || !cfg.cleanupTemp {
      return Batch(run.state, run.returned);
    }
    var cleaned, _ := FileManager.CleanupTempFiles(run.state.fs, cfg.dirs.tempDir, 5);
    return Batch(State(cleaned, run.state.history, run.state.stats, run.state.flagReads), run.returned);
  }

  // ---------------------------------------------------------------- summary and exit

  /** The derived figures `_print_final_stats` prints, each only under its
      guard: the success rate in percent, the average real-time factor and
      the average time per file. */
  datatype Summary = Summary(successRate: Option<real>, averageRtf: Option<real>, averagePerFile: Option<real>)

  function FinalSummary(s: Stats): (r: Summary)
    ensures r.successRate.Some? <==> s.processed > 0
    ensures r.averageRtf.Some? <==> s.totalDuration > 0.0
    ensures r.averagePerFile.Some? <==> s.successful > 0
  {
    Summary(
      if s.processed > 0 then Some(s.successful as real / s.processed as real * 100.0) else None,
      if s.totalDuration > 0.0 then Some(s.totalProcessingTime / s.totalDuration) else None,
      if s.successful > 0 then Some(s.totalProcessingTime / s.successful as real) else None)
  }

  /** With the counters balanced, the success rate is a percentage, and it
      is 100 exactly when every processed file succeeded. */
  lemma SuccessRateIsPercentage(s: Stats)
    requires Balanced(s) && s.processed > 0
    ensures 0.0 <= FinalSummary(s).successRate.value <= 100.0
    ensures FinalSummary(s).successRate.value == 100.0 <==> s.successful == s.processed
  {
    var q := s.successful as real / s.processed as real;
    assert q * s.processed as real == s.successful as real;
    assert q <= 1.0;
  }

  /** The exit status of `main` after a batch: 0 for success, 1 for a
      failed batch or an exception. */
  function ExitCode(batch: Result<bool, string>): (code: int)
    ensures code == 0 <==> batch == Success(true)
    ensures code == 1 <==> batch != Success(true)
  {
    match batch
    case Success(ok) => if ok then 0 else 1
    case Failure(_) => 1
  }

  /** `--no-cleanup` turns `cleanup_temp` off and otherwise leaves it alone. */
  function CleanupSetting(configured: bool, noCleanup: bool): (r: bool)
    ensures r <==> configured && !noCleanup
  {
    if noCleanup then false else configured
  }
}
