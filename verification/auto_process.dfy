/** The `auto_process.py` front end: the three fixed directories next to the
    script, the shallow scan of `videos_todo`, the early exits of `main`,
    the settings it hands to `MP4ToTextProcessor` and the exit status. */
module AutoProcess {
  import opened Wrappers
  import opened Text
  import opened Paths
  import FileManager
  import Processor

  // ---------------------------------------------------------------- directories

  /** `videos_todo`, `results` and `videos_done` in the script's directory. */
  datatype Layout = Layout(todo: Path, results: Path, done: Path)

  function LayoutOf(script: Path): (l: Layout)
    ensures Parent(l.todo) == script && Parent(l.results) == script && Parent(l.done) == script
    ensures l.todo != l.results && l.todo != l.done && l.results != l.done
  {
    ParentOfChild(script, "videos_todo");
    ParentOfChild(script, "results");
    ParentOfChild(script, "videos_done");
    Layout(Child(script, "videos_todo"), Child(script, "results"), Child(script, "videos_done"))
  }

  /** `d.mkdir(exist_ok=True)` without `parents`: an existing directory is
      left alone; otherwise the parent must be a directory and `d` must not
      exist (as a file). */
  function MakeDir(fs: FileSystem, d: Path): (r: Option<FileSystem>)
    ensures r.Some? <==> IsDir(fs, d) || (d !in fs && IsDir(fs, Parent(d)))
    ensures r.Some? ==> IsDir(r.value, d) && r.value.Keys == fs.Keys + {d}
    ensures r.Some? ==> forall p :: p in fs ==> r.value[p] == fs[p]
  {
    if IsDir(fs, d) then Some(fs)
    else if d !in fs && IsDir(fs, Parent(d)) then Some(fs[d := Node(Directory, 0, 0.0)])
    else None
  }

  /** Nothing may stand in the way of a directory about to be made. */
  predicate Makeable(fs: FileSystem, d: Path) {
    IsDir(fs, d) || d !in fs
  }

  /** `validate_directories`: the three directories are made in order; the
      first failure raises. */
  function ValidateDirectories(fs: FileSystem, l: Layout): (r: Option<FileSystem>)
    requires Parent(l.todo) == Parent(l.results) == Parent(l.done)
    requires l.todo != l.results && l.todo != l.done && l.results != l.done
    ensures IsDir(fs, Parent(l.todo)) ==>
      (r.Some? <==> Makeable(fs, l.todo) && Makeable(fs, l.results) && Makeable(fs, l.done))
    ensures !IsDir(fs, Parent(l.todo)) && !(IsDir(fs, l.todo) && IsDir(fs, l.results) && IsDir(fs, l.done)) ==> r.None?
    ensures r.Some? ==> IsDir(r.value, l.todo) && IsDir(r.value, l.results) && IsDir(r.value, l.done)
    ensures r.Some? ==> r.value.Keys == fs.Keys + {l.todo, l.results, l.done}
    ensures r.Some? ==> forall p :: p in fs ==> r.value[p] == fs[p]
  {
    match MakeDir(fs, l.todo)
    case None => None
    case Some(fs1) =>
      match MakeDir(fs1, l.results)
      case None => None
      case Some(fs2) => MakeDir(fs2, l.done)
  }

  /** Making the directories a second time changes nothing. */
  lemma ValidateIdempotent(fs: FileSystem, l: Layout)
    requires Parent(l.todo) == Parent(l.results) == Parent(l.done)
    requires l.todo != l.results && l.todo != l.done && l.results != l.done
    requires ValidateDirectories(fs, l).Some?
    ensures ValidateDirectories(ValidateDirectories(fs, l).value, l) == ValidateDirectories(fs, l)
  {
    var once := ValidateDirectories(fs, l).value;
    assert MakeDir(once, l.todo) == Some(once);
    assert MakeDir(once, l.results) == Some(once);
    assert MakeDir(once, l.done) == Some(once);
  }

  // ---------------------------------------------------------------- the todo list

  /** The suffix set `check_videos_todo` spells out for itself. */
  const SupportedFormats: set<string> :=
    {".mp4", ".avi", ".mov", ".mkv", ".flv", ".webm", ".m4v", ".wmv", ".3gp", ".ogv"}

  /** An entry `check_videos_todo` keeps. */
  predicate IsTodo(fs: FileSystem, p: Path) {
    IsFile(fs, p) && Lower(Suffix(Name(p))) in SupportedFormats
  }

  /** `check_videos_todo`: the direct entries of the directory that are
      regular files with a supported suffix, sorted. Subdirectories are
      not entered. */
  method CheckVideosTodo(fs: FileSystem, dir: Path) returns (r: seq<Path>)
    ensures StrictlySorted(r)
    ensures Elems(r) <= Children(fs, dir)
    ensures forall p :: p in r <==> p in Children(fs, dir) && IsTodo(fs, p)
    ensures Elems(r) == FileManager.VideosIn(fs, dir, false)
  {
    assert SupportedFormats == FileManager.VideoExtensions;
    r := SortPaths(set p | p in Children(fs, dir) && IsTodo(fs, p));
  }

  /** On a directory, the todo list is exactly what the `FileManager`'s
      non-recursive `scan_videos` returns, and every entry of it is among
      the videos the batch's recursive scan finds. */
  method TodoAgreesWithScan(fs: FileSystem, dir: Path) returns (todo: seq<Path>, scanned: Result<seq<Path>, string>)
    requires IsDir(fs, dir)
    ensures scanned == Success(todo)
    ensures Elems(todo) <= FileManager.VideosIn(fs, dir, true)
  {
    todo := CheckVideosTodo(fs, dir);
    scanned := FileManager.ScanVideos(fs, dir, false);
    SortedUnique(todo, scanned.value);
    FileManager.ShallowScanWithinDeep(fs, dir);
  }

  // ---------------------------------------------------------------- main

  /** The command-line options `main` reads. `model`, `language` and
      `device` are the parsed strings (with their defaults `medium`, `auto`
      and `auto`). */
  datatype Options = Options(
    systemInfo: bool, listModels: bool,
    model: string, language: string, device: string,
    skipExisting: bool, noCleanup: bool, noMove: bool)

  /** A string option replaces the configured value when it is non-empty. */
  function Override(option: string, configured: string): (r: string)
    ensures option != "" ==> r == option
    ensures option == "" ==> r == configured
  {
    if option != "" then option else configured
  }

  /** The processor's settings: the input and output directories fixed to
      `videos_todo` and `results`, the options laid over the configuration,
      `move_to_done = not no_move`, and `done_dir` always `videos_done`. */
  function SettingsFor(base: Processor.Settings, o: Options, l: Layout): (cfg: Processor.Settings)
    ensures cfg.dirs.inputDir == l.todo && cfg.dirs.outputDir == l.results
    ensures cfg.moveToDone == !o.noMove && cfg.doneDir == Some(l.done)
    ensures cfg.cleanupTemp <==> base.cleanupTemp && !o.noCleanup
  {
    Processor.Settings(
      FileManager.Dirs(l.todo, l.results, base.dirs.tempDir), base.audioTempDir, base.audio,
      Override(o.language, base.language), Override(o.model, base.model), Override(o.device, base.device),
      Processor.CleanupSetting(base.cleanupTemp, o.noCleanup), !o.noMove, Some(l.done), base.now)
  }

  /** Completed videos are moved to `videos_done` exactly when `--no-move`
      is absent. */
  lemma MovesUnlessNoMove(base: Processor.Settings, o: Options, l: Layout)
    ensures var cfg := SettingsFor(base, o, l);
      (cfg.moveToDone && cfg.doneDir.Some?) <==> !o.noMove
    ensures SettingsFor(base, o, l).doneDir.Some? ==> SettingsFor(base, o, l).doneDir.value == l.done
  {
  }

  /** The option defaults are non-empty, so the configuration file's model,
      language and device never reach the processor unless an option is
      given as the empty string. */
  lemma DefaultsOverrideConfig(base: Processor.Settings, l: Layout, skip: bool, noCleanup: bool, noMove: bool)
    ensures var cfg := SettingsFor(base, Options(false, false, "medium", "auto", "auto", skip, noCleanup, noMove), l);
      cfg.model == "medium" && cfg.language == "auto" && cfg.device == "auto"
  {
  }

  /** How far `main` gets before a processor is built: it returns early
      with a status, or it has a non-empty todo list in the directories it
      made. */
  datatype Preparation = Early(exit: int, fs: FileSystem, todo: seq<Path>) | Ready(fs: FileSystem, todo: seq<Path>)

  /** The part of `main` before the processor: the information options
      return 0 before any directory is touched; a directory that cannot be
      made raises and gives 1; an empty todo list returns 0. */
  method Prepare(o: Options, fs: FileSystem, script: Path) returns (r: Preparation)
    ensures o.systemInfo || o.listModels ==> r == Early(0, fs, [])
    ensures !o.systemInfo && !o.listModels ==>
      match ValidateDirectories(fs, LayoutOf(script))
      case None => r == Early(1, fs, [])
      case Some(made) => r.fs == made && (r.Early? ==> r.exit == 0) && Elems(r.todo) == FileManager.VideosIn(made, LayoutOf(script).todo, false)
    ensures r.Early? ==> r.exit == 0 || r.exit == 1
    ensures r.Early? && r.exit == 0 && !o.systemInfo && !o.listModels ==> |r.todo| == 0
    ensures r.Ready? ==> |r.todo| > 0
  {
    if o.systemInfo || o.listModels {
      return Early(0, fs, []);
    }
    var l := LayoutOf(script);
    var made := ValidateDirectories(fs, l);
    if made.None? {
      return Early(1, fs, []);
    }
    var todo := CheckVideosTodo(made.value, l.todo);
    if |todo| == 0 {
      return Early(0, made.value, todo);
    }
    return Ready(made.value, todo);
  }

  /** A processor run started by `main`: its settings and the batch result. */
  datatype Launch = Launch(cfg: Processor.Settings, batch: Processor.Batch)

  /** What `main` leaves behind: the exit status, the filesystem, the todo
      list it found and the processor run, if one was started. */
  datatype Outcome = Outcome(exit: int, fs: FileSystem, todo: seq<Path>, launched: Option<Launch>)

  /** `main` (without `KeyboardInterrupt`): after `Prepare`, the processor
      runs its batch over `videos_todo` with fresh counters and `history`,
      the ledger its `FileManager` loads from `results`; `main` returns 0
      exactly when the batch returns `True`. No processor is built when the
      todo list is empty. */
  method AutoMain(o: Options, fs: FileSystem, script: Path, base: Processor.Settings, configuredSkip: bool,
                  history: FileManager.History, c: Processor.Cancel, setupValid: bool, modelLoads: bool,
                  env: Path -> Processor.Engines) returns (r: Outcome)
    ensures o.systemInfo || o.listModels ==> r == Outcome(0, fs, [], None)
    ensures r.exit == 0 || r.exit == 1
    ensures r.launched.None? && r.exit == 1 ==> ValidateDirectories(fs, LayoutOf(script)).None?
    ensures r.launched.None? && r.exit == 0 && !o.systemInfo && !o.listModels ==> |r.todo| == 0
    ensures r.launched.Some? ==> |r.todo| > 0 && r.exit == Processor.ExitCode(r.launched.value.batch.returned)
    ensures r.launched.Some? ==> r.launched.value.cfg == SettingsFor(base, o, LayoutOf(script))
    ensures r.launched.Some? ==> r.launched.value.cfg.moveToDone == !o.noMove
  {
    var p := Prepare(o, fs, script);
    if p.Early? {
      return Outcome(p.exit, p.fs, p.todo, None);
    }
    var cfg := SettingsFor(base, o, LayoutOf(script));
    var start := Processor.State(p.fs, history, Processor.ZeroStats, 0);
    var batch := Processor.ProcessBatch(cfg, c, start, setupValid, modelLoads, o.skipExisting || configuredSkip, env);
    return Outcome(Processor.ExitCode(batch.returned), batch.state.fs, p.todo, Some(Launch(cfg, batch)));
  }
}
