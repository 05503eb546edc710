/** The configuration: the three setting groups, the memory-based default
    model, command-line overrides, validation, the effective device and the
    INI mapping used to save and load the settings. */
module ConfigManager {
  import opened Wrappers
  import opened Text
  import opened PlatformUtils

  datatype ProcessingConfig = ProcessingConfig(
    inputDir: string, outputDir: string, modelName: string, language: string,
    device: string, maxWorkers: int, skipExisting: bool, cleanupTemp: bool,
    verbose: bool, quiet: bool)

  datatype AudioConfig = AudioConfig(format: string, sampleRate: int, channels: int, quality: string)

  /** `file` is `None` until a log file is chosen. */
  datatype LoggingConfig = LoggingConfig(
    level: string, file: Option<string>, maxSize: int, backupCount: int, consoleOutput: bool)

  datatype Config = Config(processing: ProcessingConfig, audio: AudioConfig, logging: LoggingConfig)

  /** The dataclass defaults. */
  const DefaultProcessing := ProcessingConfig("", "", "medium", "auto", "auto", 1, false, true, false, false)
  const DefaultAudio := AudioConfig("wav", 16000, 1, "high")
  const DefaultLogging := LoggingConfig("INFO", None, 10485760, 5, true)

  /** The keys of `WHISPER_MODELS`, in declaration order. */
  const WhisperModels: seq<string> := ModelNames

  /** The keys of `SUPPORTED_LANGUAGES`, in declaration order. */
  const SupportedLanguages: seq<string> :=
    ["auto", "zh", "en", "ja", "ko", "fr", "de", "es", "ru", "pt", "it", "ar", "hi"]

  lemma CatalogueSizes()
    ensures |WhisperModels| == 7 && |SupportedLanguages| == 13
    ensures "medium" in WhisperModels && "auto" in SupportedLanguages
  {
  }

  // ---------------------------------------------------------------- default model

  /** `_get_recommended_model`: the largest model the available memory (in
      GB, `None` when unknown) allows, and `medium` when it is unknown. */
  function RecommendedModel(availableGb: Option<real>): (r: string)
    ensures r in WhisperModels
    ensures availableGb.None? ==> r == "medium"
    ensures availableGb.Some? ==> (r == "large-v3" <==> availableGb.value >= 12.0)
    ensures availableGb.Some? ==> (r == "tiny" <==> availableGb.value < 2.0)
  {
    match availableGb
    case None => "medium"
    case Some(m) =>
      if m >= 12.0 then "large-v3"
      else if m >= 8.0 then "large"
      else if m >= 5.0 then "medium"
      else if m >= 3.0 then "small"
      else if m >= 2.0 then "base"
      else "tiny"
  }

  function ModelRank(model: string): nat {
    if model == "tiny" then 0 else if model == "base" then 1 else if model == "small" then 2
    else if model == "medium" then 3 else if model == "large" then 4 else 5
  }

  /** More memory never gives a smaller recommended model, and a
      recommended model always fits the memory the estimate table asks
      for, except below 1 GB where even `tiny` is recommended. */
  lemma RecommendedModelMonotone(a: real, b: real)
    requires a <= b
    ensures ModelRank(RecommendedModel(Some(a))) <= ModelRank(RecommendedModel(Some(b)))
    ensures a >= 1.0 ==> EstimateModelMemory(RecommendedModel(Some(a))) <= a
  {
  }

  /** `_load_default_config`: the detected device, the recommended model and
      the recommended worker count replace the dataclass defaults. */
  function DefaultConfig(detected: DeviceInfo, availableGb: Option<real>, workers: int, logFile: string): (c: Config)
    ensures c.processing.device == detected.device
    ensures c.processing.modelName in WhisperModels
    ensures c.processing.modelName == RecommendedModel(availableGb)
    ensures c.processing.maxWorkers == workers
    ensures c.processing.language == "auto" && c.processing.inputDir == "" && c.processing.outputDir == ""
    ensures c.audio == DefaultAudio
    ensures c.logging.file == Some(logFile)
    ensures c.logging.level == "INFO" && c.logging.consoleOutput
  {
    Config(
      DefaultProcessing.(device := detected.device, modelName := RecommendedModel(availableGb), maxWorkers := workers),
      DefaultAudio,
      DefaultLogging.(file := Some(logFile)))
  }

  // ---------------------------------------------------------------- command line

  /** The command-line arguments `update_from_args` reads. Python's falsy
      values stand for an absent argument: `""`, `0` and `false`. */
  datatype Args = Args(
    input: string, output: string, model: string, language: string, device: string,
    workers: int, skipExisting: bool, verbose: bool, quiet: bool)

  /** `repr(list_of_strings)`. */
  function ListRepr(xs: seq<string>): string {
    "[" + ListItems(xs) + "]"
  }

  function ListItems(xs: seq<string>): string {
    if |xs| == 0 then "" else if |xs| == 1 then "'" + xs[0] + "'" else "'" + xs[0] + "', " + ListItems(xs[1..])
  }

  /** `repr` of the two catalogues' key lists, as the error messages print them. */
  function ModelsRepr(): string {
    ListRepr(WhisperModels)
  }

  function LanguagesRepr(): string {
    ListRepr(SupportedLanguages)
  }

  function UnsupportedModelMessage(model: string): string {
    "Unsupported model: " + model + ". Supported models: " + ModelsRepr()
  }

  function UnsupportedLanguageMessage(language: string): string {
    "Unsupported language: " + language + ". Supported languages: " + LanguagesRepr()
  }

  /** What `update_from_args` leaves behind: the configuration as mutated so
      far, and the `ValueError` message when it raised. The directories are
      normalised by `normalize`. */
  datatype Updated = Updated(config: Config, error: Option<string>)

  /** The two catalogue checks of `update_from_args`, model first: the
      `ValueError` message of the first one that fails. */
  function CheckArgs(args: Args): (e: Option<string>)
    ensures e.None? <==>
      (args.model == "" || args.model in WhisperModels) && (args.language == "" || args.language in SupportedLanguages)
    ensures args.model != "" && args.model !in WhisperModels ==> e == Some(UnsupportedModelMessage(args.model))
    ensures (args.model == "" || args.model in WhisperModels) && args.language != "" && args.language !in SupportedLanguages ==>
      e == Some(UnsupportedLanguageMessage(args.language))
  {
    if args.model != "" && args.model !in WhisperModels then Some(UnsupportedModelMessage(args.model))
    else if args.language != "" && args.language !in SupportedLanguages then Some(UnsupportedLanguageMessage(args.language))
    else None
  }

  /** `update_from_args`: the directories are copied first (normalised by
      `normalize`), then the model and the language are checked in that
      order, and only when both pass are the remaining overrides applied. */
  function UpdateFromArgs(c: Config, args: Args, normalize: string -> string): (u: Updated)
    ensures u.error == CheckArgs(args)
  {
    var p := c.processing;
    var l := c.logging;
    var error := CheckArgs(args);
    // everything after the two checks happens only when both passed
    var go := error.None?;
    Updated(
      Config(
        ProcessingConfig(
          if args.input != "" then normalize(args.input) else p.inputDir,
          if args.output != "" then normalize(args.output) else p.outputDir,
          if args.model != "" && args.model in WhisperModels then args.model else p.modelName,
          if go && args.language != "" then args.language else p.language,
          if go && args.device != "" then args.device else p.device,
          if go && args.workers != 0 then args.workers else p.maxWorkers,
          if go && args.skipExisting then true else p.skipExisting,
          p.cleanupTemp,
          if go && args.verbose then true else p.verbose,
          if go && args.quiet then true else p.quiet),
        c.audio,
        LoggingConfig(
          if go && args.verbose then "DEBUG" else l.level,
          l.file, l.maxSize, l.backupCount,
          if go && args.quiet then false else l.consoleOutput)),
      error)
  }

  /** The directories are applied before the checks and so even by a
      rejected update; a known model is applied before the language check. */
  lemma UpdateBeforeChecks(c: Config, args: Args, normalize: string -> string)
    ensures var u := UpdateFromArgs(c, args, normalize);
      && u.config.processing.inputDir == (if args.input != "" then normalize(args.input) else c.processing.inputDir)
      && u.config.processing.outputDir == (if args.output != "" then normalize(args.output) else c.processing.outputDir)
      && u.config.processing.modelName == (if args.model != "" && args.model in WhisperModels then args.model else c.processing.modelName)
  {
  }

  /** A rejected update keeps everything after the failed check, and the
      audio settings are never touched. */
  lemma UpdateFailureEffect(c: Config, args: Args, normalize: string -> string)
    ensures var u := UpdateFromArgs(c, args, normalize);
      && u.config.audio == c.audio && u.config.processing.cleanupTemp == c.processing.cleanupTemp
      && (u.error.Some? ==>
            u.config.processing.language == c.processing.language && u.config.processing.device == c.processing.device &&
            u.config.processing.maxWorkers == c.processing.maxWorkers && u.config.logging == c.logging)
  {
  }

  /** An accepted update copies every given argument, and `verbose` and
      `quiet` also switch the log level and the console output. */
  lemma UpdateSuccessEffect(c: Config, args: Args, normalize: string -> string)
    requires (args.model == "" || args.model in WhisperModels) && (args.language == "" || args.language in SupportedLanguages)
    ensures var u := UpdateFromArgs(c, args, normalize);
      && u.config.processing.modelName == (if args.model != "" then args.model else c.processing.modelName)
      && u.config.processing.language == (if args.language != "" then args.language else c.processing.language)
      && u.config.processing.device == (if args.device != "" then args.device else c.processing.device)
      && u.config.processing.maxWorkers == (if args.workers != 0 then args.workers else c.processing.maxWorkers)
      && u.config.processing.skipExisting == (args.skipExisting || c.processing.skipExisting)
      && u.config.processing.verbose == (args.verbose || c.processing.verbose)
      && u.config.processing.quiet == (args.quiet || c.processing.quiet)
      && u.config.logging.level == (if args.verbose then "DEBUG" else c.logging.level)
      && u.config.logging.consoleOutput == (!args.quiet && c.logging.consoleOutput)
  {
  }

  /** The arguments of the command-line test: every given value is applied
      and `verbose` also raises the log level. */
  lemma UpdateExample(c: Config, normalize: string -> string)
    ensures var u := UpdateFromArgs(c, Args("/test/input", "/test/output", "small", "en", "", 2, false, true, false), normalize);
      && u.error.None? && u.config.processing.modelName == "small" && u.config.processing.language == "en"
      && u.config.processing.maxWorkers == 2 && u.config.processing.verbose && u.config.logging.level == "DEBUG"
  {
    UpdateSuccessEffect(c, Args("/test/input", "/test/output", "small", "en", "", 2, false, true, false), normalize);
  }

  /** An update either fails or leaves a valid model and language valid:
      whatever it stores in those two settings comes from the catalogues. */
  lemma UpdateKeepsCatalogueValues(c: Config, args: Args, normalize: string -> string)
    requires c.processing.modelName in WhisperModels && c.processing.language in SupportedLanguages
    ensures var u := UpdateFromArgs(c, args, normalize);
      u.config.processing.modelName in WhisperModels && u.config.processing.language in SupportedLanguages
  {
  }

  /** An argument list with nothing set changes nothing. */
  lemma UpdateWithNoArgs(c: Config, normalize: string -> string)
    ensures UpdateFromArgs(c, Args("", "", "", "", "", 0, false, false, false), normalize) == Updated(c, None)
  {
  }

  // ---------------------------------------------------------------- device

  /** `get_effective_device`: `auto` resolves to the detected device. */
  function EffectiveDevice(c: Config, probe: DeviceProbe): (d: string)
    ensures c.processing.device == "auto" ==> d == DetectDevice(probe).device && KnownDevice(d)
    ensures c.processing.device != "auto" ==> d == c.processing.device
  {
    if c.processing.device == "auto" then DetectDevice(probe).device else c.processing.device
  }

  // ---------------------------------------------------------------- validation

  /** One problem `validate_config` reports. */
  datatype ConfigIssue =
    | InputNotSpecified
    | InputMissing(dir: string)
    | InputNotDirectory(dir: string)
    | OutputNotSpecified
    | OutputUncreatable(reason: string)
    | InvalidModel(model: string)
    | DeviceUnavailable(device: string, available: string)
    | InsufficientMemory(model: string, requiredGb: real, availableGb: real)
    | FfmpegMissing

  /** What `validate_config` asks the machine: what the input path is (if it
      exists), the error creating the output directory (if any), the
      detected device, the available memory and whether FFmpeg answers. */
  datatype Environment = Environment(
    inputKind: Option<bool>, outputMkdirError: Option<string>, detected: DeviceInfo,
    availableGb: Option<real>, ffmpeg: bool)

  function InputIssues(c: Config, env: Environment): seq<ConfigIssue> {
    if c.processing.inputDir == "" then [InputNotSpecified]
    else if env.inputKind.None? then [InputMissing(c.processing.inputDir)]
    else if !env.inputKind.value then [InputNotDirectory(c.processing.inputDir)]
    else []
  }

  function OutputIssues(c: Config, env: Environment): seq<ConfigIssue> {
    if c.processing.outputDir == "" then [OutputNotSpecified]
    else if env.outputMkdirError.Some? then [OutputUncreatable(env.outputMkdirError.value)]
    else []
  }

  function ModelIssues(c: Config): seq<ConfigIssue> {
    if c.processing.modelName !in WhisperModels then [InvalidModel(c.processing.modelName)] else []
  }

  function DeviceIssues(c: Config, env: Environment): seq<ConfigIssue> {
    var d := c.processing.device;
    if d !in ["auto", "cpu", "cuda", "mps", env.detected.device] then [DeviceUnavailable(d, env.detected.device)] else []
  }

  function MemoryIssues(c: Config, env: Environment): seq<ConfigIssue> {
    match env.availableGb
    case Some(m) =>
      // a reading of 0.0 is falsy and skips the check
      if m != 0.0 && m < EstimateModelMemory(c.processing.modelName) then
        [InsufficientMemory(c.processing.modelName, EstimateModelMemory(c.processing.modelName), m)]
      else []
    case None => []
  }

  /** `validate_config`: the problems in the order the checks run. */
  function ValidateConfig(c: Config, env: Environment): (issues: seq<ConfigIssue>)
    ensures InvalidModel(c.processing.modelName) in issues <==> c.processing.modelName !in WhisperModels
    ensures FfmpegMissing in issues <==> !env.ffmpeg
  {
    InputIssues(c, env) + OutputIssues(c, env) + ModelIssues(c) + DeviceIssues(c, env) + MemoryIssues(c, env)
      + (if env.ffmpeg then [] else [FfmpegMissing])
  }

  /** The text each issue is printed as; the memory figures are left to the
      float formatter and are not part of this model. */
  function IssueMessage(i: ConfigIssue): string {
    match i
    case InputNotSpecified => "Input directory not specified"
    case InputMissing(d) => "Input directory does not exist: " + d
    case InputNotDirectory(d) => "Input path is not a directory: " + d
    case OutputNotSpecified => "Output directory not specified"
    case OutputUncreatable(e) => "Cannot create output directory: " + e
    case InvalidModel(m) => "Invalid model: " + m
    case DeviceUnavailable(d, a) => "Device '" + d + "' not available. Available: " + a
    case InsufficientMemory(m, _, _) => "Insufficient memory for model '" + m + "'."
    case FfmpegMissing => "FFmpeg not found. Please install FFmpeg to process video files."
  }

  // ---------------------------------------------------------------- INI mapping

  /** The three sections the tool writes. */
  datatype Section = ProcessingSection | AudioSection | LoggingSection

  /** The options the tool writes and reads back; ConfigParser stores
      option names in lower case, as `OptionName` spells them. */
  datatype OptionKey =
    | ModelNameKey | LanguageKey | DeviceKey | MaxWorkersKey | SkipExistingKey | CleanupTempKey
    | FormatKey | SampleRateKey | ChannelsKey | QualityKey
    | LevelKey | MaxSizeKey | BackupCountKey | ConsoleOutputKey | FileKey

  function SectionName(s: Section): string {
    match s
    case ProcessingSection => "PROCESSING"
    case AudioSection => "AUDIO"
    case LoggingSection => "LOGGING"
  }

  function OptionName(k: OptionKey): string {
    match k
    case ModelNameKey => "model_name"
    case LanguageKey => "language"
    case DeviceKey => "device"
    case MaxWorkersKey => "max_workers"
    case SkipExistingKey => "skip_existing"
    case CleanupTempKey => "cleanup_temp"
    case FormatKey => "format"
    case SampleRateKey => "sample_rate"
    case ChannelsKey => "channels"
    case QualityKey => "quality"
    case LevelKey => "level"
    case MaxSizeKey => "max_size"
    case BackupCountKey => "backup_count"
    case ConsoleOutputKey => "console_output"
    case FileKey => "file"
  }

  /** A parsed INI file: the sections present, each with the values of the
      options present in it. Options the tool never reads are not kept. */
  type IniFile = map<Section, map<OptionKey, string>>

  /** `str(b)` for a Python bool. */
  function BoolString(b: bool): string {
    if b then "True" else "False"
  }

  function SaveProcessing(p: ProcessingConfig): map<OptionKey, string> {
    map[
      ModelNameKey := p.modelName,
      LanguageKey := p.language,
      DeviceKey := p.device,
      MaxWorkersKey := IntToString(p.maxWorkers),
      SkipExistingKey := BoolString(p.skipExisting),
      CleanupTempKey := BoolString(p.cleanupTemp)]
  }

  function SaveAudio(a: AudioConfig): map<OptionKey, string> {
    map[
      FormatKey := a.format,
      SampleRateKey := IntToString(a.sampleRate),
      ChannelsKey := IntToString(a.channels),
      QualityKey := a.quality]
  }

  function SaveLogging(l: LoggingConfig): map<OptionKey, string> {
    var common := map[
      LevelKey := l.level,
      MaxSizeKey := IntToString(l.maxSize),
      BackupCountKey := IntToString(l.backupCount),
      ConsoleOutputKey := BoolString(l.consoleOutput)];
    if l.file.Some? && l.file.value != "" then common[FileKey := l.file.value] else common
  }

  /** `save_config`: the sections and options it writes; the directories,
      `verbose` and `quiet` are not saved. */
  function SaveConfig(c: Config): (ini: IniFile)
    ensures ini.Keys == {ProcessingSection, AudioSection, LoggingSection}
    ensures ModelNameKey in ini[ProcessingSection] && ini[ProcessingSection][ModelNameKey] == c.processing.modelName
    ensures LanguageKey in ini[ProcessingSection] && ini[ProcessingSection][LanguageKey] == c.processing.language
    ensures FileKey in ini[LoggingSection] <==> c.logging.file.Some? && c.logging.file.value != ""
      {
    map[ProcessingSection := SaveProcessing(c.processing), AudioSection := SaveAudio(c.audio), LoggingSection := SaveLogging(c.logging)]
  }

  /** `SectionProxy.get(option, fallback)`; ConfigParser strips the
      whitespace around each value as it reads the file. */
  function GetStr(section: map<OptionKey, string>, option: OptionKey, fallback: string): string {
    if option in section then Strip(section[option]) else fallback
  }

  /** `SectionProxy.getint(option, fallback)`: `int()` of the value, or the
      `ValueError` message it raises. */
  function GetInt(section: map<OptionKey, string>, option: OptionKey, fallback: int): (r: Result<int, string>)
    ensures option !in section ==> r == Success(fallback)
    ensures option in section && r.Success? ==> Some(r.value) == ParseInt(section[option])
    ensures option in section && r.Failure? ==> ParseInt(section[option]).None?
  {
    if option !in section then Success(fallback)
    else match ParseInt(section[option])
      case Some(v) => Success(v)
      case None => Failure("invalid literal for int() with base 10: '" + Strip(section[option]) + "'")
  }

  /** `SectionProxy.getboolean(option, fallback)`: ConfigParser's boolean words. */
  function GetBool(section: map<OptionKey, string>, option: OptionKey, fallback: bool): (r: Result<bool, string>)
    ensures option !in section ==> r == Success(fallback)
    ensures option in section ==> (r == Success(true) <==> Lower(Strip(section[option])) in ["1", "yes", "true", "on"])
    ensures option in section ==> (r == Success(false) <==> Lower(Strip(section[option])) in ["0", "no", "false", "off"])
  {
    if option !in section then Success(fallback)
    else
      var v := Lower(Strip(section[option]));
      if v in ["1", "yes", "true", "on"] then Success(true)
      else if v in ["0", "no", "false", "off"] then Success(false)
      else Failure("Not a boolean: " + Strip(section[option]))
  }

  /** What `_load_config_file` leaves behind: the configuration as far as it
      got, and the message of the exception that stopped it (which the
      source only prints). */
  datatype Loaded = Loaded(config: Config, warning: Option<string>)

  /** The `PROCESSING` section: the stored configuration, or the partly
      loaded one together with the error that stopped it. */
  function LoadProcessing(p: ProcessingConfig, s: map<OptionKey, string>): (r: Result<ProcessingConfig, (ProcessingConfig, string)>)
    ensures r.Success? ==> r.value.modelName == GetStr(s, ModelNameKey, p.modelName)
    ensures r.Success? ==> r.value.language == GetStr(s, LanguageKey, p.language)
    ensures r.Success? ==> r.value.device == (if GetStr(s, DeviceKey, "auto") != "auto" then GetStr(s, DeviceKey, "auto") else p.device)
    ensures r.Success? ==> r.value.inputDir == p.inputDir && r.value.outputDir == p.outputDir
  {
    var model := GetStr(s, ModelNameKey, p.modelName);
    var language := GetStr(s, LanguageKey, p.language);
    match GetInt(s, MaxWorkersKey, p.maxWorkers)
    case Failure(e) =>
      Failure((ProcessingConfig(p.inputDir, p.outputDir, model, language, p.device, p.maxWorkers,
                                p.skipExisting, p.cleanupTemp, p.verbose, p.quiet), e))
    case Success(w) =>
      match GetBool(s, SkipExistingKey, p.skipExisting)
      case Failure(e) =>
        Failure((ProcessingConfig(p.inputDir, p.outputDir, model, language, p.device, w,
                                  p.skipExisting, p.cleanupTemp, p.verbose, p.quiet), e))
      case Success(skip) =>
        match GetBool(s, CleanupTempKey, p.cleanupTemp)
        case Failure(e) =>
          Failure((ProcessingConfig(p.inputDir, p.outputDir, model, language, p.device, w,
                                    skip, p.cleanupTemp, p.verbose, p.quiet), e))
        case Success(cleanup) =>
          var d := GetStr(s, DeviceKey, "auto");
          Success(ProcessingConfig(p.inputDir, p.outputDir, model, language, if d != "auto" then d else p.device, w,
                                   skip, cleanup, p.verbose, p.quiet))
  }

  function LoadAudio(a: AudioConfig, s: map<OptionKey, string>): Result<AudioConfig, (AudioConfig, string)> {
    var format := GetStr(s, FormatKey, a.format);
    match GetInt(s, SampleRateKey, a.sampleRate)
    case Failure(e) => Failure((AudioConfig(format, a.sampleRate, a.channels, a.quality), e))
    case Success(rate) =>
      match GetInt(s, ChannelsKey, a.channels)
      case Failure(e) => Failure((AudioConfig(format, rate, a.channels, a.quality), e))
      case Success(ch) => Success(AudioConfig(format, rate, ch, GetStr(s, QualityKey, a.quality)))
  }

  function LoadLogging(l: LoggingConfig, s: map<OptionKey, string>, normalize: string -> string): Result<LoggingConfig, (LoggingConfig, string)> {
    var level := GetStr(s, LevelKey, l.level);
    match GetInt(s, MaxSizeKey, l.maxSize)
    case Failure(e) => Failure((LoggingConfig(level, l.file, l.maxSize, l.backupCount, l.consoleOutput), e))
    case Success(size) =>
      match GetInt(s, BackupCountKey, l.backupCount)
      case Failure(e) => Failure((LoggingConfig(level, l.file, size, l.backupCount, l.consoleOutput), e))
      case Success(count) =>
        match GetBool(s, ConsoleOutputKey, l.consoleOutput)
        case Failure(e) => Failure((LoggingConfig(level, l.file, size, count, l.consoleOutput), e))
        case Success(console) =>
          var file := if FileKey in s && Strip(s[FileKey]) != "" then Some(normalize(Strip(s[FileKey]))) else l.file;
          Success(LoggingConfig(level, file, size, count, console))
  }

  /** `_load_config_file`: each present section overrides what it names,
      in order; the first value `getint`/`getboolean` rejects stops the load
      with everything before it applied. */
  function LoadConfigFile(c: Config, ini: IniFile, normalize: string -> string): (r: Loaded)
    ensures ProcessingSection !in ini ==> r.config.processing == c.processing
    ensures r.config.processing.inputDir == c.processing.inputDir && r.config.processing.outputDir == c.processing.outputDir
    ensures r.warning.None? ==> r.config.processing.modelName == GetStr(GetSection(ini, ProcessingSection), ModelNameKey, c.processing.modelName)
  {
    match (if ProcessingSection in ini then LoadProcessing(c.processing, ini[ProcessingSection]) else Success(c.processing))
    case Failure((p, e)) => Loaded(Config(p, c.audio, c.logging), Some(e))
    case Success(p) =>
      match (if AudioSection in ini then LoadAudio(c.audio, ini[AudioSection]) else Success(c.audio))
      case Failure((a, e)) => Loaded(Config(p, a, c.logging), Some(e))
      case Success(a) =>
        match (if LoggingSection in ini then LoadLogging(c.logging, ini[LoggingSection], normalize) else Success(c.logging))
        case Failure((l, e)) => Loaded(Config(p, a, l), Some(e))
        case Success(l) => Loaded(Config(p, a, l), None)
  }

  /** A section's options, empty when the section is absent. */
  function GetSection(ini: IniFile, name: Section): map<OptionKey, string> {
    if name in ini then ini[name] else map[]
  }

  predicate Trimmed(s: string) {
    Strip(s) == s
  }

  /** The string settings survive the write-then-read round trip when they
      carry no surrounding whitespace. */
  predicate RoundTrippable(c: Config) {
    && Trimmed(c.processing.modelName) && Trimmed(c.processing.language) && Trimmed(c.processing.device)
    && Trimmed(c.audio.format) && Trimmed(c.audio.quality) && Trimmed(c.logging.level)
    && (c.logging.file.Some? ==> Trimmed(c.logging.file.value))
  }

  lemma IntStringTrimmed(i: int)
    ensures Trimmed(IntToString(i)) && ParseInt(IntToString(i)) == Some(i)
  {
    IntToStringNoSpace(i);
    NoSpaceStripsToSelf(IntToString(i));
    ParseIntRoundTrip(i);
  }

  lemma BoolStringTrimmed(b: bool)
    ensures Trimmed(BoolString(b)) && Lower(BoolString(b)) == (if b then "true" else "false")
  {
    LowerChars(BoolString(b));
    NoSpaceStripsToSelf(BoolString(b));
  }

  /** A saved integer reads back as itself. */
  lemma ReadBackInt(s: map<OptionKey, string>, k: OptionKey, i: int, fallback: int)
    requires k in s && s[k] == IntToString(i)
    ensures GetInt(s, k, fallback) == Success(i)
  {
    IntStringTrimmed(i);
  }

  /** A saved boolean reads back as itself. */
  lemma ReadBackBool(s: map<OptionKey, string>, k: OptionKey, b: bool, fallback: bool)
    requires k in s && s[k] == BoolString(b)
    ensures GetBool(s, k, fallback) == Success(b)
  {
    BoolStringTrimmed(b);
  }

  lemma ProcessingRoundTrip(p: ProcessingConfig, base: ProcessingConfig)
    requires Trimmed(p.modelName) && Trimmed(p.language) && Trimmed(p.device)
    ensures LoadProcessing(base, SaveProcessing(p)) == Success(ProcessingConfig(
      base.inputDir, base.outputDir, p.modelName, p.language,
      if p.device == "auto" then base.device else p.device,
      p.maxWorkers, p.skipExisting, p.cleanupTemp, base.verbose, base.quiet))
  {
    var s := SaveProcessing(p);
    ReadBackInt(s, MaxWorkersKey, p.maxWorkers, base.maxWorkers);
    ReadBackBool(s, SkipExistingKey, p.skipExisting, base.skipExisting);
    ReadBackBool(s, CleanupTempKey, p.cleanupTemp, base.cleanupTemp);
  }

  lemma AudioRoundTrip(a: AudioConfig, base: AudioConfig)
    requires Trimmed(a.format) && Trimmed(a.quality)
    ensures LoadAudio(base, SaveAudio(a)) == Success(a)
  {
    var s := SaveAudio(a);
    ReadBackInt(s, SampleRateKey, a.sampleRate, base.sampleRate);
    ReadBackInt(s, ChannelsKey, a.channels, base.channels);
  }

  lemma LoggingRoundTrip(l: LoggingConfig, base: LoggingConfig, normalize: string -> string)
    requires Trimmed(l.level) && (l.file.Some? ==> Trimmed(l.file.value))
    ensures LoadLogging(base, SaveLogging(l), normalize) == Success(LoggingConfig(
      l.level, if l.file.Some? && l.file.value != "" then Some(normalize(l.file.value)) else base.file,
      l.maxSize, l.backupCount, l.consoleOutput))
  {
    var s := SaveLogging(l);
    assert LevelKey in s && s[LevelKey] == l.level;
    ReadBackInt(s, MaxSizeKey, l.maxSize, base.maxSize);
    ReadBackInt(s, BackupCountKey, l.backupCount, base.backupCount);
    ReadBackBool(s, ConsoleOutputKey, l.consoleOutput, base.consoleOutput);
    assert FileKey in s <==> l.file.Some? && l.file.value != "";
    assert FileKey in s ==> s[FileKey] == l.file.value;
  }

  /** Saving and loading back restores every saved setting: the device only
      when it is not `auto` (an `auto` in the file keeps the detected
      device), and the log file after `normalize`. */
  lemma SaveLoadRoundTrip(c: Config, base: Config, normalize: string -> string)
    requires RoundTrippable(c)
    ensures var r := LoadConfigFile(base, SaveConfig(c), normalize);
      && r.warning.None?
      && r.config.processing == ProcessingConfig(
           base.processing.inputDir, base.processing.outputDir, c.processing.modelName, c.processing.language,
           if c.processing.device == "auto" then base.processing.device else c.processing.device,
           c.processing.maxWorkers, c.processing.skipExisting, c.processing.cleanupTemp,
           base.processing.verbose, base.processing.quiet)
      && r.config.audio == c.audio
      && r.config.logging == LoggingConfig(
           c.logging.level,
           if c.logging.file.Some? && c.logging.file.value != "" then Some(normalize(c.logging.file.value)) else base.logging.file,
           c.logging.maxSize, c.logging.backupCount, c.logging.consoleOutput)
  {
    ProcessingRoundTrip(c.processing, base.processing);
    AudioRoundTrip(c.audio, base.audio);
    LoggingRoundTrip(c.logging, base.logging, normalize);
  }
}
