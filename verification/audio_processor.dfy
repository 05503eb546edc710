/** The decisions `AudioProcessor` takes around FFmpeg: how the `-progress`
    stream and the probe's stderr are read, when a video is accepted, what
    extraction leaves on disk and when a temporary audio file is removed.
    FFmpeg itself is an input: what its probe printed, and how its
    extraction run ended. */
module AudioProcessor {
  import opened Wrappers
  import opened Text
  import opened Paths
  import opened Errors

  // ---------------------------------------------------------------- progress stream

  const OutTimePrefix := "out_time_ms="
  const EndPrefix := "progress=end"

  /** How the monitor reads one line of FFmpeg's `-progress` output. */
  datatype LineKind = OutTime(value: Option<int>) | End | Other

  /** `line.split('=')[1]` for a line that starts with `out_time_ms=`: the
      text between the first and the second `=`. */
  function SecondField(line: string): (r: string)
    requires StartsWith(line, OutTimePrefix)
    ensures forall j :: 0 <= j < |r| ==> r[j] != '='
  {
    match IndexOfFrom(line, '=', |OutTimePrefix|)
    case Some(j) => line[|OutTimePrefix|..j]
    case None => line[|OutTimePrefix|..]
  }

  /** The stripped line is tested for the time prefix first, then for the end
      marker; an unparsable time value reads as `OutTime(None)`. */
  function Classify(raw: string): LineKind {
    var line := Strip(raw);
    if StartsWith(line, OutTimePrefix) then OutTime(ParseInt(SecondField(line)))
    else if StartsWith(line, EndPrefix) then End
    else Other
  }

  /** `min(time_ms / 1000000 / total, 1.0)`: the reported value is in
      microseconds despite its name. */
  function Fraction(n: int, total: real): (r: real)
    requires total > 0.0
    ensures r <= 1.0
    ensures n >= 0 ==> r >= 0.0
    ensures (n as real) <= total * 1000000.0 ==> r == (n as real / 1000000.0) / total
  {
    var x := (n as real / 1000000.0) / total;
    if x <= 1.0 then x else 1.0
  }

  /** What the monitor hands to the callback, and whether it stopped at the
      end marker (rather than at the end of the stream). */
  datatype Monitored = Monitored(emitted: seq<real>, ended: bool)

  /** One line read: the end marker reports 1.0 and stops; a parsable
      time is reported (when the duration is known) before whatever the
      later lines give; other lines change nothing. */
  function Step(k: LineKind, later: Monitored, total: real): (r: Monitored)
    ensures |r.emitted| <= |later.emitted| + 1
  {
    match k
    case End => Monitored([1.0], true)
    case OutTime(v) =>
      if v.Some? && total > 0.0 then Monitored([Fraction(v.value, total)] + later.emitted, later.ended)
      else later
    case Other => later
  }

  /** The values of one stretch of output followed by those of the next,
      unless the first stretch ended the reading. */
  function Join(x: Monitored, y: Monitored): Monitored {
    if x.ended then x else Monitored(x.emitted + y.emitted, y.ended)
  }

  /** The reading loop of `_monitor_ffmpeg_progress` over classified lines. */
  function Interpret(kinds: seq<LineKind>, total: real): (r: Monitored)
    ensures |r.emitted| <= |kinds|
    ensures forall i :: 0 <= i < |r.emitted| ==> r.emitted[i] <= 1.0
    ensures r.ended ==> |r.emitted| > 0 && r.emitted[|r.emitted| - 1] == 1.0
    ensures total <= 0.0 ==> r.emitted == (if r.ended then [1.0] else [])
  {
    if |kinds| == 0 then Monitored([], false)
    else Step(kinds[0], Interpret(kinds[1..], total), total)
  }

  function Kinds(lines: seq<string>): (r: seq<LineKind>)
    ensures |r| == |lines| && forall i :: 0 <= i < |lines| ==> r[i] == Classify(lines[i])
  {
    seq(|lines|, i requires 0 <= i < |lines| => Classify(lines[i]))
  }

  /** `_monitor_ffmpeg_progress` reading the lines FFmpeg printed before
      closing its output. */
  function Monitor(lines: seq<string>, total: real): Monitored {
    Interpret(Kinds(lines), total)
  }

  lemma StepJoin(k: LineKind, x: Monitored, y: Monitored, total: real)
    ensures Step(k, Join(x, y), total) == Join(Step(k, x, total), y)
  {
    if k.OutTime? && k.value.Some? && total > 0.0 && !x.ended {
      assert [Fraction(k.value.value, total)] + (x.emitted + y.emitted)
        == ([Fraction(k.value.value, total)] + x.emitted) + y.emitted;
    }
  }

  lemma {:induction false} InterpretAppend(a: seq<LineKind>, b: seq<LineKind>, total: real)
    ensures Interpret(a + b, total) == Join(Interpret(a, total), Interpret(b, total))
  {
    if |a| == 0 {
      assert a + b == b;
    } else {
      assert (a + b)[0] == a[0];
      assert (a + b)[1..] == a[1..] + b;
      InterpretAppend(a[1..], b, total);
      StepJoin(a[0], Interpret(a[1..], total), Interpret(b, total), total);
    }
  }

  /** Reading is a fold: the lines after the end marker are never read, and
      without an end marker the values of two stretches of output follow one
      another. */
  lemma MonitorAppend(a: seq<string>, b: seq<string>, total: real)
    ensures Monitor(a, total).ended ==> Monitor(a + b, total) == Monitor(a, total)
    ensures !Monitor(a, total).ended ==>
      Monitor(a + b, total) == Monitored(Monitor(a, total).emitted + Monitor(b, total).emitted, Monitor(b, total).ended)
  {
    var ka, kb := Kinds(a), Kinds(b);
    assert Kinds(a + b) == ka + kb by {
      forall i | 0 <= i < |a + b| ensures Kinds(a + b)[i] == (ka + kb)[i] {
        if i < |a| { assert (a + b)[i] == a[i]; } else { assert (a + b)[i] == b[i - |a|]; }
      }
    }
    InterpretAppend(ka, kb, total);
  }

  /** The line FFmpeg prints for a time of `n` microseconds. */
  function ProgressLine(n: int): string {
    OutTimePrefix + IntToString(n)
  }

  lemma IntToStringChars(i: int)
    ensures forall k :: 0 <= k < |IntToString(i)| ==> IntToString(i)[k] == '-' || IsDigit(IntToString(i)[k])
  {
    var s := IntToString(i);
    var d := NatToString(if i < 0 then -i else i);
    forall k | 0 <= k < |s| ensures s[k] == '-' || IsDigit(s[k]) {
      if i < 0 && k > 0 { assert s[k] == d[k - 1]; }
    }
  }

  /** A time line is classified as the time it carries. */
  lemma ClassifyProgressLine(n: int)
    ensures Classify(ProgressLine(n)) == OutTime(Some(n))
  {
    var line := ProgressLine(n);
    var d := IntToString(n);
    IntToStringNoSpace(n);
    IntToStringChars(n);
    forall k | 0 <= k < |line| ensures !IsSpace(line[k]) && (k >= |OutTimePrefix| ==> line[k] != '=') {
      if k >= |OutTimePrefix| { assert line[k] == d[k - |OutTimePrefix|]; }
    }
    NoSpaceStripsToSelf(line);
    assert StartsWith(line, OutTimePrefix);
    assert IndexOfFrom(line, '=', |OutTimePrefix|).None?;
    assert line[|OutTimePrefix|..] == d;
    ParseIntRoundTrip(n);
  }

  /** A time line is read back as the time it carries. */
  lemma ProgressLineRead(n: int, total: real)
    requires total > 0.0
    ensures Monitor([ProgressLine(n)], total) == Monitored([Fraction(n, total)], false)
  {
    ClassifyProgressLine(n);
    assert Kinds([ProgressLine(n)]) == [OutTime(Some(n))];
    assert [OutTime(Some(n))][1..] == [];
  }

  /** A line that starts with the end marker reports 1.0 and ends the
      reading, whatever follows it. */
  lemma EndLineStops(line: string, rest: seq<string>, total: real)
    requires StartsWith(Strip(line), EndPrefix)
    ensures Monitor([line] + rest, total) == Monitored([1.0], true)
  {
    assert Strip(line)[0] == 'p';
    assert Classify(line) == End;
    assert Kinds([line] + rest)[0] == End;
  }

  /** Progress is forwarded as computed, so it can go backwards: a later,
      smaller time is reported after an earlier, larger one. */
  lemma ProgressCanDecrease(a: nat, b: nat, total: real)
    requires total > 0.0 && b < a && (a as real) <= total * 1000000.0
    ensures Monitor([ProgressLine(a), ProgressLine(b)], total).emitted == [Fraction(a, total), Fraction(b, total)]
    ensures Fraction(b, total) < Fraction(a, total)
  {
    ClassifyProgressLine(a);
    ClassifyProgressLine(b);
    assert Kinds([ProgressLine(a), ProgressLine(b)]) == [OutTime(Some(a as int)), OutTime(Some(b as int))];
    InterpretTwo(a, b, total);
    FractionOrder(a, b, total);
  }

  lemma InterpretTwo(a: int, b: int, total: real)
    requires total > 0.0
    ensures Interpret([OutTime(Some(a)), OutTime(Some(b))], total).emitted == [Fraction(a, total), Fraction(b, total)]
  {
    var k := [OutTime(Some(a)), OutTime(Some(b))];
    assert k[1..] == [OutTime(Some(b))];
    assert k[1..][1..] == [];
  }

  lemma FractionOrder(a: nat, b: nat, total: real)
    requires total > 0.0 && b < a && (a as real) <= total * 1000000.0
    ensures Fraction(b, total) < Fraction(a, total)
  {
    DivideKeepsOrder(b as real / 1000000.0, a as real / 1000000.0, total);
  }

  lemma DivideKeepsOrder(y: real, x: real, t: real)
    requires t > 0.0 && y < x
    ensures y / t < x / t
  {
    assert (x - y) / t > 0.0;
    assert x / t - y / t == (x - y) / t;
  }

  /** How a monitored run ends: the values reported, and the error raised
      once the process has exited (the message the monitor wraps it in). */
  datatype RunReport = RunReport(progress: seq<real>, error: Option<string>)

  function MonitorFailure(returnCode: int, stderr: string): string {
    "FFmpeg progress monitoring failed: FFmpeg failed with return code " + IntToString(returnCode) + ": " + stderr
  }

  /** `_monitor_ffmpeg_progress`: read the progress lines, then fail on a
      non-zero exit status. */
  function MonitorProcess(lines: seq<string>, total: real, returnCode: int, stderr: string): (r: RunReport)
    ensures r.progress == Monitor(lines, total).emitted
    ensures r.error.None? <==> returnCode == 0
  {
    RunReport(Monitor(lines, total).emitted, if returnCode != 0 then Some(MonitorFailure(returnCode, stderr)) else None)
  }

  // ---------------------------------------------------------------- probe output

  const DurationLabel := "Duration: "

  /** `Duration: HH:MM:SS.cc` starts at index `i`: the label, then four
      two-digit fields separated by `:`, `:` and `.`. */
  predicate DurationAt(s: string, i: nat) {
    i + 21 <= |s| && s[i..i + 10] == DurationLabel
    && AllDigits(s[i + 10..i + 12]) && s[i + 12] == ':'
    && AllDigits(s[i + 13..i + 15]) && s[i + 15] == ':'
    && AllDigits(s[i + 16..i + 18]) && s[i + 18] == '.'
    && AllDigits(s[i + 19..i + 21])
  }

  /** The duration written at `i`, in hundredths of a second. */
  function CentisAt(s: string, i: nat): nat
    requires DurationAt(s, i)
  {
    DigitsValue(s[i + 10..i + 12]) * 360000 + DigitsValue(s[i + 13..i + 15]) * 6000
    + DigitsValue(s[i + 16..i + 18]) * 100 + DigitsValue(s[i + 19..i + 21])
  }

  /** The leftmost match at or after `from`, as `re.search` finds it. */
  function FindDuration(s: string, from: nat): (r: Option<nat>)
    ensures r.Some? ==> from <= r.value && DurationAt(s, r.value)
    ensures r.Some? ==> forall j :: from <= j < r.value ==> !DurationAt(s, j)
    ensures r.None? ==> forall j :: from <= j ==> !DurationAt(s, j)
    decreases |s| - from
  {
    if from + 21 > |s| then None
    else if DurationAt(s, from) then Some(from)
    else FindDuration(s, from + 1)
  }

  /** The probe's duration in hundredths of a second, or `None` when stderr
      holds no `Duration:` line. */
  function DurationCentis(stderr: string): (r: Option<nat>)
    ensures r.None? <==> forall j :: !DurationAt(stderr, j)
    ensures r.Some? ==> exists j: nat :: (DurationAt(stderr, j) && r.value == CentisAt(stderr, j)
      && forall k :: 0 <= k < j ==> !DurationAt(stderr, k))
  {
    match FindDuration(stderr, 0)
    case Some(i) => Some(CentisAt(stderr, i))
    case None => None
  }

  /** `hours * 3600 + minutes * 60 + seconds + centiseconds / 100`, 0 if absent. */
  function DurationSeconds(stderr: string): (r: real)
    ensures r >= 0.0
    ensures DurationCentis(stderr).None? ==> r == 0.0
  {
    match DurationCentis(stderr)
    case Some(c) => c as real / 100.0
    case None => 0.0
  }

  /** The line FFmpeg prints for a duration given field by field. */
  function DurationText(h: nat, m: nat, s: nat, c: nat): string
    requires h < 100 && m < 100 && s < 100 && c < 100
  {
    DurationLabel + PadNat(h, 2) + ":" + PadNat(m, 2) + ":" + PadNat(s, 2) + "." + PadNat(c, 2)
  }

  /** Where the fields of a duration line sit, whatever they hold. */
  lemma DurationFields(a: string, b: string, c: string, d: string, rest: string)
    requires |a| == 2 && |b| == 2 && |c| == 2 && |d| == 2
    ensures var t := DurationLabel + a + ":" + b + ":" + c + "." + d + rest;
      |t| >= 21 && t[0..10] == DurationLabel && t[10..12] == a && t[12] == ':' && t[13..15] == b
      && t[15] == ':' && t[16..18] == c && t[18] == '.' && t[19..21] == d
  {
  }

  /** A duration line at the start of stderr is read back as the time it
      shows. */
  lemma DurationRoundTrip(h: nat, m: nat, s: nat, c: nat, rest: string)
    requires h < 100 && m < 100 && s < 100 && c < 100
    ensures DurationSeconds(DurationText(h, m, s, c) + rest) == (h * 3600 + m * 60 + s) as real + c as real / 100.0
  {
    PadNatExact(h, 2); PadNatExact(m, 2); PadNatExact(s, 2); PadNatExact(c, 2);
    PadNatValue(h, 2); PadNatValue(m, 2); PadNatValue(s, 2); PadNatValue(c, 2);
    var t := DurationText(h, m, s, c) + rest;
    DurationFields(PadNat(h, 2), PadNat(m, 2), PadNat(s, 2), PadNat(c, 2), rest);
    assert DurationAt(t, 0);
    assert CentisAt(t, 0) == h * 360000 + m * 6000 + s * 100 + c;
  }

  /** What `_get_video_info_subprocess` returns. */
  datatype VideoInfo = VideoInfo(duration: real, hasAudio: bool, hasVideo: bool, sizeBytes: nat)

  /** The probe run: the stderr FFmpeg printed, or an exception (timeout,
      missing executable). */
  datatype Probe = ProbeOutput(stderr: string) | ProbeRaised

  const AudioMarker := "Audio:"
  const VideoMarker := "Video:"

  /** `_get_video_info_subprocess`: the stream flags are plain substring
      tests, the size is the file's own (0 if it cannot be read), and a
      failed probe yields the all-empty record. */
  function VideoInfoOf(fs: FileSystem, video: Path, probe: Probe): (r: VideoInfo)
    ensures probe.ProbeRaised? ==> r == VideoInfo(0.0, false, false, 0)
    ensures probe.ProbeOutput? ==> (r.hasAudio <==> exists j :: MatchesAt(probe.stderr, AudioMarker, j))
    ensures probe.ProbeOutput? ==> (r.hasVideo <==> exists j :: MatchesAt(probe.stderr, VideoMarker, j))
    ensures probe.ProbeOutput? ==> r.sizeBytes == (if video in fs then fs[video].size else 0)
    ensures r.duration >= 0.0
  {
    match probe
    case ProbeRaised => VideoInfo(0.0, false, false, 0)
    case ProbeOutput(stderr) =>
      ContainsIff(stderr, AudioMarker);
      ContainsIff(stderr, VideoMarker);
      VideoInfo(DurationSeconds(stderr), Contains(stderr, AudioMarker), Contains(stderr, VideoMarker),
        if video in fs then fs[video].size else 0)
  }

  // ---------------------------------------------------------------- validation

  /** `validate_video_file`'s `(is_valid, error_message)`. */
  datatype Verdict = Verdict(valid: bool, message: string)

  /** `validate_video_file`: exists, is a regular file, is not empty, has an
      audio stream, has a positive duration, tested in that order. */
  function ValidateVideoFile(fs: FileSystem, video: Path, probe: Probe): (r: Verdict)
    ensures r.valid <==> (IsFile(fs, video) && fs[video].size > 0
      && VideoInfoOf(fs, video, probe).hasAudio && VideoInfoOf(fs, video, probe).duration > 0.0)
    ensures r.valid <==> r.message == ""
    ensures video !in fs ==> r.message == "File does not exist: " + PathString(video)
  {
    if video !in fs then Verdict(false, "File does not exist: " + PathString(video))
    else if !IsFile(fs, video) then Verdict(false, "Path is not a file: " + PathString(video))
    else if fs[video].size == 0 then Verdict(false, "File is empty: " + PathString(video))
    else
      var info := VideoInfoOf(fs, video, probe);
      if !info.hasAudio then Verdict(false, "No audio stream found in video file")
      else if info.duration <= 0.0 then Verdict(false, "Video duration is zero or unknown")
      else Verdict(true, "")
  }

  /** One of the checks, with the message reported when it is the first to fail. */
  datatype Check = Check(passes: bool, message: string)

  /** The checks as a list, each stated on its own. */
  function ValidationChecks(fs: FileSystem, video: Path, probe: Probe): seq<Check> {
    var info := VideoInfoOf(fs, video, probe);
    [ Check(video in fs, "File does not exist: " + PathString(video)),
      Check(IsFile(fs, video), "Path is not a file: " + PathString(video)),
      Check(video in fs && fs[video].size > 0, "File is empty: " + PathString(video)),
      Check(info.hasAudio, "No audio stream found in video file"),
      Check(info.duration > 0.0, "Video duration is zero or unknown") ]
  }

  /** The verdict of a list of checks from index `from` on: the message of
      the first that fails. */
  function FirstFailure(checks: seq<Check>, from: nat): (r: Verdict)
    ensures r.valid <==> forall i :: from <= i < |checks| ==> checks[i].passes
    decreases |checks| - from
  {
    if from >= |checks| then Verdict(true, "")
    else if !checks[from].passes then Verdict(false, checks[from].message)
    else FirstFailure(checks, from + 1)
  }

  /** The validator reports exactly the first failing check of the list. */
  lemma ValidationIsFirstFailure(fs: FileSystem, video: Path, probe: Probe)
    ensures ValidateVideoFile(fs, video, probe) == FirstFailure(ValidationChecks(fs, video, probe), 0)
  {
    var c := ValidationChecks(fs, video, probe);
    assert FirstFailure(c, 4) == (if c[4].passes then Verdict(true, "") else Verdict(false, c[4].message));
    assert FirstFailure(c, 3) == (if c[3].passes then FirstFailure(c, 4) else Verdict(false, c[3].message));
    assert FirstFailure(c, 2) == (if c[2].passes then FirstFailure(c, 3) else Verdict(false, c[2].message));
    assert FirstFailure(c, 1) == (if c[1].passes then FirstFailure(c, 2) else Verdict(false, c[1].message));
  }

  // ---------------------------------------------------------------- extraction

  /** The settings `AudioProcessor` keeps: `output_format`, `sample_rate` and `channels`. */
  datatype AudioSettings = AudioSettings(outputFormat: string, sampleRate: int, channels: int)

  /** The defaults `AudioProcessor.__init__` starts from. */
  const DefaultSettings := AudioSettings("wav", 16000, 1)

  /** How the FFmpeg extraction process ended: its progress lines, exit
      status and stderr, or an exception (a timeout, a failed start). */
  datatype RunOutcome = Exited(progressLines: seq<string>, returnCode: int, stderr: string) | RunRaised(message: string)

  /** One extraction run: how it ended and what it left at the output path
      (`None`: it did not write there). */
  datatype FfmpegRun = FfmpegRun(outcome: RunOutcome, written: Option<Node>)

  /** The filesystem after extraction, the progress values reported, and the
      audio path or the exception. */
  datatype Extraction = Extraction(fs: FileSystem, progress: seq<real>, result: Result<Path, Raised>)

  /** The default output: the video's stem with the output format, directly
      in the temporary directory. */
  function DefaultAudioPath(tempDir: Path, video: Path, format: string): (r: Path)
    ensures Parent(r) == tempDir && Name(r) == Stem(Name(video)) + "." + format
  {
    ParentOfChild(tempDir, Stem(Name(video)) + "." + format);
    Child(tempDir, Stem(Name(video)) + "." + format)
  }

  /** The temporary name depends on the stem alone, so two videos that differ
      only in directory or extension share one audio path. */
  lemma SameStemSameAudioPath(tempDir: Path, d1: Path, d2: Path, stem: string, e1: string, e2: string, format: string)
    requires stem != "" && PlainSuffix(e1) && PlainSuffix(e2)
    ensures DefaultAudioPath(tempDir, Child(d1, stem + e1), format) == DefaultAudioPath(tempDir, Child(d2, stem + e2), format)
  {
    ParentOfChild(d1, stem + e1);
    ParentOfChild(d2, stem + e2);
    SplitName(stem, e1);
    SplitName(stem, e2);
  }

  function AudioTarget(settings: AudioSettings, tempDir: Path, video: Path, output: Option<Path>): Path {
    if output.Some? then output.value else DefaultAudioPath(tempDir, video, settings.outputFormat)
  }

  const EmptyOutputMessage := "Audio extraction failed: output file is empty or missing"

  /** The run part of `_extract_audio_subprocess`: monitored when a callback
      was given and the duration is known, otherwise a plain run whose
      non-zero exit status is an error. */
  function RunFfmpeg(outcome: RunOutcome, total: real, monitored: bool): (r: RunReport)
    ensures !monitored || total <= 0.0 ==> r.progress == []
    ensures forall i :: 0 <= i < |r.progress| ==> r.progress[i] <= 1.0
    ensures outcome.Exited? ==> (r.error.None? <==> outcome.returnCode == 0)
    ensures outcome.RunRaised? ==> r.error == Some(outcome.message)
  {
    match outcome
    case RunRaised(message) => RunReport([], Some(message))
    case Exited(lines, returnCode, stderr) =>
      if monitored && total > 0.0 then MonitorProcess(lines, total, returnCode, stderr)
      else RunReport([], if returnCode != 0 then Some("FFmpeg error: " + stderr) else None)
  }

  /** The filesystem once FFmpeg has written (or not) its output. */
  function Written(fs: FileSystem, target: Path, written: Option<Node>): (r: FileSystem)
    ensures forall p :: p != target ==> (p in r <==> p in fs) && (p in r ==> r[p] == fs[p])
    ensures written.Some? ==> target in r && r[target] == written.value
    ensures written.None? ==> r == fs
  {
    if written.Some? then fs[target := written.value] else fs
  }

  /** `path.unlink()` guarded by `path.exists()`, its failure on a directory
      swallowed. */
  function Unlinked(fs: FileSystem, path: Path): (r: FileSystem)
    ensures forall p :: p != path ==> (p in r <==> p in fs) && (p in r ==> r[p] == fs[p])
    ensures !IsFile(r, path)
    ensures path in r ==> path in fs && r[path] == fs[path]
  {
    if IsFile(fs, path) then fs - {path} else fs
  }

  /** `extract_audio` through the subprocess route. A missing video and a
      video without audio are refused before FFmpeg runs; afterwards any
      failure, including an empty or missing output, removes whatever file
      is left at the output path and is re-raised as `RuntimeError`. */
  function ExtractAudio(fs: FileSystem, settings: AudioSettings, tempDir: Path, video: Path, output: Option<Path>,
                        probe: Probe, run: FfmpegRun, withCallback: bool): (r: Extraction)
    ensures video !in fs ==>
      r == Extraction(fs, [], Failure(FileNotFoundError("Video file not found: " + PathString(video))))
    ensures video in fs && !VideoInfoOf(fs, video, probe).hasAudio ==>
      r == Extraction(fs, [], Failure(ValueError("No audio stream found in video: " + PathString(video))))
    ensures r.result.Success? ==> var t := r.result.value;
      t == AudioTarget(settings, tempDir, video, output) && t in r.fs && r.fs[t].size > 0
    ensures r.result.Success? <==> (video in fs && VideoInfoOf(fs, video, probe).hasAudio
      && run.outcome.Exited? && run.outcome.returnCode == 0
      && var t := AudioTarget(settings, tempDir, video, output);
         (if run.written.Some? then run.written.value.size > 0 else t in fs && fs[t].size > 0))
    ensures r.result.Failure? && video in fs && VideoInfoOf(fs, video, probe).hasAudio ==>
      r.result.error.RuntimeError?
    ensures r.result.Failure? && r.result.error.RuntimeError? ==>
      !IsFile(r.fs, AudioTarget(settings, tempDir, video, output))
    ensures forall p :: p != AudioTarget(settings, tempDir, video, output) ==>
      (p in r.fs <==> p in fs) && (p in r.fs ==> r.fs[p] == fs[p])
    ensures forall i :: 0 <= i < |r.progress| ==> r.progress[i] <= 1.0
    ensures r.progress != [] ==> withCallback && VideoInfoOf(fs, video, probe).duration > 0.0
  {
    if video !in fs then
      Extraction(fs, [], Failure(FileNotFoundError("Video file not found: " + PathString(video))))
    else
      var target := AudioTarget(settings, tempDir, video, output);
      var info := VideoInfoOf(fs, video, probe);
      if !info.hasAudio then
        Extraction(fs, [], Failure(ValueError("No audio stream found in video: " + PathString(video))))
      else
        var after := Written(fs, target, run.written);
        var report := RunFfmpeg(run.outcome, info.duration, withCallback);
        var error := if report.error.Some? then report.error
          else if target in after && after[target].size > 0 then None
          else Some(EmptyOutputMessage);
        if error.None? then Extraction(after, report.progress, Success(target))
        else
          Extraction(Unlinked(after, target), report.progress, Failure(RuntimeError("Audio extraction failed: " + error.value)))
  }

  // ---------------------------------------------------------------- temporary audio

  /** `cleanup_temp_audio`: removes the file only when it exists and sits
      directly in the temporary directory; a failed removal (of a directory)
      is swallowed, so the call never fails. */
  function CleanupTempAudio(fs: FileSystem, tempDir: Path, audio: Path): (r: FileSystem)
    ensures forall p :: p != audio ==> (p in r <==> p in fs) && (p in r ==> r[p] == fs[p])
    ensures audio !in r <==> audio !in fs || (IsFile(fs, audio) && Parent(audio) == tempDir)
    ensures audio in r ==> r[audio] == fs[audio]
  {
    if audio in fs && Parent(audio) == tempDir && IsFile(fs, audio) then fs - {audio} else fs
  }

  lemma SameOutside(a: FileSystem, b: FileSystem, t: Path)
    requires forall p :: p != t ==> (p in a <==> p in b) && (p in a ==> a[p] == b[p])
    ensures a - {t} == b - {t}
  {
  }

  /** Extracting to the default path and cleaning up afterwards leaves the
      filesystem as it was, except that a file that already sat at that
      path is gone. */
  lemma ExtractThenCleanup(fs: FileSystem, settings: AudioSettings, tempDir: Path, video: Path,
                           probe: Probe, run: FfmpegRun, withCallback: bool)
    requires var r := ExtractAudio(fs, settings, tempDir, video, None, probe, run, withCallback);
      r.result.Success? && IsFile(r.fs, r.result.value)
    ensures var r := ExtractAudio(fs, settings, tempDir, video, None, probe, run, withCallback);
      CleanupTempAudio(r.fs, tempDir, r.result.value) == fs - {r.result.value}
  {
    var r := ExtractAudio(fs, settings, tempDir, video, None, probe, run, withCallback);
    var t := r.result.value;
    assert Parent(t) == tempDir;
    assert CleanupTempAudio(r.fs, tempDir, t) == r.fs - {t};
    SameOutside(r.fs, fs, t);
  }
}
