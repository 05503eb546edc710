/** `FileManager`: video discovery, the output-path rule, the processing
    history (ledger and counters), temp-file selection, the per-extension
    summary and relocation of processed videos. The filesystem is a
    snapshot passed in; `normalize_path` has already been applied to the
    directories, so every path is absolute. */
module FileManager {
  import opened Wrappers
  import opened Text
  import opened Paths

  // ---------------------------------------------------------------- formats

  /** The ten video suffixes the tool accepts, lower case. */
  const VideoExtensions: set<string> :=
    {".mp4", ".avi", ".mov", ".mkv", ".flv", ".webm", ".m4v", ".wmv", ".3gp", ".ogv"}

  /** A file name whose lower-cased suffix is an accepted video suffix. */
  predicate IsVideoName(name: string) {
    Lower(Suffix(name)) in VideoExtensions
  }

  /** A name made of a non-empty stem and a plain suffix is a video name
      exactly when the lower-cased suffix is accepted. */
  lemma VideoNameBySuffix(stem: string, ext: string)
    requires stem != "" && PlainSuffix(ext)
    ensures IsVideoName(stem + ext) <==> Lower(ext) in VideoExtensions
  {
    SplitName(stem, ext);
  }

  /** The five suffixes of the names the file-manager tests create, with
      any stem in place of theirs: exactly the three video names qualify. */
  lemma TestNamesQualify(stem: string, ext: string)
    requires stem != "" && ext in [".mp4", ".avi", ".mov", ".txt", ".mp3"]
    ensures IsVideoName(stem + ext) <==> ext in [".mp4", ".avi", ".mov"]
  {
    NameVerdict(stem, ext, ext in [".mp4", ".avi", ".mov"]);
  }

  lemma NameVerdict(stem: string, ext: string, accepted: bool)
    requires stem != "" && PlainSuffix(ext) && NoUpper(ext)
    requires ext in VideoExtensions <==> accepted
    ensures IsVideoName(stem + ext) == accepted
  {
    LowerOfNoUpper(ext);
    VideoNameBySuffix(stem, ext);
  }

  // ---------------------------------------------------------------- history

  /** One ledger entry, as `mark_processed` writes it; `processedAt` is the
      ISO timestamp the clock gave. */
  datatype Entry = Entry(
    processedAt: string, outputFile: Path, duration: real, processingTime: real,
    modelUsed: string, success: bool, error: string)

  /** The `statistics` block: attempts, not distinct files. */
  datatype Statistics = Statistics(
    totalProcessed: nat, successful: nat, failed: nat, totalDuration: real, totalProcessingTime: real)

  /** The processing history: entries keyed by the video's absolute path. */
  datatype History = History(processedFiles: map<Path, Entry>, statistics: Statistics)

  const EmptyHistory := History(map[], Statistics(0, 0, 0, 0.0, 0.0))

  /** Every attempt is either a success or a failure. */
  predicate Consistent(s: Statistics) {
    s.totalProcessed == s.successful + s.failed
  }

  /** What reading `.processing_history.json` gives: no file, a file
      `json.load` rejects (or that cannot be opened), or a parsed history. */
  datatype HistoryFile = Missing | Unreadable | Parsed(history: History)

  /** `_load_processing_history`: a missing or unreadable file gives the
      empty history with zeroed statistics rather than an error. */
  function LoadHistory(f: HistoryFile): (h: History)
    ensures !f.Parsed? ==> h.processedFiles == map[] && h.statistics.totalProcessed == 0
    ensures !f.Parsed? ==> Consistent(h.statistics) && h.statistics.totalDuration == 0.0 && h.statistics.totalProcessingTime == 0.0
    ensures f.Parsed? ==> h == f.history
  {
    if f.Parsed? then f.history else EmptyHistory
  }

  // ---------------------------------------------------------------- output path

  /** The directories a `FileManager` works with, already normalised. */
  datatype Dirs = Dirs(inputDir: Path, outputDir: Path, tempDir: Path)

  /** The message of the `AttributeError` the fallback branch raises. */
  const StrHasNoWithSuffix := "'str' object has no attribute 'with_suffix'"

  /** `get_output_path` as written: outside `input_dir` the fallback binds a
      `str`, so the following `with_suffix` call raises. */
  function GetOutputPathAsWritten(d: Dirs, video: Path, extension: string): (r: Result<Path, string>)
    ensures RelativeTo(video, d.inputDir).None? ==> r == Failure(StrHasNoWithSuffix)
  {
    match RelativeTo(video, d.inputDir)
    case None => Failure(StrHasNoWithSuffix)
    case Some(rel) =>
      match WithSuffix(rel, extension)
      case Failure(e) => Failure(e)
      case Success(q) => Success(Path(d.outputDir.parts + q))
  }

  /** The relative path the output name is built from: the path below
      `input_dir`, or `Path(video.name)` outside it (the intended fallback). */
  function OutputRelative(d: Dirs, video: Path): (rel: seq<string>)
    ensures RelativeTo(video, d.inputDir).Some? ==> rel == RelativeTo(video, d.inputDir).value
    ensures RelativeTo(video, d.inputDir).None? ==> rel == if Name(video) == "" then [] else [Name(video)]
  {
    match RelativeTo(video, d.inputDir)
    case Some(rel) => rel
    case None => if Name(video) == "" then [] else [Name(video)]
  }

  /** `get_output_path` with the fallback working as intended: the output
      mirrors the video's place below `input_dir` under `output_dir`, with
      the suffix replaced; a video elsewhere lands directly in `output_dir`. */
  function GetOutputPath(d: Dirs, video: Path, extension: string): (r: Result<Path, string>)
    ensures r.Success? <==> WithSuffix(OutputRelative(d, video), extension).Success?
    ensures r.Success? ==> r.value.parts == d.outputDir.parts + WithSuffix(OutputRelative(d, video), extension).value
  {
    match WithSuffix(OutputRelative(d, video), extension)
    case Failure(e) => Failure(e)
    case Success(q) => Success(Path(d.outputDir.parts + q))
  }

  /** The two definitions differ only outside `input_dir`. */
  lemma OutputPathAgreesInside(d: Dirs, video: Path, extension: string)
    requires RelativeTo(video, d.inputDir).Some?
    ensures GetOutputPathAsWritten(d, video, extension) == GetOutputPath(d, video, extension)
  {
  }

  /** The defect: a video outside `input_dir` with a non-empty name has an
      output path by the intended rule (directly in `output_dir`), but the
      code as written raises. */
  lemma OutputPathFallbackDefect(d: Dirs, video: Path, extension: string)
    requires RelativeTo(video, d.inputDir).None? && Name(video) != "" && PlainSuffix(extension)
    ensures GetOutputPathAsWritten(d, video, extension) == Failure(StrHasNoWithSuffix)
    ensures GetOutputPath(d, video, extension) == Success(Child(d.outputDir, Stem(Name(video)) + extension))
  {
  }

  /** Replacing a plain suffix keeps the stem: the new name has the old
      name's stem and the new suffix. */
  lemma ReplacedSuffix(name: string, ext: string)
    requires name != "" && PlainSuffix(ext)
    ensures Stem(Stem(name) + ext) == Stem(name) && Suffix(Stem(name) + ext) == ext
  {
    StemSuffixSplit(name);
    assert Stem(name) != "" by {
      if SuffixDot(name).None? { assert Stem(name) == name; }
    }
    SplitName(Stem(name), ext);
  }

  /** Below `input_dir`, the output keeps the sub-directories and the stem,
      lies under `output_dir` and carries the requested suffix. */
  lemma OutputPathMirrors(d: Dirs, video: Path, extension: string)
    requires Below(video, d.inputDir) && Name(video) != "" && PlainSuffix(extension)
    ensures var r := GetOutputPath(d, video, extension);
      && r.Success?
      && |r.value.parts| == |d.outputDir.parts| + |video.parts| - |d.inputDir.parts|
      && r.value.parts[..|d.outputDir.parts|] == d.outputDir.parts
      && r.value.parts[|d.outputDir.parts|..|r.value.parts| - 1] == video.parts[|d.inputDir.parts|..|video.parts| - 1]
      && Stem(Name(r.value)) == Stem(Name(video))
      && Suffix(Name(r.value)) == extension
  {
    var rel := OutputRelative(d, video);
    assert rel == video.parts[|d.inputDir.parts|..];
    assert rel[|rel| - 1] == Name(video);
    var q := WithSuffix(rel, extension).value;
    var r := GetOutputPath(d, video, extension).value;
    assert r.parts == d.outputDir.parts + q;
    assert Name(r) == q[|q| - 1] == Stem(Name(video)) + extension;
    ReplacedSuffix(Name(video), extension);
    assert r.parts[|d.outputDir.parts|..|r.parts| - 1] == q[..|q| - 1] == rel[..|rel| - 1];
  }

  // ---------------------------------------------------------------- ledger

  /** `is_processed` (the output name always uses `.txt`): a skip needs
      `skip_existing`, an existing non-empty output, and a successful
      ledger entry for the video. An output file alone is not enough. */
  function IsProcessed(d: Dirs, h: History, fs: FileSystem, video: Path, skipExisting: bool): (r: Result<bool, string>)
    ensures !skipExisting ==> r == Success(false)
    ensures skipExisting && GetOutputPath(d, video, ".txt").Failure? ==> r == Failure(GetOutputPath(d, video, ".txt").error)
    ensures r == Success(true) <==>
      && skipExisting
      && GetOutputPath(d, video, ".txt").Success?
      && GetOutputPath(d, video, ".txt").value in fs
      && video in h.processedFiles && h.processedFiles[video].success
      && fs[GetOutputPath(d, video, ".txt").value].size > 0
  {
    if !skipExisting then Success(false)
    else
      match GetOutputPath(d, video, ".txt")
      case Failure(e) => Failure(e)
      case Success(out) =>
        if out !in fs then Success(false)
        else if video in h.processedFiles && h.processedFiles[video].success && fs[out].size > 0 then Success(true)
        else Success(false)
  }

  /** What one `mark_processed` call is told. */
  datatype Attempt = Attempt(
    video: Path, success: bool, duration: real, processingTime: real, modelUsed: string, error: string)

  /** The statistics after recording one more attempt. */
  function Count(s: Statistics, success: bool, duration: real, processingTime: real): (r: Statistics)
    ensures r.totalProcessed == s.totalProcessed + 1
    ensures r.successful + r.failed == s.successful + s.failed + 1
    ensures success ==> r.successful == s.successful + 1 && r.failed == s.failed
    ensures !success ==> r.failed == s.failed + 1 && r.successful == s.successful
  {
    Statistics(
      s.totalProcessed + 1,
      if success then s.successful + 1 else s.successful,
      if success then s.failed else s.failed + 1,
      s.totalDuration + duration,
      s.totalProcessingTime + processingTime)
  }

  /** `mark_processed`: overwrites the one entry keyed by the video, records
      the `.txt` output path and keeps the error text only for a failure,
      then counts the attempt. Deriving the output path may raise first, in
      which case nothing changes. */
  function MarkProcessed(d: Dirs, h: History, a: Attempt, now: string): (r: Result<History, string>)
    ensures r.Success? <==> GetOutputPath(d, a.video, ".txt").Success?
    ensures r.Success? ==> r.value.processedFiles.Keys == h.processedFiles.Keys + {a.video}
    ensures r.Success? ==> forall k :: k in h.processedFiles && k != a.video ==> r.value.processedFiles[k] == h.processedFiles[k]
    ensures r.Success? ==> var e := r.value.processedFiles[a.video];
      && e.success == a.success && e.outputFile == GetOutputPath(d, a.video, ".txt").value
      && e.error == (if a.success then "" else a.error) && e.modelUsed == a.modelUsed
    ensures r.Success? ==> r.value.statistics.totalProcessed == h.statistics.totalProcessed + 1
    ensures r.Success? ==> r.value.statistics.totalDuration == h.statistics.totalDuration + a.duration
    ensures r.Success? ==> r.value.statistics.totalProcessingTime == h.statistics.totalProcessingTime + a.processingTime
  {
    match GetOutputPath(d, a.video, ".txt")
    case Failure(e) => Failure(e)
    case Success(out) =>
      var entry := Entry(now, out, a.duration, a.processingTime, a.modelUsed, a.success, if a.success then "" else a.error);
      Success(History(h.processedFiles[a.video := entry], Count(h.statistics, a.success, a.duration, a.processingTime)))
  }

  /** Recording an attempt keeps `total_processed = successful + failed`. */
  lemma MarkKeepsConsistent(d: Dirs, h: History, a: Attempt, now: string)
    requires Consistent(h.statistics)
    ensures MarkProcessed(d, h, a, now).Success? ==> Consistent(MarkProcessed(d, h, a, now).value.statistics)
  {
  }

  /** `get_processing_stats`: a copy of the statistics block. */
  function GetProcessingStats(h: History): (s: Statistics)
    ensures Consistent(h.statistics) ==> s.totalProcessed == s.successful + s.failed
    ensures s.successful <= s.totalProcessed || !Consistent(h.statistics)
  {
    h.statistics
  }

  /** After a successful attempt whose output exists and is non-empty, the
      video counts as processed; after a failed one it does not. */
  lemma ProcessedAfterSuccess(d: Dirs, h: History, fs: FileSystem, a: Attempt, now: string)
    requires MarkProcessed(d, h, a, now).Success?
    ensures var out := GetOutputPath(d, a.video, ".txt").value;
      IsProcessed(d, MarkProcessed(d, h, a, now).value, fs, a.video, true) ==
        Success(a.success && out in fs && fs[out].size > 0)
  {
  }

  /** An output file with no ledger entry does not make a video processed
      (whatever the test suite expects). */
  lemma OutputAloneIsNotProcessed(d: Dirs, fs: FileSystem, video: Path)
    ensures IsProcessed(d, EmptyHistory, fs, video, true).Success? ==> IsProcessed(d, EmptyHistory, fs, video, true) == Success(false)
  {
  }

  /** The history after a sequence of `mark_processed` calls, stopping at
      the first that raises. */
  function MarkAll(d: Dirs, h: History, attempts: seq<Attempt>, now: string): (r: Result<History, string>)
    decreases |attempts|
  {
    if |attempts| == 0 then Success(h)
    else
      match MarkProcessed(d, h, attempts[0], now)
      case Failure(e) => Failure(e)
      case Success(h') => MarkAll(d, h', attempts[1..], now)
  }

  /** How many of the attempts succeeded. */
  function Successes(attempts: seq<Attempt>): (n: nat)
    ensures n <= |attempts|
  {
    if |attempts| == 0 then 0 else (if attempts[0].success then 1 else 0) + Successes(attempts[1..])
  }

  /** Replaying attempts counts each one once, successes into `successful`
      and the rest into `failed`, whether or not the videos repeat. */
  lemma {:induction false} MarkAllCounts(d: Dirs, h: History, attempts: seq<Attempt>, now: string)
    requires MarkAll(d, h, attempts, now).Success?
    ensures var s := MarkAll(d, h, attempts, now).value.statistics;
      && s.totalProcessed == h.statistics.totalProcessed + |attempts|
      && s.successful == h.statistics.successful + Successes(attempts)
      && s.failed == h.statistics.failed + (|attempts| - Successes(attempts))
    decreases |attempts|
  {
    if |attempts| > 0 {
      var h' := MarkProcessed(d, h, attempts[0], now).value;
      MarkAllCounts(d, h', attempts[1..], now);
    }
  }

  /** The videos of a sequence of attempts. */
  function Videos(attempts: seq<Attempt>): (r: set<Path>)
    ensures forall i :: 0 <= i < |attempts| ==> attempts[i].video in r
  {
    if |attempts| == 0 then {} else {attempts[0].video} + Videos(attempts[1..])
  }

  /** The ledger holds one entry per distinct video attempted. */
  lemma {:induction false} MarkAllKeys(d: Dirs, h: History, attempts: seq<Attempt>, now: string)
    requires MarkAll(d, h, attempts, now).Success?
    ensures MarkAll(d, h, attempts, now).value.processedFiles.Keys == h.processedFiles.Keys + Videos(attempts)
    decreases |attempts|
  {
    if |attempts| > 0 {
      var h' := MarkProcessed(d, h, attempts[0], now).value;
      MarkAllKeys(d, h', attempts[1..], now);
    }
  }

  /** The statistics test: one success then one failure from the empty
      history gives two attempts, one of each, with durations and times
      summed. */
  lemma StatisticsExample(d: Dirs, v1: Path, v2: Path, now: string)
    requires GetOutputPath(d, v1, ".txt").Success? && GetOutputPath(d, v2, ".txt").Success?
    ensures var attempts := [Attempt(v1, true, 100.0, 25.0, "medium", ""), Attempt(v2, false, 0.0, 5.0, "medium", "Test error")];
      var r := MarkAll(d, EmptyHistory, attempts, now);
      && r.Success?
      && r.value.statistics == Statistics(2, 1, 1, 100.0, 30.0)
  {
    var a1 := Attempt(v1, true, 100.0, 25.0, "medium", "");
    var a2 := Attempt(v2, false, 0.0, 5.0, "medium", "Test error");
    var h1 := MarkProcessed(d, EmptyHistory, a1, now).value;
    assert h1.statistics == Statistics(1, 1, 0, 100.0, 25.0);
    var h2 := MarkProcessed(d, h1, a2, now).value;
    assert h2.statistics == Statistics(2, 1, 1, 100.0, 30.0);
    assert [a1, a2][1..] == [a2];
    assert MarkAll(d, h1, [a2], now) == Success(h2);
  }

  // ---------------------------------------------------------------- discovery

  /** An entry `scan_videos` keeps: a regular file with a video suffix. */
  predicate IsVideo(fs: FileSystem, p: Path) {
    IsFile(fs, p) && IsVideoName(Name(p))
  }

  // What the glob walks: `**/*` below the directory, or `*` in it.
  function ScanScope(fs: FileSystem, dir: Path, recursive: bool): set<Path> {
    if recursive then Descendants(fs, dir) else Children(fs, dir)
  }

  /** The videos a scan finds, as a set. */
  function VideosIn(fs: FileSystem, dir: Path, recursive: bool): (r: set<Path>)
    ensures forall p :: p in r <==> p in ScanScope(fs, dir, recursive) && IsVideo(fs, p)
  {
    set p | p in ScanScope(fs, dir, recursive) && IsVideo(fs, p)
  }

  function MissingInputMessage(dir: Path): string {
    "Input directory does not exist: " + PathString(dir)
  }

  function NotDirectoryMessage(dir: Path): string {
    "Input path is not a directory: " + PathString(dir)
  }

  /** `scan_videos`: a missing directory is reported before a directory
      that is a file; otherwise the videos in scope, each once, sorted. */
  method ScanVideos(fs: FileSystem, dir: Path, recursive: bool) returns (r: Result<seq<Path>, string>)
    ensures dir !in fs ==> r == Failure(MissingInputMessage(dir))
    ensures dir in fs && !IsDir(fs, dir) ==> r == Failure(NotDirectoryMessage(dir))
    ensures IsDir(fs, dir) ==> r.Success? && StrictlySorted(r.value) && Elems(r.value) == VideosIn(fs, dir, recursive)
    ensures IsDir(fs, dir) ==> r == Success(SortedOf(VideosIn(fs, dir, recursive)))
  {
    if dir !in fs {
      return Failure(MissingInputMessage(dir));
    }
    if !IsDir(fs, dir) {
      return Failure(NotDirectoryMessage(dir));
    }
    var sorted := SortPaths(VideosIn(fs, dir, recursive));
    return Success(sorted);
  }

  /** A non-recursive scan finds a subset of what a recursive one finds,
      and both find only videos below the directory. */
  lemma ShallowScanWithinDeep(fs: FileSystem, dir: Path)
    ensures VideosIn(fs, dir, false) <= VideosIn(fs, dir, true)
    ensures forall p :: p in VideosIn(fs, dir, true) ==> Below(p, dir) && IsFile(fs, p)
  {
  }

  // ---------------------------------------------------------------- relocation

  /** The `k`-th alternative name in `dir` for a file called `name`:
      `stem_k.suffix`. */
  function Candidate(dir: Path, name: string, k: nat): Path {
    Child(dir, Stem(name) + "_" + NatToString(k) + Suffix(name))
  }

  /** Different counters give different names. */
  lemma CandidateInjective(dir: Path, name: string, j: nat, k: nat)
    requires Candidate(dir, name, j) == Candidate(dir, name, k)
    ensures j == k
  {
    var a := Stem(name) + "_" + NatToString(j) + Suffix(name);
    var b := Stem(name) + "_" + NatToString(k) + Suffix(name);
    assert a == Name(Candidate(dir, name, j)) == Name(Candidate(dir, name, k)) == b;
    var n := |Stem(name)| + 1;
    assert |NatToString(j)| == |NatToString(k)|;
    assert a[n..n + |NatToString(j)|] == NatToString(j);
    assert b[n..n + |NatToString(k)|] == NatToString(k);
    NatToStringInjective(j, k);
  }

  /** The alternatives tried before the `k`-th. */
  function CandidatesBelow(dir: Path, name: string, k: nat): set<Path> {
    set j | 1 <= j < k :: Candidate(dir, name, j)
  }

  lemma {:induction false} CandidatesBelowSize(dir: Path, name: string, k: nat)
    requires k >= 1
    ensures |CandidatesBelow(dir, name, k)| == k - 1
  {
    if k > 1 {
      CandidatesBelowSize(dir, name, k - 1);
      var prev := CandidatesBelow(dir, name, k - 1);
      var c := Candidate(dir, name, k - 1);
      assert CandidatesBelow(dir, name, k) == prev + {c};
      if c in prev {
        var j :| 1 <= j < k - 1 && Candidate(dir, name, j) == c;
        CandidateInjective(dir, name, j, k - 1);
      }
    }
  }

  lemma SubsetSize<T>(a: set<T>, b: set<T>)
    requires a <= b
    ensures |a| <= |b|
  {
    if a != {} {
      var x :| x in a;
      SubsetSize(a - {x}, b - {x});
    }
  }

  /** The first counter from `k` on whose name is free; it exists because
      the names are distinct and the filesystem finite. */
  function FreeCounter(fs: FileSystem, dir: Path, name: string, k: nat): (r: nat)
    requires k >= 1
    requires forall j :: 1 <= j < k ==> Candidate(dir, name, j) in fs
    ensures r >= k && Candidate(dir, name, r) !in fs
    ensures forall j :: k <= j < r ==> Candidate(dir, name, j) in fs
    decreases |fs| + 1 - k
  {
    if Candidate(dir, name, k) !in fs then k
    else
      CandidatesBelowSize(dir, name, k + 1);
      SubsetSize(CandidatesBelow(dir, name, k + 1), fs.Keys);
      FreeCounter(fs, dir, name, k + 1)
  }

  /** Where `move_processed_file` puts a file called `name`: `dir/name` if
      free, otherwise the first free `stem_k.suffix` for k = 1, 2, ... */
  function MoveTarget(fs: FileSystem, dir: Path, name: string): (r: Path)
    ensures r !in fs && Parent(r) == dir
    ensures Child(dir, name) !in fs ==> r == Child(dir, name)
    ensures Child(dir, name) in fs ==>
      exists k :: k >= 1 && r == Candidate(dir, name, k) && forall j :: 1 <= j < k ==> Candidate(dir, name, j) in fs
  {
    if Child(dir, name) !in fs then
      ParentOfChild(dir, name);
      Child(dir, name)
    else
      var k := FreeCounter(fs, dir, name, 1);
      ParentOfChild(dir, Stem(name) + "_" + NatToString(k) + Suffix(name));
      Candidate(dir, name, k)
  }

  /** What `move_processed_file` leaves behind: whether it reports success,
      the filesystem afterwards and, on success, where the file went. */
  datatype MoveOutcome = MoveOutcome(moved: bool, fs: FileSystem, target: Option<Path>)

  /** `move_processed_file`: creates the destination, picks a free name and
      moves the file there; any failure gives `False` (the directories made
      so far stay). */
  function MoveProcessedFile(fs: FileSystem, video: Path, destDir: Path): (r: MoveOutcome)
    ensures r.moved <==> MakeDirs(fs, destDir).Some? && IsFile(fs, video)
    ensures r.moved ==> r.target == Some(MoveTarget(MakeDirs(fs, destDir).value, destDir, Name(video)))
    ensures r.moved ==> r.target.value !in fs && r.target.value in r.fs && r.fs[r.target.value] == fs[video]
    ensures r.moved ==> video !in r.fs
    ensures r.moved ==> forall p :: p in fs && p != video ==> p in r.fs && r.fs[p] == fs[p]
    ensures !r.moved ==> r.target.None? && forall p :: p in fs ==> p in r.fs && r.fs[p] == fs[p]
  {
    match MakeDirs(fs, destDir)
    case None => MoveOutcome(false, fs, None)
    case Some(made) =>
      var target := MoveTarget(made, destDir, Name(video));
      if IsFile(made, video) then
        MoveOutcome(true, (made - {video})[target := made[video]], Some(target))
      else
        MoveOutcome(false, made, None)
  }

  /** The regular files of a filesystem. */
  function Files(fs: FileSystem): set<Path> {
    set p | p in fs && fs[p].kind == RegularFile
  }

  /** Making directories adds no files. */
  lemma MakeDirsAddsNoFiles(fs: FileSystem, d: Path)
    requires MakeDirs(fs, d).Some?
    ensures Files(MakeDirs(fs, d).value) == Files(fs)
  {
    var made := MakeDirs(fs, d).value;
    var missing := set i | 0 < i <= |d.parts| && Path(d.parts[..i]) !in fs :: Path(d.parts[..i]);
    var added := map q | q in missing :: Node(Directory, 0, 0.0);
    assert made == fs + added;
  }

  /** A move never overwrites: every entry other than the moved file is
      still there afterwards, with the same contents, and the file count
      is unchanged. */
  lemma MoveKeepsEverythingElse(fs: FileSystem, video: Path, destDir: Path)
    requires MoveProcessedFile(fs, video, destDir).moved
    ensures |Files(MoveProcessedFile(fs, video, destDir).fs)| == |Files(fs)|
  {
    var made := MakeDirs(fs, destDir).value;
    MakeDirsAddsNoFiles(fs, destDir);
    var target := MoveTarget(made, destDir, Name(video));
    var after := MoveProcessedFile(fs, video, destDir).fs;
    assert after == (made - {video})[target := made[video]];
    assert Files(after) == Files(made) - {video} + {target} by {
      forall p | p in Files(after) ensures p in Files(made) - {video} + {target} {
        if p != target {
          assert p in made && p != video && after[p] == made[p];
        }
      }
      forall p | p in Files(made) - {video} + {target} ensures p in Files(after) {
        if p != target {
          assert after[p] == made[p];
        }
      }
    }
    assert target !in Files(made) - {video};
  }

  // ---------------------------------------------------------------- temp files

  /** A temporary audio file and its `st_mtime`. */
  datatype TempFile = TempFile(path: Path, mtime: real)

  predicate NewestFirstOrder(s: seq<TempFile>) {
    forall i, j :: 0 <= i < j < |s| ==> s[i].mtime >= s[j].mtime
  }

  /** Puts `x` before the first file that is not newer than it. */
  function InsertNewestFirst(x: TempFile, s: seq<TempFile>): (r: seq<TempFile>)
    ensures multiset(r) == multiset(s) + multiset{x}
  {
    if |s| == 0 || s[0].mtime <= x.mtime then
      [x] + s
    else
      assert s == [s[0]] + s[1..];
      [s[0]] + InsertNewestFirst(x, s[1..])
  }

  /** Inserting puts `x` or the old first file first. */
  lemma InsertHead(x: TempFile, s: seq<TempFile>)
    ensures |InsertNewestFirst(x, s)| == |s| + 1
    ensures InsertNewestFirst(x, s)[0] == x || (|s| > 0 && InsertNewestFirst(x, s)[0] == s[0])
  {
  }

  /** Inserting into a newest-first list keeps it newest first. */
  lemma {:induction false} InsertKeepsOrder(x: TempFile, s: seq<TempFile>)
    requires NewestFirstOrder(s)
    ensures NewestFirstOrder(InsertNewestFirst(x, s))
    decreases |s|
  {
    if |s| > 0 && s[0].mtime > x.mtime {
      var t := InsertNewestFirst(x, s[1..]);
      InsertKeepsOrder(x, s[1..]);
      InsertHead(x, s[1..]);
      assert InsertNewestFirst(x, s) == [s[0]] + t;
      assert s[0].mtime >= t[0].mtime;
      forall j | 0 <= j < |t| ensures s[0].mtime >= t[j].mtime {
        assert t[0].mtime >= t[j].mtime || j == 0;
      }
    }
  }


  /** `sort(key=st_mtime, reverse=True)`: newest first; files with equal
      times keep their listing order. */
  function SortNewestFirst(s: seq<TempFile>): (r: seq<TempFile>)
    ensures multiset(r) == multiset(s) && |r| == |s|
    ensures NewestFirstOrder(r)
  {
    if |s| == 0 then []
    else
      assert s == [s[0]] + s[1..];
      InsertKeepsOrder(s[0], SortNewestFirst(s[1..]));
      InsertNewestFirst(s[0], SortNewestFirst(s[1..]))
  }

  function Min(a: int, b: int): int {
    if a <= b then a else b
  }

  /** How many of the files the cleanup keeps. */
  function KeepCount(files: seq<TempFile>, keepRecent: int): (k: nat)
    ensures k <= |files|
  {
    if keepRecent > 0 then Min(keepRecent, |files|) else 0
  }

  /** The files `cleanup_temp_files` keeps: the `keep_recent` newest. */
  function KeptTempFiles(files: seq<TempFile>, keepRecent: int): (r: seq<TempFile>)
    ensures |r| == KeepCount(files, keepRecent)
  {
    if keepRecent > 0 then SortNewestFirst(files)[..KeepCount(files, keepRecent)] else []
  }

  /** The files `cleanup_temp_files` deletes: all of them when
      `keep_recent <= 0`, otherwise all but the `keep_recent` newest. */
  function TempFilesToDelete(files: seq<TempFile>, keepRecent: int): (r: seq<TempFile>)
    ensures keepRecent <= 0 ==> r == files
    ensures keepRecent > 0 ==> |r| == (if keepRecent >= |files| then 0 else |files| - keepRecent)
  {
    if keepRecent > 0 then SortNewestFirst(files)[KeepCount(files, keepRecent)..] else files
  }

  /** The kept and the deleted files together are the listing, and no kept
      file is older than a deleted one. */
  lemma TempSelectionSplit(files: seq<TempFile>, keepRecent: int)
    ensures multiset(KeptTempFiles(files, keepRecent)) + multiset(TempFilesToDelete(files, keepRecent)) == multiset(files)
    ensures forall i, j :: 0 <= i < |KeptTempFiles(files, keepRecent)| && 0 <= j < |TempFilesToDelete(files, keepRecent)| ==>
      KeptTempFiles(files, keepRecent)[i].mtime >= TempFilesToDelete(files, keepRecent)[j].mtime
  {
    if keepRecent > 0 {
      var s := SortNewestFirst(files);
      var k := KeepCount(files, keepRecent);
      assert s == s[..k] + s[k..];
      forall i, j | 0 <= i < k && 0 <= j < |s| - k ensures s[..k][i].mtime >= s[k..][j].mtime {
        assert s[..k][i] == s[i] && s[k..][j] == s[k + j];
      }
    }
  }

  /** The kept and the deleted files together are the listing. */
  lemma TempSelectionParts(files: seq<TempFile>, keepRecent: int)
    ensures multiset(KeptTempFiles(files, keepRecent)) + multiset(TempFilesToDelete(files, keepRecent)) == multiset(files)
  {
    TempSelectionSplit(files, keepRecent);
  }

  /** The audio temp directory and what `glob('*.wav')` finds in it. */
  function AudioTempDir(tempDir: Path): Path {
    Child(tempDir, "audio")
  }

  function TempWavs(fs: FileSystem, tempDir: Path): (r: set<Path>)
    ensures forall p :: p in r ==> p in fs && Parent(p) == AudioTempDir(tempDir)
  {
    set p | p in Children(fs, AudioTempDir(tempDir)) && EndsWith(Name(p), ".wav")
  }

  /** The regular `.wav` files in the audio temp directory. */
  function RegularTempWavs(fs: FileSystem, tempDir: Path): set<Path> {
    set p | p in TempWavs(fs, tempDir) && IsFile(fs, p)
  }

  /** The paths of a list of temp files. */
  function TempPaths(files: seq<TempFile>): (r: set<Path>)
    ensures forall p :: p in r <==> exists i :: 0 <= i < |files| && files[i].path == p
  {
    set i | 0 <= i < |files| :: files[i].path
  }

  lemma TempPathsCons(files: seq<TempFile>)
    requires |files| > 0
    ensures TempPaths(files) == {files[0].path} + TempPaths(files[1..])
  {
    forall p | p in TempPaths(files) ensures p in {files[0].path} + TempPaths(files[1..]) {
      var i :| 0 <= i < |files| && files[i].path == p;
      if i > 0 { assert files[1..][i - 1].path == p; }
    }
    forall p | p in TempPaths(files[1..]) ensures p in TempPaths(files) {
      var i :| 0 <= i < |files[1..]| && files[1..][i].path == p;
      assert files[i + 1].path == p;
    }
  }

  /** The listing with each file's time, in the given order. */
  function Listing(fs: FileSystem, paths: seq<Path>): (r: seq<TempFile>)
    requires forall i :: 0 <= i < |paths| ==> paths[i] in fs
    ensures |r| == |paths|
    ensures forall i :: 0 <= i < |paths| ==> r[i] == TempFile(paths[i], fs[paths[i]].mtime)
  {
    if |paths| == 0 then [] else [TempFile(paths[0], fs[paths[0]].mtime)] + Listing(fs, paths[1..])
  }

  /** `unlink` on each file in turn: regular files go and are counted;
      anything else raises, is reported and stays. */
  function DeleteFiles(fs: FileSystem, files: seq<TempFile>): (r: (FileSystem, nat))
    ensures forall p :: p in r.0 <==> p in fs && !(IsFile(fs, p) && p in TempPaths(files))
    ensures forall p :: p in r.0 ==> r.0[p] == fs[p]
    ensures r.1 == |fs| - |r.0|
    decreases |files|
  {
    if |files| == 0 then (fs, 0)
    else
      var x := files[0].path;
      TempPathsCons(files);
      if IsFile(fs, x) then
        var rest := DeleteFiles(fs - {x}, files[1..]);
        assert (fs - {x}).Keys == fs.Keys - {x};
        (rest.0, rest.1 + 1)
      else
        DeleteFiles(fs, files[1..])
  }

  /** Every regular file the cleanup leaves in the audio directory is one
      of the kept ones. */
  lemma SurvivorsWereKept(fs: FileSystem, tempDir: Path, paths: seq<Path>, keepRecent: int, p: Path)
    requires Elems(paths) == TempWavs(fs, tempDir)
    requires forall i :: 0 <= i < |paths| ==> paths[i] in fs
    requires p in RegularTempWavs(fs, tempDir)
    requires p !in TempPaths(TempFilesToDelete(Listing(fs, paths), keepRecent))
    ensures p in TempPaths(KeptTempFiles(Listing(fs, paths), keepRecent))
  {
    var listing := Listing(fs, paths);
    var i :| 0 <= i < |paths| && paths[i] == p;
    var f := listing[i];
    assert f in multiset(listing);
    var kept := KeptTempFiles(listing, keepRecent);
    var del := TempFilesToDelete(listing, keepRecent);
    TempSelectionSplit(listing, keepRecent);
    if f in multiset(del) {
      assert false;
    }
    assert f in multiset(kept);
    var j :| 0 <= j < |kept| && kept[j] == f;
  }

  /** The number of distinct paths in a list is at most its length. */
  lemma {:induction false} TempPathsSize(files: seq<TempFile>)
    ensures |TempPaths(files)| <= |files|
  {
    if |files| > 0 {
      TempPathsSize(files[1..]);
      TempPathsCons(files);
      SubsetSize(TempPaths(files), {files[0].path} + TempPaths(files[1..]));
    }
  }

  /** Only regular `.wav` files of the audio directory are deleted. */
  lemma OnlyTempWavsDeleted(fs: FileSystem, tempDir: Path, paths: seq<Path>, keepRecent: int)
    requires Elems(paths) == TempWavs(fs, tempDir)
    requires forall i :: 0 <= i < |paths| ==> paths[i] in fs
    ensures var after := DeleteFiles(fs, TempFilesToDelete(Listing(fs, paths), keepRecent)).0;
      forall p :: p in fs && p !in after ==> p in RegularTempWavs(fs, tempDir)
  {
    var listing := Listing(fs, paths);
    var doomed := TempFilesToDelete(listing, keepRecent);
    TempSelectionSplit(listing, keepRecent);
    var after := DeleteFiles(fs, doomed).0;
    forall p | p in fs && p !in after ensures p in RegularTempWavs(fs, tempDir) {
      var i :| 0 <= i < |doomed| && doomed[i].path == p;
      assert doomed[i] in multiset(doomed);
      assert doomed[i] in multiset(listing);
      var j :| 0 <= j < |listing| && listing[j] == doomed[i];
      assert paths[j] == p;
    }
  }

  /** With `keep_recent > 0`, at most `keep_recent` regular `.wav` files
      remain in the audio directory. */
  lemma AtMostKeptRemain(fs: FileSystem, tempDir: Path, paths: seq<Path>, keepRecent: int)
    requires Elems(paths) == TempWavs(fs, tempDir)
    requires forall i :: 0 <= i < |paths| ==> paths[i] in fs
    requires keepRecent > 0
    ensures |RegularTempWavs(DeleteFiles(fs, TempFilesToDelete(Listing(fs, paths), keepRecent)).0, tempDir)| <= keepRecent
  {
    var listing := Listing(fs, paths);
    var after := DeleteFiles(fs, TempFilesToDelete(listing, keepRecent)).0;
    var kept := KeptTempFiles(listing, keepRecent);
    assert RegularTempWavs(after, tempDir) <= TempPaths(kept) by {
      forall p | p in RegularTempWavs(after, tempDir) ensures p in TempPaths(kept) {
        assert p in RegularTempWavs(fs, tempDir);
        SurvivorsWereKept(fs, tempDir, paths, keepRecent, p);
      }
    }
    SubsetSize(RegularTempWavs(after, tempDir), TempPaths(kept));
    TempPathsSize(kept);
  }

  /** A list without repeats holds each value at most once. */
  lemma {:induction false} DistinctCount<T>(s: seq<T>, x: T)
    requires forall i, j :: 0 <= i < j < |s| ==> s[i] != s[j]
    ensures multiset(s)[x] <= 1
    decreases |s|
  {
    if |s| > 0 {
      assert s == [s[0]] + s[1..];
      DistinctCount(s[1..], x);
      if s[0] == x {
        assert x !in s[1..];
      }
    }
  }

  /** When a list without repeats is split into two parts, no value lies
      in both. */
  lemma SplitDisjoint<T>(s: seq<T>, a: seq<T>, b: seq<T>, x: T)
    requires forall i, j :: 0 <= i < j < |s| ==> s[i] != s[j]
    requires multiset(a) + multiset(b) == multiset(s)
    requires x in a
    ensures x !in b
  {
    DistinctCount(s, x);
    assert multiset(a)[x] >= 1;
  }

  /** When a listing names each path once, a path is never both among the
      kept files and among the deleted ones. */
  lemma {:induction false} UniquePathsSplit(listing: seq<TempFile>, kept: seq<TempFile>, del: seq<TempFile>, p: Path)
    requires forall m, n :: 0 <= m < n < |listing| ==> listing[m].path != listing[n].path
    requires multiset(kept) + multiset(del) == multiset(listing)
    requires p in TempPaths(kept)
    ensures p !in TempPaths(del)
  {
    var a :| 0 <= a < |kept| && kept[a].path == p;
    assert kept[a] in multiset(listing);
    var i :| 0 <= i < |listing| && listing[i] == kept[a];
    assert forall m, n :: 0 <= m < n < |listing| ==> listing[m] != listing[n];
    SplitDisjoint(listing, kept, del, listing[i]);
    forall b | 0 <= b < |del| ensures del[b].path != p {
      assert del[b] in multiset(listing);
      var j :| 0 <= j < |listing| && listing[j] == del[b];
      assert j != i;
    }
  }

  /** The listing of a sorted path list names each path once, so no file
      is both kept and deleted: a kept regular `.wav` file survives. */
  lemma KeptSurvive(fs: FileSystem, paths: seq<Path>, keepRecent: int, p: Path)
    requires StrictlySorted(paths)
    requires forall i :: 0 <= i < |paths| ==> paths[i] in fs
    requires p in TempPaths(KeptTempFiles(Listing(fs, paths), keepRecent))
    ensures p !in TempPaths(TempFilesToDelete(Listing(fs, paths), keepRecent))
  {
    var listing := Listing(fs, paths);
    forall m, n | 0 <= m < n < |listing| ensures listing[m].path != listing[n].path {
      PathLessOrder(paths[m], paths[n], paths[n]);
    }
    TempSelectionParts(listing, keepRecent);
    UniquePathsSplit(listing, KeptTempFiles(listing, keepRecent), TempFilesToDelete(listing, keepRecent), p);
  }

  /** A temp WAV survives the deletion exactly when it is a kept one. */
  lemma ExactlyKeptRemain(fs: FileSystem, tempDir: Path, paths: seq<Path>, keepRecent: int)
    requires StrictlySorted(paths) && Elems(paths) == TempWavs(fs, tempDir)
    requires forall i :: 0 <= i < |paths| ==> paths[i] in fs
    ensures forall p :: p in RegularTempWavs(fs, tempDir) ==>
      (p in DeleteFiles(fs, TempFilesToDelete(Listing(fs, paths), keepRecent)).0 <==> p in TempPaths(KeptTempFiles(Listing(fs, paths), keepRecent)))
  {
    var listing := Listing(fs, paths);
    var after := DeleteFiles(fs, TempFilesToDelete(listing, keepRecent)).0;
    forall p | p in RegularTempWavs(fs, tempDir)
      ensures p in after <==> p in TempPaths(KeptTempFiles(listing, keepRecent))
    {
      if p in TempPaths(KeptTempFiles(listing, keepRecent)) {
        KeptSurvive(fs, paths, keepRecent, p);
      } else if p in after {
        SurvivorsWereKept(fs, tempDir, paths, keepRecent, p);
      }
    }
  }

  /** The directory listing `cleanup_temp_files` works on, in sorted order. */
  ghost function TempListing(fs: FileSystem, tempDir: Path): (r: seq<TempFile>)
    ensures forall i :: 0 <= i < |r| ==> r[i].path in TempWavs(fs, tempDir)
  {
    var paths := SortedOf(TempWavs(fs, tempDir));
    assert forall i :: 0 <= i < |paths| ==> paths[i] in Elems(paths);
    Listing(fs, paths)
  }

  /** The file system `cleanup_temp_files` leaves behind. */
  ghost function CleanupOutcome(fs: FileSystem, tempDir: Path, keepRecent: int): (r: FileSystem)
    ensures forall p :: p in r ==> p in fs && r[p] == fs[p]
  {
    if AudioTempDir(tempDir) !in fs then fs
    else DeleteFiles(fs, TempFilesToDelete(TempListing(fs, tempDir), keepRecent)).0
  }

  /** With the audio temp directory present, only temp WAVs go: all of
      them when `keep_recent <= 0`, otherwise all but the kept ones. */
  lemma CleanupOutcomeEffects(fs: FileSystem, tempDir: Path, keepRecent: int)
    requires AudioTempDir(tempDir) in fs
    ensures forall p :: p in fs && p !in CleanupOutcome(fs, tempDir, keepRecent) ==> p in RegularTempWavs(fs, tempDir)
    ensures keepRecent <= 0 ==> forall p :: p in RegularTempWavs(fs, tempDir) ==> p !in CleanupOutcome(fs, tempDir, keepRecent)
    ensures keepRecent > 0 ==> |RegularTempWavs(CleanupOutcome(fs, tempDir, keepRecent), tempDir)| <= keepRecent
    ensures keepRecent > 0 ==> forall p :: p in RegularTempWavs(fs, tempDir) ==>
      (p in CleanupOutcome(fs, tempDir, keepRecent) <==> p in TempPaths(KeptTempFiles(TempListing(fs, tempDir), keepRecent)))
  {
    var paths := SortedOf(TempWavs(fs, tempDir));
    assert forall i :: 0 <= i < |paths| ==> paths[i] in Elems(paths);
    var listing := Listing(fs, paths);
    assert listing == TempListing(fs, tempDir);
    var after := DeleteFiles(fs, TempFilesToDelete(listing, keepRecent)).0;
    assert after == CleanupOutcome(fs, tempDir, keepRecent);
    OnlyTempWavsDeleted(fs, tempDir, paths, keepRecent);
    if keepRecent <= 0 {
      forall p | p in RegularTempWavs(fs, tempDir) ensures p !in after {
        var i :| 0 <= i < |paths| && paths[i] == p;
        assert listing[i].path == p;
      }
    } else {
      AtMostKeptRemain(fs, tempDir, paths, keepRecent);
      ExactlyKeptRemain(fs, tempDir, paths, keepRecent);
    }
  }

  /** `cleanup_temp_files`: nothing happens without the audio temp
      directory; otherwise the selected `.wav` files are unlinked. The
      listing order of the directory is taken to be sorted order. */
  method CleanupTempFiles(fs: FileSystem, tempDir: Path, keepRecent: int) returns (after: FileSystem, deleted: nat)
    ensures AudioTempDir(tempDir) !in fs ==> after == fs && deleted == 0
    ensures forall p :: p in after ==> p in fs && after[p] == fs[p]
    ensures forall p :: p in fs && p !in after ==> p in RegularTempWavs(fs, tempDir)
    ensures deleted == |fs| - |after|
    ensures AudioTempDir(tempDir) in fs && keepRecent <= 0 ==> forall p :: p in RegularTempWavs(fs, tempDir) ==> p !in after
    ensures AudioTempDir(tempDir) in fs && keepRecent > 0 ==> |RegularTempWavs(after, tempDir)| <= keepRecent
    ensures AudioTempDir(tempDir) in fs && keepRecent > 0 ==> forall p :: p in RegularTempWavs(fs, tempDir) ==>
      (p in after <==> p in TempPaths(KeptTempFiles(TempListing(fs, tempDir), keepRecent)))
    ensures after == CleanupOutcome(fs, tempDir, keepRecent)
  {
    if AudioTempDir(tempDir) !in fs {
      return fs, 0;
    }
    var paths := SortPaths(TempWavs(fs, tempDir));
    var r := DeleteFiles(fs, TempFilesToDelete(Listing(fs, paths), keepRecent));
    after, deleted := r.0, r.1;
    assert after == CleanupOutcome(fs, tempDir, keepRecent);
    CleanupOutcomeEffects(fs, tempDir, keepRecent);
  }


  // ---------------------------------------------------------------- summary

  /** One `by_extension` entry: how many videos have the suffix and their
      total size. */
  datatype ExtensionTally = ExtensionTally(ext: string, count: nat, size: nat)

  /** `get_video_files_summary`; `formats_found` is `Formats(byExtension)`. */
  datatype Summary = Summary(totalFiles: nat, totalSize: nat, byExtension: seq<ExtensionTally>)

  function FileExt(p: Path): string {
    Lower(Suffix(Name(p)))
  }

  /** The size `stat` reports; a file that has gone since the scan raises
      there, and the source then counts it without a size. */
  function StatSize(fs: FileSystem, p: Path): nat {
    if p in fs then fs[p].size else 0
  }

  function Formats(gs: seq<ExtensionTally>): (r: seq<string>)
    ensures |r| == |gs| && forall i :: 0 <= i < |gs| ==> r[i] == gs[i].ext
  {
    if |gs| == 0 then [] else [gs[0].ext] + Formats(gs[1..])
  }

  function CountSum(gs: seq<ExtensionTally>): nat {
    if |gs| == 0 then 0 else gs[0].count + CountSum(gs[1..])
  }

  function SizeSum(gs: seq<ExtensionTally>): nat {
    if |gs| == 0 then 0 else gs[0].size + SizeSum(gs[1..])
  }

  predicate DistinctFormats(gs: seq<ExtensionTally>) {
    forall i, j :: 0 <= i < j < |gs| ==> gs[i].ext != gs[j].ext
  }

  /** Counts one more video with suffix `ext`: its entry grows, or a new
      entry goes at the end (dicts keep insertion order). */
  function Tally(gs: seq<ExtensionTally>, ext: string, size: nat): seq<ExtensionTally> {
    if |gs| == 0 then [ExtensionTally(ext, 1, size)]
    else if gs[0].ext == ext then [ExtensionTally(ext, gs[0].count + 1, gs[0].size + size)] + gs[1..]
    else [gs[0]] + Tally(gs[1..], ext, size)
  }

  /** Counting a video adds one to the count and its size to the total,
      and lists its suffix at the end when it is new. */
  lemma {:induction false} TallyShape(gs: seq<ExtensionTally>, ext: string, size: nat)
    ensures CountSum(Tally(gs, ext, size)) == CountSum(gs) + 1 && SizeSum(Tally(gs, ext, size)) == SizeSum(gs) + size
    ensures ext in Formats(gs) ==> Formats(Tally(gs, ext, size)) == Formats(gs)
    ensures ext !in Formats(gs) ==> Formats(Tally(gs, ext, size)) == Formats(gs) + [ext]
    decreases |gs|
  {
    if |gs| > 0 {
      var r := Tally(gs, ext, size);
      assert Formats(gs) == [gs[0].ext] + Formats(gs[1..]);
      if gs[0].ext == ext {
        assert r[1..] == gs[1..];
      } else {
        TallyShape(gs[1..], ext, size);
        assert r[1..] == Tally(gs[1..], ext, size);
      }
    }
  }

  /** What the summary loop learns about one video: its lower-cased
      suffix and its size. */
  datatype VideoStat = VideoStat(ext: string, size: nat)

  function Stats(fs: FileSystem, videos: seq<Path>): (r: seq<VideoStat>)
    ensures |r| == |videos|
    ensures forall i :: 0 <= i < |videos| ==> r[i] == VideoStat(FileExt(videos[i]), StatSize(fs, videos[i]))
  {
    seq(|videos|, i requires 0 <= i < |videos| => VideoStat(FileExt(videos[i]), StatSize(fs, videos[i])))
  }

  function StatSizes(stats: seq<VideoStat>): nat {
    if |stats| == 0 then 0 else StatSizes(stats[..|stats| - 1]) + stats[|stats| - 1].size
  }

  /** The `by_extension` table built over the videos in order. */
  function GroupByExtension(stats: seq<VideoStat>): (gs: seq<ExtensionTally>)
    ensures CountSum(gs) == |stats|
    ensures SizeSum(gs) == StatSizes(stats)
  {
    if |stats| == 0 then []
    else
      var last := stats[|stats| - 1];
      TallyShape(GroupByExtension(stats[..|stats| - 1]), last.ext, last.size);
      Tally(GroupByExtension(stats[..|stats| - 1]), last.ext, last.size)
  }

  /** The table has one entry per suffix, in order of first appearance. */
  lemma {:induction false} GroupFormatsDistinct(stats: seq<VideoStat>)
    ensures DistinctFormats(GroupByExtension(stats))
    decreases |stats|
  {
    if |stats| > 0 {
      var init := stats[..|stats| - 1];
      GroupFormatsDistinct(init);
      var gs := GroupByExtension(init);
      var r := GroupByExtension(stats);
      TallyShape(gs, stats[|stats| - 1].ext, stats[|stats| - 1].size);
      var f := Formats(r);
      forall i, j | 0 <= i < j < |r| ensures r[i].ext != r[j].ext {
        assert f[i] == r[i].ext && f[j] == r[j].ext;
        if j < |gs| {
          assert Formats(gs)[i] == r[i].ext && Formats(gs)[j] == r[j].ext;
        } else {
          assert Formats(gs)[i] == r[i].ext;
        }
      }
    }
  }

  /** How many of the videos have suffix `ext`, and their total size: a
      reference count kept apart from the table. */
  function CountOf(stats: seq<VideoStat>, ext: string): nat {
    if |stats| == 0 then 0
    else CountOf(stats[..|stats| - 1], ext) + (if stats[|stats| - 1].ext == ext then 1 else 0)
  }

  function SizeOf(stats: seq<VideoStat>, ext: string): nat {
    if |stats| == 0 then 0
    else SizeOf(stats[..|stats| - 1], ext) + (if stats[|stats| - 1].ext == ext then stats[|stats| - 1].size else 0)
  }

  /** Counting a video changes entry `i` only when it is the first entry
      with the video's suffix, and then by one and by the size. */
  lemma {:induction false} TallyAt(gs: seq<ExtensionTally>, ext: string, size: nat, i: nat)
    requires i < |gs|
    requires forall j :: 0 <= j < i ==> gs[j].ext != gs[i].ext
    ensures i < |Tally(gs, ext, size)|
    ensures Tally(gs, ext, size)[i] == (if gs[i].ext == ext then ExtensionTally(ext, gs[i].count + 1, gs[i].size + size) else gs[i])
    decreases i
  {
    if gs[0].ext == ext {
      assert Tally(gs, ext, size) == [ExtensionTally(ext, gs[0].count + 1, gs[0].size + size)] + gs[1..];
    } else {
      var t := Tally(gs[1..], ext, size);
      assert Tally(gs, ext, size) == [gs[0]] + t;
      if i > 0 {
        forall j | 0 <= j < i - 1 ensures gs[1..][j].ext != gs[1..][i - 1].ext {
          assert gs[1..][j] == gs[j + 1];
        }
        TallyAt(gs[1..], ext, size, i - 1);
        assert gs[1..][i - 1] == gs[i];
      }
    }
  }

  /** A suffix not yet in the table gets a new last entry with count 1. */
  lemma {:induction false} TallyNew(gs: seq<ExtensionTally>, ext: string, size: nat)
    requires ext !in Formats(gs)
    ensures |Tally(gs, ext, size)| == |gs| + 1
    ensures Tally(gs, ext, size)[|gs|] == ExtensionTally(ext, 1, size)
    decreases |gs|
  {
    if |gs| > 0 {
      assert Formats(gs) == [gs[0].ext] + Formats(gs[1..]);
      TallyNew(gs[1..], ext, size);
    }
  }

  /** In a table with one entry per suffix, counting a video touches the
      entry for its suffix, or appends one, and nothing else. */
  lemma TallyEntries(gs: seq<ExtensionTally>, ext: string, size: nat)
    requires DistinctFormats(gs)
    ensures |Tally(gs, ext, size)| == (if ext in Formats(gs) then |gs| else |gs| + 1)
    ensures forall i :: 0 <= i < |gs| ==>
      Tally(gs, ext, size)[i] == (if gs[i].ext == ext then ExtensionTally(ext, gs[i].count + 1, gs[i].size + size) else gs[i])
    ensures ext !in Formats(gs) ==> Tally(gs, ext, size)[|gs|] == ExtensionTally(ext, 1, size)
  {
    TallyShape(gs, ext, size);
    forall i | 0 <= i < |gs| ensures
      Tally(gs, ext, size)[i] == (if gs[i].ext == ext then ExtensionTally(ext, gs[i].count + 1, gs[i].size + size) else gs[i])
    {
      TallyAt(gs, ext, size, i);
    }
    if ext !in Formats(gs) {
      TallyNew(gs, ext, size);
    }
  }

  /** Each entry of the table holds the number and the total size of the
      videos with its suffix; a suffix without an entry has none. */
  lemma {:induction false} GroupTallies(stats: seq<VideoStat>)
    ensures forall i :: 0 <= i < |GroupByExtension(stats)| ==>
      GroupByExtension(stats)[i].count == CountOf(stats, GroupByExtension(stats)[i].ext) &&
      GroupByExtension(stats)[i].size == SizeOf(stats, GroupByExtension(stats)[i].ext)
    ensures forall e :: e !in Formats(GroupByExtension(stats)) ==> CountOf(stats, e) == 0 && SizeOf(stats, e) == 0
    decreases |stats|
  {
    if |stats| > 0 {
      var init := stats[..|stats| - 1];
      var last := stats[|stats| - 1];
      GroupTallies(init);
      GroupFormatsDistinct(init);
      var gs := GroupByExtension(init);
      var r := GroupByExtension(stats);
      TallyEntries(gs, last.ext, last.size);
      assert r == Tally(gs, last.ext, last.size);
      forall i | 0 <= i < |r| ensures r[i].count == CountOf(stats, r[i].ext) && r[i].size == SizeOf(stats, r[i].ext) {
        if i == |gs| {
          assert last.ext !in Formats(gs);
        }
      }
      forall e | e !in Formats(r) ensures CountOf(stats, e) == 0 && SizeOf(stats, e) == 0 {
        assert e != last.ext && e !in Formats(gs);
      }
    }
  }

  /** The suffixes of a list of videos. */
  function Exts(stats: seq<VideoStat>): set<string> {
    set i | 0 <= i < |stats| :: stats[i].ext
  }

  lemma ExtsSnoc(stats: seq<VideoStat>)
    requires |stats| > 0
    ensures Exts(stats) == Exts(stats[..|stats| - 1]) + {stats[|stats| - 1].ext}
  {
    var init := stats[..|stats| - 1];
    forall e | e in Exts(stats) ensures e in Exts(init) + {stats[|stats| - 1].ext} {
      var i :| 0 <= i < |stats| && stats[i].ext == e;
      if i < |init| { assert init[i].ext == e; }
    }
    forall e | e in Exts(init) ensures e in Exts(stats) {
      var i :| 0 <= i < |init| && init[i].ext == e;
      assert stats[i].ext == e;
    }
  }

  /** The table's suffixes are exactly those of the videos. */
  lemma {:induction false} GroupFormatsExactly(stats: seq<VideoStat>)
    ensures forall e :: e in Formats(GroupByExtension(stats)) <==> e in Exts(stats)
    decreases |stats|
  {
    if |stats| > 0 {
      GroupFormatsExactly(stats[..|stats| - 1]);
      TallyShape(GroupByExtension(stats[..|stats| - 1]), stats[|stats| - 1].ext, stats[|stats| - 1].size);
      ExtsSnoc(stats);
    }
  }

  /** The summary of a list of scanned videos. */
  function Summarize(fs: FileSystem, videos: seq<Path>): (r: Summary)
    ensures r.totalFiles == |videos| == CountSum(r.byExtension)
    ensures r.totalSize == SizeSum(r.byExtension)
    ensures forall i :: 0 <= i < |r.byExtension| ==>
      r.byExtension[i].count == CountOf(Stats(fs, videos), r.byExtension[i].ext) &&
      r.byExtension[i].size == SizeOf(Stats(fs, videos), r.byExtension[i].ext)
  {
    var stats := Stats(fs, videos);
    GroupTallies(stats);
    Summary(|videos|, StatSizes(stats), GroupByExtension(stats))
  }

  /** The lower-cased suffixes of a set of paths. */
  function SuffixesOf(ps: set<Path>): set<string> {
    set p | p in ps :: FileExt(p)
  }

  /** The summary's suffixes are those of the videos it covers. */
  lemma SummaryFormats(fs: FileSystem, videos: seq<Path>)
    ensures DistinctFormats(Summarize(fs, videos).byExtension)
    ensures forall e :: e in Formats(Summarize(fs, videos).byExtension) <==> e in SuffixesOf(Elems(videos))
  {
    var stats := Stats(fs, videos);
    GroupFormatsDistinct(stats);
    GroupFormatsExactly(stats);
    assert Exts(stats) == SuffixesOf(Elems(videos)) by {
      forall e | e in Exts(stats) ensures e in SuffixesOf(Elems(videos)) {
        var i :| 0 <= i < |stats| && stats[i].ext == e;
        assert videos[i] in Elems(videos);
      }
      forall e | e in SuffixesOf(Elems(videos)) ensures e in Exts(stats) {
        var p :| p in Elems(videos) && FileExt(p) == e;
        var i :| 0 <= i < |videos| && videos[i] == p;
        assert stats[i].ext == e;
      }
    }
  }

  /** The videos among `ps` with suffix `ext`. */
  function WithExt(ps: set<Path>, ext: string): set<Path> {
    set p | p in ps && FileExt(p) == ext
  }

  /** Over a sorted scan, the reference count is the number of distinct
      videos with the suffix. */
  lemma {:induction false} CountOfVideos(fs: FileSystem, videos: seq<Path>, ext: string)
    requires StrictlySorted(videos)
    ensures CountOf(Stats(fs, videos), ext) == |WithExt(Elems(videos), ext)|
    decreases |videos|
  {
    if |videos| > 0 {
      var init := videos[..|videos| - 1];
      var last := videos[|videos| - 1];
      CountOfVideos(fs, init, ext);
      StatsInit(fs, videos);
      WithExtSnoc(videos, ext);
    }
  }

  lemma StatsInit(fs: FileSystem, videos: seq<Path>)
    requires |videos| > 0
    ensures Stats(fs, videos)[..|videos| - 1] == Stats(fs, videos[..|videos| - 1])
  {
  }

  /** Adding a new video adds one to the count of its suffix. */
  lemma WithExtAdd(ps: set<Path>, x: Path, ext: string)
    requires x !in ps
    ensures |WithExt(ps + {x}, ext)| == |WithExt(ps, ext)| + (if FileExt(x) == ext then 1 else 0)
  {
    if FileExt(x) == ext {
      assert WithExt(ps + {x}, ext) == WithExt(ps, ext) + {x};
    } else {
      assert WithExt(ps + {x}, ext) == WithExt(ps, ext);
    }
  }

  /** The last of a sorted list is not among the ones before it. */
  lemma WithExtSnoc(videos: seq<Path>, ext: string)
    requires StrictlySorted(videos) && |videos| > 0
    ensures var last := videos[|videos| - 1];
      |WithExt(Elems(videos), ext)| == |WithExt(Elems(videos[..|videos| - 1]), ext)| + (if FileExt(last) == ext then 1 else 0)
  {
    var init := videos[..|videos| - 1];
    var last := videos[|videos| - 1];
    assert Elems(videos) == Elems(init) + {last};
    forall k | 0 <= k < |init| ensures init[k] != last {
      assert PathLess(videos[k], last);
      PathLessOrder(last, last, last);
    }
    WithExtAdd(Elems(init), last, ext);
  }

  /** `get_video_files_summary`: the recursive scan's errors, or the
      summary of the videos it finds. */
  method VideoFilesSummary(fs: FileSystem, dir: Path) returns (r: Result<Summary, string>)
    ensures dir !in fs ==> r == Failure(MissingInputMessage(dir))
    ensures dir in fs && !IsDir(fs, dir) ==> r == Failure(NotDirectoryMessage(dir))
    ensures IsDir(fs, dir) ==> r.Success? && r.value.totalFiles == |VideosIn(fs, dir, true)|
    ensures r.Success? ==> r.value.totalFiles == CountSum(r.value.byExtension) && r.value.totalSize == SizeSum(r.value.byExtension)
    ensures r.Success? ==> DistinctFormats(r.value.byExtension)
    ensures r.Success? ==> forall e :: e in Formats(r.value.byExtension) <==> e in SuffixesOf(VideosIn(fs, dir, true))
    ensures r.Success? ==> forall i :: 0 <= i < |r.value.byExtension| ==>
      r.value.byExtension[i].count == |WithExt(VideosIn(fs, dir, true), r.value.byExtension[i].ext)|
    ensures IsDir(fs, dir) ==> r == Success(Summarize(fs, SortedOf(VideosIn(fs, dir, true))))
  {
    var scanned := ScanVideos(fs, dir, true);
    match scanned
    case Failure(e) =>
      return Failure(e);
    case Success(videos) =>
      SummaryFormats(fs, videos);
      SortedDistinctSize(videos);
      var summary := Summarize(fs, videos);
      forall i | 0 <= i < |summary.byExtension|
        ensures summary.byExtension[i].count == |WithExt(VideosIn(fs, dir, true), summary.byExtension[i].ext)|
      {
        CountOfVideos(fs, videos, summary.byExtension[i].ext);
      }
      return Success(Summarize(fs, videos));
  }

  /** A strictly sorted list has as many elements as distinct paths. */
  lemma {:induction false} SortedDistinctSize(s: seq<Path>)
    requires StrictlySorted(s)
    ensures |Elems(s)| == |s|
  {
    if |s| > 0 {
      SortedDistinctSize(s[1..]);
      assert Elems(s) == {s[0]} + Elems(s[1..]);
      PathLessOrder(s[0], s[0], s[0]);
      assert s[0] !in Elems(s[1..]);
    }
  }
}
