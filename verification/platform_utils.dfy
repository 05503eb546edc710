/** Platform decision rules: operating-system flags, device priority, the
    recommended worker count and the per-model memory table. The probes
    behind them (torch, psutil, `os.cpu_count`) are inputs. */
module PlatformUtils {
  import opened Wrappers
  import opened Text

  /** The three operating-system flags, derived from `platform.system().lower()`. */
  datatype PlatformFlags = PlatformFlags(isWindows: bool, isMacos: bool, isLinux: bool)

  function Flags(system: string): (f: PlatformFlags)
    ensures f.isWindows <==> Lower(system) == "windows"
    ensures f.isMacos <==> Lower(system) == "darwin"
    ensures f.isLinux <==> Lower(system) == "linux"
  {
    var s := Lower(system);
    PlatformFlags(s == "windows", s == "darwin", s == "linux")
  }

  /** At most one of the flags holds, whatever the system name. */
  lemma AtMostOneFlag(system: string)
    ensures var f := Flags(system);
      (if f.isWindows then 1 else 0) + (if f.isMacos then 1 else 0) + (if f.isLinux then 1 else 0) <= 1
  {
    var s := Lower(system);
    assert s == "windows" ==> s[0] == 'w';
    assert s == "darwin" ==> s[0] == 'd';
    assert s == "linux" ==> s[0] == 'l';
  }

  /** `get_executable_extension`. */
  function ExecutableExtension(f: PlatformFlags): (r: string)
    ensures r == ".exe" <==> f.isWindows
    ensures !f.isWindows ==> r == ""
  {
    if f.isWindows then ".exe" else ""
  }

  // ---------------------------------------------------------------- devices

  /** What the torch probes answer; `torch` false means torch is not installed. */
  datatype DeviceProbe = DeviceProbe(torch: bool, cuda: bool, mps: bool)

  /** `detect_device`'s name together with its `cuda_available` and `mps_available` entries. */
  datatype DeviceInfo = DeviceInfo(device: string, cudaAvailable: bool, mpsAvailable: bool)

  predicate KnownDevice(d: string) {
    d == "cpu" || d == "cuda" || d == "mps"
  }

  /** `detect_device`: CUDA before MPS before the CPU, and the CPU without torch. */
  function DetectDevice(probe: DeviceProbe): (r: DeviceInfo)
    ensures KnownDevice(r.device)
    ensures r.device == "cuda" <==> probe.torch && probe.cuda
    ensures r.device == "mps" <==> probe.torch && !probe.cuda && probe.mps
    ensures r.cudaAvailable <==> r.device == "cuda"
    ensures r.mpsAvailable <==> r.device == "mps"
  {
    if !probe.torch then DeviceInfo("cpu", false, false)
    else if probe.cuda then DeviceInfo("cuda", true, false)
    else if probe.mps then DeviceInfo("mps", false, true)
    else DeviceInfo("cpu", false, false)
  }

  // ---------------------------------------------------------------- workers

  /** What importing psutil and reading `virtual_memory().total` gives. */
  datatype MemoryProbe = NoPsutil | TotalBytes(bytes: nat) | ProbeFailed

  const GiB: nat := 1024 * 1024 * 1024

  function Min(a: int, b: int): int {
    if a <= b then a else b
  }

  /** `get_recommended_workers`; `cpuCount` is `os.cpu_count()` (`None` when unknown). */
  function RecommendedWorkers(cpuCount: Option<nat>, mem: MemoryProbe): (r: int)
    ensures 1 <= r <= 4
  {
    var cpu := if cpuCount.None? || cpuCount.value == 0 then 1 else cpuCount.value;
    match mem
    case TotalBytes(bytes) =>
      var memoryWorkers := if bytes / (4 * GiB) >= 1 then bytes / (4 * GiB) else 1;
      Min(Min(cpu, memoryWorkers), 4)
    case NoPsutil =>
      if cpu > 2 then Min(cpu / 2, 2) else 1
    case ProbeFailed =>
      1
  }

  /** With the memory known, one worker per 4 GiB of RAM (at least one),
      at most one per CPU and at most four: the least of the three. */
  lemma WorkersWithMemory(cpu: nat, bytes: nat)
    requires cpu >= 1
    ensures var r := RecommendedWorkers(Some(cpu), TotalBytes(bytes));
      var byMemory := if bytes >= 4 * GiB then bytes / (4 * GiB) else 1;
      r <= cpu && r <= 4 && r <= byMemory && (r == cpu || r == 4 || r == byMemory)
  {
  }

  /** Without psutil, half the CPUs but never more than two, and one on small machines. */
  lemma WorkersWithoutPsutil(cpu: nat)
    ensures RecommendedWorkers(Some(cpu), NoPsutil) == (if cpu > 2 then Min(cpu / 2, 2) else 1)
    ensures cpu >= 4 ==> RecommendedWorkers(Some(cpu), NoPsutil) == 2
  {
  }

  // ---------------------------------------------------------------- memory

  /** The Whisper model names, in the order the tool lists them. */
  const ModelNames: seq<string> := ["tiny", "base", "small", "medium", "large", "large-v2", "large-v3"]

  /** `estimate_model_memory_usage`: gigabytes a model needs, 5.0 for unknown names. */
  function EstimateModelMemory(model: string): (r: real)
    ensures r > 0.0
    ensures model !in ModelNames ==> r == 5.0
    ensures 1.0 <= r <= 10.0
  {
    if model == "tiny" then 1.0
    else if model == "base" then 2.0
    else if model == "small" then 3.0
    else if model == "medium" then 5.0
    else if model == "large" || model == "large-v2" then 8.0
    else if model == "large-v3" then 10.0
    else 5.0
  }

  /** The table grows with the model: every listed model needs at least what
      the one before it needs. */
  lemma MemoryTableMonotone(i: nat, j: nat)
    requires i <= j < |ModelNames|
    ensures EstimateModelMemory(ModelNames[i]) <= EstimateModelMemory(ModelNames[j])
  {
  }
}
