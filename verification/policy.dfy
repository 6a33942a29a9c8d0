/** Machine classes, telemetry and the workload budgets derived from them. */
module ResourcePolicy {
  import opened Wrappers
  import opened Text

  type U16 = n: int | 0 <= n < 0x1_0000
  type U32 = n: int | 0 <= n < 0x1_0000_0000
  type U64 = n: int | 0 <= n < 0x1_0000_0000_0000_0000

  const U64_MAX: U64 := 0xFFFF_FFFF_FFFF_FFFF
  const GIB_IN_KIB: U64 := 1024 * 1024
  const MIB: U64 := 1024 * 1024

  datatype MachineProfile = Low | Balanced | Standard | Workstation {
    function AsStr(): string {
      match this
      case Low => "low"
      case Balanced => "balanced"
      case Standard => "standard"
      case Workstation => "workstation"
    }

    function Rank(): nat {
      match this
      case Low => 0
      case Balanced => 1
      case Standard => 2
      case Workstation => 3
    }
  }

  /** The parser the installer, first boot and provisioning all repeat. */
  function ParseProfile(value: string): (r: Option<MachineProfile>)
    ensures forall p: MachineProfile :: r == Some(p) <==> value == p.AsStr()
  {
    if value == "low" then Some(Low)
    else if value == "balanced" then Some(Balanced)
    else if value == "standard" then Some(Standard)
    else if value == "workstation" then Some(Workstation)
    else None
  }

  datatype HardwareCapacity = HardwareCapacity(logicalCpus: U16, memoryTotalKib: U64) {
    function InitialProfile(): MachineProfile {
      if logicalCpus <= 2 || memoryTotalKib <= 4 * GIB_IN_KIB then Low
      else if logicalCpus <= 4 || memoryTotalKib <= 8 * GIB_IN_KIB then Balanced
      else if logicalCpus <= 8 || memoryTotalKib <= 16 * GIB_IN_KIB then Standard
      else Workstation
    }
  }

  datatype WorkloadClass = Interactive | Build | Indexer | Emulator | Cache

  datatype MemoryProtection = Protected | Normal | Reclaimable

  datatype WorkloadBudget = WorkloadBudget(
    maxWorkers: U16, cpuWeight: U32, memoryProtection: MemoryProtection, deferred: bool)

  datatype PressureMetrics = PressureMetrics(someAvg10: U32, fullAvg10: Option<U32>)

  datatype PowerState = PowerState(
    batteryPresent: bool, batteryPercent: Option<U16>, acOnline: Option<bool>)

  datatype ResourceSnapshot = ResourceSnapshot(
    capacity: HardwareCapacity,
    initialProfile: MachineProfile,
    cpuPressure: Option<PressureMetrics>,
    memoryPressure: Option<PressureMetrics>,
    ioPressure: Option<PressureMetrics>,
    power: PowerState)
  {
    function MaxPressure(): U32 {
      Larger(Some10(cpuPressure), Larger(Some10(memoryPressure), Some10(ioPressure)))
    }

    predicate OnBattery() { power.batteryPresent && power.acOnline == Some(false) }

    function Budget(workload: WorkloadClass): WorkloadBudget {
      var budget := BaseBudget(initialProfile, workload);
      var pressure := MaxPressure();
      if workload.Interactive? then budget
      else
        var budget :=
          if pressure >= 5_000 then
            budget.(maxWorkers := if workload.Emulator? then 0 else 1)
          else if pressure >= 1_000 then
            budget.(maxWorkers := if workload.Emulator? then 0 else HalvedAtLeastOne(budget.maxWorkers))
          else budget;
        var budget :=
          if OnBattery() && workload.Build?
          then budget.(maxWorkers := HalvedAtLeastOne(budget.maxWorkers)) else budget;
        var budget :=
          if workload.Emulator? && (initialProfile.Low? || OnBattery())
          then budget.(maxWorkers := 0) else budget;
        budget.(deferred := budget.maxWorkers == 0)
    }

    function Scope(jobId: string, workload: WorkloadClass): Result<WorkloadScopePlan, ScopePlanError> {
      if !ValidJobId(jobId) then Err(InvalidJobId(jobId)) else
      var budget := Budget(workload);
      var total := SaturatingKibToBytes(capacity.memoryTotalKib);
      Ok(WorkloadScopePlan(
        "devcore-job-" + jobId, workload, budget.maxWorkers, budget.cpuWeight,
        if budget.memoryProtection.Protected?
        then Some(ClampedBudget(total, 8, 64 * MIB, 512 * MIB)) else None,
        if budget.memoryProtection.Reclaimable?
        then Some(ClampedBudget(total, 2, 256 * MIB, 2048 * MIB)) else None,
        if workload.Emulator?
        then Some(ClampedBudget(total, 2, 256 * MIB, 4096 * MIB)) else None,
        budget.deferred))
    }
  }

  function Some10(p: Option<PressureMetrics>): U32 { if p.Some? then p.value.someAvg10 else 0 }

  function Larger(a: U32, b: U32): U32 { if a < b then b else a }

  function HalvedAtLeastOne(n: U16): (r: U16)
    ensures if n == 0 then r == 1 else n <= 2 * r <= n + 1
  {
    if n <= 2 then 1 else (n + 1) / 2
  }

  function BaseBudget(profile: MachineProfile, workload: WorkloadClass): WorkloadBudget {
    var (workers, protection, weight) :=
      match workload
      case Interactive => (1, Protected, 1_000)
      case Build =>
        (match profile case Low => 1 case Balanced => 2 case Standard => 4 case Workstation => 8,
         Normal, 300)
      case Indexer =>
        (match profile case Low => 1 case Balanced => 1 case Standard => 2 case Workstation => 4,
         Normal, 150)
      case Emulator =>
        (match profile case Low => 0 case Balanced => 1 case Standard => 1 case Workstation => 2,
         Reclaimable, 100)
      case Cache => (1, Reclaimable, 50);
    WorkloadBudget(workers, weight, protection, workers == 0)
  }

  function SaturatingKibToBytes(kib: U64): U64 {
    if kib * 1024 > U64_MAX then U64_MAX else kib * 1024
  }

  function Min(a: U64, b: U64): U64 { if a < b then a else b }

  function Max(a: U64, b: U64): U64 { if a < b then b else a }

  function ClampedBudget(total: U64, divisor: U64, floor: U64, ceiling: U64): U64
    requires divisor > 0
  {
    Min(Max(total / divisor, Min(floor, total)), Min(ceiling, total))
  }

  predicate ValidJobId(id: string) {
    && 0 < |id| <= 63 && id[0] != '-'
    && forall i :: 0 <= i < |id| ==> IsAsciiLower(id[i]) || IsAsciiDigit(id[i]) || id[i] == '-'
  }

  datatype ScopePlanError = InvalidJobId(id: string) | EmptyCommand | NulArgument

  datatype WorkloadScopePlan = WorkloadScopePlan(
    unitName: string, workload: WorkloadClass, maxWorkers: U16, cpuWeight: U32,
    memoryLow: Option<U64>, memoryHigh: Option<U64>, memoryMax: Option<U64>, deferred: bool)
  {
    function SystemdRunArgv(command: seq<string>): Result<seq<string>, ScopePlanError> {
      if command == [] || command[0] == "" then Err(EmptyCommand)
      else if exists i :: 0 <= i < |command| && '\0' in command[i] then Err(NulArgument)
      else Ok(Wrapper() + ["--"] + command)
    }

    function Wrapper(): seq<string> {
      ["systemd-run", "--user", "--scope", "--quiet", "--collect",
       "--unit=" + unitName, "--property=CPUWeight=" + Decimal(cpuWeight)]
      + Property("--property=MemoryLow=", memoryLow)
      + Property("--property=MemoryHigh=", memoryHigh)
      + Property("--property=MemoryMax=", memoryMax)
    }
  }

  function Property(name: string, limit: Option<U64>): seq<string> {
    if limit.Some? then [name + Decimal(limit.value)] else []
  }

  function Decimal(n: nat): string {
    if n < 10 then [('0' as int + n) as char]
    else Decimal(n / 10) + [('0' as int + n % 10) as char]
  }

  /** `other` has at least the resources of `this` and no more contention. */
  predicate AtLeastAsFree(less: ResourceSnapshot, more: ResourceSnapshot) {
    && less.initialProfile == less.capacity.InitialProfile()
    && more.initialProfile == more.capacity.InitialProfile()
    && less.capacity.logicalCpus <= more.capacity.logicalCpus
    && less.capacity.memoryTotalKib <= more.capacity.memoryTotalKib
    && more.MaxPressure() <= less.MaxPressure()
    && (more.OnBattery() ==> less.OnBattery())
  }

  /** More resources and less contention never cost any class a worker. */
  lemma WorkersGrowWithResources(less: ResourceSnapshot, more: ResourceSnapshot, workload: WorkloadClass)
    requires AtLeastAsFree(less, more)
    ensures less.initialProfile.Rank() <= more.initialProfile.Rank()
    ensures less.Budget(workload).maxWorkers <= more.Budget(workload).maxWorkers
    ensures more.Budget(workload).deferred ==> less.Budget(workload).deferred
  {
  }

  /** Each class of machine needs both enough processors and enough memory. */
  lemma ProfileNeedsBoth(c: HardwareCapacity)
    ensures c.InitialProfile().Rank() >= 1 <==> c.logicalCpus > 2 && c.memoryTotalKib > 4 * GIB_IN_KIB
    ensures c.InitialProfile().Rank() >= 2 <==> c.logicalCpus > 4 && c.memoryTotalKib > 8 * GIB_IN_KIB
    ensures c.InitialProfile().Rank() >= 3 <==> c.logicalCpus > 8 && c.memoryTotalKib > 16 * GIB_IN_KIB
  {
  }

  /** The pressure that counts is the largest of the three that are known, or zero. */
  lemma PressureIsTheLargest(s: ResourceSnapshot)
    ensures forall p :: p in [s.cpuPressure, s.memoryPressure, s.ioPressure] && p.Some? ==> p.value.someAvg10 <= s.MaxPressure()
    ensures s.MaxPressure() == 0
      || exists p :: p in [s.cpuPressure, s.memoryPressure, s.ioPressure] && p.Some? && p.value.someAvg10 == s.MaxPressure()
  {
    var all := [s.cpuPressure, s.memoryPressure, s.ioPressure];
    assert all[0] in all && all[1] in all && all[2] in all;
  }

  /** Interactive work outweighs everything and alone is protected; emulators and caches can be reclaimed. */
  lemma ClassesAreRanked(profile: MachineProfile)
    ensures var weight := (w: WorkloadClass) => BaseBudget(profile, w).cpuWeight;
      weight(Interactive) > weight(Build) > weight(Indexer) > weight(Emulator) > weight(Cache)
    ensures forall w: WorkloadClass :: BaseBudget(profile, w).memoryProtection.Protected? <==> w.Interactive?
    ensures forall w: WorkloadClass :: BaseBudget(profile, w).memoryProtection.Reclaimable? <==> w.Emulator? || w.Cache?
    ensures BaseBudget(profile, Build).maxWorkers >= BaseBudget(profile, Indexer).maxWorkers
    ensures forall w: WorkloadClass :: BaseBudget(profile, w).deferred <==> BaseBudget(profile, w).maxWorkers == 0
  {
  }

  /** Off battery only: the pressure stays. */
  function PluggedIn(s: ResourceSnapshot): ResourceSnapshot { s.(power := s.power.(acOnline := Some(true))) }

  /** `w` is half of `n`, rounded up, but at least one. */
  predicate IsHalf(w: int, n: int) { if n == 0 then w == 1 else n <= 2 * w <= n + 1 }

  /**
   * What contention costs: nothing below one percent, half from one percent on, all but one
   * worker from five percent on; battery halves builds once more. Interactive work is never
   * touched, and only the number of workers and its deferral ever change.
   */
  lemma ContentionCosts(s: ResourceSnapshot, workload: WorkloadClass)
    ensures var base, calm, here := BaseBudget(s.initialProfile, workload), PluggedIn(s).Budget(workload), s.Budget(workload);
      && (workload.Interactive? ==> here == base)
      && here.cpuWeight == base.cpuWeight && here.memoryProtection == base.memoryProtection
      && (!workload.Interactive? && !workload.Emulator? ==>
        && (s.MaxPressure() < 1_000 ==> calm.maxWorkers == base.maxWorkers)
        && (1_000 <= s.MaxPressure() < 5_000 ==> IsHalf(calm.maxWorkers, base.maxWorkers))
        && (5_000 <= s.MaxPressure() ==> calm.maxWorkers == 1)
        && (s.OnBattery() && workload.Build? ==> IsHalf(here.maxWorkers, calm.maxWorkers))
        && (!s.OnBattery() || !workload.Build? ==> here.maxWorkers == calm.maxWorkers))
      && (workload.Emulator? ==>
        here.maxWorkers == (if s.initialProfile.Low? || s.OnBattery() || s.MaxPressure() >= 1_000 then 0 else base.maxWorkers))
  {
    assert PluggedIn(s).MaxPressure() == s.MaxPressure();
  }

  /** Only emulators are deferred, and exactly under these conditions. */
  lemma OnlyEmulatorsAreDeferred(s: ResourceSnapshot, workload: WorkloadClass)
    ensures s.Budget(workload).deferred <==>
      workload.Emulator? && (s.initialProfile.Low? || s.OnBattery() || s.MaxPressure() >= 1_000)
    ensures s.Budget(workload).deferred <==> s.Budget(workload).maxWorkers == 0
    ensures s.Budget(workload).maxWorkers <= BaseBudget(s.initialProfile, workload).maxWorkers
    ensures s.MaxPressure() >= 5_000 ==> s.Budget(workload).maxWorkers <= 1
  {
  }

  lemma ClampStaysInBounds(total: U64, divisor: U64, floor: U64, ceiling: U64)
    requires divisor > 0 && floor <= ceiling
    ensures var r := ClampedBudget(total, divisor, floor, ceiling);
      && r <= total && r <= ceiling
      && (floor <= total ==> floor <= r)
      && (total < floor ==> r == total)
      && (floor <= total / divisor <= ceiling ==> r == total / divisor)
  {
    assert total / divisor <= total;
  }

  lemma DivisionGrows(a: nat, b: nat, d: nat)
    requires d > 0 && a <= b
    ensures a / d <= b / d
  {
    ProductOrder(a / d, b / d, d);
  }

  lemma ProductOrder(p: nat, q: nat, d: nat)
    ensures p > q ==> p * d >= q * d + d
  {
    if p > q + 1 {
      ProductOrder(p - 1, q, d);
    }
    assert p > 0 ==> p * d == (p - 1) * d + d;
  }

  lemma ClampGrowsWithTotal(a: U64, b: U64, divisor: U64, floor: U64, ceiling: U64)
    requires divisor > 0 && a <= b
    ensures ClampedBudget(a, divisor, floor, ceiling) <= ClampedBudget(b, divisor, floor, ceiling)
  {
    DivisionGrows(a, b, divisor);
  }

  predicate NotAbove(a: Option<U64>, b: Option<U64>) {
    a.Some? && b.Some? ==> a.value <= b.value
  }

  predicate WithinUnlessNone(low: U64, limit: Option<U64>, high: U64) {
    limit.Some? ==> low <= limit.value <= high
  }

  /** The limits of a scope fit the machine, their floor and ceiling, and each other. */
  lemma ScopeLimitsFitTheMachine(s: ResourceSnapshot, id: string, workload: WorkloadClass)
    requires ValidJobId(id)
    ensures var total := SaturatingKibToBytes(s.capacity.memoryTotalKib);
      var plan := s.Scope(id, workload).value;
      && WithinUnlessNone(Min(total, 64 * MIB), plan.memoryLow, Min(total, 512 * MIB))
      && WithinUnlessNone(Min(total, 256 * MIB), plan.memoryHigh, Min(total, 2048 * MIB))
      && WithinUnlessNone(Min(total, 256 * MIB), plan.memoryMax, Min(total, 4096 * MIB))
      && NotAbove(plan.memoryHigh, plan.memoryMax)
      && (plan.memoryMax.Some? <==> workload.Emulator?)
      && (plan.memoryLow.Some? <==> workload.Interactive?)
      && (plan.memoryHigh.Some? <==> workload.Emulator? || workload.Cache?)
  {
    var total := SaturatingKibToBytes(s.capacity.memoryTotalKib);
    ClampStaysInBounds(total, 8, 64 * MIB, 512 * MIB);
    ClampStaysInBounds(total, 2, 256 * MIB, 2048 * MIB);
    ClampStaysInBounds(total, 2, 256 * MIB, 4096 * MIB);
  }

  /** A machine with more memory never gets a smaller limit for the same work. */
  lemma ScopeLimitsGrowWithMemory(s: ResourceSnapshot, t: ResourceSnapshot, id: string, workload: WorkloadClass)
    requires ValidJobId(id)
    requires s.capacity.memoryTotalKib <= t.capacity.memoryTotalKib
    ensures NotAbove(s.Scope(id, workload).value.memoryLow, t.Scope(id, workload).value.memoryLow)
    ensures NotAbove(s.Scope(id, workload).value.memoryHigh, t.Scope(id, workload).value.memoryHigh)
    ensures NotAbove(s.Scope(id, workload).value.memoryMax, t.Scope(id, workload).value.memoryMax)
  {
    var a := SaturatingKibToBytes(s.capacity.memoryTotalKib);
    var b := SaturatingKibToBytes(t.capacity.memoryTotalKib);
    ClampGrowsWithTotal(a, b, 8, 64 * MIB, 512 * MIB);
    ClampGrowsWithTotal(a, b, 2, 256 * MIB, 2048 * MIB);
    ClampGrowsWithTotal(a, b, 2, 256 * MIB, 4096 * MIB);
  }

  /** What `systemd-run` takes to be the command: everything after the first "--". */
  function CommandAfterSeparator(argv: seq<string>): seq<string> {
    if argv == [] then []
    else if argv[0] == "--" then argv[1..]
    else CommandAfterSeparator(argv[1..])
  }

  lemma {:induction false} SeparatorEndsPrefix(prefix: seq<string>, command: seq<string>)
    requires "--" !in prefix
    ensures CommandAfterSeparator(prefix + ["--"] + command) == command
  {
    var argv := prefix + ["--"] + command;
    if prefix == [] {
      assert argv[1..] == command;
    } else {
      assert argv[1..] == prefix[1..] + ["--"] + command;
      SeparatorEndsPrefix(prefix[1..], command);
    }
  }

  /** Whatever the command holds, even "--", the scope hands it over unchanged. */
  lemma ScopePreservesCommand(plan: WorkloadScopePlan, command: seq<string>)
    ensures plan.SystemdRunArgv(command).Ok? <==>
      command != [] && command[0] != "" && forall i :: 0 <= i < |command| ==> '\0' !in command[i]
    ensures plan.SystemdRunArgv(command).Ok? ==>
      CommandAfterSeparator(plan.SystemdRunArgv(command).value) == command
  {
    if plan.SystemdRunArgv(command).Ok? {
      forall i | 0 <= i < |plan.Wrapper()| ensures |plan.Wrapper()[i]| > 2 {
        assert |plan.Wrapper()[5]| > 2 && |plan.Wrapper()[6]| > 2;
      }
      SeparatorEndsPrefix(plan.Wrapper(), command);
    }
  }
}
