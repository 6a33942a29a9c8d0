/**
 * The installer as a system of atomic steps: remote calls and worker sections in
 * any interleaving, with the disk inventory and every tool result chosen freely.
 */
module InstallProtocol {
  import opened Wrappers
  import opened ResourcePolicy
  import opened InstallerDomain
  import opened InstallerService

  // ---------------------------------------------------------------------
  // The worker's script
  // ---------------------------------------------------------------------

  datatype Tool =
    | VerifyPayload | LoadPayload | ReadReference | ResolvePayload | RevalidateDisk
    | PrepareTarget | DeployPayload | ConfigureTarget | FinalizeTarget | UnmountTarget

  datatype Section =
    | Emit(phase: InstallPhase, percent: nat)
    | RunTool(tool: Tool)
    | Enter(state: InstallerState, phase: InstallPhase)

  const SCRIPT: seq<Section> := [
    Emit(InstallPhase.Preflight, 5), RunTool(VerifyPayload), RunTool(LoadPayload),
    RunTool(ReadReference), RunTool(ResolvePayload), RunTool(RevalidateDisk),
    Emit(Storage, 20), RunTool(PrepareTarget), Enter(Deploying, Deployment),
    Emit(Deployment, 45), RunTool(DeployPayload), Enter(Deploying, Configuration),
    Emit(Configuration, 78), RunTool(ConfigureTarget), Enter(Finalizing, Finalization),
    Emit(Finalization, 94), RunTool(FinalizeTarget), RunTool(UnmountTarget),
    Enter(Complete, Finalization), Emit(Finalization, 100)]

  /** The section that re-reads the disk and crosses the storage boundary. */
  const BOUNDARY := 5

  const ALL_TOOLS: seq<Tool> := [
    VerifyPayload, LoadPayload, ReadReference, ResolvePayload, RevalidateDisk, PrepareTarget,
    DeployPayload, ConfigureTarget, FinalizeTarget, UnmountTarget]

  /** From this position on the tools read or write the disk to be installed. */
  const FIRST_DISK_TOOL := 4

  const ALL_PERCENTS: seq<nat> := [5, 20, 45, 78, 94, 100]

  function ToolsBefore(n: nat): nat
    requires n <= 20
  {
    if n <= 1 then 0 else if n <= 6 then n - 1 else if n <= 7 then 5 else if n <= 10 then 6
    else if n <= 13 then 7 else if n <= 16 then 8 else if n <= 17 then 9 else 10
  }

  function PercentsBefore(n: nat): nat
    requires n <= 20
  {
    if n == 0 then 0 else if n <= 6 then 1 else if n <= 9 then 2 else if n <= 12 then 3
    else if n <= 15 then 4 else if n <= 19 then 5 else 6
  }

  function StateBefore(n: nat): InstallerState {
    if n <= 5 then Preparing else if n <= 8 then Destructive else if n <= 14 then Deploying
    else if n <= 18 then Finalizing else Complete
  }

  function PhaseBefore(n: nat): InstallPhase {
    if n <= 5 then InstallPhase.Preflight else if n <= 8 then Storage else if n <= 11 then Deployment
    else if n <= 14 then Configuration else Finalization
  }

  // ---------------------------------------------------------------------
  // States, labels and steps
  // ---------------------------------------------------------------------

  /** Where the worker thread is; `Spawning` is the start call between its two sections. */
  datatype Pc =
    | Spawning
    | Running(at: nat)
    | Checking(at: nat)
    | LeavingCancelled
    | Cleaning(at: nat)
    | Failing(at: nat)
    | Releasing(completed: bool)

  datatype Worker = Worker(job: U32, request: InstallRequest, storageStarted: bool, pc: Pc)

  datatype Event =
    | Started(job: U32, disk: DiskInfo, confirmation: string)
    | CancelAccepted(job: U32)
    | Progressed(job: U32, percent: nat)
    | Succeeded(job: U32, tool: Tool)
    | Crossed(job: U32, phase: InstallPhase, live: Option<DiskInfo>)
    | Completed(job: U32)
    | UnmountAttempted(job: U32)
    | FailedIn(job: U32, phase: InstallPhase)
    | LeftCancelled(job: U32)

  datatype System = System(svc: Service, workers: seq<Worker>, log: seq<Event>) {
    function Logged(e: Event): System { this.(log := log + [e]) }
  }

  const INITIAL := System(NEW_SERVICE, [], [])

  /** What one worker section meets: the result of its tool, the disks, and the failure text. */
  datatype Input = Input(broken: bool, listing: DiskListing, diagnostic: string)

  datatype Label =
    | PreflightCall(diskId: string, listing: DiskListing)
    | StartCall(confirmation: string, settings: Result<InstallSettings, InstallerError>)
    | SpawnResult(spawned: bool, worker: nat, diagnostic: string)
    | CancelCall(path: U32)
    | WorkerStep(worker: nat, input: Input)

  function Apply(s: System, l: Label): System {
    match l
    case PreflightCall(id, listing) =>
      (match s.svc.Preflight(id, listing) case Err(_) => s case Ok(svc) => s.(svc := svc))
    case StartCall(confirmation, settings) => ApplyStart(s, confirmation, settings)
    case SpawnResult(spawned, i, diagnostic) =>
      if i < |s.workers| && s.workers[i].pc.Spawning? then ApplySpawn(s, i, spawned, diagnostic) else s
    case CancelCall(path) =>
      (match s.svc.CancelOutcome(path)
       case Err(_) => s
       case Ok(svc) => s.(svc := svc).Logged(CancelAccepted(path)))
    case WorkerStep(i, input) =>
      if i < |s.workers| then ApplyWorker(s, i, input) else s
  }

  function ApplyStart(s: System, confirmation: string, settings: Result<InstallSettings, InstallerError>): System {
    match s.svc.Admitted(confirmation, settings)
    case Err(_) => s
    case Ok(request) =>
      var svc := s.svc.Started();
      if s.svc.nextJob == LAST_JOB then s.(svc := svc)
      else
        s.(svc := svc, workers := s.workers + [Worker(s.svc.nextJob, request, false, Spawning)])
          .Logged(Started(s.svc.nextJob, s.svc.preflight.value, confirmation))
  }

  function ApplySpawn(s: System, i: nat, spawned: bool, diagnostic: string): System
    requires i < |s.workers|
  {
    var w := s.workers[i];
    if spawned then s.(workers := s.workers[i := w.(pc := Running(0))])
    else
      System(s.svc.Released().WithFailure(diagnostic), Without(s.workers, i), s.log)
        .Logged(FailedIn(w.job, s.svc.job.phase))
  }

  function Without(workers: seq<Worker>, i: nat): seq<Worker>
    requires i < |workers|
  {
    workers[..i] + workers[i + 1..]
  }

  function MoveTo(s: System, i: nat, pc: Pc): System
    requires i < |s.workers|
  {
    s.(workers := s.workers[i := s.workers[i].(pc := pc)])
  }

  /** The worker after a section succeeded: the next one, or the end of the script. */
  function After(n: nat): Pc { if n + 1 < |SCRIPT| then Running(n + 1) else Releasing(true) }

  function ApplyWorker(s: System, i: nat, input: Input): System
    requires i < |s.workers|
  {
    var w := s.workers[i];
    match w.pc
    case Spawning => s
    case Running(n) => if n < |SCRIPT| then ApplySection(s, i, n, input) else s
    case Checking(n) =>
      MoveTo(s, i, if s.svc.job.state.Cancelled? then LeavingCancelled else Cleaning(n))
    case LeavingCancelled =>
      System(s.svc.Released(), Without(s.workers, i), s.log).Logged(LeftCancelled(w.job))
    case Cleaning(n) =>
      if w.storageStarted then MoveTo(s, i, Failing(n)).Logged(UnmountAttempted(w.job))
      else MoveTo(s, i, Failing(n))
    case Failing(n) =>
      MoveTo(s.(svc := s.svc.WithFailure(input.diagnostic)), i, Releasing(false))
        .Logged(FailedIn(w.job, s.svc.job.phase))
    case Releasing(_) => System(s.svc.Released(), Without(s.workers, i), s.log)
  }

  function ApplySection(s: System, i: nat, n: nat, input: Input): System
    requires i < |s.workers| && n < |SCRIPT|
  {
    var w := s.workers[i];
    match SCRIPT[n]
    case Emit(_, percent) =>
      if input.broken then MoveTo(s, i, Checking(n))
      else MoveTo(s, i, After(n)).Logged(Progressed(w.job, percent))
    case RunTool(tool) =>
      if tool.RevalidateDisk? then
        match s.svc.Revalidated(w.request.diskId, input.listing)
        case Err(_) => MoveTo(s, i, Checking(n))
        case Ok(svc) =>
          System(svc, s.workers[i := w.(pc := After(n), storageStarted := true)], s.log)
            .Logged(Crossed(w.job, Storage, Some(Resolve(input.listing, w.request.diskId).value)))
            .Logged(Succeeded(w.job, tool))
      else if input.broken then MoveTo(s, i, Checking(n))
      else MoveTo(s, i, After(n)).Logged(Succeeded(w.job, tool))
    case Enter(state, phase) =>
      match s.svc.Moved(state, phase)
      case Err(_) => MoveTo(s, i, Checking(n))
      case Ok(svc) =>
        MoveTo(s.(svc := svc), i, After(n))
          .Logged(if state.Complete? then Completed(w.job) else Crossed(w.job, phase, None))
  }

  function Run(s: System, labels: seq<Label>): System
    decreases labels
  {
    if labels == [] then s else Run(Apply(s, labels[0]), labels[1..])
  }

  // ---------------------------------------------------------------------
  // What the log of one job says
  // ---------------------------------------------------------------------

  function ToolsOf(log: seq<Event>, job: U32): seq<Tool> {
    if log == [] then []
    else
      var e := log[|log| - 1];
      ToolsOf(log[..|log| - 1], job) + (if e.Succeeded? && e.job == job then [e.tool] else [])
  }

  function PercentsOf(log: seq<Event>, job: U32): seq<nat> {
    if log == [] then []
    else
      var e := log[|log| - 1];
      PercentsOf(log[..|log| - 1], job) + (if e.Progressed? && e.job == job then [e.percent] else [])
  }

  /** The last boundary the job crossed. */
  function LastPhase(log: seq<Event>, job: U32): InstallPhase {
    if log == [] then InstallPhase.Preflight
    else
      var e := log[|log| - 1];
      if e.Crossed? && e.job == job then e.phase else LastPhase(log[..|log| - 1], job)
  }

  predicate ReachedStorage(log: seq<Event>, job: U32) {
    exists i :: 0 <= i < |log| && log[i].Crossed? && log[i].job == job
  }

  predicate WasCancelled(log: seq<Event>, job: U32) { CancelAccepted(job) in log }

  /** The job was started for the disk with this identity and this device. */
  predicate StartedFor(log: seq<Event>, job: U32, id: string, device: string) {
    exists i :: 0 <= i < |log| && StartNames(log[i], job, id, device)
  }

  predicate StartNames(e: Event, job: U32, id: string, device: string) {
    e.Started? && e.job == job && e.disk.id == id && e.disk.device == device
  }

  predicate Mentioned(log: seq<Event>, job: U32) {
    exists i :: 0 <= i < |log| && log[i].job == job && !log[i].CancelAccepted?
  }

  /** What must hold of the past when an event happens. */
  predicate Justified(past: seq<Event>, e: Event) {
    var job := e.job;
    match e
    case Started(_, disk, confirmation) =>
      && !Mentioned(past, job) && !WasCancelled(past, job)
      && disk.Eligible() && Ok(confirmation) == ConfirmationPhrase(disk.id)
    case CancelAccepted(_) => true
    case Progressed(_, percent) =>
      var k := |PercentsOf(past, job)|;
      k < |ALL_PERCENTS| && PercentsOf(past, job) == ALL_PERCENTS[..k] && percent == ALL_PERCENTS[k]
    case Succeeded(_, tool) =>
      var k := |ToolsOf(past, job)|;
      && k < |ALL_TOOLS| && ToolsOf(past, job) == ALL_TOOLS[..k] && tool == ALL_TOOLS[k]
      && (k >= FIRST_DISK_TOOL ==> !WasCancelled(past, job))
    case Crossed(_, phase, live) =>
      && !WasCancelled(past, job)
      && LastPhase(past, job).Rank() + 1 == phase.Rank()
      && (phase.Storage? ==>
        live.Some? && live.value.Eligible() && StartedFor(past, job, live.value.id, live.value.device))
      && (phase.Storage? <==> !ReachedStorage(past, job))
    case Completed(_) =>
      ToolsOf(past, job) == ALL_TOOLS && LastPhase(past, job).Finalization? && !WasCancelled(past, job)
    case UnmountAttempted(_) => ReachedStorage(past, job)
    case FailedIn(_, phase) =>
      && phase == LastPhase(past, job)
      && (ReachedStorage(past, job) ==> UnmountAttempted(job) in past)
    case LeftCancelled(_) => WasCancelled(past, job) && !ReachedStorage(past, job)
  }

  predicate JustifiedAt(log: seq<Event>, i: nat)
    requires i < |log|
  {
    Justified(log[..i], log[i])
  }

  predicate AllJustified(log: seq<Event>) {
    forall i :: 0 <= i < |log| ==> JustifiedAt(log, i)
  }

  // ---------------------------------------------------------------------
  // The invariant
  // ---------------------------------------------------------------------

  /** The job before section `n`, or a job cancelled before the boundary. */
  predicate At(job: Job, n: nat) {
    && job.phase == PhaseBefore(n)
    && (job.state == StateBefore(n) || (n <= BOUNDARY && job.state.Cancelled?))
  }

  predicate LogAt(log: seq<Event>, job: U32, n: nat)
    requires n <= 20
  {
    && ToolsOf(log, job) == ALL_TOOLS[..ToolsBefore(n)]
    && PercentsOf(log, job) == ALL_PERCENTS[..PercentsBefore(n)]
    && LastPhase(log, job) == PhaseBefore(n)
    && (ReachedStorage(log, job) <==> n > BOUNDARY)
  }

  predicate WorkerInv(svc: Service, w: Worker, log: seq<Event>) {
    && svc.workerActive
    && w.job == svc.jobPath && w.job < svc.nextJob
    && svc.preflight.Some? && svc.preflight.value.id == w.request.diskId
    && StartedFor(log, w.job, svc.preflight.value.id, svc.preflight.value.device)
    && (!svc.job.state.Failed? ==> (WasCancelled(log, w.job) <==> svc.job.state.Cancelled?))
    && match w.pc
       case Spawning => !w.storageStarted && At(svc.job, 0) && LogAt(log, w.job, 0)
       case Running(n) => WorkingAt(svc, w, log, n)
       case Checking(n) => WorkingAt(svc, w, log, n)
       case LeavingCancelled => svc.job.state.Cancelled? && !ReachedStorage(log, w.job)
       case Cleaning(n) => WorkingAt(svc, w, log, n)
       case Failing(n) =>
         && WorkingAt(svc, w, log, n)
         && (w.storageStarted ==> UnmountAttempted(w.job) in log)
       case Releasing(completed) => if completed then svc.job.state.Complete? else svc.job.state.Failed?
  }

  predicate WorkingAt(svc: Service, w: Worker, log: seq<Event>, n: nat) {
    && n < 20 && w.storageStarted == (n > BOUNDARY) && At(svc.job, n) && LogAt(log, w.job, n)
  }

  /** Without a worker the job rests, unless the counter ran out while it was named. */
  predicate IdleInv(svc: Service) {
    && !svc.workerActive
    && (svc.job.state.Idle? || svc.job.state.Ready? || svc.job.state.Complete? || svc.job.state.Retryable()
        || (svc.job.state.Preparing? && svc.jobPath == LAST_JOB && svc.nextJob == LAST_JOB))
  }

  /** Numbers not handed out yet are unknown to the log. */
  predicate FreshNumbers(svc: Service, log: seq<Event>) {
    && (svc.jobPath < svc.nextJob || (svc.jobPath == LAST_JOB && svc.nextJob == LAST_JOB))
    && forall i :: 0 <= i < |log| ==> log[i].job < svc.nextJob || svc.nextJob == LAST_JOB
  }

  predicate Inv(s: System) {
    && |s.workers| <= 1
    && (if s.workers == [] then IdleInv(s.svc) else WorkerInv(s.svc, s.workers[0], s.log))
    && FreshNumbers(s.svc, s.log)
  }

  /** At most two events more, each justified by what came before it. */
  predicate Grows(past: seq<Event>, now: seq<Event>) {
    || now == past
    || (|now| == |past| + 1 && now == past + [now[|past|]] && Justified(past, now[|past|]))
    || (|now| == |past| + 2 && now == past + [now[|past|]] + [now[|past| + 1]]
        && Justified(past, now[|past|]) && Justified(past + [now[|past|]], now[|past| + 1]))
  }
}
