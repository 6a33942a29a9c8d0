/** The locked sections of the installer daemon over its shared `ServiceState`. */
module InstallerService {
  import opened Wrappers
  import opened ResourcePolicy
  import opened InstallerDomain

  const LAST_JOB: U32 := 0xFFFF_FFFF

  datatype ServiceError =
    | AlreadyRunning | PreflightMissing | UnknownJob | CounterExhausted
    | Invalid(error: InstallerError)

  type DiskListing = Result<seq<DiskInfo>, InstallerError>

  function Resolve(listing: DiskListing, id: string): Result<DiskInfo, InstallerError> {
    match listing
    case Err(e) => Err(e)
    case Ok(disks) => ResolveDisk(disks, id)
  }

  /** `ServiceState` as a value; a job path is its number. */
  datatype Service = Service(
    preflight: Option<DiskInfo>, job: Job, jobPath: U32, nextJob: U32, workerActive: bool)
  {
    function Preflight(diskId: string, listing: DiskListing): Result<Service, ServiceError> {
      if workerActive then Err(AlreadyRunning) else
      match Resolve(listing, diskId)
      case Err(e) => Err(Invalid(e))
      case Ok(disk) =>
        if !disk.Eligible() then Err(Invalid(IneligibleDisk(disk.Rejection().value)))
        else Ok(this.(preflight := Some(disk), job := Job(Ready, InstallPhase.Preflight, None)))
    }

    /** What a start would run, or what stops it before anything is changed. */
    function Admitted(confirmation: string, settings: Result<InstallSettings, InstallerError>)
      : Result<InstallRequest, ServiceError>
    {
      if workerActive || !(job.state.Ready? || job.state.Retryable()) then Err(AlreadyRunning)
      else if preflight.None? then Err(PreflightMissing)
      else if settings.Err? then Err(Invalid(settings.error))
      else
        match NewRequest(preflight.value, confirmation, settings.value)
        case Err(e) => Err(Invalid(e))
        case Ok(request) => Ok(request)
    }

    /** The job is reset and named first; only then can the counter run out. */
    function Started(): Service {
      var named := this.(job := Job(Preparing, InstallPhase.Preflight, None), jobPath := nextJob);
      if nextJob == LAST_JOB then named
      else named.(nextJob := nextJob + 1, workerActive := true)
    }

    function CancelOutcome(path: U32): Result<Service, ServiceError> {
      if path != jobPath then Err(UnknownJob)
      else
        match job.Cancel()
        case Ok(cancelled) => Ok(this.(job := cancelled))
        case Err(e) => Err(Invalid(e))
    }

    function Moved(to: InstallerState, phase: InstallPhase): Result<Service, InstallerError> {
      match job.Move(to, phase)
      case Ok(next) => Ok(this.(job := next))
      case Err(e) => Err(e)
    }

    /** `revalidate_and_transition`: the live disk must be the preflighted one. */
    function Revalidated(diskId: string, listing: DiskListing): Result<Service, InstallerError> {
      match Resolve(listing, diskId)
      case Err(e) => Err(e)
      case Ok(disk) =>
        if !disk.Eligible() then Err(IneligibleDisk(disk.Rejection().value))
        else if !(preflight.Some? && preflight.value.id == disk.id && preflight.value.device == disk.device) then
          Err(DiskChanged)
        else Moved(Destructive, Storage)
    }

    function WithFailure(message: string): Service { this.(job := job.Fail(message)) }

    function Released(): Service { this.(workerActive := false) }
  }

  const NEW_SERVICE := Service(None, NEW_JOB, 0, 1, false)

  /** The mutex-guarded state; every method is the body of one lock acquisition. */
  class ServiceState {
    var preflight: Option<DiskInfo>
    var job: InstallJob
    var jobPath: U32
    var nextJob: U32
    var workerActive: bool

    function Value(): Service
      reads this, job
    {
      Service(preflight, job.Value(), jobPath, nextJob, workerActive)
    }

    constructor ()
      ensures Value() == NEW_SERVICE && fresh(job)
    {
      preflight, jobPath, nextJob, workerActive := None, 0, 1, false;
      job := new InstallJob();
    }

    /** A new job, at once moved to `Ready`. */
    static method ReadyJob() returns (job: InstallJob)
      ensures fresh(job) && job.Value() == Job(Ready, InstallPhase.Preflight, None)
    {
      job := new InstallJob();
      var ready := job.Transition(Ready, InstallPhase.Preflight);
    }

    /** The disk on offer, and a new job for it. */
    method Offer(disk: DiskInfo)
      modifies this
      ensures Value() == old(Value()).(preflight := Some(disk), job := Job(Ready, InstallPhase.Preflight, None))
      ensures fresh(job)
    {
      preflight := Some(disk);
      job := ReadyJob();
    }

    method Preflight(diskId: string, listing: DiskListing) returns (r: Result<(string, DiskInfo), ServiceError>)
      modifies this
      ensures match old(Value()).Preflight(diskId, listing)
        case Err(e) => r == Err(e) && Value() == old(Value()) && job == old(job)
        case Ok(s) =>
          && Value() == s && fresh(job)
          && r.Ok? && Some(r.value.1) == s.preflight && Ok(r.value.0) == ConfirmationPhrase(r.value.1.id)
    {
      if workerActive { return Err(AlreadyRunning); }
      var disk := Resolve(listing, diskId);
      if disk.Err? { return Err(Invalid(disk.error)); }
      if !disk.value.Eligible() { return Err(Invalid(IneligibleDisk(disk.value.Rejection().value))); }
      var confirmation := ConfirmationPhrase(disk.value.id);
      EligibilityIsExact(disk.value);
      Offer(disk.value);
      return Ok((confirmation.value, disk.value));
    }

    method Start(confirmation: string, settings: Result<InstallSettings, InstallerError>)
      returns (r: Result<(InstallRequest, U32), ServiceError>)
      modifies this
      ensures match old(Value()).Admitted(confirmation, settings)
        case Err(e) => r == Err(e) && Value() == old(Value()) && job == old(job)
        case Ok(request) =>
          && Value() == old(Value()).Started() && fresh(job)
          && r == if old(nextJob) == LAST_JOB then Err(CounterExhausted) else Ok((request, old(nextJob)))
    {
      if workerActive || !(job.state.Ready? || job.state.Retryable()) { return Err(AlreadyRunning); }
      if preflight.None? { return Err(PreflightMissing); }
      if settings.Err? { return Err(Invalid(settings.error)); }
      var request := NewRequest(preflight.value, confirmation, settings.value);
      if request.Err? { return Err(Invalid(request.error)); }
      var begun := BeginJob();
      return if begun then Ok((request.value, jobPath)) else Err(CounterExhausted);
    }

    /** The second half of the locked section of `Start`: a new job under a new number. */
    method BeginJob() returns (begun: bool)
      modifies this
      ensures Value() == old(Value()).Started() && fresh(job)
      ensures begun <==> old(nextJob) != LAST_JOB
    {
      job := ReadyJob();
      var preparing := job.Transition(Preparing, InstallPhase.Preflight);
      jobPath := nextJob;
      if nextJob == LAST_JOB { return false; }
      nextJob := nextJob + 1;
      workerActive := true;
      return true;
    }

    /** Runs when the worker thread cannot be spawned. */
    method SpawnFailed()
      modifies this, job
      ensures job == old(job)
      ensures Value() == old(Value()).Released().WithFailure("cannot start installer worker")
    {
      workerActive := false;
      job.Fail("cannot start installer worker");
    }

    method Cancel(path: U32) returns (r: Result<bool, ServiceError>)
      modifies job
      ensures match old(Value()).CancelOutcome(path)
        case Ok(s) => r == Ok(true) && Value() == s
        case Err(e) => r == (if e.UnknownJob? then Err(UnknownJob) else Ok(false)) && Value() == old(Value())
    {
      if path != jobPath { return Err(UnknownJob); }
      var outcome := job.Cancel();
      return Ok(outcome.Ok?);
    }

    method Transition(to: InstallerState, phase: InstallPhase) returns (r: Result<(), InstallerError>)
      modifies job
      ensures match old(Value()).Moved(to, phase)
        case Ok(s) => r == Ok(()) && Value() == s
        case Err(e) => r == Err(e) && Value() == old(Value())
    {
      r := job.Transition(to, phase);
    }

    method RevalidateAndTransition(diskId: string, listing: DiskListing) returns (r: Result<(), InstallerError>)
      modifies job
      ensures match old(Value()).Revalidated(diskId, listing)
        case Ok(s) => r == Ok(()) && Value() == s
        case Err(e) => r == Err(e) && Value() == old(Value())
    {
      var disk := Resolve(listing, diskId);
      if disk.Err? { return Err(disk.error); }
      if !disk.value.Eligible() { return Err(IneligibleDisk(disk.value.Rejection().value)); }
      if !(preflight.Some? && preflight.value.id == disk.value.id && preflight.value.device == disk.value.device) {
        return Err(DiskChanged);
      }
      r := job.Transition(Destructive, Storage);
    }

    method Fail(diagnostic: string)
      modifies job
      ensures Value() == old(Value()).WithFailure(diagnostic)
    {
      job.Fail(diagnostic);
    }

    method Release()
      modifies this`workerActive
      ensures Value() == old(Value()).Released()
    {
      workerActive := false;
    }
  }
}
