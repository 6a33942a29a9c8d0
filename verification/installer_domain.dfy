/** Inputs and lifecycle guard of the live installer. */
module InstallerDomain {
  import opened Wrappers
  import opened Text
  import opened ResourcePolicy

  const MINIMUM_DISK_BYTES: U64 := 32 * 1024 * 1024 * 1024
  const DISK_ID_PREFIX := "/dev/disk/by-id/"
  const MAX_DIAGNOSTIC := 512

  datatype InstallerState =
    | Idle | Ready | Preparing | Destructive | Deploying | Finalizing
    | Complete | Failed | Cancelled
  {
    predicate Cancellable() { Ready? || Preparing? }

    predicate Retryable() { Failed? || Cancelled? }

    /** Disk changes have begun. */
    predicate PastStorage() { Destructive? || Deploying? || Finalizing? || Complete? }
  }

  datatype InstallPhase = Preflight | Storage | Deployment | Configuration | Finalization {
    function Rank(): nat {
      match this
      case Preflight => 0
      case Storage => 1
      case Deployment => 2
      case Configuration => 3
      case Finalization => 4
    }
  }

  datatype InstallerError =
    | InvalidDiskId
    | IneligibleDisk(reason: Rejection)
    | InvalidConfirmation
    | InvalidField(field: SettingsField)
    | CancellationUnavailable(state: InstallerState)
    | InvalidTransition(from: InstallerState, to: InstallerState)
    | DiskMissing
    | DiskChanged
    | Inventory(message: string)

  datatype SettingsField = LocaleField | KeyboardField | TimezoneField | UsernameField | HostnameField | ProfileField

  /** The reasons for which a disk is never offered. */
  datatype Rejection =
    | NotAByIdPath | NotABlockDevice | RemovableMedia | RunningLiveRoot
    | InstallerMedia | PseudoDevice | TooSmall

  // ---------------------------------------------------------------------
  // Disks and requests
  // ---------------------------------------------------------------------

  predicate IsStableDiskId(value: string) {
    && StartsWith(value, DISK_ID_PREFIX)
    && |value| > |DISK_ID_PREFIX|
    && !Contains(value, "..")
    && !Contains(value, "//")
    && forall i :: |DISK_ID_PREFIX| <= i < |value| ==> IsDiskIdChar(value[i])
  }

  predicate IsDiskIdChar(c: char) {
    IsAsciiAlphanumeric(c) || c == '-' || c == '_' || c == '.' || c == '+'
  }

  datatype DiskInfo = DiskInfo(
    id: string, device: string, model: string, sizeBytes: U64, removable: bool,
    runningRoot: bool, installerMedia: bool, virtualDevice: bool)
  {
    function Rejection(): Option<Rejection> {
      if !IsStableDiskId(id) then Some(NotAByIdPath)
      else if !StartsWith(device, "/dev/") then Some(NotABlockDevice)
      else if removable then Some(RemovableMedia)
      else if runningRoot then Some(RunningLiveRoot)
      else if installerMedia then Some(InstallerMedia)
      else if virtualDevice then Some(PseudoDevice)
      else if sizeBytes < MINIMUM_DISK_BYTES then Some(TooSmall)
      else None
    }

    predicate Eligible() { Rejection().None? }
  }

  /** A disk is offered exactly when nothing speaks against erasing it. */
  lemma EligibilityIsExact(d: DiskInfo)
    ensures d.Eligible() <==>
      && IsStableDiskId(d.id) && StartsWith(d.device, "/dev/") && MINIMUM_DISK_BYTES <= d.sizeBytes
      && !d.removable && !d.runningRoot && !d.installerMedia && !d.virtualDevice
  {
  }

  /** The part of a path after its last '/', as `rsplit('/').next()` gives it. */
  function LastSegment(s: string): (r: string)
    ensures |r| <= |s| && s[|s| - |r|..] == r && '/' !in r
    ensures |r| < |s| ==> s[|s| - |r| - 1] == '/'
  {
    if s == [] || s[|s| - 1] == '/' then []
    else LastSegment(s[..|s| - 1]) + [s[|s| - 1]]
  }

  function LastEight(s: string): string { if |s| <= 8 then s else s[|s| - 8..] }

  function ConfirmationPhrase(diskId: string): Result<string, InstallerError> {
    if !IsStableDiskId(diskId) then Err(InvalidDiskId)
    else Ok("ERASE " + LastEight(LastSegment(diskId)))
  }

  /** The phrase ends like the identity it stands for, and only that ending tells two disks apart. */
  lemma PhraseIdentifiesByEnding(a: string, b: string)
    requires IsStableDiskId(a) && IsStableDiskId(b)
    ensures var name := a[|DISK_ID_PREFIX|..];
      ConfirmationPhrase(a) == Ok("ERASE " + LastEight(name)) && |LastEight(name)| >= 1
    ensures ConfirmationPhrase(a) == ConfirmationPhrase(b)
      <==> LastEight(a[|DISK_ID_PREFIX|..]) == LastEight(b[|DISK_ID_PREFIX|..])
  {
    LastSegmentOfId(a);
    LastSegmentOfId(b);
    var x, y := LastEight(LastSegment(a)), LastEight(LastSegment(b));
    assert ("ERASE " + x)[6..] == x && ("ERASE " + y)[6..] == y;
  }

  lemma LastSegmentOfId(id: string)
    requires IsStableDiskId(id)
    ensures LastSegment(id) == id[|DISK_ID_PREFIX|..]
  {
    var name := id[|DISK_ID_PREFIX|..];
    assert id == DISK_ID_PREFIX + name;
    LastSegmentAfterSlash(DISK_ID_PREFIX, name);
  }

  lemma {:induction false} LastSegmentAfterSlash(directory: string, name: string)
    requires directory != "" && directory[|directory| - 1] == '/' && '/' !in name
    ensures LastSegment(directory + name) == name
  {
    var s := directory + name;
    if name == [] {
      assert s == directory;
    } else {
      assert s[..|s| - 1] == directory + name[..|name| - 1];
      LastSegmentAfterSlash(directory, name[..|name| - 1]);
      assert s[|s| - 1] == name[|name| - 1] && name[|name| - 1] in name;
    }
  }

  predicate IsLocaleChar(c: char) { IsAsciiAlphanumeric(c) || c == '-' || c == '_' || c == '.' }

  predicate IsKeyboardChar(c: char) { IsAsciiAlphanumeric(c) || c == '-' || c == '_' }

  predicate IsTimezoneChar(c: char) {
    IsAsciiAlphanumeric(c) || c == '/' || c == '_' || c == '+' || c == '-'
  }

  predicate IsUsernameChar(c: char) { IsAsciiLower(c) || IsAsciiDigit(c) || c == '_' || c == '-' }

  predicate IsHostnameChar(c: char) { IsAsciiAlphanumeric(c) || c == '-' }

  predicate ValidLocale(value: string) {
    0 < |value| <= 64 && forall i :: 0 <= i < |value| ==> IsLocaleChar(value[i])
  }

  predicate ValidKeyboard(value: string) {
    0 < |value| <= 64 && forall i :: 0 <= i < |value| ==> IsKeyboardChar(value[i])
  }

  predicate ValidTimezone(value: string) {
    && 0 < |value| <= 128 && value[0] != '/' && !Contains(value, "..")
    && forall i :: 0 <= i < |value| ==> IsTimezoneChar(value[i])
  }

  predicate ValidUsername(value: string, reserved: seq<string>) {
    && 0 < |value| <= 32 && (IsAsciiLower(value[0]) || value[0] == '_')
    && (forall i :: 0 <= i < |value| ==> IsUsernameChar(value[i]))
    && value !in reserved
  }

  predicate ValidHostname(value: string) {
    && 0 < |value| <= 63 && value[0] != '-' && value[|value| - 1] != '-'
    && forall i :: 0 <= i < |value| ==> IsHostnameChar(value[i])
  }

  const RESERVED_USERNAMES := ["root", "daemon", "bin", "devcore", "devcore-live"]

  datatype InstallSettings = InstallSettings(
    locale: string, keyboard: string, timezone: string, username: string, hostname: string,
    profile: MachineProfile)
  {
    /** The first field that breaks its rule, in the order they are checked. */
    function Fault(): Option<InstallerError> {
      if !ValidLocale(locale) then
        Some(InvalidField(LocaleField))
      else if !ValidKeyboard(keyboard) then
        Some(InvalidField(KeyboardField))
      else if !ValidTimezone(timezone) then Some(InvalidField(TimezoneField))
      else if !ValidUsername(username, RESERVED_USERNAMES) then
        Some(InvalidField(UsernameField))
      else if !ValidHostname(hostname) then Some(InvalidField(HostnameField))
      else None
    }
  }

  datatype InstallRequest = InstallRequest(diskId: string, settings: InstallSettings)

  function NewRequest(disk: DiskInfo, confirmation: string, settings: InstallSettings)
    : (r: Result<InstallRequest, InstallerError>)
    ensures r.Ok? ==>
      && disk.Eligible() && Ok(confirmation) == ConfirmationPhrase(disk.id)
      && settings.Fault().None? && r.value == InstallRequest(disk.id, settings)
    ensures r == Err(InvalidConfirmation) <==>
      disk.Eligible() && Ok(confirmation) != ConfirmationPhrase(disk.id)
  {
    if !disk.Eligible() then Err(IneligibleDisk(disk.Rejection().value))
    else if confirmation != ConfirmationPhrase(disk.id).value then Err(InvalidConfirmation)
    else if settings.Fault().Some? then Err(settings.Fault().value)
    else Ok(InstallRequest(disk.id, settings))
  }

  /** `resolve_disk`: the listed disk with this identity. */
  function ResolveDisk(disks: seq<DiskInfo>, id: string): (r: Result<DiskInfo, InstallerError>)
    ensures r.Ok? ==> r.value in disks && r.value.id == id
    ensures r.Ok? <==> exists i :: 0 <= i < |disks| && disks[i].id == id
  {
    if disks == [] then Err(DiskMissing)
    else if disks[0].id == id then Ok(disks[0])
    else
      var r := ResolveDisk(disks[1..], id);
      assert forall i :: 1 <= i < |disks| ==> disks[i] == disks[1..][i - 1];
      r
  }

  // ---------------------------------------------------------------------
  // The lifecycle guard
  // ---------------------------------------------------------------------

  predicate Allowed(from: InstallerState, to: InstallerState) {
    || (from.Idle? && to.Ready?)
    || (from.Ready? && to.Preparing?)
    || (from.Preparing? && to.Destructive?)
    || (from.Destructive? && to.Deploying?)
    || (from.Deploying? && to.Deploying?)
    || (from.Deploying? && to.Finalizing?)
    || (from.Finalizing? && to.Complete?)
  }

  /** Control characters other than newline dropped, then cut to 512 characters. */
  function Bounded(message: string): string {
    var kept := Printable(message);
    if |kept| <= MAX_DIAGNOSTIC then kept else kept[..MAX_DIAGNOSTIC]
  }

  function Printable(message: string): string {
    if message == [] then []
    else (if IsControl(message[0]) && message[0] != '\n' then [] else [message[0]]) + Printable(message[1..])
  }

  /** Sanitizing before recording a failure changes nothing: recording sanitizes too. */
  lemma BoundedIsIdempotent(message: string)
    ensures Bounded(Bounded(message)) == Bounded(message)
    ensures |Bounded(message)| <= MAX_DIAGNOSTIC
    ensures forall c :: c in Bounded(message) ==> c == '\n' || !IsControl(c)
  {
    PrintableIsClean(message);
    CleanIsPrintable(Bounded(message));
  }

  /** A diagnostic is the longest allowed beginning of the message without its dropped characters; clean text stays. */
  lemma BoundedKeepsText(message: string)
    ensures Bounded(message) <= Printable(message)
    ensures |Bounded(message)| == if |Printable(message)| <= MAX_DIAGNOSTIC then |Printable(message)| else MAX_DIAGNOSTIC
    ensures |message| <= MAX_DIAGNOSTIC && (forall c :: c in message ==> c == '\n' || !IsControl(c)) ==>
      Bounded(message) == message
  {
    if forall c :: c in message ==> c == '\n' || !IsControl(c) { CleanIsPrintable(message); }
  }

  lemma {:induction false} PrintableIsClean(message: string)
    ensures forall c :: c in Printable(message) ==> c == '\n' || !IsControl(c)
  {
    if message != [] { PrintableIsClean(message[1..]); }
  }

  lemma {:induction false} CleanIsPrintable(message: string)
    requires forall c :: c in message ==> c == '\n' || !IsControl(c)
    ensures Printable(message) == message
  {
    if message != [] {
      assert message[0] in message;
      assert forall c :: c in message[1..] ==> c in message;
      CleanIsPrintable(message[1..]);
      assert message == [message[0]] + message[1..];
    }
  }

  /** A job as a value. */
  datatype Job = Job(state: InstallerState, phase: InstallPhase, diagnostic: Option<string>) {
    function Move(to: InstallerState, next: InstallPhase): Result<Job, InstallerError> {
      if Allowed(state, to) then Ok(this.(state := to, phase := next))
      else Err(InvalidTransition(state, to))
    }

    function Cancel(): Result<Job, InstallerError> {
      if state.Cancellable() then Ok(this.(state := Cancelled))
      else Err(CancellationUnavailable(state))
    }

    function Fail(message: string): Job {
      this.(diagnostic := Some(Bounded(message)), state := Failed)
    }
  }

  const NEW_JOB := Job(Idle, Preflight, None)

  datatype JobOp = MoveOp(state: InstallerState, phase: InstallPhase) | CancelOp | FailOp(message: string)

  /** A refused operation leaves the job as it was. */
  function ApplyOp(job: Job, op: JobOp): Job {
    match op
    case MoveOp(s, p) => (match job.Move(s, p) case Ok(next) => next case Err(_) => job)
    case CancelOp => (match job.Cancel() case Ok(next) => next case Err(_) => job)
    case FailOp(m) => job.Fail(m)
  }

  function ApplyOps(job: Job, ops: seq<JobOp>): Job
    decreases ops
  {
    if ops == [] then job else ApplyOps(ApplyOp(job, ops[0]), ops[1..])
  }

  /**
   * Once disk changes have begun no sequence of operations makes the job cancelled or
   * ready again: it goes on or it fails, and a failed or cancelled job stays one of the two.
   */
  lemma {:induction false} StorageBoundaryIsOneWay(job: Job, ops: seq<JobOp>)
    ensures job.state.PastStorage() ==>
      ApplyOps(job, ops).state.PastStorage() || ApplyOps(job, ops).state.Failed?
    ensures job.state.Failed? ==> ApplyOps(job, ops).state.Failed?
    ensures job.state.Cancelled? ==> ApplyOps(job, ops).state.Retryable()
    decreases ops
  {
    if ops != [] { StorageBoundaryIsOneWay(ApplyOp(job, ops[0]), ops[1..]); }
  }

  /** A job completes only by way of the destructive state, whatever is asked of it. */
  lemma {:induction false} CompletionPassesStorage(job: Job, ops: seq<JobOp>)
    requires !job.state.PastStorage() && ApplyOps(job, ops).state.PastStorage()
    ensures exists k ::
      && 0 <= k < |ops|
      && ApplyOps(job, ops[..k]).state.Preparing? && ApplyOps(job, ops[..k + 1]).state.Destructive?
    decreases ops
  {
    var next := ApplyOp(job, ops[0]);
    if next.state.PastStorage() {
      assert ops[..1] == [ops[0]] && ops[..0] == [];
      assert ApplyOps(job, ops[..1]) == ApplyOps(next, []);
      assert ApplyOps(job, ops[..0]).state.Preparing? && ApplyOps(job, ops[..0 + 1]).state.Destructive?;
    } else {
      CompletionPassesStorage(next, ops[1..]);
      var k :| 0 <= k < |ops[1..]| && ApplyOps(next, ops[1..][..k]).state.Preparing?
        && ApplyOps(next, ops[1..][..k + 1]).state.Destructive?;
      assert ops[..k + 1][1..] == ops[1..][..k] && ops[..k + 2][1..] == ops[1..][..k + 1];
      assert ApplyOps(job, ops[..k + 1]).state.Preparing?;
    }
  }

  class InstallJob {
    var state: InstallerState
    var phase: InstallPhase
    var diagnostic: Option<string>

    function Value(): Job reads this { Job(state, phase, diagnostic) }

    constructor ()
      ensures Value() == NEW_JOB
    {
      state, phase, diagnostic := Idle, Preflight, None;
    }

    method Transition(to: InstallerState, next: InstallPhase) returns (r: Result<(), InstallerError>)
      modifies this
      ensures match old(Value()).Move(to, next)
        case Ok(job) => r == Ok(()) && Value() == job
        case Err(e) => r == Err(e) && Value() == old(Value())
    {
      if !Allowed(state, to) { return Err(InvalidTransition(state, to)); }
      state := to;
      phase := next;
      return Ok(());
    }

    method Cancel() returns (r: Result<(), InstallerError>)
      modifies this
      ensures match old(Value()).Cancel()
        case Ok(job) => r == Ok(()) && Value() == job
        case Err(e) => r == Err(e) && Value() == old(Value())
    {
      if !state.Cancellable() { return Err(CancellationUnavailable(state)); }
      state := Cancelled;
      return Ok(());
    }

    /** The filter and the cut of the message, character by character. */
    method Fail(message: string)
      modifies this
      ensures Value() == old(Value()).Fail(message)
    {
      var kept := "";
      for i := 0 to |message|
        invariant kept + Printable(message[i..]) == Printable(message)
      {
        assert message[i..][0] == message[i] && message[i..][1..] == message[i + 1..];
        if !IsControl(message[i]) || message[i] == '\n' {
          kept := kept + [message[i]];
        }
      }
      assert message[|message|..] == [] && kept == Printable(message);
      diagnostic := Some(if |kept| <= MAX_DIAGNOSTIC then kept else kept[..MAX_DIAGNOSTIC]);
      state := Failed;
    }
  }
}
