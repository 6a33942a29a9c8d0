/** What decides each call and each section of the installer, and what a failure leaves to see. */
module InstallOutcomes {
  import opened Wrappers
  import opened ResourcePolicy
  import opened InstallerDomain
  import opened InstallerService
  import opened InstallProtocol
  import opened InstallSafety
  import opened InstallTheorems

  // ---------------------------------------------------------------------
  // A section goes on exactly when its tool or signal succeeded
  // ---------------------------------------------------------------------

  /** A tool other than the revalidation, or a progress signal: its own result decides. */
  predicate Plain(section: Section) {
    section.Emit? || (section.RunTool? && !section.tool.RevalidateDisk?)
  }

  predicate RunningAt(s: System, n: nat) { s.workers != [] && s.workers[0].pc == Running(n) && n < 20 }

  function LoggedBy(job: U32, section: Section): Event
    requires Plain(section)
  {
    if section.Emit? then Progressed(job, section.percent) else Succeeded(job, section.tool)
  }

  lemma ResultDecidesStep(s: System, n: nat, input: Input)
    requires RunningAt(s, n) && Plain(SCRIPT[n])
    ensures var t, job := ApplySection(s, 0, n, input), s.workers[0].job;
      && t.svc == s.svc && |t.workers| == |s.workers|
      && t.workers[0] == s.workers[0].(pc := if input.broken then Checking(n) else After(n))
      && t.log == if input.broken then s.log else s.log + [LoggedBy(job, SCRIPT[n])]
  {
  }

  /**
   * In every reachable state a tool counts as succeeded, and a signal as sent, exactly when it
   * was: then it is logged and the worker goes on, and otherwise the log stays as it is.
   */
  lemma ResultDecides(s: System, n: nat, input: Input)
    requires Reachable(s) && RunningAt(s, n) && Plain(SCRIPT[n])
    ensures var t, job := Apply(s, WorkerStep(0, input)), s.workers[0].job;
      && t.log == (if input.broken then s.log else s.log + [LoggedBy(job, SCRIPT[n])])
      && |t.workers| == 1 && t.workers[0].job == job
      && t.workers[0].pc == (if input.broken then Checking(n) else After(n))
      && t.svc == s.svc
  {
    ReachableKeepsInv(s);
    ScriptStep(n);
    ResultDecidesStep(s, n, input);
  }

  /** The disk check passes exactly for the live, eligible, preflighted disk of a job not yet cancelled. */
  lemma RevalidationIsExact(svc: Service, id: string, listing: DiskListing)
    ensures svc.Revalidated(id, listing).Ok? <==>
      && Resolve(listing, id).Ok? && Resolve(listing, id).value.Eligible()
      && svc.preflight.Some? && svc.preflight.value.id == id
      && svc.preflight.value.device == Resolve(listing, id).value.device
      && svc.job.state.Preparing?
  {
  }

  lemma RevalidationDecides(s: System, input: Input)
    requires Reachable(s) && RunningAt(s, BOUNDARY)
    ensures var t := Apply(s, WorkerStep(0, input));
      && |t.workers| == 1 && t.workers[0].job == s.workers[0].job
      && if s.svc.Revalidated(s.workers[0].request.diskId, input.listing).Ok?
         then t.workers[0].pc == Running(BOUNDARY + 1) && t.workers[0].storageStarted && t.svc.job.state.Destructive?
         else t.workers[0].pc == Checking(BOUNDARY) && t.svc == s.svc && t.log == s.log
  {
    ReachableKeepsInv(s);
    assert SCRIPT[BOUNDARY] == RunTool(RevalidateDisk);
    if s.svc.Revalidated(s.workers[0].request.diskId, input.listing).Ok? {
      RevalidationMeans(s.svc, s.workers[0].request.diskId, input.listing);
    }
  }

  // ---------------------------------------------------------------------
  // After a failed section nothing more is done for the job
  // ---------------------------------------------------------------------

  /** Progress of the installation itself. */
  predicate Advances(e: Event, job: U32) {
    e.job == job && (e.Progressed? || e.Succeeded? || e.Crossed? || e.Completed?)
  }

  /** No worker runs sections of this job any more, and its number will not be given out again. */
  predicate Stopped(s: System, job: U32) {
    && job < s.svc.nextJob
    && (s.workers != [] && s.workers[0].job == job ==> !s.workers[0].pc.Spawning? && !s.workers[0].pc.Running?)
  }

  predicate Quiet(past: seq<Event>, now: seq<Event>, job: U32) {
    past <= now && forall j :: |past| <= j < |now| ==> !Advances(now[j], job)
  }

  lemma StoppedWorkerStep(s: System, job: U32, input: Input)
    requires Inv(s) && Stopped(s, job) && s.workers != []
    ensures var t := ApplyWorker(s, 0, input); Stopped(t, job) && Quiet(s.log, t.log, job)
  {
    var w := s.workers[0];
    if w.pc.Running? {
      SectionLogsOwnJob(s, w.pc.at, input);
    }
  }

  lemma SectionLogsOwnJob(s: System, n: nat, input: Input)
    requires Inv(s) && s.workers != [] && s.workers[0].pc == Running(n)
    ensures n < 20
    ensures var t := ApplySection(s, 0, n, input);
      && s.log <= t.log && (forall j :: |s.log| <= j < |t.log| ==> t.log[j].job == s.workers[0].job)
      && |t.workers| == 1 && t.workers[0].job == s.workers[0].job && t.svc.nextJob == s.svc.nextJob
  {
    ScriptStep(n);
  }

  lemma StoppedCall(s: System, job: U32, l: Label)
    requires Inv(s) && Stopped(s, job) && !l.WorkerStep?
    ensures Stopped(Apply(s, l), job) && Quiet(s.log, Apply(s, l).log, job)
  {
  }

  lemma StoppedStep(s: System, job: U32, l: Label)
    requires Inv(s) && Stopped(s, job)
    ensures Stopped(Apply(s, l), job) && Quiet(s.log, Apply(s, l).log, job)
  {
    if !l.WorkerStep? { StoppedCall(s, job, l); }
    else if l.worker < |s.workers| { StoppedWorkerStep(s, job, l.input); }
  }

  lemma QuietJoins(a: seq<Event>, b: seq<Event>, c: seq<Event>, job: U32)
    requires Quiet(a, b, job) && Quiet(b, c, job)
    ensures Quiet(a, c, job)
  {
  }

  lemma {:induction false} StoppedRun(s: System, job: U32, labels: seq<Label>)
    requires Inv(s) && Stopped(s, job)
    ensures Quiet(s.log, Run(s, labels).log, job)
    decreases labels
  {
    if labels != [] {
      var t := Apply(s, labels[0]);
      StepKeepsInv(s, labels[0]);
      StoppedStep(s, job, labels[0]);
      StoppedRun(t, job, labels[1..]);
      QuietJoins(s.log, t.log, Run(t, labels[1..]).log, job);
    }
  }

  /** The section fails: its tool or signal does, or the disk check refuses. */
  predicate Breaks(s: System, n: nat, input: Input)
    requires RunningAt(s, n)
  {
    if Plain(SCRIPT[n]) then input.broken
    else SCRIPT[n].RunTool? && s.svc.Revalidated(s.workers[0].request.diskId, input.listing).Err?
  }

  /**
   * A failed tool, signal or disk check leaves the log as it is, and in no run after it does the
   * job make any further progress: no tool, no boundary, no completion.
   */
  lemma FailedSectionEndsTheWork(s: System, n: nat, input: Input, labels: seq<Label>)
    requires Reachable(s) && RunningAt(s, n) && Breaks(s, n, input)
    ensures var t := Apply(s, WorkerStep(0, input));
      && t.log == s.log && t.workers != [] && t.workers[0].pc == Checking(n)
      && Quiet(s.log, Run(t, labels).log, s.workers[0].job)
  {
    ReachableKeepsInv(s);
    ScriptStep(n);
    if Plain(SCRIPT[n]) { ResultDecides(s, n, input); }
    else { RevalidationDecides(s, input); }
    StepKeepsInv(s, WorkerStep(0, input));
    StoppedRun(Apply(s, WorkerStep(0, input)), s.workers[0].job, labels);
  }

  // ---------------------------------------------------------------------
  // What a failure leaves to see
  // ---------------------------------------------------------------------

  /** The recorded failure shows the phase of the last boundary and the sanitized text, under its event. */
  lemma FailureIsShown(s: System, input: Input)
    requires Reachable(s) && s.workers != [] && s.workers[0].pc.Failing?
    ensures var t, job := Apply(s, WorkerStep(0, input)), s.workers[0].job;
      && t.svc.job.state.Failed? && t.svc.job.phase == LastPhase(t.log, job)
      && t.svc.job.diagnostic == Some(Bounded(input.diagnostic))
      && t.log == s.log + [FailedIn(job, t.svc.job.phase)]
  {
    ReachableKeepsInv(s);
    AppendedLog(s.log, FailedIn(s.workers[0].job, s.svc.job.phase), s.workers[0].job);
  }

  /** A worker that cannot be spawned leaves a failed job in the first phase, and no worker. */
  lemma FailedSpawnIsShown(s: System, diagnostic: string)
    requires Reachable(s) && s.workers != [] && s.workers[0].pc.Spawning?
    ensures var t := Apply(s, SpawnResult(false, 0, diagnostic));
      && t.workers == [] && !t.svc.workerActive && t.svc.job.state.Failed?
      && t.svc.job.phase.Preflight? && t.svc.job.diagnostic == Some(Bounded(diagnostic))
  {
    ReachableKeepsInv(s);
  }

  // ---------------------------------------------------------------------
  // What the calls accept
  // ---------------------------------------------------------------------

  /** A preflight is accepted exactly without a worker and for a listed, eligible disk; then the job is new and ready. */
  lemma PreflightIsExact(s: System, id: string, listing: DiskListing)
    requires Reachable(s)
    ensures s.svc.Preflight(id, listing).Ok? <==>
      s.workers == [] && Resolve(listing, id).Ok? && Resolve(listing, id).value.Eligible()
    ensures var t := Apply(s, PreflightCall(id, listing));
      if s.svc.Preflight(id, listing).Ok? then
        && t.svc.preflight == Some(Resolve(listing, id).value) && t.svc.preflight.value.id == id
        && t.svc.job == Job(Ready, InstallPhase.Preflight, None)
        && t.svc.nextJob == s.svc.nextJob && t.workers == [] && t.log == s.log
      else t == s
  {
    ReachableKeepsInv(s);
  }

  /** A start is admitted exactly when the job rests, a disk is preflighted, and phrase and settings are right. */
  lemma AdmissionIsExact(svc: Service, confirmation: string, settings: Result<InstallSettings, InstallerError>)
    ensures svc.Admitted(confirmation, settings).Ok? <==>
      && !svc.workerActive && (svc.job.state.Ready? || svc.job.state.Failed? || svc.job.state.Cancelled?)
      && svc.preflight.Some? && svc.preflight.value.Eligible()
      && settings.Ok? && settings.value.Fault().None?
      && Ok(confirmation) == ConfirmationPhrase(svc.preflight.value.id)
    ensures svc.Admitted(confirmation, settings).Ok? ==>
      svc.Admitted(confirmation, settings).value == InstallRequest(svc.preflight.value.id, settings.value)
  {
  }

  /** An admitted start leaves a new job and its worker under the next number; a refused one changes nothing. */
  lemma StartIsExact(s: System, confirmation: string, settings: Result<InstallSettings, InstallerError>)
    requires Reachable(s)
    ensures var t := Apply(s, StartCall(confirmation, settings));
      && (s.svc.Admitted(confirmation, settings).Err? ==> t == s)
      && (s.svc.Admitted(confirmation, settings).Ok? && s.svc.nextJob < LAST_JOB ==>
        && t.workers == [Worker(s.svc.nextJob, s.svc.Admitted(confirmation, settings).value, false, Spawning)]
        && t.svc.jobPath == s.svc.nextJob && t.svc.nextJob == s.svc.nextJob + 1
        && t.svc.job == Job(Preparing, InstallPhase.Preflight, None))
  {
    ReachableKeepsInv(s);
  }

  /** A cancel is accepted exactly for the current job while it is Ready or Preparing, and changes its state only. */
  lemma CancelIsExact(s: System, path: U32)
    ensures s.svc.CancelOutcome(path).Ok? <==>
      path == s.svc.jobPath && (s.svc.job.state.Ready? || s.svc.job.state.Preparing?)
    ensures var t := Apply(s, CancelCall(path));
      if s.svc.CancelOutcome(path).Ok? then
        t == System(s.svc.(job := s.svc.job.(state := Cancelled)), s.workers, s.log + [CancelAccepted(path)])
      else t == s
  {
  }
}
