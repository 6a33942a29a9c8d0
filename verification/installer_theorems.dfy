/** The promises of the installer, stated for every state any run reaches. */
module InstallTheorems {
  import opened Wrappers
  import opened ResourcePolicy
  import opened InstallerDomain
  import opened InstallerService
  import opened InstallProtocol
  import opened InstallSafety

  ghost predicate Reachable(s: System) { exists labels :: Run(INITIAL, labels) == s }

  lemma ReachableKeepsInv(s: System)
    requires Reachable(s)
    ensures Inv(s) && AllJustified(s.log)
  {
    var labels :| Run(INITIAL, labels) == s;
    RunKeepsInv(INITIAL, labels);
  }

  // ---------------------------------------------------------------------
  // Workers and the preflighted disk
  // ---------------------------------------------------------------------

  /** At most one worker lives, exactly while `worker_active` says so, on the preflighted disk. */
  lemma AtMostOneWorker(s: System)
    requires Reachable(s)
    ensures |s.workers| <= 1 && (s.svc.workerActive <==> |s.workers| == 1)
    ensures s.workers != [] ==>
      && s.workers[0].job == s.svc.jobPath
      && s.svc.preflight.Some? && s.svc.preflight.value.id == s.workers[0].request.diskId
  {
    ReachableKeepsInv(s);
  }

  /** While a worker lives no call replaces the preflighted disk or the job's number. */
  lemma PreflightIsFrozen(s: System, l: Label)
    requires Reachable(s) && s.workers != []
    ensures Apply(s, l).svc.preflight == s.svc.preflight && Apply(s, l).svc.jobPath == s.svc.jobPath
  {
    AtMostOneWorker(s);
    if l.WorkerStep? && l.worker == 0 { WorkerKeepsPreflight(s, l.input); }
  }

  lemma WorkerKeepsPreflight(s: System, input: Input)
    requires s.workers != []
    ensures ApplyWorker(s, 0, input).svc.preflight == s.svc.preflight
    ensures ApplyWorker(s, 0, input).svc.jobPath == s.svc.jobPath
  {
  }

  /** A job is busy without a worker only after the job counter ran out. */
  lemma BusyWithoutWorker(s: System)
    requires Reachable(s) && s.workers == []
    ensures s.svc.job.state.Preparing? || s.svc.job.state.PastStorage() ==>
      s.svc.job.state.Complete? || (s.svc.job.state.Preparing? && s.svc.nextJob == LAST_JOB == s.svc.jobPath)
  {
    ReachableKeepsInv(s);
  }

  /** An admitted start leaves a worker behind exactly when a number is left for it. */
  lemma StartSpawnsUnlessExhausted(s: System, confirmation: string, settings: Result<InstallSettings, InstallerError>)
    requires Reachable(s) && s.svc.Admitted(confirmation, settings).Ok?
    ensures var t := Apply(s, StartCall(confirmation, settings));
      && t.svc.job.state.Preparing?
      && (t.workers != [] <==> s.svc.nextJob < LAST_JOB)
      && (t.svc.workerActive <==> s.svc.nextJob < LAST_JOB)
  {
    ReachableKeepsInv(s);
  }

  // ---------------------------------------------------------------------
  // Cancellation
  // ---------------------------------------------------------------------

  /** After an accepted cancel the job never enters storage, prepares a disk or completes. */
  lemma CancelPreventsStorage(s: System, i: nat, j: nat)
    requires Reachable(s) && i < j < |s.log| && s.log[i] == CancelAccepted(s.log[j].job)
    ensures !s.log[j].Crossed? && !s.log[j].Completed?
    ensures s.log[j].Succeeded? ==>
      s.log[j].tool in [VerifyPayload, LoadPayload, ReadReference, ResolvePayload]
  {
    ReachableKeepsInv(s);
    assert JustifiedAt(s.log, j);
    assert s.log[..j][i] == s.log[i];
    assert WasCancelled(s.log[..j], s.log[j].job);
    if s.log[j].Succeeded? {
      var k := |ToolsOf(s.log[..j], s.log[j].job)|;
      assert k < FIRST_DISK_TOOL && s.log[j].tool == ALL_TOOLS[k];
    }
  }

  /** A worker that leaves quietly was cancelled and had touched no disk: nothing needed unmounting. */
  lemma QuietExitSkipsNoUnmount(s: System, j: nat)
    requires Reachable(s) && j < |s.log| && s.log[j].LeftCancelled?
    ensures CancelAccepted(s.log[j].job) in s.log[..j]
    ensures forall i :: 0 <= i < j && s.log[i].Crossed? ==> s.log[i].job != s.log[j].job
  {
    ReachableKeepsInv(s);
    assert JustifiedAt(s.log, j);
    forall i | 0 <= i < j && s.log[i].Crossed? ensures s.log[i].job != s.log[j].job {
      assert s.log[..j][i] == s.log[i];
    }
  }

  /** The check that leads to the quiet exit never sees Cancelled with storage started. */
  lemma QuietExitHasNoStorage(s: System)
    requires Reachable(s) && s.workers != [] && s.workers[0].pc.Checking? && s.svc.job.state.Cancelled?
    ensures !s.workers[0].storageStarted
  {
    ReachableKeepsInv(s);
  }

  /**
   * Cancelled is not final: exactly a failed spawn, the worker's recording of a failure,
   * a new preflight or a new start take the job out of it.
   */
  lemma LeavingCancelledIff(s: System, l: Label)
    requires Reachable(s) && s.svc.job.state.Cancelled?
    ensures !Apply(s, l).svc.job.state.Cancelled? <==> LeavesCancelled(s, l)
  {
    ReachableKeepsInv(s);
    if l.WorkerStep? {
      if l.worker < |s.workers| { CancelledWorkerStep(s, l.input); }
    } else {
      CancelledCall(s, l);
    }
  }

  lemma CancelledCall(s: System, l: Label)
    requires Inv(s) && s.svc.job.state.Cancelled? && !l.WorkerStep?
    ensures !Apply(s, l).svc.job.state.Cancelled? <==> LeavesCancelled(s, l)
  {
  }

  lemma CancelledWorkerStep(s: System, input: Input)
    requires Inv(s) && s.workers != [] && s.svc.job.state.Cancelled?
    ensures !ApplyWorker(s, 0, input).svc.job.state.Cancelled? <==> s.workers[0].pc.Failing?
  {
    if s.workers[0].pc.Running? { CancelledSectionKeepsState(s, s.workers[0].pc.at, input); }
  }

  predicate LeavesCancelled(s: System, l: Label) {
    match l
    case SpawnResult(spawned, i, _) => !spawned && i < |s.workers| && s.workers[i].pc.Spawning?
    case WorkerStep(i, _) => i < |s.workers| && s.workers[i].pc.Failing?
    case PreflightCall(id, listing) => s.svc.Preflight(id, listing).Ok?
    case StartCall(c, settings) => s.svc.Admitted(c, settings).Ok?
    case CancelCall(_) => false
  }

  lemma CancelledSectionKeepsState(s: System, n: nat, input: Input)
    requires Inv(s) && s.workers != [] && s.workers[0].pc == Running(n) && s.svc.job.state.Cancelled?
    ensures n < 20 && ApplySection(s, 0, n, input).svc == s.svc
  {
    ScriptStep(n);
    if SCRIPT[n].RunTool? && SCRIPT[n].tool.RevalidateDisk? {
      if s.svc.Revalidated(s.workers[0].request.diskId, input.listing).Ok? {
        RevalidationMeans(s.svc, s.workers[0].request.diskId, input.listing);
      }
    }
  }

  /** While its worker lives, Complete is left exactly by recording a failed last progress signal. */
  lemma LeavingCompleteIff(s: System, l: Label)
    requires Reachable(s) && s.svc.job.state.Complete? && s.workers != []
    ensures !Apply(s, l).svc.job.state.Complete? <==>
      l.WorkerStep? && l.worker == 0 && s.workers[0].pc == Failing(19)
  {
    ReachableKeepsInv(s);
    if l.WorkerStep? { CompleteWorkerStep(s, l.input); }
    else { CallsKeepComplete(s, l); }
  }

  lemma CallsKeepComplete(s: System, l: Label)
    requires Inv(s) && s.svc.job.state.Complete? && s.workers != [] && !l.WorkerStep?
    ensures Apply(s, l).svc.job.state.Complete?
  {
  }

  lemma CompleteWorkerStep(s: System, input: Input)
    requires Inv(s) && s.svc.job.state.Complete? && s.workers != []
    ensures !ApplyWorker(s, 0, input).svc.job.state.Complete? <==> s.workers[0].pc == Failing(19)
  {
    if s.workers[0].pc.Running? { LastSectionKeepsState(s, input); }
  }

  lemma LastSectionKeepsState(s: System, input: Input)
    requires Inv(s) && s.workers != [] && s.svc.job.state.Complete? && s.workers[0].pc.Running?
    ensures s.workers[0].pc.at == 19 && ApplyWorker(s, 0, input).svc == s.svc
  {
    assert SCRIPT[19].Emit?;
  }

  // ---------------------------------------------------------------------
  // Storage, completion and failure
  // ---------------------------------------------------------------------

  /**
   * The storage boundary is crossed only with a live, eligible disk that has the identity
   * and the device the user confirmed with its own phrase when the job was started.
   */
  lemma StorageIsConfirmed(s: System, j: nat)
    requires Reachable(s) && j < |s.log| && s.log[j].Crossed? && s.log[j].phase.Storage?
    ensures s.log[j].live.Some? && s.log[j].live.value.Eligible()
    ensures exists i :: 0 <= i < j && Confirms(s.log[i], s.log[j].job, s.log[j].live.value)
  {
    ReachableKeepsInv(s);
    assert JustifiedAt(s.log, j);
    var job, live := s.log[j].job, s.log[j].live.value;
    var i :| 0 <= i < j && StartNames(s.log[..j][i], job, live.id, live.device);
    assert JustifiedAt(s.log, i);
    assert Confirms(s.log[i], job, live);
  }

  predicate Confirms(e: Event, job: U32, live: DiskInfo) {
    && StartNames(e, job, live.id, live.device)
    && e.disk.Eligible() && Ok(e.confirmation) == ConfirmationPhrase(live.id)
  }

  lemma {:induction false} ToolsAreAPrefix(log: seq<Event>, job: U32)
    requires AllJustified(log)
    ensures ToolsOf(log, job) <= ALL_TOOLS && PercentsOf(log, job) <= ALL_PERCENTS
  {
    if log != [] {
      var n := |log| - 1;
      var past := log[..n];
      forall i | 0 <= i < n ensures JustifiedAt(past, i) {
        assert past[i] == log[i] && past[..i] == log[..i] && JustifiedAt(log, i);
      }
      ToolsAreAPrefix(past, job);
      assert JustifiedAt(log, n);
      if log[n].Succeeded? && log[n].job == job { OneMore(ALL_TOOLS, |ToolsOf(past, job)|); }
      if log[n].Progressed? && log[n].job == job { OneMore(ALL_PERCENTS, |PercentsOf(past, job)|); }
    }
  }

  /** Each tool succeeds at most once and in order, and reported progress only rises. */
  lemma ToolsRunInOrderOnce(s: System, job: U32)
    requires Reachable(s)
    ensures ToolsOf(s.log, job) <= ALL_TOOLS
    ensures forall i, j :: 0 <= i < j < |PercentsOf(s.log, job)| ==>
      PercentsOf(s.log, job)[i] < PercentsOf(s.log, job)[j]
  {
    ReachableKeepsInv(s);
    ToolsAreAPrefix(s.log, job);
    var percents := PercentsOf(s.log, job);
    forall i, j | 0 <= i < j < |percents| ensures percents[i] < percents[j] {
      assert percents[i] == ALL_PERCENTS[i] && percents[j] == ALL_PERCENTS[j];
    }
  }

  /** A job completes only when every tool has succeeded, and it was never cancelled. */
  lemma CompletionNeedsEveryTool(s: System, j: nat)
    requires Reachable(s) && j < |s.log| && s.log[j].Completed?
    ensures ToolsOf(s.log[..j], s.log[j].job) == ALL_TOOLS
    ensures LastPhase(s.log[..j], s.log[j].job).Finalization?
    ensures CancelAccepted(s.log[j].job) !in s.log[..j]
  {
    ReachableKeepsInv(s);
    assert JustifiedAt(s.log, j);
  }

  /** The phases of a job are crossed one after another, each once. */
  lemma PhasesNeverGoBack(s: System, j: nat)
    requires Reachable(s) && j < |s.log| && s.log[j].Crossed?
    ensures LastPhase(s.log[..j], s.log[j].job).Rank() + 1 == s.log[j].phase.Rank()
  {
    ReachableKeepsInv(s);
    assert JustifiedAt(s.log, j);
  }

  /**
   * A failure is recorded in the phase of the last boundary reached, and once the disk
   * was touched an unmount was attempted between the two.
   */
  lemma FailureIsRecordedAfterCleanup(s: System, i: nat, j: nat)
    requires Reachable(s) && i < j < |s.log| && s.log[j].FailedIn?
    ensures s.log[j].phase == LastPhase(s.log[..j], s.log[j].job)
    ensures s.log[i].Crossed? && s.log[i].job == s.log[j].job && s.log[i].phase.Storage? ==>
      exists k :: i < k < j && s.log[k] == UnmountAttempted(s.log[j].job)
  {
    ReachableKeepsInv(s);
    var job := s.log[j].job;
    assert JustifiedAt(s.log, j);
    if s.log[i].Crossed? && s.log[i].job == job && s.log[i].phase.Storage? {
      assert s.log[..j][i] == s.log[i];
      var k :| 0 <= k < j && s.log[..j][k] == UnmountAttempted(job);
      UnmountFollowsStorage(s.log, i, k);
    }
  }

  /** The storage crossing is a job's first, so an unmount attempt comes after it. */
  lemma UnmountFollowsStorage(log: seq<Event>, i: nat, k: nat)
    requires AllJustified(log) && i < |log| && k < |log|
    requires log[i].Crossed? && log[i].phase.Storage? && log[k] == UnmountAttempted(log[i].job)
    ensures i < k
  {
    assert JustifiedAt(log, i) && JustifiedAt(log, k);
    var c :| 0 <= c < k && log[..k][c].Crossed? && log[..k][c].job == log[i].job;
    NoEarlierCrossing(log, i, c, log[i].job);
  }

  lemma NoEarlierCrossing(log: seq<Event>, i: nat, c: nat, job: U32)
    requires i < |log| && c < |log| && !ReachedStorage(log[..i], job)
    ensures c < i ==> !(log[c].Crossed? && log[c].job == job)
  {
  }

  // ---------------------------------------------------------------------
  // Every worker ends
  // ---------------------------------------------------------------------

  function Remaining(pc: Pc): nat {
    match pc
    case Spawning => 26
    case Running(n) => if n < 20 then 25 - n else 0
    case Checking(_) => 5
    case Cleaning(_) => 4
    case Failing(_) => 3
    case LeavingCancelled => 1
    case Releasing(_) => 1
  }

  /** The label is the one step the live worker waits for. */
  predicate Moves(s: System, l: Label) {
    && s.workers != []
    && if s.workers[0].pc.Spawning? then l.SpawnResult? && l.worker == 0 else l.WorkerStep? && l.worker == 0
  }

  function MovesIn(s: System, labels: seq<Label>): nat
    decreases labels
  {
    if labels == [] || s.workers == [] then 0
    else (if Moves(s, labels[0]) then 1 else 0) + MovesIn(Apply(s, labels[0]), labels[1..])
  }

  lemma MoveCountsDown(s: System, l: Label)
    requires Inv(s) && s.workers != []
    ensures var t := Apply(s, l);
      if Moves(s, l) then t.workers == [] || Remaining(t.workers[0].pc) < Remaining(s.workers[0].pc)
      else t.workers == s.workers
  {
    if Moves(s, l) && s.workers[0].pc.Running? {
      SectionCountsDown(s, s.workers[0].pc.at, l.input);
    }
  }

  lemma SectionCountsDown(s: System, n: nat, input: Input)
    requires Inv(s) && s.workers != [] && s.workers[0].pc == Running(n)
    ensures n < 20 && |ApplySection(s, 0, n, input).workers| == 1
    ensures Remaining(ApplySection(s, 0, n, input).workers[0].pc) < 25 - n
  {
    ScriptStep(n);
    var t := ApplySection(s, 0, n, input);
    assert t.workers[0].pc == After(n) || t.workers[0].pc == Checking(n);
  }

  /** Whatever else is called in between, 26 steps of its own end any worker. */
  lemma {:induction false} WorkerFinishes(s: System, labels: seq<Label>)
    requires Inv(s) && s.workers != []
    requires MovesIn(s, labels) >= Remaining(s.workers[0].pc)
    ensures Remaining(s.workers[0].pc) <= 26
    ensures exists k :: 0 <= k <= |labels| && Run(s, labels[..k]).workers == []
    decreases labels
  {
    assert labels != [];
    var t := Apply(s, labels[0]);
    StepKeepsInv(s, labels[0]);
    MoveCountsDown(s, labels[0]);
    if t.workers == [] {
      assert labels[..1] == [labels[0]] && Run(t, []) == t;
      assert Run(s, labels[..1]).workers == [];
    } else {
      WorkerFinishes(t, labels[1..]);
      var k :| 0 <= k <= |labels[1..]| && Run(t, labels[1..][..k]).workers == [];
      assert labels[..k + 1][1..] == labels[1..][..k];
      assert Run(s, labels[..k + 1]).workers == [];
    }
  }

  // ---------------------------------------------------------------------
  // What becomes of a cancelled job
  // ---------------------------------------------------------------------

  /** The worker has looked at the state already, or is about to record its failure. */
  predicate PastCheck(pc: Pc) { pc.Cleaning? || pc.Failing? }

  /** Cancelled, and the worker, if there is one, will still look and leave quietly. */
  predicate Settled(s: System) {
    && s.svc.job.state.Cancelled?
    && (s.workers != [] ==>
      s.workers[0].pc.Running? || s.workers[0].pc.Checking? || s.workers[0].pc.LeavingCancelled?)
  }

  predicate NewJob(l: Label) { l.PreflightCall? || l.StartCall? }

  predicate NoNewJob(labels: seq<Label>) {
    forall i :: 0 <= i < |labels| ==> !NewJob(labels[i])
  }

  lemma SettledStep(s: System, l: Label)
    requires Inv(s) && Settled(s) && !NewJob(l)
    ensures Settled(Apply(s, l))
  {
    if l.WorkerStep? && l.worker < |s.workers| && s.workers[0].pc.Running? {
      CancelledSectionKeepsState(s, s.workers[0].pc.at, l.input);
      CancelledSectionGoesOn(s, s.workers[0].pc.at, l.input);
    }
  }

  lemma CancelledSectionGoesOn(s: System, n: nat, input: Input)
    requires Inv(s) && s.workers != [] && s.workers[0].pc == Running(n) && s.svc.job.state.Cancelled?
    ensures n < 20 && |ApplySection(s, 0, n, input).workers| == 1
    ensures var pc := ApplySection(s, 0, n, input).workers[0].pc; pc == Running(n + 1) || pc == Checking(n)
  {
    ScriptStep(n);
  }

  /** A cancel accepted before the worker's check stands until a new preflight or start. */
  lemma {:induction false} SettledRun(s: System, labels: seq<Label>)
    requires Inv(s) && Settled(s) && NoNewJob(labels)
    ensures Settled(Run(s, labels))
    decreases labels
  {
    if labels != [] {
      StepKeepsInv(s, labels[0]);
      SettledStep(s, labels[0]);
      SettledRun(Apply(s, labels[0]), labels[1..]);
    }
  }

  /** Failed, or cancelled with at most `moves` steps of the worker until the failure is recorded. */
  predicate Overtaken(s: System, moves: nat) {
    || s.svc.job.state.Failed?
    || (s.svc.job.state.Cancelled? && s.workers != [] && PastCheck(s.workers[0].pc)
        && moves == (if s.workers[0].pc.Cleaning? then 2 else 1))
  }

  lemma FailedStays(s: System, l: Label)
    requires Inv(s) && s.svc.job.state.Failed? && !NewJob(l)
    ensures Apply(s, l).svc.job.state.Failed?
  {
  }

  lemma {:induction false} FailedRun(s: System, labels: seq<Label>)
    requires Inv(s) && s.svc.job.state.Failed? && NoNewJob(labels)
    ensures Run(s, labels).svc.job.state.Failed?
    decreases labels
  {
    if labels != [] {
      StepKeepsInv(s, labels[0]);
      FailedStays(s, labels[0]);
      FailedRun(Apply(s, labels[0]), labels[1..]);
    }
  }

  lemma OvertakenStep(s: System, l: Label, moves: nat)
    requires Inv(s) && s.svc.job.state.Cancelled? && Overtaken(s, moves) && !NewJob(l)
    ensures var t := Apply(s, l);
      if Moves(s, l) then (if moves == 1 then t.svc.job.state.Failed? else t.svc.job.state.Cancelled? && Overtaken(t, 1))
      else t.svc.job.state.Cancelled? && Overtaken(t, moves)
  {
  }

  /** A cancel accepted after the check is overtaken by the failure once the worker has made its moves. */
  lemma {:induction false} OvertakenRun(s: System, labels: seq<Label>, moves: nat)
    requires Inv(s) && s.svc.job.state.Cancelled? && Overtaken(s, moves) && NoNewJob(labels)
    requires MovesIn(s, labels) >= moves
    ensures Run(s, labels).svc.job.state.Failed?
    decreases labels
  {
    var t := Apply(s, labels[0]);
    StepKeepsInv(s, labels[0]);
    OvertakenStep(s, labels[0], moves);
    if t.svc.job.state.Failed? { FailedRun(t, labels[1..]); }
    else { OvertakenRun(t, labels[1..], if Moves(s, labels[0]) then 1 else moves); }
  }

  /**
   * In any run without a new preflight or start, a job cancelled under a running worker is still
   * Cancelled at the end exactly if the worker had not yet looked at the state; otherwise, once
   * the worker has made its two moves, the job is Failed.
   */
  lemma CancelStandsIff(s: System, labels: seq<Label>)
    requires Reachable(s) && s.svc.job.state.Cancelled? && s.workers != [] && !s.workers[0].pc.Spawning?
    requires NoNewJob(labels) && (PastCheck(s.workers[0].pc) ==> MovesIn(s, labels) >= 2)
    ensures Run(s, labels).svc.job.state.Cancelled? <==> !PastCheck(s.workers[0].pc)
    ensures PastCheck(s.workers[0].pc) ==> Run(s, labels).svc.job.state.Failed?
  {
    ReachableKeepsInv(s);
    if PastCheck(s.workers[0].pc) {
      OvertakenRun(s, labels, if s.workers[0].pc.Cleaning? then 2 else 1);
    } else {
      SettledRun(s, labels);
    }
  }
}
