/** Runs that show which states of the installer are not final, for any installable disk. */
module InstallRaces {
  import opened Wrappers
  import opened ResourcePolicy
  import opened InstallerDomain
  import opened InstallerService
  import opened InstallProtocol
  import opened InstallSafety
  import opened InstallTheorems

  lemma {:induction false} RunSnoc(s: System, labels: seq<Label>, l: Label)
    ensures Run(s, labels + [l]) == Apply(Run(s, labels), l)
    decreases labels
  {
    if labels == [] {
      assert labels + [l] == [l] && Run(Apply(s, l), []) == Apply(s, l);
      assert Run(s, [l]) == Apply(s, l);
    } else {
      assert (labels + [l])[1..] == labels[1..] + [l];
      RunSnoc(Apply(s, labels[0]), labels[1..], l);
    }
  }

  lemma ReachableStep(s: System, l: Label)
    requires Reachable(s)
    ensures Reachable(Apply(s, l))
  {
    var labels :| Run(INITIAL, labels) == s;
    RunSnoc(INITIAL, labels, l);
    assert Run(INITIAL, labels + [l]) == Apply(s, l);
  }

  /** A state whose only worker is about to run section `n` for this disk. */
  ghost predicate WorkingOn(s: System, disk: DiskInfo, n: nat) {
    && Reachable(s) && |s.workers| == 1 && s.workers[0].pc == Running(n)
    && s.workers[0].request.diskId == disk.id && s.svc.preflight == Some(disk)
    && s.svc.job.state == StateBefore(n) && s.svc.jobPath == s.workers[0].job
  }

  lemma StartedWorker(disk: DiskInfo, confirmation: string, settings: InstallSettings) returns (s: System)
    requires NewRequest(disk, confirmation, settings).Ok?
    ensures WorkingOn(s, disk, 0)
  {
    assert Run(INITIAL, []) == INITIAL;
    assert ResolveDisk([disk], disk.id) == Ok(disk);
    var ready := Apply(INITIAL, PreflightCall(disk.id, Ok([disk])));
    ReachableStep(INITIAL, PreflightCall(disk.id, Ok([disk])));
    var spawning := Apply(ready, StartCall(confirmation, Ok(settings)));
    ReachableStep(ready, StartCall(confirmation, Ok(settings)));
    s := Apply(spawning, SpawnResult(true, 0, ""));
    ReachableStep(spawning, SpawnResult(true, 0, ""));
  }

  /** When every tool succeeds the worker reaches each section of its script. */
  lemma {:induction false} EverySectionIsReached(disk: DiskInfo, confirmation: string, settings: InstallSettings, n: nat)
    returns (s: System)
    requires NewRequest(disk, confirmation, settings).Ok? && n < 20
    ensures WorkingOn(s, disk, n)
  {
    if n == 0 {
      s := StartedWorker(disk, confirmation, settings);
    } else {
      var before := EverySectionIsReached(disk, confirmation, settings, n - 1);
      s := FineSection(before, disk, n - 1);
    }
  }

  lemma FineSection(s: System, disk: DiskInfo, n: nat) returns (t: System)
    requires WorkingOn(s, disk, n) && n < 19 && disk.Eligible()
    ensures WorkingOn(t, disk, n + 1)
  {
    var input := Input(false, Ok([disk]), "");
    assert ResolveDisk([disk], disk.id) == Ok(disk);
    ScriptStep(n);
    ReachableStep(s, WorkerStep(0, input));
    t := ApplySection(s, 0, n, input);
    assert t == Apply(s, WorkerStep(0, input));
  }

  /** A worker that meets an error at section `n` fails its job unless it was cancelled in time. */
  lemma BrokenSection(s: System, disk: DiskInfo, n: nat) returns (checked: System)
    requires WorkingOn(s, disk, n) && n < 20 && SCRIPT[n].Emit?
    ensures Reachable(checked) && |checked.workers| == 1 && checked.workers[0].pc == Cleaning(n)
    ensures checked.svc == s.svc && checked.log == s.log && checked.workers[0].job == s.workers[0].job
  {
    var broken := Input(true, Ok([]), "");
    var checking := Apply(s, WorkerStep(0, broken));
    ReachableStep(s, WorkerStep(0, broken));
    assert checking.workers[0].pc == Checking(n);
    checked := Apply(checking, WorkerStep(0, broken));
    ReachableStep(checking, WorkerStep(0, broken));
  }

  lemma CleanedThenFailed(s: System, n: nat) returns (failed: System)
    requires Reachable(s) && |s.workers| == 1 && s.workers[0].pc == Cleaning(n)
    ensures Reachable(failed) && failed.svc.job.state.Failed? && failed.workers != []
    ensures s.log <= failed.log && failed.workers[0].job == s.workers[0].job
  {
    var input := Input(true, Ok([]), "");
    var failing := Apply(s, WorkerStep(0, input));
    ReachableStep(s, WorkerStep(0, input));
    failed := Apply(failing, WorkerStep(0, input));
    ReachableStep(failing, WorkerStep(0, input));
  }

  ghost predicate Later(s: System, t: System) {
    && Reachable(s) && Reachable(t) && s.log <= t.log
    && s.workers != [] && t.workers != [] && s.workers[0].job == t.workers[0].job
  }

  /** A cancel accepted between the worker's check and its report is overwritten by Failed. */
  lemma CancelledIsNotFinal(disk: DiskInfo, confirmation: string, settings: InstallSettings)
    requires NewRequest(disk, confirmation, settings).Ok?
    ensures exists s, t :: Later(s, t) && s.svc.job.state.Cancelled? && t.svc.job.state.Failed?
  {
    var start := StartedWorker(disk, confirmation, settings);
    var cleaning := BrokenSection(start, disk, 0);
    var job := cleaning.svc.jobPath;
    var cancelled := Apply(cleaning, CancelCall(job));
    ReachableStep(cleaning, CancelCall(job));
    var failed := CleanedThenFailed(cancelled, 0);
    assert Later(cancelled, failed) && cancelled.svc.job.state.Cancelled?;
  }

  /** A last progress signal that cannot be sent turns a complete installation into a failed one. */
  lemma CompleteIsNotFinal(disk: DiskInfo, confirmation: string, settings: InstallSettings)
    requires NewRequest(disk, confirmation, settings).Ok?
    ensures exists s, t :: Later(s, t) && s.svc.job.state.Complete? && t.svc.job.state.Failed?
  {
    var last := EverySectionIsReached(disk, confirmation, settings, 19);
    ScriptStep(19);
    var cleaning := BrokenSection(last, disk, 19);
    var failed := CleanedThenFailed(cleaning, 19);
    assert Later(last, failed) && last.svc.job.state.Complete?;
  }

  /** After a failed spawn for each earlier number the service rests before number `n`. */
  lemma {:induction false} EveryNumberIsReached(disk: DiskInfo, confirmation: string, settings: InstallSettings, n: U32)
    returns (s: System)
    requires NewRequest(disk, confirmation, settings).Ok? && 1 <= n
    ensures Reachable(s) && s.workers == [] && s.svc.nextJob == n
    ensures s.svc.preflight == Some(disk) && s.svc.Admitted(confirmation, Ok(settings)).Ok?
    decreases n
  {
    if n == 1 {
      assert Run(INITIAL, []) == INITIAL;
      assert ResolveDisk([disk], disk.id) == Ok(disk);
      s := Apply(INITIAL, PreflightCall(disk.id, Ok([disk])));
      ReachableStep(INITIAL, PreflightCall(disk.id, Ok([disk])));
    } else {
      var before := EveryNumberIsReached(disk, confirmation, settings, n - 1);
      var spawning := Apply(before, StartCall(confirmation, Ok(settings)));
      ReachableStep(before, StartCall(confirmation, Ok(settings)));
      s := Apply(spawning, SpawnResult(false, 0, ""));
      ReachableStep(spawning, SpawnResult(false, 0, ""));
    }
  }

  /** At the end of the counter a start leaves the job Preparing, and no worker to prepare it. */
  lemma PreparingNeedsNoWorker(disk: DiskInfo, confirmation: string, settings: InstallSettings)
    requires NewRequest(disk, confirmation, settings).Ok?
    ensures exists s :: Reachable(s) && s.svc.job.state.Preparing? && s.workers == [] && !s.svc.workerActive
  {
    var last := EveryNumberIsReached(disk, confirmation, settings, LAST_JOB);
    var stuck := Apply(last, StartCall(confirmation, Ok(settings)));
    ReachableStep(last, StartCall(confirmation, Ok(settings)));
    ReachableKeepsInv(stuck);
    assert stuck.svc.job.state.Preparing? && stuck.workers == [];
  }
}
