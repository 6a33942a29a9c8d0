/** What every interleaving of the installer keeps, and what follows for whole runs. */
module InstallSafety {
  import opened Wrappers
  import opened ResourcePolicy
  import opened InstallerDomain
  import opened InstallerService
  import opened InstallProtocol

  // ---------------------------------------------------------------------
  // One more event
  // ---------------------------------------------------------------------

  lemma AppendedLog(log: seq<Event>, e: Event, job: U32)
    ensures var longer := log + [e];
      && ToolsOf(longer, job) == ToolsOf(log, job) + (if e.Succeeded? && e.job == job then [e.tool] else [])
      && PercentsOf(longer, job) == PercentsOf(log, job) + (if e.Progressed? && e.job == job then [e.percent] else [])
      && LastPhase(longer, job) == (if e.Crossed? && e.job == job then e.phase else LastPhase(log, job))
      && (ReachedStorage(longer, job) <==> ReachedStorage(log, job) || (e.Crossed? && e.job == job))
      && (WasCancelled(longer, job) <==> WasCancelled(log, job) || e == CancelAccepted(job))
  {
  }

  lemma AppendedStart(log: seq<Event>, e: Event, job: U32, id: string, device: string)
    ensures StartedFor(log, job, id, device) ==> StartedFor(log + [e], job, id, device)
    ensures StartNames(e, job, id, device) ==> StartedFor(log + [e], job, id, device)
  {
    if StartedFor(log, job, id, device) {
      var i :| 0 <= i < |log| && StartNames(log[i], job, id, device);
      assert (log + [e])[i] == log[i];
    }
    assert (log + [e])[|log|] == e;
  }

  lemma AppendedJustified(log: seq<Event>, e: Event)
    requires AllJustified(log) && Justified(log, e)
    ensures AllJustified(log + [e])
  {
    var longer := log + [e];
    forall i | 0 <= i < |longer| ensures JustifiedAt(longer, i) {
      assert i < |log| ==> longer[..i] == log[..i] && JustifiedAt(log, i);
      assert i == |log| ==> longer[..i] == log;
    }
  }

  lemma UnknownNumber(log: seq<Event>, job: U32)
    requires forall i :: 0 <= i < |log| ==> log[i].job != job
    ensures ToolsOf(log, job) == [] && PercentsOf(log, job) == [] && LastPhase(log, job).Preflight?
    ensures !ReachedStorage(log, job) && !WasCancelled(log, job) && !Mentioned(log, job)
  {
  }

  lemma OneMore<T>(s: seq<T>, k: nat)
    requires k < |s|
    ensures s[..k + 1] == s[..k] + [s[k]]
  {
  }

  // ---------------------------------------------------------------------
  // The script, section by section
  // ---------------------------------------------------------------------

  lemma ScriptStep(n: nat)
    requires n < 20
    ensures |SCRIPT| == 20
    ensures match SCRIPT[n]
      case Emit(_, percent) =>
        && n != BOUNDARY && ToolsBefore(n + 1) == ToolsBefore(n)
        && PercentsBefore(n + 1) == PercentsBefore(n) + 1 && percent == ALL_PERCENTS[PercentsBefore(n)]
        && StateBefore(n + 1) == StateBefore(n) && PhaseBefore(n + 1) == PhaseBefore(n)
      case RunTool(tool) =>
        && ToolsBefore(n + 1) == ToolsBefore(n) + 1 && tool == ALL_TOOLS[ToolsBefore(n)]
        && PercentsBefore(n + 1) == PercentsBefore(n)
        && (ToolsBefore(n) >= FIRST_DISK_TOOL ==> n >= BOUNDARY)
        && (tool.RevalidateDisk? <==> n == BOUNDARY)
        && (n != BOUNDARY ==> StateBefore(n + 1) == StateBefore(n) && PhaseBefore(n + 1) == PhaseBefore(n))
      case Enter(state, phase) =>
        && n > BOUNDARY && ToolsBefore(n + 1) == ToolsBefore(n) && PercentsBefore(n + 1) == PercentsBefore(n)
        && StateBefore(n + 1) == state && PhaseBefore(n + 1) == phase && Allowed(StateBefore(n), state)
        && (if state.Complete? then ToolsBefore(n) == 10 && PhaseBefore(n).Finalization?
            else PhaseBefore(n).Rank() + 1 == phase.Rank() && !phase.Storage?)
  {
  }

  // ---------------------------------------------------------------------
  // Every step keeps the invariant
  // ---------------------------------------------------------------------

  /** The worker moved from section `n` to the next with the log entry `e`. */
  lemma AdvanceKeeps(svc: Service, next: Job, w: Worker, log: seq<Event>, n: nat, e: Event)
    requires WorkerInv(svc, w, log) && w.pc == Running(n) && n < 20 && n != BOUNDARY
    requires e.job == w.job && !e.CancelAccepted?
    requires At(next, n + 1) && (next.state.Cancelled? <==> svc.job.state.Cancelled?)
    requires LogAt(log + [e], w.job, n + 1)
    ensures WorkerInv(svc.(job := next), w.(pc := if n < 19 then Running(n + 1) else Releasing(true)), log + [e])
  {
  }

  lemma AdvancedLog(log: seq<Event>, e: Event, job: U32, n: nat)
    requires n < 20 && n != BOUNDARY && e.job == job && LogAt(log, job, n)
    requires ToolsBefore(n + 1) == ToolsBefore(n) + (if e.Succeeded? then 1 else 0)
    requires e.Succeeded? ==> e.tool == ALL_TOOLS[ToolsBefore(n)]
    requires PercentsBefore(n + 1) == PercentsBefore(n) + (if e.Progressed? then 1 else 0)
    requires e.Progressed? ==> e.percent == ALL_PERCENTS[PercentsBefore(n)]
    requires PhaseBefore(n + 1) == (if e.Crossed? then e.phase else PhaseBefore(n))
    requires e.Crossed? ==> n > BOUNDARY
    ensures LogAt(log + [e], job, n + 1)
  {
    AppendedLog(log, e, job);
    if e.Succeeded? { OneMore(ALL_TOOLS, ToolsBefore(n)); }
    if e.Progressed? { OneMore(ALL_PERCENTS, PercentsBefore(n)); }
  }

  lemma EmitKeeps(s: System, n: nat, input: Input)
    requires Inv(s) && s.workers != [] && s.workers[0].pc == Running(n) && n < 20 && SCRIPT[n].Emit?
    ensures var t := ApplySection(s, 0, n, input); Inv(t) && Grows(s.log, t.log)
  {
    ScriptStep(n);
    if !input.broken {
      var e := Progressed(s.workers[0].job, SCRIPT[n].percent);
      assert Justified(s.log, e);
      AdvancedLog(s.log, e, s.workers[0].job, n);
      AdvanceKeeps(s.svc, s.svc.job, s.workers[0], s.log, n, e);
    }
  }

  lemma ToolKeeps(s: System, n: nat, input: Input)
    requires Inv(s) && s.workers != [] && s.workers[0].pc == Running(n) && n < 20
    requires SCRIPT[n].RunTool? && !SCRIPT[n].tool.RevalidateDisk?
    ensures var t := ApplySection(s, 0, n, input); Inv(t) && Grows(s.log, t.log)
  {
    ScriptStep(n);
    if !input.broken {
      var e := Succeeded(s.workers[0].job, SCRIPT[n].tool);
      assert Justified(s.log, e);
      AdvancedLog(s.log, e, s.workers[0].job, n);
      AdvanceKeeps(s.svc, s.svc.job, s.workers[0], s.log, n, e);
    }
  }

  /** Crossing into the next phase, or completing after the last tool, is justified. */
  lemma EnterJustified(log: seq<Event>, job: U32, n: nat, e: Event)
    requires BOUNDARY < n < 20 && LogAt(log, job, n) && !WasCancelled(log, job)
    requires match e
      case Crossed(j, phase, live) =>
        j == job && PhaseBefore(n).Rank() + 1 == phase.Rank() && !phase.Storage?
      case Completed(j) => j == job && ToolsBefore(n) == 10 && PhaseBefore(n).Finalization?
      case _ => false
    ensures Justified(log, e)
  {
  }

  lemma EnterKeeps(s: System, n: nat, input: Input)
    requires Inv(s) && s.workers != [] && s.workers[0].pc == Running(n) && n < 20 && SCRIPT[n].Enter?
    ensures var t := ApplySection(s, 0, n, input); Inv(t) && Grows(s.log, t.log)
  {
    ScriptStep(n);
    var w := s.workers[0];
    var next := Job(SCRIPT[n].state, SCRIPT[n].phase, s.svc.job.diagnostic);
    var e := if SCRIPT[n].state.Complete? then Completed(w.job) else Crossed(w.job, SCRIPT[n].phase, None);
    EnterJustified(s.log, w.job, n, e);
    AdvancedLog(s.log, e, w.job, n);
    AdvanceKeeps(s.svc, next, w, s.log, n, e);
  }

  lemma RevalidationMeans(svc: Service, id: string, listing: DiskListing)
    requires svc.Revalidated(id, listing).Ok?
    ensures Resolve(listing, id).Ok? && svc.preflight.Some? && svc.job.state.Preparing?
    ensures var live := Resolve(listing, id).value;
      live.Eligible() && live.id == id && live.id == svc.preflight.value.id && live.device == svc.preflight.value.device
    ensures svc.Revalidated(id, listing).value
      == svc.(job := svc.job.(state := Destructive, phase := Storage))
  {
  }

  lemma CrossingLog(log: seq<Event>, job: U32, live: DiskInfo)
    requires LogAt(log, job, BOUNDARY) && !WasCancelled(log, job)
    requires live.Eligible() && StartedFor(log, job, live.id, live.device)
    ensures var crossed := log + [Crossed(job, Storage, Some(live))];
      var now := crossed + [Succeeded(job, RevalidateDisk)];
      && LogAt(now, job, BOUNDARY + 1) && !WasCancelled(now, job)
      && StartedFor(now, job, live.id, live.device) && Grows(log, now)
  {
    var crossed, e := Crossed(job, Storage, Some(live)), Succeeded(job, RevalidateDisk);
    var middle := log + [crossed];
    AppendedLog(log, crossed, job);
    AppendedStart(log, crossed, job, live.id, live.device);
    AppendedLog(middle, e, job);
    AppendedStart(middle, e, job, live.id, live.device);
    OneMore(ALL_TOOLS, FIRST_DISK_TOOL);
    assert (middle + [e])[|log|] == crossed && (middle + [e])[|log| + 1] == e;
  }

  lemma CrossingKeeps(s: System, live: DiskInfo)
    requires Inv(s) && s.workers != [] && s.workers[0].pc == Running(BOUNDARY)
    requires live.Eligible() && s.svc.job.state.Preparing?
    requires s.svc.preflight.value.id == live.id && s.svc.preflight.value.device == live.device
    ensures var w := s.workers[0];
      var t := System(
        s.svc.(job := s.svc.job.(state := Destructive, phase := Storage)),
        [w.(pc := Running(BOUNDARY + 1), storageStarted := true)],
        s.log + [Crossed(w.job, Storage, Some(live))] + [Succeeded(w.job, RevalidateDisk)]);
      Inv(t) && Grows(s.log, t.log)
  {
    var w := s.workers[0];
    CrossingLog(s.log, w.job, live);
    FreshAfter(s.svc, s.log, Crossed(w.job, Storage, Some(live)));
    FreshAfter(s.svc, s.log + [Crossed(w.job, Storage, Some(live))], Succeeded(w.job, RevalidateDisk));
  }

  lemma FreshAfter(svc: Service, log: seq<Event>, e: Event)
    requires FreshNumbers(svc, log) && e.job < svc.nextJob
    ensures FreshNumbers(svc, log + [e])
  {
  }

  lemma RevalidateKeeps(s: System, input: Input)
    requires Inv(s) && s.workers != [] && s.workers[0].pc == Running(BOUNDARY)
    ensures var t := ApplySection(s, 0, BOUNDARY, input); Inv(t) && Grows(s.log, t.log)
  {
    var w := s.workers[0];
    assert SCRIPT[BOUNDARY] == RunTool(RevalidateDisk);
    if s.svc.Revalidated(w.request.diskId, input.listing).Ok? {
      RevalidationMeans(s.svc, w.request.diskId, input.listing);
      CrossingKeeps(s, Resolve(input.listing, w.request.diskId).value);
    } else {
      BreakKeeps(s, BOUNDARY);
    }
  }

  lemma BreakKeeps(s: System, n: nat)
    requires Inv(s) && s.workers != [] && s.workers[0].pc == Running(n)
    ensures Inv(MoveTo(s, 0, Checking(n)))
  {
  }

  lemma SectionKeeps(s: System, n: nat, input: Input)
    requires Inv(s) && s.workers != [] && s.workers[0].pc == Running(n)
    ensures var t := ApplySection(s, 0, n, input); n < 20 && Inv(t) && Grows(s.log, t.log)
  {
    ScriptStep(n);
    match SCRIPT[n]
    case Emit(_, _) => EmitKeeps(s, n, input);
    case Enter(_, _) => EnterKeeps(s, n, input);
    case RunTool(tool) =>
      if tool.RevalidateDisk? { RevalidateKeeps(s, input); }
      else { ToolKeeps(s, n, input); }
  }

  lemma CheckingKeeps(s: System, input: Input)
    requires Inv(s) && s.workers != [] && s.workers[0].pc.Checking?
    ensures var t := ApplyWorker(s, 0, input); Inv(t) && Grows(s.log, t.log)
  {
  }

  lemma CleaningKeeps(s: System, input: Input)
    requires Inv(s) && s.workers != [] && s.workers[0].pc.Cleaning?
    ensures var t := ApplyWorker(s, 0, input); Inv(t) && Grows(s.log, t.log)
  {
    var w := s.workers[0];
    var e := UnmountAttempted(w.job);
    AppendedLog(s.log, e, w.job);
    AppendedStart(s.log, e, w.job, s.svc.preflight.value.id, s.svc.preflight.value.device);
  }

  lemma FailingKeeps(s: System, input: Input)
    requires Inv(s) && s.workers != [] && s.workers[0].pc.Failing?
    ensures var t := ApplyWorker(s, 0, input); Inv(t) && Grows(s.log, t.log)
  {
    var w := s.workers[0];
    var e := FailedIn(w.job, s.svc.job.phase);
    assert Justified(s.log, e);
    AppendedStart(s.log, e, w.job, s.svc.preflight.value.id, s.svc.preflight.value.device);
  }

  lemma ReleaseKeeps(s: System, input: Input)
    requires Inv(s) && s.workers != [] && (s.workers[0].pc.LeavingCancelled? || s.workers[0].pc.Releasing?)
    ensures var t := ApplyWorker(s, 0, input); Inv(t) && Grows(s.log, t.log) && t.workers == []
  {
  }

  lemma SpawnKeeps(s: System, spawned: bool, diagnostic: string)
    requires Inv(s) && s.workers != [] && s.workers[0].pc.Spawning?
    ensures var t := ApplySpawn(s, 0, spawned, diagnostic); Inv(t) && Grows(s.log, t.log)
  {
    if !spawned {
      assert Justified(s.log, FailedIn(s.workers[0].job, s.svc.job.phase));
    }
  }

  lemma StartKeeps(s: System, confirmation: string, settings: Result<InstallSettings, InstallerError>)
    requires Inv(s)
    ensures var t := ApplyStart(s, confirmation, settings); Inv(t) && Grows(s.log, t.log)
  {
    if s.svc.Admitted(confirmation, settings).Ok? && s.svc.nextJob != LAST_JOB {
      var job, disk := s.svc.nextJob, s.svc.preflight.value;
      var e := Started(job, disk, confirmation);
      UnknownNumber(s.log, job);
      assert Justified(s.log, e);
      AppendedLog(s.log, e, job);
      AppendedStart(s.log, e, job, disk.id, disk.device);
    }
  }

  lemma CancelKeeps(s: System, path: U32)
    requires Inv(s)
    ensures var t := Apply(s, CancelCall(path)); Inv(t) && Grows(s.log, t.log)
  {
    if s.svc.CancelOutcome(path).Ok? && s.workers != [] {
      var w := s.workers[0];
      AppendedLog(s.log, CancelAccepted(path), w.job);
      AppendedStart(s.log, CancelAccepted(path), w.job, s.svc.preflight.value.id, s.svc.preflight.value.device);
    }
  }

  lemma PreflightKeeps(s: System, diskId: string, listing: DiskListing)
    requires Inv(s)
    ensures var t := Apply(s, PreflightCall(diskId, listing)); Inv(t) && Grows(s.log, t.log)
  {
  }

  lemma StepKeepsInv(s: System, l: Label)
    requires Inv(s)
    ensures Inv(Apply(s, l)) && Grows(s.log, Apply(s, l).log)
  {
    match l
    case PreflightCall(id, listing) => PreflightKeeps(s, id, listing);
    case StartCall(confirmation, settings) => StartKeeps(s, confirmation, settings);
    case SpawnResult(spawned, i, diagnostic) =>
      if i < |s.workers| && s.workers[i].pc.Spawning? { SpawnKeeps(s, spawned, diagnostic); }
    case CancelCall(path) => CancelKeeps(s, path);
    case WorkerStep(i, input) =>
      if i < |s.workers| {
        match s.workers[i].pc
        case Spawning =>
        case Running(n) => SectionKeeps(s, n, input);
        case Checking(_) => CheckingKeeps(s, input);
        case Cleaning(_) => CleaningKeeps(s, input);
        case Failing(_) => FailingKeeps(s, input);
        case _ => ReleaseKeeps(s, input);
      }
  }

  /** The invariant holds, and every event is justified, in every state any run reaches. */
  lemma {:induction false} RunKeepsInv(s: System, labels: seq<Label>)
    requires Inv(s) && AllJustified(s.log)
    ensures Inv(Run(s, labels)) && AllJustified(Run(s, labels).log)
    decreases labels
  {
    if labels != [] {
      StepKeepsInv(s, labels[0]);
      GrownLogJustified(s.log, Apply(s, labels[0]).log);
      RunKeepsInv(Apply(s, labels[0]), labels[1..]);
    }
  }

  lemma GrownLogJustified(past: seq<Event>, now: seq<Event>)
    requires AllJustified(past) && Grows(past, now)
    ensures AllJustified(now)
  {
    if |now| > |past| {
      AppendedJustified(past, now[|past|]);
      if |now| > |past| + 1 {
        AppendedJustified(past + [now[|past|]], now[|past| + 1]);
      }
    }
  }
}
