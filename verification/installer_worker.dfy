/** The install worker as the program runs it, and the step system it is a run of. */
module InstallWorker {
  import opened Wrappers
  import opened ResourcePolicy
  import opened InstallerDomain
  import opened InstallerService
  import opened InstallProtocol
  import opened InstallRaces

  /** What happens during one section: a cancel may arrive before it. */
  datatype Turn = Turn(cancelArrives: bool, input: Input)

  lemma OneWorker(w: Worker, v: Worker)
    ensures [w][0 := v] == [v] && Without([w], 0) == []
  {
  }

  /** A cancel that the service receives while the worker runs. */
  method ReceiveCancel(service: ServiceState, path: U32, ghost s: System) returns (ghost t: System)
    requires s.svc == service.Value()
    modifies service.job
    ensures t == Apply(s, CancelCall(path)) && t.svc == service.Value() && t.workers == s.workers
  {
    var accepted := service.Cancel(path);
    t := Apply(s, CancelCall(path));
  }

  /** One section of the script under the service's lock, or outside it for tools and signals. */
  method RunSection(service: ServiceState, w: Worker, n: nat, input: Input, ghost s: System)
    returns (next: Worker, ghost t: System)
    requires n < |SCRIPT| && w.pc == Running(n) && s.svc == service.Value() && s.workers == [w]
    modifies service.job
    ensures t == Apply(s, WorkerStep(0, input)) && t.svc == service.Value() && t.workers == [next]
    ensures next.pc == After(n) || next.pc == Checking(n)
    ensures next.job == w.job && next.request == w.request
  {
    t := Apply(s, WorkerStep(0, input));
    next := w.(pc := Checking(n));
    match SCRIPT[n]
    case Emit(_, _) =>
      if !input.broken { next := w.(pc := After(n)); }
    case RunTool(tool) =>
      if tool.RevalidateDisk? {
        var moved := service.RevalidateAndTransition(w.request.diskId, input.listing);
        if moved.Ok? { next := w.(pc := After(n), storageStarted := true); }
      } else if !input.broken {
        next := w.(pc := After(n));
      }
    case Enter(state, phase) =>
      var moved := service.Transition(state, phase);
      if moved.Ok? { next := w.(pc := After(n)); }
    OneWorker(w, next);
  }

  /** After an error: the quiet exit of a cancelled job, or clean-up, the recorded failure and the release. */
  method RecoverOrLeave(
    service: ServiceState, w: Worker, lateCancel: bool, input: Input, ghost start: System, ghost labels: seq<Label>)
    returns (ghost all: seq<Label>)
    requires w.pc.Checking? && Run(start, labels).svc == service.Value() && Run(start, labels).workers == [w]
    modifies service, service.job
    ensures Run(start, all).svc == service.Value() && Run(start, all).workers == []
    ensures labels <= all
  {
    ghost var step := WorkerStep(0, input);
    all := labels + [step];
    RunSnoc(start, labels, step);
    OneWorker(w, w.(pc := LeavingCancelled));
    OneWorker(w, w.(pc := Cleaning(w.pc.at)));
    if service.job.state.Cancelled? {
      service.Release();
      RunSnoc(start, all, step);
      all := all + [step];
      return all;
    }
    if lateCancel {
      ghost var t := ReceiveCancel(service, w.job, Run(start, all));
      RunSnoc(start, all, CancelCall(w.job));
      all := all + [CancelCall(w.job)];
    }
    all := CleanUpAndFail(service, w.(pc := Cleaning(w.pc.at)), input, start, all);
  }

  method CleanUpAndFail(service: ServiceState, w: Worker, input: Input, ghost start: System, ghost labels: seq<Label>)
    returns (ghost all: seq<Label>)
    requires w.pc.Cleaning? && Run(start, labels).svc == service.Value() && Run(start, labels).workers == [w]
    modifies service, service.job
    ensures Run(start, all).svc == service.Value() && Run(start, all).workers == []
    ensures labels <= all
  {
    ghost var step := WorkerStep(0, input);
    OneWorker(w, w.(pc := Failing(w.pc.at)));
    RunSnoc(start, labels, step);
    all := labels + [step];
    OneWorker(w.(pc := Failing(w.pc.at)), w.(pc := Releasing(false)));
    service.Fail(input.diagnostic);
    RunSnoc(start, all, step);
    all := all + [step];
    service.Release();
    RunSnoc(start, all, step);
    all := all + [step];
  }

  /**
   * `run_install_worker`: the sections in order up to the first error, then the exit. Whatever
   * the tools, the disks and arriving cancels do, it is a run of the step system that ends the worker.
   */
  method RunInstallWorker(
    service: ServiceState, job: U32, request: InstallRequest, turns: seq<Turn>, lateCancel: bool, last: Input, ghost start: System)
    returns (ghost labels: seq<Label>)
    requires |turns| == |SCRIPT|
    requires start.svc == service.Value() && start.workers == [Worker(job, request, false, Running(0))]
    modifies service, service.job
    ensures Run(start, labels).svc == service.Value() && Run(start, labels).workers == []
  {
    var w := Worker(job, request, false, Running(0));
    labels := [];
    var n := 0;
    while n < |SCRIPT|
      invariant n <= |SCRIPT| && w.job == job
      invariant w.pc == if n < |SCRIPT| then Running(n) else Releasing(true)
      invariant service.job == old(service.job)
      invariant Run(start, labels).svc == service.Value() && Run(start, labels).workers == [w]
    {
      if turns[n].cancelArrives {
        ghost var t := ReceiveCancel(service, job, Run(start, labels));
        RunSnoc(start, labels, CancelCall(job));
        labels := labels + [CancelCall(job)];
      }
      ghost var t;
      RunSnoc(start, labels, WorkerStep(0, turns[n].input));
      w, t := RunSection(service, w, n, turns[n].input, Run(start, labels));
      labels := labels + [WorkerStep(0, turns[n].input)];
      if w.pc.Checking? {
        labels := RecoverOrLeave(service, w, lateCancel, last, start, labels);
        return labels;
      }
      n := n + 1;
    }
    RunSnoc(start, labels, WorkerStep(0, last));
    OneWorker(w, w);
    service.Release();
    labels := labels + [WorkerStep(0, last)];
  }
}
