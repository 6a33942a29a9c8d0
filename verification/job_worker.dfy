/** The job worker as the program runs it: engine, store and status, and the step system it is a run of. */
module JobWorker {
  import opened Wrappers
  import opened ResourcePolicy
  import opened JobStorage
  import opened JobProtocol
  import opened JobRegistry

  /** One turn of the supervision loop; a cancel may arrive before the flag is looked at. */
  datatype Turn = Turn(cancelArrives: bool, poll: Option<Exit>, termination: Exit)

  /** What the child and its pipes deliver, and the text of an engine or store error. */
  datatype Child = Child(starts: bool, stdout: seq<ReadEvent>, stderr: seq<ReadEvent>, duration: nat, message: string)

  function InputFor(child: Child, turn: Turn, luck: WriteLuck): Input {
    Input(child.starts, turn.poll, turn.termination, child.stdout, child.stderr, child.duration, luck, child.message)
  }

  const IDLE := Turn(false, None, WaitFailure)
  const NO_LUCK := WriteLuck(0, ClockFault)

  function Quiet(child: Child): Input { InputFor(child, IDLE, NO_LUCK) }

  lemma {:induction false} RunThen(s: System, labels: seq<Label>, step: Label)
    ensures Run(s, labels + [step]) == Apply(Run(s, labels), step)
    decreases labels
  {
    if labels == [] {
      assert Run(Apply(s, step), []) == Apply(s, step);
    } else {
      assert (labels + [step])[1..] == labels[1..] + [step];
      RunThen(Apply(s, labels[0]), labels[1..], step);
    }
  }

  /** The object shows what the system's cell `c` shows, and its worker is at `pc`. */
  ghost predicate Mirrors(s: System, c: nat, cell: JobCell, request: ExecutionRequest, limit: nat, pc: Pc)
    reads cell
  {
    && c < |s.cells| && c in s.workers && s.workers[c] == Worker(request, limit, pc)
    && s.cells[c].history != [] && Current(s.cells[c]) == cell.status && s.cells[c].cancelled == cell.cancelled
    && request.id in s.jobs && s.jobs[request.id] == c
  }

  lemma StepIsSection(s: System, c: nat, request: ExecutionRequest, limit: nat, pc: Pc, input: Input)
    requires c < |s.cells| && c in s.workers && s.workers[c] == Worker(request, limit, pc)
    ensures Apply(s, WorkerStep(c, input)) == Put(s, c, Section(Worker(request, limit, pc), s.cells[c], s.disk, input))
  {
  }

  /** A cancel that arrives for this job. */
  method ReceiveCancel(cell: JobCell, request: ExecutionRequest, limit: nat, pc: Pc, ghost s: System, ghost c: nat)
    returns (ghost t: System)
    requires Mirrors(s, c, cell, request, limit, pc)
    modifies cell`cancelled
    ensures t == Apply(s, CancelCall(request.id)) && Mirrors(t, c, cell, request, limit, pc) && t.disk == s.disk
    ensures t.cells[c].history == s.cells[c].history
  {
    cell.RequestCancellation();
    t := Apply(s, CancelCall(request.id));
  }

  /**
   * The supervision loop of the engine: the child first, then the flag. `None` when the turns
   * run out and the child is still running.
   */
  method Supervise(
    cell: JobCell, request: ExecutionRequest, limit: nat, child: Child, turns: seq<Turn>,
    ghost start: System, ghost before: seq<Label>, ghost c: nat)
    returns (pc: Pc, ghost labels: seq<Label>)
    requires Mirrors(Run(start, before), c, cell, request, limit, Supervising)
    modifies cell`cancelled
    ensures Mirrors(Run(start, labels), c, cell, request, limit, pc)
    ensures Run(start, labels).disk == Run(start, before).disk
    ensures Run(start, labels).cells[c].history == Run(start, before).cells[c].history
    ensures pc.Supervising? || pc.Draining? || pc == Publishing(StatusBroken(request.id, child.message))
  {
    pc, labels := Supervising, before;
    var i := 0;
    while i < |turns| && pc.Supervising?
      invariant i <= |turns|
      invariant Mirrors(Run(start, labels), c, cell, request, limit, pc)
      invariant Run(start, labels).disk == Run(start, before).disk
      invariant Run(start, labels).cells[c].history == Run(start, before).cells[c].history
      invariant pc.Supervising? || pc.Draining? || pc == Publishing(StatusBroken(request.id, child.message))
    {
      if turns[i].cancelArrives {
        RunThen(start, labels, CancelCall(request.id));
        ghost var t := ReceiveCancel(cell, request, limit, pc, Run(start, labels), c);
        labels := labels + [CancelCall(request.id)];
      }
      ghost var step := WorkerStep(c, InputFor(child, turns[i], NO_LUCK));
      StepIsSection(Run(start, labels), c, request, limit, pc, step.input);
      RunThen(start, labels, step);
      labels := labels + [step];
      if turns[i].poll.Some? {
        var exit := turns[i].poll.value;
        pc := if exit.WaitFailure? then Publishing(StatusBroken(request.id, child.message))
              else Draining(false, exit.success, exit.code);
      } else if cell.cancelled {
        var exit := turns[i].termination;
        pc := if exit.WaitFailure? then Publishing(StatusBroken(request.id, child.message))
              else Draining(true, exit.success, exit.code);
      }
      i := i + 1;
    }
  }

  /** Where the system stands after the worker's steps, its worker apart. */
  predicate At(s: System, c: nat, w: Worker) { c < |s.cells| && c in s.workers && s.workers[c] == w }

  /** Persisting part by part is the store's `persist`, and ends in the status to publish. */
  lemma {:induction false} PersistRuns(
    start: System, before: seq<Label>, c: nat, w: Worker, luck: seq<WriteLuck>, child: Child) returns (labels: seq<Label>)
    requires At(Run(start, before), c, w) && w.pc.Persisting? && w.pc.part <= 3 && |luck| == 3
    ensures var s, t := Run(start, before), Run(start, labels);
      var (files, ok) := Persisted(s.disk.files, w.request.id, w.pc.result, s.disk.encode, luck, w.pc.part);
      && At(t, c, w.(pc := Publishing(StatusOf(w.request.id, w.pc.result, if ok then None else Some(child.message)))))
      && t.cells == s.cells && t.jobs == s.jobs && t.disk == s.disk.(files := files)
    decreases 3 - w.pc.part
  {
    var s, k := Run(start, before), w.pc.part;
    var step := WorkerStep(c, InputFor(child, IDLE, if k < 3 then luck[k] else NO_LUCK));
    StepIsSection(s, c, w.request, w.limit, w.pc, step.input);
    RunThen(start, before, step);
    labels := before + [step];
    var t := Run(start, labels);
    assert t.cells == s.cells;
    if t.workers[c].pc.Persisting? {
      labels := PersistRuns(start, labels, c, w.(pc := Persisting(k + 1, w.pc.result)), luck, child);
    }
  }

  /** The store behind the system's files. */
  ghost predicate Backed(s: System, store: JobStore?)
    reads if store == null then {} else {store}
  {
    && (s.disk.stored <==> store != null)
    && (store != null ==> s.disk.files == store.files && s.disk.encode == store.encode)
  }

  /** The last section: the terminal status, and the worker is gone. */
  method Publish(
    cell: JobCell, status: JobStatus, request: ExecutionRequest, limit: nat, child: Child,
    ghost start: System, ghost before: seq<Label>, ghost c: nat)
    returns (ghost labels: seq<Label>)
    requires Mirrors(Run(start, before), c, cell, request, limit, Publishing(status))
    modifies cell`status
    ensures cell.status == status
    ensures var t := Run(start, labels);
      && c < |t.cells| && c !in t.workers && t.disk == Run(start, before).disk
      && t.cells[c].history == Run(start, before).cells[c].history + [status]
  {
    ghost var step := WorkerStep(c, Quiet(child));
    StepIsSection(Run(start, before), c, request, limit, Publishing(status), step.input);
    RunThen(start, before, step);
    labels := before + [step];
    cell.SetStatus(status);
  }

  /** From a result to its published status: persisted first when there is a store. */
  method Deliver(
    cell: JobCell, store: JobStore?, request: ExecutionRequest, limit: nat, r: ExecutionResult, luck: seq<WriteLuck>,
    child: Child, ghost start: System, ghost before: seq<Label>, ghost c: nat)
    returns (ghost labels: seq<Label>)
    requires |luck| == 3 && ValidJobId(request.id) && Backed(Run(start, before), store)
    requires Mirrors(Run(start, before), c, cell, request, limit,
      if store != null then Persisting(0, r) else Publishing(StatusOf(request.id, r, None)))
    modifies cell`status, if store == null then {} else {store}
    ensures var t := Run(start, labels);
      && c < |t.cells| && c !in t.workers && Backed(t, store)
      && t.cells[c].history == Run(start, before).cells[c].history + [cell.status]
  {
    labels := before;
    var ok := true;
    if store != null {
      labels := PersistRuns(start, before, c, Worker(request, limit, Persisting(0, r)), luck, child);
      ok := store.Persist(request.id, r, luck);
    }
    labels := Publish(cell, StatusOf(request.id, r, if ok then None else Some(child.message)), request, limit, child,
      start, labels, c);
  }

  /** After the child's end: both captures are joined, and the result or the read error follows. */
  method Collect(
    cell: JobCell, store: JobStore?, request: ExecutionRequest, limit: nat, pc: Pc, luck: seq<WriteLuck>, child: Child,
    ghost start: System, ghost before: seq<Label>, ghost c: nat)
    returns (ghost labels: seq<Label>)
    requires |luck| == 3 && ValidJobId(request.id) && pc.Draining?
    requires Mirrors(Run(start, before), c, cell, request, limit, pc) && Backed(Run(start, before), store)
    modifies cell`status, if store == null then {} else {store}
    ensures var t := Run(start, labels);
      && c < |t.cells| && c !in t.workers && Backed(t, store)
      && t.cells[c].history == Run(start, before).cells[c].history + [cell.status]
  {
    ghost var step := WorkerStep(c, Quiet(child));
    StepIsSection(Run(start, before), c, request, limit, pc, step.input);
    RunThen(start, before, step);
    labels := before + [step];
    var stdout := ReadBounded(child.stdout, limit);
    var stderr := ReadBounded(child.stderr, limit);
    if stdout.Err? || stderr.Err? {
      labels := Publish(cell, StatusBroken(request.id, child.message), request, limit, child, start, labels, c);
      return labels;
    }
    var state := if pc.cancelled then JobState.Cancelled else if pc.success then JobState.Succeeded else JobState.Failed;
    var r := ExecutionResult(state, pc.code, stdout.value.bytes, stderr.value.bytes,
      stdout.value.truncated || stderr.value.truncated, child.duration);
    labels := Deliver(cell, store, request, limit, r, luck, child, start, labels, c);
  }

  /** The engine from its entry: a job cancelled before it starts has an empty result and no child. */
  method Enter(
    cell: JobCell, store: JobStore?, request: ExecutionRequest, limit: nat, child: Child, turns: seq<Turn>, luck: seq<WriteLuck>,
    ghost start: System, ghost before: seq<Label>, ghost c: nat)
    returns (ended: bool, ghost labels: seq<Label>)
    requires |luck| == 3 && ValidJobId(request.id)
    requires Mirrors(Run(start, before), c, cell, request, limit, Entering) && Backed(Run(start, before), store)
    modifies cell, if store == null then {} else {store}
    ensures var t := Run(start, labels);
      && c < |t.cells| && (ended <==> c !in t.workers) && Backed(t, store)
      && t.cells[c].history != [] && Current(t.cells[c]) == cell.status
      && (ended ==> t.cells[c].history == Run(start, before).cells[c].history + [cell.status])
  {
    ghost var step := WorkerStep(c, Quiet(child));
    StepIsSection(Run(start, before), c, request, limit, Entering, step.input);
    RunThen(start, before, step);
    labels := before + [step];
    if cell.cancelled {
      var r := ExecutionResult(JobState.Cancelled, None, [], [], false, 0);
      labels := Deliver(cell, store, request, limit, r, luck, child, start, labels, c);
      return true, labels;
    }
    if !child.starts {
      labels := Publish(cell, StatusBroken(request.id, child.message), request, limit, child, start, labels, c);
      return true, labels;
    }
    var pc;
    pc, labels := Supervise(cell, request, limit, child, turns, start, labels, c);
    ended := !pc.Supervising?;
    if pc.Draining? {
      labels := Collect(cell, store, request, limit, pc, luck, child, start, labels, c);
    } else if pc.Publishing? {
      labels := Publish(cell, pc.status, request, limit, child, start, labels, c);
    }
  }

  /**
   * `run_registered_job`: Running is shown, the engine runs, and unless the child outlives the
   * given turns one terminal status follows. All of it is a run of the step system.
   */
  method RunJob(
    cell: JobCell, store: JobStore?, request: ExecutionRequest, limit: nat, child: Child, turns: seq<Turn>, luck: seq<WriteLuck>,
    ghost start: System, ghost c: nat)
    returns (ended: bool, ghost labels: seq<Label>)
    requires |luck| == 3 && ValidJobId(request.id)
    requires Mirrors(start, c, cell, request, limit, Announcing) && Backed(start, store)
    modifies cell, if store == null then {} else {store}
    ensures var t := Run(start, labels);
      && c < |t.cells| && (ended <==> c !in t.workers) && Backed(t, store)
      && t.cells[c].history != [] && Current(t.cells[c]) == cell.status
      && (ended ==> t.cells[c].history == start.cells[c].history + [StatusRunning(request.id)] + [cell.status])
  {
    ghost var step := WorkerStep(c, Quiet(child));
    StepIsSection(start, c, request, limit, Announcing, step.input);
    RunThen(start, [], step);
    labels := [] + [step];
    cell.SetStatus(StatusRunning(request.id));
    ended, labels := Enter(cell, store, request, limit, child, turns, luck, start, labels, c);
  }
}
