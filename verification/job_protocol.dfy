/**
 * The job coordinator as a system of atomic steps: registrations, cancellations and
 * the workers' sections in any interleaving, over one shared store.
 */
module JobProtocol {
  import opened Wrappers
  import opened Text
  import opened ResourcePolicy
  import opened JobStorage

  datatype Lifecycle = Queued | Running | Ended(state: JobState)

  datatype JobStatus = JobStatus(
    id: string, lifecycle: Lifecycle, exitCode: Option<int>, outputTruncated: bool,
    durationMillis: nat, error: Option<string>)

  datatype ExecutionRequest = ExecutionRequest(id: string, argv: seq<string>)

  function StatusQueued(id: string): JobStatus { JobStatus(id, Queued, None, false, 0, None) }

  function StatusRunning(id: string): JobStatus { JobStatus(id, Running, None, false, 0, None) }

  /** What is published for a result, once its persistence succeeded or failed with an error. */
  function StatusOf(id: string, r: ExecutionResult, failure: Option<string>): JobStatus {
    JobStatus(id, Ended(if failure.Some? then Failed else r.state), r.exitCode, r.outputTruncated,
              r.durationMillis, failure)
  }

  function StatusBroken(id: string, error: string): JobStatus {
    JobStatus(id, Ended(Failed), None, false, 0, Some(error))
  }

  /** What a section met, as it came, with the cancellation flag at that moment. */
  datatype Glimpse = Glimpse(flag: bool, input: Input)

  /** The engine's entry, the last turn of its supervision loop and the joining of the pipes. */
  datatype Seen = Seen(entered: Option<Glimpse>, polled: Option<Glimpse>, pipes: Option<Glimpse>)

  const NOTHING_SEEN := Seen(None, None, None)

  /** A cell with every status it ever showed, the last one being current, and what its worker met. */
  datatype Cell = Cell(
    history: seq<JobStatus>, cancelled: bool, produced: Option<ExecutionResult>, limit: nat, seen: Seen)

  datatype Pc =
    | Spawning
    | Announcing
    | Entering
    | Supervising
    | Draining(cancelled: bool, success: bool, code: Option<int>)
    | Persisting(part: nat, result: ExecutionResult)
    | Publishing(status: JobStatus)

  datatype Worker = Worker(request: ExecutionRequest, limit: nat, pc: Pc)

  /** The directory of the store, when the coordinator has one, and its serializer. */
  datatype Disk = Disk(stored: bool, files: Files, encode: Encoder)

  datatype System = System(jobs: map<string, nat>, cells: seq<Cell>, workers: map<nat, Worker>, disk: Disk)

  datatype Exit = Exited(success: bool, code: Option<int>) | WaitFailure

  /** Everything a worker step may meet: the child, its pipes and the file system. */
  datatype Input = Input(
    childStarts: bool, poll: Option<Exit>, termination: Exit, stdout: seq<ReadEvent>,
    stderr: seq<ReadEvent>, duration: nat, luck: WriteLuck, message: string)

  datatype Label =
    | StartCall(request: ExecutionRequest, limit: nat)
    | SpawnResult(cell: nat, spawned: bool)
    | CancelCall(id: string)
    | WorkerStep(cell: nat, input: Input)

  predicate ValidRequest(r: ExecutionRequest, limit: nat) {
    && ValidJobId(r.id) && r.argv != [] && r.argv[0] != ""
    && (forall i :: 0 <= i < |r.argv[0]| ==> !IsWhitespace(r.argv[0][i]))
    && (forall i :: 0 <= i < |r.argv| ==> '\0' !in r.argv[i])
    && 0 < limit <= MAX_CAPTURE_BYTES
  }

  function Apply(s: System, l: Label): System {
    match l
    case StartCall(request, limit) => ApplyStart(s, request, limit)
    case SpawnResult(c, spawned) =>
      if c in s.workers && s.workers[c].pc.Spawning? then ApplySpawn(s, c, spawned) else s
    case CancelCall(id) => ApplyCancel(s, id)
    case WorkerStep(c, input) =>
      if c in s.workers && c < |s.cells|
      then Put(s, c, Section(s.workers[c], s.cells[c], s.disk, input)) else s
  }

  /** The new job queued in the next cell, its worker about to be spawned. */
  function Enrolled(s: System, request: ExecutionRequest, limit: nat): System {
    var c := |s.cells|;
    s.(jobs := s.jobs[request.id := c],
       cells := s.cells + [Cell([StatusQueued(request.id)], false, None, limit, NOTHING_SEEN)],
       workers := s.workers[c := Worker(request, limit, Spawning)])
  }

  function ApplyStart(s: System, request: ExecutionRequest, limit: nat): System {
    if !ValidRequest(request, limit) || request.id in s.jobs then s else Enrolled(s, request, limit)
  }

  function ApplySpawn(s: System, c: nat, spawned: bool): System
    requires c in s.workers
  {
    if spawned then s.(workers := s.workers[c := s.workers[c].(pc := Announcing)])
    else s.(jobs := s.jobs - {s.workers[c].request.id}, workers := s.workers - {c})
  }

  function ApplyCancel(s: System, id: string): System {
    if id in s.jobs && s.jobs[id] < |s.cells|
    then s.(cells := s.cells[s.jobs[id] := s.cells[s.jobs[id]].(cancelled := true)])
    else s
  }

  /** What one section of a worker leaves: its cell, where it goes on, and the files. */
  datatype Effect = Effect(cell: Cell, next: Option<Pc>, files: Files)

  function Put(s: System, c: nat, e: Effect): System
    requires c in s.workers && c < |s.cells|
  {
    System(s.jobs, s.cells[c := e.cell],
      if e.next.Some? then s.workers[c := s.workers[c].(pc := e.next.value)] else s.workers - {c},
      s.disk.(files := e.files))
  }

  function GoTo(cell: Cell, disk: Disk, pc: Pc): Effect { Effect(cell, Some(pc), disk.files) }

  function Shown(cell: Cell, status: JobStatus): Cell { cell.(history := cell.history + [status]) }

  /** The engine has a result: persist it when there is a store, publish it otherwise. */
  function Resulted(id: string, cell: Cell, disk: Disk, r: ExecutionResult): Effect {
    GoTo(cell.(produced := Some(r)), disk,
      if disk.stored then Persisting(0, r) else Publishing(StatusOf(id, r, None)))
  }

  /** The record of what a section meets; no section reads it. */
  function Saw(pc: Pc, cell: Cell, input: Input): Cell {
    var now := Some(Glimpse(cell.cancelled, input));
    match pc
    case Entering => cell.(seen := cell.seen.(entered := now))
    case Supervising => cell.(seen := cell.seen.(polled := now))
    case Draining(_, _, _) => cell.(seen := cell.seen.(pipes := now))
    case _ => cell
  }

  function Section(w: Worker, cell: Cell, disk: Disk, input: Input): Effect {
    Acted(w, Saw(w.pc, cell, input), disk, input)
  }

  function Acted(w: Worker, cell: Cell, disk: Disk, input: Input): Effect {
    var id := w.request.id;
    match w.pc
    case Spawning => GoTo(cell, disk, Spawning)
    case Announcing => GoTo(Shown(cell, StatusRunning(id)), disk, Entering)
    case Entering =>
      if cell.cancelled then Resulted(id, cell, disk, ExecutionResult(Cancelled, None, [], [], false, 0))
      else GoTo(cell, disk, if input.childStarts then Supervising else Publishing(StatusBroken(id, input.message)))
    case Supervising => GoTo(cell, disk, Polled(id, cell.cancelled, input))
    case Draining(cancelled, success, code) => Drained(w, cell, disk, cancelled, success, code, input)
    case Persisting(k, r) => PersistedPart(id, cell, disk, k, r, input)
    case Publishing(status) => Effect(Shown(cell, status), None, disk.files)
  }

  /** One turn of the supervision loop: the child first, then the cancellation flag. */
  function Polled(id: string, cancelled: bool, input: Input): Pc {
    var broken := Publishing(StatusBroken(id, input.message));
    match input.poll
    case Some(WaitFailure) => broken
    case Some(Exited(success, code)) => Draining(false, success, code)
    case None =>
      if !cancelled then Supervising
      else
        match input.termination
        case WaitFailure => broken
        case Exited(success, code) => Draining(true, success, code)
  }

  function Drained(w: Worker, cell: Cell, disk: Disk, cancelled: bool, success: bool, code: Option<int>, input: Input)
    : Effect
  {
    var out, err := Capture(input.stdout, w.limit), Capture(input.stderr, w.limit);
    if out.Err? || err.Err? then GoTo(cell, disk, Publishing(StatusBroken(w.request.id, input.message)))
    else
      Resulted(w.request.id, cell, disk, ExecutionResult(
        if cancelled then Cancelled else if success then Succeeded else Failed, code,
        out.value.bytes, err.value.bytes, out.value.truncated || err.value.truncated, input.duration))
  }

  function PersistedPart(id: string, cell: Cell, disk: Disk, k: nat, r: ExecutionResult, input: Input): Effect {
    if k >= 3 then GoTo(cell, disk, Publishing(StatusOf(id, r, None)))
    else
      var part := PartsInOrder()[k];
      var (after, ok) := Written(disk.files, id, part, Content(id, r, disk.encode, part), input.luck);
      Effect(cell, Some(if ok then Persisting(k + 1, r) else Publishing(StatusOf(id, r, Some(input.message)))), after)
  }

  function Run(s: System, labels: seq<Label>): System
    decreases labels
  {
    if labels == [] then s else Run(Apply(s, labels[0]), labels[1..])
  }

  function Initial(disk: Disk): System { System(map[], [], map[], disk) }

  function Current(cell: Cell): JobStatus
    requires cell.history != []
  {
    cell.history[|cell.history| - 1]
  }

  predicate Finished(cell: Cell) { cell.history != [] && Current(cell).lifecycle.Ended? }

  /** `wait` returns the status once it is terminal, and keeps waiting before. */
  function Waited(cell: Cell): Option<JobStatus> {
    if Finished(cell) then Some(Current(cell)) else None
  }
}
