/** The registry of the job coordinator and its cells, as the objects the program updates. */
module JobRegistry {
  import opened Wrappers
  import opened ResourcePolicy
  import opened JobStorage
  import opened JobProtocol

  datatype CoordinatorError =
    | InvalidRequest | DuplicateJob(id: string) | UnknownJob(id: string) | WorkerSpawn(id: string)

  /** One job's status and cancellation flag, behind its lock. */
  class JobCell {
    var status: JobStatus
    var cancelled: bool

    constructor (id: string)
      ensures status == StatusQueued(id) && !cancelled
    {
      status, cancelled := StatusQueued(id), false;
    }

    method SetStatus(next: JobStatus)
      modifies this`status
      ensures status == next
    {
      status := next;
    }

    method RequestCancellation()
      modifies this`cancelled
      ensures cancelled
    {
      cancelled := true;
    }
  }

  predicate WorkersHaveCells(s: System) { forall c :: c in s.workers ==> c < |s.cells| }

  /** A start and the outcome of its spawn, as one step. */
  function StartSpawned(s: System, request: ExecutionRequest, limit: nat, spawns: bool): System {
    if !ValidRequest(request, limit) || request.id in s.jobs then s
    else ApplySpawn(Enrolled(s, request, limit), |s.cells|, spawns)
  }

  lemma StartIsTwoSteps(s: System, request: ExecutionRequest, limit: nat, spawns: bool)
    requires WorkersHaveCells(s)
    ensures Apply(Apply(s, StartCall(request, limit)), SpawnResult(|s.cells|, spawns)) == StartSpawned(s, request, limit, spawns)
  {
  }

  lemma InsertThenRemove<K, V>(m: map<K, V>, k: K, v: V)
    requires k !in m
    ensures m[k := v] - {k} == m
  {
  }

  class JobCoordinator {
    var jobs: map<string, JobCell>
    /** Every cell ever created, forgotten ones included. */
    ghost var cells: seq<JobCell>

    /** Registry and cells show what the step system shows; a worker belongs to a cell. */
    ghost predicate Mirrors(s: System)
      reads this, cells
    {
      && |cells| == |s.cells|
      && (forall i, j :: 0 <= i < j < |cells| ==> cells[i] != cells[j])
      && (forall c :: 0 <= c < |cells| ==>
        && s.cells[c].history != [] && Current(s.cells[c]) == cells[c].status && s.cells[c].cancelled == cells[c].cancelled)
      && (forall id :: id in jobs <==> id in s.jobs)
      && (forall id :: id in jobs ==> s.jobs[id] < |cells| && jobs[id] == cells[s.jobs[id]])
      && WorkersHaveCells(s)
    }

    constructor ()
      ensures jobs == map[] && cells == []
      ensures forall disk :: Mirrors(Initial(disk))
    {
      jobs, cells := map[], [];
    }

    /** The locked section of a start that is not refused. */
    method Register(request: ExecutionRequest, limit: nat, ghost s: System) returns (cell: JobCell)
      requires Mirrors(s) && request.id !in jobs
      modifies this
      ensures Mirrors(Enrolled(s, request, limit))
      ensures fresh(cell) && cell.status == StatusQueued(request.id) && !cell.cancelled
      ensures jobs == old(jobs)[request.id := cell]
    {
      cell := new JobCell(request.id);
      jobs, cells := jobs[request.id := cell], cells + [cell];
    }

    /** After a failed spawn the registration goes, and the cell is never seen again. */
    method Forget(id: string, ghost s: System, ghost c: nat)
      requires Mirrors(s) && c in s.workers && s.workers[c].request.id == id
      modifies this`jobs
      ensures Mirrors(ApplySpawn(s, c, false)) && jobs == old(jobs) - {id}
    {
      jobs := jobs - {id};
    }

    lemma SpawnShowsNothing(s: System, c: nat)
      requires Mirrors(s) && c in s.workers
      ensures Mirrors(ApplySpawn(s, c, true))
    {
    }

    /** The registration and, when the worker thread could not be created, its removal. */
    method Enroll(request: ExecutionRequest, limit: nat, spawns: bool, ghost s: System) returns (r: Result<JobCell, CoordinatorError>)
      requires Mirrors(s) && request.id !in jobs
      modifies this
      ensures Mirrors(ApplySpawn(Enrolled(s, request, limit), |s.cells|, spawns))
      ensures if spawns then
          && r.Ok? && fresh(r.value) && r.value.status == StatusQueued(request.id) && !r.value.cancelled
          && jobs == old(jobs)[request.id := r.value]
        else r == Err(WorkerSpawn(request.id)) && jobs == old(jobs)
    {
      ghost var before, c, t := jobs, |s.cells|, Enrolled(s, request, limit);
      var cell := Register(request, limit, s);
      if spawns {
        SpawnShowsNothing(t, c);
        return Ok(cell);
      }
      Forget(request.id, t, c);
      InsertThenRemove(before, request.id, cell);
      return Err(WorkerSpawn(request.id));
    }

    /** `spawns` says whether the worker thread could be created. */
    method Start(request: ExecutionRequest, limit: nat, spawns: bool, ghost s: System) returns (r: Result<JobCell, CoordinatorError>)
      requires Mirrors(s)
      modifies this
      ensures Mirrors(StartSpawned(s, request, limit, spawns))
      ensures !ValidRequest(request, limit) ==> r == Err(InvalidRequest) && jobs == old(jobs)
      ensures ValidRequest(request, limit) && request.id in old(jobs) ==>
        r == Err(DuplicateJob(request.id)) && jobs == old(jobs)
      ensures ValidRequest(request, limit) && request.id !in old(jobs) ==>
        if spawns then
          && r.Ok? && fresh(r.value) && r.value.status == StatusQueued(request.id) && !r.value.cancelled
          && jobs == old(jobs)[request.id := r.value]
        else r == Err(WorkerSpawn(request.id)) && jobs == old(jobs)
    {
      if !ValidRequest(request, limit) { return Err(InvalidRequest); }
      if request.id in jobs { return Err(DuplicateJob(request.id)); }
      r := Enroll(request, limit, spawns, s);
    }

    method Cancel(id: string, ghost s: System) returns (r: Result<(), CoordinatorError>)
      requires Mirrors(s)
      modifies if id in jobs then {jobs[id]} else {}
      ensures Mirrors(Apply(s, CancelCall(id)))
      ensures r == if id in jobs then Ok(()) else Err(UnknownJob(id))
    {
      if id !in jobs { return Err(UnknownJob(id)); }
      jobs[id].RequestCancellation();
      return Ok(());
    }

    method Status(id: string, ghost s: System) returns (r: Result<JobStatus, CoordinatorError>)
      requires Mirrors(s)
      ensures r == if id in s.jobs && s.jobs[id] < |s.cells| && s.cells[s.jobs[id]].history != []
        then Ok(Current(s.cells[s.jobs[id]])) else Err(UnknownJob(id))
    {
      if id !in jobs { return Err(UnknownJob(id)); }
      return Ok(jobs[id].status);
    }
  }
}
