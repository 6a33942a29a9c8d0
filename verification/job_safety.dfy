/** What every interleaving of the job coordinator keeps, and what follows for whole runs. */
module JobSafety {
  import opened Wrappers
  import opened ResourcePolicy
  import opened JobStorage
  import opened JobProtocol

  // ---------------------------------------------------------------------
  // The invariant
  // ---------------------------------------------------------------------

  predicate Registered(s: System, c: nat, id: string) { id in s.jobs && s.jobs[id] == c }

  predicate StoredUpTo(disk: Disk, id: string, r: ExecutionResult, k: nat) {
    forall j :: 0 <= j < k && j < 3 ==> StoredPart(disk, id, r, PartsInOrder()[j])
  }

  predicate StoredPart(disk: Disk, id: string, r: ExecutionResult, part: Part) {
    Holds(disk.files, id, part, Content(id, r, disk.encode, part))
  }

  /** A terminal status that tells the truth about the cell, its token and the store. */
  predicate Truthful(disk: Disk, cell: Cell, status: JobStatus) {
    && status.lifecycle.Ended?
    && (status.lifecycle.state == Cancelled ==> cell.cancelled)
    && (status.error.Some? ==> status.lifecycle.state == Failed)
    && (status.error.None? ==>
      && cell.produced.Some? && Fits(cell.produced.value)
      && status == StatusOf(status.id, cell.produced.value, None)
      && (disk.stored ==> StoredUpTo(disk, status.id, cell.produced.value, 3)))
  }

  predicate Fits(r: ExecutionResult) {
    |r.stdout| <= MAX_CAPTURE_BYTES && |r.stderr| <= MAX_CAPTURE_BYTES
  }

  predicate Started(cell: Cell, id: string) { cell.history == [StatusQueued(id), StatusRunning(id)] }

  predicate WorkerOk(disk: Disk, cell: Cell, w: Worker) {
    var id := w.request.id;
    && ValidJobId(id) && 0 < w.limit <= MAX_CAPTURE_BYTES
    && match w.pc
       case Spawning => cell.history == [StatusQueued(id)]
       case Announcing => cell.history == [StatusQueued(id)]
       case Entering => Started(cell, id)
       case Supervising => Started(cell, id)
       case Draining(cancelled, _, _) => Started(cell, id) && (cancelled ==> cell.cancelled)
       case Persisting(k, r) =>
         && k <= 3 && Fits(r)
         && Started(cell, id) && disk.stored && cell.produced == Some(r) && StoredUpTo(disk, id, r, k)
         && (r.state == Cancelled ==> cell.cancelled)
       case Publishing(status) => Started(cell, id) && status.id == id && Truthful(disk, cell, status)
  }

  /** Queued, then running, then one truthful terminal status. */
  predicate DoneOk(disk: Disk, cell: Cell, id: string) {
    && ValidJobId(id) && |cell.history| == 3
    && cell.history[0] == StatusQueued(id) && cell.history[1] == StatusRunning(id) && cell.history[2].id == id
    && Truthful(disk, cell, cell.history[2])
  }

  function IdOf(cell: Cell): string
    requires cell.history != []
  {
    cell.history[0].id
  }

  /** Without a worker a cell is finished, or never got one and is forgotten. */
  predicate CellOk(s: System, c: nat)
    requires c < |s.cells|
  {
    var cell := s.cells[c];
    && cell.history != []
    && if c in s.workers
       then WorkerOk(s.disk, cell, s.workers[c]) && IdOf(cell) == s.workers[c].request.id && Registered(s, c, IdOf(cell))
       else if Registered(s, c, IdOf(cell)) then DoneOk(s.disk, cell, IdOf(cell))
       else cell.history == [StatusQueued(IdOf(cell))]
  }

  predicate Inv(s: System) {
    && (forall c :: c in s.workers ==> c < |s.cells|)
    && (forall id :: id in s.jobs ==> s.jobs[id] < |s.cells| && s.cells[s.jobs[id]].history != [])
    && (forall id :: id in s.jobs ==> IdOf(s.cells[s.jobs[id]]) == id)
    && (forall c :: 0 <= c < |s.cells| ==> CellOk(s, c))
  }

  // ---------------------------------------------------------------------
  // One section keeps its own cell in order
  // ---------------------------------------------------------------------

  lemma PersistedPartIsOk(w: Worker, cell: Cell, disk: Disk, input: Input)
    requires WorkerOk(disk, cell, w) && w.pc.Persisting? && w.pc.part < 3
    ensures var e := PersistedPart(w.request.id, cell, disk, w.pc.part, w.pc.result, input);
      WorkerOk(disk.(files := e.files), e.cell, w.(pc := e.next.value))
  {
    var id, k, r := w.request.id, w.pc.part, w.pc.result;
    var part := PartsInOrder()[k];
    var bytes := Content(id, r, disk.encode, part);
    var (after, ok) := Written(disk.files, id, part, bytes, input.luck);
    if ok {
      forall j | 0 <= j < k + 1 && j < 3 ensures StoredPart(disk.(files := after), id, r, PartsInOrder()[j]) {
        WriteIsAtomic(disk.files, id, part, bytes, input.luck, id, PartsInOrder()[j]);
        if j < k {
          PartsAreDistinct(j, k);
          assert StoredPart(disk, id, r, PartsInOrder()[j]);
        }
      }
    }
  }

  lemma PartsAreDistinct(j: nat, k: nat)
    requires j < 3 && k < 3 && j != k
    ensures PartsInOrder()[j] != PartsInOrder()[k]
  {
  }

  lemma ResultedIsOk(w: Worker, cell: Cell, disk: Disk, r: ExecutionResult)
    requires ValidJobId(w.request.id) && 0 < w.limit <= MAX_CAPTURE_BYTES && Started(cell, w.request.id)
    requires Fits(r) && (r.state == Cancelled ==> cell.cancelled)
    ensures var e := Resulted(w.request.id, cell, disk, r);
      && cell.history <= e.cell.history && e.cell.cancelled == cell.cancelled && e.files == disk.files
      && e.next.Some? && WorkerOk(disk, e.cell, w.(pc := e.next.value))
  {
  }

  lemma DrainedIsOk(w: Worker, cell: Cell, disk: Disk, cancelled: bool, success: bool, code: Option<int>, input: Input)
    requires WorkerOk(disk, cell, w) && w.pc == Draining(cancelled, success, code)
    ensures var e := Drained(w, cell, disk, cancelled, success, code, input);
      && cell.history <= e.cell.history && e.cell.cancelled == cell.cancelled && e.files == disk.files
      && e.next.Some? && WorkerOk(disk, e.cell, w.(pc := e.next.value))
  {
  }

  lemma SectionIsOk(w: Worker, cell: Cell, disk: Disk, input: Input)
    requires WorkerOk(disk, cell, w)
    ensures var e := Section(w, cell, disk, input);
      && cell.history <= e.cell.history && e.cell.cancelled == cell.cancelled
      && if e.next.Some? then WorkerOk(disk.(files := e.files), e.cell, w.(pc := e.next.value))
         else DoneOk(disk.(files := e.files), e.cell, w.request.id)
  {
    SawIsOk(w, cell, disk, input);
    ActedIsOk(w, Saw(w.pc, cell, input), disk, input);
  }

  lemma SawIsOk(w: Worker, cell: Cell, disk: Disk, input: Input)
    requires WorkerOk(disk, cell, w)
    ensures var noted := Saw(w.pc, cell, input);
      WorkerOk(disk, noted, w) && noted.history == cell.history && noted.cancelled == cell.cancelled
  {
  }

  lemma ActedIsOk(w: Worker, cell: Cell, disk: Disk, input: Input)
    requires WorkerOk(disk, cell, w)
    ensures var e := Acted(w, cell, disk, input);
      && cell.history <= e.cell.history && e.cell.cancelled == cell.cancelled
      && if e.next.Some? then WorkerOk(disk.(files := e.files), e.cell, w.(pc := e.next.value))
         else DoneOk(disk.(files := e.files), e.cell, w.request.id)
  {
    assert disk.(files := disk.files) == disk;
    match w.pc
    case Persisting(k, r) =>
      if k < 3 { PersistedPartIsOk(w, cell, disk, input); }
    case Draining(cancelled, success, code) => DrainedIsOk(w, cell, disk, cancelled, success, code, input);
    case Entering =>
      if cell.cancelled {
        ResultedIsOk(w, cell, disk, ExecutionResult(Cancelled, None, [], [], false, 0));
      }
    case _ =>
  }

  // ---------------------------------------------------------------------
  // ... and leaves the other cells alone
  // ---------------------------------------------------------------------

  predicate SameFiles(a: Files, b: Files, id: string) {
    forall part: Part :: Target(id, part) in a ==> Target(id, part) in b && a[Target(id, part)] == b[Target(id, part)]
  }

  lemma SectionWritesOwnFiles(w: Worker, cell: Cell, disk: Disk, input: Input, other: string)
    requires WorkerOk(disk, cell, w) && ValidJobId(other) && other != w.request.id
    ensures SameFiles(disk.files, Section(w, cell, disk, input).files, other)
  {
    if w.pc.Persisting? && w.pc.part < 3 {
      var id, part := w.request.id, PartsInOrder()[w.pc.part];
      var bytes := Content(id, w.pc.result, disk.encode, part);
      forall p: Part | Target(other, p) in disk.files
        ensures Target(other, p) in Written(disk.files, id, part, bytes, input.luck).0
        ensures disk.files[Target(other, p)] == Written(disk.files, id, part, bytes, input.luck).0[Target(other, p)]
      {
        WriteIsAtomic(disk.files, id, part, bytes, input.luck, other, p);
      }
    }
  }

  lemma WorkerSurvives(disk: Disk, files: Files, cell: Cell, w: Worker)
    requires WorkerOk(disk, cell, w) && SameFiles(disk.files, files, w.request.id)
    ensures WorkerOk(disk.(files := files), cell, w)
  {
  }

  lemma DoneSurvives(disk: Disk, files: Files, cell: Cell, id: string)
    requires DoneOk(disk, cell, id) && SameFiles(disk.files, files, id)
    ensures DoneOk(disk.(files := files), cell, id)
  {
  }

  lemma OtherCellsSurvive(s: System, c: nat, input: Input, d: nat)
    requires Inv(s) && c in s.workers && d < |s.cells| && d != c
    ensures CellOk(Put(s, c, Section(s.workers[c], s.cells[c], s.disk, input)), d)
  {
    assert CellOk(s, c) && CellOk(s, d);
    var w, cell, id := s.workers[c], s.cells[d], IdOf(s.cells[d]);
    var files := Section(w, s.cells[c], s.disk, input).files;
    if Registered(s, d, id) {
      assert ValidJobId(id) && id != w.request.id;
      SectionWritesOwnFiles(w, s.cells[c], s.disk, input, id);
      if d in s.workers { WorkerSurvives(s.disk, files, cell, s.workers[d]); }
      else { DoneSurvives(s.disk, files, cell, id); }
    }
  }

  // ---------------------------------------------------------------------
  // Every step keeps the invariant
  // ---------------------------------------------------------------------

  lemma WorkerKeepsInv(s: System, c: nat, input: Input)
    requires Inv(s) && c in s.workers
    ensures Inv(Apply(s, WorkerStep(c, input)))
  {
    assert CellOk(s, c);
    var e := Section(s.workers[c], s.cells[c], s.disk, input);
    SectionIsOk(s.workers[c], s.cells[c], s.disk, input);
    var t := Put(s, c, e);
    assert e.cell.history[0] == s.cells[c].history[0];
    forall d | 0 <= d < |t.cells| ensures CellOk(t, d) {
      if d != c { OtherCellsSurvive(s, c, input, d); }
    }
  }

  lemma StartKeepsInv(s: System, request: ExecutionRequest, limit: nat)
    requires Inv(s)
    ensures Inv(ApplyStart(s, request, limit))
  {
    var t := ApplyStart(s, request, limit);
    forall d | 0 <= d < |t.cells| ensures CellOk(t, d) {
      if d < |s.cells| { assert CellOk(s, d); }
    }
  }

  lemma SpawnKeepsInv(s: System, c: nat, spawned: bool)
    requires Inv(s) && c in s.workers && s.workers[c].pc.Spawning?
    ensures Inv(ApplySpawn(s, c, spawned))
  {
    var t := ApplySpawn(s, c, spawned);
    assert CellOk(s, c);
    forall d | 0 <= d < |t.cells| ensures CellOk(t, d) { assert CellOk(s, d); }
  }

  lemma TokenKeeps(disk: Disk, cell: Cell)
    ensures var flagged := cell.(cancelled := true);
      && (forall w :: WorkerOk(disk, cell, w) ==> WorkerOk(disk, flagged, w))
      && (forall id :: DoneOk(disk, cell, id) ==> DoneOk(disk, flagged, id))
  {
  }

  lemma CancelKeepsInv(s: System, id: string)
    requires Inv(s)
    ensures Inv(ApplyCancel(s, id))
  {
    var t := ApplyCancel(s, id);
    forall d | 0 <= d < |t.cells| ensures CellOk(t, d) {
      assert CellOk(s, d);
      TokenKeeps(s.disk, s.cells[d]);
    }
  }

  lemma StepKeepsInv(s: System, l: Label)
    requires Inv(s)
    ensures Inv(Apply(s, l))
  {
    match l
    case StartCall(request, limit) => StartKeepsInv(s, request, limit);
    case SpawnResult(c, spawned) =>
      if c in s.workers && s.workers[c].pc.Spawning? { SpawnKeepsInv(s, c, spawned); }
    case CancelCall(id) => CancelKeepsInv(s, id);
    case WorkerStep(c, input) => if c in s.workers { WorkerKeepsInv(s, c, input); }
  }

  lemma {:induction false} RunKeepsInv(s: System, labels: seq<Label>)
    requires Inv(s)
    ensures Inv(Run(s, labels))
    decreases labels
  {
    if labels != [] {
      StepKeepsInv(s, labels[0]);
      RunKeepsInv(Apply(s, labels[0]), labels[1..]);
    }
  }
}
