/** What a terminal status says about the child: its exit, its two streams and the failures on the way. */
module JobExits {
  import opened Wrappers
  import opened ResourcePolicy
  import opened JobStorage
  import opened JobProtocol
  import opened JobSafety
  import opened JobTheorems

  // ---------------------------------------------------------------------
  // The meaning of what was seen
  // ---------------------------------------------------------------------

  /** The first `limit` bytes. */
  function Cut(all: seq<Byte>, limit: nat): seq<Byte> { if |all| <= limit then all else all[..limit] }

  /** How the child ended: by itself if the poll had an answer, else by termination. */
  function LastExit(turn: Glimpse): Exit {
    if turn.input.poll.Some? then turn.input.poll.value else turn.input.termination
  }

  /** The result tells the exit, and each stream by itself up to the limit. */
  predicate Tells(r: ExecutionResult, turn: Glimpse, pipes: Input, limit: nat) {
    var exit, out, err := LastExit(turn), Delivered(pipes.stdout), Delivered(pipes.stderr);
    && exit.Exited? && out.Some? && err.Some?
    && (r.state == Cancelled <==> turn.input.poll.None?)
    && (r.state == Succeeded <==> turn.input.poll.Some? && exit.success)
    && (r.state == Failed <==> turn.input.poll.Some? && !exit.success)
    && r.exitCode == exit.code && r.durationMillis == pipes.duration
    && r.stdout == Cut(out.value, limit) && r.stderr == Cut(err.value, limit)
    && (r.outputTruncated <==> |out.value| > limit || |err.value| > limit)
  }

  /** The pipes were joined, both without a read error. */
  predicate Joined(pipes: Input) { Delivered(pipes.stdout).Some? && Delivered(pipes.stderr).Some? }

  /**
   * Whether there is a result, and which: an empty cancelled one for a job cancelled before its
   * start, none after a failed start, wait or read, and otherwise the one that tells the exit.
   */
  predicate ResultFits(cell: Cell) {
    && cell.seen.entered.Some?
    && if cell.seen.entered.value.flag then
         cell.produced == Some(ExecutionResult(Cancelled, None, [], [], false, 0))
       else if !cell.seen.entered.value.input.childStarts then cell.produced.None?
       else cell.seen.polled.Some? && ExitFits(cell, cell.seen.polled.value)
  }

  predicate ExitFits(cell: Cell, turn: Glimpse) {
    if LastExit(turn).WaitFailure? then cell.produced.None?
    else cell.seen.pipes.Some? && PipesFit(cell, turn, cell.seen.pipes.value.input)
  }

  predicate PipesFit(cell: Cell, turn: Glimpse, pipes: Input) {
    if !Joined(pipes) then cell.produced.None?
    else cell.produced.Some? && Tells(cell.produced.value, turn, pipes, cell.limit)
  }

  /** A status is that of the result, or an error: without a result always, with one only from a store. */
  predicate StatusFits(stored: bool, cell: Cell, status: JobStatus) {
    && ResultFits(cell)
    && (cell.produced.None? ==> status.error.Some? && status.lifecycle == Ended(Failed))
    && (cell.produced.Some? ==> status == StatusOf(status.id, cell.produced.value, status.error))
    && (cell.produced.Some? && status.error.Some? ==> stored)
  }

  // ---------------------------------------------------------------------
  // Every step keeps it
  // ---------------------------------------------------------------------

  /** The child runs. */
  predicate Begun(cell: Cell) {
    && cell.seen.entered.Some? && !cell.seen.entered.value.flag && cell.seen.entered.value.input.childStarts
    && cell.produced.None?
  }

  predicate WorkerSaw(stored: bool, cell: Cell, w: Worker) {
    && cell.limit == w.limit
    && match w.pc
       case Supervising => Begun(cell)
       case Draining(cancelled, success, code) =>
         && Begun(cell) && cell.seen.polled.Some?
         && LastExit(cell.seen.polled.value) == Exited(success, code)
         && (cancelled <==> cell.seen.polled.value.input.poll.None?)
       case Persisting(_, r) => stored && cell.produced == Some(r) && ResultFits(cell)
       case Publishing(status) => StatusFits(stored, cell, status)
       case _ => cell.produced.None?
  }

  predicate CellFits(s: System, c: nat)
    requires c < |s.cells|
  {
    if c in s.workers then WorkerSaw(s.disk.stored, s.cells[c], s.workers[c])
    else Finished(s.cells[c]) ==> StatusFits(s.disk.stored, s.cells[c], Current(s.cells[c]))
  }

  predicate AllFit(s: System) { forall c :: 0 <= c < |s.cells| ==> CellFits(s, c) }

  lemma DrainedFits(w: Worker, cell: Cell, disk: Disk, input: Input)
    requires WorkerSaw(disk.stored, cell, w) && w.pc.Draining?
    ensures var e := Section(w, cell, disk, input);
      e.next.Some? && WorkerSaw(disk.stored, e.cell, w.(pc := e.next.value))
  {
  }

  lemma PolledFits(w: Worker, cell: Cell, disk: Disk, input: Input)
    requires WorkerSaw(disk.stored, cell, w) && (w.pc.Supervising? || w.pc.Entering?)
    ensures var e := Section(w, cell, disk, input);
      e.next.Some? && WorkerSaw(disk.stored, e.cell, w.(pc := e.next.value))
  {
  }

  lemma SectionFits(w: Worker, cell: Cell, disk: Disk, input: Input)
    requires WorkerSaw(disk.stored, cell, w)
    ensures var e := Section(w, cell, disk, input);
      if e.next.Some? then WorkerSaw(disk.stored, e.cell, w.(pc := e.next.value))
      else StatusFits(disk.stored, e.cell, Current(e.cell))
  {
    if w.pc.Draining? { DrainedFits(w, cell, disk, input); }
    else if w.pc.Supervising? || w.pc.Entering? { PolledFits(w, cell, disk, input); }
  }

  lemma WorkKeepsFit(s: System, c: nat, input: Input, d: nat)
    requires Inv(s) && AllFit(s) && c in s.workers && d < |s.cells|
    ensures CellFits(Put(s, c, Section(s.workers[c], s.cells[c], s.disk, input)), d)
  {
    assert CellFits(s, d) && CellFits(s, c);
    SectionFits(s.workers[c], s.cells[c], s.disk, input);
  }

  /** Registrations and cancels leave what was seen alone. */
  lemma CallKeepsFit(s: System, l: Label, d: nat)
    requires Inv(s) && AllFit(s) && !l.WorkerStep? && d < |Apply(s, l).cells|
    ensures CellFits(Apply(s, l), d)
  {
    if d < |s.cells| { assert CellFits(s, d) && CellOk(s, d); }
  }

  lemma StepKeepsFit(s: System, l: Label)
    requires Inv(s) && AllFit(s)
    ensures AllFit(Apply(s, l))
  {
    var t := Apply(s, l);
    forall d | 0 <= d < |t.cells| ensures CellFits(t, d) {
      if !l.WorkerStep? { CallKeepsFit(s, l, d); }
      else if l.cell in s.workers { WorkKeepsFit(s, l.cell, l.input, d); }
      else { assert CellFits(s, d); }
    }
  }

  lemma {:induction false} RunKeepsFit(s: System, labels: seq<Label>)
    requires Inv(s) && AllFit(s)
    ensures AllFit(Run(s, labels))
    decreases labels
  {
    if labels != [] {
      StepKeepsInv(s, labels[0]);
      StepKeepsFit(s, labels[0]);
      RunKeepsFit(Apply(s, labels[0]), labels[1..]);
    }
  }

  /**
   * In every reachable state a terminal status tells what happened to the child: cancelled before
   * its start, stopped for a cancel, or its own exit with its code and its two captured streams.
   * An error without a result is a failed start, wait or read, and with one a failed store.
   */
  lemma TerminalStatusTellsTheExit(s: System, c: nat)
    requires Reachable(s) && c < |s.cells| && Finished(s.cells[c])
    ensures StatusFits(s.disk.stored, s.cells[c], Current(s.cells[c]))
  {
    var disk, labels :| Run(Initial(disk), labels) == s;
    RunKeepsFit(Initial(disk), labels);
    ReachableKeepsInv(s);
    assert CellFits(s, c) && CellOk(s, c);
  }

  /** Spelled out for a status without an error whose child was started. */
  lemma SuccessIsTheChildsOwn(s: System, c: nat)
    requires Reachable(s) && c < |s.cells| && Finished(s.cells[c]) && Current(s.cells[c]).error.None?
    requires !s.cells[c].seen.entered.None? && !s.cells[c].seen.entered.value.flag
    ensures var cell, status := s.cells[c], Current(s.cells[c]);
      && cell.seen.polled.Some? && LastExit(cell.seen.polled.value).Exited?
      && (status.lifecycle == Ended(Succeeded) <==>
        cell.seen.polled.value.input.poll.Some? && LastExit(cell.seen.polled.value).success)
      && (status.lifecycle == Ended(Failed) <==>
        cell.seen.polled.value.input.poll.Some? && !LastExit(cell.seen.polled.value).success)
      && status.exitCode == LastExit(cell.seen.polled.value).code
  {
    TerminalStatusTellsTheExit(s, c);
  }

  // ---------------------------------------------------------------------
  // What decides each call and each write
  // ---------------------------------------------------------------------

  /** A part that is written leads on, and only a part that is not written makes an error of a result. */
  lemma WritesDecide(w: Worker, cell: Cell, disk: Disk, input: Input)
    requires w.pc.Persisting? && w.pc.part < 3
    ensures var id, part, r := w.request.id, PartsInOrder()[w.pc.part], w.pc.result;
      var written := input.luck.fault.NoFault? && Temporary(id, part, input.luck.nonce) !in disk.files;
      var e := Section(w, cell, disk, input);
      e.next == Some(if written then Persisting(w.pc.part + 1, r) else Publishing(StatusOf(id, r, Some(input.message))))
  {
  }

  /** With all parts written the status of the result is published as it is. */
  lemma WrittenResultIsPublished(w: Worker, cell: Cell, disk: Disk, input: Input)
    requires w.pc.Persisting? && w.pc.part == 3
    ensures Section(w, cell, disk, input).next == Some(Publishing(StatusOf(w.request.id, w.pc.result, None)))
  {
  }

  /** A valid request under a new id is registered, queued and not cancelled; every other changes nothing. */
  lemma StartRegistersExactly(s: System, request: ExecutionRequest, limit: nat)
    ensures var t, c := Apply(s, StartCall(request, limit)), |s.cells|;
      if ValidRequest(request, limit) && request.id !in s.jobs then
        && |t.cells| == c + 1 && t.cells[..c] == s.cells && Registered(t, c, request.id)
        && t.cells[c].history == [StatusQueued(request.id)] && !t.cells[c].cancelled
        && c in t.workers && t.workers[c] == Worker(request, limit, Spawning)
      else t == s
  {
  }
}
