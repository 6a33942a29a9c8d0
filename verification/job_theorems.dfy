/** The promises of the job coordinator, stated for every state any run reaches. */
module JobTheorems {
  import opened Wrappers
  import opened ResourcePolicy
  import opened JobStorage
  import opened JobProtocol
  import opened JobSafety

  /** Some run from an empty registry over some store ends here. */
  ghost predicate Reachable(s: System) {
    exists disk, labels :: Run(Initial(disk), labels) == s
  }

  lemma ReachableKeepsInv(s: System)
    requires Reachable(s)
    ensures Inv(s)
  {
    var disk, labels :| Run(Initial(disk), labels) == s;
    RunKeepsInv(Initial(disk), labels);
  }

  // ---------------------------------------------------------------------
  // Statuses over time
  // ---------------------------------------------------------------------

  /** A cell's statuses are queued, running and one terminal status, or a beginning of that. */
  lemma StatusesFollowTheLifecycle(s: System, c: nat)
    requires Reachable(s) && c < |s.cells|
    ensures var h := s.cells[c].history;
      && 1 <= |h| <= 3 && h[0].lifecycle == Queued
      && (|h| >= 2 ==> h[1].lifecycle == Running)
      && (|h| == 3 <==> Finished(s.cells[c]))
      && (|h| == 3 ==> h[2].lifecycle.Ended?)
      && forall i :: 0 <= i < |h| ==> h[i].id == h[0].id
  {
    ReachableKeepsInv(s);
    assert CellOk(s, c);
  }

  /** One step adds to the history of unfinished cells only, and never takes a cancel back. */
  lemma StepExtendsCell(s: System, l: Label, c: nat)
    requires Inv(s) && c < |s.cells|
    ensures var t := Apply(s, l);
      && c < |t.cells| && s.cells[c].history <= t.cells[c].history
      && (Finished(s.cells[c]) ==> t.cells[c].history == s.cells[c].history)
      && (t.cells[c].cancelled <==> s.cells[c].cancelled || (l.CancelCall? && Registered(s, c, l.id)))
  {
    assert CellOk(s, c);
    match l
    case WorkerStep(d, input) =>
      if d in s.workers {
        assert CellOk(s, d);
        SectionIsOk(s.workers[d], s.cells[d], s.disk, input);
      }
    case _ =>
  }

  /** A terminal status is final: whatever `wait` returned, every later look agrees with it. */
  lemma {:induction false} TerminalStatusIsFinal(s: System, labels: seq<Label>, c: nat)
    requires Inv(s) && c < |s.cells|
    ensures var t := Run(s, labels);
      && c < |t.cells| && s.cells[c].history <= t.cells[c].history
      && (Waited(s.cells[c]).Some? ==> Waited(t.cells[c]) == Waited(s.cells[c]))
    decreases labels
  {
    if labels != [] {
      StepKeepsInv(s, labels[0]);
      StepExtendsCell(s, labels[0], c);
      TerminalStatusIsFinal(Apply(s, labels[0]), labels[1..], c);
    }
  }

  /** A job that reports Cancelled was asked to stop, and one with an error reports Failed. */
  lemma TerminalStatusIsHonest(s: System, c: nat)
    requires Reachable(s) && c < |s.cells| && Finished(s.cells[c])
    ensures var status := Current(s.cells[c]);
      && (status.lifecycle.state == Cancelled ==> s.cells[c].cancelled)
      && (status.error.Some? ==> status.lifecycle.state == Failed)
      && (status.error.None? ==> s.cells[c].produced.Some? && status.lifecycle.state == s.cells[c].produced.value.state)
  {
    ReachableKeepsInv(s);
    assert CellOk(s, c);
  }

  // ---------------------------------------------------------------------
  // Publication follows persistence
  // ---------------------------------------------------------------------

  /**
   * Once a terminal status without an error shows, metadata and both logs of that very
   * result are in the store, and a client reads the captured output back in full.
   */
  lemma PublishedMeansStored(s: System, c: nat, page: nat -> U64)
    requires Reachable(s) && c < |s.cells| && Finished(s.cells[c]) && s.disk.stored
    requires Current(s.cells[c]).error.None? && PagesAllowed(page)
    ensures var id := IdOf(s.cells[c]);
      && s.cells[c].produced.Some? && Stored(s.disk.files, id, s.cells[c].produced.value, s.disk.encode)
      && Readable(s.disk.files, id, StdoutLog) && Readable(s.disk.files, id, StderrLog)
      && FetchAll(s.disk.files, id, StdoutLog, 0, page) == s.cells[c].produced.value.stdout
      && FetchAll(s.disk.files, id, StderrLog, 0, page) == s.cells[c].produced.value.stderr
  {
    ReachableKeepsInv(s);
    assert CellOk(s, c);
    var id, r := IdOf(s.cells[c]), s.cells[c].produced.value;
    assert StoredPart(s.disk, id, r, PartsInOrder()[0]);
    assert StoredPart(s.disk, id, r, PartsInOrder()[1]);
    assert StoredPart(s.disk, id, r, PartsInOrder()[2]);
    PagesReassemble(s.disk.files, id, StdoutLog, 0, page);
    PagesReassemble(s.disk.files, id, StderrLog, 0, page);
  }

  // ---------------------------------------------------------------------
  // The registry
  // ---------------------------------------------------------------------

  /** A start under a registered identifier changes nothing at all. */
  lemma DuplicateStartChangesNothing(s: System, request: ExecutionRequest, limit: nat)
    requires request.id in s.jobs
    ensures Apply(s, StartCall(request, limit)) == s
  {
  }

  /** A failed spawn forgets the cell it registered itself, and no other. */
  lemma FailedSpawnForgetsOnlyItself(s: System, c: nat)
    requires Reachable(s) && c in s.workers && s.workers[c].pc.Spawning?
    ensures var t := Apply(s, SpawnResult(c, false));
      && Registered(s, c, s.workers[c].request.id)
      && t.cells == s.cells
      && (forall id :: id in t.jobs <==> id in s.jobs && s.jobs[id] != c)
      && (forall id :: id in t.jobs ==> t.jobs[id] == s.jobs[id])
  {
    ReachableKeepsInv(s);
    assert CellOk(s, c);
  }

  // ---------------------------------------------------------------------
  // Cancelled jobs end
  // ---------------------------------------------------------------------

  function Remaining(pc: Pc): nat {
    match pc
    case Spawning => 10
    case Announcing => 9
    case Entering => 8
    case Supervising => 7
    case Draining(_, _, _) => 6
    case Persisting(k, _) => if k <= 3 then 5 - k else 0
    case Publishing(_) => 1
  }

  function StepsOf(labels: seq<Label>, c: nat): nat {
    if labels == [] then 0
    else (if labels[0].WorkerStep? && labels[0].cell == c then 1 else 0) + StepsOf(labels[1..], c)
  }

  lemma CancelledSectionCountsDown(w: Worker, cell: Cell, disk: Disk, input: Input)
    requires WorkerOk(disk, cell, w) && cell.cancelled && !w.pc.Spawning?
    ensures var e := Section(w, cell, disk, input);
      e.next.Some? ==> !e.next.value.Spawning? && Remaining(e.next.value) < Remaining(w.pc)
  {
  }

  lemma CancelledJobStep(s: System, l: Label, c: nat)
    requires Inv(s) && c in s.workers && !s.workers[c].pc.Spawning? && s.cells[c].cancelled
    ensures var t := Apply(s, l);
      && c < |t.cells| && t.cells[c].cancelled
      && if c !in t.workers then Finished(t.cells[c])
         else if l.WorkerStep? && l.cell == c
         then !t.workers[c].pc.Spawning? && Remaining(t.workers[c].pc) < Remaining(s.workers[c].pc)
         else t.workers[c] == s.workers[c]
  {
    assert CellOk(s, c);
    StepExtendsCell(s, l, c);
    if l.WorkerStep? && l.cell == c {
      CancelledSectionCountsDown(s.workers[c], s.cells[c], s.disk, l.input);
      SectionIsOk(s.workers[c], s.cells[c], s.disk, l.input);
    }
  }

  /** Nine steps of its own end a cancelled job, whatever its child does and others call. */
  lemma {:induction false} CancelledJobsEnd(s: System, labels: seq<Label>, c: nat)
    requires Inv(s) && c in s.workers && !s.workers[c].pc.Spawning? && s.cells[c].cancelled
    requires StepsOf(labels, c) >= Remaining(s.workers[c].pc)
    ensures Remaining(s.workers[c].pc) <= 9
    ensures c < |Run(s, labels).cells| && Finished(Run(s, labels).cells[c])
    decreases labels
  {
    assert WorkerOk(s.disk, s.cells[c], s.workers[c]) by { assert CellOk(s, c); }
    assert labels != [];
    var t := Apply(s, labels[0]);
    StepKeepsInv(s, labels[0]);
    CancelledJobStep(s, labels[0], c);
    if c in t.workers {
      CancelledJobsEnd(t, labels[1..], c);
    } else {
      TerminalStatusIsFinal(t, labels[1..], c);
    }
  }
}
