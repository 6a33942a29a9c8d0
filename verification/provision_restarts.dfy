/** When restarting a finished selection runs nothing, and when it runs again. */
module ProvisionRestarts {
  import opened Wrappers
  import opened Text
  import opened ResourcePolicy
  import opened ProvisionPlanning
  import opened ProvisionRuntime

  predicate AllAsk(catalog: seq<Bundle>, labels: seq<Label>, selection: seq<string>) {
    forall i :: 0 <= i < |labels| ==> Asks(catalog, labels[i], selection)
  }

  predicate NoCrash(labels: seq<Label>) {
    forall i :: 0 <= i < |labels| ==> !labels[i].Crash?
  }

  /** Memory has every operation of the selection recorded. */
  predicate MemoryFinished(catalog: seq<Bundle>, s: System, selection: seq<string>) {
    && s.process.Some? && s.process.value.state.selected == selection
    && s.process.value.state.completed == OperationIds(catalog, selection)
  }

  /** What a start for the selection keeps of a state. */
  function RecordedFor(state: PersistedState, selection: seq<string>): seq<string> {
    if state.selected == selection then state.completed else []
  }

  predicate FileFinished(catalog: seq<Bundle>, s: System, selection: seq<string>) {
    s.disk.Some? && RecordedFor(s.disk.value, selection) == OperationIds(catalog, selection)
  }

  // ---------------------------------------------------------------------
  // Without a crash memory alone is enough
  // ---------------------------------------------------------------------

  lemma StepStaysFinished(catalog: seq<Bundle>, s: System, step: Label, selection: seq<string>)
    requires SoundCatalog(catalog) && Inv(catalog, s) && MemoryFinished(catalog, s, selection)
    requires Asks(catalog, step, selection) && !step.Crash?
    ensures MemoryFinished(catalog, Apply(catalog, s, step), selection)
    ensures Apply(catalog, s, step).history == s.history
  {
    StepKeepsInv(catalog, s, step);
    if Apply(catalog, s, step).history != s.history { StepExecutesNext(catalog, s, step); }
    if step.Work? && step.k < |s.process.value.workers| { WorkOnlyAdds(s, s.process.value, step.k, step.input); }
  }

  /** While the process lives, restarting a finished selection executes nothing, even if no write ever succeeds. */
  lemma {:induction false} FinishedInMemoryRunsNothing(catalog: seq<Bundle>, s: System, labels: seq<Label>, selection: seq<string>)
    requires SoundCatalog(catalog) && Inv(catalog, s) && MemoryFinished(catalog, s, selection)
    requires AllAsk(catalog, labels, selection) && NoCrash(labels)
    ensures Run(catalog, s, labels).history == s.history
    ensures MemoryFinished(catalog, Run(catalog, s, labels), selection)
    decreases labels
  {
    if labels != [] {
      StepKeepsInv(catalog, s, labels[0]);
      StepStaysFinished(catalog, s, labels[0], selection);
      FinishedInMemoryRunsNothing(catalog, Apply(catalog, s, labels[0]), labels[1..], selection);
    }
  }

  // ---------------------------------------------------------------------
  // A worker left to itself
  // ---------------------------------------------------------------------

  /** The worker's step when the network is up, operations succeed and no write does. */
  const UNSAVED := Work(0, Input(Connected, JobSucceeded, false))

  /** The one worker is on its way through its operations, and nobody has cancelled it. */
  predicate Going(catalog: seq<Bundle>, s: System) {
    && Inv(catalog, s) && s.process.Some? && |s.process.value.workers| == 1
    && s.process.value.workers[0].request !in s.process.value.cancelled
    && !s.process.value.workers[0].pc.Waiting?
    && (s.process.value.workers[0].pc.Leaving? ==> Ended(catalog, s.process.value.state))
  }

  /** Everything is recorded, and the phase says whether something is left to an external provider. */
  predicate Ended(catalog: seq<Bundle>, state: PersistedState) {
    && state.completed == OperationIds(catalog, state.selected)
    && state.phase == if Mentions(catalog, state.selected, ExternalProvider) then ExternalProviderRequired else Succeeded
  }

  /** The process apart from how far its worker is. */
  predicate SameCourse(s: System, t: System) {
    && s.process.Some? && t.process.Some? && t.disk == s.disk
    && t.process.value.state.selected == s.process.value.state.selected
  }

  lemma GoesOn(catalog: seq<Bundle>, s: System)
    requires SoundCatalog(catalog) && Going(catalog, s) && !s.process.value.workers[0].pc.Leaving?
    ensures var t := Apply(catalog, s, UNSAVED);
      && Going(catalog, t) && SameCourse(s, t)
      && StepsLeft(t.process.value.workers[0]) < StepsLeft(s.process.value.workers[0])
  {
    var p := s.process.value;
    var w := p.workers[0];
    assert p.workers == [w];
    WorkKeepsInv(catalog, s, 0, UNSAVED.input);
    WorkOnlyAdds(s, p, 0, UNSAVED.input);
    if InLoop(w.pc) { LoopGoesOn(catalog, s, w); LoopCountsDown(s, p, w, UNSAVED.input); }
    else { EntryCountsDown(s, p, w, UNSAVED.input); }
  }

  lemma LoopGoesOn(catalog: seq<Bundle>, s: System, w: Worker)
    requires Going(catalog, s) && s.process.value.workers == [w] && InLoop(w.pc)
    ensures var t := ApplyWork(s, s.process.value, 0, UNSAVED.input);
      && t.process.Some? && |t.process.value.workers| == 1 && t.disk == s.disk
      && t.process.value.cancelled == s.process.value.cancelled
      && t.process.value.workers[0].request == w.request
      && !t.process.value.workers[0].pc.Waiting?
      && (t.process.value.workers[0].pc.Leaving? ==> Ended(catalog, t.process.value.state))
  {
  }

  /**
   * Left to itself such a worker records every operation in memory, and nothing in the file, and
   * ends with `succeeded` exactly when nothing in the selection is external.
   */
  lemma {:induction false} FinishesUnsaved(catalog: seq<Bundle>, s: System) returns (labels: seq<Label>)
    requires SoundCatalog(catalog) && Going(catalog, s)
    ensures var t := Run(catalog, s, labels);
      && SameCourse(s, t) && t.process.value.workers == []
      && MemoryFinished(catalog, t, s.process.value.state.selected) && Ended(catalog, t.process.value.state)
    decreases StepsLeft(s.process.value.workers[0])
  {
    var t := Apply(catalog, s, UNSAVED);
    if s.process.value.workers[0].pc.Leaving? {
      LeavingKeepsInv(catalog, s, s.process.value.workers[0], OpIds(s.process.value.workers[0].plan.operations), UNSAVED.input);
      labels := [UNSAVED];
      assert Run(catalog, t, []) == t;
    } else {
      GoesOn(catalog, s);
      var rest := FinishesUnsaved(catalog, t);
      labels := [UNSAVED] + rest;
      assert labels[1..] == rest;
    }
  }

  /** With an operation still unrecorded, such a worker executes one. */
  lemma {:induction false} ExecutesSomething(catalog: seq<Bundle>, s: System) returns (labels: seq<Label>)
    requires SoundCatalog(catalog) && Going(catalog, s)
    requires !s.process.value.workers[0].pc.Recording? && !s.process.value.workers[0].pc.Leaving?
    requires |s.process.value.state.completed| < |OperationIds(catalog, s.process.value.state.selected)|
    ensures Run(catalog, s, labels).history != s.history
    ensures forall i :: 0 <= i < |labels| ==> labels[i] == UNSAVED
    decreases StepsLeft(s.process.value.workers[0])
  {
    var t, p := Apply(catalog, s, UNSAVED), s.process.value;
    var w := p.workers[0];
    assert p.workers == [w];
    if w.pc.Executing? {
      ExecutionIsLogged(s, p, w, UNSAVED.input);
      labels := [UNSAVED];
      assert Run(catalog, t, []) == t;
    } else {
      GoesOn(catalog, s);
      OnlyExecutingLogs(s, p, 0, UNSAVED.input);
      SkipsAndTakes(catalog, s, w);
      var rest := ExecutesSomething(catalog, t);
      labels := [UNSAVED] + rest;
      assert labels[1..] == rest;
    }
  }

  lemma SkipsAndTakes(catalog: seq<Bundle>, s: System, w: Worker)
    requires Going(catalog, s) && s.process.value.workers == [w]
    requires w.pc.Entering? || w.pc.Starting? || w.pc.At?
    requires |s.process.value.state.completed| < |OperationIds(catalog, s.process.value.state.selected)|
    ensures var t := ApplyWork(s, s.process.value, 0, UNSAVED.input);
      && t.process.Some? && |t.process.value.workers| == 1
      && t.process.value.state.completed == s.process.value.state.completed
      && !t.process.value.workers[0].pc.Recording? && !t.process.value.workers[0].pc.Leaving?
  {
  }

  lemma StartGoes(catalog: seq<Bundle>, s: System, plan: Plan)
    requires Inv(catalog, s) && s.process.Some? && s.process.value.workers == [] && PlanOk(catalog, plan)
    ensures var t := ApplyStart(s, s.process.value, plan, false);
      && Going(catalog, t) && t.process.value.workers[0].pc.Entering?
      && t.disk == s.disk && t.history == s.history
      && t.process.value.state.selected == plan.bundleIds
      && t.process.value.state.completed == RecordedFor(s.process.value.state, plan.bundleIds)
  {
    StartKeepsInv(catalog, s, plan, false);
  }

  /** The label of an accepted request. */
  function Accepted(r: Request): Label { Start(r, true, false) }

  lemma AcceptedStarts(catalog: seq<Bundle>, s: System, r: Request, plan: Plan)
    requires SoundCatalog(catalog) && s.process.Some? && PlanIn(catalog, r) == Ok(plan)
    ensures Apply(catalog, s, Accepted(r)) == ApplyStart(s, s.process.value, plan, false)
    ensures Asks(catalog, Accepted(r), plan.bundleIds) && PlanOk(catalog, plan)
  {
    PlansAreOk(catalog, r);
  }

  /** What the file has for the selection is a prefix of its operations, and all a restarted service knows. */
  lemma ReloadedKnowsTheFile(catalog: seq<Bundle>, s: System, selection: seq<string>)
    requires SoundCatalog(catalog) && Inv(catalog, s) && s.process.None? && OperationIds(catalog, selection) != []
    ensures var t := Apply(catalog, s, Load(true));
      && Inv(catalog, t) && t.history == s.history && t.process.Some? && t.process.value.workers == []
      && RecordedFor(t.process.value.state, selection)
        == (if s.disk.Some? then RecordedFor(s.disk.value, selection) else [])
      && RecordedFor(t.process.value.state, selection) <= OperationIds(catalog, selection)
  {
    StepKeepsInv(catalog, s, Load(true));
    if s.disk.None? { assert DEFAULT.completed == []; }
  }

  lemma RunOne(catalog: seq<Bundle>, s: System, a: Label)
    ensures Run(catalog, s, [a]) == Apply(catalog, s, a)
  {
    assert Run(catalog, Apply(catalog, s, a), []) == Apply(catalog, s, a);
  }

  lemma RunTwo(catalog: seq<Bundle>, s: System, a: Label, b: Label)
    ensures Run(catalog, s, [a, b]) == Apply(catalog, Apply(catalog, s, a), b)
  {
    RunOne(catalog, s, a);
    RunThen(catalog, s, [a], b);
    assert [a] + [b] == [a, b];
  }

  /** A restarted service that does not have the whole selection recorded executes part of it. */
  lemma StartRunsAgain(catalog: seq<Bundle>, s: System, r: Request, plan: Plan) returns (labels: seq<Label>)
    requires SoundCatalog(catalog) && Inv(catalog, s) && s.process.Some? && s.process.value.workers == []
    requires PlanIn(catalog, r) == Ok(plan)
    requires |RecordedFor(s.process.value.state, plan.bundleIds)| < |OperationIds(catalog, plan.bundleIds)|
    ensures AllAsk(catalog, labels, plan.bundleIds) && Run(catalog, s, labels).history != s.history
  {
    AcceptedStarts(catalog, s, r, plan);
    StartGoes(catalog, s, plan);
    var rest := ExecutesSomething(catalog, Apply(catalog, s, Accepted(r)));
    labels := [Accepted(r)] + rest;
    RunOne(catalog, s, Accepted(r));
    RunJoins(catalog, s, [Accepted(r)], rest);
  }

  lemma ProperPrefixIsShorter(a: seq<string>, b: seq<string>)
    requires a <= b && a != b
    ensures |a| < |b|
  {
    assert |a| == |b| ==> a == b;
  }

  /** A service restarted on a file that does not have the whole selection recorded executes part of it. */
  lemma ReloadRunsAgain(catalog: seq<Bundle>, s: System, r: Request, plan: Plan) returns (labels: seq<Label>)
    requires SoundCatalog(catalog) && Inv(catalog, s) && s.process.None? && PlanIn(catalog, r) == Ok(plan)
    requires OperationIds(catalog, plan.bundleIds) != [] && !FileFinished(catalog, s, plan.bundleIds)
    ensures AllAsk(catalog, labels, plan.bundleIds)
    ensures Run(catalog, ApplyLoad(s, true), labels).history != s.history
  {
    var up := ApplyLoad(s, true);
    ReloadedKnowsTheFile(catalog, s, plan.bundleIds);
    ProperPrefixIsShorter(RecordedFor(up.process.value.state, plan.bundleIds), OperationIds(catalog, plan.bundleIds));
    labels := StartRunsAgain(catalog, up, r, plan);
  }

  lemma CrashAndLoad(catalog: seq<Bundle>, s: System, rest: seq<Label>, selection: seq<string>)
    requires AllAsk(catalog, rest, selection)
    ensures AllAsk(catalog, [Crash, Load(true)] + rest, selection)
    ensures Run(catalog, s, [Crash, Load(true)] + rest) == Run(catalog, ApplyLoad(s.(process := None), true), rest)
  {
    RunTwo(catalog, s, Crash, Load(true));
    RunJoins(catalog, s, [Crash, Load(true)], rest);
  }

  /** After a crash a selection whose file record is unfinished executes again. */
  lemma CrashRunsAgain(catalog: seq<Bundle>, s: System, r: Request, plan: Plan) returns (labels: seq<Label>)
    requires SoundCatalog(catalog) && Inv(catalog, s) && PlanIn(catalog, r) == Ok(plan)
    requires OperationIds(catalog, plan.bundleIds) != [] && !FileFinished(catalog, s, plan.bundleIds)
    ensures AllAsk(catalog, labels, plan.bundleIds) && Run(catalog, s, labels).history != s.history
  {
    var rest := ReloadRunsAgain(catalog, s.(process := None), r, plan);
    CrashAndLoad(catalog, s, rest, plan.bundleIds);
    labels := [Crash, Load(true)] + rest;
  }

  /**
   * A selection finished in memory is never executed again by any run that asks only for it,
   * crashes and failed writes included, exactly if the file has it finished too.
   */
  lemma RestartingRunsNothingIff(catalog: seq<Bundle>, s: System, r: Request, plan: Plan)
    requires SoundCatalog(catalog) && Reachable(catalog, s) && PlanIn(catalog, r) == Ok(plan)
    requires OperationIds(catalog, plan.bundleIds) != [] && MemoryFinished(catalog, s, plan.bundleIds)
    ensures FileFinished(catalog, s, plan.bundleIds) <==>
      forall labels :: AllAsk(catalog, labels, plan.bundleIds) ==> Run(catalog, s, labels).history == s.history
  {
    ReachableKeepsInv(catalog, s);
    if FileFinished(catalog, s, plan.bundleIds) {
      forall labels | AllAsk(catalog, labels, plan.bundleIds) ensures Run(catalog, s, labels).history == s.history {
        FinishedSelectionRunsNothing(catalog, s, labels, plan.bundleIds);
      }
    } else {
      var labels := CrashRunsAgain(catalog, s, r, plan);
    }
  }

  /** Memory finished and the service idle, while the file still knows nothing. */
  predicate FinishedUnsaved(catalog: seq<Bundle>, s: System, selection: seq<string>) {
    MemoryFinished(catalog, s, selection) && s.process.value.workers == [] && s.disk == Some(DEFAULT)
  }

  /** From the beginning, with every write failing but the one that brings the service up. */
  lemma FinishedUnsavedIsReached(catalog: seq<Bundle>, r: Request, plan: Plan) returns (s: System)
    requires SoundCatalog(catalog) && PlanIn(catalog, r) == Ok(plan)
    ensures Reachable(catalog, s) && FinishedUnsaved(catalog, s, plan.bundleIds)
  {
    var up := ApplyLoad(INITIAL, true);
    var started := ApplyStart(up, up.process.value, plan, false);
    var first := [Load(true), Accepted(r)];
    NothingIsConsistent(catalog, []);
    AcceptedStarts(catalog, up, r, plan);
    StartGoes(catalog, up, plan);
    RunTwo(catalog, INITIAL, Load(true), Accepted(r));
    var rest := FinishesUnsaved(catalog, started);
    RunJoins(catalog, INITIAL, first, rest);
    s := Run(catalog, started, rest);
    assert Run(catalog, INITIAL, first + rest) == s;
  }

  ghost predicate RunsAgain(catalog: seq<Bundle>, s: System, labels: seq<Label>, selection: seq<string>) {
    && Reachable(catalog, s) && FinishedUnsaved(catalog, s, selection)
    && AllAsk(catalog, labels, selection) && Run(catalog, s, labels).history != s.history
  }

  /**
   * The failing case is reached for every request that has something to run: all writes after
   * the first fail, and the finished selection is executed once more after a crash.
   */
  lemma UnsavedWorkRunsAgain(catalog: seq<Bundle>, r: Request, plan: Plan)
    requires SoundCatalog(catalog) && PlanIn(catalog, r) == Ok(plan) && OperationIds(catalog, plan.bundleIds) != []
    ensures exists s, labels :: RunsAgain(catalog, s, labels, plan.bundleIds)
  {
    var s := FinishedUnsavedIsReached(catalog, r, plan);
    ReachableKeepsInv(catalog, s);
    assert RecordedFor(DEFAULT, plan.bundleIds) == [];
    var labels := CrashRunsAgain(catalog, s, r, plan);
    assert RunsAgain(catalog, s, labels, plan.bundleIds);
  }

  // ---------------------------------------------------------------------
  // Such requests exist
  // ---------------------------------------------------------------------

  function Zeros(n: nat): (r: string)
    ensures |r| == n && forall i :: 0 <= i < n ==> r[i] == '0'
  {
    if n == 0 then [] else ['0'] + Zeros(n - 1)
  }

  lemma SomeImageIsValid() returns (image: string)
    ensures ValidImage(image)
  {
    image := "env" + DIGEST_MARK + Zeros(64);
    assert PinnedAs(image, "env", Zeros(64));
    PinnedIsValid(image, "env", Zeros(64));
  }

  lemma FirstEntryIsPlanned(catalog: seq<Bundle>) returns (r: Request)
    requires SoundCatalog(catalog) && catalog != []
    requires catalog[0].kind.OciEnvironment? && catalog[0].minimumProfile.Low?
    ensures PlanIn(catalog, r).Ok? && r.bundleIds == [catalog[0].id]
  {
    var image := SomeImageIsValid();
    var ids := [catalog[0].id];
    r := Request(ids, Low, U64_MAX, Some(image));
    assert FindIn(catalog, ids[0]) == Some(catalog[0]) && Admits(catalog, Low, ids[0]);
    SelectionIsExact(catalog, ids, Low);
    EstimateNeverOverflows(catalog, ids, Low);
    PlanAcceptsExactly(catalog, r);
  }

  lemma InstallableHasOperations(catalog: seq<Bundle>, ids: seq<string>, id: string)
    requires id in ids && !IsKind(catalog, id, ExternalProvider)
    ensures OperationIds(catalog, ids) != []
  {
    InstallableAreNotExternal(catalog, ids);
    assert id in Installable(catalog, ids);
  }

  lemma PlanHasItsIds(catalog: seq<Bundle>, r: Request, plan: Plan)
    requires SoundCatalog(catalog) && PlanIn(catalog, r) == Ok(plan)
    ensures forall id :: id in r.bundleIds <==> id in plan.bundleIds
  {
    PlanSplitsSelection(catalog, r);
    FirstOccurrencesAreDistinct(r.bundleIds);
  }

  lemma FirstEntryIsInstalled(catalog: seq<Bundle>, r: Request, plan: Plan)
    requires SoundCatalog(catalog) && catalog != [] && catalog[0].kind.OciEnvironment?
    requires PlanIn(catalog, r) == Ok(plan) && r.bundleIds == [catalog[0].id]
    ensures OperationIds(catalog, plan.bundleIds) != []
  {
    var id := catalog[0].id;
    PlanHasItsIds(catalog, r, plan);
    assert id in r.bundleIds && FindIn(catalog, id) == Some(catalog[0]);
    InstallableHasOperations(catalog, plan.bundleIds, id);
  }

  /** With the reviewed catalog: a selection finished in memory, executed again after a crash. */
  lemma ReviewedSelectionRunsAgain()
    ensures exists s, labels, selection :: RunsAgain(CATALOG, s, labels, selection)
  {
    CatalogIsSound();
    var r := FirstEntryIsPlanned(CATALOG);
    var plan := PlanIn(CATALOG, r).value;
    FirstEntryIsInstalled(CATALOG, r, plan);
    UnsavedWorkRunsAgain(CATALOG, r, plan);
  }
}
