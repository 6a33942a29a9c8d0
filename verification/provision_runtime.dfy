/** The resumable runner behind the planner: memory, state file, worker, crash and restart. */
module ProvisionRuntime {
  import opened Wrappers
  import opened ResourcePolicy
  import opened ProvisionPlanning

  datatype NetworkState = Connected | Offline | Unknown

  datatype Phase =
    | Idle | WaitingNetwork | Running | Succeeded | ExternalProviderRequired | Cancelled | Failed | Interrupted

  datatype Notice = Restarted | ConnectNetwork | OperationFailed(id: string) | ExecutionFailed(id: string)

  datatype PersistedState = PersistedState(
    requestId: Option<U64>, phase: Phase, network: NetworkState, profile: Option<MachineProfile>,
    selected: seq<string>, completed: seq<string>, current: Option<string>, lastError: Option<Notice>)
  {
    /** What `load` makes of a state it finds in the file. */
    function Reloaded(): PersistedState {
      if phase.Running? || phase.WaitingNetwork? then
        this.(phase := Interrupted, current := None, lastError := Some(Restarted))
      else this
    }

    function Started(id: U64, plan: Plan): PersistedState {
      PersistedState(Some(id), WaitingNetwork, Unknown, Some(plan.profile), plan.bundleIds,
        if selected == plan.bundleIds then completed else [], None, None)
    }

    function Begun(): PersistedState { this.(phase := Running, lastError := None) }

    function Taken(id: string): PersistedState { this.(current := Some(id), lastError := None) }

    function Recorded(id: string): PersistedState { this.(completed := completed + [id], current := None) }

    function Stopped(id: string, outcome: Outcome): PersistedState {
      match outcome
      case JobCancelled => this.(phase := Cancelled, current := None)
      case Other => this.(phase := Failed, current := None, lastError := Some(OperationFailed(id)))
      case _ => this.(phase := Failed, current := None, lastError := Some(ExecutionFailed(id)))
    }

    function Finished(externals: bool): PersistedState {
      this.(phase := if externals then ExternalProviderRequired else Succeeded, current := None, lastError := None)
    }
  }

  const DEFAULT := PersistedState(None, Idle, Unknown, None, [], [], None, None)

  /** How one execution ends; `JobSucceeded` is the only success. */
  datatype Outcome = JobSucceeded | JobCancelled | Other | EngineError

  /** Where a worker is: each step up to the next point holds at most one state update. */
  datatype Pc =
    | Entering | Waiting | Starting | At(i: nat) | Executing(i: nat) | Recording(i: nat) | Leaving

  datatype Worker = Worker(request: U64, plan: Plan, pc: Pc)

  datatype Process = Process(
    state: PersistedState, active: Option<U64>, cancelled: set<U64>, nextId: U64, workers: seq<Worker>)

  /** One operation handed to the executor, under the selection it was run for. */
  datatype Execution = Execution(selection: seq<string>, id: string, succeeded: bool)

  /** The file, the process when it is up, and everything ever executed. */
  datatype System = System(disk: Option<PersistedState>, process: Option<Process>, history: seq<Execution>) {
    /** `set_state`: memory changes, and the file follows unless the write fails. */
    function Set(k: nat, state: PersistedState, pc: Pc, saved: bool): System
      requires process.Some? && k < |process.value.workers|
    {
      var p := process.value;
      System(if saved then Some(state) else disk,
        Some(p.(state := state, workers := p.workers[k := p.workers[k].(pc := pc)])), history)
    }

    function Jump(k: nat, pc: Pc): System
      requires process.Some? && k < |process.value.workers|
    {
      var p := process.value;
      this.(process := Some(p.(workers := p.workers[k := p.workers[k].(pc := pc)])))
    }
  }

  const INITIAL := System(None, None, [])

  datatype Input = Input(network: NetworkState, outcome: Outcome, saved: bool)

  datatype Label =
    | Load(saved: bool)
    | Start(request: Request, consent: bool, stored: bool)
    | Cancel(id: U64)
    | Work(k: nat, input: Input)
    | Crash

  // ---------------------------------------------------------------------
  // The steps
  // ---------------------------------------------------------------------

  /** Coming up needs the adjusted state written back. */
  function ApplyLoad(s: System, saved: bool): System {
    var state := if s.disk.Some? then s.disk.value.Reloaded() else DEFAULT;
    if saved then s.(disk := Some(state), process := Some(Process(state, None, {}, 0, []))) else s
  }

  function ApplyStart(s: System, p: Process, plan: Plan, saved: bool): System {
    if p.active.Some? then s
    else
      var id := p.nextId;
      var state := p.state.Started(id, plan);
      System(if saved then Some(state) else s.disk,
        Some(Process(state, Some(id), p.cancelled - {id}, (id + 1) % (U64_MAX + 1), p.workers + [Worker(id, plan, Entering)])),
        s.history)
  }

  function ApplyCancel(s: System, p: Process, id: U64): System {
    if p.active == Some(id) then s.(process := Some(p.(cancelled := p.cancelled + {id}))) else s
  }

  function ApplyAt(s: System, p: Process, k: nat, i: nat, input: Input): System
    requires s.process == Some(p) && k < |p.workers|
  {
    var w := p.workers[k];
    if i >= |w.plan.operations| then s.Set(k, p.state.Finished(w.plan.externalIds != []), Leaving, input.saved)
    else if w.plan.operations[i].bundleId in p.state.completed then s.Jump(k, At(i + 1))
    else if w.request in p.cancelled then s.Set(k, p.state.(phase := Cancelled, current := None), Leaving, input.saved)
    else s.Set(k, p.state.Taken(w.plan.operations[i].bundleId), Executing(i), input.saved)
  }

  function ApplyExecuting(s: System, p: Process, k: nat, i: nat, input: Input): System
    requires s.process == Some(p) && k < |p.workers|
  {
    var w := p.workers[k];
    if i >= |w.plan.operations| then s
    else
      var id := w.plan.operations[i].bundleId;
      var logged := s.(history := s.history + [Execution(w.plan.bundleIds, id, input.outcome.JobSucceeded?)]);
      if input.outcome.JobSucceeded? then logged.Jump(k, Recording(i))
      else logged.Set(k, p.state.Stopped(id, input.outcome), Leaving, input.saved)
  }

  function ApplyWork(s: System, p: Process, k: nat, input: Input): System
    requires s.process == Some(p)
  {
    if k >= |p.workers| then s
    else
      var w := p.workers[k];
      match w.pc
      case Entering =>
        if w.plan.operations == [] then s.Set(k, p.state.Finished(true), Leaving, input.saved)
        else s.Set(k, p.state.(network := input.network), if input.network.Connected? then Starting else Waiting, input.saved)
      case Waiting =>
        s.Set(k, p.state.(phase := WaitingNetwork, lastError := Some(ConnectNetwork)), Leaving, input.saved)
      case Starting => s.Set(k, p.state.Begun(), At(0), input.saved)
      case At(i) => ApplyAt(s, p, k, i, input)
      case Executing(i) => ApplyExecuting(s, p, k, i, input)
      case Recording(i) =>
        if i >= |w.plan.operations| then s
        else s.Set(k, p.state.Recorded(w.plan.operations[i].bundleId), At(i + 1), input.saved)
      case Leaving =>
        s.(process := Some(p.(
          active := if p.active == Some(w.request) then None else p.active,
          workers := p.workers[..k] + p.workers[k + 1..])))
  }

  function Apply(catalog: seq<Bundle>, s: System, step: Label): System {
    match step
    case Load(saved) => if s.process.Some? then s else ApplyLoad(s, saved)
    case Start(request, consent, stored) =>
      if s.process.None? || !consent || PlanIn(catalog, request).Err? then s
      else ApplyStart(s, s.process.value, PlanIn(catalog, request).value, stored)
    case Cancel(id) => if s.process.None? then s else ApplyCancel(s, s.process.value, id)
    case Work(k, input) => if s.process.None? then s else ApplyWork(s, s.process.value, k, input)
    case Crash => s.(process := None)
  }

  function Run(catalog: seq<Bundle>, s: System, labels: seq<Label>): System
    decreases labels
  {
    if labels == [] then s else Run(catalog, Apply(catalog, s, labels[0]), labels[1..])
  }

  lemma {:induction false} RunThen(catalog: seq<Bundle>, s: System, labels: seq<Label>, step: Label)
    ensures Run(catalog, s, labels + [step]) == Apply(catalog, Run(catalog, s, labels), step)
    decreases labels
  {
    if labels == [] {
      assert Run(catalog, Apply(catalog, s, step), []) == Apply(catalog, s, step);
    } else {
      assert (labels + [step])[1..] == labels[1..] + [step];
      RunThen(catalog, Apply(catalog, s, labels[0]), labels[1..], step);
    }
  }

  lemma {:induction false} RunJoins(catalog: seq<Bundle>, s: System, first: seq<Label>, second: seq<Label>)
    ensures Run(catalog, s, first + second) == Run(catalog, Run(catalog, s, first), second)
    decreases first
  {
    if first == [] {
      assert first + second == second;
    } else {
      assert (first + second)[1..] == first[1..] + second;
      RunJoins(catalog, Apply(catalog, s, first[0]), first[1..], second);
    }
  }

  ghost predicate Reachable(catalog: seq<Bundle>, s: System) {
    exists labels :: Run(catalog, INITIAL, labels) == s
  }

  // ---------------------------------------------------------------------
  // The invariant
  // ---------------------------------------------------------------------

  predicate Ran(history: seq<Execution>, selection: seq<string>, id: string) {
    Execution(selection, id, true) in history
  }

  predicate AllRan(history: seq<Execution>, selection: seq<string>, ids: seq<string>) {
    forall i :: 0 <= i < |ids| ==> Ran(history, selection, ids[i])
  }

  /** What memory and the file both promise: `ops` are the operation ids of the selection. */
  predicate Consistent(ops: seq<string>, external: bool, state: PersistedState) {
    && Distinct(ops) && state.completed <= ops
    && (state.phase.Succeeded? ==> state.completed == ops && !external)
    && (state.phase.ExternalProviderRequired? ==> state.completed == ops && external)
    && (state.current.Some? ==>
      state.phase.Running? && |state.completed| < |ops| && state.current.value == ops[|state.completed|])
  }

  predicate StateOk(catalog: seq<Bundle>, history: seq<Execution>, state: PersistedState) {
    && Consistent(OperationIds(catalog, state.selected), Mentions(catalog, state.selected, ExternalProvider), state)
    && AllRan(history, state.selected, state.completed)
  }

  predicate InLoop(pc: Pc) { pc.At? || pc.Executing? || pc.Recording? }

  predicate PcOk(pc: Pc, ops: seq<string>, state: PersistedState, history: seq<Execution>) {
    && (state.phase.Running? <==> InLoop(pc))
    && (pc.Starting? || InLoop(pc) ==> state.network.Connected?)
    && (state.current.Some? <==> pc.Executing? || pc.Recording?)
    && (pc.At? ==> pc.i <= |state.completed|)
    && (pc.Executing? ==> pc.i == |state.completed| < |ops|)
    && (pc.Recording? ==> pc.i == |state.completed| < |ops| && Ran(history, state.selected, ops[pc.i]))
  }

  /** The plan is the one its selection determines. */
  predicate PlanOk(catalog: seq<Bundle>, plan: Plan) {
    && OpIds(plan.operations) == OperationIds(catalog, plan.bundleIds)
    && Distinct(OpIds(plan.operations))
    && (plan.externalIds != [] <==> Mentions(catalog, plan.bundleIds, ExternalProvider))
    && plan.bundleIds != []
    && (plan.operations == [] ==> plan.externalIds != [])
  }

  predicate ProcessOk(catalog: seq<Bundle>, history: seq<Execution>, p: Process) {
    && StateOk(catalog, history, p.state)
    && |p.workers| <= 1
    && (|p.workers| == 0 ==> p.active.None? && !p.state.phase.Running?)
    && (|p.workers| == 1 ==>
      var w := p.workers[0];
      && p.active == Some(w.request) && PlanOk(catalog, w.plan) && w.plan.bundleIds == p.state.selected
      && PcOk(w.pc, OpIds(w.plan.operations), p.state, history))
  }

  predicate Inv(catalog: seq<Bundle>, s: System) {
    && (s.disk.Some? ==> StateOk(catalog, s.history, s.disk.value))
    && (s.process.Some? ==> ProcessOk(catalog, s.history, s.process.value))
  }

  lemma SplitPlansAreOk(catalog: seq<Bundle>, plan: Plan)
    requires plan.bundleIds != [] && SplitsExactly(catalog, plan.bundleIds, OpIds(plan.operations), plan.externalIds)
    ensures PlanOk(catalog, plan)
  {
    var ids := plan.bundleIds;
    assert plan.externalIds != [] ==> plan.externalIds[0] in plan.externalIds;
    assert plan.externalIds != [] ==> exists i :: 0 <= i < |ids| && ids[i] == plan.externalIds[0];
    forall i | 0 <= i < |ids| && IsKind(catalog, ids[i], ExternalProvider) ensures plan.externalIds != [] {
      assert ids[i] in plan.externalIds;
    }
    assert ids[0] in OpIds(plan.operations) || ids[0] in plan.externalIds;
  }

  lemma PlansAreOk(catalog: seq<Bundle>, r: Request)
    requires SoundCatalog(catalog) && PlanIn(catalog, r).Ok?
    ensures PlanOk(catalog, PlanIn(catalog, r).value)
  {
    PlanSplitsSelection(catalog, r);
    FirstOccurrencesAreDistinct(r.bundleIds);
    assert r.bundleIds[0] in FirstOccurrences(r.bundleIds);
    SplitPlansAreOk(catalog, PlanIn(catalog, r).value);
  }

  // ---------------------------------------------------------------------
  // Every step keeps it
  // ---------------------------------------------------------------------

  /** The one worker there is, with its operation ids. */
  predicate Working(catalog: seq<Bundle>, s: System, w: Worker, ops: seq<string>) {
    && Inv(catalog, s) && s.process.Some? && s.process.value.workers == [w]
    && ops == OpIds(w.plan.operations)
  }

  lemma SetKeepsInv(catalog: seq<Bundle>, s: System, w: Worker, ops: seq<string>, state: PersistedState, pc: Pc, saved: bool)
    requires Working(catalog, s, w, ops)
    requires state.selected == s.process.value.state.selected
    requires Consistent(ops, w.plan.externalIds != [], state) && AllRan(s.history, state.selected, state.completed)
    requires PcOk(pc, ops, state, s.history)
    ensures Inv(catalog, s.Set(0, state, pc, saved))
  {
  }

  lemma AtKeepsInv(catalog: seq<Bundle>, s: System, w: Worker, ops: seq<string>, input: Input)
    requires Working(catalog, s, w, ops) && w.pc.At?
    ensures Inv(catalog, ApplyAt(s, s.process.value, 0, w.pc.i, input))
  {
    var i, state := w.pc.i, s.process.value.state;
    var done := state.completed;
    if i < |ops| { PrefixHolds(ops, |done|, i); }
    if i >= |ops| {
      SetKeepsInv(catalog, s, w, ops, state.Finished(w.plan.externalIds != []), Leaving, input.saved);
    } else if ops[i] in done {
      assert PcOk(At(i + 1), ops, state, s.history);
    } else if w.request in s.process.value.cancelled {
      SetKeepsInv(catalog, s, w, ops, state.(phase := Phase.Cancelled, current := None), Leaving, input.saved);
    } else {
      SetKeepsInv(catalog, s, w, ops, state.Taken(ops[i]), Executing(i), input.saved);
    }
  }

  /** Of distinct entries, those in the first `n` are at the first `n` places. */
  lemma PrefixHolds(ops: seq<string>, n: nat, i: nat)
    requires Distinct(ops) && n <= |ops| && i < |ops|
    ensures ops[i] in ops[..n] <==> i < n
  {
  }

  lemma LogKeepsInv(catalog: seq<Bundle>, s: System, w: Worker, ops: seq<string>, more: Execution)
    requires Working(catalog, s, w, ops)
    ensures Working(catalog, s.(history := s.history + [more]), w, ops)
  {
  }

  lemma ExecutingKeepsInv(catalog: seq<Bundle>, s: System, w: Worker, ops: seq<string>, input: Input)
    requires Working(catalog, s, w, ops) && w.pc.Executing?
    ensures Inv(catalog, ApplyExecuting(s, s.process.value, 0, w.pc.i, input))
  {
    var i, state := w.pc.i, s.process.value.state;
    var more := Execution(w.plan.bundleIds, ops[i], input.outcome.JobSucceeded?);
    var logged := s.(history := s.history + [more]);
    LogKeepsInv(catalog, s, w, ops, more);
    if input.outcome.JobSucceeded? {
      assert Ran(logged.history, state.selected, ops[i]);
      assert PcOk(Recording(i), ops, state, logged.history);
    } else {
      SetKeepsInv(catalog, logged, w, ops, state.Stopped(ops[i], input.outcome), Leaving, input.saved);
    }
  }

  lemma RecordingKeepsInv(catalog: seq<Bundle>, s: System, w: Worker, ops: seq<string>, input: Input)
    requires Working(catalog, s, w, ops) && w.pc.Recording?
    ensures Inv(catalog, s.Set(0, s.process.value.state.Recorded(ops[w.pc.i]), At(w.pc.i + 1), input.saved))
  {
  }

  lemma EntryKeepsInv(catalog: seq<Bundle>, s: System, w: Worker, ops: seq<string>, input: Input)
    requires Working(catalog, s, w, ops) && (w.pc.Entering? || w.pc.Waiting? || w.pc.Starting?)
    ensures Inv(catalog, ApplyWork(s, s.process.value, 0, input))
  {
    var state := s.process.value.state;
    if w.pc.Waiting? {
      SetKeepsInv(catalog, s, w, ops, state.(phase := WaitingNetwork, lastError := Some(ConnectNetwork)), Leaving, input.saved);
    } else if w.pc.Starting? {
      SetKeepsInv(catalog, s, w, ops, state.Begun(), At(0), input.saved);
    } else if ops == [] {
      SetKeepsInv(catalog, s, w, ops, state.Finished(true), Leaving, input.saved);
    } else {
      SetKeepsInv(catalog, s, w, ops, state.(network := input.network),
        if input.network.Connected? then Starting else Waiting, input.saved);
    }
  }

  lemma LeavingKeepsInv(catalog: seq<Bundle>, s: System, w: Worker, ops: seq<string>, input: Input)
    requires Working(catalog, s, w, ops) && w.pc.Leaving?
    ensures Inv(catalog, ApplyWork(s, s.process.value, 0, input))
    ensures ApplyWork(s, s.process.value, 0, input).process == Some(s.process.value.(active := None, workers := []))
  {
  }

  lemma WorkKeepsInv(catalog: seq<Bundle>, s: System, k: nat, input: Input)
    requires Inv(catalog, s) && s.process.Some?
    ensures Inv(catalog, ApplyWork(s, s.process.value, k, input))
  {
    var p := s.process.value;
    if k < |p.workers| {
      var w := p.workers[0];
      assert p.workers == [w];
      var ops := OpIds(w.plan.operations);
      if w.pc.At? { AtKeepsInv(catalog, s, w, ops, input); }
      else if w.pc.Executing? { ExecutingKeepsInv(catalog, s, w, ops, input); }
      else if w.pc.Recording? { RecordingKeepsInv(catalog, s, w, ops, input); }
      else if w.pc.Leaving? { LeavingKeepsInv(catalog, s, w, ops, input); }
      else { EntryKeepsInv(catalog, s, w, ops, input); }
    }
  }

  lemma StartKeepsInv(catalog: seq<Bundle>, s: System, plan: Plan, saved: bool)
    requires Inv(catalog, s) && s.process.Some? && PlanOk(catalog, plan)
    ensures Inv(catalog, ApplyStart(s, s.process.value, plan, saved))
  {
    var p := s.process.value;
    assert StateOk(catalog, s.history, p.state.Started(p.nextId, plan));
  }

  lemma NothingIsConsistent(catalog: seq<Bundle>, history: seq<Execution>)
    ensures StateOk(catalog, history, DEFAULT)
  {
  }

  /** Every step keeps the invariant: a start, a cancel, a worker's step, a crash, a restart, any write failing. */
  lemma StepKeepsInv(catalog: seq<Bundle>, s: System, step: Label)
    requires SoundCatalog(catalog) && Inv(catalog, s)
    ensures Inv(catalog, Apply(catalog, s, step))
  {
    match step
    case Load(saved) => NothingIsConsistent(catalog, s.history);
    case Start(request, consent, stored) =>
      if s.process.Some? && consent && PlanIn(catalog, request).Ok? {
        PlansAreOk(catalog, request);
        StartKeepsInv(catalog, s, PlanIn(catalog, request).value, stored);
      }
    case Cancel(id) =>
    case Work(k, input) => if s.process.Some? { WorkKeepsInv(catalog, s, k, input); }
    case Crash =>
  }

  lemma {:induction false} RunKeepsInv(catalog: seq<Bundle>, s: System, labels: seq<Label>)
    requires SoundCatalog(catalog) && Inv(catalog, s)
    ensures Inv(catalog, Run(catalog, s, labels))
    decreases labels
  {
    if labels != [] {
      StepKeepsInv(catalog, s, labels[0]);
      RunKeepsInv(catalog, Apply(catalog, s, labels[0]), labels[1..]);
    }
  }

  // ---------------------------------------------------------------------
  // What every run guarantees
  // ---------------------------------------------------------------------

  /** The state a client or a restarted service can see. */
  predicate Shows(s: System, state: PersistedState) {
    s.disk == Some(state) || (s.process.Some? && s.process.value.state == state)
  }

  lemma ReachableKeepsInv(catalog: seq<Bundle>, s: System)
    requires SoundCatalog(catalog) && Reachable(catalog, s)
    ensures Inv(catalog, s)
  {
    var labels :| Run(catalog, INITIAL, labels) == s;
    RunKeepsInv(catalog, INITIAL, labels);
  }

  /**
   * In memory and in the file, the completed ids are a duplicate-free prefix of the operation
   * ids of the selection, and each of them had a successful execution for that selection.
   */
  lemma CompletedIsAnExecutedPrefix(catalog: seq<Bundle>, s: System, state: PersistedState)
    requires SoundCatalog(catalog) && Reachable(catalog, s) && Shows(s, state)
    ensures Distinct(state.completed) && state.completed <= OperationIds(catalog, state.selected)
    ensures forall id :: id in state.completed ==> Ran(s.history, state.selected, id)
  {
    ReachableKeepsInv(catalog, s);
  }

  /**
   * Both finished phases mean that everything ran: `succeeded` that nothing is left to an
   * external provider, `external-provider-required` that something is.
   */
  lemma SuccessMeansEverythingRan(catalog: seq<Bundle>, s: System, state: PersistedState)
    requires SoundCatalog(catalog) && Reachable(catalog, s) && Shows(s, state)
    requires state.phase.Succeeded? || state.phase.ExternalProviderRequired?
    ensures state.completed == OperationIds(catalog, state.selected)
    ensures forall id :: id in OperationIds(catalog, state.selected) ==> Ran(s.history, state.selected, id)
    ensures state.phase.Succeeded? <==> !Mentions(catalog, state.selected, ExternalProvider)
  {
    CompletedIsAnExecutedPrefix(catalog, s, state);
    ReachableKeepsInv(catalog, s);
  }

  /** One worker at most; the service is busy exactly while it lives, and `running` needs one. */
  lemma AtMostOneWorker(catalog: seq<Bundle>, s: System)
    requires SoundCatalog(catalog) && Reachable(catalog, s) && s.process.Some?
    ensures var p := s.process.value;
      && |p.workers| <= 1
      && (p.active.Some? <==> |p.workers| == 1)
      && (forall k :: 0 <= k < |p.workers| ==> p.active == Some(p.workers[k].request))
      && (p.state.phase.Running? ==> |p.workers| == 1)
  {
    ReachableKeepsInv(catalog, s);
  }

  /** The one new entry of the history is an execution of `id` for the current selection. */
  predicate HandsOver(s: System, t: System, id: string)
    requires s.process.Some?
  {
    t.history == s.history + [Execution(s.process.value.state.selected, id, true)]
    || t.history == s.history + [Execution(s.process.value.state.selected, id, false)]
  }

  /** A service that has just come up runs nothing and says so, and its file says the same. */
  lemma LoadedServiceIsAtRest(catalog: seq<Bundle>, s: System, saved: bool)
    requires SoundCatalog(catalog) && Reachable(catalog, s) && s.process.None?
    ensures var t := Apply(catalog, s, Load(saved));
      && (t.process.Some? <==> saved)
      && (saved ==>
        var state := t.process.value.state;
        && t.disk == Some(state) && t.process.value.workers == []
        && !state.phase.Running? && !state.phase.WaitingNetwork? && state.current.None?
        && (s.disk.Some? ==> state.selected == s.disk.value.selected && state.completed == s.disk.value.completed))
      && (!saved ==> t == s)
  {
    ReachableKeepsInv(catalog, s);
  }

  lemma OnlyExecutingLogs(s: System, p: Process, k: nat, input: Input)
    requires s.process == Some(p) && k < |p.workers| && !p.workers[k].pc.Executing?
    ensures ApplyWork(s, p, k, input).history == s.history
  {
  }

  /** Nothing but a worker's step with an operation in flight adds to the history. */
  lemma LoggedStepIsExecution(catalog: seq<Bundle>, s: System, step: Label)
    requires Inv(catalog, s) && Apply(catalog, s, step).history != s.history
    ensures s.process.Some? && |s.process.value.workers| == 1 && s.process.value.workers[0].pc.Executing?
    ensures step.Work? && step.k == 0
  {
    assert step.Work? && s.process.Some? && step.k < |s.process.value.workers|;
    if !s.process.value.workers[step.k].pc.Executing? { OnlyExecutingLogs(s, s.process.value, step.k, step.input); }
  }

  lemma ExecutionIsLogged(s: System, p: Process, w: Worker, input: Input)
    requires s.process == Some(p) && p.workers == [w] && w.pc.Executing? && w.pc.i < |w.plan.operations|
    ensures ApplyWork(s, p, 0, input).history
      == s.history + [Execution(w.plan.bundleIds, w.plan.operations[w.pc.i].bundleId, input.outcome.JobSucceeded?)]
  {
  }

  lemma StepExecutesNext(catalog: seq<Bundle>, s: System, step: Label)
    requires Inv(catalog, s) && Apply(catalog, s, step).history != s.history
    ensures s.process.Some?
    ensures var state := s.process.value.state;
      var ops := OperationIds(catalog, state.selected);
      && |state.completed| < |ops| && ops[|state.completed|] !in state.completed
      && state.current == Some(ops[|state.completed|]) && state.network.Connected?
      && HandsOver(s, Apply(catalog, s, step), ops[|state.completed|])
  {
    LoggedStepIsExecution(catalog, s, step);
    var p := s.process.value;
    var w := p.workers[0];
    assert p.workers == [w];
    PrefixHolds(OpIds(w.plan.operations), |p.state.completed|, w.pc.i);
    ExecutionIsLogged(s, p, w, step.input);
  }

  /** What is executed is always the first operation not yet recorded, shown as current, with the network up. */
  lemma ExecutesTheNextOperation(catalog: seq<Bundle>, s: System, step: Label)
    requires SoundCatalog(catalog) && Reachable(catalog, s) && Apply(catalog, s, step).history != s.history
    ensures s.process.Some?
    ensures var state := s.process.value.state;
      var ops := OperationIds(catalog, state.selected);
      && |state.completed| < |ops| && ops[|state.completed|] !in state.completed
      && state.current == Some(ops[|state.completed|]) && state.network.Connected?
      && HandsOver(s, Apply(catalog, s, step), ops[|state.completed|])
  {
    ReachableKeepsInv(catalog, s);
    StepExecutesNext(catalog, s, step);
  }

  /** `done` is recorded for the selection, in the file and in memory. */
  predicate Keeps(s: System, selection: seq<string>, done: seq<string>) {
    && s.disk.Some? && s.disk.value.selected == selection && done <= s.disk.value.completed
    && (s.process.Some? ==>
      s.process.value.state.selected == selection && done <= s.process.value.state.completed)
  }

  /** No accepted request is for another selection. */
  predicate Asks(catalog: seq<Bundle>, step: Label, selection: seq<string>) {
    step.Start? && PlanIn(catalog, step.request).Ok? ==> PlanIn(catalog, step.request).value.bundleIds == selection
  }

  lemma StepKeepsRecords(catalog: seq<Bundle>, s: System, step: Label, selection: seq<string>, done: seq<string>)
    requires Inv(catalog, s) && Keeps(s, selection, done) && Asks(catalog, step, selection)
    ensures Keeps(Apply(catalog, s, step), selection, done)
  {
    if step.Work? && s.process.Some? && step.k < |s.process.value.workers| {
      WorkOnlyAdds(s, s.process.value, step.k, step.input);
    }
  }

  /** A worker's step keeps the selection and at most adds to the records, and only that reaches the file. */
  lemma WorkOnlyAdds(s: System, p: Process, k: nat, input: Input)
    requires s.process == Some(p) && k < |p.workers|
    ensures var t := ApplyWork(s, p, k, input);
      && t.process.Some? && t.process.value.state.selected == p.state.selected
      && p.state.completed <= t.process.value.state.completed
      && (t.disk == s.disk || t.disk == Some(t.process.value.state))
  {
  }

  /** From entry `n` on, nothing of `done` was executed for the selection. */
  predicate NotRepeated(history: seq<Execution>, n: nat, selection: seq<string>, done: seq<string>) {
    forall j :: n <= j < |history| ==> history[j].selection == selection && history[j].id !in done
  }

  lemma StepRepeatsNothing(catalog: seq<Bundle>, s: System, step: Label, n: nat, selection: seq<string>, done: seq<string>)
    requires Inv(catalog, s) && Keeps(s, selection, done) && NotRepeated(s.history, n, selection, done)
    ensures NotRepeated(Apply(catalog, s, step).history, n, selection, done)
  {
    if Apply(catalog, s, step).history != s.history { StepExecutesNext(catalog, s, step); }
  }

  lemma {:induction false} RunRepeatsNothing(
      catalog: seq<Bundle>, s: System, labels: seq<Label>, n: nat, selection: seq<string>, done: seq<string>)
    requires SoundCatalog(catalog) && Inv(catalog, s)
    requires Keeps(s, selection, done) && NotRepeated(s.history, n, selection, done)
    requires forall i :: 0 <= i < |labels| ==> Asks(catalog, labels[i], selection)
    ensures var t := Run(catalog, s, labels);
      Keeps(t, selection, done) && NotRepeated(t.history, n, selection, done)
    decreases labels
  {
    if labels != [] {
      StepKeepsInv(catalog, s, labels[0]);
      StepKeepsRecords(catalog, s, labels[0], selection, done);
      StepRepeatsNothing(catalog, s, labels[0], n, selection, done);
      RunRepeatsNothing(catalog, Apply(catalog, s, labels[0]), labels[1..], n, selection, done);
    }
  }

  /**
   * Once recorded in memory and in the file, an operation never runs again for that selection,
   * through any crashes, restarts, failed writes, cancels and repeated starts of it, and stays recorded.
   */
  lemma RecordedWorkIsNeverRepeated(catalog: seq<Bundle>, s: System, labels: seq<Label>, selection: seq<string>, done: seq<string>)
    requires SoundCatalog(catalog) && Reachable(catalog, s) && Keeps(s, selection, done)
    requires forall i :: 0 <= i < |labels| ==> Asks(catalog, labels[i], selection)
    ensures var t := Run(catalog, s, labels);
      Keeps(t, selection, done) && NotRepeated(t.history, |s.history|, selection, done)
  {
    ReachableKeepsInv(catalog, s);
    RunRepeatsNothing(catalog, s, labels, |s.history|, selection, done);
  }

  /** Restarting a finished selection, however often, runs nothing at all. */
  lemma {:induction false} FinishedSelectionRunsNothing(catalog: seq<Bundle>, s: System, labels: seq<Label>, selection: seq<string>)
    requires SoundCatalog(catalog) && Inv(catalog, s) && Keeps(s, selection, OperationIds(catalog, selection))
    requires forall i :: 0 <= i < |labels| ==> Asks(catalog, labels[i], selection)
    ensures Run(catalog, s, labels).history == s.history
    decreases labels
  {
    if labels != [] {
      var next := Apply(catalog, s, labels[0]);
      StepKeepsInv(catalog, s, labels[0]);
      StepKeepsRecords(catalog, s, labels[0], selection, OperationIds(catalog, selection));
      assert next.history == s.history by {
        if next.history != s.history { StepExecutesNext(catalog, s, labels[0]); }
      }
      FinishedSelectionRunsNothing(catalog, next, labels[1..], selection);
    }
  }

  /** Steps a worker still has, whatever happens. */
  function StepsLeft(w: Worker): nat {
    var n := |w.plan.operations|;
    match w.pc
    case Entering => 3 * n + 4
    case Waiting => 2
    case Starting => 3 * n + 3
    case At(i) => if i <= n then 3 * (n - i) + 2 else 2
    case Executing(i) => if i < n then 3 * (n - i) + 1 else 1
    case Recording(i) => if i < n then 3 * (n - i) else 1
    case Leaving => 1
  }

  predicate Nearer(w: Worker, t: System) {
    t.process.Some? && |t.process.value.workers| == 1 && StepsLeft(t.process.value.workers[0]) < StepsLeft(w)
  }

  lemma LoopCountsDown(s: System, p: Process, w: Worker, input: Input)
    requires s.process == Some(p) && p.workers == [w] && InLoop(w.pc)
    requires !w.pc.At? ==> w.pc.i < |w.plan.operations|
    ensures Nearer(w, ApplyWork(s, p, 0, input))
  {
  }

  lemma EntryCountsDown(s: System, p: Process, w: Worker, input: Input)
    requires s.process == Some(p) && p.workers == [w] && (w.pc.Entering? || w.pc.Waiting? || w.pc.Starting?)
    ensures Nearer(w, ApplyWork(s, p, 0, input))
  {
  }

  /** Each step of the worker brings its end nearer, and its last one frees the service. */
  lemma WorkerCountsDown(catalog: seq<Bundle>, s: System, input: Input)
    requires SoundCatalog(catalog) && Reachable(catalog, s) && s.process.Some? && s.process.value.workers != []
    ensures var w, t := s.process.value.workers[0], ApplyWork(s, s.process.value, 0, input);
      if w.pc.Leaving? then t.process == Some(s.process.value.(active := None, workers := [])) else Nearer(w, t)
  {
    ReachableKeepsInv(catalog, s);
    var w := s.process.value.workers[0];
    assert s.process.value.workers == [w];
    if w.pc.Leaving? { LeavingKeepsInv(catalog, s, w, OpIds(w.plan.operations), input); }
    else if InLoop(w.pc) { LoopCountsDown(s, s.process.value, w, input); }
    else { EntryCountsDown(s, s.process.value, w, input); }
  }

  predicate NoStart(labels: seq<Label>) {
    forall i :: 0 <= i < |labels| ==> !labels[i].Start?
  }

  /** Whatever worker there is has been told to stop. */
  predicate Stopping(s: System) {
    s.process.Some? ==>
      forall k :: 0 <= k < |s.process.value.workers| ==> s.process.value.workers[k].request in s.process.value.cancelled
  }

  predicate InFlight(s: System) {
    s.process.Some? && exists k :: 0 <= k < |s.process.value.workers| && s.process.value.workers[k].pc.Executing?
  }

  /** The executions that may still be logged: the one in flight. */
  function Pending(s: System): nat { if InFlight(s) then 1 else 0 }

  /** An accepted cancel tells the worker to stop, wherever it is. */
  lemma AcceptedCancelStops(catalog: seq<Bundle>, s: System, id: U64)
    requires SoundCatalog(catalog) && Reachable(catalog, s) && s.process.Some? && s.process.value.active == Some(id)
    ensures var t := Apply(catalog, s, Cancel(id));
      Stopping(t) && t.history == s.history && (InFlight(t) <==> InFlight(s))
  {
    ReachableKeepsInv(catalog, s);
  }

  lemma WorkWhileStopping(s: System, p: Process, w: Worker, input: Input)
    requires s.process == Some(p) && p.workers == [w] && w.request in p.cancelled
    ensures var t := ApplyWork(s, p, 0, input);
      && Stopping(t) && |t.history| + Pending(t) <= |s.history| + Pending(s)
  {
    if w.pc.At? {
      var t := ApplyAt(s, p, 0, w.pc.i, input);
      assert t.process.Some? && |t.process.value.workers| == 1 && !t.process.value.workers[0].pc.Executing?;
    } else if w.pc.Executing? {
      assert p.workers[0].pc.Executing?;
      var t := ApplyExecuting(s, p, 0, w.pc.i, input);
      assert |t.history| <= |s.history| + 1;
    }
  }

  lemma StepWhileStopping(catalog: seq<Bundle>, s: System, step: Label)
    requires Inv(catalog, s) && Stopping(s) && !step.Start?
    ensures var t := Apply(catalog, s, step);
      && Stopping(t) && |t.history| + Pending(t) <= |s.history| + Pending(s)
  {
    if step.Work? && s.process.Some? && step.k < |s.process.value.workers| {
      assert s.process.value.workers == [s.process.value.workers[0]];
      WorkWhileStopping(s, s.process.value, s.process.value.workers[0], step.input);
    }
  }

  /**
   * From an accepted cancel on, and until a new start, no further operation is begun: at most
   * the one in flight still ends, and nothing at all is executed when none is.
   */
  lemma {:induction false} CancelBeginsNothingMore(catalog: seq<Bundle>, s: System, labels: seq<Label>)
    requires SoundCatalog(catalog) && Inv(catalog, s) && Stopping(s) && NoStart(labels)
    ensures |Run(catalog, s, labels).history| <= |s.history| + Pending(s)
    ensures s.history <= Run(catalog, s, labels).history
    decreases labels
  {
    if labels != [] {
      var t := Apply(catalog, s, labels[0]);
      StepKeepsInv(catalog, s, labels[0]);
      StepWhileStopping(catalog, s, labels[0]);
      if t.history != s.history { StepExecutesNext(catalog, s, labels[0]); }
      CancelBeginsNothingMore(catalog, t, labels[1..]);
    }
  }

  /** Accepting a cancel bounds what its request still executes, whatever happens before a new start. */
  lemma CancelledRequestRunsAtMostOnce(catalog: seq<Bundle>, s: System, id: U64, labels: seq<Label>)
    requires SoundCatalog(catalog) && Reachable(catalog, s) && s.process.Some? && s.process.value.active == Some(id)
    requires NoStart(labels)
    ensures |Run(catalog, s, [Cancel(id)] + labels).history| <= |s.history| + Pending(s)
  {
    ReachableKeepsInv(catalog, s);
    AcceptedCancelStops(catalog, s, id);
    StepKeepsInv(catalog, s, Cancel(id));
    CancelBeginsNothingMore(catalog, Apply(catalog, s, Cancel(id)), labels);
    assert ([Cancel(id)] + labels)[1..] == labels;
  }

  // ---------------------------------------------------------------------
  // What decides each step and each call
  // ---------------------------------------------------------------------

  /** The worker has moved and shows this state; the file follows when the write works. */
  predicate MovedTo(s: System, t: System, pc: Pc, state: PersistedState, saved: bool) {
    && s.process.Some? && t.process.Some? && |t.process.value.workers| == 1
    && t.process.value.workers[0].pc == pc && t.process.value.state == state
    && t.disk == (if saved then Some(state) else s.disk)
  }

  /** A worker with something to run goes on exactly when the network is connected; otherwise it waits and runs nothing. */
  lemma NetworkDecides(s: System, p: Process, w: Worker, input: Input)
    requires s.process == Some(p) && p.workers == [w] && w.pc.Entering? && w.plan.operations != []
    ensures MovedTo(s, ApplyWork(s, p, 0, input), if input.network.Connected? then Starting else Waiting,
      p.state.(network := input.network), input.saved)
  {
  }

  lemma WaitingEnds(s: System, p: Process, w: Worker, input: Input)
    requires s.process == Some(p) && p.workers == [w] && w.pc.Waiting?
    ensures MovedTo(s, ApplyWork(s, p, 0, input), Leaving,
      p.state.(phase := WaitingNetwork, lastError := Some(ConnectNetwork)), input.saved)
  {
  }

  /** A successful operation leads to its record; every other outcome ends the worker with its own phase and notice. */
  lemma OutcomeDecides(s: System, p: Process, w: Worker, input: Input)
    requires s.process == Some(p) && p.workers == [w] && w.pc.Executing? && w.pc.i < |w.plan.operations|
    ensures var t, id := ApplyWork(s, p, 0, input), w.plan.operations[w.pc.i].bundleId;
      && (input.outcome.JobSucceeded? ==> MovedTo(s, t, Recording(w.pc.i), p.state, false))
      && (input.outcome.JobCancelled? ==>
        MovedTo(s, t, Leaving, p.state.(phase := Phase.Cancelled, current := None), input.saved))
      && (input.outcome.Other? ==>
        MovedTo(s, t, Leaving, p.state.(phase := Failed, current := None, lastError := Some(OperationFailed(id))), input.saved))
      && (input.outcome.EngineError? ==>
        MovedTo(s, t, Leaving, p.state.(phase := Failed, current := None, lastError := Some(ExecutionFailed(id))), input.saved))
  {
  }

  /** A cancelled worker stops before the next operation it would have begun, and says so. */
  lemma CancelIsShown(s: System, p: Process, w: Worker, input: Input)
    requires s.process == Some(p) && p.workers == [w] && w.pc.At? && w.pc.i < |w.plan.operations|
    requires w.plan.operations[w.pc.i].bundleId !in p.state.completed
    ensures var id := w.plan.operations[w.pc.i].bundleId;
      MovedTo(s, ApplyWork(s, p, 0, input), if w.request in p.cancelled then Leaving else Executing(w.pc.i),
        if w.request in p.cancelled then p.state.(phase := Phase.Cancelled, current := None)
        else p.state.(current := Some(id), lastError := None), input.saved)
  {
  }

  /** After the operations the phase says whether something is left to an external provider. */
  lemma ExternalsDecideTheEnd(catalog: seq<Bundle>, s: System, w: Worker, input: Input)
    requires SoundCatalog(catalog) && Reachable(catalog, s) && s.process.Some? && s.process.value.workers == [w]
    requires w.pc.At? && w.pc.i == |w.plan.operations|
    ensures var t := Apply(catalog, s, Work(0, input));
      && t.process.Some? && t.process.value.workers == [w.(pc := Leaving)]
      && t.process.value.state.phase
        == (if Mentions(catalog, s.process.value.state.selected, ExternalProvider) then ExternalProviderRequired else Succeeded)
  {
    ReachableKeepsInv(catalog, s);
    assert [w][0 := w.(pc := Leaving)] == [w.(pc := Leaving)];
  }

  /** A start is accepted exactly when the service is up and idle, consent is given and the request is planned. */
  lemma StartIsExact(catalog: seq<Bundle>, s: System, request: Request, consent: bool, stored: bool)
    requires SoundCatalog(catalog) && Reachable(catalog, s)
    ensures var t := Apply(catalog, s, Start(request, consent, stored));
      if s.process.Some? && s.process.value.workers == [] && consent && PlanIn(catalog, request).Ok? then
        var plan, p := PlanIn(catalog, request).value, s.process.value;
        && t.process.Some? && t.process.value.workers == [Worker(p.nextId, plan, Entering)]
        && t.process.value.active == Some(p.nextId) && p.nextId !in t.process.value.cancelled
        && t.process.value.state == p.state.Started(p.nextId, plan)
        && t.disk == (if stored then Some(t.process.value.state) else s.disk) && t.history == s.history
      else t == s
  {
    ReachableKeepsInv(catalog, s);
  }

  /** A cancel reaches the active request only. */
  lemma CancelIsExact(catalog: seq<Bundle>, s: System, id: U64)
    ensures var t := Apply(catalog, s, Cancel(id));
      if s.process.Some? && s.process.value.active == Some(id) then
        t == s.(process := Some(s.process.value.(cancelled := s.process.value.cancelled + {id})))
      else t == s
  {
  }
}
