/** The provisioning service as the object that keeps its memory, file and active request. */
module ProvisionService {
  import opened Wrappers
  import opened ResourcePolicy
  import opened ProvisionPlanning
  import opened ProvisionRuntime

  /** One more step of the only worker. */
  lemma Advance(catalog: seq<Bundle>, s: System, labels: seq<Label>, input: Input)
    requires Run(catalog, s, labels).process.Some?
    ensures var here := Run(catalog, s, labels);
      Run(catalog, s, labels + [Work(0, input)]) == ApplyWork(here, here.process.value, 0, input)
  {
    RunThen(catalog, s, labels, Work(0, input));
  }

  /** What the surroundings do during one turn of the worker's loop. */
  datatype Turn = Turn(cancelArrives: bool, outcome: Outcome, saved: bool, savedAfter: bool)

  class Runtime {
    var state: PersistedState
    var file: Option<PersistedState>
    var active: Option<U64>
    var cancelled: set<U64>
    var nextId: U64
    ghost var history: seq<Execution>

    /** The process this object is, with the given workers. */
    ghost function View(workers: seq<Worker>): System
      reads this
    {
      System(file, Some(Process(state, active, cancelled, nextId, workers)), history)
    }

    constructor (found: Option<PersistedState>, adjusted: PersistedState, ghost past: seq<Execution>)
      ensures state == adjusted && file == found && active == None && cancelled == {} && nextId == 0
      ensures history == past
    {
      state, file, active, cancelled, nextId, history := adjusted, found, None, {}, 0, past;
    }

    static method Load(found: Option<PersistedState>, saved: bool, ghost past: seq<Execution>)
      returns (r: Option<Runtime>)
      ensures r.Some? ==> fresh(r.value) && r.value.View([]) == ApplyLoad(System(found, None, past), saved)
      ensures r.None? ==> ApplyLoad(System(found, None, past), saved) == System(found, None, past)
    {
      var adjusted := DEFAULT;
      if found.Some? {
        adjusted := found.value;
        if adjusted.phase.Running? || adjusted.phase.WaitingNetwork? {
          adjusted := adjusted.(phase := Interrupted, current := None, lastError := Some(Restarted));
        }
      }
      var runtime := new Runtime(found, adjusted, past);
      if !saved { return None; }
      runtime.file := Some(adjusted);
      return Some(runtime);
    }

    /** Memory first, then the file; a failed write is ignored. */
    method SetState(next: PersistedState, saved: bool)
      modifies this`state, this`file
      ensures state == next && file == if saved then Some(next) else old(file)
    {
      state := next;
      if saved { file := Some(state); }
    }

    method Start(plan: Plan, saved: bool, ghost workers: seq<Worker>) returns (r: Option<U64>)
      modifies this
      ensures View(if r.Some? then workers + [Worker(r.value, plan, Entering)] else workers)
        == ApplyStart(old(View(workers)), old(View(workers)).process.value, plan, saved)
      ensures r.Some? <==> old(active).None?
    {
      if active.Some? { return None; }
      var id := nextId;
      nextId := if nextId == U64_MAX then 0 else nextId + 1;
      var completed := if state.selected == plan.bundleIds then state.completed else [];
      SetState(PersistedState(Some(id), WaitingNetwork, Unknown, Some(plan.profile), plan.bundleIds, completed, None, None), saved);
      active, cancelled := Some(id), cancelled - {id};
      return Some(id);
    }

    method Cancel(id: U64, ghost workers: seq<Worker>) returns (ok: bool)
      modifies this`cancelled
      ensures View(workers) == ApplyCancel(old(View(workers)), old(View(workers)).process.value, id)
      ensures ok <==> active == Some(id)
    {
      if active != Some(id) { return false; }
      cancelled := cancelled + {id};
      return true;
    }

    method ClearActive(request: U64)
      modifies this`active
      ensures active == if old(active) == Some(request) then None else old(active)
    {
      if active == Some(request) { active := None; }
    }

    /** The head of the loop: skip what is recorded, stop when cancelled, else announce the operation. */
    method Take(w: Worker, input: Input) returns (pc: Pc)
      requires w.pc.At? && w.pc.i < |w.plan.operations|
      modifies this`state, this`file
      ensures View([w.(pc := pc)]) == ApplyWork(old(View([w])), old(View([w])).process.value, 0, input)
      ensures pc == At(w.pc.i + 1) || pc == Executing(w.pc.i) || pc == Leaving
    {
      var id := w.plan.operations[w.pc.i].bundleId;
      pc := At(w.pc.i + 1);
      if id !in state.completed {
        if w.request in cancelled {
          pc := Leaving;
          SetState(state.(phase := Phase.Cancelled, current := None), input.saved);
        } else {
          pc := Executing(w.pc.i);
          SetState(state.(current := Some(id), lastError := None), input.saved);
        }
      }
      assert [w][0 := w.(pc := pc)] == [w.(pc := pc)];
    }

    method Execute(w: Worker, input: Input) returns (pc: Pc)
      requires w.pc.Executing? && w.pc.i < |w.plan.operations|
      modifies this`state, this`file, this`history
      ensures View([w.(pc := pc)]) == ApplyWork(old(View([w])), old(View([w])).process.value, 0, input)
      ensures pc == Recording(w.pc.i) || pc == Leaving
    {
      var id := w.plan.operations[w.pc.i].bundleId;
      history := history + [Execution(w.plan.bundleIds, id, input.outcome.JobSucceeded?)];
      pc := Recording(w.pc.i);
      if !input.outcome.JobSucceeded? {
        pc := Leaving;
        if input.outcome.JobCancelled? {
          SetState(state.(phase := Phase.Cancelled, current := None), input.saved);
        } else {
          var notice := if input.outcome.Other? then OperationFailed(id) else ExecutionFailed(id);
          SetState(state.(phase := Failed, current := None, lastError := Some(notice)), input.saved);
        }
      }
      assert [w][0 := w.(pc := pc)] == [w.(pc := pc)];
    }

    method Record(w: Worker, input: Input)
      requires w.pc.Recording? && w.pc.i < |w.plan.operations|
      modifies this`state, this`file
      ensures View([w.(pc := At(w.pc.i + 1))]) == ApplyWork(old(View([w])), old(View([w])).process.value, 0, input)
    {
      var id := w.plan.operations[w.pc.i].bundleId;
      SetState(state.(completed := state.completed + [id], current := None), input.saved);
      assert [w][0 := w.(pc := At(w.pc.i + 1))] == [w.(pc := At(w.pc.i + 1))];
    }

    method Release(w: Worker, input: Input)
      requires w.pc.Leaving?
      modifies this`active
      ensures View([]) == ApplyWork(old(View([w])), old(View([w])).process.value, 0, input)
    {
      ClearActive(w.request);
      assert [w][..0] + [w][1..] == [];
    }

    /** The operation in flight: recorded, or the worker on its way out. */
    method Carry(w: Worker, input: Input, ghost catalog: seq<Bundle>) returns (pc: Pc, ghost labels: seq<Label>)
      requires w.pc.Executing? && w.pc.i < |w.plan.operations|
      modifies this`state, this`file, this`history
      ensures Run(catalog, old(View([w])), labels) == View([w.(pc := pc)])
      ensures pc == At(w.pc.i + 1) || pc == Leaving
    {
      ghost var start := View([w]);
      Advance(catalog, start, [], input);
      labels := [] + [Work(0, input)];
      pc := Execute(w, input);
      if pc.Recording? {
        Advance(catalog, start, labels, input);
        labels := labels + [Work(0, input)];
        Record(w.(pc := pc), input);
        pc := At(w.pc.i + 1);
      }
    }

    /** One turn of the loop, as steps of the system; `goesOn` unless the worker has left. */
    method RunOperation(w: Worker, turn: Turn, ghost catalog: seq<Bundle>) returns (goesOn: bool, ghost labels: seq<Label>)
      requires w.pc.At? && w.pc.i < |w.plan.operations|
      modifies this
      ensures Run(catalog, old(View([w])), labels) == View(if goesOn then [w.(pc := At(w.pc.i + 1))] else [])
    {
      ghost var start := View([w]);
      labels := [];
      if turn.cancelArrives {
        var accepted := Cancel(w.request, [w]);
        RunThen(catalog, start, [], Label.Cancel(w.request));
        labels := [] + [Label.Cancel(w.request)];
      }
      var taking := Input(Unknown, turn.outcome, turn.saved);
      var ending := Input(Unknown, turn.outcome, turn.savedAfter);
      Advance(catalog, start, labels, taking);
      labels := labels + [Work(0, taking)];
      var pc := Take(w, taking);
      if pc.Executing? {
        ghost var more;
        pc, more := Carry(w.(pc := pc), ending, catalog);
        RunJoins(catalog, start, labels, more);
        labels := labels + more;
      }
      if pc.At? { return true, labels; }
      Advance(catalog, start, labels, ending);
      labels := labels + [Work(0, ending)];
      Release(w.(pc := pc), ending);
      return false, labels;
    }

    /** What precedes the loop: nothing to run, no network, or the phase turns to running. */
    method Enter(w: Worker, network: NetworkState, saved: bool, savedAfter: bool, ghost catalog: seq<Bundle>)
      returns (pc: Pc, ghost labels: seq<Label>)
      requires w.pc.Entering?
      modifies this`state, this`file
      ensures Run(catalog, old(View([w])), labels) == View([w.(pc := pc)])
      ensures pc == At(0) || pc == Leaving
    {
      ghost var start := View([w]);
      ghost var first, second := Input(network, EngineError, saved), Input(network, EngineError, savedAfter);
      assert forall pc :: [w][0 := w.(pc := pc)] == [w.(pc := pc)];
      Advance(catalog, start, [], first);
      labels := [] + [Work(0, first)];
      if w.plan.operations == [] {
        SetState(state.(phase := ExternalProviderRequired, current := None, lastError := None), saved);
        return Leaving, labels;
      }
      SetState(state.(network := network), saved);
      ghost var next := w.(pc := if network.Connected? then Starting else Waiting);
      assert forall pc :: [next][0 := next.(pc := pc)] == [next.(pc := pc)];
      Advance(catalog, start, labels, second);
      labels := labels + [Work(0, second)];
      if !network.Connected? {
        SetState(state.(phase := WaitingNetwork, lastError := Some(ConnectNetwork)), savedAfter);
        return Leaving, labels;
      }
      SetState(state.(phase := Running, lastError := None), savedAfter);
      return At(0), labels;
    }

    /** After the loop: every operation is recorded. */
    method Finish(w: Worker, input: Input) returns (pc: Pc)
      requires w.pc.At? && w.pc.i == |w.plan.operations|
      modifies this`state, this`file
      ensures pc == Leaving
      ensures View([w.(pc := pc)]) == ApplyWork(old(View([w])), old(View([w])).process.value, 0, input)
    {
      pc := Leaving;
      var phase := if w.plan.externalIds == [] then Succeeded else ExternalProviderRequired;
      SetState(state.(phase := phase, current := None, lastError := None), input.saved);
      assert [w][0 := w.(pc := pc)] == [w.(pc := pc)];
    }

    /** The worker from its spawning to its end is a run of the step system. */
    method RunPlan(request: U64, plan: Plan, network: NetworkState, writes: (bool, bool, bool), turns: seq<Turn>, ghost catalog: seq<Bundle>)
      returns (ghost labels: seq<Label>)
      requires |turns| == |plan.operations|
      modifies this
      ensures Run(catalog, old(View([Worker(request, plan, Entering)])), labels) == View([])
    {
      ghost var start := View([Worker(request, plan, Entering)]);
      var last := Input(network, EngineError, writes.2);
      var pc;
      pc, labels := Enter(Worker(request, plan, Entering), network, writes.0, writes.1, catalog);
      if pc.At? {
        for i := 0 to |plan.operations|
          invariant Run(catalog, start, labels) == View([Worker(request, plan, At(i))])
        {
          var goesOn;
          ghost var more;
          goesOn, more := RunOperation(Worker(request, plan, At(i)), turns[i], catalog);
          RunJoins(catalog, start, labels, more);
          labels := labels + more;
          if !goesOn { return labels; }
        }
        Advance(catalog, start, labels, last);
        labels := labels + [Work(0, last)];
        pc := Finish(Worker(request, plan, At(|plan.operations|)), last);
      }
      Advance(catalog, start, labels, last);
      labels := labels + [Work(0, last)];
      Release(Worker(request, plan, pc), last);
    }
  }
}
