/** The plan object: validation, execution order and schedule of a list of steps. */
module TestPlans {
  import opened Wrappers
  import opened StringOrder
  import opened ResourcePolicy
  import opened TestPlanning

  // ---------------------------------------------------------------------
  // Validation
  // ---------------------------------------------------------------------

  function Ids(steps: seq<TestStep>): (r: seq<string>)
    ensures |r| == |steps| && forall i :: 0 <= i < |steps| ==> r[i] == steps[i].id
  {
    seq(|steps|, i requires 0 <= i < |steps| => steps[i].id)
  }

  predicate HasId(steps: seq<TestStep>, id: string) { id in Ids(steps) }

  /** What is wrong with step `i` before its dependencies are looked at. */
  function StepFault(steps: seq<TestStep>, i: nat): Option<PlanError>
    requires i < |steps|
  {
    var step := steps[i];
    if step.id == "" then Some(InvalidStepId(step.id))
    else if !step.command.Valid() then Some(InvalidCommand(step.command.program))
    else if HasId(steps[..i], step.id) then Some(DuplicateStep(step.id))
    else None
  }

  function StepFaults(steps: seq<TestStep>): seq<Option<PlanError>> {
    seq(|steps|, i requires 0 <= i < |steps| => StepFault(steps, i))
  }

  function DependencyFaults(steps: seq<TestStep>, step: TestStep): seq<Option<PlanError>> {
    seq(|step.dependencies|, k requires 0 <= k < |step.dependencies| =>
      if HasId(steps, step.dependencies[k]) then None
      else Some(UnknownDependency(step.id, step.dependencies[k])))
  }

  function UnknownFaults(steps: seq<TestStep>): seq<Option<PlanError>> {
    seq(|steps|, i requires 0 <= i < |steps| => First(DependencyFaults(steps, steps[i])))
  }

  function First(faults: seq<Option<PlanError>>): Option<PlanError> {
    if faults == [] then None
    else if faults[0].Some? then faults[0]
    else First(faults[1..])
  }

  /** Two passes: every step by itself, then the dependencies of every step. */
  function ValidationFault(steps: seq<TestStep>): Option<PlanError> {
    First(StepFaults(steps) + UnknownFaults(steps))
  }

  predicate AllKnown(steps: seq<TestStep>, step: TestStep) {
    forall k :: 0 <= k < |step.dependencies| ==> HasId(steps, step.dependencies[k])
  }

  predicate DependenciesKnown(steps: seq<TestStep>) {
    forall i :: 0 <= i < |steps| ==> AllKnown(steps, steps[i])
  }

  predicate StepsAcceptable(steps: seq<TestStep>) {
    && (forall i :: 0 <= i < |steps| ==> steps[i].id != "" && steps[i].command.Valid())
    && Distinct(Ids(steps))
  }

  predicate WellFormed(steps: seq<TestStep>) {
    StepsAcceptable(steps) && DependenciesKnown(steps)
  }

  lemma {:induction false} FirstIsEarliest(faults: seq<Option<PlanError>>)
    ensures First(faults).None? <==> forall i :: 0 <= i < |faults| ==> faults[i].None?
    ensures First(faults).Some? ==> exists i :: 0 <= i < |faults| && IsEarliest(faults, i)
  {
    if faults != [] && faults[0].None? {
      FirstIsEarliest(faults[1..]);
      if First(faults).Some? {
        var i :| 0 <= i < |faults[1..]| && IsEarliest(faults[1..], i);
        assert IsEarliest(faults, i + 1) by {
          forall j | 0 <= j < i + 1 ensures faults[j].None? {
            assert j > 0 ==> faults[1..][j - 1].None?;
          }
        }
      } else {
        forall i | 0 <= i < |faults| ensures faults[i].None? {
          assert i > 0 ==> faults[1..][i - 1].None?;
        }
      }
    } else if faults != [] {
      assert IsEarliest(faults, 0);
    }
  }

  ghost predicate IsEarliest(faults: seq<Option<PlanError>>, i: nat)
    requires i < |faults|
  {
    First(faults) == faults[i] && forall j :: 0 <= j < i ==> faults[j].None?
  }

  lemma {:induction false} FirstOfConcatenation(a: seq<Option<PlanError>>, b: seq<Option<PlanError>>)
    ensures First(a + b) == if First(a).Some? then First(a) else First(b)
  {
    if a == [] {
      assert a + b == b;
    } else {
      assert (a + b)[1..] == a[1..] + b;
      FirstOfConcatenation(a[1..], b);
    }
  }

  /** A step's own fault: its id first, then its command, then an id used before. */
  lemma StepFaultIsExact(steps: seq<TestStep>, i: nat)
    requires i < |steps|
    ensures var fault, step := StepFault(steps, i), steps[i];
      && (fault == Some(InvalidStepId(step.id)) <==> step.id == "")
      && (fault == Some(InvalidCommand(step.command.program)) <==> step.id != "" && !step.command.Valid())
      && (fault == Some(DuplicateStep(step.id)) <==>
        step.id != "" && step.command.Valid() && exists j :: 0 <= j < i && steps[j].id == step.id)
  {
    if j :| 0 <= j < i && steps[j].id == steps[i].id { assert Ids(steps[..i])[j] == steps[i].id; }
    if HasId(steps[..i], steps[i].id) {
      var j :| 0 <= j < i && Ids(steps[..i])[j] == steps[i].id;
      assert steps[j].id == steps[i].id;
    }
  }

  lemma AcceptableIffNoStepFault(steps: seq<TestStep>)
    ensures StepsAcceptable(steps) <==> First(StepFaults(steps)).None?
  {
    FirstIsEarliest(StepFaults(steps));
    forall i | 0 <= i < |steps| ensures Ids(steps[..i]) == Ids(steps)[..i] {}
    if First(StepFaults(steps)).None? {
      forall j | 0 <= j < |steps|
        ensures steps[j].id != "" && steps[j].command.Valid()
        ensures forall i :: 0 <= i < j ==> Ids(steps)[i] != Ids(steps)[j]
      {
        assert StepFaults(steps)[j].None?;
        assert forall i :: 0 <= i < j ==> Ids(steps)[i] in Ids(steps)[..j];
      }
    } else {
      var i :| 0 <= i < |steps| && IsEarliest(StepFaults(steps), i);
      assert StepFault(steps, i).Some?;
      if steps[i].id != "" && steps[i].command.Valid() {
        var j :| 0 <= j < i && Ids(steps)[..i][j] == steps[i].id;
        assert Ids(steps)[j] == Ids(steps)[i];
      }
    }
  }

  lemma UnknownFaultsAreExact(steps: seq<TestStep>)
    ensures DependenciesKnown(steps) <==> First(UnknownFaults(steps)).None?
    ensures forall i :: 0 <= i < |steps| && UnknownFaults(steps)[i].Some? ==>
      UnknownFaults(steps)[i].value.UnknownDependency?
  {
    FirstIsEarliest(UnknownFaults(steps));
    forall i | 0 <= i < |steps|
      ensures UnknownFaults(steps)[i].None? <==> AllKnown(steps, steps[i])
      ensures UnknownFaults(steps)[i].Some? ==> UnknownFaults(steps)[i].value.UnknownDependency?
    {
      var faults := DependencyFaults(steps, steps[i]);
      FirstIsEarliest(faults);
      forall k | 0 <= k < |faults|
        ensures faults[k].None? <==> HasId(steps, steps[i].dependencies[k])
      {}
    }
  }

  /**
   * Validation passes exactly the well-formed plans; otherwise it reports the first
   * faulty step, and an unknown dependency only when every step by itself is fine.
   */
  lemma ValidationIsExact(steps: seq<TestStep>)
    ensures ValidationFault(steps).None? <==> WellFormed(steps)
    ensures ValidationFault(steps).Some? ==> !ValidationFault(steps).value.Cycle?
    ensures ValidationFault(steps).Some? ==>
      (ValidationFault(steps).value.UnknownDependency? <==> StepsAcceptable(steps))
    ensures var faults := StepFaults(steps) + UnknownFaults(steps);
      ValidationFault(steps).Some? ==> exists i :: 0 <= i < |faults| && IsEarliest(faults, i)
  {
    AcceptableIffNoStepFault(steps);
    UnknownFaultsAreExact(steps);
    FirstOfConcatenation(StepFaults(steps), UnknownFaults(steps));
    FirstIsEarliest(StepFaults(steps));
    FirstIsEarliest(UnknownFaults(steps));
    FirstIsEarliest(StepFaults(steps) + UnknownFaults(steps));
  }

  // ---------------------------------------------------------------------
  // The order of a plan
  // ---------------------------------------------------------------------

  /** The map the program builds by inserting the steps one after another. */
  function IndexSteps(steps: seq<TestStep>): (g: Steps)
    ensures forall id :: id in g <==> HasId(steps, id)
  {
    if steps == [] then map[]
    else
      var last := steps[|steps| - 1];
      var rest := steps[..|steps| - 1];
      assert Ids(steps) == Ids(rest) + [last.id];
      IndexSteps(rest)[last.id := last]
  }

  lemma {:induction false} IndexedUnderOwnId(steps: seq<TestStep>, i: nat)
    requires i < |steps| && Distinct(Ids(steps))
    ensures HasId(steps, steps[i].id) && IndexSteps(steps)[steps[i].id] == steps[i]
  {
    var n := |steps| - 1;
    assert Ids(steps)[i] == steps[i].id && Ids(steps)[n] == steps[n].id;
    if i < n {
      assert Ids(steps[..n]) == Ids(steps)[..n];
      IndexedUnderOwnId(steps[..n], i);
    }
  }

  lemma KnownDependenciesCloseGraph(steps: seq<TestStep>)
    requires WellFormed(steps)
    ensures Closed(IndexSteps(steps))
  {
    var g := IndexSteps(steps);
    forall id, d | id in g && d in g[id].dependencies ensures d in g {
      var i :| 0 <= i < |steps| && Ids(steps)[i] == id;
      IndexedUnderOwnId(steps, i);
      var k :| 0 <= k < |steps[i].dependencies| && steps[i].dependencies[k] == d;
      assert AllKnown(steps, steps[i]);
    }
  }

  function OrderOf(steps: seq<TestStep>): Result<seq<string>, PlanError> {
    match ValidationFault(steps)
    case Some(e) => Err(e)
    case None =>
      ValidationIsExact(steps);
      KnownDependenciesCloseGraph(steps);
      match VisitAll(IndexSteps(steps), EMPTY_WALK, Ids(steps))
      case Finished(v) => Ok(v.order)
      case Cyclic(c) => Err(Cycle(c))
  }

  ghost predicate HasCycle(steps: seq<TestStep>) {
    exists x :: DependsOn(IndexSteps(steps), x, x)
  }

  /** A plan is ordered exactly when it is well formed and free of cycles. */
  lemma {:induction false} OrderExistsExactly(steps: seq<TestStep>)
    ensures OrderOf(steps).Ok? <==> WellFormed(steps) && !HasCycle(steps)
    ensures OrderOf(steps).Err? && OrderOf(steps).error.Cycle? <==> WellFormed(steps) && HasCycle(steps)
    ensures forall c :: OrderOf(steps) == Err(Cycle(c)) ==>
      HasId(steps, c) && DependsOn(IndexSteps(steps), c, c)
    ensures !WellFormed(steps) ==> ValidationFault(steps) == Some(OrderOf(steps).error)
  {
    ValidationIsExact(steps);
    if WellFormed(steps) {
      KnownDependenciesCloseGraph(steps);
      TraversalIsExact(IndexSteps(steps), Ids(steps));
    }
  }

  /** The order lists every step once, after all it needs directly or indirectly. */
  lemma {:induction false} OrderRespectsDependencies(steps: seq<TestStep>)
    requires OrderOf(steps).Ok?
    ensures var order := OrderOf(steps).value;
      && multiset(order) == multiset(Ids(steps))
      && (forall i, b :: 0 <= i < |order| && DependsOn(IndexSteps(steps), order[i], b) ==> b in order[..i])
  {
    ValidationIsExact(steps);
    KnownDependenciesCloseGraph(steps);
    var g := IndexSteps(steps);
    TraversalIsExact(g, Ids(steps));
    var order := OrderOf(steps).value;
    DistinctListingsArePermutations(order, Ids(steps));
    forall i, b | 0 <= i < |order| && DependsOn(g, order[i], b) ensures b in order[..i] {
      TransitiveDependenciesFirst(g, order, i, b);
    }
  }

  lemma DistinctListingsArePermutations(s: seq<string>, t: seq<string>)
    requires Distinct(s) && Distinct(t) && SameElements(s, t)
    ensures multiset(s) == multiset(t)
  {
    forall x ensures multiset(s)[x] == multiset(t)[x] {
      DistinctCountsOnce(s, x);
      DistinctCountsOnce(t, x);
    }
  }

  lemma {:induction false} DistinctCountsOnce(s: seq<string>, x: string)
    requires Distinct(s)
    ensures multiset(s)[x] == if x in s then 1 else 0
  {
    if s != [] {
      DistinctCountsOnce(s[1..], x);
      assert s == [s[0]] + s[1..];
    }
  }

  // ---------------------------------------------------------------------
  // Insertion order, where the dependencies leave a choice
  // ---------------------------------------------------------------------

  lemma {:induction false} VisitAllSplits(g: Steps, w: Walk, a: seq<string>, b: seq<string>)
    requires Closed(g) && (forall id :: id in a + b ==> id in g)
    ensures forall id :: id in a ==> id in g
    ensures forall id :: id in b ==> id in g
    ensures VisitAll(g, w, a + b) == match VisitAll(g, w, a)
      case Cyclic(c) => Cyclic(c)
      case Finished(v) => VisitAll(g, v, b)
    decreases |a|
  {
    forall id | id in a || id in b ensures id in g { assert id in a + b; }
    if a == [] {
      assert a + b == b;
    } else {
      assert (a + b)[1..] == a[1..] + b;
      var first := VisitNode(g, w, a[0]);
      if first.Finished? { VisitAllSplits(g, first.walk, a[1..], b); }
    }
  }

  /** What the steps `a` need is finished before anything else of `b` is. */
  lemma EarlierStepsComeFirst(g: Steps, a: seq<string>, b: seq<string>) returns (early: seq<string>)
    requires Closed(g) && (forall id :: id in a + b ==> id in g)
    requires VisitAll(g, EMPTY_WALK, a + b).Finished?
    ensures early <= VisitAll(g, EMPTY_WALK, a + b).walk.order
    ensures forall id :: id in a ==> id in early
    ensures forall x :: x in early ==> Needed(g, a, x)
  {
    VisitAllSplits(g, EMPTY_WALK, a, b);
    VisitAllIsSound(g, EMPTY_WALK, a);
    var v := VisitAll(g, EMPTY_WALK, a).walk;
    VisitAllIsSound(g, v, b);
    forall x | x in v.order ensures Needed(g, a, x) { assert v.IsDone(x); }
    forall id | id in a ensures id in v.order { assert v.IsDone(id); }
    early := v.order;
  }

  /**
   * A later step overtakes an earlier one only when that step, or one listed before
   * it, depends on the later step.
   */
  lemma {:induction false} OvertakingNeedsADependency(steps: seq<TestStep>, i: nat, j: nat, p: nat, q: nat)
    requires OrderOf(steps).Ok? && i < j < |steps|
    requires q < p < |OrderOf(steps).value|
    requires OrderOf(steps).value[p] == steps[i].id && OrderOf(steps).value[q] == steps[j].id
    ensures exists k :: 0 <= k <= i && DependsOn(IndexSteps(steps), steps[k].id, steps[j].id)
  {
    var g, ids, order := IndexSteps(steps), Ids(steps), OrderOf(steps).value;
    assert Closed(g) by {
      ValidationIsExact(steps);
      KnownDependenciesCloseGraph(steps);
    }
    assert Distinct(ids) by { ValidationIsExact(steps); }
    assert Distinct(order) by { TraversalIsExact(g, ids); }
    var a, b := ids[..i + 1], ids[i + 1..];
    assert ids == a + b;
    var early := EarlierStepsComeFirst(g, a, b);
    assert a[i] == steps[i].id;
    PrefixHoldsEarlierEntries(order, early, steps[i].id, p, q);
    assert Needed(g, a, ids[j]);
    NeededByAnEarlierStep(g, ids, i, j);
    var k :| 0 <= k <= i && DependsOn(g, ids[k], ids[j]);
    assert DependsOn(g, steps[k].id, steps[j].id);
  }

  lemma NeededByAnEarlierStep(g: Steps, ids: seq<string>, i: nat, j: nat)
    requires Distinct(ids) && i < j < |ids| && Needed(g, ids[..i + 1], ids[j])
    ensures exists k :: 0 <= k <= i && DependsOn(g, ids[k], ids[j])
  {
    var a := ids[..i + 1];
    var k :| 0 <= k < |a| && (a[k] == ids[j] || DependsOn(g, a[k], ids[j]));
    assert a[k] == ids[k];
  }

  lemma PrefixHoldsEarlierEntries(order: seq<string>, early: seq<string>, x: string, p: nat, q: nat)
    requires Distinct(order) && early <= order && x in early
    requires q < p < |order| && order[p] == x
    ensures order[q] in early
  {
    var at :| 0 <= at < |early| && early[at] == x;
    assert order[at] == order[p];
    assert early[q] == order[q];
  }

  // ---------------------------------------------------------------------
  // Insensitivity to how dependencies are listed
  // ---------------------------------------------------------------------

  predicate SamePlan(a: seq<TestStep>, b: seq<TestStep>) {
    && |a| == |b|
    && forall i :: 0 <= i < |a| ==>
      && a[i].id == b[i].id && a[i].command == b[i].command
      && SameElements(a[i].dependencies, b[i].dependencies)
  }

  /** Reordering or repeating the entries of dependency lists changes no outcome. */
  lemma {:induction false} ListingOfDependenciesIsIrrelevant(a: seq<TestStep>, b: seq<TestStep>)
    requires SamePlan(a, b) && DependenciesKnown(a)
    ensures OrderOf(a) == OrderOf(b)
  {
    assert Ids(a) == Ids(b);
    forall i, k | 0 <= i < |b| && 0 <= k < |b[i].dependencies|
      ensures HasId(b, b[i].dependencies[k])
    {
      assert b[i].dependencies[k] in a[i].dependencies;
      var l :| 0 <= l < |a[i].dependencies| && a[i].dependencies[l] == b[i].dependencies[k];
      assert AllKnown(a, a[i]);
    }
    assert forall i :: 0 <= i < |a| ==> Ids(a[..i]) == Ids(b[..i]);
    assert StepFaults(a) == StepFaults(b);
    ValidationIsExact(a);
    ValidationIsExact(b);
    FirstOfConcatenation(StepFaults(a), UnknownFaults(a));
    FirstOfConcatenation(StepFaults(b), UnknownFaults(b));
    UnknownFaultsAreExact(a);
    UnknownFaultsAreExact(b);
    if ValidationFault(a).None? {
      KnownDependenciesCloseGraph(a);
      KnownDependenciesCloseGraph(b);
      var g, h := IndexSteps(a), IndexSteps(b);
      forall id | id in g ensures SameElements(g[id].dependencies, h[id].dependencies) {
        var i :| 0 <= i < |a| && Ids(a)[i] == id;
        IndexedUnderOwnId(a, i);
        IndexedUnderOwnId(b, i);
      }
      VisitAllIgnoresListing(g, h, EMPTY_WALK, Ids(a));
    }
  }

  // ---------------------------------------------------------------------
  // The schedule
  // ---------------------------------------------------------------------

  function ScheduleOf(steps: seq<TestStep>, snapshot: ResourceSnapshot): (r: Result<seq<TestSchedule>, PlanError>)
    ensures r.Ok? <==> OrderOf(steps).Ok?
    ensures r.Err? ==> r.error == OrderOf(steps).error
    ensures r.Ok? ==> |r.value| == |OrderOf(steps).value|
  {
    match OrderOf(steps)
    case Err(e) => Err(e)
    case Ok(order) =>
      OrderRespectsDependencies(steps);
      var g := IndexSteps(steps);
      assert forall id :: id in order ==> id in multiset(order) && id in Ids(steps);
      Ok(seq(|order|, i requires 0 <= i < |order| => Decision(g[order[i]], snapshot)))
  }

  function Decision(step: TestStep, snapshot: ResourceSnapshot): TestSchedule {
    var workload := step.kind.WorkloadClass();
    var budget := snapshot.Budget(workload);
    TestSchedule(step.id, step.kind, workload, budget.maxWorkers, budget.deferred)
  }

  /** The step an entry of the order names. */
  lemma {:induction false} StepInOrder(steps: seq<TestStep>, i: nat) returns (k: nat)
    requires OrderOf(steps).Ok? && i < |OrderOf(steps).value|
    ensures k < |steps| && steps[k].id == OrderOf(steps).value[i]
    ensures steps[k].id in IndexSteps(steps) && IndexSteps(steps)[steps[k].id] == steps[k]
  {
    var order := OrderOf(steps).value;
    OrderRespectsDependencies(steps);
    assert order[i] in multiset(order) && order[i] in Ids(steps);
    k :| 0 <= k < |steps| && Ids(steps)[k] == order[i];
    ValidationIsExact(steps);
    IndexedUnderOwnId(steps, k);
  }

  /**
   * The entry carries the budget of the step's class; an emulator test is deferred, and gets no
   * worker, exactly on a constrained machine, and no other test ever is.
   */
  predicate DecidedFor(entry: TestSchedule, step: TestStep, snapshot: ResourceSnapshot) {
    && entry.id == step.id && entry.kind == step.kind && entry.workload == step.kind.WorkloadClass()
    && entry.maxWorkers == snapshot.Budget(entry.workload).maxWorkers
    && (entry.deferred <==>
      entry.kind.EmulatorTest?
      && (snapshot.initialProfile.Low? || snapshot.OnBattery() || snapshot.MaxPressure() >= 1_000))
    && entry.maxWorkers <= BaseBudget(snapshot.initialProfile, entry.kind.WorkloadClass()).maxWorkers
    && (entry.maxWorkers == 0 <==> entry.deferred)
  }

  /** The schedule has one entry per step, in execution order, decided for that step. */
  lemma {:induction false} ScheduleFollowsOrder(steps: seq<TestStep>, snapshot: ResourceSnapshot, i: nat)
    requires ScheduleOf(steps, snapshot).Ok? && i < |OrderOf(steps).value|
    ensures var entry := ScheduleOf(steps, snapshot).value[i];
      && entry.id == OrderOf(steps).value[i]
      && exists k :: 0 <= k < |steps| && DecidedFor(entry, steps[k], snapshot)
  {
    var k := StepInOrder(steps, i);
    OnlyEmulatorsAreDeferred(snapshot, steps[k].kind.WorkloadClass());
    assert DecidedFor(Decision(steps[k], snapshot), steps[k], snapshot);
  }

  // ---------------------------------------------------------------------
  // The objects the program updates
  // ---------------------------------------------------------------------

  /** The `state` and `order` that `visit` fills in through its `&mut` parameters. */
  class Traversal {
    var state: map<string, VisitState>
    var order: seq<string>

    function Value(): Walk reads this { Walk(state, order) }

    constructor ()
      ensures Value() == EMPTY_WALK
    {
      state, order := map[], [];
    }

    method Visit(steps: Steps, id: string) returns (r: Result<(), PlanError>)
      requires Closed(steps) && id in steps
      modifies this
      ensures match VisitNode(steps, old(Value()), id)
        case Finished(w) => r == Ok(()) && Value() == w
        case Cyclic(c) => r == Err(Cycle(c))
      decreases steps.Keys - state.Keys
    {
      if id in state {
        match state[id]
        case Done => return Ok(());
        case Visiting => return Err(Cycle(id));
      }
      assert id in steps.Keys - state.Keys;
      state := state[id := Visiting];
      ghost var entered := Value();
      var dependencies := Dedup(Sort(steps[id].dependencies));
      assert dependencies == Neighbours(steps, id);
      for i := 0 to |dependencies|
        invariant entered.state.Keys <= state.Keys
        invariant VisitAll(steps, entered, dependencies)
          == VisitAll(steps, Value(), dependencies[i..])
      {
        assert dependencies[i..][0] == dependencies[i];
        assert dependencies[i..][1..] == dependencies[i + 1..];
        var inner := Visit(steps, dependencies[i]);
        if inner.Err? { return inner; }
      }
      state := state[id := Done];
      order := order + [id];
      return Ok(());
    }
  }

  class TestPlan {
    var steps: seq<TestStep>

    constructor ()
      ensures steps == []
    {
      steps := [];
    }

    method Push(step: TestStep)
      modifies this
      ensures steps == old(steps) + [step]
    {
      steps := steps + [step];
    }

    /** The first pass: every step by itself, indexed by its id. */
    method IndexChecked() returns (r: Result<Steps, PlanError>)
      ensures r.Err? ==> ValidationFault(steps) == Some(r.error)
      ensures r.Ok? ==> r.value == IndexSteps(steps) && ValidationFault(steps) == First(UnknownFaults(steps))
    {
      var byId: Steps := map[];
      ghost var all, later := StepFaults(steps), UnknownFaults(steps);
      assert all[0..] == all;
      for i := 0 to |steps|
        invariant byId == IndexSteps(steps[..i])
        invariant First(all + later) == First(all[i..] + later)
      {
        var step := steps[i];
        assert steps[..i + 1][..i] == steps[..i];
        assert (all[i..] + later)[0] == StepFault(steps, i) && (all[i..] + later)[1..] == all[i + 1..] + later;
        if step.id == "" { return Err(InvalidStepId(step.id)); }
        if !step.command.Valid() { return Err(InvalidCommand(step.command.program)); }
        if step.id in byId { return Err(DuplicateStep(step.id)); }
        byId := byId[step.id := step];
      }
      assert steps[..|steps|] == steps && all[|steps|..] + later == later;
      return Ok(byId);
    }

    method FirstUnknown(byId: Steps, step: TestStep) returns (fault: Option<PlanError>)
      requires byId == IndexSteps(steps)
      ensures fault == First(DependencyFaults(steps, step))
    {
      ghost var faults := DependencyFaults(steps, step);
      assert faults[0..] == faults;
      for k := 0 to |step.dependencies|
        invariant First(faults) == First(faults[k..])
      {
        assert faults[k..][0] == faults[k] && faults[k..][1..] == faults[k + 1..];
        if step.dependencies[k] !in byId { return Some(UnknownDependency(step.id, step.dependencies[k])); }
      }
      return None;
    }

    /** The second pass: the dependencies of every step. */
    method CheckDependencies(byId: Steps) returns (fault: Option<PlanError>)
      requires byId == IndexSteps(steps)
      ensures fault == First(UnknownFaults(steps))
    {
      ghost var faults := UnknownFaults(steps);
      assert faults[0..] == faults;
      for i := 0 to |steps|
        invariant First(faults) == First(faults[i..])
      {
        assert faults[i..][0] == faults[i] && faults[i..][1..] == faults[i + 1..];
        fault := FirstUnknown(byId, steps[i]);
        if fault.Some? { return fault; }
      }
      return None;
    }

    method ExecutionOrder() returns (r: Result<seq<string>, PlanError>)
      ensures r == OrderOf(steps)
    {
      var byId := IndexChecked();
      if byId.Err? { return Err(byId.error); }
      var fault := CheckDependencies(byId.value);
      if fault.Some? { return Err(fault.value); }
      ValidationIsExact(steps);
      KnownDependenciesCloseGraph(steps);
      var ids := Ids(steps);
      var traversal := new Traversal();
      for i := 0 to |steps|
        invariant VisitAll(byId.value, EMPTY_WALK, ids) == VisitAll(byId.value, traversal.Value(), ids[i..])
      {
        assert ids[i..][0] == steps[i].id && ids[i..][1..] == ids[i + 1..];
        var visited := traversal.Visit(byId.value, steps[i].id);
        if visited.Err? { return Err(visited.error); }
      }
      return Ok(traversal.order);
    }

    method Schedule(snapshot: ResourceSnapshot) returns (r: Result<seq<TestSchedule>, PlanError>)
      ensures r == ScheduleOf(steps, snapshot)
    {
      var order := ExecutionOrder();
      if order.Err? { return Err(order.error); }
      OrderRespectsDependencies(steps);
      var byId := IndexSteps(steps);
      assert forall id :: id in order.value ==> id in multiset(order.value) && id in Ids(steps);
      return Ok(seq(|order.value|,
        i requires 0 <= i < |order.value| => Decision(byId[order.value[i]], snapshot)));
    }
  }
}
