/**
 * Test plans: the depth-first order over the dependency graph, its cycle errors
 * and the schedule derived from it.
 */
module TestPlanning {
  import opened Wrappers
  import opened Text
  import opened StringOrder
  import opened ResourcePolicy

  datatype TestKind =
    | StaticAnalysis | Unit | Integration | Ui | Api | Database | Device
    | EmulatorTest | Performance | MemoryPressure | Security | Regression
  {
    function WorkloadClass(): WorkloadClass {
      match this
      case EmulatorTest => Emulator
      case StaticAnalysis => Indexer
      case _ => Build
    }
  }

  datatype TestCommand = TestCommand(program: string, args: seq<string>) {
    predicate Valid() {
      program != "" && forall i :: 0 <= i < |program| ==> !IsWhitespace(program[i])
    }
  }

  datatype TestStep = TestStep(
    id: string, kind: TestKind, command: TestCommand, workingDirectory: string,
    dependencies: seq<string>)

  datatype PlanError =
    | InvalidStepId(id: string)
    | InvalidCommand(program: string)
    | DuplicateStep(id: string)
    | UnknownDependency(step: string, dependency: string)
    | Cycle(id: string)

  datatype TestSchedule = TestSchedule(
    id: string, kind: TestKind, workload: WorkloadClass, maxWorkers: U16, deferred: bool)

  type Steps = map<string, TestStep>

  // ---------------------------------------------------------------------
  // The dependency graph
  // ---------------------------------------------------------------------

  predicate Closed(g: Steps) {
    forall id, d :: id in g && d in g[id].dependencies ==> d in g
  }

  predicate Edge(g: Steps, a: string, b: string) { a in g && b in g[a].dependencies }

  /** A walk along dependencies, at least one edge long. */
  predicate Path(g: Steps, p: seq<string>) {
    |p| >= 2 && forall i :: 0 <= i < |p| - 1 ==> Edge(g, p[i], p[i + 1])
  }

  ghost predicate PathBetween(g: Steps, p: seq<string>, a: string, b: string) {
    Path(g, p) && p[0] == a && p[|p| - 1] == b
  }

  /** `b` is a direct or transitive dependency of `a`. */
  ghost predicate DependsOn(g: Steps, a: string, b: string) {
    exists p :: PathBetween(g, p, a, b)
  }

  lemma EdgeIsDependency(g: Steps, a: string, b: string)
    requires Edge(g, a, b)
    ensures DependsOn(g, a, b)
  {
    assert PathBetween(g, [a, b], a, b);
  }

  lemma DependentIsAStep(g: Steps, a: string, b: string)
    ensures DependsOn(g, a, b) ==> a in g
  {
    if DependsOn(g, a, b) {
      var p :| PathBetween(g, p, a, b);
      assert Edge(g, p[0], p[1]);
    }
  }

  lemma DependsOnIsTransitive(g: Steps, a: string, b: string, c: string)
    requires DependsOn(g, a, b) && DependsOn(g, b, c)
    ensures DependsOn(g, a, c)
  {
    var p :| PathBetween(g, p, a, b);
    var q :| PathBetween(g, q, b, c);
    var r := p + q[1..];
    forall i | 0 <= i < |r| - 1 ensures Edge(g, r[i], r[i + 1]) {
      if i < |p| - 1 {
        assert Edge(g, p[i], p[i + 1]);
      } else {
        assert r[i] == q[i - (|p| - 1)] && r[i + 1] == q[i - (|p| - 1) + 1];
      }
    }
    assert PathBetween(g, r, a, c);
  }

  // ---------------------------------------------------------------------
  // The traversal as a function of its mutable state
  // ---------------------------------------------------------------------

  datatype VisitState = Visiting | Done

  datatype Walk = Walk(state: map<string, VisitState>, order: seq<string>) {
    predicate IsDone(id: string) { id in state && state[id] == Done }

    predicate IsVisiting(id: string) { id in state && state[id] == Visiting }
  }

  datatype Visited = Finished(walk: Walk) | Cyclic(id: string)

  function Neighbours(g: Steps, id: string): (r: seq<string>)
    requires id in g
    ensures forall d :: d in r <==> d in g[id].dependencies
  {
    SortedDistinctKeepsElements(g[id].dependencies);
    SortedDistinct(g[id].dependencies)
  }

  function VisitNode(g: Steps, w: Walk, id: string): (r: Visited)
    requires Closed(g) && id in g
    ensures r.Finished? ==> w.state.Keys <= r.walk.state.Keys
    decreases g.Keys - w.state.Keys, 0
  {
    if id in w.state then
      match w.state[id] case Done => Finished(w) case Visiting => Cyclic(id)
    else
      assert id in g.Keys - w.state.Keys;
      var entered := w.(state := w.state[id := Visiting]);
      match VisitAll(g, entered, Neighbours(g, id))
      case Cyclic(c) => Cyclic(c)
      case Finished(v) => Finished(Walk(v.state[id := Done], v.order + [id]))
  }

  function VisitAll(g: Steps, w: Walk, ids: seq<string>): (r: Visited)
    requires Closed(g) && forall id :: id in ids ==> id in g
    ensures r.Finished? ==> w.state.Keys <= r.walk.state.Keys
    decreases g.Keys - w.state.Keys, 1 + |ids|
  {
    if ids == [] then Finished(w)
    else
      match VisitNode(g, w, ids[0])
      case Cyclic(c) => Cyclic(c)
      case Finished(v) => VisitAll(g, v, ids[1..])
  }

  // ---------------------------------------------------------------------
  // What the traversal keeps
  // ---------------------------------------------------------------------

  /** Every entry comes after all of its dependencies. */
  ghost predicate DependenciesFirst(g: Steps, order: seq<string>) {
    forall i, d :: 0 <= i < |order| && Edge(g, order[i], d) ==> d in order[..i]
  }

  predicate Distinct(s: seq<string>) {
    forall i, j :: 0 <= i < j < |s| ==> s[i] != s[j]
  }

  ghost predicate Sound(g: Steps, w: Walk) {
    && w.state.Keys <= g.Keys
    && (forall id :: id in w.order <==> w.IsDone(id))
    && Distinct(w.order)
    && DependenciesFirst(g, w.order)
  }

  /** The unfinished nodes are the call stack: each one leads to `id`. */
  ghost predicate StackLeadsTo(g: Steps, w: Walk, id: string) {
    forall v :: w.IsVisiting(v) ==> DependsOn(g, v, id)
  }

  /** `x` is one of `ids` or a dependency of one of them. */
  ghost predicate Needed(g: Steps, ids: seq<string>, x: string) {
    exists i :: 0 <= i < |ids| && (ids[i] == x || DependsOn(g, ids[i], x))
  }

  /** What a successful visit of `ids` may change, and what it must achieve. */
  ghost predicate Extends(g: Steps, w: Walk, v: Walk, ids: seq<string>) {
    && Sound(g, v)
    && w.order <= v.order
    && (forall x :: v.IsVisiting(x) <==> w.IsVisiting(x))
    && (forall id :: id in ids ==> v.IsDone(id))
    && (forall x :: v.IsDone(x) ==> w.IsDone(x) || Needed(g, ids, x))
  }

  /** Marking a new node keeps the state sound, and the call stack now leads on to each of its dependencies. */
  lemma EnteredIsSound(g: Steps, w: Walk, id: string)
    requires Closed(g) && id in g && id !in w.state && Sound(g, w) && StackLeadsTo(g, w, id)
    ensures var entered := w.(state := w.state[id := Visiting]);
      Sound(g, entered) && forall d :: d in Neighbours(g, id) ==> StackLeadsTo(g, entered, d)
  {
    var entered := w.(state := w.state[id := Visiting]);
    assert forall x :: entered.IsDone(x) <==> w.IsDone(x);
    forall d | d in Neighbours(g, id) ensures StackLeadsTo(g, entered, d) {
      EdgeIsDependency(g, id, d);
      forall v | entered.IsVisiting(v) ensures DependsOn(g, v, d) {
        if v != id {
          assert w.IsVisiting(v);
          DependsOnIsTransitive(g, v, id, d);
        }
      }
    }
  }

  lemma {:induction false} VisitNodeIsSound(g: Steps, w: Walk, id: string)
    requires Closed(g) && id in g && Sound(g, w) && StackLeadsTo(g, w, id)
    ensures match VisitNode(g, w, id)
      case Finished(v) => Extends(g, w, v, [id])
      case Cyclic(c) => DependsOn(g, c, c)
    decreases g.Keys - w.state.Keys, 0
  {
    if id !in w.state {
      assert id in g.Keys - w.state.Keys;
      var entered := w.(state := w.state[id := Visiting]);
      var next := Neighbours(g, id);
      EnteredIsSound(g, w, id);
      VisitAllIsSound(g, entered, next);
      var r := VisitAll(g, entered, next);
      if r.Finished? {
        FinishIsSound(g, w, r.walk, id);
      }
    } else if w.state[id] == Done {
      assert Extends(g, w, w, [id]);
    } else {
      assert w.IsVisiting(id);
    }
  }

  lemma FinishIsSound(g: Steps, w: Walk, v: Walk, id: string)
    requires Closed(g) && id in g && id !in w.state && Sound(g, w)
    requires Extends(g, w.(state := w.state[id := Visiting]), v, Neighbours(g, id))
    ensures Extends(g, w, Walk(v.state[id := Done], v.order + [id]), [id])
  {
    var entered := w.(state := w.state[id := Visiting]);
    var next := Neighbours(g, id);
    var f := Walk(v.state[id := Done], v.order + [id]);
    assert entered.IsVisiting(id);
    assert v.IsVisiting(id);
    assert id !in v.order;
    forall x ensures x in f.order <==> f.IsDone(x) {
      assert x in f.order <==> x in v.order || x == id;
      assert x in v.order <==> v.IsDone(x);
    }
    forall i, d | 0 <= i < |f.order| && Edge(g, f.order[i], d) ensures d in f.order[..i] {
      if i < |v.order| {
        assert f.order[..i] == v.order[..i];
        assert Edge(g, v.order[i], d);
      } else {
        assert f.order[..i] == v.order;
        assert d in next && v.IsDone(d);
      }
    }
    forall x ensures f.IsVisiting(x) <==> w.IsVisiting(x) {
      assert v.IsVisiting(x) <==> entered.IsVisiting(x);
    }
    forall x | f.IsDone(x) ensures w.IsDone(x) || Needed(g, [id], x) {
      if x == id {
        assert [id][0] == x;
      } else {
        assert v.IsDone(x);
        if !entered.IsDone(x) {
          var i :| 0 <= i < |next| && (next[i] == x || DependsOn(g, next[i], x));
          EdgeIsDependency(g, id, next[i]);
          if next[i] != x { DependsOnIsTransitive(g, id, next[i], x); }
          assert [id][0] == id;
        }
      }
    }
  }

  lemma {:induction false} VisitAllIsSound(g: Steps, w: Walk, ids: seq<string>)
    requires Closed(g) && (forall id :: id in ids ==> id in g) && Sound(g, w)
    requires forall id :: id in ids ==> StackLeadsTo(g, w, id)
    ensures match VisitAll(g, w, ids)
      case Finished(v) => Extends(g, w, v, ids)
      case Cyclic(c) => DependsOn(g, c, c)
    decreases g.Keys - w.state.Keys, 1 + |ids|
  {
    if ids != [] {
      VisitNodeIsSound(g, w, ids[0]);
      var first := VisitNode(g, w, ids[0]);
      if first.Finished? {
        var v := first.walk;
        forall id | id in ids[1..] ensures StackLeadsTo(g, v, id) {
          assert id in ids && StackLeadsTo(g, w, id);
        }
        VisitAllIsSound(g, v, ids[1..]);
        var rest := VisitAll(g, v, ids[1..]);
        if rest.Finished? {
          ExtendsComposes(g, w, v, rest.walk, ids);
        }
      }
    }
  }

  lemma ExtendsComposes(g: Steps, w: Walk, v: Walk, u: Walk, ids: seq<string>)
    requires ids != []
    requires Extends(g, w, v, [ids[0]]) && Extends(g, v, u, ids[1..])
    ensures Extends(g, w, u, ids)
  {
    forall id | id in ids ensures u.IsDone(id) {
      if id == ids[0] {
        assert id in [ids[0]] && v.IsDone(id);
        assert id in v.order && id in u.order;
      } else {
        assert id in ids[1..];
      }
    }
    forall x | u.IsDone(x) ensures w.IsDone(x) || Needed(g, ids, x) {
      if v.IsDone(x) {
        if !w.IsDone(x) {
          var i :| 0 <= i < 1 && ([ids[0]][i] == x || DependsOn(g, [ids[0]][i], x));
          assert ids[0] == x || DependsOn(g, ids[0], x);
        }
      } else {
        var i :| 0 <= i < |ids[1..]| && (ids[1..][i] == x || DependsOn(g, ids[1..][i], x));
        assert ids[1..][i] == ids[i + 1];
      }
    }
  }

  // ---------------------------------------------------------------------
  // Orders and cycles
  // ---------------------------------------------------------------------

  /** Whatever `a` needs, however indirectly, stands before it. */
  lemma {:induction false} TransitiveDependenciesFirst(g: Steps, order: seq<string>, i: nat, b: string)
    requires DependenciesFirst(g, order) && i < |order|
    requires DependsOn(g, order[i], b)
    ensures b in order[..i]
  {
    var p :| PathBetween(g, p, order[i], b);
    PathStaysBefore(g, order, i, p);
  }

  lemma {:induction false} PathStaysBefore(g: Steps, order: seq<string>, i: nat, p: seq<string>)
    requires DependenciesFirst(g, order) && i < |order|
    requires Path(g, p) && p[0] == order[i]
    ensures p[|p| - 1] in order[..i]
    decreases |p|
  {
    assert Edge(g, p[0], p[1]);
    var k :| 0 <= k < i && order[k] == p[1];
    if |p| > 2 {
      var q := p[1..];
      forall j | 0 <= j < |q| - 1 ensures Edge(g, q[j], q[j + 1]) {
        assert q[j] == p[j + 1] && q[j + 1] == p[j + 2];
      }
      PathStaysBefore(g, order, k, q);
      assert q[|q| - 1] == p[|p| - 1];
    }
  }

  /** An order with dependencies first leaves no room for a cycle among its entries. */
  lemma OrderExcludesCycles(g: Steps, order: seq<string>, x: string)
    requires DependenciesFirst(g, order) && Distinct(order) && x in order
    ensures !DependsOn(g, x, x)
  {
    var i :| 0 <= i < |order| && order[i] == x;
    if DependsOn(g, x, x) {
      TransitiveDependenciesFirst(g, order, i, x);
    }
  }

  const EMPTY_WALK := Walk(map[], [])

  /** The traversal from scratch: either a full order, or a step on a cycle. */
  lemma TraversalIsExact(g: Steps, ids: seq<string>)
    requires Closed(g) && forall id :: id in ids <==> id in g
    ensures match VisitAll(g, EMPTY_WALK, ids)
      case Finished(v) =>
        && (forall id :: id in v.order <==> id in g)
        && Distinct(v.order) && DependenciesFirst(g, v.order)
        && (forall x :: !DependsOn(g, x, x))
      case Cyclic(c) => c in g && DependsOn(g, c, c)
  {
    VisitAllIsSound(g, EMPTY_WALK, ids);
    var r := VisitAll(g, EMPTY_WALK, ids);
    match r
    case Finished(v) =>
      forall id ensures id in v.order <==> id in g {
        assert id in v.order <==> v.IsDone(id);
        assert id in v.state ==> id in g;
      }
      forall x ensures !DependsOn(g, x, x) {
        if x in g {
          OrderExcludesCycles(g, v.order, x);
        } else {
          DependentIsAStep(g, x, x);
        }
      }
    case Cyclic(c) => DependentIsAStep(g, c, c);
  }

  // ---------------------------------------------------------------------
  // Only the set of dependencies matters
  // ---------------------------------------------------------------------

  /** The same steps, each with the same dependencies in any order and multiplicity. */
  predicate SameDependencySets(g: Steps, h: Steps) {
    && g.Keys == h.Keys
    && forall id :: id in g ==> SameElements(g[id].dependencies, h[id].dependencies)
  }

  predicate SameElements(s: seq<string>, t: seq<string>) {
    (forall x :: x in s ==> x in t) && (forall x :: x in t ==> x in s)
  }

  lemma {:induction false} VisitNodeIgnoresListing(g: Steps, h: Steps, w: Walk, id: string)
    requires Closed(g) && Closed(h) && SameDependencySets(g, h) && id in g
    ensures VisitNode(g, w, id) == VisitNode(h, w, id)
    decreases g.Keys - w.state.Keys, 0
  {
    if id !in w.state {
      assert id in g.Keys - w.state.Keys;
      SortedDistinctDependsOnElements(g[id].dependencies, h[id].dependencies);
      VisitAllIgnoresListing(g, h, w.(state := w.state[id := Visiting]), Neighbours(g, id));
    }
  }

  lemma {:induction false} VisitAllIgnoresListing(g: Steps, h: Steps, w: Walk, ids: seq<string>)
    requires Closed(g) && Closed(h) && SameDependencySets(g, h)
    requires forall id :: id in ids ==> id in g
    ensures VisitAll(g, w, ids) == VisitAll(h, w, ids)
    decreases g.Keys - w.state.Keys, 1 + |ids|
  {
    if ids != [] {
      VisitNodeIgnoresListing(g, h, w, ids[0]);
      var first := VisitNode(g, w, ids[0]);
      if first.Finished? {
        VisitAllIgnoresListing(g, h, first.walk, ids[1..]);
      }
    }
  }
}
