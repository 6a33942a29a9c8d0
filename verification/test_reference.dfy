/** The order of a plan by an independent description: the dependency tree written out, first mentions kept. */
module TestReference {
  import opened Wrappers
  import opened StringOrder
  import opened ResourcePolicy
  import opened TestPlanning
  import opened TestPlans

  // ---------------------------------------------------------------------
  // The description
  // ---------------------------------------------------------------------

  /** The dependencies of every step, each once, in ascending order of their names. */
  type Listing = map<string, seq<string>>

  ghost predicate Lists(l: Listing, g: Steps) {
    && l.Keys == g.Keys
    && forall id {:trigger ListsStep(l, g, id)} :: id in g ==> ListsStep(l, g, id)
  }

  ghost predicate ListsStep(l: Listing, g: Steps, id: string)
    requires id in l && id in g
  {
    Ascending(l[id]) && SameElements(l[id], g[id].dependencies)
  }

  /** A step after everything it needs, written out down to the given depth, repetitions included. */
  function Unfold(l: Listing, id: string, depth: nat): seq<string>
    decreases depth, 0
  {
    if depth == 0 || id !in l then [] else UnfoldAll(l, l[id], depth - 1) + [id]
  }

  function UnfoldAll(l: Listing, ids: seq<string>, depth: nat): seq<string>
    decreases depth, 1 + |ids|
  {
    if ids == [] then [] else Unfold(l, ids[0], depth) + UnfoldAll(l, ids[1..], depth)
  }

  /** Entries are added the first time they are mentioned. */
  function Merge(order: seq<string>, mentions: seq<string>): seq<string>
    decreases mentions
  {
    if mentions == [] then order
    else Merge(if mentions[0] in order then order else order + [mentions[0]], mentions[1..])
  }

  predicate Adds(order: seq<string>, mentions: seq<string>, after: seq<string>) { after == Merge(order, mentions) }

  lemma {:induction false} MergeJoins(order: seq<string>, a: seq<string>, b: seq<string>)
    ensures Merge(order, a + b) == Merge(Merge(order, a), b)
    decreases a
  {
    if a == [] {
      assert a + b == b;
    } else {
      assert (a + b)[1..] == a[1..] + b;
      MergeJoins(if a[0] in order then order else order + [a[0]], a[1..], b);
    }
  }

  lemma {:induction false} MergeOfKnown(order: seq<string>, mentions: seq<string>)
    requires forall x :: x in mentions ==> x in order
    ensures Merge(order, mentions) == order
    decreases mentions
  {
    if mentions != [] { MergeOfKnown(order, mentions[1..]); }
  }

  // ---------------------------------------------------------------------
  // The traversal is the description
  // ---------------------------------------------------------------------

  lemma ListingIsNeighbours(g: Steps, l: Listing, id: string)
    requires Lists(l, g) && id in g
    ensures l[id] == Neighbours(g, id)
  {
    assert ListsStep(l, g, id);
    SortedDistinctKeepsElements(g[id].dependencies);
    AscendingListingIsUnique(l[id], Neighbours(g, id));
  }

  /** Only the step and what it needs is mentioned. */
  lemma {:induction false} UnfoldIsNeeded(g: Steps, l: Listing, id: string, depth: nat, x: string)
    requires Lists(l, g) && x in Unfold(l, id, depth)
    ensures x == id || DependsOn(g, id, x)
    decreases depth, 0
  {
    if x != id {
      assert ListsStep(l, g, id);
      var d := UnfoldAllIsNeeded(g, l, l[id], depth - 1, x);
      EdgeIsDependency(g, id, d);
      if d != x { DependsOnIsTransitive(g, id, d, x); }
    }
  }

  lemma {:induction false} UnfoldAllIsNeeded(g: Steps, l: Listing, ids: seq<string>, depth: nat, x: string) returns (d: string)
    requires Lists(l, g) && x in UnfoldAll(l, ids, depth)
    ensures d in ids && (x == d || DependsOn(g, d, x))
    decreases depth, 1 + |ids|
  {
    if x in Unfold(l, ids[0], depth) {
      UnfoldIsNeeded(g, l, ids[0], depth, x);
      d := ids[0];
    } else {
      d := UnfoldAllIsNeeded(g, l, ids[1..], depth, x);
    }
  }

  lemma FinishedMentionsAreKnown(g: Steps, l: Listing, w: Walk, id: string, depth: nat)
    requires Lists(l, g) && Sound(g, w) && w.IsDone(id)
    ensures Adds(w.order, Unfold(l, id, depth), w.order)
  {
    var i :| 0 <= i < |w.order| && w.order[i] == id;
    forall x | x in Unfold(l, id, depth) ensures x in w.order {
      UnfoldIsNeeded(g, l, id, depth, x);
      if x != id { TransitiveDependenciesFirst(g, w.order, i, x); }
    }
    MergeOfKnown(w.order, Unfold(l, id, depth));
  }

  /** Steps not yet reached; more than this depth is never needed. */
  function Unreached(g: Steps, w: Walk): set<string> { g.Keys - w.state.Keys }

  /** A sound state from which `ids` can be visited, with a depth that suffices. */
  ghost predicate Ready(g: Steps, l: Listing, w: Walk, ids: seq<string>, depth: nat) {
    && Closed(g) && Lists(l, g) && Sound(g, w) && depth >= |Unreached(g, w)|
    && forall id :: id in ids ==> id in g && StackLeadsTo(g, w, id)
  }

  /** What a new node's visit appends: what its dependencies append, and then itself. */
  lemma NewNodeComesLast(g: Steps, l: Listing, w: Walk, id: string, depth: nat)
    returns (entered: Walk, v: Walk, below: nat)
    requires id !in w.state && id in [id] && Ready(g, l, w, [id], depth) && VisitNode(g, w, id).Finished?
    ensures depth == below + 1 && Ready(g, l, entered, l[id], below) && entered.order == w.order
    ensures VisitAll(g, entered, l[id]) == Finished(v)
    ensures id !in v.order && VisitNode(g, w, id).walk.order == v.order + [id]
  {
    entered := w.(state := w.state[id := Visiting]);
    assert id in g.Keys - w.state.Keys;
    EnteredIsSound(g, w, id);
    VisitAllIsSound(g, entered, Neighbours(g, id));
    ListingIsNeighbours(g, l, id);
    OneLessUnreached(g, w, id);
    below := depth - 1;
    v := VisitAll(g, entered, Neighbours(g, id)).walk;
    assert entered.IsVisiting(id) && v.IsVisiting(id);
  }

  lemma MentionedLast(l: Listing, order: seq<string>, id: string, depth: nat, below: nat, inner: seq<string>, after: seq<string>)
    requires id in l && depth == below + 1 && Adds(order, UnfoldAll(l, l[id], below), inner) && id !in inner
    requires after == inner + [id]
    ensures Adds(order, Unfold(l, id, depth), after)
  {
    MergeJoins(order, UnfoldAll(l, l[id], below), [id]);
    assert Merge(inner + [id], []) == inner + [id];
  }

  lemma OneLessUnreached(g: Steps, w: Walk, id: string)
    requires id in g && id !in w.state
    ensures |Unreached(g, w.(state := w.state[id := Visiting]))| == |Unreached(g, w)| - 1
  {
    assert id in Unreached(g, w);
    assert Unreached(g, w.(state := w.state[id := Visiting])) == Unreached(g, w) - {id};
  }

  lemma {:induction false} VisitNodeUnfolds(g: Steps, l: Listing, w: Walk, id: string, depth: nat)
    requires Ready(g, l, w, [id], depth) && id in [id] && VisitNode(g, w, id).Finished?
    ensures Adds(w.order, Unfold(l, id, depth), VisitNode(g, w, id).walk.order)
    decreases depth, 0
  {
    if id in w.state {
      FinishedMentionsAreKnown(g, l, w, id, depth);
    } else {
      var entered, v, below := NewNodeComesLast(g, l, w, id, depth);
      VisitAllUnfolds(g, l, entered, l[id], below);
      MentionedLast(l, w.order, id, depth, below, v.order, VisitNode(g, w, id).walk.order);
    }
  }

  lemma {:induction false} VisitAllUnfolds(g: Steps, l: Listing, w: Walk, ids: seq<string>, depth: nat)
    requires Ready(g, l, w, ids, depth) && VisitAll(g, w, ids).Finished?
    ensures Adds(w.order, UnfoldAll(l, ids, depth), VisitAll(g, w, ids).walk.order)
    decreases depth, 1 + |ids|
  {
    if ids != [] {
      var v := VisitInSteps(g, l, w, ids, depth);
      VisitNodeUnfolds(g, l, w, ids[0], depth);
      VisitAllUnfolds(g, l, v, ids[1..], depth);
      MergeJoins(w.order, Unfold(l, ids[0], depth), UnfoldAll(l, ids[1..], depth));
    }
  }

  lemma VisitInSteps(g: Steps, l: Listing, w: Walk, ids: seq<string>, depth: nat) returns (v: Walk)
    requires ids != [] && Ready(g, l, w, ids, depth) && VisitAll(g, w, ids).Finished?
    ensures ids[0] in [ids[0]] && Ready(g, l, w, [ids[0]], depth) && Ready(g, l, v, ids[1..], depth)
    ensures VisitNode(g, w, ids[0]) == Finished(v) && VisitAll(g, v, ids[1..]) == VisitAll(g, w, ids)
  {
    VisitNodeIsSound(g, w, ids[0]);
    v := VisitNode(g, w, ids[0]).walk;
    forall id | id in ids[1..] ensures id in g && StackLeadsTo(g, v, id) {
      assert id in ids && StackLeadsTo(g, w, id);
    }
    assert Unreached(g, v) <= Unreached(g, w);
    FewerUnreached(g, w, v);
  }

  lemma FewerUnreached(g: Steps, w: Walk, v: Walk)
    requires Unreached(g, v) <= Unreached(g, w)
    ensures |Unreached(g, v)| <= |Unreached(g, w)|
  {
    var gone := Unreached(g, w) - Unreached(g, v);
    assert Unreached(g, w) == Unreached(g, v) + gone;
  }

  lemma {:induction false} IndexIsSmall(steps: seq<TestStep>)
    ensures |IndexSteps(steps).Keys| <= |steps|
  {
    if steps != [] {
      var n := |steps| - 1;
      IndexIsSmall(steps[..n]);
      assert IndexSteps(steps).Keys == IndexSteps(steps[..n]).Keys + {steps[n].id};
    }
  }

  /**
   * The order of a plan is its dependency trees written out, one listed step after the other, each
   * step after its dependencies in ascending order of their names, with first mentions kept.
   */
  lemma {:induction false} OrderIsUnfolding(steps: seq<TestStep>, l: Listing, depth: nat)
    requires OrderOf(steps).Ok? && Lists(l, IndexSteps(steps)) && depth >= |steps|
    ensures OrderOf(steps).value == Merge([], UnfoldAll(l, Ids(steps), depth))
  {
    var g := IndexSteps(steps);
    ValidationIsExact(steps);
    KnownDependenciesCloseGraph(steps);
    IndexIsSmall(steps);
    assert Unreached(g, EMPTY_WALK) == g.Keys;
    VisitAllUnfolds(g, l, EMPTY_WALK, Ids(steps), depth);
  }

  /** Every plan has such a listing. */
  lemma SomeListing(g: Steps) returns (l: Listing)
    ensures Lists(l, g)
  {
    l := map id | id in g :: SortedDistinct(g[id].dependencies);
    forall id | id in g ensures ListsStep(l, g, id) {
      SortedDistinctKeepsElements(g[id].dependencies);
    }
  }

  // ---------------------------------------------------------------------
  // Dependencies of one step
  // ---------------------------------------------------------------------

  /** Something `x` needs directly, not after `b` by name, needs `c`. */
  ghost predicate NeededBySibling(g: Steps, x: string, b: string, c: string) {
    exists d :: Edge(g, x, d) && (d == b || Before(d, b)) && DependsOn(g, d, c)
  }

  /** Splits an ascending listing after an entry. */
  lemma AscendingSplit(s: seq<string>, b: string) returns (k: nat)
    requires Ascending(s) && b in s
    ensures 0 < k <= |s| && s[k - 1] == b
    ensures forall d :: d in s[..k] ==> d == b || Before(d, b)
  {
    var i :| 0 <= i < |s| && s[i] == b;
    k := i + 1;
    forall d | d in s[..k] ensures d == b || Before(d, b) {
      var j :| 0 <= j < k && s[j] == d;
    }
  }

  /** A visit of a list is a visit of its beginning and of the rest, each sound by itself. */
  lemma VisitInTwo(g: Steps, w: Walk, ids: seq<string>, k: nat) returns (v: Walk)
    requires Closed(g) && (forall id :: id in ids ==> id in g) && Sound(g, w) && k <= |ids|
    requires forall id :: id in ids ==> StackLeadsTo(g, w, id)
    requires VisitAll(g, w, ids).Finished?
    ensures VisitAll(g, w, ids[..k]) == Finished(v) && VisitAll(g, v, ids[k..]) == VisitAll(g, w, ids)
    ensures Extends(g, w, v, ids[..k]) && Extends(g, v, VisitAll(g, w, ids).walk, ids[k..])
  {
    var a, rest := ids[..k], ids[k..];
    assert ids == a + rest;
    forall id | id in a || id in rest ensures id in ids {}
    VisitAllSplits(g, w, a, rest);
    VisitAllIsSound(g, w, a);
    v := VisitAll(g, w, a).walk;
    forall d | d in rest ensures StackLeadsTo(g, v, d) {
      assert d in ids && StackLeadsTo(g, w, d);
    }
    VisitAllIsSound(g, v, rest);
  }

  /**
   * From any state in which `x` is entered and `c` is not finished: of two dependencies of `x`,
   * the one later by name comes first only if something visited up to the other needs it.
   */
  lemma SiblingsInNameOrder(g: Steps, w: Walk, x: string, b: string, c: string, p: nat, q: nat)
    requires Closed(g) && x in g && x !in w.state && Sound(g, w) && StackLeadsTo(g, w, x)
    requires VisitNode(g, w, x).Finished?
    requires Edge(g, x, b) && Edge(g, x, c) && Before(b, c) && c !in w.order
    requires p < q < |VisitNode(g, w, x).walk.order|
    requires VisitNode(g, w, x).walk.order[p] == c && VisitNode(g, w, x).walk.order[q] == b
    ensures NeededBySibling(g, x, b, c)
  {
    var entered, next := w.(state := w.state[x := Visiting]), Neighbours(g, x);
    EnteredIsSound(g, w, x);
    VisitNodeIsSound(g, w, x);
    SortedDistinctKeepsElements(g[x].dependencies);
    var k := AscendingSplit(next, b);
    var v := VisitInTwo(g, entered, next, k);
    FinishedEarly(g, entered, v, VisitAll(g, entered, next).walk, VisitNode(g, w, x).walk, next[..k], next[k..], x, b, c, p, q);
  }

  lemma FinishedEarly(
    g: Steps, entered: Walk, v: Walk, u: Walk, all: Walk, a: seq<string>, rest: seq<string>,
    x: string, b: string, c: string, p: nat, q: nat)
    requires Extends(g, entered, v, a) && Extends(g, v, u, rest) && all.order == u.order + [x]
    requires Distinct(all.order) && b in a && !entered.IsDone(c) && Before(b, c)
    requires forall d :: d in a ==> Edge(g, x, d) && (d == b || Before(d, b))
    requires p < q < |all.order| && all.order[p] == c && all.order[q] == b
    ensures NeededBySibling(g, x, b, c)
  {
    assert v.IsDone(b) && b in v.order;
    PrefixHoldsEarlierEntries(all.order, v.order, b, q, p);
    assert c in v.order && v.IsDone(c);
    var i :| 0 <= i < |a| && (a[i] == c || DependsOn(g, a[i], c));
    assert a[i] in a;
    BeforeIsTotal(b, c);
    if a[i] == c {
      BeforeIsTotal(c, b);
      assert false;
    }
  }

  /**
   * In the order of a plan: of two dependencies of a listed step that neither it nor the later of
   * them is needed by a step listed before, the one later by name comes first only if something
   * up to the other needs it.
   */
  lemma {:induction false} DependenciesInNameOrder(steps: seq<TestStep>, i: nat, b: string, c: string, p: nat, q: nat)
    requires OrderOf(steps).Ok? && i < |steps|
    requires var g := IndexSteps(steps);
      && Edge(g, steps[i].id, b) && Edge(g, steps[i].id, c) && Before(b, c)
      && !Needed(g, Ids(steps)[..i], steps[i].id) && !Needed(g, Ids(steps)[..i], c)
    requires p < q < |OrderOf(steps).value| && OrderOf(steps).value[p] == c && OrderOf(steps).value[q] == b
    ensures NeededBySibling(IndexSteps(steps), steps[i].id, b, c)
  {
    var g, ids := IndexSteps(steps), Ids(steps);
    ValidationIsExact(steps);
    KnownDependenciesCloseGraph(steps);
    ListedDependencies(g, ids, i, b, c, p, q);
  }

  /** What an earlier listed step does not need is not yet reached. */
  lemma NotYetReached(g: Steps, w: Walk, ids: seq<string>, x: string)
    requires Extends(g, EMPTY_WALK, w, ids) && !Needed(g, ids, x)
    ensures x !in w.state && x !in w.order
  {
    assert !EMPTY_WALK.IsDone(x) && !EMPTY_WALK.IsVisiting(x);
    assert !w.IsDone(x) && !w.IsVisiting(x);
  }

  lemma NobodyIsVisiting(g: Steps, w: Walk, ids: seq<string>, x: string)
    requires Extends(g, EMPTY_WALK, w, ids)
    ensures StackLeadsTo(g, w, x)
  {
    assert forall v :: w.IsVisiting(v) ==> EMPTY_WALK.IsVisiting(v);
  }

  lemma ListedDependencies(g: Steps, ids: seq<string>, i: nat, b: string, c: string, p: nat, q: nat)
    requires Closed(g) && (forall id :: id in ids ==> id in g) && i < |ids| && VisitAll(g, EMPTY_WALK, ids).Finished?
    requires Edge(g, ids[i], b) && Edge(g, ids[i], c) && Before(b, c)
    requires !Needed(g, ids[..i], ids[i]) && !Needed(g, ids[..i], c)
    requires var order := VisitAll(g, EMPTY_WALK, ids).walk.order;
      p < q < |order| && order[p] == c && order[q] == b
    ensures NeededBySibling(g, ids[i], b, c)
  {
    var w, v := VisitUpTo(g, ids, i);
    var rest := ids[i + 1..];
    BothAreEarly(g, w, v, VisitAll(g, EMPTY_WALK, ids).walk, rest, ids[i], b, p, q);
    NotYetReached(g, w, ids[..i], ids[i]);
    NotYetReached(g, w, ids[..i], c);
    NobodyIsVisiting(g, w, ids[..i], ids[i]);
    SiblingsInNameOrder(g, w, ids[i], b, c, p, q);
  }

  /** The visit of a list passes through the visit of each of its entries. */
  lemma VisitUpTo(g: Steps, ids: seq<string>, i: nat) returns (w: Walk, v: Walk)
    requires Closed(g) && (forall id :: id in ids ==> id in g) && i < |ids| && VisitAll(g, EMPTY_WALK, ids).Finished?
    ensures Extends(g, EMPTY_WALK, w, ids[..i]) && VisitNode(g, w, ids[i]) == Finished(v)
    ensures Extends(g, w, v, [ids[i]]) && Extends(g, v, VisitAll(g, EMPTY_WALK, ids).walk, ids[i + 1..])
  {
    var rest := ids[i..];
    w := VisitInTwo(g, EMPTY_WALK, ids, i);
    forall id ensures StackLeadsTo(g, w, id) { NobodyIsVisiting(g, w, ids[..i], id); }
    forall id | id in rest ensures id in g { assert id in ids; }
    v := VisitInTwo(g, w, rest, 1);
    assert rest[..1] == [ids[i]] && rest[1..] == ids[i + 1..];
    VisitOfOne(g, w, ids[i], v);
  }

  lemma VisitOfOne(g: Steps, w: Walk, x: string, v: Walk)
    requires Closed(g) && x in g && VisitAll(g, w, [x]) == Finished(v)
    ensures VisitNode(g, w, x) == Finished(v)
  {
    var r := VisitNode(g, w, x);
    assert [x][1..] == [];
    if r.Finished? { assert VisitAll(g, r.walk, []) == Finished(r.walk); }
  }

  lemma BothAreEarly(g: Steps, w: Walk, v: Walk, u: Walk, rest: seq<string>, x: string, b: string, p: nat, q: nat)
    requires Extends(g, w, v, [x]) && Extends(g, v, u, rest) && Edge(g, x, b)
    requires p < q < |u.order| && u.order[q] == b
    ensures q < |v.order| && v.order[q] == b && v.order[p] == u.order[p]
  {
    assert x in [x] && v.IsDone(x) && x in v.order;
    var i :| 0 <= i < |v.order| && v.order[i] == x;
    assert b in v.order[..i];
    var j :| 0 <= j < i && v.order[j] == b;
    assert u.order[j] == b;
  }
}
