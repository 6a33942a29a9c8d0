/** The window registry of the compositor: stack order, workspaces and focus. */
module WindowRegistry {
  import opened Wrappers
  import opened ResourcePolicy

  type U8 = n: int | 0 <= n < 256 witness 0

  const WORKSPACE_COUNT: U8 := 4

  /** A surface is named by a number; its client may die at any time. */
  datatype Window = Window(id: U64, surface: nat, workspace: U8)

  // ---------------------------------------------------------------------
  // What the iterator chains compute
  // ---------------------------------------------------------------------

  function Retain(windows: seq<Window>, dead: set<nat>): seq<Window> {
    if windows == [] then []
    else (if windows[0].surface in dead then [] else [windows[0]]) + Retain(windows[1..], dead)
  }

  function OnWorkspace(windows: seq<Window>, workspace: U8): seq<Window> {
    if windows == [] then []
    else (if windows[0].workspace == workspace then [windows[0]] else []) + OnWorkspace(windows[1..], workspace)
  }

  /** `w` stands somewhere with no wanted window above it; `wanted` are the candidates by value. */
  predicate StandsAbove(windows: seq<Window>, w: Window, wanted: set<Window>) {
    exists i :: 0 <= i < |windows| && windows[i] == w && forall j :: i < j < |windows| ==> windows[j] !in wanted
  }

  /** The windows of a workspace, with a given id when there is one to look for. */
  function Wanted(windows: seq<Window>, workspace: U8, id: Option<U64>): set<Window> {
    set w | w in windows && w.workspace == workspace && (id.Some? ==> w.id == id.value)
  }

  function Under(windows: seq<Window>, workspace: U8, surfaces: set<nat>): set<Window> {
    set w | w in windows && w.workspace == workspace && w.surface in surfaces
  }

  function Topmost(windows: seq<Window>, workspace: U8, id: Option<U64>): (r: Option<Window>)
    ensures r.Some? ==> r.value in Wanted(windows, workspace, id)
    ensures r.Some? ==> StandsAbove(windows, r.value, Wanted(windows, workspace, id))
    ensures r.None? ==> Wanted(windows, workspace, id) == {}
  {
    if windows == [] then None
    else
      var n := |windows| - 1;
      assert windows == windows[..n] + [windows[n]];
      if windows[n].workspace == workspace && (id.Some? ==> windows[n].id == id.value) then Some(windows[n])
      else
        assert Wanted(windows, workspace, id) == Wanted(windows[..n], workspace, id);
        Topmost(windows[..n], workspace, id)
  }

  /** The topmost of the visible windows whose surface is under the pointer. */
  function TopmostHit(windows: seq<Window>, workspace: U8, surfaces: set<nat>): (r: Option<Window>)
    ensures r.Some? ==> r.value in Under(windows, workspace, surfaces)
    ensures r.Some? ==> StandsAbove(windows, r.value, Under(windows, workspace, surfaces))
    ensures r.None? ==> Under(windows, workspace, surfaces) == {}
  {
    if windows == [] then None
    else
      var n := |windows| - 1;
      assert windows == windows[..n] + [windows[n]];
      if windows[n].workspace == workspace && windows[n].surface in surfaces then Some(windows[n])
      else
        assert Under(windows, workspace, surfaces) == Under(windows[..n], workspace, surfaces);
        TopmostHit(windows[..n], workspace, surfaces)
  }

  lemma {:induction false} RetainKeepsTheLiving(windows: seq<Window>, dead: set<nat>)
    ensures forall w :: w in Retain(windows, dead) <==> w in windows && w.surface !in dead
    ensures Ascending(windows) ==> Ascending(Retain(windows, dead))
  {
    if windows != [] {
      RetainKeepsTheLiving(windows[1..], dead);
      assert windows == [windows[0]] + windows[1..];
      assert Ascending(windows) ==> Ascending(windows[1..]);
      assert Ascending(windows) ==> forall w :: w in windows[1..] ==> windows[0].id < w.id;
    }
  }

  predicate Ascending(windows: seq<Window>) {
    forall i, j :: 0 <= i < j < |windows| ==> windows[i].id < windows[j].id
  }

  // ---------------------------------------------------------------------
  // The registry
  // ---------------------------------------------------------------------

  datatype Registry = Registry(
    windows: seq<Window>, nextId: U64, active: U8, focused: Option<U64>, renderRequested: bool, dead: set<nat>)
  {
    function Register(surface: nat): Registry {
      Registry(windows + [Window(nextId, surface, active)], if nextId == U64_MAX then nextId else nextId + 1,
        active, Some(nextId), true, dead)
    }

    function Pruned(): Registry {
      var kept := Retain(windows, dead);
      this.(windows := kept,
        focused := if focused.Some? && !Holds(kept, focused.value) then None else focused)
    }

    function Visible(): seq<Window> { OnWorkspace(Pruned().windows, active) }

    /** The focused window, or else the topmost one of the active workspace. */
    function Keyboard(): Option<Window> {
      var named := if focused.Some? then Topmost(windows, active, focused) else None;
      if named.Some? then named else Topmost(windows, active, None)
    }

    function FocusedSurface(): Option<Window> { Pruned().Keyboard() }

    function FocusAt(under: set<nat>): Registry {
      var p := Pruned();
      var hit := TopmostHit(p.windows, active, under);
      if hit.Some? then p.(focused := Some(hit.value.id)) else p
    }

    function Switched(workspace: U8): Registry {
      var next := Clamped(workspace);
      var top := Topmost(windows, next, None);
      this.(active := next, focused := if top.Some? then Some(top.value.id) else None, renderRequested := true)
    }
  }

  predicate Holds(windows: seq<Window>, id: U64) {
    exists i :: 0 <= i < |windows| && windows[i].id == id
  }

  /** `clamp(1, WORKSPACE_COUNT)` */
  function Clamped(workspace: U8): U8 {
    if workspace < 1 then 1 else if workspace > WORKSPACE_COUNT then WORKSPACE_COUNT else workspace
  }

  const NEW_REGISTRY := Registry([], 1, 1, None, false, {})

  // ---------------------------------------------------------------------
  // Events and the invariant
  // ---------------------------------------------------------------------

  datatype Event =
    | Created(surface: nat)
    | Died(surface: nat)
    | Drawn
    | Typed
    | Clicked(under: set<nat>)
    | Switch(workspace: U8)

  function Step(r: Registry, e: Event): Registry {
    match e
    case Created(surface) => r.Register(surface)
    case Died(surface) => r.(dead := r.dead + {surface})
    case Drawn => r.Pruned()
    case Typed => r.Pruned()
    case Clicked(under) => r.FocusAt(under)
    case Switch(workspace) => r.Switched(workspace)
  }

  function Run(r: Registry, events: seq<Event>): Registry
    decreases events
  {
    if events == [] then r else Run(Step(r, events[0]), events[1..])
  }

  function Creations(events: seq<Event>): nat {
    if events == [] then 0 else (if events[0].Created? then 1 else 0) + Creations(events[1..])
  }

  predicate OnRealWorkspaces(windows: seq<Window>) {
    forall i :: 0 <= i < |windows| ==> 1 <= windows[i].workspace <= WORKSPACE_COUNT
  }

  predicate FocusIsHere(r: Registry) {
    r.focused.Some? ==>
      exists i :: 0 <= i < |r.windows| && r.windows[i].id == r.focused.value && r.windows[i].workspace == r.active
  }

  predicate IdsBelow(windows: seq<Window>, next: U64) {
    forall i :: 0 <= i < |windows| ==> windows[i].id < next
  }

  predicate Inv(r: Registry) {
    && Ascending(r.windows) && IdsBelow(r.windows, r.nextId)
    && 1 <= r.active <= WORKSPACE_COUNT && OnRealWorkspaces(r.windows)
    && FocusIsHere(r)
  }

  /** Of ascending ids, each names one window. */
  lemma IdsNameWindows(windows: seq<Window>, v: Window, w: Window)
    requires Ascending(windows) && v in windows && w in windows && v.id == w.id
    ensures v == w
  {
  }

  lemma PrunedKeepsInv(r: Registry)
    requires Inv(r)
    ensures Inv(r.Pruned())
  {
    RetainKeepsTheLiving(r.windows, r.dead);
    var kept := r.Pruned().windows;
    forall i | 0 <= i < |kept| ensures kept[i] in r.windows { assert kept[i] in kept; }
    if r.Pruned().focused.Some? {
      var i :| 0 <= i < |kept| && kept[i].id == r.focused.value;
      var j :| 0 <= j < |r.windows| && r.windows[j].id == r.focused.value && r.windows[j].workspace == r.active;
      IdsNameWindows(r.windows, kept[i], r.windows[j]);
    }
  }

  lemma NamedIsHere(r: Registry, w: Window)
    requires w in r.windows && w.workspace == r.active && r.focused == Some(w.id)
    ensures FocusIsHere(r)
  {
  }

  /** Every event keeps the invariant, up to the registration that uses the last id. */
  lemma StepKeepsInv(r: Registry, e: Event)
    requires Inv(r) && (e.Created? ==> r.nextId < U64_MAX)
    ensures Inv(Step(r, e))
  {
    PrunedKeepsInv(r);
    match e
    case Created(surface) =>
      assert r.Register(surface).windows[|r.windows|] == Window(r.nextId, surface, r.active);
    case Clicked(under) =>
      var p := r.Pruned();
      var hit := TopmostHit(p.windows, r.active, under);
      if hit.Some? { NamedIsHere(r.FocusAt(under), hit.value); }
    case Switch(workspace) =>
      var top := Topmost(r.windows, Clamped(workspace), None);
      if top.Some? { NamedIsHere(r.Switched(workspace), top.value); }
    case Died(_) =>
    case Drawn =>
    case Typed =>
  }

  lemma {:induction false} RunKeepsInv(r: Registry, events: seq<Event>)
    requires Inv(r) && r.nextId + Creations(events) <= U64_MAX
    ensures Inv(Run(r, events)) && Run(r, events).nextId == r.nextId + Creations(events)
    decreases events
  {
    if events != [] {
      StepKeepsInv(r, events[0]);
      RunKeepsInv(Step(r, events[0]), events[1..]);
    }
  }

  /** Over every sequence of events that creates fewer windows than there are ids. */
  lemma RegistryStaysConsistent(events: seq<Event>)
    requires Creations(events) < U64_MAX
    ensures var r := Run(NEW_REGISTRY, events);
      && Ascending(r.windows)
      && 1 <= r.active <= WORKSPACE_COUNT && OnRealWorkspaces(r.windows)
      && FocusIsHere(r)
  {
    RunKeepsInv(NEW_REGISTRY, events);
  }

  /** Once the counter is saturated, registering keeps the ids apart exactly if no window has the last one. */
  lemma SaturationRepeatsTheLastId(r: Registry, surface: nat)
    requires Ascending(r.windows) && (forall i :: 0 <= i < |r.windows| ==> r.windows[i].id <= r.nextId)
    ensures Ascending(r.Register(surface).windows) <==> !Holds(r.windows, r.nextId)
    ensures r.nextId == U64_MAX ==> !Ascending(r.Register(surface).Register(surface).windows)
  {
    var s := r.Register(surface);
    var n := |r.windows|;
    assert s.windows[n].id == r.nextId;
    if i :| 0 <= i < n && r.windows[i].id == r.nextId {
      assert s.windows[i].id == s.windows[n].id;
    }
    if r.nextId == U64_MAX {
      var t := s.Register(surface);
      assert t.windows[n].id == t.windows[n + 1].id;
    }
  }

  lemma {:induction false} RunThen(r: Registry, events: seq<Event>, e: Event)
    ensures Run(r, events + [e]) == Step(Run(r, events), e)
    decreases events
  {
    if events == [] {
      assert Run(Step(r, e), []) == Step(r, e);
    } else {
      assert (events + [e])[1..] == events[1..] + [e];
      RunThen(Step(r, events[0]), events[1..], e);
    }
  }

  /** Creating windows one after another hands out every id up to the last. */
  lemma {:induction false} EveryIdIsReached(n: U64) returns (events: seq<Event>)
    requires 1 <= n
    ensures Run(NEW_REGISTRY, events).nextId == n && Inv(Run(NEW_REGISTRY, events))
    decreases n
  {
    if n == 1 {
      events := [];
    } else {
      var earlier := EveryIdIsReached(n - 1);
      events := earlier + [Created(0)];
      RunThen(NEW_REGISTRY, earlier, Created(0));
      StepKeepsInv(Run(NEW_REGISTRY, earlier), Created(0));
    }
  }

  /** So some sequence of events makes two windows share an id. */
  lemma IdsDoRepeat()
    ensures exists events :: !Ascending(Run(NEW_REGISTRY, events).windows)
  {
    var events := EveryIdIsReached(U64_MAX);
    var r := Run(NEW_REGISTRY, events);
    RunThen(NEW_REGISTRY, events, Created(0));
    RunThen(NEW_REGISTRY, events + [Created(0)], Created(0));
    SaturationRepeatsTheLastId(r, 0);
    assert !Ascending(Run(NEW_REGISTRY, events + [Created(0)] + [Created(0)]).windows);
  }

  // ---------------------------------------------------------------------
  // What the queries answer
  // ---------------------------------------------------------------------

  /** Drawing shows live windows of the active workspace, all of them, in stack order. */
  lemma {:induction false} OnWorkspaceIsExact(windows: seq<Window>, workspace: U8)
    ensures forall w :: w in OnWorkspace(windows, workspace) <==> w in windows && w.workspace == workspace
    ensures Ascending(windows) ==> Ascending(OnWorkspace(windows, workspace))
  {
    if windows != [] {
      OnWorkspaceIsExact(windows[1..], workspace);
      assert windows == [windows[0]] + windows[1..];
      assert Ascending(windows) ==> Ascending(windows[1..]);
      assert Ascending(windows) ==> forall w :: w in windows[1..] ==> windows[0].id < w.id;
    }
  }

  function AllWorkspaces(windows: seq<Window>): multiset<Window> {
    multiset(OnWorkspace(windows, 1)) + multiset(OnWorkspace(windows, 2))
    + multiset(OnWorkspace(windows, 3)) + multiset(OnWorkspace(windows, 4))
  }

  /** The lists of the four workspaces partition the windows. */
  lemma {:induction false} WorkspacesPartition(windows: seq<Window>)
    requires OnRealWorkspaces(windows)
    ensures AllWorkspaces(windows) == multiset(windows)
  {
    if windows != [] {
      WorkspacesPartition(windows[1..]);
      assert windows == [windows[0]] + windows[1..];
      forall k: U8 | 1 <= k <= 4
        ensures multiset(OnWorkspace(windows, k))
          == multiset(OnWorkspace(windows[1..], k)) + (if windows[0].workspace == k then multiset{windows[0]} else multiset{})
      {
        OnWorkspaceStep(windows, k);
      }
    }
  }

  lemma OnWorkspaceStep(windows: seq<Window>, k: U8)
    requires windows != []
    ensures multiset(OnWorkspace(windows, k))
      == multiset(OnWorkspace(windows[1..], k)) + (if windows[0].workspace == k then multiset{windows[0]} else multiset{})
  {
  }

  lemma KeyboardIsExact(r: Registry)
    requires FocusIsHere(r)
    ensures r.Keyboard().None? ==> forall w :: w in r.windows ==> w.workspace != r.active
    ensures r.Keyboard().Some? ==> r.Keyboard().value in r.windows && r.Keyboard().value.workspace == r.active
    ensures r.focused.Some? ==> r.Keyboard().Some? && r.Keyboard().value.id == r.focused.value
  {
    assert forall w :: w in r.windows && w.workspace == r.active ==> w in Wanted(r.windows, r.active, None);
    if r.focused.Some? {
      var i :| 0 <= i < |r.windows| && r.windows[i].id == r.focused.value && r.windows[i].workspace == r.active;
      assert r.windows[i] in Wanted(r.windows, r.active, r.focused);
    }
  }

  lemma VisibleIsExact(windows: seq<Window>, workspace: U8)
    ensures OnWorkspace(windows, workspace) == [] <==> forall w :: w in windows ==> w.workspace != workspace
  {
  }

  /**
   * The keyboard goes to a live window of the active workspace, the focused one when it lives,
   * and to nobody exactly when the workspace has no live window.
   */
  lemma FocusedSurfaceIsExact(r: Registry)
    requires Inv(r)
    ensures var w := r.FocusedSurface();
      && (w.Some? <==> r.Visible() != [])
      && (w.Some? ==> w.value in r.windows && w.value.surface !in r.dead && w.value.workspace == r.active)
      && (r.Pruned().focused.Some? ==> w.Some? && w.value.id == r.Pruned().focused.value)
  {
    PrunedKeepsInv(r);
    KeyboardIsExact(r.Pruned());
    VisibleIsExact(r.Pruned().windows, r.active);
    RetainKeepsTheLiving(r.windows, r.dead);
  }

  /** A window with nothing wanted above it is the youngest of the wanted ones. */
  lemma TopmostIsYoungest(windows: seq<Window>, w: Window, wanted: set<Window>, x: Window)
    requires Ascending(windows) && StandsAbove(windows, w, wanted) && x in wanted && x in windows
    ensures x.id <= w.id
  {
    var i :| 0 <= i < |windows| && windows[i] == w && forall j :: i < j < |windows| ==> windows[j] !in wanted;
    var k :| 0 <= k < |windows| && windows[k] == x;
    assert k <= i;
  }

  /** A live window that has the focus gets the keyboard. */
  lemma FocusedGetsKeyboard(r: Registry, w: Window)
    requires Inv(r) && w in r.windows && w.surface !in r.dead && r.focused == Some(w.id)
    ensures r.FocusedSurface() == Some(w)
  {
    RetainKeepsTheLiving(r.windows, r.dead);
    var kept := r.Pruned().windows;
    assert w in kept;
    var i :| 0 <= i < |kept| && kept[i] == w;
    assert Holds(kept, w.id);
    FocusedSurfaceIsExact(r);
    IdsNameWindows(r.windows, r.FocusedSurface().value, w);
  }

  /** A new window gets the keyboard. */
  lemma NewWindowGetsKeyboard(r: Registry, surface: nat)
    requires Inv(r) && r.nextId < U64_MAX && surface !in r.dead
    ensures Step(r, Created(surface)).FocusedSurface() == Some(Window(r.nextId, surface, r.active))
  {
    StepKeepsInv(r, Created(surface));
    FocusedGetsKeyboard(r.Register(surface), r.Register(surface).windows[|r.windows|]);
  }

  /** A click gives the keyboard to the topmost live visible window under the pointer. */
  lemma ClickedWindowGetsKeyboard(r: Registry, under: set<nat>, x: Window)
    requires Inv(r) && x in r.windows && x.surface !in r.dead && x.workspace == r.active && x.surface in under
    ensures var w := Step(r, Clicked(under)).FocusedSurface();
      w.Some? && w.value.surface in under && w.value.workspace == r.active && x.id <= w.value.id
  {
    StepKeepsInv(r, Clicked(under));
    PrunedKeepsInv(r);
    RetainKeepsTheLiving(r.windows, r.dead);
    var windows := r.Pruned().windows;
    assert x in Under(windows, r.active, under);
    var hit := TopmostHit(windows, r.active, under).value;
    TopmostIsYoungest(windows, hit, Under(windows, r.active, under), x);
    FocusedGetsKeyboard(r.FocusAt(under), hit);
  }

  /** A click that hits no live visible window only prunes: focus and keyboard stay where they are. */
  lemma MissedClickChangesNothing(r: Registry, under: set<nat>)
    requires forall w :: w in r.windows && w.workspace == r.active && w.surface !in r.dead ==> w.surface !in under
    ensures Step(r, Clicked(under)) == r.Pruned()
  {
    RetainKeepsTheLiving(r.windows, r.dead);
    assert Under(r.Pruned().windows, r.active, under) == {};
  }

  /** Pruning again changes nothing, and keeps the focus of a window that lives. */
  lemma PruningKeepsLiveFocus(r: Registry)
    ensures r.Pruned().focused == if r.focused.Some? && Holds(Retain(r.windows, r.dead), r.focused.value) then r.focused else None
    ensures r.Pruned().Pruned() == r.Pruned()
  {
    RetainKeepsTheLiving(r.windows, r.dead);
    LivingAreRetained(Retain(r.windows, r.dead), r.dead);
  }

  lemma {:induction false} LivingAreRetained(windows: seq<Window>, dead: set<nat>)
    requires forall w :: w in windows ==> w.surface !in dead
    ensures Retain(windows, dead) == windows
  {
    if windows != [] {
      assert windows[0] in windows && forall w :: w in windows[1..] ==> w in windows;
      LivingAreRetained(windows[1..], dead);
      assert windows == [windows[0]] + windows[1..];
    }
  }

  /** A redraw is asked for exactly by new windows and switches, and nothing else changes workspace or adds windows. */
  lemma EventsChangeWhatTheyShould(r: Registry, e: Event)
    ensures var t := Step(r, e);
      && (t.renderRequested <==> r.renderRequested || e.Created? || e.Switch?)
      && (t.active == if e.Switch? then Clamped(e.workspace) else r.active)
      && (e.Created? ==> t.windows == r.windows + [Window(r.nextId, e.surface, r.active)])
      && (e.Died? || e.Switch? ==> t.windows == r.windows)
      && (e.Drawn? || e.Typed? || e.Clicked? ==> t.windows == Retain(r.windows, r.dead))
  {
  }

  /** After a switch the keyboard goes to the topmost live window of the new workspace. */
  lemma SwitchedWorkspaceGetsKeyboard(r: Registry, workspace: U8, x: Window)
    requires Inv(r) && x in r.windows && x.surface !in r.dead && x.workspace == Clamped(workspace)
    ensures var w := Step(r, Switch(workspace)).FocusedSurface();
      w.Some? && w.value.workspace == Clamped(workspace) && x.id <= w.value.id
  {
    StepKeepsInv(r, Switch(workspace));
    var t, k := r.Switched(workspace), Clamped(workspace);
    RetainKeepsTheLiving(r.windows, r.dead);
    var kept := Retain(r.windows, r.dead);
    assert x in Wanted(r.windows, k, None) && x in Wanted(kept, k, None);
    var top := Topmost(r.windows, k, None).value;
    if top.surface in r.dead {
      assert forall w :: w in kept ==> w.surface !in r.dead;
      DeadFocusIsDropped(t, top);
      TopmostIsYoungest(kept, Topmost(kept, k, None).value, Wanted(kept, k, None), x);
    } else {
      TopmostIsYoungest(r.windows, top, Wanted(r.windows, k, None), x);
      FocusedGetsKeyboard(t, top);
    }
  }

  lemma DeadFocusIsDropped(r: Registry, w: Window)
    requires Inv(r) && w in r.windows && w.surface in r.dead && r.focused == Some(w.id)
    ensures r.Pruned().focused.None?
  {
    RetainKeepsTheLiving(r.windows, r.dead);
    var kept := r.Pruned().windows;
    if i :| 0 <= i < |kept| && kept[i].id == w.id {
      assert kept[i] in kept;
      IdsNameWindows(r.windows, kept[i], w);
    }
  }

  // ---------------------------------------------------------------------
  // The compositor object
  // ---------------------------------------------------------------------

  class App {
    var windows: seq<Window>
    var nextWindowId: U64
    var activeWorkspace: U8
    var focusedWindow: Option<U64>
    var renderRequested: bool
    ghost var dead: set<nat>

    ghost function Value(): Registry
      reads this
    {
      Registry(windows, nextWindowId, activeWorkspace, focusedWindow, renderRequested, dead)
    }

    constructor ()
      ensures Value() == NEW_REGISTRY
    {
      windows, nextWindowId, activeWorkspace, focusedWindow, renderRequested := [], 1, 1, None, false;
      dead := {};
    }

    method RegisterWindow(surface: nat)
      modifies this
      ensures Value() == old(Value()).Register(surface)
    {
      var id := nextWindowId;
      nextWindowId := if nextWindowId < U64_MAX then nextWindowId + 1 else U64_MAX;
      windows := windows + [Window(id, surface, activeWorkspace)];
      focusedWindow := Some(id);
      renderRequested := true;
    }

    /** `gone` is what the display server reports as not alive. */
    method PruneWindows(gone: set<nat>)
      requires gone == dead
      modifies this`windows, this`focusedWindow
      ensures Value() == old(Value()).Pruned()
    {
      windows := Retain(windows, gone);
      if focusedWindow.Some? && !Holds(windows, focusedWindow.value) { focusedWindow := None; }
    }

    method VisibleWindows(gone: set<nat>) returns (visible: seq<Window>)
      requires gone == dead
      modifies this`windows, this`focusedWindow
      ensures Value() == old(Value()).Pruned() && visible == old(Value()).Visible()
    {
      PruneWindows(gone);
      visible := OnWorkspace(windows, activeWorkspace);
    }

    method FocusedSurface(gone: set<nat>) returns (window: Option<Window>)
      requires gone == dead
      modifies this`windows, this`focusedWindow
      ensures Value() == old(Value()).Pruned() && window == old(Value()).FocusedSurface()
    {
      PruneWindows(gone);
      window := None;
      if focusedWindow.Some? { window := Topmost(windows, activeWorkspace, focusedWindow); }
      if window.None? { window := Topmost(windows, activeWorkspace, None); }
    }

    method FocusWindowAt(gone: set<nat>, under: set<nat>)
      requires gone == dead
      modifies this`windows, this`focusedWindow
      ensures Value() == old(Value()).FocusAt(under)
    {
      PruneWindows(gone);
      var hit := TopmostHit(windows, activeWorkspace, under);
      if hit.Some? { focusedWindow := Some(hit.value.id); }
    }

    method SwitchWorkspace(workspace: U8)
      modifies this
      ensures Value() == old(Value()).Switched(workspace)
    {
      activeWorkspace := if workspace < 1 then 1 else if workspace > WORKSPACE_COUNT then WORKSPACE_COUNT else workspace;
      var top := Topmost(windows, activeWorkspace, None);
      focusedWindow := if top.Some? then Some(top.value.id) else None;
      renderRequested := true;
    }
  }
}
