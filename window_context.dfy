/**
 The window store: its initial state and the reducer that maps a state and
 one action to the next state, with the properties each action guarantees.
 */
module WindowContext {
  import opened Wrappers
  import opened Lists
  import opened WindowTypes

  /** The store is empty on load. */
  function InitialState(): WindowState
  {
    WindowState([], None, 0)
  }

  /** The window OPEN_WINDOW builds from its payload, placed at z-order `z`. */
  function NewWindow(spec: WindowSpec, z: int): Window
  {
    Window(spec.id, spec.appId, spec.title, false, false, z, spec.position, spec.size, spec.isSettings)
  }

  /** `ws.map(w => w.id === id ? f(w) : w)` */
  function UpdateWhere(ws: seq<Window>, id: string, f: Window -> Window): seq<Window>
  {
    Map(ws, (w: Window) => if w.id == id then f(w) else w)
  }

  lemma UpdateWherePointwise(ws: seq<Window>, id: string, f: Window -> Window)
    ensures |UpdateWhere(ws, id, f)| == |ws|
    ensures forall i :: 0 <= i < |ws| ==>
      UpdateWhere(ws, id, f)[i] == if ws[i].id == id then f(ws[i]) else ws[i]
  {
    MapPointwise(ws, (w: Window) => if w.id == id then f(w) else w);
  }

  /** The reducer: one transition of the store. */
  function Reduce(s: WindowState, a: WindowAction): WindowState
  {
    match a
    case OpenWindow(spec) =>
      var z := s.maxZIndex + 1;
      s.(windows := s.windows + [NewWindow(spec, z)], activeWindowId := Some(spec.id), maxZIndex := z)
    case CloseWindow(id) =>
      s.(windows := Filter(s.windows, (w: Window) => w.id != id),
         activeWindowId := if s.activeWindowId == Some(id) then None else s.activeWindowId)
    case MinimizeWindow(id) =>
      s.(windows := UpdateWhere(s.windows, id, (w: Window) => w.(isMinimized := true)))
    case MaximizeWindow(id) =>
      s.(windows := UpdateWhere(s.windows, id, (w: Window) => w.(isMaximized := true)))
    case RestoreWindow(id) =>
      s.(windows := UpdateWhere(s.windows, id, (w: Window) => w.(isMinimized := false, isMaximized := false)))
    case UpdateWindowPosition(id, p) =>
      s.(windows := UpdateWhere(s.windows, id, (w: Window) => w.(position := p)))
    case UpdateWindowSize(id, sz) =>
      s.(windows := UpdateWhere(s.windows, id, (w: Window) => w.(size := sz)))
    case FocusWindow(id) =>
      var z := s.maxZIndex + 1;
      s.(windows := UpdateWhere(s.windows, id, (w: Window) => w.(zIndex := z)),
         activeWindowId := Some(id), maxZIndex := z)
    case Unrecognized(_) =>
      s
  }

  /** Dispatching a sequence of actions, in order. */
  function ReduceAll(s: WindowState, actions: seq<WindowAction>): WindowState
    decreases |actions|
  {
    if actions == [] then s else ReduceAll(Reduce(s, actions[0]), actions[1..])
  }

  lemma ReduceAllOne(s: WindowState, a: WindowAction)
    ensures ReduceAll(s, [a]) == Reduce(s, a)
  {
    assert [a][1..] == [];
  }

  lemma ReduceAllTwo(s: WindowState, a: WindowAction, b: WindowAction)
    ensures ReduceAll(s, [a, b]) == Reduce(Reduce(s, a), b)
  {
    assert [a, b][1..] == [b];
    ReduceAllOne(Reduce(s, a), b);
  }

  lemma ReduceAllThree(s: WindowState, a: WindowAction, b: WindowAction, c: WindowAction)
    ensures ReduceAll(s, [a, b, c]) == Reduce(Reduce(Reduce(s, a), b), c)
  {
    assert [a, b, c][1..] == [b, c];
    ReduceAllTwo(Reduce(s, a), b, c);
  }

  /** Some window of the store has this id. */
  predicate HasWindow(s: WindowState, id: string)
  {
    exists i :: 0 <= i < |s.windows| && s.windows[i].id == id
  }

  /** The z-order invariant: no window is above the counter. */
  ghost predicate ZOrdered(s: WindowState)
  {
    forall w :: w in s.windows ==> w.zIndex <= s.maxZIndex
  }

  lemma InitialStateIsEmpty()
    ensures InitialState().windows == [] && InitialState().activeWindowId == None
    ensures InitialState().maxZIndex == 0 && ZOrdered(InitialState())
  {
  }

  /** OPEN appends one window built from the payload, on top, and makes it active. */
  lemma OpenWindowAppends(s: WindowState, spec: WindowSpec)
    ensures var r := Reduce(s, OpenWindow(spec));
      && |r.windows| == |s.windows| + 1
      && r.windows[..|s.windows|] == s.windows
      && var w := r.windows[|s.windows|];
      && w.id == spec.id && w.appId == spec.appId && w.title == spec.title
      && w.position == spec.position && w.size == spec.size && w.isSettings == spec.isSettings
      && !w.isMinimized && !w.isMaximized && w.zIndex == s.maxZIndex + 1
      && r.activeWindowId == Some(spec.id) && r.maxZIndex == s.maxZIndex + 1
  {
    var r := Reduce(s, OpenWindow(spec));
    assert r.windows[..|s.windows|] == s.windows;
  }

  /** OPEN does not reject an id that is already present: it always appends. */
  lemma OpenAcceptsDuplicateId(s: WindowState, spec: WindowSpec)
    requires HasWindow(s, spec.id)
    ensures |Reduce(s, OpenWindow(spec)).windows| == |s.windows| + 1
    ensures var r := Reduce(s, OpenWindow(spec));
      && r.windows[|s.windows|].id == spec.id
      && exists i :: 0 <= i < |s.windows| && r.windows[i].id == spec.id
  {
    var r := Reduce(s, OpenWindow(spec));
    var k :| 0 <= k < |s.windows| && s.windows[k].id == spec.id;
    assert r.windows[k] == s.windows[k];
  }

  /** An id that was new before OPEN belongs to exactly the appended window afterwards. */
  lemma OpenFreshIdIsUnique(s: WindowState, spec: WindowSpec)
    requires !HasWindow(s, spec.id)
    ensures var r := Reduce(s, OpenWindow(spec));
      forall i :: 0 <= i < |r.windows| ==> (r.windows[i].id == spec.id <==> i == |s.windows|)
  {
  }

  /** Under the z-order invariant a just-opened window is strictly above every other window. */
  lemma OpenIsTopmost(s: WindowState, spec: WindowSpec)
    requires ZOrdered(s)
    ensures var r := Reduce(s, OpenWindow(spec));
      forall i :: 0 <= i < |s.windows| ==> r.windows[i].zIndex < r.windows[|s.windows|].zIndex
  {
    var r := Reduce(s, OpenWindow(spec));
    forall i | 0 <= i < |s.windows| ensures r.windows[i].zIndex < r.windows[|s.windows|].zIndex {
      assert r.windows[i] == s.windows[i] && s.windows[i] in s.windows;
    }
  }

  /**
   CLOSE removes every window with the id and keeps every other one, each
   copy of it, in order; a matching active id is cleared.
   */
  lemma CloseWindowRemoves(s: WindowState, id: string)
    ensures var r := Reduce(s, CloseWindow(id));
      && (forall w :: w in r.windows <==> w in s.windows && w.id != id)
      && IsSubsequence(r.windows, s.windows)
      && |r.windows| == |s.windows| - |Filter(s.windows, (w: Window) => w.id == id)|
      && !HasWindow(r, id)
      && (!HasWindow(s, id) ==> r.windows == s.windows)
      && (r.activeWindowId == None <==> s.activeWindowId == None || s.activeWindowId == Some(id))
      && (r.activeWindowId != None ==> r.activeWindowId == s.activeWindowId)
      && r.maxZIndex == s.maxZIndex
  {
    var r := Reduce(s, CloseWindow(id));
    FilterMembership(s.windows, (w: Window) => w.id != id);
    FilterIsSubsequence(s.windows, (w: Window) => w.id != id);
    FilterComplementLength(s.windows, (w: Window) => w.id != id, (w: Window) => w.id == id);
    if !HasWindow(s, id) {
      FilterKeepsAll(s.windows, (w: Window) => w.id != id);
    }
  }

  /** MINIMIZE sets `isMinimized` on the matching windows and changes nothing else. */
  lemma MinimizeWindowFlagsOnly(s: WindowState, id: string)
    ensures var r := Reduce(s, MinimizeWindow(id));
      && |r.windows| == |s.windows|
      && (forall i :: 0 <= i < |s.windows| ==>
            && r.windows[i].isMinimized == (s.windows[i].isMinimized || s.windows[i].id == id)
            && r.windows[i].(isMinimized := s.windows[i].isMinimized) == s.windows[i])
      && r.activeWindowId == s.activeWindowId && r.maxZIndex == s.maxZIndex
  {
    UpdateWherePointwise(s.windows, id, (w: Window) => w.(isMinimized := true));
  }

  /** MAXIMIZE sets `isMaximized` on the matching windows; position and size are kept. */
  lemma MaximizeWindowFlagsOnly(s: WindowState, id: string)
    ensures var r := Reduce(s, MaximizeWindow(id));
      && |r.windows| == |s.windows|
      && (forall i :: 0 <= i < |s.windows| ==>
            && r.windows[i].isMaximized == (s.windows[i].isMaximized || s.windows[i].id == id)
            && r.windows[i].(isMaximized := s.windows[i].isMaximized) == s.windows[i])
      && r.activeWindowId == s.activeWindowId && r.maxZIndex == s.maxZIndex
  {
    UpdateWherePointwise(s.windows, id, (w: Window) => w.(isMaximized := true));
  }

  /** RESTORE clears both flags of the matching windows, whatever they were, and changes nothing else. */
  lemma RestoreWindowFlagsOnly(s: WindowState, id: string)
    ensures var r := Reduce(s, RestoreWindow(id));
      && |r.windows| == |s.windows|
      && (forall i :: 0 <= i < |s.windows| ==>
            && (s.windows[i].id == id ==> !r.windows[i].isMinimized && !r.windows[i].isMaximized)
            && (s.windows[i].id != id ==> r.windows[i] == s.windows[i])
            && r.windows[i].(isMinimized := s.windows[i].isMinimized,
                             isMaximized := s.windows[i].isMaximized) == s.windows[i])
      && r.activeWindowId == s.activeWindowId && r.maxZIndex == s.maxZIndex
  {
    UpdateWherePointwise(s.windows, id, (w: Window) => w.(isMinimized := false, isMaximized := false));
  }

  /** UPDATE_WINDOW_POSITION replaces the position of the matching windows, unclamped. */
  lemma UpdatePositionReplaces(s: WindowState, id: string, p: Position)
    ensures var r := Reduce(s, UpdateWindowPosition(id, p));
      && |r.windows| == |s.windows|
      && (forall i :: 0 <= i < |s.windows| ==>
            && r.windows[i].position == (if s.windows[i].id == id then p else s.windows[i].position)
            && r.windows[i].(position := s.windows[i].position) == s.windows[i])
      && r.activeWindowId == s.activeWindowId && r.maxZIndex == s.maxZIndex
      && (!HasWindow(s, id) ==> r == s)
  {
    var r := Reduce(s, UpdateWindowPosition(id, p));
    UpdateWherePointwise(s.windows, id, (w: Window) => w.(position := p));
    if !HasWindow(s, id) {
      assert r.windows == s.windows;
    }
  }

  /** UPDATE_WINDOW_SIZE replaces the size of the matching windows, unclamped. */
  lemma UpdateSizeReplaces(s: WindowState, id: string, sz: Size)
    ensures var r := Reduce(s, UpdateWindowSize(id, sz));
      && |r.windows| == |s.windows|
      && (forall i :: 0 <= i < |s.windows| ==>
            && r.windows[i].size == (if s.windows[i].id == id then sz else s.windows[i].size)
            && r.windows[i].(size := s.windows[i].size) == s.windows[i])
      && r.activeWindowId == s.activeWindowId && r.maxZIndex == s.maxZIndex
      && (!HasWindow(s, id) ==> r == s)
  {
    var r := Reduce(s, UpdateWindowSize(id, sz));
    UpdateWherePointwise(s.windows, id, (w: Window) => w.(size := sz));
    if !HasWindow(s, id) {
      assert r.windows == s.windows;
    }
  }

  /** FOCUS raises the matching windows to a fresh top z-order and activates the id, known or not. */
  lemma FocusWindowRaises(s: WindowState, id: string)
    ensures var r := Reduce(s, FocusWindow(id));
      && |r.windows| == |s.windows|
      && (forall i :: 0 <= i < |s.windows| ==>
            && r.windows[i].zIndex == (if s.windows[i].id == id then s.maxZIndex + 1 else s.windows[i].zIndex)
            && r.windows[i].(zIndex := s.windows[i].zIndex) == s.windows[i])
      && r.activeWindowId == Some(id) && r.maxZIndex == s.maxZIndex + 1
      && (!HasWindow(s, id) ==> r.windows == s.windows)
  {
    var r := Reduce(s, FocusWindow(id));
    var z := s.maxZIndex + 1;
    UpdateWherePointwise(s.windows, id, (w: Window) => w.(zIndex := z));
    if !HasWindow(s, id) {
      assert r.windows == s.windows;
    }
  }

  /** Under the z-order invariant a just-focused window is strictly above every window with another id. */
  lemma FocusIsTopmost(s: WindowState, id: string)
    requires ZOrdered(s)
    ensures var r := Reduce(s, FocusWindow(id));
      forall i, j :: (0 <= i < |r.windows| && 0 <= j < |r.windows| &&
                      r.windows[i].id == id && r.windows[j].id != id) ==>
        r.windows[j].zIndex < r.windows[i].zIndex
  {
    var r := Reduce(s, FocusWindow(id));
    FocusWindowRaises(s, id);
    forall j | 0 <= j < |r.windows| && r.windows[j].id != id
      ensures r.windows[j].zIndex <= s.maxZIndex
    {
      assert s.windows[j] in s.windows;
    }
  }

  /** An action object of an unknown type leaves the state as it was. */
  lemma UnrecognizedIsNoOp(s: WindowState, tag: string)
    ensures Reduce(s, Unrecognized(tag)) == s
  {
  }

  /** Every action keeps the z-order invariant, and the counter never decreases. */
  lemma ReducePreservesZOrder(s: WindowState, a: WindowAction)
    requires ZOrdered(s)
    ensures ZOrdered(Reduce(s, a))
    ensures Reduce(s, a).maxZIndex >= s.maxZIndex
  {
    var r := Reduce(s, a);
    match a
    case OpenWindow(spec) =>
    case CloseWindow(id) =>
      FilterMembership(s.windows, (w: Window) => w.id != id);
    case MinimizeWindow(id) =>
      MinimizeWindowFlagsOnly(s, id);
      PreservedByPointwiseFrame(s, r);
    case MaximizeWindow(id) =>
      MaximizeWindowFlagsOnly(s, id);
      PreservedByPointwiseFrame(s, r);
    case RestoreWindow(id) =>
      RestoreWindowFlagsOnly(s, id);
      PreservedByPointwiseFrame(s, r);
    case UpdateWindowPosition(id, p) =>
      UpdatePositionReplaces(s, id, p);
      PreservedByPointwiseFrame(s, r);
    case UpdateWindowSize(id, sz) =>
      UpdateSizeReplaces(s, id, sz);
      PreservedByPointwiseFrame(s, r);
    case FocusWindow(id) =>
      FocusWindowRaises(s, id);
      forall w | w in r.windows ensures w.zIndex <= r.maxZIndex {
        var i :| 0 <= i < |r.windows| && r.windows[i] == w;
        assert s.windows[i] in s.windows;
      }
    case Unrecognized(_) =>
  }

  lemma PreservedByPointwiseFrame(s: WindowState, r: WindowState)
    requires ZOrdered(s) && |r.windows| == |s.windows| && r.maxZIndex == s.maxZIndex
    requires forall i :: 0 <= i < |s.windows| ==> r.windows[i].zIndex == s.windows[i].zIndex
    ensures ZOrdered(r)
  {
    forall w | w in r.windows ensures w.zIndex <= r.maxZIndex {
      var i :| 0 <= i < |r.windows| && r.windows[i] == w;
      assert s.windows[i] in s.windows;
    }
  }

  /** The flag and geometry actions are idempotent. */
  lemma UpdateActionsIdempotent(s: WindowState, a: WindowAction)
    requires a.MinimizeWindow? || a.MaximizeWindow? || a.RestoreWindow? ||
             a.UpdateWindowPosition? || a.UpdateWindowSize?
    ensures Reduce(Reduce(s, a), a) == Reduce(s, a)
  {
    var r := Reduce(s, a);
    var rr := Reduce(r, a);
    match a
    case MinimizeWindow(id) =>
      MinimizeWindowFlagsOnly(s, id);
      MinimizeWindowFlagsOnly(r, id);
    case MaximizeWindow(id) =>
      MaximizeWindowFlagsOnly(s, id);
      MaximizeWindowFlagsOnly(r, id);
    case RestoreWindow(id) =>
      RestoreWindowFlagsOnly(s, id);
      RestoreWindowFlagsOnly(r, id);
    case UpdateWindowPosition(id, p) =>
      UpdatePositionReplaces(s, id, p);
      UpdatePositionReplaces(r, id, p);
    case UpdateWindowSize(id, sz) =>
      UpdateSizeReplaces(s, id, sz);
      UpdateSizeReplaces(r, id, sz);
    assert rr.windows == r.windows;
  }

  /** A closed id stays absent through any action other than an OPEN that reuses it. */
  lemma AbsentIdStaysAbsent(s: WindowState, id: string, a: WindowAction)
    requires !HasWindow(s, id)
    requires !(a.OpenWindow? && a.window.id == id)
    ensures !HasWindow(Reduce(s, a), id)
  {
    var r := Reduce(s, a);
    match a
    case OpenWindow(spec) =>
      assert forall i :: 0 <= i < |s.windows| ==> r.windows[i] == s.windows[i];
    case CloseWindow(x) =>
      CloseWindowRemoves(s, x);
    case MinimizeWindow(x) =>
      MinimizeWindowFlagsOnly(s, x);
    case MaximizeWindow(x) =>
      MaximizeWindowFlagsOnly(s, x);
    case RestoreWindow(x) =>
      RestoreWindowFlagsOnly(s, x);
    case UpdateWindowPosition(x, p) =>
      UpdatePositionReplaces(s, x, p);
    case UpdateWindowSize(x, sz) =>
      UpdateSizeReplaces(s, x, sz);
    case FocusWindow(x) =>
      FocusWindowRaises(s, x);
    case Unrecognized(_) =>
  }

  /** Dispatching `a` then `b` is dispatching `a + b`. */
  lemma {:induction false} ReduceAllConcat(s: WindowState, a: seq<WindowAction>, b: seq<WindowAction>)
    ensures ReduceAll(s, a + b) == ReduceAll(ReduceAll(s, a), b)
    decreases |a|
  {
    if a == [] {
      assert a + b == b;
    } else {
      assert (a + b)[0] == a[0] && (a + b)[1..] == a[1..] + b;
      ReduceAllConcat(Reduce(s, a[0]), a[1..], b);
    }
  }

  /** The z-order invariant holds after any sequence of actions from a state where it holds. */
  lemma {:induction false} ReduceAllPreservesZOrder(s: WindowState, actions: seq<WindowAction>)
    requires ZOrdered(s)
    ensures ZOrdered(ReduceAll(s, actions))
    ensures ReduceAll(s, actions).maxZIndex >= s.maxZIndex
    decreases |actions|
  {
    if actions != [] {
      ReducePreservesZOrder(s, actions[0]);
      ReduceAllPreservesZOrder(Reduce(s, actions[0]), actions[1..]);
    }
  }

  /** Every state reachable from the initial state satisfies the z-order invariant. */
  lemma ReachableStatesAreZOrdered(actions: seq<WindowAction>)
    ensures ZOrdered(ReduceAll(InitialState(), actions))
  {
    ReduceAllPreservesZOrder(InitialState(), actions);
  }

  /**
   Open two windows, then focus the first: the first ends on top at z-order 3
   and active; the second keeps z-order 2.
   */
  lemma OpenOpenFocusScenario(p1: WindowSpec, p2: WindowSpec)
    requires p1.id != p2.id
    ensures var r := ReduceAll(InitialState(), [OpenWindow(p1), OpenWindow(p2), FocusWindow(p1.id)]);
      && r.windows == [NewWindow(p1, 3), NewWindow(p2, 2)]
      && r.activeWindowId == Some(p1.id)
      && r.maxZIndex == 3
  {
    var acts := [OpenWindow(p1), OpenWindow(p2), FocusWindow(p1.id)];
    var s1 := Reduce(InitialState(), OpenWindow(p1));
    var s2 := Reduce(s1, OpenWindow(p2));
    assert s2.windows == [NewWindow(p1, 1), NewWindow(p2, 2)];
    var s3 := Reduce(s2, FocusWindow(p1.id));
    FocusWindowRaises(s2, p1.id);
    assert s3.windows == [NewWindow(p1, 3), NewWindow(p2, 2)];
    ReduceAllThree(InitialState(), OpenWindow(p1), OpenWindow(p2), FocusWindow(p1.id));
  }
}
