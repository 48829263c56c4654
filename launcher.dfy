/**
 The open-or-focus step that the dock and the app panel share: look up the
 first window of an app and, when there is one, restore it if minimized and
 then focus it.
 */
module Launcher {
  import opened Wrappers
  import opened Lists
  import opened WindowTypes
  import opened WindowContext

  /** `state.windows.find(w => w.appId === appId)`: the first window of the app, which may be a settings window. */
  function FindAppWindow(ws: seq<Window>, appId: int): (r: Option<Window>)
    ensures r.None? <==> forall i :: 0 <= i < |ws| ==> ws[i].appId != appId
    ensures r.Some? ==> exists i :: 0 <= i < |ws| && ws[i] == r.value && r.value.appId == appId &&
                                    forall j :: 0 <= j < i ==> ws[j].appId != appId
  {
    Find(ws, (w: Window) => w.appId == appId)
  }

  /** RESTORE only if the window is minimized, then FOCUS. */
  function RestoreAndFocus(w: Window): seq<WindowAction>
  {
    (if w.isMinimized then [RestoreWindow(w.id)] else []) + [FocusWindow(w.id)]
  }

  /**
   Dispatching `RestoreAndFocus` for the window at index `i` leaves it visible,
   on top and active; no window is created or removed, and windows with other
   ids are unchanged.
   */
  lemma RestoreAndFocusBringsToFront(s: WindowState, i: nat)
    requires i < |s.windows|
    ensures var w := s.windows[i];
      var r := ReduceAll(s, RestoreAndFocus(w));
      && |r.windows| == |s.windows|
      && !r.windows[i].isMinimized
      && r.windows[i].zIndex == s.maxZIndex + 1
      && r.windows[i].(zIndex := w.zIndex, isMinimized := w.isMinimized, isMaximized := w.isMaximized) == w
      && (w.isMinimized ==> !r.windows[i].isMaximized)
      && (!w.isMinimized ==> r.windows[i] == w.(zIndex := s.maxZIndex + 1))
      && r.activeWindowId == Some(w.id)
      && r.maxZIndex == s.maxZIndex + 1
      && (forall j :: 0 <= j < |s.windows| && s.windows[j].id != w.id ==> r.windows[j] == s.windows[j])
  {
    var w := s.windows[i];
    if w.isMinimized {
      var s1 := Reduce(s, RestoreWindow(w.id));
      RestoreWindowFlagsOnly(s, w.id);
      FocusWindowRaises(s1, w.id);
      ReduceAllTwo(s, RestoreWindow(w.id), FocusWindow(w.id));
    } else {
      FocusWindowRaises(s, w.id);
      ReduceAllOne(s, FocusWindow(w.id));
    }
  }

  /**
   The click handler of the dock and of the app panel: bring the app's first
   window to the front, or, when the app has none, dispatch `open` (which
   differs between the two launchers).
   */
  function LaunchOrFocus(ws: seq<Window>, appId: int, open: seq<WindowAction>): seq<WindowAction>
  {
    match FindAppWindow(ws, appId)
    case Some(w) => RestoreAndFocus(w)
    case None => open
  }

  /**
   With a window of the app present, a launcher click creates nothing: RESTORE
   is dispatched exactly when that window is minimized, FOCUS last, and the
   window ends visible, on top and active with no window added or removed.
   */
  lemma LaunchFocusesExisting(s: WindowState, appId: int, open: seq<WindowAction>)
    requires FindAppWindow(s.windows, appId).Some?
    ensures var w := FindAppWindow(s.windows, appId).value;
      var acts := LaunchOrFocus(s.windows, appId, open);
      var r := ReduceAll(s, acts);
      && (forall a :: a in acts ==> !a.OpenWindow?)
      && acts[|acts| - 1] == FocusWindow(w.id)
      && (RestoreWindow(w.id) in acts <==> w.isMinimized)
      && |r.windows| == |s.windows|
      && r.activeWindowId == Some(w.id)
      && exists i :: 0 <= i < |r.windows| && r.windows[i].id == w.id && r.windows[i].appId == appId &&
                     !r.windows[i].isMinimized && r.windows[i].zIndex == s.maxZIndex + 1
  {
    var w := FindAppWindow(s.windows, appId).value;
    var i :| 0 <= i < |s.windows| && s.windows[i] == w && w.appId == appId &&
             forall j :: 0 <= j < i ==> s.windows[j].appId != appId;
    RestoreAndFocusBringsToFront(s, i);
    var r := ReduceAll(s, LaunchOrFocus(s.windows, appId, open));
    assert r.windows[i].id == w.id && r.windows[i].appId == appId;
  }
}
