/**
 The dock: per-app launch-or-focus (which opens new windows maximized),
 restart, the per-app context menu, the item indicator flags and the
 auto-hide rule.
 */
module Dock {
  import opened Wrappers
  import opened WindowTypes
  import opened WindowContext
  import opened AppRegistry
  import opened Launcher

  /** Some window is maximized and not minimized; the dock auto-hides only then. */
  predicate HasVisibleMaximizedWindow(ws: seq<Window>)
  {
    exists i :: 0 <= i < |ws| && ws[i].isMaximized && !ws[i].isMinimized
  }

  /** The window a dock launch opens: at the origin, the size of the viewport. */
  function DockWindowSpec(app: AppConfig, newId: string, vw: real, vh: real): WindowSpec
  {
    WindowSpec(newId, app.id, app.name, Position(0.0, 0.0), Size(vw, vh), false)
  }

  /** Click on a dock item: focus the app's first window, or open a new one and maximize it. */
  function AppClickActions(ws: seq<Window>, app: AppConfig, newId: string, vw: real, vh: real): seq<WindowAction>
  {
    LaunchOrFocus(ws, app.id, [OpenWindow(DockWindowSpec(app, newId, vw, vh)), MaximizeWindow(newId)])
  }

  /** With no window of the app, a click opens one at the origin, viewport-sized, and leaves it maximized and active. */
  lemma AppClickOpensMaximized(s: WindowState, app: AppConfig, newId: string, vw: real, vh: real)
    requires FindAppWindow(s.windows, app.id).None?
    ensures var r := ReduceAll(s, AppClickActions(s.windows, app, newId, vw, vh));
      && |r.windows| == |s.windows| + 1
      && var w := r.windows[|s.windows|];
      && w.id == newId && w.appId == app.id && w.title == app.name && !w.isSettings
      && w.position == Position(0.0, 0.0) && w.size == Size(vw, vh)
      && w.isMaximized && !w.isMinimized && w.zIndex == s.maxZIndex + 1
      && r.activeWindowId == Some(newId) && r.maxZIndex == s.maxZIndex + 1
      && (!HasWindow(s, newId) ==> r.windows[..|s.windows|] == s.windows)
  {
    var spec := DockWindowSpec(app, newId, vw, vh);
    var s1 := Reduce(s, OpenWindow(spec));
    ReduceAllTwo(s, OpenWindow(spec), MaximizeWindow(newId));
    OpenWindowAppends(s, spec);
    MaximizeWindowFlagsOnly(s1, newId);
    var r := Reduce(s1, MaximizeWindow(newId));
    if !HasWindow(s, newId) {
      forall j | 0 <= j < |s.windows| ensures r.windows[j] == s.windows[j] {
        assert s1.windows[j] == s.windows[j];
      }
    }
  }

  /**
   `find` does not skip settings windows: when the app's first window is a
   settings window, a click focuses it instead of launching the app.
   */
  lemma SettingsWindowBlocksLaunch(ws: seq<Window>, i: nat, app: AppConfig, newId: string, vw: real, vh: real)
    requires i < |ws| && ws[i].isSettings && ws[i].appId == app.id
    requires forall j :: 0 <= j < i ==> ws[j].appId != app.id
    ensures AppClickActions(ws, app, newId, vw, vh) == RestoreAndFocus(ws[i])
  {
  }

  /** CLOSE of the app's first window, if there is one (the immediate part of restart, and the menu's close item). */
  function CloseAppWindow(ws: seq<Window>, app: AppConfig): (acts: seq<WindowAction>)
    ensures FindAppWindow(ws, app.id).None? ==> acts == []
    ensures FindAppWindow(ws, app.id).Some? ==> acts == [CloseWindow(FindAppWindow(ws, app.id).value.id)]
  {
    match FindAppWindow(ws, app.id)
    case None => []
    case Some(w) => [CloseWindow(w.id)]
  }

  /**
   Restart as written: the delayed reopen calls the click handler of the
   render that scheduled it, so it decides on `ws`, the windows as they were
   before the CLOSE.
   */
  function RestartAsWritten(ws: seq<Window>, app: AppConfig, newId: string, vw: real, vh: real): seq<WindowAction>
  {
    match FindAppWindow(ws, app.id)
    case None => []
    case Some(w) => [CloseWindow(w.id)] + AppClickActions(ws, app, newId, vw, vh)
  }

  /**
   Restart, corrected: after the CLOSE, the delayed reopen decides on
   `current`, the windows when the delay ends.
   */
  function RestartReopen(current: seq<Window>, app: AppConfig, newId: string, vw: real, vh: real): seq<WindowAction>
  {
    AppClickActions(current, app, newId, vw, vh)
  }

  /** The app's windows all share one id, so closing that id closes the app. */
  ghost predicate SingleAppWindowId(s: WindowState, appId: int, id: string)
  {
    forall i :: 0 <= i < |s.windows| && s.windows[i].appId == appId ==> s.windows[i].id == id
  }

  /**
   As written, restarting an app whose windows share one id leaves the app
   closed: the stale reopen focuses the closed id, so no window of the app
   exists afterwards and the active id names no window.
   */
  lemma StaleRestartDoesNotReopen(s: WindowState, app: AppConfig, newId: string, vw: real, vh: real)
    requires FindAppWindow(s.windows, app.id).Some?
    requires SingleAppWindowId(s, app.id, FindAppWindow(s.windows, app.id).value.id)
    ensures var id := FindAppWindow(s.windows, app.id).value.id;
      var r := ReduceAll(s, RestartAsWritten(s.windows, app, newId, vw, vh));
      && (forall i :: 0 <= i < |r.windows| ==> r.windows[i].appId != app.id)
      && r.activeWindowId == Some(id)
      && !HasWindow(r, id)
  {
    var w := FindAppWindow(s.windows, app.id).value;
    var s1 := Reduce(s, CloseWindow(w.id));
    CloseWindowRemoves(s, w.id);
    assert forall i :: 0 <= i < |s1.windows| ==> s1.windows[i].appId != app.id by {
      forall i | 0 <= i < |s1.windows| ensures s1.windows[i].appId != app.id {
        assert s1.windows[i] in s.windows;
      }
    }
    var rest := RestoreAndFocus(w);
    ReduceAllConcat(s, [CloseWindow(w.id)], rest);
    ReduceAllOne(s, CloseWindow(w.id));
    assert RestartAsWritten(s.windows, app, newId, vw, vh) == [CloseWindow(w.id)] + rest;
    if w.isMinimized {
      var s2 := Reduce(s1, RestoreWindow(w.id));
      RestoreWindowFlagsOnly(s1, w.id);
      assert s2.windows == s1.windows;
      FocusWindowRaises(s2, w.id);
      ReduceAllTwo(s1, RestoreWindow(w.id), FocusWindow(w.id));
    } else {
      FocusWindowRaises(s1, w.id);
      ReduceAllOne(s1, FocusWindow(w.id));
    }
  }

  /**
   Corrected, the same restart closes the app's window and the reopen then
   launches a new maximized, active window of the app.
   */
  lemma RestartReopens(s: WindowState, app: AppConfig, newId: string, vw: real, vh: real)
    requires FindAppWindow(s.windows, app.id).Some?
    requires SingleAppWindowId(s, app.id, FindAppWindow(s.windows, app.id).value.id)
    ensures var s1 := ReduceAll(s, CloseAppWindow(s.windows, app));
      var r := ReduceAll(s1, RestartReopen(s1.windows, app, newId, vw, vh));
      && !HasWindow(s1, FindAppWindow(s.windows, app.id).value.id)
      && |r.windows| == |s1.windows| + 1
      && r.windows[|s1.windows|].appId == app.id
      && r.windows[|s1.windows|].id == newId
      && r.windows[|s1.windows|].isMaximized && !r.windows[|s1.windows|].isMinimized
      && r.activeWindowId == Some(newId)
  {
    var w := FindAppWindow(s.windows, app.id).value;
    var s1 := Reduce(s, CloseWindow(w.id));
    ReduceAllOne(s, CloseWindow(w.id));
    CloseWindowRemoves(s, w.id);
    forall i | 0 <= i < |s1.windows| ensures s1.windows[i].appId != app.id {
      assert s1.windows[i] in s.windows;
    }
    AppClickOpensMaximized(s1, app, newId, vw, vh);
  }

  /** An entry of a dock item's context menu; `running` selects the label. */
  datatype MenuItem =
    | StatusItem(running: bool)
    | Divider
    | OpenItem(running: bool)
    | RestartItem
    | CloseItem
    | SettingsItem
    | InfoItem

  /** The menu of a registered app, as the sequence of its sections. */
  ghost function MenuShape(running: bool, hasSettings: bool, hasInfo: bool): seq<MenuItem>
  {
    [StatusItem(running), Divider, OpenItem(running)]
      + (if running then [RestartItem, CloseItem] else [])
      + [Divider]
      + (if hasSettings then [SettingsItem] else [])
      + (if hasInfo then [InfoItem] else [])
  }

  /** What the menu shape holds, where and how many. */
  lemma MenuShapeFacts(running: bool, hasSettings: bool, hasInfo: bool)
    ensures var items := MenuShape(running, hasSettings, hasInfo);
      && |items| == 4 + (if running then 2 else 0) + (if hasSettings then 1 else 0) + (if hasInfo then 1 else 0)
      && items[..3] == [StatusItem(running), Divider, OpenItem(running)]
      && (running ==> items[3..5] == [RestartItem, CloseItem])
      && items[if running then 5 else 3] == Divider
      && (RestartItem in items <==> running)
      && (CloseItem in items <==> running)
      && (SettingsItem in items <==> hasSettings)
      && (InfoItem in items <==> hasInfo)
      && (hasInfo ==> items[|items| - 1] == InfoItem)
      && (hasSettings ==> items[|items| - (if hasInfo then 2 else 1)] == SettingsItem)
  {
    var items := MenuShape(running, hasSettings, hasInfo);
    var head := [StatusItem(running), Divider, OpenItem(running)];
    var middle := if running then [RestartItem, CloseItem] else [];
    var tail := (if hasSettings then [SettingsItem] else []) + (if hasInfo then [InfoItem] else []);
    assert items == head + middle + ([Divider] + tail);
    assert RestartItem !in head && RestartItem !in [Divider] + tail;
    assert CloseItem !in head && CloseItem !in [Divider] + tail;
    assert SettingsItem !in head + middle + [Divider];
    assert InfoItem !in head + middle + [Divider];
  }

  /**
   The context menu of an app, built in order: nothing for an unknown app;
   otherwise status, divider, open; restart and close when the app has a
   window; a divider; settings and info when the app declares them.
   */
  method GetContextMenuItems(ws: seq<Window>, registry: seq<AppConfig>, appId: int) returns (items: seq<MenuItem>)
    ensures FindApp(registry, appId).None? ==> items == []
    ensures FindApp(registry, appId).Some? ==>
      var app := FindApp(registry, appId).value;
      var running := FindAppWindow(ws, appId).Some?;
      && |items| == 4 + (if running then 2 else 0) + (if app.hasSettings then 1 else 0) + (if app.hasInfo then 1 else 0)
      && items[..3] == [StatusItem(running), Divider, OpenItem(running)]
      && (running ==> items[3..5] == [RestartItem, CloseItem])
      && items[if running then 5 else 3] == Divider
      && (RestartItem in items <==> running)
      && (CloseItem in items <==> running)
      && (SettingsItem in items <==> app.hasSettings)
      && (InfoItem in items <==> app.hasInfo)
      && (app.hasInfo ==> items[|items| - 1] == InfoItem)
      && (app.hasSettings ==> items[|items| - (if app.hasInfo then 2 else 1)] == SettingsItem)
      && items == MenuShape(running, app.hasSettings, app.hasInfo)
  {
    var existing := FindAppWindow(ws, appId);
    var app := FindApp(registry, appId);
    if app.None? {
      return [];
    }
    var running := existing.Some?;
    items := [StatusItem(running), Divider, OpenItem(running)];
    if running {
      items := items + [RestartItem, CloseItem];
    }
    items := items + [Divider];
    if app.value.hasSettings {
      items := items + [SettingsItem];
    }
    if app.value.hasInfo {
      items := items + [InfoItem];
    }
    assert items == MenuShape(running, app.value.hasSettings, app.value.hasInfo);
    MenuShapeFacts(running, app.value.hasSettings, app.value.hasInfo);
  }

  /** The menu the dock passes to the context menu: none while no app (or the falsy id 0) is selected. */
  method ItemsForSelectedApp(ws: seq<Window>, registry: seq<AppConfig>, selected: Option<int>) returns (items: seq<MenuItem>)
    ensures selected.None? || selected.value == 0 ==> items == []
    ensures selected.Some? && selected.value != 0 && FindApp(registry, selected.value).Some? ==>
      var app := FindApp(registry, selected.value).value;
      items == MenuShape(FindAppWindow(ws, selected.value).Some?, app.hasSettings, app.hasInfo)
    ensures selected.Some? && selected.value != 0 && FindApp(registry, selected.value).None? ==> items == []
  {
    if selected.None? || selected.value == 0 {
      return [];
    }
    items := GetContextMenuItems(ws, registry, selected.value);
  }

  /** The settings window the settings item opens: at (100,100), 600 by 400, flagged as settings. */
  function SettingsWindowSpec(app: AppConfig, newId: string): (spec: WindowSpec)
    ensures spec.isSettings && spec.appId == app.id && spec.id == newId
    ensures spec.position == Position(100.0, 100.0) && spec.size == Size(600.0, 400.0)
  {
    WindowSpec(newId, app.id, app.name + " - \U{8BBE}\U{7F6E}", Position(100.0, 100.0), Size(600.0, 400.0), true)
  }

  /**
   What activating a menu item dispatches. Restart dispatches its CLOSE; its
   reopen is `RestartReopen`, dispatched when the delay ends. Status and
   dividers are inert; info opens a dialog and dispatches nothing.
   */
  function MenuItemActions(item: MenuItem, ws: seq<Window>, app: AppConfig, newId: string, vw: real, vh: real): seq<WindowAction>
  {
    match item
    case OpenItem(_) => AppClickActions(ws, app, newId, vw, vh)
    case RestartItem => CloseAppWindow(ws, app)
    case CloseItem => CloseAppWindow(ws, app)
    case SettingsItem => [OpenWindow(SettingsWindowSpec(app, newId))]
    case _ => []
  }

  /**
   The settings item appends one more window, a settings window of the app
   that becomes active, even when one is open already; the earlier windows
   are kept.
   */
  lemma SettingsItemOpensSettingsWindow(s: WindowState, app: AppConfig, newId: string, vw: real, vh: real)
    ensures var r := ReduceAll(s, MenuItemActions(SettingsItem, s.windows, app, newId, vw, vh));
      && |r.windows| == |s.windows| + 1
      && r.windows[|s.windows|].isSettings && r.windows[|s.windows|].appId == app.id
      && r.windows[|s.windows|].position == Position(100.0, 100.0)
      && r.windows[|s.windows|].size == Size(600.0, 400.0)
      && !r.windows[|s.windows|].isMaximized && !r.windows[|s.windows|].isMinimized
      && r.windows[|s.windows|].id == newId
      && r.windows[..|s.windows|] == s.windows
      && r.activeWindowId == Some(newId)
  {
    ReduceAllOne(s, OpenWindow(SettingsWindowSpec(app, newId)));
    OpenWindowAppends(s, SettingsWindowSpec(app, newId));
  }

  /** The indicator flags of a dock item. */
  datatype ItemFlags = ItemFlags(isActive: bool, isMinimized: bool)

  /** `isActive`: the app's first window exists and is not minimized; `isMinimized`: it exists and is minimized. */
  function DockItemFlags(ws: seq<Window>, appId: int): (f: ItemFlags)
    ensures !(f.isActive && f.isMinimized)
    ensures f.isActive <==> FindAppWindow(ws, appId).Some? && !FindAppWindow(ws, appId).value.isMinimized
    ensures f.isMinimized <==> FindAppWindow(ws, appId).Some? && FindAppWindow(ws, appId).value.isMinimized
    ensures f.isActive || f.isMinimized <==> exists i :: 0 <= i < |ws| && ws[i].appId == appId
  {
    match FindAppWindow(ws, appId)
    case None => ItemFlags(false, false)
    case Some(w) => ItemFlags(!w.isMinimized, w.isMinimized)
  }

  /** The auto-hide state of the dock. */
  class DockVisibility {
    var isVisible: bool
    // a hide timer is pending
    var hideScheduled: bool

    constructor ()
      ensures isVisible && !hideScheduled
    {
      isVisible, hideScheduled := true, false;
    }

    /**
     The visibility effect, run when the pointer-in-dock flag, the
     pointer-in-trigger flag or `HasVisibleMaximizedWindow` changes.
     The previous run's pending hide is cancelled first; without a visible
     maximized window the dock is shown; with the pointer over the dock or
     the trigger strip it is shown; otherwise a hide is scheduled.
     */
    method InputsChanged(ws: seq<Window>, mouseInDock: bool, mouseInTrigger: bool)
      modifies this
      ensures !HasVisibleMaximizedWindow(ws) ==> isVisible && !hideScheduled
      ensures HasVisibleMaximizedWindow(ws) && (mouseInDock || mouseInTrigger) ==> isVisible && !hideScheduled
      ensures HasVisibleMaximizedWindow(ws) && !mouseInDock && !mouseInTrigger ==>
        isVisible == old(isVisible) && hideScheduled
    {
      hideScheduled := false;
      if !HasVisibleMaximizedWindow(ws) {
        isVisible := true;
        return;
      }
      if mouseInDock || mouseInTrigger {
        isVisible := true;
      } else {
        hideScheduled := true;
      }
    }

    /** The hide timer fires: a pending hide hides the dock. */
    method HideTimerFires()
      modifies this
      ensures old(hideScheduled) ==> !isVisible && !hideScheduled
      ensures !old(hideScheduled) ==> unchanged(this)
    {
      if hideScheduled {
        isVisible := false;
        hideScheduled := false;
      }
    }
  }
}
