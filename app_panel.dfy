/**
 The app panel: a click on an app card focuses the app's first window or
 opens one at the centred default frame.
 */
module AppPanel {
  import opened Wrappers
  import opened WindowTypes
  import opened WindowContext
  import opened Geometry
  import opened AppRegistry
  import opened Launcher

  /** The window an app-panel launch opens: the centred default frame for the viewport. */
  function PanelWindowSpec(app: AppConfig, newId: string, vw: real, vh: real): WindowSpec
  {
    var f := CenteredDefault(vw, vh);
    WindowSpec(newId, app.id, app.name, f.position, f.size, false)
  }

  /** Click on an app card. */
  function AppClickActions(ws: seq<Window>, app: AppConfig, newId: string, vw: real, vh: real): seq<WindowAction>
  {
    LaunchOrFocus(ws, app.id, [OpenWindow(PanelWindowSpec(app, newId, vw, vh))])
  }

  /**
   With no window of the app: exactly one OPEN and no MAXIMIZE. The new window
   is centred, at most 1200 by 800 and at most 80% of the viewport each way,
   not maximized, on top and active.
   */
  lemma AppClickOpensCentred(s: WindowState, app: AppConfig, newId: string, vw: real, vh: real)
    requires FindAppWindow(s.windows, app.id).None?
    ensures var acts := AppClickActions(s.windows, app, newId, vw, vh);
      var r := ReduceAll(s, acts);
      && |acts| == 1 && acts[0].OpenWindow?
      && |r.windows| == |s.windows| + 1
      && r.windows[..|s.windows|] == s.windows
      && var w := r.windows[|s.windows|];
      && w.id == newId && w.appId == app.id && w.title == app.name && !w.isSettings
      && !w.isMaximized && !w.isMinimized && w.zIndex == s.maxZIndex + 1
      && w.size.width <= 1200.0 && w.size.width <= 0.8 * vw
      && w.size.height <= 800.0 && w.size.height <= 0.8 * vh
      && 2.0 * w.position.x + w.size.width == vw && 2.0 * w.position.y + w.size.height == vh
      && (vw >= 0.0 && vh >= 0.0 ==> w.position.x >= 0.0 && w.position.y >= 0.0)
      && r.activeWindowId == Some(newId)
  {
    var spec := PanelWindowSpec(app, newId, vw, vh);
    ReduceAllOne(s, OpenWindow(spec));
    OpenWindowAppends(s, spec);
  }
}
