/**
 The data model of the window store: a window record, the actions that the
 store understands and the store's state.
 */
module WindowTypes {
  import opened Wrappers

  datatype Position = Position(x: real, y: real)

  datatype Size = Size(width: real, height: real)

  /**
   One open application instance. The React `icon` node is not part of the
   model; an absent `isSettings` is `false`, which is how the renderer reads it.
   */
  datatype Window = Window(
    id: string,
    appId: int,
    title: string,
    isMinimized: bool,
    isMaximized: bool,
    zIndex: int,
    position: Position,
    size: Size,
    isSettings: bool)

  /** The payload of OPEN_WINDOW: a window without `zIndex`, `isMinimized` and `isMaximized`. */
  datatype WindowSpec = WindowSpec(
    id: string,
    appId: int,
    title: string,
    position: Position,
    size: Size,
    isSettings: bool)

  /**
   The eight action kinds of the store, each with its payload. `Unrecognized`
   stands for an action object whose type tag is none of the eight, which the
   reducer's default branch receives.
   */
  datatype WindowAction =
    | OpenWindow(window: WindowSpec)
    | CloseWindow(id: string)
    | MinimizeWindow(id: string)
    | MaximizeWindow(id: string)
    | RestoreWindow(id: string)
    | UpdateWindowPosition(id: string, position: Position)
    | UpdateWindowSize(id: string, size: Size)
    | FocusWindow(id: string)
    | Unrecognized(tag: string)

  /** The whole store: windows in opening order, the active window and the z-order counter. */
  datatype WindowState = WindowState(
    windows: seq<Window>,
    activeWindowId: Option<string>,
    maxZIndex: int)
}
