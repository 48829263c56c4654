/**
 The per-window controller of the window chrome: header drag, corner resize,
 maximize/restore with the saved pre-maximize frame, the deferred close and
 minimize, and the choice of what the content area shows.

 Each handler returns the actions it dispatches, in dispatch order; the store
 applies them with `ReduceAll`. The pointer, the element's measured size and
 the viewport size are parameters.
 */
module WindowComponent {
  import opened Wrappers
  import opened WindowTypes
  import opened WindowContext
  import opened Geometry
  import opened AppRegistry

  /** The resize floor. */
  const MinWidth: real := 400.0
  const MinHeight: real := 300.0

  /** Where a mouse-down landed: the header starts a drag, the corner handle a resize. */
  datatype InteractionMode = Drag | Resize

  /** A pointer position. */
  datatype Pointer = Pointer(clientX: real, clientY: real)

  /** What the content area of a window shows. */
  datatype Content = AppView(appId: int) | SettingsView(appId: int) | LoadFailed(isSettings: bool)

  /** The dragged position: the window moves by exactly the pointer's displacement. */
  function DraggedPosition(startLeft: real, startTop: real, startX: real, startY: real, p: Pointer): (r: Position)
    ensures r.x - startLeft == p.clientX - startX
    ensures r.y - startTop == p.clientY - startY
  {
    Position(startLeft + (p.clientX - startX), startTop + (p.clientY - startY))
  }

  /**
   The resized size: the start size plus the pointer's displacement, raised to
   the 400 by 300 floor where it would fall below it.
   */
  function ResizedSize(startWidth: real, startHeight: real, startX: real, startY: real, p: Pointer): (r: Size)
    ensures r.width >= MinWidth && r.height >= MinHeight
    ensures startWidth + (p.clientX - startX) >= MinWidth ==> r.width == startWidth + (p.clientX - startX)
    ensures startWidth + (p.clientX - startX) < MinWidth ==> r.width == MinWidth
    ensures startHeight + (p.clientY - startY) >= MinHeight ==> r.height == startHeight + (p.clientY - startY)
    ensures startHeight + (p.clientY - startY) < MinHeight ==> r.height == MinHeight
  {
    Size(Max(MinWidth, startWidth + (p.clientX - startX)), Max(MinHeight, startHeight + (p.clientY - startY)))
  }

  /**
   What the maximize control dispatches for a maximized window: move and
   resize to the saved frame, or to the centred default when nothing was
   saved, then RESTORE.
   */
  function RestoreActions(id: string, saved: Option<Frame>, vw: real, vh: real): seq<WindowAction>
  {
    var f := if saved.Some? then saved.value else CenteredDefault(vw, vh);
    [UpdateWindowPosition(id, f.position), UpdateWindowSize(id, f.size), RestoreWindow(id)]
  }

  /** The content area: the app's view, its settings view for a settings window, or a load-failure notice. */
  function ContentFor(w: Window, registry: seq<AppConfig>): (c: Content)
    ensures c.AppView? <==> !w.isSettings && FindApp(registry, w.appId).Some?
    ensures c.SettingsView? <==> w.isSettings && FindApp(registry, w.appId).Some? && FindApp(registry, w.appId).value.hasSettings
    ensures c.AppView? ==> c.appId == w.appId
    ensures c.SettingsView? ==> c.appId == w.appId
    ensures c.LoadFailed? ==> c.isSettings == w.isSettings
  {
    match FindApp(registry, w.appId)
    case None => LoadFailed(w.isSettings)
    case Some(app) =>
      if !w.isSettings then AppView(app.id)
      else if app.hasSettings then SettingsView(app.id)
      else LoadFailed(true)
  }

  /** The interaction state of one mounted window. */
  class WindowController {
    // the `dragState` ref
    var isDragging: bool
    var isResizing: bool
    var startX: real
    var startY: real
    var startWidth: real
    var startHeight: real
    var startLeft: real
    var startTop: real
    // pointer positions whose animation-frame callbacks have not run yet, oldest first
    var pendingFrames: seq<Pointer>
    // the frame saved when the window was maximized from this controller
    var previousState: Option<Frame>
    // exit animations in progress
    var isClosing: bool
    var isMinimizing: bool

    constructor ()
      ensures !isDragging && !isResizing
      ensures startX == 0.0 && startY == 0.0 && startWidth == 0.0 && startHeight == 0.0
      ensures startLeft == 0.0 && startTop == 0.0
      ensures pendingFrames == [] && previousState == None && !isClosing && !isMinimizing
    {
      isDragging, isResizing := false, false;
      startX, startY, startWidth, startHeight, startLeft, startTop := 0.0, 0.0, 0.0, 0.0, 0.0, 0.0;
      pendingFrames := [];
      previousState := None;
      isClosing, isMinimizing := false, false;
    }

    /** Neither a drag nor a resize is in progress. */
    predicate Idle()
      reads this
    {
      !isDragging && !isResizing
    }

    /**
     What one animation-frame callback dispatches for pointer `p` under the
     current drag state: a position update while dragging, a size update
     (never below the floor) while resizing, both if both flags are set.
     */
    function FrameActions(id: string, p: Pointer): (acts: seq<WindowAction>)
      reads this
      ensures acts == [] <==> Idle()
      ensures |acts| == (if isDragging then 1 else 0) + (if isResizing then 1 else 0)
      ensures isDragging ==> acts[0] == UpdateWindowPosition(id, DraggedPosition(startLeft, startTop, startX, startY, p))
      ensures isResizing ==> acts[|acts| - 1] == UpdateWindowSize(id, ResizedSize(startWidth, startHeight, startX, startY, p))
      ensures forall a :: a in acts ==> (a.UpdateWindowPosition? || a.UpdateWindowSize?) && a.id == id
      ensures forall a :: a in acts && a.UpdateWindowSize? ==> a.size.width >= MinWidth && a.size.height >= MinHeight
    {
      (if isDragging then [UpdateWindowPosition(id, DraggedPosition(startLeft, startTop, startX, startY, p))] else []) +
      (if isResizing then [UpdateWindowSize(id, ResizedSize(startWidth, startHeight, startX, startY, p))] else [])
    }

    /** What the queued callbacks for `ps` dispatch, in order, under the current drag state. */
    function QueuedActions(id: string, ps: seq<Pointer>): (acts: seq<WindowAction>)
      reads this
      ensures Idle() ==> acts == []
      ensures forall a :: a in acts ==> (a.UpdateWindowPosition? || a.UpdateWindowSize?) && a.id == id
      ensures forall a :: a in acts && a.UpdateWindowSize? ==> a.size.width >= MinWidth && a.size.height >= MinHeight
      decreases |ps|
    {
      if ps == [] then [] else QueuedActions(id, ps[..|ps| - 1]) + FrameActions(id, ps[|ps| - 1])
    }

    /**
     Mouse-down on the header (`Drag`) or on the resize handle (`Resize`).
     Ignored on a maximized window; otherwise it sets the mode's flag, records
     the pointer, the measured size and the window's position, and focuses the
     window.
     */
    method MouseDown(w: Window, mode: InteractionMode, clientX: real, clientY: real, rectWidth: real, rectHeight: real)
      returns (actions: seq<WindowAction>)
      modifies this
      ensures w.isMaximized ==> actions == [] && unchanged(this)
      ensures !w.isMaximized ==>
        && actions == [FocusWindow(w.id)]
        && isDragging == (old(isDragging) || mode == Drag)
        && isResizing == (old(isResizing) || mode == Resize)
        && startX == clientX && startY == clientY
        && startWidth == rectWidth && startHeight == rectHeight
        && startLeft == w.position.x && startTop == w.position.y
        && pendingFrames == old(pendingFrames) && previousState == old(previousState)
        && isClosing == old(isClosing) && isMinimizing == old(isMinimizing)
      ensures !w.isMaximized && old(Idle()) ==> (isDragging <==> mode == Drag) && (isResizing <==> mode == Resize)
    {
      if w.isMaximized {
        return [];
      }
      if mode == Drag {
        isDragging := true;
      } else {
        isResizing := true;
      }
      startX := clientX;
      startY := clientY;
      startWidth := rectWidth;
      startHeight := rectHeight;
      startLeft := w.position.x;
      startTop := w.position.y;
      actions := [FocusWindow(w.id)];
    }

    /** Mouse-move: while a mode is active, queue an animation-frame callback for the pointer. */
    method MouseMove(p: Pointer)
      modifies this
      ensures old(Idle()) ==> unchanged(this)
      ensures !old(Idle()) ==> pendingFrames == old(pendingFrames) + [p]
      ensures isDragging == old(isDragging) && isResizing == old(isResizing)
      ensures startX == old(startX) && startY == old(startY) && startWidth == old(startWidth)
      ensures startHeight == old(startHeight) && startLeft == old(startLeft) && startTop == old(startTop)
      ensures previousState == old(previousState) && isClosing == old(isClosing) && isMinimizing == old(isMinimizing)
    {
      if !isDragging && !isResizing {
        return;
      }
      pendingFrames := pendingFrames + [p];
    }

    /**
     The next animation frame: the queued callbacks run in order, each reading
     the drag state as it is now, so callbacks queued before a mouse-up
     dispatch nothing.
     */
    method AnimationFrame(id: string) returns (actions: seq<WindowAction>)
      modifies this
      ensures actions == QueuedActions(id, old(pendingFrames))
      ensures pendingFrames == []
      ensures isDragging == old(isDragging) && isResizing == old(isResizing)
      ensures startX == old(startX) && startY == old(startY) && startWidth == old(startWidth)
      ensures startHeight == old(startHeight) && startLeft == old(startLeft) && startTop == old(startTop)
      ensures previousState == old(previousState) && isClosing == old(isClosing) && isMinimizing == old(isMinimizing)
    {
      var ps := pendingFrames;
      pendingFrames := [];
      actions := [];
      var i := 0;
      while i < |ps|
        invariant 0 <= i <= |ps|
        invariant actions == QueuedActions(id, ps[..i])
      {
        assert ps[..i + 1][..i] == ps[..i];
        actions := actions + FrameActions(id, ps[i]);
        i := i + 1;
      }
      assert ps[..|ps|] == ps;
    }

    /** Mouse-up anywhere: back to idle. */
    method MouseUp()
      modifies this
      ensures Idle()
      ensures startX == old(startX) && startY == old(startY) && startWidth == old(startWidth)
      ensures startHeight == old(startHeight) && startLeft == old(startLeft) && startTop == old(startTop)
      ensures pendingFrames == old(pendingFrames) && previousState == old(previousState)
      ensures isClosing == old(isClosing) && isMinimizing == old(isMinimizing)
    {
      isDragging := false;
      isResizing := false;
    }

    /**
     The maximize control. A maximized window goes back to the saved frame (or
     the centred default) and is restored; otherwise the current frame is
     saved and the window is maximized.
     */
    method MaximizeClick(w: Window, vw: real, vh: real) returns (actions: seq<WindowAction>)
      modifies this
      ensures w.isMaximized ==> actions == RestoreActions(w.id, old(previousState), vw, vh) && unchanged(this)
      ensures !w.isMaximized ==>
        && actions == [MaximizeWindow(w.id)]
        && previousState == Some(Frame(w.position, w.size))
        && isDragging == old(isDragging) && isResizing == old(isResizing)
        && startX == old(startX) && startY == old(startY) && startWidth == old(startWidth)
        && startHeight == old(startHeight) && startLeft == old(startLeft) && startTop == old(startTop)
        && pendingFrames == old(pendingFrames) && isClosing == old(isClosing) && isMinimizing == old(isMinimizing)
    {
      if w.isMaximized {
        var f := if previousState.Some? then previousState.value else CenteredDefault(vw, vh);
        actions := [UpdateWindowPosition(w.id, f.position), UpdateWindowSize(w.id, f.size), RestoreWindow(w.id)];
      } else {
        previousState := Some(Frame(w.position, w.size));
        actions := [MaximizeWindow(w.id)];
      }
    }

    /** A double-click on the header toggles maximize, unless it landed on a control button. */
    method HeaderDoubleClick(w: Window, onControlButton: bool, vw: real, vh: real) returns (actions: seq<WindowAction>)
      modifies this
      ensures onControlButton ==> actions == [] && unchanged(this)
      ensures !onControlButton && w.isMaximized ==> actions == RestoreActions(w.id, old(previousState), vw, vh) && unchanged(this)
      ensures !onControlButton && !w.isMaximized ==>
        && actions == [MaximizeWindow(w.id)]
        && previousState == Some(Frame(w.position, w.size))
        && isDragging == old(isDragging) && isResizing == old(isResizing)
        && startX == old(startX) && startY == old(startY) && startWidth == old(startWidth)
        && startHeight == old(startHeight) && startLeft == old(startLeft) && startTop == old(startTop)
        && pendingFrames == old(pendingFrames) && isClosing == old(isClosing) && isMinimizing == old(isMinimizing)
    {
      if onControlButton {
        return [];
      }
      actions := MaximizeClick(w, vw, vh);
    }

    /** The close control starts the exit animation; the CLOSE it returns is dispatched when the animation ends. */
    method RequestClose(w: Window) returns (deferred: WindowAction)
      modifies this
      ensures deferred == CloseWindow(w.id)
      ensures isClosing && isMinimizing == old(isMinimizing)
      ensures isDragging == old(isDragging) && isResizing == old(isResizing) && previousState == old(previousState)
      ensures startX == old(startX) && startY == old(startY) && startWidth == old(startWidth)
      ensures startHeight == old(startHeight) && startLeft == old(startLeft) && startTop == old(startTop)
      ensures pendingFrames == old(pendingFrames)
    {
      isClosing := true;
      deferred := CloseWindow(w.id);
    }

    /** The minimize control starts the exit animation; the MINIMIZE it returns is dispatched when the animation ends. */
    method RequestMinimize(w: Window) returns (deferred: WindowAction)
      modifies this
      ensures deferred == MinimizeWindow(w.id)
      ensures isMinimizing && isClosing == old(isClosing)
      ensures isDragging == old(isDragging) && isResizing == old(isResizing) && previousState == old(previousState)
      ensures startX == old(startX) && startY == old(startY) && startWidth == old(startWidth)
      ensures startHeight == old(startHeight) && startLeft == old(startLeft) && startTop == old(startTop)
      ensures pendingFrames == old(pendingFrames)
    {
      isMinimizing := true;
      deferred := MinimizeWindow(w.id);
    }

    /** The minimize animation has ended and its MINIMIZE has been dispatched. */
    method MinimizeCommitted()
      modifies this
      ensures !isMinimizing && isClosing == old(isClosing)
      ensures isDragging == old(isDragging) && isResizing == old(isResizing) && previousState == old(previousState)
      ensures startX == old(startX) && startY == old(startY) && startWidth == old(startWidth)
      ensures startHeight == old(startHeight) && startLeft == old(startLeft) && startTop == old(startTop)
      ensures pendingFrames == old(pendingFrames)
    {
      isMinimizing := false;
    }
  }

  /**
   Dispatching `RestoreActions` puts every window with the id at the chosen
   frame with both flags cleared; other windows, the active id and the
   counter are unchanged.
   */
  lemma RestoreActionsOutcome(s: WindowState, id: string, saved: Option<Frame>, vw: real, vh: real)
    ensures var f := if saved.Some? then saved.value else CenteredDefault(vw, vh);
      var r := ReduceAll(s, RestoreActions(id, saved, vw, vh));
      && |r.windows| == |s.windows|
      && (forall i :: 0 <= i < |s.windows| && s.windows[i].id == id ==>
            r.windows[i] == s.windows[i].(position := f.position, size := f.size,
                                          isMinimized := false, isMaximized := false))
      && (forall i :: 0 <= i < |s.windows| && s.windows[i].id != id ==> r.windows[i] == s.windows[i])
      && r.activeWindowId == s.activeWindowId && r.maxZIndex == s.maxZIndex
  {
    var f := if saved.Some? then saved.value else CenteredDefault(vw, vh);
    var s1 := Reduce(s, UpdateWindowPosition(id, f.position));
    var s2 := Reduce(s1, UpdateWindowSize(id, f.size));
    ReduceAllThree(s, UpdateWindowPosition(id, f.position), UpdateWindowSize(id, f.size), RestoreWindow(id));
    UpdatePositionReplaces(s, id, f.position);
    UpdateSizeReplaces(s1, id, f.size);
    RestoreWindowFlagsOnly(s2, id);
  }

  /**
   Maximize then restore through the maximize control brings a visible window
   back to exactly the record it had.
   */
  lemma MaximizeRestoreRoundTrip(s: WindowState, i: nat, vw: real, vh: real)
    requires i < |s.windows|
    requires !s.windows[i].isMaximized && !s.windows[i].isMinimized
    ensures var w := s.windows[i];
      var r := ReduceAll(s, [MaximizeWindow(w.id)] + RestoreActions(w.id, Some(Frame(w.position, w.size)), vw, vh));
      |r.windows| == |s.windows| && r.windows[i] == w
  {
    var w := s.windows[i];
    var s1 := Reduce(s, MaximizeWindow(w.id));
    ReduceAllConcat(s, [MaximizeWindow(w.id)], RestoreActions(w.id, Some(Frame(w.position, w.size)), vw, vh));
    ReduceAllOne(s, MaximizeWindow(w.id));
    MaximizeWindowFlagsOnly(s, w.id);
    RestoreActionsOutcome(s1, w.id, Some(Frame(w.position, w.size)), vw, vh);
  }

  /** A drag: start (100,100), pointer from (50,50) to (80,70), result (130,120). */
  lemma DragExample()
    ensures DraggedPosition(100.0, 100.0, 50.0, 50.0, Pointer(80.0, 70.0)) == Position(130.0, 120.0)
  {
  }
}
