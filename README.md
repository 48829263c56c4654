# Window manager core, modelled in Dafny

This project models the window-management core of a browser "desktop" shell:
the reducer-driven window store, the per-window drag/resize/maximize
controller, the dock and app panel launchers with the dock's context menu and
auto-hide, the context menu's placement, and the window manager's choice of
windows to render. The model is organised by source file:

| module (file) | source | form |
|---|---|---|
| `WindowTypes` (window_types.dfy) | src/contexts/types.ts | datatypes: `Window`, `WindowSpec` (the OPEN payload), `WindowAction` (the eight actions), `WindowState` |
| `WindowContext` (window_context.dfy) | src/contexts/WindowContext.tsx | `InitialState`, the reducer `Reduce`, `ReduceAll` for dispatching a sequence, and lemmas per action |
| `WindowComponent` (window_component.dfy) | src/components/Window/index.tsx | class `WindowController` with the `dragState` fields, `previousState` and the exit-animation flags; pure drag/resize/restore maths |
| `Dock` (dock.dfy) | src/components/Dock/index.tsx | launch/restart decisions as action lists, `GetContextMenuItems` as a method that appends, class `DockVisibility` |
| `AppPanel` (app_panel.dfy) | src/components/AppPanel/index.tsx | launch decision as an action list |
| `ContextMenu` (context_menu.dfy) | src/components/ContextMenu/index.tsx | placement function and class `MenuPlacement` |
| `WindowManager` (window_manager.dfy) | src/components/WindowManager/index.tsx | the rendered-window filter |
| `Geometry`, `Launcher`, `AppRegistry`, `Lists`, `Wrappers` | shared | centred default frame; open-or-focus shared by dock and panel; the registry entry; `map`/`filter`/`find`; `Option` |

Modelling choices:

- A handler "dispatches" by returning the actions it dispatches, in order.
  `WindowContext.ReduceAll` applies such a list to the store, and the lemmas
  about a handler's outcome are stated through it.
- Coordinates and sizes are `real`. The source uses JavaScript numbers, and
  the model does not reproduce floating-point rounding. `0.8 * innerWidth` is
  the exact real product. `zIndex` and `maxZIndex` are `int`.
- Window ids built from the clock (`window-${Date.now()}`,
  `settings-${Date.now()}`) are a parameter `newId`. The pointer coordinates,
  the measured element size (`getBoundingClientRect`, `offsetWidth`,
  `offsetHeight`), the viewport size and the answer to "did the
  double-click land on a control button" are parameters too.
- The app registry is a sequence of `AppConfig(id, name, hasSettings,
  hasInfo)`. The dock receives that same registry as its `apps`, so one
  sequence serves both lookups.
- `isSettings?` is a `bool`, and an absent value is `false`. The only reader
  tests its truthiness.
- The reducer's `default` branch is reached by `Unrecognized(tag)`, which
  stands for an action object whose type is none of the eight.
- The timers are modelled as state that the caller commits later, not as
  time. The 300ms close and minimize delays become the deferred action
  returned by `RequestClose`/`RequestMinimize`. The dock's 1000ms hide
  becomes `hideScheduled` plus `HideTimerFires`. As written, the
  restart's delayed reopen is folded into `RestartAsWritten`, which decides
  on the windows from before the close; the corrected reopen, deciding on
  the windows current when the delay ends, is the separate `RestartReopen`. Each `requestAnimationFrame` callback becomes an
  entry of `pendingFrames`, which `AnimationFrame` runs in order against the
  drag state current at that moment.
- The drag state keeps the source's two flags, `isDragging` and
  `isResizing`, rather than a three-valued mode. A mouse-down sets its own
  flag and does not clear the other. From idle, exactly one flag ends up
  set (`MouseDown`'s last ensures).

Behaviour of the code worth knowing when reading the model:

- The 400 by 300 floor is applied only by the resize controller. The reducer
  stores any size. The dock itself opens windows at the viewport size, which
  may be smaller than the floor.
- Pointer moves are not coalesced to one update per frame. Each move queues
  its own frame callback, and every callback runs.
- A mouse-down on a maximized window is ignored entirely, so it does not
  focus the window either.
- Restart does not reopen the app; see Findings.

## Model

| member | source | states |
|---|---|---|
| `WindowContext.InitialState` | src/contexts/WindowContext.tsx:4-8 | the initial store; characterised by `InitialStateIsEmpty` and `ReachableStatesAreZOrdered` |
| `WindowContext.Reduce` | src/contexts/WindowContext.tsx:10-82 | `windowReducer`, one case per action type plus the default; characterised action by action by the lemmas from `OpenWindowAppends` to `UnrecognizedIsNoOp`, and as a whole by `ReducePreservesZOrder`, `UpdateActionsIdempotent` and `AbsentIdStaysAbsent` |
| `WindowContext.ReduceAll` | src/contexts/WindowContext.tsx:84-97 | dispatching a list of actions in order through `useReducer`'s `dispatch`; characterised by `ReduceAllConcat` and `ReduceAllPreservesZOrder` |
| `WindowContext.InitialStateIsEmpty` | src/contexts/WindowContext.tsx:4-8 | the initial store has no windows, no active window, counter 0, and satisfies the z-order invariant |
| `WindowContext.OpenWindowAppends` | src/contexts/WindowContext.tsx:12-26 | OPEN appends exactly one window built from the payload with both flags false and zIndex = old counter + 1; earlier windows are unchanged; the new id becomes active and the counter takes the new value |
| `WindowContext.OpenAcceptsDuplicateId` | src/contexts/WindowContext.tsx:22 | OPEN with an id already present still appends, leaving two windows with that id |
| `WindowContext.OpenFreshIdIsUnique` | src/contexts/WindowContext.tsx:12-26 | when the id was new, the appended window is the only one carrying it |
| `WindowContext.OpenIsTopmost` | src/contexts/WindowContext.tsx:13-24 | under the z-order invariant the opened window's zIndex is strictly above every other window's |
| `WindowContext.CloseWindowRemoves` | src/contexts/WindowContext.tsx:27-32 | CLOSE keeps exactly the windows with another id, every copy of each (a subsequence in original order whose length is the old length less the windows with the id), leaves none with the id and changes nothing for an absent id; the active id becomes null iff it was null or equal to the id, is otherwise kept; the counter is unchanged |
| `WindowContext.MinimizeWindowFlagsOnly` | src/contexts/WindowContext.tsx:33-39 | MINIMIZE sets `isMinimized` on exactly the matching windows and changes no other field, no length or order, no active id, no counter |
| `WindowContext.MaximizeWindowFlagsOnly` | src/contexts/WindowContext.tsx:40-46 | MAXIMIZE sets `isMaximized` on exactly the matching windows and changes nothing else (position and size included) |
| `WindowContext.RestoreWindowFlagsOnly` | src/contexts/WindowContext.tsx:47-53 | RESTORE clears both flags of the matching windows whatever they were, leaves other windows equal, and changes nothing else |
| `WindowContext.UpdatePositionReplaces` | src/contexts/WindowContext.tsx:54-60 | the matching windows get exactly the given position (no clamping), nothing else changes, and an absent id leaves the whole state equal |
| `WindowContext.UpdateSizeReplaces` | src/contexts/WindowContext.tsx:61-67 | the matching windows get exactly the given size (no clamping), nothing else changes, and an absent id leaves the whole state equal |
| `WindowContext.FocusWindowRaises` | src/contexts/WindowContext.tsx:68-78 | FOCUS sets the matching windows' zIndex to counter + 1 and keeps every other field and window; it sets the active id and increments the counter even when no window has the id |
| `WindowContext.FocusIsTopmost` | src/contexts/WindowContext.tsx:68-78 | under the z-order invariant every focused window is strictly above every window with another id |
| `WindowContext.UnrecognizedIsNoOp` | src/contexts/WindowContext.tsx:79-80 | an action of unknown type returns the state unchanged |
| `WindowContext.ReducePreservesZOrder` | src/contexts/WindowContext.tsx:10-82 | every action keeps every zIndex at or below the counter, and the counter never decreases |
| `WindowContext.UpdateActionsIdempotent` | src/contexts/WindowContext.tsx:33-67 | MINIMIZE, MAXIMIZE, RESTORE and the position and size updates are idempotent |
| `WindowContext.AbsentIdStaysAbsent` | src/contexts/WindowContext.tsx:10-82 | a closed id is not resurrected by any action except an OPEN reusing that id |
| `WindowContext.ReduceAllConcat` | src/contexts/WindowContext.tsx:90 | dispatching two lists in turn equals dispatching their concatenation |
| `WindowContext.ReduceAllPreservesZOrder` | src/contexts/WindowContext.tsx:10-82 | the z-order invariant and the counter's monotonicity hold across any dispatch sequence |
| `WindowContext.ReachableStatesAreZOrdered` | src/contexts/WindowContext.tsx:4-90 | every state reachable from the initial state satisfies the z-order invariant |
| `WindowContext.OpenOpenFocusScenario` | src/contexts/WindowContext.tsx:12-78 | open W1, open W2, focus W1 from the initial state: W1 has zIndex 3 and is active, W2 keeps 2, counter 3 |
| `Geometry.CenteredDefault` | src/components/Window/index.tsx:289-310 | the default frame has width ≤ 1200 and ≤ 0.8·vw (equal to one of them), height ≤ 800 and ≤ 0.8·vh, is centred (2x + w = vw, 2y + h = vh), and has non-negative position for a non-negative viewport |
| `WindowComponent.DraggedPosition` | src/components/Window/index.tsx:205-218 | the dragged window moves by exactly the pointer's displacement from the mouse-down point |
| `WindowComponent.ResizedSize` | src/components/Window/index.tsx:221-234 | the resized width is ≥ 400 and the height ≥ 300; each equals start + delta when that is at or above the floor, else the floor |
| `WindowComponent.ContentFor` | src/components/Window/index.tsx:346-347 | the app view is shown iff the window is not a settings window and its app is registered; the settings view iff it is one and the app declares settings; otherwise the load-failure notice |
| `WindowComponent.WindowController.constructor` | src/components/Window/index.tsx:151-171 | a new controller is idle, with zeroed start fields, no queued frames, no saved frame and no exit animation |
| `WindowComponent.WindowController.FrameActions` | src/components/Window/index.tsx:204-236 | a frame callback dispatches nothing iff idle; a position update while dragging and a size update (never below the floor) while resizing, both for this window |
| `WindowComponent.WindowController.QueuedActions` | src/components/Window/index.tsx:201-237 | the queued callbacks together dispatch nothing when idle, only position and size updates of this window otherwise, and every size respects the floor |
| `WindowComponent.WindowController.MouseDown` | src/components/Window/index.tsx:179-199 | on a maximized window nothing changes and nothing is dispatched; otherwise the mode's flag is set, the pointer, the measured size and the window position are recorded, and FOCUS is dispatched; from idle exactly one mode results |
| `WindowComponent.WindowController.MouseMove` | src/components/Window/index.tsx:201-204 | an idle move changes nothing; otherwise it queues the pointer for the next frame |
| `WindowComponent.WindowController.AnimationFrame` | src/components/Window/index.tsx:204-236 | the queued callbacks run in order under the current drag state, and the queue is emptied |
| `WindowComponent.WindowController.MouseUp` | src/components/Window/index.tsx:239-244 | mouse-up returns to idle from any mode and changes nothing else |
| `WindowComponent.WindowController.MaximizeClick` | src/components/Window/index.tsx:271-320 | on a non-maximized window it saves the current position and size and dispatches MAXIMIZE; on a maximized one it dispatches position and size from the saved frame (or the centred default) then RESTORE |
| `WindowComponent.WindowController.HeaderDoubleClick` | src/components/Window/index.tsx:322-328 | a double-click on a control button is ignored; otherwise it acts as the maximize control |
| `WindowComponent.WindowController.RequestClose` | src/components/Window/index.tsx:330-335 | close starts the exit animation and defers CLOSE of this window |
| `WindowComponent.WindowController.RequestMinimize` | src/components/Window/index.tsx:337-340 | minimize starts the exit animation and defers MINIMIZE of this window |
| `WindowComponent.WindowController.MinimizeCommitted` | src/components/Window/index.tsx:339-342 | when the deferred MINIMIZE is dispatched, the minimizing animation flag is cleared |
| `WindowComponent.RestoreActions` | src/components/Window/index.tsx:272-312 | the three dispatches of the restore branch, at the saved frame or else the centred default; characterised by `RestoreActionsOutcome` and `MaximizeRestoreRoundTrip` |
| `WindowComponent.RestoreActionsOutcome` | src/components/Window/index.tsx:272-312 | the restore dispatches put every window with the id at the chosen frame with both flags false and leave everything else unchanged |
| `WindowComponent.MaximizeRestoreRoundTrip` | src/components/Window/index.tsx:271-320 | maximize followed by restore with the saved frame gives back exactly the window record from before the maximize |
| `WindowComponent.DragExample` | src/components/Window/index.tsx:205-218 | start (100,100), pointer (50,50) to (80,70): position (130,120) |
| `AppRegistry.FindApp` | src/components/Dock/index.tsx:193-194 | the registry lookup returns a registered entry with that id, and nothing iff none has it |
| `Launcher.FindAppWindow` | src/components/Dock/index.tsx:146 | the lookup returns the first window with the app id, settings windows included, and nothing iff none has it |
| `Launcher.RestoreAndFocus` | src/components/Dock/index.tsx:148-152 | RESTORE only when the window is minimized, then FOCUS; characterised by `RestoreAndFocusBringsToFront` |
| `Launcher.RestoreAndFocusBringsToFront` | src/components/Dock/index.tsx:148-152 | restore-if-minimized then focus leaves the window visible, on top and active, with its geometry kept (and unmaximized if it had been minimized); no window is added or removed and windows with other ids are unchanged |
| `Launcher.LaunchOrFocus` | src/components/Dock/index.tsx:145-165 | the click handler shared by the dock and the app panel (src/components/AppPanel/index.tsx:56-85 has the same branch): focus the app's first window or dispatch the launcher's own open; characterised by `LaunchFocusesExisting` |
| `Launcher.LaunchFocusesExisting` | src/components/Dock/index.tsx:145-152 | with a window of the app, a dock or panel click dispatches no OPEN, RESTORE iff the window is minimized, FOCUS last, and the window ends visible, on top and active with the window count unchanged |
| `Dock.HasVisibleMaximizedWindow` | src/components/Dock/index.tsx:119 | `some` window is maximized and not minimized; the condition `InputsChanged` branches on |
| `Dock.AppClickActions` | src/components/Dock/index.tsx:145-165 | the dock's click handler, opening a viewport-sized window at the origin and maximizing it; characterised by `Launcher.LaunchFocusesExisting`, `AppClickOpensMaximized` and `SettingsWindowBlocksLaunch` |
| `Dock.AppClickOpensMaximized` | src/components/Dock/index.tsx:153-164 | without one, the dock opens a viewport-sized window at (0,0) that ends maximized, visible, on top and active; other windows are kept when the new id is new |
| `Dock.SettingsWindowBlocksLaunch` | src/components/Dock/index.tsx:146 | in any store whose first window of the app is a settings window, the click restores and focuses that window instead of launching |
| `Dock.CloseAppWindow` | src/components/Dock/index.tsx:167-170 | restart and the close item dispatch CLOSE of the app's first window, and nothing when the app has none |
| `Dock.RestartAsWritten` | src/components/Dock/index.tsx:167-176 | restart as written: the close, then the click handler over the windows from before the close; characterised by `StaleRestartDoesNotReopen` |
| `Dock.RestartReopen` | src/components/Dock/index.tsx:171-174 | the reopen decided on the windows current when the delay ends; characterised by `RestartReopens` |
| `Dock.StaleRestartDoesNotReopen` | src/components/Dock/index.tsx:167-176 | as written, restarting an app whose windows share one id leaves no window of the app and an active id that names no window |
| `Dock.RestartReopens` | src/components/Dock/index.tsx:167-176 | corrected, the close removes the app's window and the reopen launches a new maximized, active window of the app |
| `Dock.GetContextMenuItems` | src/components/Dock/index.tsx:191-277 | no items for an unknown app; otherwise exactly the list `MenuShape` spells out: status, divider and open first, then restart and close iff the app has a window, a divider, settings iff declared, info iff declared, in that order and with that count |
| `Dock.ItemsForSelectedApp` | src/components/Dock/index.tsx:315 | no items while no app, or app id 0, is selected, nor for an unregistered app; otherwise exactly the app's menu as `GetContextMenuItems` builds it |
| `Dock.SettingsWindowSpec` | src/components/Dock/index.tsx:247-256 | the settings window is flagged as settings, at (100,100), 600 by 400, for the app |
| `Dock.MenuItemActions` | src/components/Dock/index.tsx:212-272 | what each menu item dispatches: open and settings launch, restart and close dispatch the close, the others nothing; characterised by `SettingsItemOpensSettingsWindow`, `CloseAppWindow` and the click-handler lemmas |
| `Dock.SettingsItemOpensSettingsWindow` | src/components/Dock/index.tsx:241-258 | the settings item appends one more window, with id `newId`, a settings window of the app at (100,100), 600 by 400, that is active and neither minimized nor maximized; the earlier windows are kept |
| `Dock.DockItemFlags` | src/components/Dock/index.tsx:293-295 | an item is active iff its app's first window is not minimized and minimized iff it is; never both, and one of them iff the app has a window |
| `Dock.DockVisibility.constructor` | src/components/Dock/index.tsx:91 | the dock starts visible with no hide pending |
| `Dock.DockVisibility.InputsChanged` | src/components/Dock/index.tsx:121-143 | without a visible maximized window the dock is shown; with the pointer in the dock or trigger strip it is shown and no hide is pending; otherwise a hide is scheduled and visibility is kept for now |
| `Dock.DockVisibility.HideTimerFires` | src/components/Dock/index.tsx:133-135 | a pending hide hides the dock; with none, nothing changes |
| `AppPanel.AppClickActions` | src/components/AppPanel/index.tsx:56-85 | the panel's click handler, opening a window at the centred default frame; characterised by `Launcher.LaunchFocusesExisting` and `AppClickOpensCentred` |
| `AppPanel.AppClickOpensCentred` | src/components/AppPanel/index.tsx:64-84 | without one, exactly one OPEN and no MAXIMIZE: the new window is centred, at most 1200 by 800 and 80% of the viewport, not maximized, on top and active, and earlier windows are unchanged |
| `WindowManager.RenderedWindows` | src/components/WindowManager/index.tsx:10-14 | the windows passed to the renderer; characterised by `RenderedWindowsAreTheVisibleOnes` and `NothingMinimizedRendersAll` |
| `WindowManager.RenderedWindowsAreTheVisibleOnes` | src/components/WindowManager/index.tsx:10-14 | every rendered window is non-minimized and every non-minimized window is rendered, every copy of each, in store order (a subsequence as long as the store less its minimized windows) |
| `WindowManager.NothingMinimizedRendersAll` | src/components/WindowManager/index.tsx:10-14 | with no window minimized, the rendered list is the store's list |
| `ContextMenu.PlaceAxis` | src/components/ContextMenu/index.tsx:75-90 | the placed coordinate is ≥ 10; it flips to p − extent before the clamp when p + extent overflows viewport − 10, is max(10, p) when it fits, and is exactly p when it fits within both margins |
| `ContextMenu.PlacementStaysOnScreen` | src/components/ContextMenu/index.tsx:78-90 | for a pointer inside a viewport with room for the menu and both margins, the menu lies inside the viewport |
| `ContextMenu.MenuPlacement.constructor` | src/components/ContextMenu/index.tsx:47-55 | the menu starts at the anchor, transparent |
| `ContextMenu.MenuPlacement.VisibilityChanged` | src/components/ContextMenu/index.tsx:57-110 | shown with items: placed on both axes and opaque; shown with no items: nothing renders and nothing changes; hidden: transparent at the previous place |

## Left out

- Rendering, styled-component CSS, the enter/exit animations and the `isOpening` timer are not modelled. Neither are React `Suspense` and `ErrorBoundary`, the loading spinner, the info modal's contents or the presentational components, because they carry no state-management logic.
- The window `icon` is not modelled, because it is a React node that the core only passes through.
- Event-listener registration and removal, and the effect re-registering handlers when the window moves, are not modelled, because the drag state survives them unchanged. The context menu's click-outside listener and its close-on-click are left out with them.
- Time is not modelled. The 300ms, 1000ms and animation-frame delays appear only as pending state that the caller commits.
- The `isDragging`/`isResizing` React state copies of the ref flags are not modelled separately, because they only feed styling.
- The info item only opens a dialog, so it dispatches no action in the model.
- Floating-point rounding of JavaScript numbers is not modelled: coordinates are exact reals.
- The weather hook, the date formatting, the sidebars, the layout and the iframe app wrappers are outside the window-management core.
- Dock.DockVisibility.InputsChanged: assumes the caller runs it only when the pointer-in-dock flag, the pointer-in-trigger flag or `HasVisibleMaximizedWindow` changes, as React re-runs the effect on its dependency list; React's scheduling is not modelled.

## Findings

| source | as written | input that shows it | evidently intended | confidence | as-written member | corrected member |
|---|---|---|---|---|---|---|
| src/components/Dock/index.tsx:167-176 | the delayed reopen calls the `handleAppClick` closure of the render that scheduled it, whose `state` still holds the window just closed | restart of an app whose only window is W: CLOSE(W.id), then one second later FOCUS(W.id) (after RESTORE(W.id) if W was minimized) and no OPEN; the app stays closed and `activeWindowId` names no window | the reopen decides on the windows current when the delay ends, so it opens a new maximized window of the app | high, not executed | `Dock.StaleRestartDoesNotReopen` (over `Dock.RestartAsWritten`) | `Dock.RestartReopens` (over `Dock.CloseAppWindow` and `Dock.RestartReopen`) |
