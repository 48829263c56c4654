/** The window manager renders every window of the store that is not minimized, in store order. */
module WindowManager {
  import opened Lists
  import opened WindowTypes

  /** `state.windows.filter(w => !w.isMinimized)` */
  function RenderedWindows(s: WindowState): seq<Window>
  {
    Filter(s.windows, (w: Window) => !w.isMinimized)
  }

  /**
   The rendered windows are exactly the non-minimized windows of the store,
   every copy of each, in store order: as many as the store holds less the
   minimized ones.
   */
  lemma RenderedWindowsAreTheVisibleOnes(s: WindowState)
    ensures forall w :: w in RenderedWindows(s) ==> !w.isMinimized
    ensures forall w :: w in s.windows && !w.isMinimized ==> w in RenderedWindows(s)
    ensures IsSubsequence(RenderedWindows(s), s.windows)
    ensures |RenderedWindows(s)| == |s.windows| - |Filter(s.windows, (w: Window) => w.isMinimized)|
  {
    FilterComplementLength(s.windows, (w: Window) => !w.isMinimized, (w: Window) => w.isMinimized);
    FilterMembership(s.windows, (w: Window) => !w.isMinimized);
    FilterIsSubsequence(s.windows, (w: Window) => !w.isMinimized);
  }

  /** With nothing minimized, every window is rendered. */
  lemma NothingMinimizedRendersAll(s: WindowState)
    requires forall i :: 0 <= i < |s.windows| ==> !s.windows[i].isMinimized
    ensures RenderedWindows(s) == s.windows
  {
    FilterKeepsAll(s.windows, (w: Window) => !w.isMinimized);
  }
}
