/**
 The context menu's on-screen placement: flip left or up when the menu would
 overflow the viewport's 10px margin, then clamp to that margin.
 */
module ContextMenu {
  import opened Geometry

  const Margin: real := 10.0

  /**
   Placement along one axis for a pointer at `p`, a menu of extent `extent`
   and a viewport of extent `viewport`.
   */
  function PlaceAxis(p: real, extent: real, viewport: real): (r: real)
    ensures r >= Margin
    ensures p + extent <= viewport - Margin ==> r == Max(Margin, p)
    ensures p + extent > viewport - Margin ==> r == Max(Margin, p - extent)
    ensures Margin <= p && p + extent <= viewport - Margin ==> r == p
  {
    var flipped := if p + extent > viewport - Margin then p - extent else p;
    Max(Margin, flipped)
  }

  /**
   For a pointer inside a viewport with room for the menu and both margins,
   the placed menu lies within the viewport.
   */
  lemma PlacementStaysOnScreen(p: real, extent: real, viewport: real)
    requires 0.0 <= p <= viewport && 0.0 <= extent && extent + 2.0 * Margin <= viewport
    ensures Margin <= PlaceAxis(p, extent, viewport) && PlaceAxis(p, extent, viewport) + extent <= viewport
  {
  }

  /** An empty item list renders nothing, so no menu element exists to measure. */
  predicate Renders(itemCount: nat)
  {
    itemCount > 0
  }

  /** The menu's style state. */
  class MenuPlacement {
    var left: real
    var top: real
    var opacity: real

    constructor (x: real, y: real)
      ensures left == x && top == y && opacity == 0.0
    {
      left, top, opacity := x, y, 0.0;
    }

    /**
     The effect run when visibility or the anchor changes. Shown with a
     rendered menu: place it and make it opaque. Shown with no items: no
     element to measure, nothing changes. Hidden: transparent, same place.
     */
    method VisibilityChanged(visible: bool, x: real, y: real, itemCount: nat,
                             menuWidth: real, menuHeight: real, viewportWidth: real, viewportHeight: real)
      modifies this
      ensures visible && Renders(itemCount) ==>
        && left == PlaceAxis(x, menuWidth, viewportWidth)
        && top == PlaceAxis(y, menuHeight, viewportHeight)
        && opacity == 1.0
      ensures visible && !Renders(itemCount) ==> unchanged(this)
      ensures !visible ==> left == old(left) && top == old(top) && opacity == 0.0
    {
      if visible {
        if Renders(itemCount) {
          var finalX := x;
          var finalY := y;
          if x + menuWidth > viewportWidth - Margin {
            finalX := x - menuWidth;
          }
          if y + menuHeight > viewportHeight - Margin {
            finalY := y - menuHeight;
          }
          finalX := Max(Margin, finalX);
          finalY := Max(Margin, finalY);
          left, top, opacity := finalX, finalY, 1.0;
        }
      } else {
        opacity := 0.0;
      }
    }
  }
}
