/**
 * The preview surface's coordinate mapping: a pointer position over the
 * surface's bounding rectangle becomes a clamped percentage position, and a
 * percentage position is placed back on the surface by `left: x%` / `top: y%`.
 */
module Pointer {
  import opened Layers

  /** `getBoundingClientRect()` of the preview surface. */
  datatype Rect = Rect(left: real, top: real, width: real, height: real)

  predicate NonEmpty(rect: Rect) {
    rect.width > 0.0 && rect.height > 0.0
  }

  function Min(a: real, b: real): real { if a <= b then a else b }
  function Max(a: real, b: real): real { if a >= b then a else b }

  /** `Math.min(Math.max(v, 0), 100)`. */
  function Clamp(v: real): (r: real)
    ensures 0.0 <= r <= 100.0
    ensures v < 0.0 ==> r == 0.0
    ensures v > 100.0 ==> r == 100.0
    ensures 0.0 <= v <= 100.0 ==> r == v
  {
    Min(Max(v, 0.0), 100.0)
  }

  /** Where a percentage of one axis lies on that axis. */
  function Place(percent: real, origin: real, extent: real): (r: real)
    ensures 0.0 <= percent <= 100.0 && extent >= 0.0 ==> origin <= r <= origin + extent
  {
    ShareWithin(percent, extent);
    origin + percent / 100.0 * extent
  }

  /** A share between 0 and 100 percent of a non-negative extent lies within it. */
  lemma ShareWithin(percent: real, extent: real)
    ensures 0.0 <= percent <= 100.0 && extent >= 0.0 ==> 0.0 <= percent / 100.0 * extent <= extent
  {
    if 0.0 <= percent <= 100.0 && extent >= 0.0 {
      var q := percent / 100.0;
      assert 0.0 <= q <= 1.0;
      assert 0.0 <= q * extent;
      assert extent - q * extent == (1.0 - q) * extent;
      assert 0.0 <= (1.0 - q) * extent;
    }
  }

  /** `((client - origin) / extent) * 100`. */
  function Percent(client: real, origin: real, extent: real): (r: real)
    requires extent > 0.0
    ensures Place(r, origin, extent) == client
  {
    ((client - origin) / extent) * 100.0
  }

  /** The position a drag move writes into the dragged layer. */
  function DragTarget(pointerX: real, pointerY: real, rect: Rect): (p: Position)
    requires NonEmpty(rect)
    ensures 0.0 <= p.x <= 100.0 && 0.0 <= p.y <= 100.0
  {
    Position(Clamp(Percent(pointerX, rect.left, rect.width)), Clamp(Percent(pointerY, rect.top, rect.height)))
  }

  /** Where the preview draws a layer's centre on screen (`left: x%`, `top: y%` of the surface). */
  function PreviewPoint(p: Position, rect: Rect): (c: (real, real))
    ensures 0.0 <= p.x <= 100.0 && rect.width >= 0.0 ==> rect.left <= c.0 <= rect.left + rect.width
    ensures 0.0 <= p.y <= 100.0 && rect.height >= 0.0 ==> rect.top <= c.1 <= rect.top + rect.height
  {
    (Place(p.x, rect.left, rect.width), Place(p.y, rect.top, rect.height))
  }

  /** Where a percentage lands on one axis: before the surface, within it, or after it. */
  lemma PercentCases(client: real, origin: real, extent: real)
    requires extent > 0.0
    ensures client < origin ==> Percent(client, origin, extent) < 0.0
    ensures client > origin + extent ==> Percent(client, origin, extent) > 100.0
    ensures origin <= client <= origin + extent ==> 0.0 <= Percent(client, origin, extent) <= 100.0
  {
    var q := (client - origin) / extent;
    assert q * extent == client - origin;
    if client < origin {
      assert q < 0.0;
    }
    if client > origin + extent {
      assert q > 1.0;
    }
    if origin <= client <= origin + extent {
      assert 0.0 <= q <= 1.0;
    }
  }

  /**
   * A pointer left of or above the surface drags to 0 on that axis, right of or
   * below it to 100, and inside it to the exact ratio.
   */
  lemma DragTargetCases(pointerX: real, pointerY: real, rect: Rect)
    requires NonEmpty(rect)
    ensures pointerX < rect.left ==> DragTarget(pointerX, pointerY, rect).x == 0.0
    ensures pointerX > rect.left + rect.width ==> DragTarget(pointerX, pointerY, rect).x == 100.0
    ensures rect.left <= pointerX <= rect.left + rect.width ==>
      DragTarget(pointerX, pointerY, rect).x == (pointerX - rect.left) / rect.width * 100.0
    ensures pointerY < rect.top ==> DragTarget(pointerX, pointerY, rect).y == 0.0
    ensures pointerY > rect.top + rect.height ==> DragTarget(pointerX, pointerY, rect).y == 100.0
    ensures rect.top <= pointerY <= rect.top + rect.height ==>
      DragTarget(pointerX, pointerY, rect).y == (pointerY - rect.top) / rect.height * 100.0
  {
    PercentCases(pointerX, rect.left, rect.width);
    PercentCases(pointerY, rect.top, rect.height);
  }

  /** On one axis, placing the clamped percentage of a pointer inside the surface gives the pointer back. */
  lemma PlacePercent(client: real, origin: real, extent: real)
    requires extent > 0.0 && origin <= client <= origin + extent
    ensures Place(Clamp(Percent(client, origin, extent)), origin, extent) == client
  {
    PercentCases(client, origin, extent);
  }

  /** A layer dragged to a pointer inside the surface is drawn exactly under that pointer. */
  lemma DragThenPreview(pointerX: real, pointerY: real, rect: Rect)
    requires NonEmpty(rect)
    requires rect.left <= pointerX <= rect.left + rect.width
    requires rect.top <= pointerY <= rect.top + rect.height
    ensures PreviewPoint(DragTarget(pointerX, pointerY, rect), rect) == (pointerX, pointerY)
  {
    PlacePercent(pointerX, rect.left, rect.width);
    PlacePercent(pointerY, rect.top, rect.height);
  }

  /** Dragging on a 100x100 surface at the origin: pixel (10,10) is 10%, pixel (90,90) is 90%. */
  lemma DragOnHundredSquare()
    ensures DragTarget(10.0, 10.0, Rect(0.0, 0.0, 100.0, 100.0)) == Position(10.0, 10.0)
    ensures DragTarget(90.0, 90.0, Rect(0.0, 0.0, 100.0, 100.0)) == Position(90.0, 90.0)
    ensures DragTarget(-5.0, 250.0, Rect(0.0, 0.0, 100.0, 100.0)) == Position(0.0, 100.0)
  {
  }
}
