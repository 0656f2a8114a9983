/**
 * Drag updaters (which write the filtered position into the element's
 * style) and the top-left drag anchor.  Layout reads (relX/relY, and
 * xLeft/xTop for the anchor) are parameters.
 */
module DragUpdaters {
  import opened Wrappers
  import opened Points

  datatype Updater =
    | TopLeft          // DragUpdaterTopLeft
    | NullUpdater      // NullUpdater
    | Horizontal       // HorizontalDragUpdater
    | Vertical         // VerticalDragUpdater
    | CustomUpdater(hasStart: bool, hasMove: bool, hasEnd: bool)

  /** `updater.start` is defined: none of the concrete updaters defines one. */
  predicate HasStart(u: Updater) { u.CustomUpdater? && u.hasStart }

  /** `updater.move` is defined: every concrete updater defines one. */
  predicate HasMove(u: Updater) { !u.CustomUpdater? || u.hasMove }

  /** `updater.end` is defined: none of the concrete updaters defines one. */
  predicate HasEnd(u: Updater) { u.CustomUpdater? && u.hasEnd }

  /** `el.style.left` and `el.style.top` in pixels; None while never written. */
  datatype Style = Style(left: Option<real>, top: Option<real>)

  const Unstyled := Style(None, None)

  /**
   * The effect of `updater.move(el, evt)` on the element's style, with
   * `rel` = (relX(el), relY(el)) read from the layout before the write.
   * What a custom updater writes is not modelled: it leaves the style alone.
   */
  function MoveStyle(u: Updater, s: Style, e: DragEvent, rel: Point): (s': Style)
    requires HasMove(u)
    ensures u.TopLeft? ==> s' == Style(Some(e.pos.x), Some(e.pos.y))
    ensures u.NullUpdater? || u.CustomUpdater? ==> s' == s
    ensures u.Horizontal? ==> s'.left == Some(rel.x + e.delta.x) && s'.top == s.top
    ensures u.Vertical? ==> s'.top == Some(rel.y + e.delta.y) && s'.left == s.left
  {
    match u
    case TopLeft => Style(Some(e.pos.x), Some(e.pos.y))
    case NullUpdater => s
    case Horizontal => s.(left := Some(rel.x + e.delta.x))
    case Vertical => s.(top := Some(rel.y + e.delta.y))
    case CustomUpdater(_, _, _) => s
  }

  /**
   * HorizontalDragUpdater keeps the element at a fixed horizontal offset from
   * the drag position: if the element sat at `offset` from the previous
   * snapshot's position, it sits at `offset` from the new one.
   */
  lemma HorizontalKeepsOffset(s: Style, prev: DragEvent, clientPos: Point, pos: Point,
                              dragTime: real, maxDist: real, rel: Point, offset: real)
    requires rel.x == prev.pos.x + offset
    ensures MoveStyle(Horizontal, s, Snapshot(Some(prev), clientPos, pos, dragTime, maxDist), rel).left
            == Some(pos.x + offset)
  {
  }

  /** VerticalDragUpdater keeps the element at a fixed vertical offset from the drag position. */
  lemma VerticalKeepsOffset(s: Style, prev: DragEvent, clientPos: Point, pos: Point,
                            dragTime: real, maxDist: real, rel: Point, offset: real)
    requires rel.y == prev.pos.y + offset
    ensures MoveStyle(Vertical, s, Snapshot(Some(prev), clientPos, pos, dragTime, maxDist), rel).top
            == Some(pos.y + offset)
  {
  }

  /**
   * DragAnchorTopLeft.getAnchor: the offset from the pointer to the anchor
   * element's top-left corner `topLeft` (xLeft, xTop); adding it to the
   * pointer lands on that corner.
   */
  function AnchorOffset(topLeft: Point, pointer: Point): (r: Point)
    ensures Add(pointer, r) == topLeft
  {
    Sub(topLeft, pointer)
  }
}
