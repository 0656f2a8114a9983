/**
 * Positions and the drag-event snapshot that the drag engine's processDrag
 * builds.  Coordinates are real numbers: no floating-point rounding.
 */
module Points {
  import opened Wrappers

  datatype Point = Point(x: real, y: real)

  const Origin := Point(0.0, 0.0)

  function Add(p: Point, q: Point): Point { Point(p.x + q.x, p.y + q.y) }

  function Sub(p: Point, q: Point): (d: Point)
    ensures Add(q, d) == p
  {
    Point(p.x - q.x, p.y - q.y)
  }

  function Scale(k: real, p: Point): Point { Point(k * p.x, k * p.y) }

  /** Squared Euclidean distance. */
  function DistSq(p: Point, q: Point): (d: real)
    ensures d >= 0.0
    ensures p == q ==> d == 0.0
  {
    (p.x - q.x) * (p.x - q.x) + (p.y - q.y) * (p.y - q.y)
  }

  /** One drag-event snapshot; `dragTime` is in seconds since the drag started. */
  datatype DragEvent = DragEvent(
    clientPos: Point,
    pos: Point,
    clientDelta: Point,
    delta: Point,
    velocity: Point,
    dragTime: real,
    maxDistanceSquared: real)

  /**
   * The snapshot processDrag builds from the previous one (`last`): deltas
   * against the previous positions, velocity as delta per second of drag
   * time when the time difference is not zero, zero otherwise.
   */
  function Snapshot(last: Option<DragEvent>, clientPos: Point, pos: Point,
                    dragTime: real, maxDist: real): (e: DragEvent)
    ensures e.clientPos == clientPos && e.pos == pos
    ensures e.dragTime == dragTime && e.maxDistanceSquared == maxDist
    ensures last.None? ==> e.delta == Origin && e.clientDelta == Origin
    ensures last.Some? ==> Add(last.value.pos, e.delta) == pos
    ensures last.Some? ==> Add(last.value.clientPos, e.clientDelta) == clientPos
    ensures last.Some? && dragTime != last.value.dragTime ==>
              && e.velocity.x * (dragTime - last.value.dragTime) == e.delta.x
              && e.velocity.y * (dragTime - last.value.dragTime) == e.delta.y
    ensures last.None? || dragTime == last.value.dragTime ==> e.velocity == Origin
  {
    match last
    case None =>
      DragEvent(clientPos, pos, Origin, Origin, Origin, dragTime, maxDist)
    case Some(prev) =>
      var delta := Sub(pos, prev.pos);
      var dt := dragTime - prev.dragTime;
      var velocity := if dt != 0.0 then Point(delta.x / dt, delta.y / dt) else Origin;
      DragEvent(clientPos, pos, Sub(clientPos, prev.clientPos), delta, velocity, dragTime, maxDist)
  }

  /** Zero deltas, the velocity and positions of `last`, and a new drag time (updateDrag). */
  function Resnapshot(last: DragEvent, dragTime: real): (e: DragEvent)
    ensures e.pos == last.pos && e.clientPos == last.clientPos && e.velocity == last.velocity
    ensures e.maxDistanceSquared == last.maxDistanceSquared
    ensures e.delta == Origin && e.clientDelta == Origin && e.dragTime == dragTime
  {
    last.(clientDelta := Origin, delta := Origin, dragTime := dragTime)
  }
}
