/**
 * The drag session engine of Awe.enableDrag: one `touch` record, the shared
 * animation state, the filter chain and the updater, driven by pointer
 * events and by a per-frame interval.
 *
 * Time `t` is Date.now() in milliseconds.  The event listeners and the
 * interval are flags; the calls the engine makes into filters, the updater
 * and the configured callbacks are appended to `trace` in the order they
 * happen.  A JavaScript exception is an `ok == false` result, with the
 * state as it was when the exception was thrown.
 */
module DragEngine {
  import opened Wrappers
  import opened Points
  import opened DragFilters
  import DU = DragUpdaters
  import AweCore

  /** A call from the engine into a collaborator or a configured callback. */
  datatype Call =
    | FilterStart(index: nat)
    | FilterEnd(index: nat)
    | FilterAnimate(index: nat)
    | UpdaterStart(drag: DragEvent)
    | UpdaterMove(drag: DragEvent)
    | UpdaterEnd
    | OnDragStart(drag: DragEvent)
    | OnDragMove(drag: DragEvent)
    | OnDragUpdate(drag: DragEvent)
    | OnDragEnd(drag: DragEvent)

  function FilterEndCalls(idx: seq<nat>): seq<Call>
  {
    if idx == [] then [] else [FilterEnd(idx[0])] + FilterEndCalls(idx[1..])
  }

  function FilterStartCalls(idx: seq<nat>): seq<Call>
  {
    if idx == [] then [] else [FilterStart(idx[0])] + FilterStartCalls(idx[1..])
  }

  function FilterAnimateCalls(idx: seq<nat>): seq<Call>
  {
    if idx == [] then [] else [FilterAnimate(idx[0])] + FilterAnimateCalls(idx[1..])
  }

  lemma EndCallsStep(fs: seq<Filter>, mode: EndMode, i: nat)
    requires i < |fs|
    ensures FilterEndCalls(EndIndices(fs, mode, i))
            == (if Selected(fs[i], mode) && HasEnd(fs[i]) then [FilterEnd(i)] else [])
               + FilterEndCalls(EndIndices(fs, mode, i + 1))
  {
    var rest := EndIndices(fs, mode, i + 1);
    if Selected(fs[i], mode) && HasEnd(fs[i]) {
      assert ([i] + rest)[1..] == rest;
    }
  }

  lemma AnimateStep(fs: seq<Filter>, i: nat, running: bool, a: AnimState, custom: CustomAnimate)
    requires i < |fs|
    ensures Animates(fs[i]) && !running ==>
              var one := AnimateOne(fs[i], a, custom);
              var rest := AnimateFrom(fs, i + 1, !one.0, one.1, custom);
              && AnimateFrom(fs, i, running, a, custom) == (rest.0, rest.1, [i] + rest.2)
              && FilterAnimateCalls([i] + rest.2) == [FilterAnimate(i)] + FilterAnimateCalls(rest.2)
    ensures !(Animates(fs[i]) && !running) ==>
              AnimateFrom(fs, i, running, a, custom) == AnimateFrom(fs, i + 1, running, a, custom)
  {
    if Animates(fs[i]) && !running {
      var one := AnimateOne(fs[i], a, custom);
      var rest := AnimateFrom(fs, i + 1, !one.0, one.1, custom);
      assert ([i] + rest.2)[1..] == rest.2;
    }
  }

  /** updateAnimationState while dragging: restart the clock from this event. */
  function RestartAnimation(e: DragEvent, t: real): (a: AnimState)
    ensures a.last == t * 0.001
    ensures a.animationTime == 0.0 && a.deltaTime == 0.0
    ensures a.velocity == e.velocity && a.pos == e.pos
  {
    AnimState(t * 0.001, 0.0, 0.0, e.velocity, e.pos)
  }

  /** updateAnimationState after release: advance the clock to `t`. */
  function ClockTick(a: AnimState, t: real): (a': AnimState)
    ensures a'.last == t * 0.001
    ensures a'.deltaTime == t * 0.001 - a.last
    ensures a'.animationTime == a.animationTime + a'.deltaTime
    ensures a'.velocity == a.velocity && a'.pos == a.pos
  {
    var dt := t * 0.001 - a.last;
    a.(deltaTime := dt, animationTime := a.animationTime + dt, last := t * 0.001)
  }

  /**
   * The second clock update of a tick (from processDrag, at the same time)
   * finds no elapsed time, and animationTime always totals the time since
   * the clock was last restarted.
   */
  lemma ClockTickTwice(a: AnimState, t1: real, t2: real)
    ensures ClockTick(ClockTick(a, t1), t1).deltaTime == 0.0
    ensures ClockTick(ClockTick(a, t1), t2).animationTime == a.animationTime + (t2 * 0.001 - a.last)
  {
  }

  class DragSession {
    // enableDrag's configuration
    const filters: seq<Filter>
    const updater: Option<DU.Updater>
    /** config.anchor is a DragAnchorTopLeft. */
    const hasAnchor: bool
    const onDragStart: bool
    const onDragMove: bool
    const onDragUpdate: bool
    const onDragEnd: bool
    const customMove: CustomMove
    const customAnimate: CustomAnimate
    const hasAnimatingFilter: bool

    // listeners and the interval
    /** The dragStart listener on the element. */
    var startListenerAttached: bool
    /** `el._disableDrag` is set. */
    var disableHookSet: bool
    /** The dragMove and dragEnd listeners. */
    var moveListenersAttached: bool
    /** `touch.updateIntervalId` is set. */
    var intervalActive: bool

    // the touch record
    var dragging: bool
    var anchor: Point
    var start: Option<Point>
    var startTime: real
    var now: Option<Point>
    var lastDrag: Option<DragEvent>
    var maxDistanceSquared: real

    var animation: AnimState
    /** The state of each momentum filter, by filter index. */
    var momentum: seq<MomentumState>
    /** The dragged element's style. */
    var style: DU.Style
    var trace: seq<Call>

    ghost predicate Valid()
      reads this
    {
      && |momentum| == |filters|
      && 0.0 <= maxDistanceSquared
      && (now.Some? <==> start.Some?)
      && (dragging ==> now.Some?)
      && (now.Some? ==> lastDrag.Some?)
      && (moveListenersAttached ==> dragging)
      && (moveListenersAttached || intervalActive ==> updater.Some? && now.Some?)
      && (intervalActive && !dragging ==> hasAnimatingFilter)
      && (lastDrag.Some? ==> lastDrag.value.maxDistanceSquared == maxDistanceSquared)
      && (lastDrag.Some? && now.Some? ==> DistSq(now.value, start.value) <= maxDistanceSquared)
    }

    /** Every momentum filter that has a last position saw it before time `t`. */
    predicate AdvancesTo(ms: seq<MomentumState>, t: real)
    {
      forall i :: 0 <= i < |filters| && i < |ms| && filters[i].Momentum? && ms[i].lastPos.Some?
        ==> t > ms[i].lastTime
    }

    /** The momentum filters' move at time `t` can divide by the time since their last one. */
    predicate ClockAdvances(t: real)
      reads this
    {
      AdvancesTo(momentum, t)
    }

    /** The momentum filters' states after `start`. */
    function StartedMomentum(ms: seq<MomentumState>): seq<MomentumState>
      requires |ms| == |filters|
    {
      seq(|ms|, i requires 0 <= i < |ms| => if filters[i].Momentum? then MomentumStart(ms[i]) else ms[i])
    }

    /** The momentum filters' states after applyFilters folded `p` through the chain at time `t`. */
    function MovedMomentum(ms: seq<MomentumState>, p: Point, t: real): seq<MomentumState>
      requires |ms| == |filters| && AdvancesTo(ms, t)
    {
      seq(|ms|, i requires 0 <= i < |ms| =>
        if filters[i].Momentum? then MomentumMove(ms[i], Chain(filters[..i], p, customMove), t) else ms[i])
    }

    /** The updater calls endAnimation and dragEnd make. */
    function UpdaterEndCalls(): seq<Call>
    {
      if updater.Some? && DU.HasEnd(updater.value) then [UpdaterEnd] else []
    }

    /** Every call endAnimation makes when an interval is active. */
    function TeardownCalls(): seq<Call>
    {
      FilterEndCalls(EndIndices(filters, AnimatingOnly, 0)) + UpdaterEndCalls()
    }

    /** Awe.enableDrag: subscribes the dragStart listener; nothing else happens yet. */
    constructor (filters: seq<Filter>, updater: Option<DU.Updater>, hasAnchor: bool,
                 onDragStart: bool, onDragMove: bool, onDragUpdate: bool, onDragEnd: bool,
                 customMove: CustomMove, customAnimate: CustomAnimate)
      ensures Valid()
      ensures hasAnimatingFilter <==> exists i :: 0 <= i < |filters| && Animates(filters[i])
      ensures this.filters == filters && this.updater == updater && this.hasAnchor == hasAnchor
      ensures this.onDragStart == onDragStart && this.onDragMove == onDragMove
      ensures this.onDragUpdate == onDragUpdate && this.onDragEnd == onDragEnd
      ensures this.customMove == customMove && this.customAnimate == customAnimate
      ensures startListenerAttached && disableHookSet
      ensures !moveListenersAttached && !intervalActive && !dragging
      ensures start.None? && now.None? && lastDrag.None? && trace == []
      ensures style == DU.Unstyled
    {
      var animates := HasAnimatingFilter(filters);
      this.filters := filters;
      this.updater := updater;
      this.hasAnchor := hasAnchor;
      this.onDragStart := onDragStart;
      this.onDragMove := onDragMove;
      this.onDragUpdate := onDragUpdate;
      this.onDragEnd := onDragEnd;
      this.customMove := customMove;
      this.customAnimate := customAnimate;
      hasAnimatingFilter := animates;
      startListenerAttached := true;
      disableHookSet := true;
      moveListenersAttached := false;
      intervalActive := false;
      dragging := false;
      anchor := Origin;
      start := None;
      startTime := 0.0;
      now := None;
      lastDrag := None;
      maxDistanceSquared := 0.0;
      animation := AnimState(0.0, 0.0, 0.0, Origin, Origin);
      momentum := seq(|filters|, _ => InitialMomentum);
      style := DU.Unstyled;
      trace := [];
    }

    /** updateDrag: a copy of the last snapshot with zero deltas and the current drag time. */
    function UpdateDrag(t: real): (r: Option<DragEvent>)
      reads this
      ensures r.None? <==> lastDrag.None?
      ensures r.Some? ==> r.value == Resnapshot(lastDrag.value, (t - startTime) * 0.001)
    {
      match lastDrag
      case None => None
      case Some(last) => Some(Resnapshot(last, (t - startTime) * 0.001))
    }

    /** updateAnimationState(evt): only sessions with an animating filter keep a clock. */
    method UpdateAnimationState(t: real, evt: Option<DragEvent>)
      requires dragging ==> evt.Some?
      modifies this`animation
      ensures !hasAnimatingFilter ==> animation == old(animation)
      ensures hasAnimatingFilter && dragging ==> animation == RestartAnimation(evt.value, t)
      ensures hasAnimatingFilter && !dragging ==> animation == ClockTick(old(animation), t)
    {
      if hasAnimatingFilter {
        if dragging {
          animation := RestartAnimation(evt.value, t);
        } else {
          animation := ClockTick(animation, t);
        }
      }
    }

    /**
     * processDrag: raise the running maximum distance, build the snapshot
     * against the previous one, keep a copy of it and update the clock.
     */
    method ProcessDrag(clientPos: Point, pos: Point, t: real) returns (drag: DragEvent)
      requires now.Some? ==> start.Some?
      modifies this`maxDistanceSquared, this`lastDrag, this`animation
      ensures maxDistanceSquared >= 0.0
      ensures now.Some? ==> DistSq(now.value, start.value) <= maxDistanceSquared
      ensures old(now).Some? ==> maxDistanceSquared == AweCore.Max(old(maxDistanceSquared), DistSq(now.value, start.value))
      ensures old(now).None? ==> maxDistanceSquared == 0.0
      ensures drag == Snapshot(old(lastDrag), clientPos, pos, (t - startTime) * 0.001, maxDistanceSquared)
      ensures lastDrag == Some(drag)
      ensures !hasAnimatingFilter ==> animation == old(animation)
      ensures hasAnimatingFilter && dragging ==> animation == RestartAnimation(drag, t)
      ensures hasAnimatingFilter && !dragging ==> animation == ClockTick(old(animation), t)
    {
      if now.Some? {
        maxDistanceSquared := AweCore.Max(maxDistanceSquared, DistSq(now.value, start.value));
      } else {
        maxDistanceSquared := 0.0;
      }
      drag := Snapshot(lastDrag, clientPos, pos, (t - startTime) * 0.001, maxDistanceSquared);
      lastDrag := Some(drag);
      UpdateAnimationState(t, Some(drag));
    }

    /** The forEach calling `end` on the filters `mode` selects, in array order. */
    method EndFilters(mode: EndMode)
      modifies this`trace
      ensures trace == old(trace) + FilterEndCalls(EndIndices(filters, mode, 0))
    {
      var i := 0;
      while i < |filters|
        invariant 0 <= i <= |filters|
        invariant trace + FilterEndCalls(EndIndices(filters, mode, i))
                  == old(trace) + FilterEndCalls(EndIndices(filters, mode, 0))
      {
        EndCallsStep(filters, mode, i);
        if Selected(filters[i], mode) && HasEnd(filters[i]) {
          trace := trace + [FilterEnd(i)];
        }
        i := i + 1;
      }
    }

    /** The forEach calling `start` on every filter that has one; momentum filters reset. */
    method StartFilters()
      requires |momentum| == |filters|
      modifies this`trace, this`momentum
      ensures trace == old(trace) + FilterStartCalls(StartIndices(filters, 0))
      ensures momentum == StartedMomentum(old(momentum))
    {
      var i := 0;
      while i < |filters|
        invariant 0 <= i <= |filters| && |momentum| == |filters|
        invariant trace + FilterStartCalls(StartIndices(filters, i))
                  == old(trace) + FilterStartCalls(StartIndices(filters, 0))
        invariant forall j :: 0 <= j < i ==>
                    momentum[j] == if filters[j].Momentum? then MomentumStart(old(momentum[j])) else old(momentum[j])
        invariant forall j :: i <= j < |filters| ==> momentum[j] == old(momentum[j])
      {
        if HasStart(filters[i]) {
          ghost var rest := StartIndices(filters, i + 1);
          assert ([i] + rest)[1..] == rest;
          trace := trace + [FilterStart(i)];
          if filters[i].Momentum? {
            momentum := momentum[i := MomentumStart(momentum[i])];
          }
        }
        i := i + 1;
      }
      assert momentum == StartedMomentum(old(momentum));
    }

    /** applyFilters: fold `p` through the filters in order; momentum filters record it. */
    method ApplyFilters(p: Point, t: real) returns (q: Point)
      requires |momentum| == |filters| && ClockAdvances(t)
      modifies this`momentum
      ensures q == Chain(filters, p, customMove)
      ensures momentum == MovedMomentum(old(momentum), p, t)
    {
      q := p;
      var i := 0;
      while i < |filters|
        invariant 0 <= i <= |filters| && |momentum| == |filters|
        invariant q == Chain(filters[..i], p, customMove)
        invariant forall j :: 0 <= j < i ==>
                    momentum[j] == if filters[j].Momentum?
                                   then MomentumMove(old(momentum[j]), Chain(filters[..j], p, customMove), t)
                                   else old(momentum[j])
        invariant forall j :: i <= j < |filters| ==> momentum[j] == old(momentum[j])
      {
        if filters[i].Momentum? {
          momentum := momentum[i := MomentumMove(momentum[i], q, t)];
        }
        q := Step(filters[i], q, customMove);
        assert filters[..i + 1][..i] == filters[..i];
        i := i + 1;
      }
      assert filters[..|filters|] == filters;
      assert momentum == MovedMomentum(old(momentum), p, t);
    }

    /**
     * endAnimation: when the interval is active, end the animating filters
     * and the updater, then clear the interval.  The unguarded `updater.end`
     * cannot fail here: the interval only exists once dragStart got past the
     * updater.
     */
    method EndAnimation()
      requires Valid()
      modifies this`trace, this`intervalActive
      ensures Valid()
      ensures !intervalActive
      ensures trace == old(trace) + if old(intervalActive) then TeardownCalls() else []
    {
      if intervalActive {
        EndFilters(AnimatingOnly);
        if updater.None? {
          assert false;
        } else if DU.HasEnd(updater.value) {
          trace := trace + [UpdaterEnd];
        }
        intervalActive := false;
      }
    }

    /** Where dragStart puts the start point: the raw pointer, or the anchor's top-left. */
    function StartPoint(raw: Point, anchorTopLeft: Point): Point
    {
      if hasAnchor then anchorTopLeft else raw
    }

    /** The snapshot dragStart hands to the updater and to onDragStart. */
    function FirstDrag(raw: Point, anchorTopLeft: Point): (e: DragEvent)
      ensures e.delta == Origin && e.velocity == Origin && e.dragTime == 0.0 && e.maxDistanceSquared == 0.0
      ensures e.clientPos == StartPoint(raw, anchorTopLeft)
    {
      var s := StartPoint(raw, anchorTopLeft);
      Snapshot(None, s, Chain(filters, s, customMove), 0.0, 0.0)
    }

    /** The touch record dragStart sets up before the filters run. */
    method ResetTouch(raw: Point, anchorTopLeft: Point, t: real)
      modifies this`dragging, this`anchor, this`now, this`start, this`startTime, this`lastDrag,
               this`maxDistanceSquared
      ensures dragging && lastDrag.None? && maxDistanceSquared == 0.0 && startTime == t
      ensures anchor == if hasAnchor then DU.AnchorOffset(anchorTopLeft, raw) else Origin
      ensures start == Some(StartPoint(raw, anchorTopLeft)) && now == start
    {
      dragging := true;
      anchor := Origin;
      now := Some(Add(raw, anchor));
      if hasAnchor {
        anchor := DU.AnchorOffset(anchorTopLeft, now.value);
        now := Some(Add(raw, anchor));
      }
      lastDrag := None;
      start := Some(Add(raw, anchor));
      startTime := t;
      maxDistanceSquared := 0.0;
    }

    /**
     * The middle of dragStart: start the filters, fold the start point
     * through them and take the first snapshot.
     */
    method FirstSnapshot(t: real) returns (drag: DragEvent)
      requires |momentum| == |filters| && start.Some? && now == start && lastDrag.None?
      requires dragging && startTime == t && maxDistanceSquared == 0.0
      modifies this`trace, this`momentum, this`lastDrag, this`maxDistanceSquared, this`animation
      ensures trace == old(trace) + FilterStartCalls(StartIndices(filters, 0))
      ensures drag == Snapshot(None, start.value, Chain(filters, start.value, customMove), 0.0, 0.0)
      ensures lastDrag == Some(drag) && maxDistanceSquared == 0.0
      ensures momentum == MovedMomentum(StartedMomentum(old(momentum)), start.value, t)
      ensures animation == if hasAnimatingFilter then RestartAnimation(drag, t) else old(animation)
    {
      StartFilters();
      var pos := ApplyFilters(now.value, t);
      drag := ProcessDrag(now.value, pos, t);
    }

    /** dragStart up to the first snapshot, which it returns. */
    method Begin(raw: Point, anchorTopLeft: Point, t: real) returns (drag: DragEvent)
      requires Valid()
      modifies this`dragging, this`anchor, this`now, this`start, this`startTime, this`lastDrag,
               this`maxDistanceSquared, this`momentum, this`animation, this`trace, this`intervalActive
      ensures Valid()
      ensures dragging && !intervalActive
      ensures anchor == if hasAnchor then DU.AnchorOffset(anchorTopLeft, raw) else Origin
      ensures start == Some(StartPoint(raw, anchorTopLeft)) && now == start && startTime == t
      ensures maxDistanceSquared == 0.0
      ensures drag == FirstDrag(raw, anchorTopLeft) && lastDrag == Some(drag)
      ensures trace == old(trace) + (if old(intervalActive) then TeardownCalls() else [])
                       + FilterStartCalls(StartIndices(filters, 0))
      ensures momentum == MovedMomentum(StartedMomentum(old(momentum)), start.value, t)
      ensures animation == if hasAnimatingFilter then RestartAnimation(drag, t) else old(animation)
    {
      EndAnimation();
      ResetTouch(raw, anchorTopLeft, t);
      drag := FirstSnapshot(t);
    }

    /**
     * dragStart(evt): cancel any running animation, start a new session at
     * the pointer (shifted by the anchor), start the filters, run the chain
     * once, start the updater, call onDragStart, subscribe the move/end
     * listeners and start the interval.  `raw` is the event's client
     * position and `anchorTopLeft` the anchor element's (xLeft, xTop).  With
     * no updater configured, `updater.start` throws after the snapshot.
     */
    method DragStart(raw: Point, anchorTopLeft: Point, t: real) returns (ok: bool)
      requires Valid() && startListenerAttached
      modifies this`dragging, this`anchor, this`now, this`start, this`startTime, this`lastDrag,
               this`maxDistanceSquared, this`momentum, this`animation, this`trace,
               this`moveListenersAttached, this`intervalActive
      ensures Valid()
      ensures ok <==> updater.Some?
      ensures dragging && intervalActive == ok && moveListenersAttached == ok
      ensures anchor == if hasAnchor then DU.AnchorOffset(anchorTopLeft, raw) else Origin
      ensures start == Some(StartPoint(raw, anchorTopLeft)) && now == start && startTime == t
      ensures maxDistanceSquared == 0.0
      ensures lastDrag == Some(FirstDrag(raw, anchorTopLeft))
      ensures !ok ==> trace == old(trace) + (if old(intervalActive) then TeardownCalls() else [])
                               + FilterStartCalls(StartIndices(filters, 0))
      ensures ok ==> trace == old(trace) + (if old(intervalActive) then TeardownCalls() else [])
                              + FilterStartCalls(StartIndices(filters, 0))
                              + (if DU.HasStart(updater.value) then [UpdaterStart(lastDrag.value)] else [])
                              + (if onDragStart then [OnDragStart(lastDrag.value)] else [])
      ensures momentum == MovedMomentum(StartedMomentum(old(momentum)), start.value, t)
      ensures animation == if hasAnimatingFilter then RestartAnimation(lastDrag.value, t) else old(animation)
    {
      var drag := Begin(raw, anchorTopLeft, t);
      if updater.None? {
        ok := false;
        return;
      }
      trace := trace + (if DU.HasStart(updater.value) then [UpdaterStart(drag)] else []);
      trace := trace + (if onDragStart then [OnDragStart(drag)] else []);
      moveListenersAttached := true;
      intervalActive := true;
      ok := true;
    }

    /** The first half of dragMove: the new pointer position, filtered and snapshotted. */
    method Track(raw: Point, t: real) returns (drag: DragEvent)
      requires Valid() && dragging && ClockAdvances(t)
      modifies this`now, this`lastDrag, this`maxDistanceSquared, this`momentum, this`animation
      ensures Valid()
      ensures now == Some(Add(raw, anchor))
      ensures maxDistanceSquared == AweCore.Max(old(maxDistanceSquared), DistSq(now.value, start.value))
      ensures drag == Snapshot(old(lastDrag), now.value, Chain(filters, now.value, customMove),
                               (t - startTime) * 0.001, maxDistanceSquared)
      ensures lastDrag == Some(drag)
      ensures momentum == MovedMomentum(old(momentum), now.value, t)
      ensures animation == if hasAnimatingFilter then RestartAnimation(drag, t) else old(animation)
    {
      now := Some(Add(raw, anchor));
      var pos := ApplyFilters(now.value, t);
      drag := ProcessDrag(now.value, pos, t);
    }

    /** Let the updater move the element, when there is an updater and it has `move`. */
    method MoveElement(drag: DragEvent, rel: Point)
      modifies this`style, this`trace
      ensures style == if updater.Some? && DU.HasMove(updater.value)
                       then DU.MoveStyle(updater.value, old(style), drag, rel) else old(style)
      ensures trace == old(trace) + if updater.Some? && DU.HasMove(updater.value) then [UpdaterMove(drag)] else []
    {
      if updater.Some? && DU.HasMove(updater.value) {
        style := DU.MoveStyle(updater.value, style, drag, rel);
        trace := trace + [UpdaterMove(drag)];
      }
    }

    /**
     * dragMove(evt): the pointer moved to `raw`; fold it through the filters,
     * snapshot it, let the updater move the element (`rel` is relX/relY of
     * the element) and call onDragMove.
     */
    method DragMove(raw: Point, t: real, rel: Point)
      requires Valid() && moveListenersAttached && ClockAdvances(t)
      modifies this`now, this`lastDrag, this`maxDistanceSquared, this`momentum, this`animation,
               this`style, this`trace
      ensures Valid()
      ensures now == Some(Add(raw, anchor))
      ensures maxDistanceSquared == AweCore.Max(old(maxDistanceSquared), DistSq(now.value, start.value))
      ensures maxDistanceSquared >= old(maxDistanceSquared)
      ensures lastDrag == Some(Snapshot(old(lastDrag), now.value, Chain(filters, now.value, customMove),
                                        (t - startTime) * 0.001, maxDistanceSquared))
      ensures style == if DU.HasMove(updater.value) then DU.MoveStyle(updater.value, old(style), lastDrag.value, rel)
                       else old(style)
      ensures trace == old(trace)
                       + (if DU.HasMove(updater.value) then [UpdaterMove(lastDrag.value)] else [])
                       + (if onDragMove then [OnDragMove(lastDrag.value)] else [])
      ensures momentum == MovedMomentum(old(momentum), now.value, t)
      ensures animation == if hasAnimatingFilter then RestartAnimation(lastDrag.value, t) else old(animation)
    {
      var drag := Track(raw, t);
      MoveElement(drag, rel);
      trace := trace + (if onDragMove then [OnDragMove(drag)] else []);
    }

    /**
     * The first half of dragEnd: stop dragging, unsubscribe, end the
     * selected filters, and end the updater when no filter animates.
     */
    method Release(immediate: bool) returns (ok: bool)
      modifies this`dragging, this`moveListenersAttached, this`trace
      ensures !dragging && !moveListenersAttached
      ensures ok <==> hasAnimatingFilter || updater.Some?
      ensures trace == old(trace)
                       + FilterEndCalls(EndIndices(filters, if immediate then All else NonAnimating, 0))
                       + (if hasAnimatingFilter then [] else UpdaterEndCalls())
    {
      dragging := false;
      moveListenersAttached := false;
      EndFilters(if immediate then All else NonAnimating);
      ok := true;
      if !hasAnimatingFilter {
        if updater.None? {
          return false;
        }
        if DU.HasEnd(updater.value) {
          trace := trace + [UpdaterEnd];
        }
      }
    }

    /** After release, report a final snapshot at the event's position through onDragEnd, when both are present. */
    method ReportEnd(evt: Option<Point>, t: real)
      requires !dragging && now.Some? && start.Some? && lastDrag.Some?
      requires DistSq(now.value, start.value) <= maxDistanceSquared
      requires lastDrag.value.maxDistanceSquared == maxDistanceSquared
      modifies this`trace, this`lastDrag, this`maxDistanceSquared, this`animation
      ensures maxDistanceSquared == old(maxDistanceSquared)
      ensures lastDrag.Some? && lastDrag.value.maxDistanceSquared == maxDistanceSquared
      ensures onDragEnd && evt.Some? ==>
                && lastDrag == Some(Snapshot(old(lastDrag), Add(evt.value, anchor), Add(evt.value, anchor),
                                             (t - startTime) * 0.001, maxDistanceSquared))
                && trace == old(trace) + [OnDragEnd(lastDrag.value)]
                && animation == if hasAnimatingFilter then ClockTick(old(animation), t) else old(animation)
      ensures !(onDragEnd && evt.Some?) ==> unchanged(this`trace, this`lastDrag, this`animation)
    {
      if onDragEnd && evt.Some? {
        var pos := Add(evt.value, anchor);
        var drag := ProcessDrag(pos, pos, t);
        trace := trace + [OnDragEnd(drag)];
      }
    }

    /**
     * dragEnd(evt, immediate): a no-op unless dragging.  Otherwise stop
     * dragging, unsubscribe the move/end listeners, end the non-animating
     * filters (all of them when `immediate`), end the updater when no filter
     * animates (throwing if there is no updater), call onDragEnd with a
     * snapshot at the release point when there is an event, and clear the
     * interval when no filter animates.
     */
    method DragEnd(evt: Option<Point>, immediate: bool, t: real) returns (ok: bool)
      requires Valid()
      modifies this`dragging, this`moveListenersAttached, this`trace, this`intervalActive,
               this`maxDistanceSquared, this`lastDrag, this`animation
      ensures Valid()
      ensures !old(dragging) ==> ok && unchanged(this)
      ensures old(dragging) ==> !dragging && !moveListenersAttached
      ensures old(dragging) ==> (ok <==> hasAnimatingFilter || updater.Some?)
      ensures old(dragging) ==> intervalActive == (old(intervalActive) && hasAnimatingFilter)
      ensures maxDistanceSquared == old(maxDistanceSquared)
      ensures old(dragging) && ok && onDragEnd && evt.Some? ==>
                lastDrag == Some(Snapshot(old(lastDrag), Add(evt.value, anchor), Add(evt.value, anchor),
                                          (t - startTime) * 0.001, maxDistanceSquared))
      ensures !(old(dragging) && ok && onDragEnd && evt.Some?) ==> lastDrag == old(lastDrag)
      ensures old(dragging) ==>
                trace == old(trace)
                + FilterEndCalls(EndIndices(filters, if immediate then All else NonAnimating, 0))
                + (if hasAnimatingFilter then [] else UpdaterEndCalls())
                + (if ok && onDragEnd && evt.Some? then [OnDragEnd(lastDrag.value)] else [])
      ensures animation == if old(dragging) && ok && onDragEnd && evt.Some? && hasAnimatingFilter
                           then ClockTick(old(animation), t) else old(animation)
    {
      if !dragging {
        return true;
      }
      ok := Release(immediate);
      if !ok {
        return;
      }
      ReportEnd(evt, t);
      if intervalActive && !hasAnimatingFilter {
        intervalActive := false;
      }
      ok := true;
    }

    /**
     * Awe.disableDrag(el): when `el._disableDrag` is set, unsubscribe the
     * dragStart listener, run dragEnd(null, true), and clear the hook.  If
     * dragEnd throws, the hook stays set.
     */
    method DisableDrag(t: real) returns (ok: bool)
      requires Valid()
      modifies this`dragging, this`moveListenersAttached, this`trace, this`intervalActive,
               this`maxDistanceSquared, this`lastDrag, this`animation,
               this`startListenerAttached, this`disableHookSet
      ensures Valid()
      ensures !old(disableHookSet) ==> ok && unchanged(this)
      ensures old(disableHookSet) ==> !startListenerAttached && disableHookSet == !ok
      ensures old(disableHookSet) ==> !dragging && !moveListenersAttached
      ensures old(disableHookSet) && old(dragging) ==> (ok <==> hasAnimatingFilter || updater.Some?)
      ensures old(disableHookSet) && old(dragging) ==>
                trace == old(trace) + FilterEndCalls(EndIndices(filters, All, 0))
                         + (if hasAnimatingFilter then [] else UpdaterEndCalls())
      ensures old(disableHookSet) && !old(dragging) ==> ok && trace == old(trace)
      ensures intervalActive == (old(intervalActive) && (hasAnimatingFilter || !old(disableHookSet)))
      ensures lastDrag == old(lastDrag) && animation == old(animation) && style == old(style)
      ensures maxDistanceSquared == old(maxDistanceSquared)
    {
      if !disableHookSet {
        return true;
      }
      startListenerAttached := false;
      ok := DragEnd(None, true, t);
      if ok {
        disableHookSet := false;
      }
    }

    /** dragUpdateDragging: report the elapsed time through onDragUpdate; no state changes. */
    method DragUpdateDragging(t: real)
      modifies this`trace
      ensures trace == old(trace) + if onDragUpdate && lastDrag.Some? then [OnDragUpdate(UpdateDrag(t).value)] else []
    {
      var drag := UpdateDrag(t);
      if drag.Some? && onDragUpdate {
        trace := trace + [OnDragUpdate(drag.value)];
      }
    }

    /**
     * The animation forEach: the animating filters, in order, advance the
     * shared animation state until one reports it is still running; the
     * filters after that one are skipped.
     */
    method AnimateFilters() returns (running: bool)
      modifies this`animation, this`trace
      ensures var r := AnimateFrom(filters, 0, false, old(animation), customAnimate);
              && running == r.0 && animation == r.1
              && trace == old(trace) + FilterAnimateCalls(r.2)
    {
      ghost var final := AnimateFrom(filters, 0, false, animation, customAnimate);
      running := false;
      var i := 0;
      while i < |filters|
        invariant 0 <= i <= |filters|
        invariant var r := AnimateFrom(filters, i, running, animation, customAnimate);
                  && r.0 == final.0 && r.1 == final.1
                  && trace + FilterAnimateCalls(r.2) == old(trace) + FilterAnimateCalls(final.2)
      {
        AnimateStep(filters, i, running, animation, customAnimate);
        if Animates(filters[i]) && !running {
          var res := AnimateOne(filters[i], animation, customAnimate);
          trace := trace + [FilterAnimate(i)];
          running := !res.0;
          animation := res.1;
        }
        i := i + 1;
      }
    }

    /**
     * What one dragUpdateAnimating call does: with the clock advanced to `t`
     * and the filters animated, a still-running animation snapshots the
     * animated position and moves the element; a finished one tears the
     * interval down.
     */
    twostate predicate AnimatingTick(t: real, rel: Point, ok: bool)
      reads this
    {
      var r := AnimateFrom(filters, 0, false, ClockTick(old(animation), t), customAnimate);
      && (r.0 ==> && lastDrag == Some(Snapshot(old(lastDrag), r.1.pos, r.1.pos,
                                               (t - startTime) * 0.001, maxDistanceSquared))
                  && animation == ClockTick(r.1, t)
                  && updater.Some?
                  && ok == DU.HasMove(updater.value)
                  && intervalActive
                  && trace == old(trace) + FilterAnimateCalls(r.2)
                              + (if ok then [UpdaterMove(lastDrag.value)] else [])
                  && style == (if ok then DU.MoveStyle(updater.value, old(style), lastDrag.value, rel)
                               else old(style)))
      && (!r.0 ==> && ok && !intervalActive && lastDrag == old(lastDrag) && animation == r.1
                   && style == old(style)
                   && trace == old(trace) + FilterAnimateCalls(r.2) + TeardownCalls())
    }

    /**
     * dragUpdateAnimating: advance the clock, animate the filters; while one
     * is still running, snapshot the animated position and hand it to
     * `updater.move` (which throws for an updater without `move`); when none
     * is running, endAnimation.
     */
    method DragUpdateAnimating(t: real, rel: Point) returns (ok: bool)
      requires Valid() && !dragging && intervalActive
      modifies this`animation, this`trace, this`lastDrag, this`maxDistanceSquared, this`style,
               this`intervalActive
      ensures Valid()
      ensures AnimatingTick(t, rel, ok)
      ensures maxDistanceSquared == old(maxDistanceSquared)
    {
      UpdateAnimationState(t, None);
      var running := AnimateFilters();
      if running {
        ok := AnimatedMove(t, rel);
      } else {
        EndAnimation();
        ok := true;
      }
    }

    /**
     * The running branch of dragUpdateAnimating: snapshot the animated
     * position and call `updater.move` unguarded (it throws, after the
     * snapshot, for an updater without `move`).
     */
    method AnimatedMove(t: real, rel: Point) returns (ok: bool)
      requires Valid() && !dragging && intervalActive
      modifies this`lastDrag, this`maxDistanceSquared, this`animation, this`style, this`trace
      ensures Valid()
      ensures ok == DU.HasMove(updater.value)
      ensures maxDistanceSquared == old(maxDistanceSquared)
      ensures lastDrag == Some(Snapshot(old(lastDrag), old(animation).pos, old(animation).pos,
                                        (t - startTime) * 0.001, maxDistanceSquared))
      ensures animation == ClockTick(old(animation), t)
      ensures trace == old(trace) + if ok then [UpdaterMove(lastDrag.value)] else []
      ensures style == if ok then DU.MoveStyle(updater.value, old(style), lastDrag.value, rel) else old(style)
    {
      var pos := animation.pos;
      var drag := ProcessDrag(pos, pos, t);
      ok := DU.HasMove(updater.value);
      if ok {
        style := DU.MoveStyle(updater.value, style, drag, rel);
        trace := trace + [UpdaterMove(drag)];
      }
    }

    /** dragUpdate: the interval's callback. */
    method DragUpdate(t: real, rel: Point) returns (ok: bool)
      requires Valid() && intervalActive
      modifies this`animation, this`trace, this`lastDrag, this`maxDistanceSquared, this`style,
               this`intervalActive
      ensures Valid()
      ensures !old(dragging) ==> AnimatingTick(t, rel, ok)
      ensures old(dragging) ==> unchanged(this`dragging, this`lastDrag, this`animation, this`intervalActive, this`style)
      ensures old(dragging) ==> ok && trace == old(trace) + (if onDragUpdate then [OnDragUpdate(UpdateDrag(t).value)] else [])
      ensures maxDistanceSquared == old(maxDistanceSquared)
    {
      if dragging {
        DragUpdateDragging(t);
        ok := true;
      } else {
        ok := DragUpdateAnimating(t, rel);
      }
    }
  }
}
