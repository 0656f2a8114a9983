/**
 * Drag filters: the position transformers a drag engine folds every
 * position through, and the ones that keep driving the position after
 * release (the animating filters).
 *
 * Filters are duck-typed objects in the source.  The concrete ones are
 * DragFilterLimitAxes, DragFilterMomentum and NullFilter; `Custom` stands
 * for any other object a caller passes, described by which of `start`,
 * `end` and `animates` it defines.  A custom filter's `move` and `animate`
 * are supplied as functions of the filter's id.
 */
module DragFilters {
  import opened Wrappers
  import opened Points
  import AweCore

  datatype Filter =
    | LimitAxes(minX: real, maxX: real, minY: real, maxY: real)
    | Momentum
    | NullFilter
    | Custom(id: nat, animates: bool, hasStart: bool, hasEnd: bool)

  /** `filter.animates` is truthy. */
  predicate Animates(f: Filter) { f.Momentum? || (f.Custom? && f.animates) }

  /** `filter.start` is defined. */
  predicate HasStart(f: Filter) { f.Momentum? || (f.Custom? && f.hasStart) }

  /** `filter.end` is defined: none of the concrete filters defines one. */
  predicate HasEnd(f: Filter) { f.Custom? && f.hasEnd }

  /** What a custom filter's `move` returns; None stands for a falsy result. */
  type CustomMove = (nat, Point) -> Option<Point>

  /** A custom filter's `animate`: (done, new animation state). */
  type CustomAnimate = (nat, AnimState) -> (bool, AnimState)

  // ---------------------------------------------------------------------
  // DragFilterLimitAxes

  predicate InBounds(p: Point, minX: real, maxX: real, minY: real, maxY: real)
  {
    minX <= p.x <= maxX && minY <= p.y <= maxY
  }

  /** DragFilterLimitAxes.move: clamp each axis into its interval. */
  function LimitAxesMove(minX: real, maxX: real, minY: real, maxY: real, p: Point): (q: Point)
    ensures minX <= maxX && minY <= maxY ==> InBounds(q, minX, maxX, minY, maxY)
    ensures InBounds(p, minX, maxX, minY, maxY) ==> q == p
    ensures maxX < minX ==> q.x == maxX
    ensures maxY < minY ==> q.y == maxY
  {
    Point(AweCore.Clamp(p.x, minX, maxX), AweCore.Clamp(p.y, minY, maxY))
  }

  // ---------------------------------------------------------------------
  // The chain: each filter in order moves the position; a falsy result keeps it

  /** The value `filter.move(el, pos)` returns; None is a falsy result. */
  function Move(f: Filter, p: Point, custom: CustomMove): (r: Option<Point>)
    ensures !f.Custom? ==> r.Some?
    ensures f.NullFilter? || f.Momentum? ==> r == Some(p)
  {
    match f
    case LimitAxes(minX, maxX, minY, maxY) => Some(LimitAxesMove(minX, maxX, minY, maxY, p))
    case Momentum => Some(p)
    case NullFilter => Some(p)
    case Custom(id, _, _, _) => custom(id, p)
  }

  /** One step of the chain: the filter's result, or the previous position when it is falsy. */
  function Step(f: Filter, p: Point, custom: CustomMove): (q: Point)
    ensures Move(f, p, custom).None? ==> q == p
    ensures Move(f, p, custom).Some? ==> q == Move(f, p, custom).value
  {
    Move(f, p, custom).GetOr(p)
  }

  /** applyFilters: the position after folding `p` through `fs` in array order. */
  function Chain(fs: seq<Filter>, p: Point, custom: CustomMove): Point
    decreases |fs|
  {
    if fs == [] then p else Step(fs[|fs| - 1], Chain(fs[..|fs| - 1], p, custom), custom)
  }

  /** Folding through `fs + gs` is folding through `fs`, then through `gs`. */
  lemma {:induction false} ChainAppend(fs: seq<Filter>, gs: seq<Filter>, p: Point, custom: CustomMove)
    ensures Chain(fs + gs, p, custom) == Chain(gs, Chain(fs, p, custom), custom)
    decreases |gs|
  {
    if gs == [] {
      assert fs + gs == fs;
    } else {
      var gs' := gs[..|gs| - 1];
      assert (fs + gs)[..|fs + gs| - 1] == fs + gs';
      ChainAppend(fs, gs', p, custom);
    }
  }

  /** Filters see their input in array order: prepending one filter runs it first. */
  lemma ChainCons(f: Filter, fs: seq<Filter>, p: Point, custom: CustomMove)
    ensures Chain([f] + fs, p, custom) == Chain(fs, Step(f, p, custom), custom)
  {
    ChainAppend([f], fs, p, custom);
    assert [f][..0] == [];
  }

  /** A chain of NullFilters returns every position unchanged. */
  lemma {:induction false} NullChainIdentity(fs: seq<Filter>, p: Point, custom: CustomMove)
    requires forall i :: 0 <= i < |fs| ==> fs[i].NullFilter?
    ensures Chain(fs, p, custom) == p
    decreases |fs|
  {
    if fs != [] {
      NullChainIdentity(fs[..|fs| - 1], p, custom);
    }
  }

  /** Filters that return their input unchanged. */
  predicate Transparent(f: Filter) { f.NullFilter? || f.Momentum? }

  /**
   * When a limit-axes filter with non-empty intervals is followed only by
   * transparent filters, the chain's result lies inside its bounds, however
   * far the raw position is.
   */
  lemma {:induction false} ChainWithinBounds(fs: seq<Filter>, k: nat, p: Point, custom: CustomMove)
    requires k < |fs| && fs[k].LimitAxes?
    requires fs[k].minX <= fs[k].maxX && fs[k].minY <= fs[k].maxY
    requires forall j :: k < j < |fs| ==> Transparent(fs[j])
    ensures InBounds(Chain(fs, p, custom), fs[k].minX, fs[k].maxX, fs[k].minY, fs[k].maxY)
    decreases |fs|
  {
    var init := fs[..|fs| - 1];
    if k < |fs| - 1 {
      assert init[k] == fs[k];
      ChainWithinBounds(init, k, p, custom);
    }
  }

  // ---------------------------------------------------------------------
  // DragFilterMomentum: its own velocity memory

  /** `_i.lastPos`, `_i.vel` and `_i.lastTime` (milliseconds) of one momentum filter. */
  datatype MomentumState = MomentumState(lastPos: Option<Point>, vel: Point, lastTime: real)

  const InitialMomentum := MomentumState(None, Origin, 0.0)

  /** DragFilterMomentum.start: forget the last position and the velocity. */
  function MomentumStart(m: MomentumState): (m': MomentumState)
    ensures m'.lastPos.None? && m'.vel == Origin && m'.lastTime == m.lastTime
  {
    m.(lastPos := None, vel := Origin)
  }

  /**
   * DragFilterMomentum.move at time `t` (ms): when a previous position is
   * known, the velocity becomes the displacement per second since then.
   */
  function MomentumMove(m: MomentumState, p: Point, t: real): (m': MomentumState)
    requires m.lastPos.Some? ==> t > m.lastTime
    ensures m'.lastPos == Some(p) && m'.lastTime == t
    ensures m.lastPos.None? ==> m'.vel == m.vel
    ensures m.lastPos.Some? ==>
              && m'.vel.x * ((t - m.lastTime) * 0.001) == p.x - m.lastPos.value.x
              && m'.vel.y * ((t - m.lastTime) * 0.001) == p.y - m.lastPos.value.y
  {
    match m.lastPos
    case None => MomentumState(Some(p), m.vel, t)
    case Some(q) =>
      var dt := (t - m.lastTime) * 0.001;
      MomentumState(Some(p), Point((p.x - q.x) / dt, (p.y - q.y) / dt), t)
  }

  /** The engine's shared animation scratch object; times in seconds. */
  datatype AnimState = AnimState(last: real, animationTime: real, deltaTime: real, velocity: Point, pos: Point)

  /** The displacement momentum applies in one tick: the decayed velocity times deltaTime. */
  function MomentumDisplacement(a: AnimState): Point
  {
    Scale(a.deltaTime, Scale(0.8, a.velocity))
  }

  /**
   * DragFilterMomentum.animate: the velocity decays by 0.8; if the tick's
   * displacement has squared length above 1 it is added to the position and
   * the filter is still running (false), otherwise the position stays and
   * the filter is done (true).
   */
  function MomentumAnimate(a: AnimState): (res: (bool, AnimState))
    ensures res.1.velocity == Scale(0.8, a.velocity)
    ensures res.0 <==> DistSq(MomentumDisplacement(a), Origin) <= 1.0
    ensures res.0 ==> res.1.pos == a.pos
    ensures !res.0 ==> res.1.pos == Add(a.pos, MomentumDisplacement(a))
    ensures res.1.deltaTime == a.deltaTime && res.1.animationTime == a.animationTime && res.1.last == a.last
  {
    var v := Scale(0.8, a.velocity);
    var dx := v.x * a.deltaTime;
    var dy := v.y * a.deltaTime;
    if dx * dx + dy * dy > 1.0 then
      (false, a.(velocity := v, pos := Point(a.pos.x + dx, a.pos.y + dy)))
    else
      (true, a.(velocity := v))
  }

  /**
   * Ticks of momentum animation, each with its own deltaTime: the index of
   * the tick at which the filter reports done, if it does within `dts`.
   */
  function TicksUntilDone(a: AnimState, dts: seq<real>): Option<nat>
    decreases |dts|
  {
    if dts == [] then None
    else
      var res := MomentumAnimate(a.(deltaTime := dts[0]));
      if res.0 then Some(0)
      else match TicksUntilDone(res.1, dts[1..])
        case None => None
        case Some(n) => Some(n + 1)
  }

  /**
   * Momentum animation stops: when every tick's deltaTime squared is at most
   * `d2`, the filter reports done within n ticks as soon as
   * |v|^2 * d2 <= 1 + (n - 1) * 9/16, for the initial velocity v.
   */
  lemma {:induction false} MomentumTerminates(a: AnimState, dts: seq<real>, d2: real)
    requires 1 <= |dts|
    requires forall i :: 0 <= i < |dts| ==> dts[i] * dts[i] <= d2
    requires SpeedSq(a.velocity) * d2 <= 1.0 + (|dts| - 1) as real * 0.5625
    ensures TicksUntilDone(a, dts).Some?
    decreases |dts|
  {
    var res := MomentumAnimate(a.(deltaTime := dts[0]));
    var w := SpeedSq(a.velocity) * d2;
    TickDisplacement(a, dts[0], d2);
    if !res.0 {
      var m := (|dts| - 1) as real;
      DecayStep(w, m);
      assert SpeedSq(res.1.velocity) * d2 == 0.64 * w;
      forall i | 0 <= i < |dts[1..]| ensures dts[1..][i] * dts[1..][i] <= d2 {
        assert dts[1..][i] == dts[i + 1];
      }
      MomentumTerminates(res.1, dts[1..], d2);
    }
  }

  /** Squared length of a velocity. */
  function SpeedSq(v: Point): (r: real)
    ensures r >= 0.0
  {
    v.x * v.x + v.y * v.y
  }

  /**
   * One tick's squared displacement is 0.64 |v|^2 dt^2, at most 0.64 |v|^2 d2,
   * and the decayed velocity has squared length 0.64 |v|^2.
   */
  lemma TickDisplacement(a: AnimState, dt: real, d2: real)
    requires dt * dt <= d2
    ensures DistSq(MomentumDisplacement(a.(deltaTime := dt)), Origin) <= 0.64 * (SpeedSq(a.velocity) * d2)
    ensures SpeedSq(Scale(0.8, a.velocity)) == 0.64 * SpeedSq(a.velocity)
  {
    var vx, vy := a.velocity.x, a.velocity.y;
    var disp := MomentumDisplacement(a.(deltaTime := dt));
    assert disp.x == dt * (0.8 * vx) && disp.y == dt * (0.8 * vy);
    assert DistSq(disp, Origin) == 0.64 * (SpeedSq(a.velocity) * (dt * dt));
    MulMonotone(SpeedSq(a.velocity), dt * dt, d2);
  }

  /** If a tick keeps running (0.64 w > 1) with m ticks left, the bound holds for m - 1. */
  lemma DecayStep(w: real, m: real)
    requires w <= 1.0 + m * 0.5625 && 0.64 * w > 1.0
    ensures m >= 1.0 && 0.64 * w <= 1.0 + (m - 1.0) * 0.5625
  {
  }

  lemma MulMonotone(k: real, x: real, y: real)
    requires 0.0 <= k && x <= y
    ensures k * x <= k * y
  {
  }

  // ---------------------------------------------------------------------
  // The animation tick: each animating filter in order, skipped once one is still running

  /** One animating filter's `animate`: (done, new animation state). */
  function AnimateOne(f: Filter, a: AnimState, custom: CustomAnimate): (bool, AnimState)
    requires Animates(f)
  {
    if f.Momentum? then MomentumAnimate(a) else custom(f.id, a)
  }

  /** Indices at or after `k` of the filters that animate, in order. */
  function AnimatingIndices(fs: seq<Filter>, k: nat): (r: seq<nat>)
    requires k <= |fs|
    decreases |fs| - k
    ensures forall i :: i in r <==> k <= i < |fs| && Animates(fs[i])
  {
    if k == |fs| then []
    else if Animates(fs[k]) then [k] + AnimatingIndices(fs, k + 1)
    else AnimatingIndices(fs, k + 1)
  }

  /**
   * The forEach of dragUpdateAnimating from index `k` on, with `running` the
   * value accumulated so far.  The `||` short-circuits: once a filter
   * reports that it is still running, later animating filters are not asked.
   * Returns (running, animation state, indices whose animate was called).
   */
  function AnimateFrom(fs: seq<Filter>, k: nat, running: bool, a: AnimState, custom: CustomAnimate)
    : (res: (bool, AnimState, seq<nat>))
    requires k <= |fs|
    decreases |fs| - k
    ensures running ==> res == (true, a, [])
  {
    if k == |fs| then (running, a, [])
    else if Animates(fs[k]) && !running then
      var one := AnimateOne(fs[k], a, custom);
      var rest := AnimateFrom(fs, k + 1, !one.0, one.1, custom);
      (rest.0, rest.1, [k] + rest.2)
    else
      AnimateFrom(fs, k + 1, running, a, custom)
  }

  /**
   * What the tick computes: the filters asked are the animating ones in
   * order, up to and including the first that reports it is still running;
   * the tick is running exactly when one was asked and the last one asked
   * did not report done; when none is running, every animating filter was
   * asked.
   */
  lemma {:induction false} AnimateFromCalls(fs: seq<Filter>, k: nat, a: AnimState, custom: CustomAnimate)
    requires k <= |fs|
    decreases |fs| - k
    ensures var res := AnimateFrom(fs, k, false, a, custom);
            && res.2 <= AnimatingIndices(fs, k)
            && (!res.0 ==> res.2 == AnimatingIndices(fs, k))
            && (res.0 ==> |res.2| > 0)
            && (res.0 <==> |res.2| > 0 && !AnimateReportsDone(fs, a, custom, res.2))
  {
    if k < |fs| {
      if Animates(fs[k]) {
        var one := AnimateOne(fs[k], a, custom);
        var rest := AnimateFrom(fs, k + 1, !one.0, one.1, custom);
        assert ([k] + rest.2)[1..] == rest.2;
        if one.0 {
          AnimateFromCalls(fs, k + 1, one.1, custom);
        }
      } else {
        AnimateFromCalls(fs, k + 1, a, custom);
      }
    }
  }

  /**
   * Replays the calls `called` from state `a`: true when the last of them
   * reported done (the predicate used to say what `running` means).
   */
  predicate AnimateReportsDone(fs: seq<Filter>, a: AnimState, custom: CustomAnimate, called: seq<nat>)
    decreases |called|
  {
    if called == [] then true
    else if called[0] < |fs| && Animates(fs[called[0]]) then
      var one := AnimateOne(fs[called[0]], a, custom);
      if |called| == 1 then one.0 else AnimateReportsDone(fs, one.1, custom, called[1..])
    else false
  }

  // ---------------------------------------------------------------------
  // Which filters get `end` and `start`

  /** Which filters an `end` loop selects. */
  datatype EndMode = NonAnimating | All | AnimatingOnly

  predicate Selected(f: Filter, mode: EndMode)
  {
    match mode
    case NonAnimating => !Animates(f)
    case All => true
    case AnimatingOnly => Animates(f)
  }

  /** Indices at or after `k` whose `end` the loop calls, in order. */
  function EndIndices(fs: seq<Filter>, mode: EndMode, k: nat): seq<nat>
    requires k <= |fs|
    decreases |fs| - k
  {
    if k == |fs| then []
    else if Selected(fs[k], mode) && HasEnd(fs[k]) then [k] + EndIndices(fs, mode, k + 1)
    else EndIndices(fs, mode, k + 1)
  }

  predicate Increasing(s: seq<nat>)
  {
    forall i, j :: 0 <= i < j < |s| ==> s[i] < s[j]
  }

  /**
   * An `end` loop calls `end` on exactly the selected filters that have one,
   * in array order, each at most once.
   */
  lemma {:induction false} EndIndicesSelected(fs: seq<Filter>, mode: EndMode, k: nat)
    requires k <= |fs|
    decreases |fs| - k
    ensures var r := EndIndices(fs, mode, k);
            && (forall i :: i in r <==> k <= i < |fs| && Selected(fs[i], mode) && HasEnd(fs[i]))
            && (forall i :: 0 <= i < |r| ==> k <= r[i])
            && Increasing(r)
  {
    if k < |fs| {
      EndIndicesSelected(fs, mode, k + 1);
      var rest := EndIndices(fs, mode, k + 1);
      if Selected(fs[k], mode) && HasEnd(fs[k]) {
        var r := [k] + rest;
        forall i, j | 0 <= i < j < |r| ensures r[i] < r[j] {
          assert r[j] == rest[j - 1] && k + 1 <= rest[j - 1];
          if i > 0 {
            assert r[i] == rest[i - 1] && rest[i - 1] < rest[j - 1];
          }
        }
      }
    }
  }

  /**
   * Ending the non-animating filters at release and the animating ones when
   * the animation finishes calls `end` on every filter that has one, exactly
   * once: the two index lists partition the full list.
   */
  lemma {:induction false} EndPhasesPartition(fs: seq<Filter>, k: nat)
    requires k <= |fs|
    ensures multiset(EndIndices(fs, NonAnimating, k)) + multiset(EndIndices(fs, AnimatingOnly, k))
            == multiset(EndIndices(fs, All, k))
    decreases |fs| - k
  {
    if k < |fs| {
      EndPhasesPartition(fs, k + 1);
      var f := fs[k];
      var na, an, al := EndIndices(fs, NonAnimating, k + 1), EndIndices(fs, AnimatingOnly, k + 1),
                        EndIndices(fs, All, k + 1);
      if !HasEnd(f) {
        assert EndIndices(fs, All, k) == al;
        assert EndIndices(fs, NonAnimating, k) == na;
        assert EndIndices(fs, AnimatingOnly, k) == an;
      } else if Animates(f) {
        assert EndIndices(fs, All, k) == [k] + al;
        assert EndIndices(fs, NonAnimating, k) == na;
        assert EndIndices(fs, AnimatingOnly, k) == [k] + an;
      } else {
        assert EndIndices(fs, All, k) == [k] + al;
        assert EndIndices(fs, NonAnimating, k) == [k] + na;
        assert EndIndices(fs, AnimatingOnly, k) == an;
      }
    }
  }

  /** Indices at or after `k` whose `start` dragStart calls, in order. */
  function StartIndices(fs: seq<Filter>, k: nat): seq<nat>
    requires k <= |fs|
    decreases |fs| - k
  {
    if k == |fs| then []
    else if HasStart(fs[k]) then [k] + StartIndices(fs, k + 1)
    else StartIndices(fs, k + 1)
  }

  /** dragStart calls `start` on exactly the filters that have one, in array order. */
  lemma {:induction false} StartIndicesSelected(fs: seq<Filter>, k: nat)
    requires k <= |fs|
    decreases |fs| - k
    ensures var r := StartIndices(fs, k);
            && (forall i :: i in r <==> k <= i < |fs| && HasStart(fs[i]))
            && Increasing(r)
  {
    if k < |fs| {
      StartIndicesSelected(fs, k + 1);
      var rest := StartIndices(fs, k + 1);
      if HasStart(fs[k]) {
        var r := [k] + rest;
        forall i, j | 0 <= i < j < |r| ensures r[i] < r[j] {
          assert r[j] == rest[j - 1] && rest[j - 1] in rest;
          if i > 0 {
            assert r[i] == rest[i - 1] && rest[i - 1] < rest[j - 1];
          }
        }
      }
    }
  }

  /** hasAnimatingFilter: some filter of the list animates. */
  method HasAnimatingFilter(fs: seq<Filter>) returns (b: bool)
    ensures b <==> exists i :: 0 <= i < |fs| && Animates(fs[i])
  {
    b := false;
    var i := 0;
    while i < |fs|
      invariant 0 <= i <= |fs|
      invariant b <==> exists j :: 0 <= j < i && Animates(fs[j])
    {
      if Animates(fs[i]) {
        b := true;
      }
      i := i + 1;
    }
  }
}
