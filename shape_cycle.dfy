/** Shape-cycle animation: an entity steps through a list of shapes, each shown for its own
    duration, optionally looping. */
module ShapeCycle {
  import opened Common

  datatype TimePoint = TimePoint(shapeId: nat, duration: real)

  /** An `Animation` component. `duration` is a field of its own: `new` sets it to the total of the
      time points, the default animation sets it to 0. */
  datatype Animation = Animation(timePoints: seq<TimePoint>, duration: real, looping: bool, speed: real)

  /** An `AnimationState` component. */
  datatype AnimationState = AnimationState(currentIndex: nat, currentTime: real)

  /** The total duration of the first `n` time points. */
  function Cumulative(tps: seq<TimePoint>, n: nat): real
    requires n <= |tps|
  {
    if n == 0 then 0.0 else Cumulative(tps, n - 1) + tps[n - 1].duration
  }

  /** `Animation::new`. */
  function NewAnimation(tps: seq<TimePoint>, looping: bool, speed: real): Animation
  {
    Animation(tps, Cumulative(tps, |tps|), looping, speed)
  }

  /** `Animation::default`: no time points, no duration, looping, unit speed. */
  function DefaultAnimation(): Animation
  {
    Animation([], 0.0, true, 1.0)
  }

  predicate NonNegativeDurations(tps: seq<TimePoint>)
  {
    forall i :: 0 <= i < |tps| ==> tps[i].duration >= 0.0
  }

  /** The search of `index_for_time` from position `i`: the first time point still running at
      `time`, or the last one. */
  function Scan(tps: seq<TimePoint>, time: real, i: nat): (r: nat)
    requires i < |tps|
    ensures i <= r < |tps|
    decreases |tps| - i
  {
    if i == |tps| - 1 || time < Cumulative(tps, i + 1) then i else Scan(tps, time, i + 1)
  }

  /** `index_for_time`: past the animation's duration, the last time point; otherwise the search. */
  function IndexAt(a: Animation, time: real): (r: nat)
    requires |a.timePoints| > 0
    ensures r < |a.timePoints|
  {
    if time > a.duration then |a.timePoints| - 1 else Scan(a.timePoints, time, 0)
  }

  /** `Animation::index_for_time`, with its running total of durations. An empty animation has no
      last index (the subtraction underflows), so at least one time point is required. */
  method IndexForTime(a: Animation, time: real) returns (r: nat)
    requires |a.timePoints| > 0
    ensures r == IndexAt(a, time)
  {
    var tps := a.timePoints;
    if time > a.duration {
      return |tps| - 1;
    }
    var duration := 0.0;
    for index := 0 to |tps|
      invariant duration == Cumulative(tps, index)
      invariant index < |tps| ==> Scan(tps, time, 0) == Scan(tps, time, index)
      invariant index == |tps| ==> Scan(tps, time, 0) == |tps| - 1
    {
      if time < tps[index].duration + duration {
        return index;
      }
      duration := duration + tps[index].duration;
    }
    return |tps| - 1;
  }

  /** The search finds a valid index that is the first one whose end lies beyond `time`, if any
      before the last does. */
  lemma {:induction false} ScanIsFirst(tps: seq<TimePoint>, time: real, i: nat)
    requires i < |tps|
    ensures var r := Scan(tps, time, i);
      && i <= r < |tps|
      && (r < |tps| - 1 ==> time < Cumulative(tps, r + 1))
      && (forall j :: i < j <= r ==> time >= Cumulative(tps, j))
    decreases |tps| - i
  {
    if !(i == |tps| - 1 || time < Cumulative(tps, i + 1)) {
      ScanIsFirst(tps, time, i + 1);
    }
  }

  /** With non-negative durations no prefix lasts longer than the whole. */
  lemma {:induction false} PrefixWithinTotal(tps: seq<TimePoint>, n: nat, m: nat)
    requires n <= m <= |tps| && NonNegativeDurations(tps)
    ensures Cumulative(tps, n) <= Cumulative(tps, m)
    decreases m - n
  {
    if n < m {
      PrefixWithinTotal(tps, n, m - 1);
    }
  }

  /** `index_for_time` always yields a valid index, the first time point whose end lies beyond
      `time` (or the last one when none before it does). */
  lemma IndexIsFirst(a: Animation, time: real)
    requires |a.timePoints| > 0
    ensures var r := IndexAt(a, time);
      && r < |a.timePoints|
      && (time > a.duration ==> r == |a.timePoints| - 1)
      && (time <= a.duration ==>
            && (r < |a.timePoints| - 1 ==> time < Cumulative(a.timePoints, r + 1))
            && (forall j :: 0 < j <= r ==> time >= Cumulative(a.timePoints, j)))
  {
    ScanIsFirst(a.timePoints, time, 0);
  }

  /** For an animation built by `new` with non-negative durations, a time `t >= 0` falls inside the
      time point chosen: it has started by `t`, and it has not ended unless `t` is past the whole
      animation. The early return for times past the duration gives the same index as the search. */
  lemma IndexLocatesTime(tps: seq<TimePoint>, looping: bool, speed: real, time: real)
    requires |tps| > 0 && NonNegativeDurations(tps) && time >= 0.0
    ensures var a := NewAnimation(tps, looping, speed);
      var r := IndexAt(a, time);
      && Cumulative(tps, r) <= time
      && (time < a.duration ==> time < Cumulative(tps, r + 1))
      && r == Scan(tps, time, 0)
  {
    var a := NewAnimation(tps, looping, speed);
    var r := IndexAt(a, time);
    var s := Scan(tps, time, 0);
    ScanIsFirst(tps, time, 0);
    if s < |tps| - 1 {
      PrefixWithinTotal(tps, s + 1, |tps|);
    }
    assert r == s;
  }

  /** The components `update_animations` touches on one entity. */
  datatype Animator = Animator(instance: Instance, state: AnimationState, animation: Animation)

  /** The animation clock after one frame: advanced by the frame time and, when looping past the
      end, taken back by one duration. */
  function NextTime(a: Animation, current: real, delta: real): real
  {
    var t := current + delta;
    if t > a.duration && a.looping then t - a.duration else t
  }

  /** One frame of `update_animations` on one entity: the clock, the index for the new time, and
      the instance showing that time point's shape. */
  function Animate(e: Animator, delta: real): Animator
    requires |e.animation.timePoints| > 0
  {
    var t := NextTime(e.animation, e.state.currentTime, delta);
    var i := IndexAt(e.animation, t);
    Animator(e.instance.(shape := e.animation.timePoints[i].shapeId), AnimationState(i, t), e.animation)
  }

  predicate Animatable(world: map<Id, Animator>)
  {
    forall id :: id in world ==> |world[id].animation.timePoints| > 0
  }

  /** The body of `update_animations` for one entity. */
  method AnimateOne(e: Animator, delta: real) returns (n: Animator)
    requires |e.animation.timePoints| > 0
    ensures n == Animate(e, delta)
  {
    var time := e.state.currentTime + delta;
    if time > e.animation.duration && e.animation.looping {
      time := time - e.animation.duration;
    }
    var index := IndexForTime(e.animation, time);
    var shape := e.animation.timePoints[index].shapeId;
    n := Animator(e.instance.(shape := shape), AnimationState(index, time), e.animation);
  }

  /** `update_animations` over the entities with an animation, in query order. */
  method UpdateAnimations(world: map<Id, Animator>, order: seq<Id>, delta: real) returns (world': map<Id, Animator>)
    requires Enumerates(order, world.Keys) && Animatable(world)
    ensures world'.Keys == world.Keys
    ensures forall id :: id in world ==> world'[id] == Animate(world[id], delta)
  {
    world' := world;
    ghost var done: set<Id> := {};
    for i := 0 to |order|
      invariant world'.Keys == world.Keys
      invariant forall j :: 0 <= j < i ==> order[j] in done
      invariant forall j :: i <= j < |order| ==> order[j] !in done
      invariant forall id :: id in done ==> id in world && world'[id] == Animate(world[id], delta)
      invariant forall id :: id in world && id !in done ==> world'[id] == world[id]
    {
      var id := order[i];
      var next := AnimateOne(world'[id], delta);
      world' := world'[id := next];
      done := done + {id};
    }
  }

  /** Looping keeps a clock that starts within the animation and advances by at most one duration
      within it; the duration is taken off at most once, so a longer frame leaves the clock past
      the end. Without looping the clock only advances. */
  lemma NextTimeBounds(a: Animation, current: real, delta: real)
    ensures !a.looping ==> NextTime(a, current, delta) == current + delta
    ensures a.looping && 0.0 <= current <= a.duration && 0.0 <= delta <= a.duration ==>
      0.0 <= NextTime(a, current, delta) <= a.duration
    ensures a.looping && a.duration >= 0.0 && current + delta > 2.0 * a.duration ==> NextTime(a, current, delta) > a.duration
  {
  }

  /** After a frame the entity shows the shape of the time point its state names, and that index
      is valid. */
  lemma AnimateShowsIndex(e: Animator, delta: real)
    requires |e.animation.timePoints| > 0
    ensures var n := Animate(e, delta);
      && n.state.currentIndex < |e.animation.timePoints|
      && n.instance.shape == e.animation.timePoints[n.state.currentIndex].shapeId
      && n.animation == e.animation
      && n.instance.(shape := e.instance.shape) == e.instance
  {
    IndexIsFirst(e.animation, NextTime(e.animation, e.state.currentTime, delta));
  }

  /** The animation's `speed` is never read by the update. */
  lemma SpeedIgnored(e: Animator, speed: real, delta: real)
    requires |e.animation.timePoints| > 0
    ensures var f := e.(animation := e.animation.(speed := speed));
      Animate(f, delta).(animation := e.animation) == Animate(e, delta)
  {
  }

  /** The default animation is empty, lasts nothing and loops at unit speed; it has no index to
      show, so updating an entity that carries it is not defined. */
  lemma DefaultIsEmpty()
    ensures var d := DefaultAnimation();
      |d.timePoints| == 0 && d.duration == 0.0 && d.looping && d.speed == 1.0
    ensures NewAnimation([], true, 1.0) == DefaultAnimation()
  {
  }
}
