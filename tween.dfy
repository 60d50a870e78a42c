/** Tweens: an entity's position, rotation, scale or colour is interpolated from one value to
    another over a duration; once every tween of the entity is complete its tweening components
    are removed. */
module Tween {
  import opened Common

  /** `tween_lerp` on `f32`: `a·(1 − p) + b·p`. */
  function Lerp(a: real, b: real, p: real): real
  {
    a * (1.0 - p) + b * p
  }

  /** glam's `lerp` on vectors, component by component. */
  function LerpVec2(a: Vec2, b: Vec2, p: real): Vec2
  {
    Vec2(Lerp(a.x, b.x, p), Lerp(a.y, b.y, p))
  }

  function LerpVec4(a: Vec4, b: Vec4, p: real): Vec4
  {
    Vec4(Lerp(a.x, b.x, p), Lerp(a.y, b.y, p), Lerp(a.z, b.z, p), Lerp(a.w, b.w, p))
  }

  function Clamp01(x: real): real
  {
    if x < 0.0 then 0.0 else if x > 1.0 then 1.0 else x
  }

  /** `FromTo<T>`: a start value, an end value and the time it takes. */
  datatype FromTo<T> = FromTo(from: T, to: T, duration: real)

  /** How far through a tween `time` is, clamped to [0, 1]. */
  function Progress<T>(ft: FromTo<T>, time: real): real
    requires ft.duration != 0.0
  {
    Clamp01(time / ft.duration)
  }

  /** `FromTo::lerp` for each of the interpolated types. */
  function LerpReal(ft: FromTo<real>, time: real): real
    requires ft.duration != 0.0
  {
    Lerp(ft.from, ft.to, Progress(ft, time))
  }

  function LerpV2(ft: FromTo<Vec2>, time: real): Vec2
    requires ft.duration != 0.0
  {
    LerpVec2(ft.from, ft.to, Progress(ft, time))
  }

  function LerpV4(ft: FromTo<Vec4>, time: real): Vec4
    requires ft.duration != 0.0
  {
    LerpVec4(ft.from, ft.to, Progress(ft, time))
  }

  /** `FromTo::is_complete`. */
  predicate IsComplete<T>(ft: FromTo<T>, time: real)
  {
    time >= ft.duration
  }

  /** A `Tween` component entry: which attribute of the instance it drives. */
  datatype Tween =
    | Position(position: FromTo<Vec2>)
    | Rotation(rotation: FromTo<real>)
    | Scale(scale: FromTo<Vec2>)
    | Color(color: FromTo<Vec4>)

  function Duration(tw: Tween): real
  {
    match tw
    case Position(ft) => ft.duration
    case Rotation(ft) => ft.duration
    case Scale(ft) => ft.duration
    case Color(ft) => ft.duration
  }

  predicate TweenComplete(tw: Tween, time: real)
  {
    match tw
    case Position(ft) => IsComplete(ft, time)
    case Rotation(ft) => IsComplete(ft, time)
    case Scale(ft) => IsComplete(ft, time)
    case Color(ft) => IsComplete(ft, time)
  }

  predicate WellTimed(tws: seq<Tween>)
  {
    forall i :: 0 <= i < |tws| ==> Duration(tws[i]) != 0.0
  }

  /** The instance after one tween has written its attribute. */
  function ApplyTween(inst: Instance, tw: Tween, time: real): Instance
    requires Duration(tw) != 0.0
  {
    match tw
    case Position(ft) => inst.(position := LerpV2(ft, time))
    case Rotation(ft) => inst.(rotation := LerpReal(ft, time))
    case Scale(ft) => inst.(scale := LerpV2(ft, time))
    case Color(ft) => inst.(color := LerpV4(ft, time))
  }

  /** The instance after the tweens have written their attributes, in list order. */
  function ApplyAll(inst: Instance, tws: seq<Tween>, time: real): Instance
    requires WellTimed(tws)
  {
    if tws == [] then inst
    else ApplyTween(ApplyAll(inst, tws[..|tws| - 1], time), tws[|tws| - 1], time)
  }

  /** The `done` flag: every tween is complete. */
  predicate AllComplete(tws: seq<Tween>, time: real)
  {
    tws == [] || (AllComplete(tws[..|tws| - 1], time) && TweenComplete(tws[|tws| - 1], time))
  }

  /** The tweening components of an entity: the `Tweening` marker, the `TweenState` (its clock) and
      the `Tweens` list. The system visits only entities with all three. */
  datatype TweenTarget = TweenTarget(instance: Instance, tweening: bool, state: Option<real>, tweens: Option<seq<Tween>>)

  predicate Visited(e: TweenTarget)
  {
    e.tweening && e.state.Some? && e.tweens.Some?
  }

  predicate Tweenable(e: TweenTarget)
  {
    e.tweens.Some? ==> WellTimed(e.tweens.value)
  }

  /** One frame of `tween` on one entity: the clock advances, every tween writes its attribute, and
      when all are complete the three tweening components are removed. */
  function TweenFrame(e: TweenTarget, delta: real): TweenTarget
    requires Tweenable(e)
  {
    if !Visited(e) then e
    else
      var time := e.state.value + delta;
      var tws := e.tweens.value;
      var inst := ApplyAll(e.instance, tws, time);
      if AllComplete(tws, time) then TweenTarget(inst, false, None, None)
      else TweenTarget(inst, true, Some(time), Some(tws))
  }

  /** The loop of `tween` over one entity's tweens, with its `done` flag. */
  method RunTweens(inst0: Instance, tws: seq<Tween>, time: real) returns (inst: Instance, done: bool)
    requires WellTimed(tws)
    ensures inst == ApplyAll(inst0, tws, time)
    ensures done == AllComplete(tws, time)
  {
    inst := inst0;
    done := true;
    for i := 0 to |tws|
      invariant inst == ApplyAll(inst0, tws[..i], time)
      invariant done == AllComplete(tws[..i], time)
    {
      assert tws[..i + 1][..i] == tws[..i];
      match tws[i] {
        case Position(ft) =>
          inst := inst.(position := LerpVec2(ft.from, ft.to, Clamp01(time / ft.duration)));
          done := done && time >= ft.duration;
        case Rotation(ft) =>
          inst := inst.(rotation := Lerp(ft.from, ft.to, Clamp01(time / ft.duration)));
          done := done && time >= ft.duration;
        case Scale(ft) =>
          inst := inst.(scale := LerpVec2(ft.from, ft.to, Clamp01(time / ft.duration)));
          done := done && time >= ft.duration;
        case Color(ft) =>
          inst := inst.(color := LerpVec4(ft.from, ft.to, Clamp01(time / ft.duration)));
          done := done && time >= ft.duration;
      }
    }
    assert tws[..|tws|] == tws;
  }

  /** The body of `tween` for one entity. */
  method TweenOne(e: TweenTarget, delta: real) returns (e': TweenTarget)
    requires Tweenable(e) && Visited(e)
    ensures e' == TweenFrame(e, delta)
  {
    var time := e.state.value + delta;
    var inst, done := RunTweens(e.instance, e.tweens.value, time);
    if done {
      e' := TweenTarget(inst, false, None, None);
    } else {
      e' := TweenTarget(inst, true, Some(time), e.tweens);
    }
  }

  /** The `tween` system over the store, in query order; entities without all three tweening
      components are not visited. */
  method TweenSystem(world: map<Id, TweenTarget>, order: seq<Id>, delta: real) returns (world': map<Id, TweenTarget>)
    requires Enumerates(order, world.Keys)
    requires forall id :: id in world ==> Tweenable(world[id])
    ensures world'.Keys == world.Keys
    ensures forall id :: id in world ==> world'[id] == TweenFrame(world[id], delta)
  {
    world' := world;
    ghost var done: set<Id> := {};
    for i := 0 to |order|
      invariant world'.Keys == world.Keys
      invariant forall j :: 0 <= j < i ==> order[j] in done
      invariant forall j :: i <= j < |order| ==> order[j] !in done
      invariant forall id :: id in done ==> id in world && world'[id] == TweenFrame(world[id], delta)
      invariant forall id :: id in world && id !in done ==> world'[id] == world[id]
    {
      var id := order[i];
      if Visited(world'[id]) {
        var next := TweenOne(world'[id], delta);
        world' := world'[id := next];
      }
      done := done + {id};
    }
  }

  // ---------------------------------------------------------------------------------------------
  // Properties

  /** The scalar interpolation starts at `a`, ends at `b` and stays between them on [0, 1]. */
  lemma LerpBetween(a: real, b: real, p: real)
    ensures Lerp(a, b, 0.0) == a && Lerp(a, b, 1.0) == b
    ensures 0.0 <= p <= 1.0 && a <= b ==> a <= Lerp(a, b, p) <= b
    ensures 0.0 <= p <= 1.0 && b <= a ==> b <= Lerp(a, b, p) <= a
  {
    if 0.0 <= p <= 1.0 {
      var d := b - a;
      var m := 1.0 - p;
      assert Lerp(a, b, p) == a + d * p;
      assert d * p + d * m == d;
      if a <= b {
        assert d * p >= 0.0 && d * m >= 0.0;
      } else {
        var e := a - b;
        assert e * p >= 0.0 && e * m >= 0.0;
        assert e * p == -(d * p) && e * m == -(d * m);
      }
    }
  }

  /** With a positive duration a tween gives its start value up to time 0 and its end value from
      its duration on, which is exactly when it is complete. */
  lemma LerpClamped(ft: FromTo<real>, time: real)
    requires ft.duration > 0.0
    ensures time <= 0.0 ==> LerpReal(ft, time) == ft.from
    ensures time >= ft.duration ==> LerpReal(ft, time) == ft.to
    ensures IsComplete(ft, time) <==> Progress(ft, time) == 1.0
  {
    if time <= 0.0 {
      assert time / ft.duration <= 0.0;
    }
    if time >= ft.duration {
      assert time / ft.duration >= 1.0;
    }
    if time < ft.duration {
      BelowOne(time, ft.duration);
    }
  }

  lemma BelowOne(x: real, d: real)
    requires 0.0 < d && x < d
    ensures x / d < 1.0
  {
    var q := x / d;
    assert q * d == x;
  }

  lemma LerpVectorsClamped(ft2: FromTo<Vec2>, ft4: FromTo<Vec4>, time: real)
    requires ft2.duration > 0.0 && ft4.duration > 0.0
    ensures time <= 0.0 ==> LerpV2(ft2, time) == ft2.from && LerpV4(ft4, time) == ft4.from
    ensures time >= ft2.duration ==> LerpV2(ft2, time) == ft2.to
    ensures time >= ft4.duration ==> LerpV4(ft4, time) == ft4.to
  {
    if time <= 0.0 {
      assert time / ft2.duration <= 0.0 && time / ft4.duration <= 0.0;
    }
    if time >= ft2.duration {
      assert time / ft2.duration >= 1.0;
    }
    if time >= ft4.duration {
      assert time / ft4.duration >= 1.0;
    }
  }

  /** `done` holds exactly when every tween is complete at the new time; an empty list is done at
      once. */
  lemma {:induction false} AllCompleteMeansEach(tws: seq<Tween>, time: real)
    ensures AllComplete(tws, time) <==> forall i :: 0 <= i < |tws| ==> time >= Duration(tws[i])
  {
    if tws != [] {
      var prefix := tws[..|tws| - 1];
      AllCompleteMeansEach(prefix, time);
      assert forall i :: 0 <= i < |prefix| ==> prefix[i] == tws[i];
    }
  }

  /** The attribute a tween drives. */
  datatype Attribute = PositionAttr | RotationAttr | ScaleAttr | ColorAttr

  /** An attribute's value, whatever its type. */
  datatype AttributeValue = V2(v2: Vec2) | R(r: real) | V4(v4: Vec4)

  function Drives(tw: Tween): Attribute
  {
    match tw
    case Position(_) => PositionAttr
    case Rotation(_) => RotationAttr
    case Scale(_) => ScaleAttr
    case Color(_) => ColorAttr
  }

  function Read(inst: Instance, a: Attribute): AttributeValue
  {
    match a
    case PositionAttr => V2(inst.position)
    case RotationAttr => R(inst.rotation)
    case ScaleAttr => V2(inst.scale)
    case ColorAttr => V4(inst.color)
  }

  /** The value a tween computes for its attribute at `time`. */
  function Produced(tw: Tween, time: real): AttributeValue
    requires Duration(tw) != 0.0
  {
    match tw
    case Position(ft) => V2(LerpV2(ft, time))
    case Rotation(ft) => R(LerpReal(ft, time))
    case Scale(ft) => V2(LerpV2(ft, time))
    case Color(ft) => V4(LerpV4(ft, time))
  }

  /** Each tween writes its own attribute and no other. */
  lemma TweenWritesOwnAttribute(inst: Instance, tw: Tween, time: real, a: Attribute)
    requires Duration(tw) != 0.0
    ensures Read(ApplyTween(inst, tw, time), a) == if a == Drives(tw) then Produced(tw, time) else Read(inst, a)
    ensures ApplyTween(inst, tw, time).shape == inst.shape
  {
  }

  /** Applying a list in two parts is applying it whole. */
  lemma {:induction false} ApplyAllAppend(inst: Instance, a: seq<Tween>, b: seq<Tween>, time: real)
    requires WellTimed(a) && WellTimed(b)
    ensures WellTimed(a + b)
    ensures ApplyAll(inst, a + b, time) == ApplyAll(ApplyAll(inst, a, time), b, time)
  {
    assert forall i :: 0 <= i < |a + b| ==> (a + b)[i] == if i < |a| then a[i] else b[i - |a|];
    if b == [] {
      assert a + b == a;
    } else {
      var b' := b[..|b| - 1];
      assert (a + b)[..|a + b| - 1] == a + b';
      ApplyAllAppend(inst, a, b', time);
    }
  }

  /** An attribute no tween in the list drives keeps its value. */
  lemma {:induction false} UndrivenAttributeKept(inst: Instance, tws: seq<Tween>, time: real, a: Attribute)
    requires WellTimed(tws)
    requires forall i :: 0 <= i < |tws| ==> Drives(tws[i]) != a
    ensures Read(ApplyAll(inst, tws, time), a) == Read(inst, a)
  {
    if tws != [] {
      UndrivenAttributeKept(inst, tws[..|tws| - 1], time, a);
      TweenWritesOwnAttribute(ApplyAll(inst, tws[..|tws| - 1], time), tws[|tws| - 1], time, a);
    }
  }

  /** Of several tweens of one kind, the last in the list decides the attribute. */
  lemma LastWriterWins(inst: Instance, before: seq<Tween>, tw: Tween, after: seq<Tween>, time: real)
    requires WellTimed(before) && Duration(tw) != 0.0 && WellTimed(after)
    requires forall i :: 0 <= i < |after| ==> Drives(after[i]) != Drives(tw)
    ensures WellTimed(before + [tw] + after)
    ensures Read(ApplyAll(inst, before + [tw] + after, time), Drives(tw)) == Produced(tw, time)
  {
    ApplyAllAppend(inst, before, [tw], time);
    ApplyAllAppend(inst, before + [tw], after, time);
    var mid := ApplyAll(inst, before + [tw], time);
    assert (before + [tw])[..|before + [tw]| - 1] == before;
    TweenWritesOwnAttribute(ApplyAll(inst, before, time), tw, time, Drives(tw));
    UndrivenAttributeKept(mid, after, time, Drives(tw));
  }

  /** A frame advances the clock by the frame time and keeps the tweens while any is incomplete;
      once all are complete the entity loses its tweening components, and later frames leave it
      alone. Entities the system does not visit are untouched. */
  lemma TweenFrameOutcome(e: TweenTarget, delta: real, delta2: real)
    requires Tweenable(e)
    ensures !Visited(e) ==> TweenFrame(e, delta) == e
    ensures Visited(e) ==>
      var n := TweenFrame(e, delta);
      var time := e.state.value + delta;
      && n.instance == ApplyAll(e.instance, e.tweens.value, time)
      && (AllComplete(e.tweens.value, time) <==> !n.tweening && n.state.None? && n.tweens.None?)
      && (!AllComplete(e.tweens.value, time) ==> n.tweening && n.state == Some(time) && n.tweens == e.tweens)
      && (AllComplete(e.tweens.value, time) ==> TweenFrame(n, delta2) == n)
  {
  }
}
