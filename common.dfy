/** Values shared by the engine's modules: the optional value, the glam vector types over `real`,
    the renderable `Instance2D`, and the way an ECS query presents its entities. */
module Common {

  datatype Option<T> = None | Some(value: T)

  /** glam's `Vec2` and `Vec4`, with `f32` components modelled as `real`. */
  datatype Vec2 = Vec2(x: real, y: real)
  datatype Vec4 = Vec4(x: real, y: real, z: real, w: real)

  /** The renderable attributes of an entity (`Instance2D`); the optional outline is not modelled. */
  datatype Instance = Instance(position: Vec2, rotation: real, scale: Vec2, color: Vec4, shape: nat)

  /** An entity identity of the ECS store. */
  type Id = nat

  const U32: int := 0x1_0000_0000

  function Abs(x: int): nat { if x < 0 then -x else x }

  function RealAbs(x: real): real { if x < 0.0 then -x else x }

  /** `order` lists every key of `keys` exactly once: the order in which a query of the ECS store
      visits its entities. */
  ghost predicate Enumerates(order: seq<Id>, keys: set<Id>)
  {
    && (forall i, j :: 0 <= i < j < |order| ==> order[i] != order[j])
    && (forall k :: k in keys <==> k in order)
  }
}
