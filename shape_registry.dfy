/** The shape registry: every shape the renderer can draw, stored in registration order, with an
    index from shape name to the id of the latest shape registered under that name. */
module ShapeRegistry {
  import opened Common

  /** A registered shape: its name, outline points and triangle indices. The vertex and index
      buffers built from them on the GPU are not part of this model. */
  datatype Shape = Shape(name: string, points: seq<Vec2>, indices: seq<nat>)

  /** The registry's two collections, as a value. */
  datatype Registry = Registry(shapes: seq<Shape>, index: map<string, nat>)

  /** `register_shape`: append the shape and point its name at the new position, cast to `u32`. */
  function Register(r: Registry, name: string, points: seq<Vec2>, indices: seq<nat>): (Registry, nat)
  {
    var shapes := r.shapes + [Shape(name, points, indices)];
    var id := (|shapes| - 1) % U32;
    (Registry(shapes, r.index[name := id]), id)
  }

  /** `get_id`. */
  function LookUp(r: Registry, name: string): Option<nat>
  {
    if name in r.index then Some(r.index[name]) else None
  }

  /** Every indexed name leads to a shape of that name. */
  predicate Consistent(r: Registry)
  {
    && |r.shapes| <= U32
    && forall n :: n in r.index ==> r.index[n] < |r.shapes| && r.shapes[r.index[n]].name == n
  }

  /** The shapes registered by `register_builtin_shapes`, in order. */
  const LinePredef := Shape("Line", [Vec2(-0.5, 0.1), Vec2(-0.5, -0.1), Vec2(0.5, -0.1), Vec2(0.5, 0.1)], [0, 1, 2, 0, 2, 3])
  const TrianglePredef := Shape("Triangle", [Vec2(0.0, 0.5), Vec2(-0.5, -0.5), Vec2(0.5, -0.5)], [0, 1, 2])
  const SquarePredef := Shape("Square", [Vec2(0.5, 0.5), Vec2(-0.5, 0.5), Vec2(-0.5, -0.5), Vec2(0.5, -0.5)], [0, 1, 2, 0, 2, 3])
  const ShapePredefs: seq<Shape> := [LinePredef, TrianglePredef, SquarePredef]

  /** Registering each of `ps` in turn. */
  function RegisterAll(r: Registry, ps: seq<Shape>): Registry
  {
    if ps == [] then r
    else
      var p := ps[|ps| - 1];
      Register(RegisterAll(r, ps[..|ps| - 1]), p.name, p.points, p.indices).0
  }

  class ShapeRegistry {
    var shapes: seq<Shape>
    var index: map<string, nat>

    function State(): Registry
      reads this
    {
      Registry(shapes, index)
    }

    /** `ShapeRegistry::new`: no shapes, no names. */
    constructor()
      ensures State() == Registry([], map[])
    {
      shapes := [];
      index := map[];
    }

    method RegisterShape(name: string, points: seq<Vec2>, indices: seq<nat>) returns (id: nat)
      modifies this
      ensures (State(), id) == Register(old(State()), name, points, indices)
    {
      shapes := shapes + [Shape(name, points, indices)];
      id := (|shapes| - 1) % U32;
      index := index[name := id];
    }

    function GetId(name: string): Option<nat>
      reads this
    {
      LookUp(State(), name)
    }

    /** `get_shape`: an id past the end panics. */
    function GetShape(id: nat): Shape
      reads this
      requires id < |shapes|
    {
      shapes[id]
    }

    method RegisterBuiltinShapes()
      modifies this
      ensures State() == RegisterAll(old(State()), ShapePredefs)
    {
      for i := 0 to |ShapePredefs|
        invariant State() == RegisterAll(old(State()), ShapePredefs[..i])
      {
        assert ShapePredefs[..i + 1][..i] == ShapePredefs[..i];
        var p := ShapePredefs[i];
        var _ := RegisterShape(p.name, p.points, p.indices);
      }
      assert ShapePredefs[..|ShapePredefs|] == ShapePredefs;
    }
  }

  /** A registration appends exactly one shape, keeps every earlier shape at its position, and
      returns the previous number of shapes (below 2^32, where the cast is exact). The name now
      looks up that id, even if it was registered before; every other name looks up as before. */
  lemma RegisterEffect(r: Registry, name: string, points: seq<Vec2>, indices: seq<nat>, other: string)
    ensures var (r', id) := Register(r, name, points, indices);
      && |r'.shapes| == |r.shapes| + 1
      && r'.shapes[..|r.shapes|] == r.shapes
      && r'.shapes[|r.shapes|] == Shape(name, points, indices)
      && (|r.shapes| < U32 ==> id == |r.shapes|)
      && LookUp(r', name) == Some(id)
      && (other != name ==> LookUp(r', other) == LookUp(r, other))
  {
    var (r', id) := Register(r, name, points, indices);
    assert r'.shapes[..|r.shapes|] == r.shapes;
  }

  /** Below 2^32 shapes a registration keeps every name leading to a shape of that name, and the
      returned id fetches the shape just registered. */
  lemma RegisterKeepsConsistent(r: Registry, name: string, points: seq<Vec2>, indices: seq<nat>)
    requires Consistent(r) && |r.shapes| < U32
    ensures var (r', id) := Register(r, name, points, indices);
      Consistent(r') && id < |r'.shapes| && r'.shapes[id] == Shape(name, points, indices)
  {
    var (r', id) := Register(r, name, points, indices);
    forall n | n in r'.index
      ensures r'.index[n] < |r'.shapes| && r'.shapes[r'.index[n]].name == n
    {
      if n != name {
        assert r'.shapes[r.index[n]] == r.shapes[r.index[n]];
      }
    }
  }

  /** On a fresh registry the built-in shapes get ids 0, 1 and 2. */
  lemma BuiltinIds()
    ensures var r := RegisterAll(Registry([], map[]), ShapePredefs);
      && |r.shapes| == 3
      && LookUp(r, "Line") == Some(0)
      && LookUp(r, "Triangle") == Some(1)
      && LookUp(r, "Square") == Some(2)
      && r.shapes[0] == LinePredef && r.shapes[1] == TrianglePredef && r.shapes[2] == SquarePredef
      && Consistent(r)
  {
    var r0 := Registry([], map[]);
    var r1 := Register(r0, "Line", LinePredef.points, LinePredef.indices).0;
    var r2 := Register(r1, "Triangle", TrianglePredef.points, TrianglePredef.indices).0;
    var r3 := Register(r2, "Square", SquarePredef.points, SquarePredef.indices).0;
    assert [LinePredef][..0] == [];
    assert RegisterAll(r0, [LinePredef]) == r1;
    assert ShapePredefs[..2][..1] == [LinePredef];
    assert RegisterAll(r0, ShapePredefs[..2]) == r2;
    assert RegisterAll(r0, ShapePredefs) == r3;
    assert r1.shapes == [LinePredef] && r1.index == map["Line" := 0];
    assert r2.shapes == [LinePredef, TrianglePredef] && r2.index == map["Line" := 0, "Triangle" := 1];
    assert r3.shapes == ShapePredefs && r3.index == map["Line" := 0, "Triangle" := 1, "Square" := 2];
  }
}
