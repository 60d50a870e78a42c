/** The spatial hash grid of `src/collision.rs`: positions are snapped to grid cells, colliders look
    for overlapping `CollidesWith<T>` entities in their own cell and the eight around it. */
module Collision {
  import opened Common

  /** The collision channel: the zero-sized type parameter `T` of `Collider<T>`, `CollidesWith<T>`
      and `Colliding<T>`, carried here as ordinary data. */
  type Tag = string

  /** A hash-grid cell coordinate (`HashGridCoord`). */
  type Cell = (int, int)

  // ---------------------------------------------------------------------------------------------
  // Integer arithmetic as Rust performs it

  /** The `as i32` cast of a float: truncation toward zero. */
  function Trunc(r: real): (t: int)
    ensures r >= 0.0 ==> 0 <= t && t as real <= r < t as real + 1.0
    ensures r < 0.0 ==> t <= 0 && t as real - 1.0 < r <= t as real
  {
    if r >= 0.0 then r.Floor else -((-r).Floor)
  }

  /** Rust's `/` on integers, which truncates the quotient toward zero. */
  function RustDiv(a: int, b: int): int
    requires b != 0
  {
    var q := Abs(a) / Abs(b);
    if (a < 0) != (b < 0) then -q else q
  }

  /** Rust's `%` on integers: the remainder of `RustDiv`, which takes the sign of `a`. */
  function RustRem(a: int, b: int): int
    requires b != 0
  {
    a - b * RustDiv(a, b)
  }

  lemma MulBound(b: int, d: int)
    ensures d != 0 ==> Abs(b * d) >= Abs(b)
  {
    assert Abs(b * d) == Abs(b) * Abs(d);
    assert Abs(d) >= 1 ==> Abs(b) * Abs(d) >= Abs(b) * 1;
  }

  lemma MultipleMod(b: int, q: int)
    requires b != 0
    ensures (b * q) % b == 0
  {
    var n := b * q;
    var d := q - n / b;
    assert n == b * (n / b) + n % b;
    assert n % b == b * q - b * (n / b) == b * d;
    MulBound(b, d);
  }

  // ---------------------------------------------------------------------------------------------
  // Grid rounding

  /** `round_to_nearest`: truncate, add half a cell, drop the remainder, restore the sign of the
      float. The result is a multiple of `incr`; for a positive grid it is the multiple nearest to
      the truncated value, halves rounded away from zero. */
  function RoundToNearest(i: real, incr: int): (r: int)
    requires incr != 0
    ensures r % incr == 0
    ensures incr > 0 && i >= 0.0 ==> r - incr / 2 <= Trunc(i) < r + incr - incr / 2
    ensures incr > 0 && i < 0.0 ==> -r - incr / 2 <= -Trunc(i) < -r + incr - incr / 2
    ensures incr > 0 ==> (i >= 0.0 ==> r >= 0) && (i < 0.0 ==> r <= 0)
  {
    var start := Abs(Trunc(i)) + RustDiv(incr, 2);
    var res := start - RustRem(start, incr);
    RoundedIsMultiple(start, incr);
    RoundedBounds(Abs(Trunc(i)), incr);
    if i < 0.0 then -res else res
  }

  /** Dropping the remainder leaves a multiple of the divisor, whatever the signs. */
  lemma RoundedIsMultiple(start: int, incr: int)
    requires incr != 0
    ensures (start - RustRem(start, incr)) % incr == 0
    ensures -(start - RustRem(start, incr)) % incr == 0
  {
    var q := RustDiv(start, incr);
    assert start - RustRem(start, incr) == incr * q;
    MultipleMod(incr, q);
    MultipleMod(incr, -q);
    assert -(incr * q) == incr * -q;
  }

  /** On a positive grid, adding half a cell and dropping the remainder gives the multiple nearest
      to a non-negative value, halves rounded up. */
  lemma RoundedBounds(t: nat, incr: int)
    requires incr != 0
    ensures var res := t + RustDiv(incr, 2) - RustRem(t + RustDiv(incr, 2), incr);
      incr > 0 ==> res >= 0 && res % incr == 0 && res - incr / 2 <= t < res + incr - incr / 2
  {
    if incr < 0 {
      return;
    }
    var start := t + RustDiv(incr, 2);
    RoundedIsMultiple(start, incr);
    assert RustDiv(incr, 2) == incr / 2;
    assert RustDiv(start, incr) == start / incr;
    assert start == incr * (start / incr) + start % incr;
    assert RustRem(start, incr) == start % incr;
  }

  /** `round_to_nearest(-x, g) == -round_to_nearest(x, g)` for every grid size the division accepts. */
  lemma RoundOdd(x: real, g: int)
    requires g != 0
    ensures RoundToNearest(-x, g) == -RoundToNearest(x, g)
  {
    assert Trunc(-x) == -Trunc(x);
    if x == 0.0 {
      var h := RustDiv(g, 2);
      assert Abs(h) < Abs(g);
      assert RustDiv(h, g) == 0;
    }
  }

  /** The values the source's unit test expects from `round_to_nearest` on a grid of 100. */
  lemma RoundExamples()
    ensures RoundToNearest(250.0, 100) == 300
    ensures RoundToNearest(249.9, 100) == 200
    ensures RoundToNearest(-250.0, 100) == -300
    ensures RoundToNearest(-249.9, 100) == -200
  {
  }

  /** The difference of two multiples of `g` is a multiple of `g`. */
  lemma DiffMultiple(a: int, b: int, g: int)
    requires g != 0 && a % g == 0 && b % g == 0
    ensures (a - b) % g == 0
  {
    assert a == g * (a / g) && b == g * (b / g);
    assert a - b == g * (a / g - b / g);
    MultipleMod(g, a / g - b / g);
  }

  /** A multiple of `g` strictly between `-2g` and `2g` is one of `-g`, `0` and `g`. */
  lemma SmallMultiple(m: int, g: int)
    requires g > 0 && m % g == 0 && -2 * g < m < 2 * g
    ensures m == -g || m == 0 || m == g
  {
    var k := m / g;
    assert m == g * k;
    assert k >= 2 ==> g * k >= g * 2;
    assert k <= -2 ==> g * k <= g * -2;
    assert k == 1 ==> m == g;
    assert k == -1 ==> m == -g;
  }

  /** Two ordered points less than one grid size apart, the right one not negative, round to
      multiples at most one grid size apart. */
  lemma RoundOrderedAdjacent(x: real, y: real, g: int)
    requires g > 0 && x <= y && y - x < g as real && 0.0 <= y
    ensures -g <= RoundToNearest(y, g) - RoundToNearest(x, g) <= g
  {
    var rx, ry := RoundToNearest(x, g), RoundToNearest(y, g);
    var tx, ty := Trunc(x), Trunc(y);
    assert ty - tx <= g;
    if x >= 0.0 {
      assert ty - tx > ry - rx - g;
      assert ty >= tx;
      assert ry - rx > -g;
    } else {
      assert ty - tx >= ry - rx - g;
      assert ry - rx >= 0;
    }
    DiffMultiple(ry, rx, g);
    SmallMultiple(ry - rx, g);
  }

  /** Two ordered points less than one grid size apart round to multiples at most one grid size
      apart, whatever their signs. */
  lemma RoundOrderedNear(x: real, y: real, g: int)
    requires g > 0 && x <= y && y - x < g as real
    ensures -g <= RoundToNearest(y, g) - RoundToNearest(x, g) <= g
  {
    if 0.0 <= y {
      RoundOrderedAdjacent(x, y, g);
    } else {
      RoundOrderedAdjacent(-y, -x, g);
      RoundOdd(x, g);
      RoundOdd(y, g);
    }
  }

  /** Points less than one grid size apart land in the same or in adjacent cells along that axis. */
  lemma RoundAdjacent(x: real, y: real, g: int)
    requires g > 0 && RealAbs(x - y) < g as real
    ensures Abs(RoundToNearest(x, g) - RoundToNearest(y, g)) <= g
  {
    if x <= y {
      RoundOrderedNear(x, y, g);
    } else {
      RoundOrderedNear(y, x, g);
    }
  }

  /** `current_hash_grid`: each axis of a position is rounded on its own. */
  function CurrentHashGrid(p: Vec2, g: int): (c: Cell)
    requires g != 0
    ensures c.0 % g == 0 && c.1 % g == 0
  {
    (RoundToNearest(p.x, g), RoundToNearest(p.y, g))
  }

  /** The values the source's unit test expects from `current_hash_grid` on a grid of 100. */
  lemma HashGridExamples()
    ensures CurrentHashGrid(Vec2(250.0, 0.0), 100) == (300, 0)
    ensures CurrentHashGrid(Vec2(-250.0, 0.0), 100) == (-300, 0)
    ensures CurrentHashGrid(Vec2(0.0, 250.0), 100) == (0, 300)
    ensures CurrentHashGrid(Vec2(0.0, -250.0), 100) == (0, -300)
  {
    RoundExamples();
  }

  // ---------------------------------------------------------------------------------------------
  // Neighbourhood

  /** A cell offset by whole grid steps `dx` and `dy`. */
  function Shift(c: Cell, g: int, dx: int, dy: int): Cell
  {
    (c.0 + dx * g, c.1 + dy * g)
  }

  /** `HashMarker::get_with_neighbors`: the cell itself, then its eight neighbours in a fixed order.
      Every entry is a shift by at most one step per axis, and for a non-zero grid the nine are
      distinct. */
  function GetWithNeighbors(c: Cell, g: int): (r: seq<Cell>)
    ensures |r| == 9 && r[0] == c
    ensures forall i :: 0 <= i < 9 ==>
      exists dx, dy :: -1 <= dx <= 1 && -1 <= dy <= 1 && r[i] == Shift(c, g, dx, dy)
    ensures g != 0 ==> forall i, j :: 0 <= i < j < 9 ==> r[i] != r[j]
  {
    var r := [
      c,
      (c.0, c.1 + g),
      (c.0, c.1 - g),
      (c.0 + g, c.1),
      (c.0 - g, c.1),
      (c.0 + g, c.1 - g),
      (c.0 + g, c.1 + g),
      (c.0 - g, c.1 - g),
      (c.0 - g, c.1 + g)
    ];
    assert r[0] == Shift(c, g, 0, 0);
    assert r[1] == Shift(c, g, 0, 1);
    assert r[2] == Shift(c, g, 0, -1);
    assert r[3] == Shift(c, g, 1, 0);
    assert r[4] == Shift(c, g, -1, 0);
    assert r[5] == Shift(c, g, 1, -1);
    assert r[6] == Shift(c, g, 1, 1);
    assert r[7] == Shift(c, g, -1, -1);
    assert r[8] == Shift(c, g, -1, 1);
    r
  }

  /** Every one of the nine cells at offsets {-g, 0, g} on both axes is in the neighbourhood. */
  lemma NeighborhoodComplete(c: Cell, g: int, dx: int, dy: int)
    requires -1 <= dx <= 1 && -1 <= dy <= 1
    ensures Shift(c, g, dx, dy) in GetWithNeighbors(c, g)
  {
    var r := GetWithNeighbors(c, g);
    if dx == 0 && dy == 0 { assert r[0] == Shift(c, g, dx, dy); }
    else if dx == 0 && dy == 1 { assert r[1] == Shift(c, g, dx, dy); }
    else if dx == 0 && dy == -1 { assert r[2] == Shift(c, g, dx, dy); }
    else if dx == 1 && dy == 0 { assert r[3] == Shift(c, g, dx, dy); }
    else if dx == -1 && dy == 0 { assert r[4] == Shift(c, g, dx, dy); }
    else if dx == 1 && dy == -1 { assert r[5] == Shift(c, g, dx, dy); }
    else if dx == 1 && dy == 1 { assert r[6] == Shift(c, g, dx, dy); }
    else if dx == -1 && dy == -1 { assert r[7] == Shift(c, g, dx, dy); }
    else { assert r[8] == Shift(c, g, dx, dy); }
  }

  /** The order the source's unit test expects around cell (200, 0) on a grid of 100. */
  lemma NeighborsExample()
    ensures GetWithNeighbors((200, 0), 100) ==
      [(200, 0), (200, 100), (200, -100), (300, 0), (100, 0), (300, -100), (300, 100), (100, -100), (100, 100)]
  {
  }

  // ---------------------------------------------------------------------------------------------
  // Overlap test

  /** `overlapping`: the axis-aligned boxes `position ± scale / 2` of the two instances intersect
      with positive area; rotation is ignored. */
  predicate Overlapping(a: Instance, b: Instance)
  {
    var ax1 := a.position.x - a.scale.x / 2.0;
    var ax2 := a.position.x + a.scale.x / 2.0;
    var bx1 := b.position.x - b.scale.x / 2.0;
    var bx2 := b.position.x + b.scale.x / 2.0;
    var ay1 := a.position.y - a.scale.y / 2.0;
    var ay2 := a.position.y + a.scale.y / 2.0;
    var by1 := b.position.y - b.scale.y / 2.0;
    var by2 := b.position.y + b.scale.y / 2.0;
    ax1 < bx2 && ax2 > bx1 && ay2 > by1 && ay1 < by2
  }

  /** The box test is symmetric, and equivalent to both centre distances being less than the mean
      of the two extents on that axis. */
  lemma OverlapSymmetric(a: Instance, b: Instance)
    ensures Overlapping(a, b) == Overlapping(b, a)
    ensures Overlapping(a, b) <==>
      && RealAbs(a.position.x - b.position.x) < (a.scale.x + b.scale.x) / 2.0
      && RealAbs(a.position.y - b.position.y) < (a.scale.y + b.scale.y) / 2.0
  {
  }

  /** Boxes that only touch along an edge do not overlap: the comparisons are strict. */
  lemma TouchingDoesNotOverlap(a: Instance, b: Instance)
    requires a.position.x + a.scale.x / 2.0 == b.position.x - b.scale.x / 2.0
    ensures !Overlapping(a, b) && !Overlapping(b, a)
  {
  }

  /** The instances of the source's unit test for `overlapping`. */
  lemma OverlapExamples()
    ensures
      var a := Instance(Vec2(-249.5, 500.0), 0.0, Vec2(35.0, 35.0), Vec4(0.0, 0.0, 0.0, 0.0), 0);
      var b := Instance(Vec2(-250.0, 500.0), 0.0, Vec2(50.0, 50.0), Vec4(0.0, 0.0, 0.0, 0.0), 0);
      var c := Instance(Vec2(-200.0, 500.0), 0.0, Vec2(10.0, 10.0), Vec4(0.0, 0.0, 0.0, 0.0), 0);
      Overlapping(a, b) && !Overlapping(a, c)
  {
  }

  /** Along one axis, points less than a grid size apart are zero or one grid step apart. */
  lemma AxisStep(u: real, v: real, g: int) returns (d: int)
    requires g > 0 && RealAbs(u - v) < g as real
    ensures -1 <= d <= 1 && RoundToNearest(v, g) == RoundToNearest(u, g) + d * g
  {
    assert RealAbs(v - u) < g as real;
    RoundAdjacent(v, u, g);
    var ru, rv := RoundToNearest(u, g), RoundToNearest(v, g);
    DiffMultiple(rv, ru, g);
    SmallMultiple(rv - ru, g);
    if rv - ru == g {
      d := 1;
    } else if rv - ru == -g {
      d := -1;
    } else {
      d := 0;
    }
    assert d * g == rv - ru;
  }

  /** The grid's design assumption: when neither box is wider or taller than the grid size, two
      overlapping instances sit in the same cell or in one of the eight around it, so looking in the
      neighbourhood finds every overlap. */
  lemma OverlapWithinNeighborhood(a: Instance, b: Instance, g: int)
    requires g > 0
    requires 0.0 <= a.scale.x <= g as real && 0.0 <= a.scale.y <= g as real
    requires 0.0 <= b.scale.x <= g as real && 0.0 <= b.scale.y <= g as real
    requires Overlapping(a, b)
    ensures CurrentHashGrid(b.position, g) in GetWithNeighbors(CurrentHashGrid(a.position, g), g)
  {
    OverlapSymmetric(a, b);
    assert RealAbs(a.position.x - b.position.x) < g as real;
    assert RealAbs(a.position.y - b.position.y) < g as real;
    var dx := AxisStep(a.position.x, b.position.x, g);
    var dy := AxisStep(a.position.y, b.position.y, g);
    var ca := CurrentHashGrid(a.position, g);
    assert CurrentHashGrid(b.position, g) == Shift(ca, g, dx, dy);
    NeighborhoodComplete(ca, g, dx, dy);
  }

  // ---------------------------------------------------------------------------------------------
  // Entities and hash markers

  /** The components of one entity that the collision systems read or write. */
  datatype Entity = Entity(
    inst: Instance,                 // `Instance2D`
    collidable: bool,               // carries `Collidable`
    marker: Option<Cell>,           // `HashMarker`
    colliders: set<Tag>,            // the channels of its `Collider<T>` components
    collidesWith: set<Tag>,         // the channels of its `CollidesWith<T>` components
    colliding: map<Tag, seq<Id>>)   // its `Colliding<T>` components, by channel

  /** The entities of the ECS store. */
  type World = map<Id, Entity>

  /** What `update_hash_marker` does to one entity: a `Collidable` entity that already has a marker
      and whose position was changed or added gets its marker recomputed; nothing else changes. */
  function UpdatedMarker(e: Entity, changed: bool, g: int): (r: Entity)
    requires g != 0
    ensures r.(marker := e.marker) == e
    ensures r.marker != e.marker ==> e.collidable && e.marker.Some? && changed
    ensures e.collidable && e.marker.Some? && changed ==> r.marker == Some(CurrentHashGrid(e.inst.position, g))
  {
    if e.collidable && e.marker.Some? && changed then
      e.(marker := Some(CurrentHashGrid(e.inst.position, g)))
    else
      e
  }

  /** What `insert_hash_marker` does to one entity: a `Collidable` entity without a marker gets
      one for its current position; nothing else changes. */
  function InsertedMarker(e: Entity, g: int): (r: Entity)
    requires g != 0
    ensures r.(marker := e.marker) == e
    ensures r.marker != e.marker <==> e.collidable && e.marker.None?
    ensures e.collidable && e.marker.None? ==> r.marker == Some(CurrentHashGrid(e.inst.position, g))
  {
    if e.collidable && e.marker.None? then
      e.(marker := Some(CurrentHashGrid(e.inst.position, g)))
    else
      e
  }

  /** `update_hash_marker` over the store. `changed` holds the entities whose `Instance2D` was
      changed or added since the system last ran. */
  method UpdateHashMarkers(w: World, order: seq<Id>, changed: set<Id>, g: int) returns (w': World)
    requires g != 0 && Enumerates(order, w.Keys)
    ensures w'.Keys == w.Keys
    ensures forall id :: id in w ==> w'[id] == UpdatedMarker(w[id], id in changed, g)
  {
    w' := w;
    for i := 0 to |order|
      invariant w'.Keys == w.Keys
      invariant forall id :: id in w ==>
        w'[id] == if id in order[..i] then UpdatedMarker(w[id], id in changed, g) else w[id]
    {
      var id := order[i];
      assert id !in order[..i];
      var e := w'[id];
      if e.collidable && e.marker.Some? && id in changed {
        w' := w'[id := e.(marker := Some(CurrentHashGrid(e.inst.position, g)))];
      }
    }
    assert order[..|order|] == order;
  }

  /** `insert_hash_marker` over the store, its commands applied as they are issued. */
  method InsertHashMarkers(w: World, order: seq<Id>, g: int) returns (w': World)
    requires g != 0 && Enumerates(order, w.Keys)
    ensures w'.Keys == w.Keys
    ensures forall id :: id in w ==> w'[id] == InsertedMarker(w[id], g)
  {
    w' := w;
    for i := 0 to |order|
      invariant w'.Keys == w.Keys
      invariant forall id :: id in w ==>
        w'[id] == if id in order[..i] then InsertedMarker(w[id], g) else w[id]
    {
      var id := order[i];
      assert id !in order[..i];
      var e := w'[id];
      if e.collidable && e.marker.None? {
        w' := w'[id := e.(marker := Some(CurrentHashGrid(e.inst.position, g)))];
      }
    }
    assert order[..|order|] == order;
  }

  /** The two marker systems touch disjoint sets of entities, so applying the inserts before or
      after the updates gives the same store: as far as `update_hash_marker` is concerned, modelling
      the deferred inserts as immediate is sound.
      After both, every `Collidable` entity has a marker, and one that was changed or had none
      holds the cell of its current position; other entities are untouched. */
  lemma MarkerSystemsCommute(e: Entity, changed: bool, g: int)
    requires g != 0
    ensures InsertedMarker(UpdatedMarker(e, changed, g), g) == UpdatedMarker(InsertedMarker(e, g), changed, g)
    ensures var r := InsertedMarker(UpdatedMarker(e, changed, g), g);
      && (e.collidable ==> r.marker.Some?)
      && (e.collidable && (changed || e.marker.None?) ==> r.marker == Some(CurrentHashGrid(e.inst.position, g)))
      && (!e.collidable ==> r == e)
  {
  }

  // ---------------------------------------------------------------------------------------------
  // Buckets

  /** One row of the `CollidesWith<T>` query: the entity, its instance and its marker cell. */
  datatype Candidate = Candidate(id: Id, inst: Instance, cell: Cell)

  /** One bucket entry: the entity and the snapshot of its instance. */
  datatype Entry = Entry(id: Id, inst: Instance)

  /** The rows of `collide_with_query` in iteration order: the entities carrying
      `CollidesWith<tag>` and a `HashMarker`. */
  function CollidesWithQuery(w: World, order: seq<Id>, tag: Tag): (q: seq<Candidate>)
    ensures |q| <= |order|
  {
    if order == [] then []
    else
      var id := order[|order| - 1];
      CollidesWithQuery(w, order[..|order| - 1], tag)
        + if id in w && tag in w[id].collidesWith && w[id].marker.Some?
          then [Candidate(id, w[id].inst, w[id].marker.value)]
          else []
  }

  /** A row is in the query iff its entity is visited, carries `CollidesWith<tag>`, and the row
      holds that entity's instance and marker. */
  lemma {:induction false} QueryMembership(w: World, order: seq<Id>, tag: Tag, c: Candidate)
    ensures c in CollidesWithQuery(w, order, tag) <==>
      c.id in order && c.id in w && tag in w[c.id].collidesWith
      && w[c.id].marker == Some(c.cell) && w[c.id].inst == c.inst
  {
    if order != [] {
      QueryMembership(w, order[..|order| - 1], tag, c);
      assert order == order[..|order| - 1] + [order[|order| - 1]];
    }
  }

  /** The entries of the bucket for cell `c`: the rows whose cell is `c`, in query order. */
  function Bucket(q: seq<Candidate>, c: Cell): (b: seq<Entry>)
    ensures |b| <= |q|
  {
    if q == [] then []
    else
      var last := q[|q| - 1];
      Bucket(q[..|q| - 1], c) + if last.cell == c then [Entry(last.id, last.inst)] else []
  }

  /** The cells some row of the query sits in. */
  ghost function CellsOf(q: seq<Candidate>): set<Cell>
  {
    set k | 0 <= k < |q| :: q[k].cell
  }

  /** The map `collisions` builds: one bucket per occupied cell. */
  ghost function BucketMap(q: seq<Candidate>): map<Cell, seq<Entry>>
  {
    map c | c in CellsOf(q) :: Bucket(q, c)
  }

  /** An entry is in the bucket of `c` iff a row with that entity, instance and cell is in the
      query: every row lands in exactly the bucket of its own cell. */
  lemma {:induction false} BucketMembership(q: seq<Candidate>, c: Cell, e: Entry)
    ensures e in Bucket(q, c) <==> Candidate(e.id, e.inst, c) in q
  {
    if q != [] {
      BucketMembership(q[..|q| - 1], c, e);
      assert q == q[..|q| - 1] + [q[|q| - 1]];
    }
  }

  /** The bucket of a cell is empty iff no row sits in that cell. */
  lemma {:induction false} BucketEmpty(q: seq<Candidate>, c: Cell)
    ensures Bucket(q, c) == [] <==> c !in CellsOf(q)
  {
    if q != [] {
      var init := q[..|q| - 1];
      BucketEmpty(init, c);
      assert CellsOf(q) == CellsOf(init) + {q[|q| - 1].cell} by {
        forall x | x in CellsOf(q) ensures x in CellsOf(init) + {q[|q| - 1].cell} {
          var k :| 0 <= k < |q| && q[k].cell == x;
          if k < |q| - 1 { assert init[k] == q[k]; }
        }
        forall x | x in CellsOf(init) ensures x in CellsOf(q) {
          var k :| 0 <= k < |init| && init[k].cell == x;
          assert q[k] == init[k];
        }
      }
    }
  }

  /** The first loop of `collisions`: group the rows of the `CollidesWith<T>` query by cell,
      appending to a cell's list or creating it. */
  method BuildBuckets(q: seq<Candidate>) returns (m: map<Cell, seq<Entry>>)
    ensures m == BucketMap(q)
    ensures forall c :: c in m ==> m[c] != []
  {
    m := map[];
    for i := 0 to |q|
      invariant forall c :: c in m <==> c in CellsOf(q[..i])
      invariant forall c :: c in m ==> m[c] == Bucket(q[..i], c)
    {
      var row := q[i];
      assert q[..i + 1][..i] == q[..i];
      assert CellsOf(q[..i + 1]) == CellsOf(q[..i]) + {row.cell} by {
        BucketEmpty(q[..i + 1], row.cell);
        forall x | x in CellsOf(q[..i + 1]) ensures x in CellsOf(q[..i]) + {row.cell} {
          var k :| 0 <= k < i + 1 && q[..i + 1][k].cell == x;
          if k < i { assert q[..i][k] == q[..i + 1][k]; }
        }
        forall x | x in CellsOf(q[..i]) ensures x in CellsOf(q[..i + 1]) {
          var k :| 0 <= k < i && q[..i][k].cell == x;
          assert q[..i + 1][k] == q[..i][k];
        }
      }
      if row.cell in m {
        m := m[row.cell := m[row.cell] + [Entry(row.id, row.inst)]];
      } else {
        BucketEmpty(q[..i], row.cell);
        m := m[row.cell := [Entry(row.id, row.inst)]];
      }
    }
    assert q[..|q|] == q;
    forall c | c in m ensures m[c] != [] {
      BucketEmpty(q, c);
    }
  }

  // ---------------------------------------------------------------------------------------------
  // Collider pass

  /** The entities of one bucket whose instance overlaps `inst`, in bucket order. */
  function Hits(bucket: seq<Entry>, inst: Instance): (r: seq<Id>)
    ensures |r| <= |bucket|
  {
    if bucket == [] then []
    else
      var last := bucket[|bucket| - 1];
      Hits(bucket[..|bucket| - 1], inst) + if Overlapping(inst, last.inst) then [last.id] else []
  }

  /** The hits of the buckets of `cells`, concatenated in the order of `cells`. */
  function NeighborHits(m: map<Cell, seq<Entry>>, inst: Instance, cells: seq<Cell>): seq<Id>
  {
    if cells == [] then []
    else
      var c := cells[|cells| - 1];
      NeighborHits(m, inst, cells[..|cells| - 1]) + if c in m then Hits(m[c], inst) else []
  }

  lemma {:induction false} HitsMembership(bucket: seq<Entry>, inst: Instance, x: Id)
    ensures x in Hits(bucket, inst) <==>
      exists k :: 0 <= k < |bucket| && bucket[k].id == x && Overlapping(inst, bucket[k].inst)
  {
    if bucket != [] {
      var init := bucket[..|bucket| - 1];
      HitsMembership(init, inst, x);
      if exists k :: 0 <= k < |bucket| && bucket[k].id == x && Overlapping(inst, bucket[k].inst) {
        var k :| 0 <= k < |bucket| && bucket[k].id == x && Overlapping(inst, bucket[k].inst);
        if k < |init| { assert init[k] == bucket[k]; }
      }
      if exists k :: 0 <= k < |init| && init[k].id == x && Overlapping(inst, init[k].inst) {
        var k :| 0 <= k < |init| && init[k].id == x && Overlapping(inst, init[k].inst);
        assert bucket[k] == init[k];
      }
    }
  }

  lemma {:induction false} NeighborHitsMembership(m: map<Cell, seq<Entry>>, inst: Instance, cells: seq<Cell>, x: Id)
    ensures x in NeighborHits(m, inst, cells) <==>
      exists j :: 0 <= j < |cells| && cells[j] in m && x in Hits(m[cells[j]], inst)
  {
    if cells != [] {
      var init := cells[..|cells| - 1];
      NeighborHitsMembership(m, inst, init, x);
      if exists j :: 0 <= j < |cells| && cells[j] in m && x in Hits(m[cells[j]], inst) {
        var j :| 0 <= j < |cells| && cells[j] in m && x in Hits(m[cells[j]], inst);
        if j < |init| { assert init[j] == cells[j]; }
      }
      if exists j :: 0 <= j < |init| && init[j] in m && x in Hits(m[init[j]], inst) {
        var j :| 0 <= j < |init| && init[j] in m && x in Hits(m[init[j]], inst);
        assert cells[j] == init[j];
      }
    }
  }

  /** The inner loop of `collisions` for one collider: visit the nine cells around its marker in
      `get_with_neighbors` order and extend the list with the overlapping entries of each bucket. */
  method CollisionsFor(m: map<Cell, seq<Entry>>, inst: Instance, cell: Cell, g: int) returns (hits: seq<Id>)
    ensures hits == NeighborHits(m, inst, GetWithNeighbors(cell, g))
  {
    var cells := GetWithNeighbors(cell, g);
    hits := [];
    for j := 0 to |cells|
      invariant hits == NeighborHits(m, inst, cells[..j])
    {
      assert cells[..j + 1][..j] == cells[..j];
      var marker := cells[j];
      if marker in m {
        hits := hits + Hits(m[marker], inst);
      }
    }
    assert cells[..|cells|] == cells;
  }

  /** What `collisions` does to one entity: a `Collider<tag>` with a marker gets `Colliding<tag>`
      holding its hits, or loses it when there are none; nothing else changes. */
  function CollideEntity(e: Entity, m: map<Cell, seq<Entry>>, tag: Tag, g: int): (r: Entity)
    ensures r.(colliding := e.colliding) == e
    ensures forall t :: t != tag ==> (t in r.colliding <==> t in e.colliding)
    ensures forall t :: t != tag && t in e.colliding ==> r.colliding[t] == e.colliding[t]
    ensures tag in e.colliders && e.marker.Some? && tag in r.colliding ==> r.colliding[tag] != []
    ensures !(tag in e.colliders && e.marker.Some?) ==> r == e
  {
    if tag in e.colliders && e.marker.Some? then
      var hits := NeighborHits(m, e.inst, GetWithNeighbors(e.marker.value, g));
      if hits == [] then e.(colliding := e.colliding - {tag})
      else e.(colliding := e.colliding[tag := hits])
    else
      e
  }

  /** `collisions<T>` for channel `tag`: build the buckets from the `CollidesWith<tag>` query,
      then give every `Collider<tag>` its list. The commands only touch `Colliding<tag>`, which
      neither query reads, so applying them at once leaves both queries as they were. */
  method Collisions(w: World, order: seq<Id>, tag: Tag, g: int) returns (w': World)
    requires Enumerates(order, w.Keys)
    ensures w'.Keys == w.Keys
    ensures forall id :: id in w ==>
      w'[id] == CollideEntity(w[id], BucketMap(CollidesWithQuery(w, order, tag)), tag, g)
  {
    var m := BuildBuckets(CollidesWithQuery(w, order, tag));
    w' := w;
    for i := 0 to |order|
      invariant w'.Keys == w.Keys
      invariant forall id :: id in w ==>
        w'[id] == if id in order[..i] then CollideEntity(w[id], m, tag, g) else w[id]
    {
      var id := order[i];
      assert id !in order[..i];
      var e := w'[id];
      if tag in e.colliders && e.marker.Some? {
        var hits := CollisionsFor(m, e.inst, e.marker.value, g);
        if hits == [] {
          w' := w'[id := e.(colliding := e.colliding - {tag})];
        } else {
          w' := w'[id := e.(colliding := e.colliding[tag := hits])];
        }
      }
    }
    assert order[..|order|] == order;
  }

  /** `x` is a partner of collider `e` on channel `tag`: it carries `CollidesWith<tag>`, its marker
      is one of the nine cells around the collider's, and the two instances overlap. */
  ghost predicate Partner(w: World, tag: Tag, g: int, e: Entity, x: Id)
    requires e.marker.Some?
  {
    && x in w
    && tag in w[x].collidesWith
    && w[x].marker.Some?
    && w[x].marker.value in GetWithNeighbors(e.marker.value, g)
    && Overlapping(e.inst, w[x].inst)
  }

  /** The entities found in the nine cells around a collider. */
  ghost function Found(w: World, order: seq<Id>, tag: Tag, g: int, e: Entity): seq<Id>
    requires e.marker.Some?
  {
    NeighborHits(BucketMap(CollidesWithQuery(w, order, tag)), e.inst, GetWithNeighbors(e.marker.value, g))
  }

  lemma FoundIsPartner(w: World, order: seq<Id>, tag: Tag, g: int, e: Entity, y: Id)
    requires Enumerates(order, w.Keys) && e.marker.Some?
    requires y in Found(w, order, tag, g, e)
    ensures Partner(w, tag, g, e, y)
  {
    var q := CollidesWithQuery(w, order, tag);
    var m := BucketMap(q);
    var cells := GetWithNeighbors(e.marker.value, g);
    NeighborHitsMembership(m, e.inst, cells, y);
    var j :| 0 <= j < |cells| && cells[j] in m && y in Hits(m[cells[j]], e.inst);
    HitsMembership(m[cells[j]], e.inst, y);
    var k :| 0 <= k < |m[cells[j]]| && m[cells[j]][k].id == y && Overlapping(e.inst, m[cells[j]][k].inst);
    var entry := m[cells[j]][k];
    BucketMembership(q, cells[j], entry);
    QueryMembership(w, order, tag, Candidate(y, entry.inst, cells[j]));
  }

  lemma PartnerIsFound(w: World, order: seq<Id>, tag: Tag, g: int, e: Entity, y: Id)
    requires Enumerates(order, w.Keys) && e.marker.Some?
    requires Partner(w, tag, g, e, y)
    ensures y in Found(w, order, tag, g, e)
  {
    var q := CollidesWithQuery(w, order, tag);
    var m := BucketMap(q);
    var cells := GetWithNeighbors(e.marker.value, g);
    var c := w[y].marker.value;
    var j :| 0 <= j < |cells| && cells[j] == c;
    var entry := Entry(y, w[y].inst);
    QueryMembership(w, order, tag, Candidate(y, entry.inst, c));
    BucketMembership(q, c, entry);
    BucketEmpty(q, c);
    assert c in m;
    var k :| 0 <= k < |m[c]| && m[c][k] == entry;
    HitsMembership(m[c], e.inst, y);
    NeighborHitsMembership(m, e.inst, cells, y);
  }

  /** The exact content of a collider's `Colliding<tag>` after `collisions<tag>`: an entity is
      listed iff it is a partner, and the component is present iff some partner exists. Entities of
      other channels are never listed (channels are independent). */
  lemma CollidingCharacterisation(w: World, order: seq<Id>, tag: Tag, g: int, id: Id, x: Id)
    requires Enumerates(order, w.Keys)
    requires id in w && tag in w[id].colliders && w[id].marker.Some?
    ensures var r := CollideEntity(w[id], BucketMap(CollidesWithQuery(w, order, tag)), tag, g);
      && (tag in r.colliding <==> exists y :: Partner(w, tag, g, w[id], y))
      && (tag in r.colliding ==> (x in r.colliding[tag] <==> Partner(w, tag, g, w[id], x)))
  {
    var e := w[id];
    var hits := Found(w, order, tag, g, e);
    forall y ensures y in hits <==> Partner(w, tag, g, e, y) {
      if y in hits {
        FoundIsPartner(w, order, tag, g, e, y);
      }
      if Partner(w, tag, g, e, y) {
        PartnerIsFound(w, order, tag, g, e, y);
      }
    }
    if hits != [] {
      assert hits[0] in hits;
    }
  }

  /** `insert_hash_marker` issues its inserts as commands, which take effect only after
      `collisions<tag>` has run in the same frame. On the store as `collisions<tag>` sees it, an
      entity still without a marker is found by no collider, and a collider without one is left
      as it was: a newly `Collidable` entity takes part in collisions from the next frame on. */
  lemma UnmarkedNotCollided(w: World, order: seq<Id>, tag: Tag, g: int, id: Id, x: Id)
    requires Enumerates(order, w.Keys)
    requires id in w && x in w && w[x].marker.None?
    ensures var r := CollideEntity(w[id], BucketMap(CollidesWithQuery(w, order, tag)), tag, g);
      && (w[id].marker.None? ==> r == w[id])
      && (tag in w[id].colliders && w[id].marker.Some? && tag in r.colliding ==> x !in r.colliding[tag])
      && (tag in w[id].colliders && w[id].marker.Some? ==> x !in Found(w, order, tag, g, w[id]))
  {
    if tag in w[id].colliders && w[id].marker.Some? && x in Found(w, order, tag, g, w[id]) {
      FoundIsPartner(w, order, tag, g, w[id], x);
    }
  }

  /** Under the grid's design assumption (no box larger than a cell) and with markers that hold the
      cells of the current positions, `collisions<tag>` lists every overlapping `CollidesWith<tag>`
      entity of a collider. */
  lemma OverlapIsDetected(w: World, order: seq<Id>, tag: Tag, g: int, id: Id, x: Id)
    requires g > 0 && Enumerates(order, w.Keys)
    requires id in w && tag in w[id].colliders && w[id].marker == Some(CurrentHashGrid(w[id].inst.position, g))
    requires x in w && tag in w[x].collidesWith && w[x].marker == Some(CurrentHashGrid(w[x].inst.position, g))
    requires 0.0 <= w[id].inst.scale.x <= g as real && 0.0 <= w[id].inst.scale.y <= g as real
    requires 0.0 <= w[x].inst.scale.x <= g as real && 0.0 <= w[x].inst.scale.y <= g as real
    requires Overlapping(w[id].inst, w[x].inst)
    ensures var r := CollideEntity(w[id], BucketMap(CollidesWithQuery(w, order, tag)), tag, g);
      tag in r.colliding && x in r.colliding[tag]
  {
    OverlapWithinNeighborhood(w[id].inst, w[x].inst, g);
    assert Partner(w, tag, g, w[id], x);
    CollidingCharacterisation(w, order, tag, g, id, x);
  }
}
