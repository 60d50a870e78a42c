/** The object registry: game objects with sequential ids, each holding components that expose
    renderable instances, and the collection of every renderable sorted by shape for drawing. */
module ObjectRegistry {
  import opened Common

  /** A component, seen through `get_renderables`; its own per-frame `update` is not part of this
      model. */
  datatype Component = Component(renderables: seq<Instance>)

  /** The renderables of the components, in component order. */
  function Flatten(cs: seq<Component>): seq<Instance>
  {
    if cs == [] then [] else Flatten(cs[..|cs| - 1]) + cs[|cs| - 1].renderables
  }

  class GameObject {
    var id: nat
    var components: seq<Component>

    constructor(id: nat)
      ensures this.id == id && components == []
    {
      this.id := id;
      components := [];
    }

    /** `add_component`: the component goes last. */
    method AddComponent(c: Component)
      modifies this
      ensures components == old(components) + [c] && id == old(id)
    {
      components := components + [c];
    }

    /** `get_all_renderables`. */
    function AllRenderables(): seq<Instance>
      reads this
    {
      Flatten(components)
    }
  }

  /** The renderables of the objects, in object order. */
  ghost function Gathered(objs: seq<GameObject>): seq<Instance>
    reads objs
  {
    if objs == [] then [] else Gathered(objs[..|objs| - 1]) + objs[|objs| - 1].AllRenderables()
  }

  // ---------------------------------------------------------------------------------------------
  // The sort of `collect_renderables`: stable, by shape

  predicate SortedByShape(s: seq<Instance>)
  {
    forall i, j :: 0 <= i < j < |s| ==> s[i].shape <= s[j].shape
  }

  /** The elements of `s` with shape `k`, in order. */
  function WithShape(s: seq<Instance>, k: nat): seq<Instance>
  {
    if s == [] then []
    else WithShape(s[..|s| - 1], k) + (if s[|s| - 1].shape == k then [s[|s| - 1]] else [])
  }

  /** `x` placed into a sorted sequence after every element whose shape is not greater. */
  function Insert(s: seq<Instance>, x: Instance): seq<Instance>
  {
    if s == [] || s[|s| - 1].shape <= x.shape then s + [x]
    else Insert(s[..|s| - 1], x) + [s[|s| - 1]]
  }

  /** A stable sort by shape: the reference definition of `sort_by` comparing shapes. */
  function SortByShape(s: seq<Instance>): seq<Instance>
  {
    if s == [] then [] else Insert(SortByShape(s[..|s| - 1]), s[|s| - 1])
  }

  lemma {:induction false} WithShapeAppend(a: seq<Instance>, b: seq<Instance>, k: nat)
    ensures WithShape(a + b, k) == WithShape(a, k) + WithShape(b, k)
  {
    if b == [] {
      assert a + b == a;
    } else {
      var b' := b[..|b| - 1];
      assert (a + b)[..|a + b| - 1] == a + b';
      WithShapeAppend(a, b', k);
    }
  }

  lemma {:induction false} InsertPermutes(s: seq<Instance>, x: Instance)
    ensures multiset(Insert(s, x)) == multiset(s) + multiset{x}
  {
    if !(s == [] || s[|s| - 1].shape <= x.shape) {
      var p := s[..|s| - 1];
      assert s == p + [s[|s| - 1]];
      InsertPermutes(p, x);
    }
  }

  lemma {:induction false} InsertSorted(s: seq<Instance>, x: Instance)
    requires SortedByShape(s)
    ensures SortedByShape(Insert(s, x))
  {
    if !(s == [] || s[|s| - 1].shape <= x.shape) {
      var p := s[..|s| - 1];
      var last := s[|s| - 1];
      InsertSorted(p, x);
      InsertPermutes(p, x);
      var ip := Insert(p, x);
      forall i | 0 <= i < |ip|
        ensures ip[i].shape <= last.shape
      {
        assert ip[i] in multiset(ip);
        if ip[i] != x {
          assert ip[i] in multiset(p);
          var j :| 0 <= j < |p| && p[j] == ip[i];
          assert s[j] == p[j];
        }
      }
    }
  }

  lemma {:induction false} InsertKeepsShapeOrder(s: seq<Instance>, x: Instance, k: nat)
    ensures WithShape(Insert(s, x), k) == WithShape(s, k) + WithShape([x], k)
  {
    if s == [] || s[|s| - 1].shape <= x.shape {
      WithShapeAppend(s, [x], k);
    } else {
      var p := s[..|s| - 1];
      var last := s[|s| - 1];
      assert s == p + [last];
      InsertKeepsShapeOrder(p, x, k);
      WithShapeAppend(Insert(p, x), [last], k);
      WithShapeAppend(p, [last], k);
      assert [x][..0] == [] && [last][..0] == [];
    }
  }

  /** The sort yields a sorted permutation that keeps the relative order of instances of equal
      shape. */
  lemma {:induction false} SortByShapeCorrect(s: seq<Instance>, k: nat)
    ensures SortedByShape(SortByShape(s))
    ensures multiset(SortByShape(s)) == multiset(s)
    ensures WithShape(SortByShape(s), k) == WithShape(s, k)
  {
    if s != [] {
      var p := s[..|s| - 1];
      var x := s[|s| - 1];
      assert s == p + [x];
      SortByShapeCorrect(p, k);
      InsertPermutes(SortByShape(p), x);
      InsertSorted(SortByShape(p), x);
      InsertKeepsShapeOrder(SortByShape(p), x, k);
      WithShapeAppend(p, [x], k);
    }
  }

  class ObjectRegistry {
    var objects: seq<GameObject>

    /** Every object's id is its position, cast to `u32`. */
    ghost predicate Valid()
      reads this, objects
    {
      forall i :: 0 <= i < |objects| ==> objects[i].id == i % U32
    }

    /** `ObjectRegistry::new`: no objects. */
    constructor()
      ensures objects == [] && Valid()
    {
      objects := [];
    }

    /** `spawn_object`: a new object with no components, whose id is the number of objects before
        it, goes last and is handed back. */
    method SpawnObject() returns (o: GameObject)
      requires Valid()
      modifies this
      ensures fresh(o) && objects == old(objects) + [o]
      ensures o.id == |old(objects)| % U32 && o.components == []
      ensures Valid()
    {
      o := new GameObject(|objects| % U32);
      objects := objects + [o];
    }

    /** `collect_renderables`: every renderable of every object, sorted by shape. */
    method CollectRenderables() returns (insts: seq<Instance>)
      ensures insts == SortByShape(Gathered(objects))
    {
      insts := [];
      for i := 0 to |objects|
        invariant insts == Gathered(objects[..i])
      {
        assert objects[..i + 1][..i] == objects[..i];
        insts := insts + objects[i].AllRenderables();
      }
      assert objects[..|objects|] == objects;
      insts := SortByShape(insts);
    }
  }

  /** Below 2^32 objects ids are unique: distinct positions carry distinct ids. */
  lemma IdsUnique(reg: ObjectRegistry, i: nat, j: nat)
    requires reg.Valid() && |reg.objects| <= U32
    requires i < j < |reg.objects|
    ensures reg.objects[i].id != reg.objects[j].id
    ensures reg.objects[i] != reg.objects[j]
  {
  }

  /** Adding a component appends its renderables to the object's. */
  lemma {:induction false} FlattenAppend(cs: seq<Component>, c: Component)
    ensures Flatten(cs + [c]) == Flatten(cs) + c.renderables
  {
    assert (cs + [c])[..|cs + [c]| - 1] == cs;
  }

  /** The renderables gathered from the objects are those of each component of each object, in
      order; concatenating lists of objects concatenates their renderables. */
  lemma {:induction false} GatheredAppend(a: seq<GameObject>, b: seq<GameObject>)
    ensures Gathered(a + b) == Gathered(a) + Gathered(b)
  {
    if b == [] {
      assert a + b == a;
    } else {
      var b' := b[..|b| - 1];
      assert (a + b)[..|a + b| - 1] == a + b';
      GatheredAppend(a, b');
    }
  }

  /** What `collect_renderables` promises: sorted by shape, every renderable kept once, and
      instances of one shape in object and component order. */
  lemma CollectedSortedStable(objs: seq<GameObject>, k: nat)
    ensures SortedByShape(SortByShape(Gathered(objs)))
    ensures multiset(SortByShape(Gathered(objs))) == multiset(Gathered(objs))
    ensures WithShape(SortByShape(Gathered(objs)), k) == WithShape(Gathered(objs), k)
  {
    SortByShapeCorrect(Gathered(objs), k);
  }
}
