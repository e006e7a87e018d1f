/** The scene objects the editor extension selects, hides, restores and
    creates. Components that the extension never adds to or removes from an
    existing object (its mesh filter and mesh renderer) are fixed at creation. */
module Scene {
  import opened Engine
  import opened Vertex

  class GameObject {
    const name: string
    const transform: Transform
    /** `GetComponent<MeshFilter>()` */
    const filter: MeshFilter?
    /** `GetComponent<MeshRenderer>()` */
    const renderer: MeshRenderer?
    /** `GetComponent<VertexObj>()` */
    var vertex: VertexObj?
    var active: bool
    /** `DestroyImmediate` has run; the engine then compares the object equal to null. */
    var destroyed: bool
    var colliders: seq<Collider>

    /** `new GameObject(name)`, with the mesh components it is given at creation. */
    constructor (name: string, filter: MeshFilter?, renderer: MeshRenderer?)
      ensures this.name == name && this.filter == filter && this.renderer == renderer
      ensures fresh(transform) && transform.position == Zero && transform.parent == null
      ensures vertex == null && active && !destroyed && colliders == []
    {
      this.name := name;
      this.filter := filter;
      this.renderer := renderer;
      transform := new Transform();
      vertex := null;
      active := true;
      destroyed := false;
      colliders := [];
    }

    method SetActive(value: bool)
      modifies `active
      ensures active == value
    {
      active := value;
    }

    /** `DestroyImmediate(gameObject)` */
    method Destroy()
      modifies `destroyed
      ensures destroyed
    {
      destroyed := true;
    }
  }

  /** An object the extension can edit: it has both a mesh filter and a mesh renderer. */
  predicate HasMesh(o: GameObject) {
    o.filter != null && o.renderer != null
  }

  /** The `name` of each object, in order. */
  function NamesOf(objs: seq<GameObject>): (r: seq<string>)
    ensures |r| == |objs|
    ensures forall i :: 0 <= i < |objs| ==> r[i] == objs[i].name
  {
    seq(|objs|, i requires 0 <= i < |objs| => objs[i].name)
  }

  /** The objects of `objs` that have a mesh filter and a mesh renderer, in
      their original order. */
  function EditableObjects(objs: seq<GameObject>): (r: seq<GameObject>)
    ensures |r| <= |objs|
    decreases |objs|
  {
    if |objs| == 0 then []
    else
      var last := objs[|objs| - 1];
      EditableObjects(objs[..|objs| - 1]) + (if HasMesh(last) then [last] else [])
  }

  /** The filter keeps exactly the objects that have a mesh filter and a
      mesh renderer, and is empty exactly when none has. */
  lemma {:induction false} EditableMembers(objs: seq<GameObject>)
    ensures forall o :: o in EditableObjects(objs) ==> o in objs && HasMesh(o)
    ensures forall i :: 0 <= i < |objs| && HasMesh(objs[i]) ==> objs[i] in EditableObjects(objs)
    ensures forall o :: o in objs && HasMesh(o) ==> o in EditableObjects(objs)
    ensures EditableObjects(objs) == [] <==> forall i :: 0 <= i < |objs| ==> !HasMesh(objs[i])
    decreases |objs|
  {
    if |objs| > 0 {
      var init, last := objs[..|objs| - 1], objs[|objs| - 1];
      EditableMembers(init);
      assert EditableObjects(objs) == EditableObjects(init) + (if HasMesh(last) then [last] else []);
      forall i | 0 <= i < |objs| && HasMesh(objs[i]) ensures objs[i] in EditableObjects(objs) {
        if i < |init| {
          assert objs[i] == init[i];
        }
      }
      if EditableObjects(objs) == [] {
        assert !HasMesh(last) && EditableObjects(init) == [];
        forall i | 0 <= i < |objs| ensures !HasMesh(objs[i]) {
          if i < |init| {
            assert objs[i] == init[i];
          }
        }
      }
    }
  }

  /** Filtering distributes over concatenation, so the filter keeps the
      selection's order. */
  lemma {:induction false} EditableAppend(a: seq<GameObject>, b: seq<GameObject>)
    ensures EditableObjects(a + b) == EditableObjects(a) + EditableObjects(b)
    decreases |b|
  {
    if |b| == 0 {
      assert a + b == a;
    } else {
      var b' := b[..|b| - 1];
      assert (a + b)[..|a + b| - 1] == a + b';
      EditableAppend(a, b');
    }
  }

  /** One more object at the end of the selection: it is kept exactly when
      it has a mesh filter and a mesh renderer. */
  lemma EditableSnoc(objs: seq<GameObject>, o: GameObject)
    ensures EditableObjects(objs + [o]) == EditableObjects(objs) + (if HasMesh(o) then [o] else [])
  {
    assert (objs + [o])[..|objs|] == objs;
  }

  /** No object occurs twice. */
  predicate Distinct<T(==)>(objs: seq<T>) {
    forall i, j :: 0 <= i < j < |objs| ==> objs[i] != objs[j]
  }

  /** The handle components found on `objs` (`GetComponent<VertexObj>()`
      where it is not null). */
  function HandlesOf(objs: seq<GameObject>): set<VertexObj>
    reads (set o | o in objs)`vertex
  {
    set o | o in objs && o.vertex != null :: o.vertex
  }

  /** The world positions of `objs`, in order. */
  function PositionsOf(objs: seq<GameObject>): (r: seq<Vec3>)
    reads set o | o in objs :: o.transform
    ensures |r| == |objs|
    ensures forall i :: 0 <= i < |objs| ==> r[i] == objs[i].transform.position
    decreases |objs|
  {
    if |objs| == 0 then [] else PositionsOf(objs[..|objs| - 1]) + [objs[|objs| - 1].transform.position]
  }

  /** Filtering a selection that lists no object twice lists no object twice. */
  lemma {:induction false} EditableDistinct(objs: seq<GameObject>)
    requires Distinct(objs)
    ensures Distinct(EditableObjects(objs))
    decreases |objs|
  {
    if |objs| > 0 {
      var init := objs[..|objs| - 1];
      assert Distinct(init);
      EditableDistinct(init);
      EditableMembers(init);
    }
  }
}
