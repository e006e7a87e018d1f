/** The engine-side values and objects that the editor extension works with:
    exact vectors, transforms, meshes and the components attached to a
    GameObject. Only the state the extension reads or writes is modelled. */
module Engine {

  datatype Option<T> = None | Some(value: T)

  /** Exact stand-in for the engine's three-component vector. */
  datatype Vec3 = Vec3(x: int, y: int, z: int)

  const Zero: Vec3 := Vec3(0, 0, 0)

  function Add(a: Vec3, b: Vec3): Vec3 {
    Vec3(a.x + b.x, a.y + b.y, a.z + b.z)
  }

  function Sub(a: Vec3, b: Vec3): Vec3 {
    Vec3(a.x - b.x, a.y - b.y, a.z - b.z)
  }

  /** Placing a vector at an origin and taking the origin off again gives the
      vector back; this is what makes the dissolve/restore round trip exact. */
  lemma SubAddCancel(origin: Vec3, v: Vec3)
    ensures Sub(Add(origin, v), origin) == v
  {
  }

  /** A position-carrying transform. Every component of a GameObject sees the
      same transform, so a handle's position is read through it. */
  class Transform {
    var position: Vec3
    var parent: Transform?

    constructor ()
      ensures position == Zero && parent == null
    {
      position := Zero;
      parent := null;
    }
  }

  /** A mesh: its name, vertex buffer and triangle index list. */
  class Mesh {
    var name: string
    var vertices: seq<Vec3>
    var triangles: seq<int>

    /** `Instantiate(mesh)`: an independent copy of another mesh. */
    constructor Instantiate(src: Mesh)
      ensures name == src.name && vertices == src.vertices && triangles == src.triangles
    {
      name := src.name;
      vertices := src.vertices;
      triangles := src.triangles;
    }
  }

  /** The component that holds the mesh an object displays. */
  class MeshFilter {
    var sharedMesh: Mesh?

    constructor (mesh: Mesh?)
      ensures sharedMesh == mesh
    {
      sharedMesh := mesh;
    }
  }

  /** The component that draws an object's mesh; only its presence matters here. */
  class MeshRenderer {
    constructor ()
    {
    }
  }

  /** A collider component: a mesh collider (with the mesh it uses, if one was
      assigned) or any other kind. */
  datatype Collider = OtherCollider | MeshCollider(sharedMesh: Mesh?)

  /** The sprite a handle's sprite renderer shows. */
  datatype Sprite = InitialSprite | BaseSprite | SelectedSprite

  /** `list.ToArray()`: a fresh array holding the elements of a sequence. */
  method ToArray<T>(s: seq<T>) returns (a: array<T>)
    ensures fresh(a) && a[..] == s
  {
    a := new T[|s|](i requires 0 <= i < |s| => s[i]);
  }
}
