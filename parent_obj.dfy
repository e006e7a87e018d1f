/** ParentObj: the component on the stand-in object created for each mesh
    being edited. It keeps the handles of that mesh, index-aligned with the
    mesh's vertices, and copies moved handles back into the edit mesh. */
module Parent {
  import opened Engine
  import opened Vertex
  import opened Scene

  /** The vertex buffer after one sync pass over `hs`, handle `i` standing for
      vertex `i`: the pass visits the handles in order and overwrites the
      vertex of each dirty handle with the handle's relative position. */
  function Synced(vs: seq<Vec3>, hs: seq<HandleView>): (r: seq<Vec3>)
    requires |hs| <= |vs|
    ensures |r| == |vs|
    decreases |hs|
  {
    if |hs| == 0 then vs
    else
      var n := |hs| - 1;
      var before := Synced(vs, hs[..n]);
      if hs[n].state.dirty then before[n := Relative(hs[n].position, hs[n].state.offset)] else before
  }

  /** Entry by entry: the vertex of a dirty handle becomes the handle's
      relative position, every other vertex keeps its value. */
  lemma {:induction false} SyncedAt(vs: seq<Vec3>, hs: seq<HandleView>, i: int)
    requires |hs| <= |vs| && 0 <= i < |vs|
    ensures Synced(vs, hs)[i] ==
            if i < |hs| && hs[i].state.dirty then Relative(hs[i].position, hs[i].state.offset) else vs[i]
    decreases |hs|
  {
    if |hs| > 0 {
      var n := |hs| - 1;
      SyncedAt(vs, hs[..n], i);
    }
  }

  /** Every handle after the pass: its dirty flag cleared, nothing else changed. */
  function ClearedAll(hs: seq<HandleView>): (r: seq<HandleView>)
    ensures |r| == |hs|
    ensures forall i :: 0 <= i < |hs| ==> r[i] == HandleView(Cleared(hs[i].state), hs[i].position)
  {
    seq(|hs|, i requires 0 <= i < |hs| => HandleView(Cleared(hs[i].state), hs[i].position))
  }

  /** With no handle dirty, the pass leaves the vertex buffer as it is. */
  lemma CleanSyncIsIdentity(vs: seq<Vec3>, hs: seq<HandleView>)
    requires |hs| <= |vs|
    requires forall i :: 0 <= i < |hs| ==> !hs[i].state.dirty
    ensures Synced(vs, hs) == vs
  {
    forall i | 0 <= i < |vs| ensures Synced(vs, hs)[i] == vs[i] {
      SyncedAt(vs, hs, i);
    }
  }

  /** A second pass with no movement in between changes nothing: the first
      pass left every handle clean. */
  lemma SyncTwice(vs: seq<Vec3>, hs: seq<HandleView>)
    requires |hs| <= |vs|
    ensures Synced(Synced(vs, hs), ClearedAll(hs)) == Synced(vs, hs)
  {
    CleanSyncIsIdentity(Synced(vs, hs), ClearedAll(hs));
  }

  /** When the vertex of every clean handle already equals that handle's
      relative position, one pass makes the whole buffer the handles'
      relative positions, which is what the save step writes to the mesh. */
  lemma SyncMatchesHandles(vs: seq<Vec3>, hs: seq<HandleView>)
    requires |hs| == |vs|
    requires forall i :: 0 <= i < |hs| && !hs[i].state.dirty ==>
               vs[i] == Relative(hs[i].position, hs[i].state.offset)
    ensures forall i :: 0 <= i < |vs| ==>
              Synced(vs, hs)[i] == Relative(hs[i].position, hs[i].state.offset)
  {
    forall i | 0 <= i < |vs| ensures Synced(vs, hs)[i] == Relative(hs[i].position, hs[i].state.offset) {
      SyncedAt(vs, hs, i);
    }
  }

  /** The views of a sequence of present handles. */
  ghost function ViewsOf(hs: seq<VertexObj?>): (r: seq<HandleView>)
    requires forall i :: 0 <= i < |hs| ==> hs[i] != null
    reads set i | 0 <= i < |hs| :: hs[i], set i | 0 <= i < |hs| && hs[i] != null :: hs[i].transform
    ensures |r| == |hs|
    ensures forall i :: 0 <= i < |hs| ==> r[i] == hs[i].View()
    decreases |hs|
  {
    if |hs| == 0 then [] else ViewsOf(hs[..|hs| - 1]) + [hs[|hs| - 1].View()]
  }

  /** The loop of `ParentObj.Refresh`: in order, each dirty handle writes its
      relative position into its own slot of `vertVects` and is reset. The
      handles must be distinct objects so that resetting one leaves the
      others' flags as they were. */
  method SyncPass(verts: array<VertexObj?>, vertVects: array<Vec3>)
    requires verts.Length <= vertVects.Length
    requires forall i :: 0 <= i < verts.Length ==> verts[i] != null
    requires forall i, j :: 0 <= i < j < verts.Length ==> verts[i] != verts[j]
    modifies vertVects, (set i | 0 <= i < verts.Length :: verts[i])`dirty
    ensures forall j :: 0 <= j < vertVects.Length ==>
              vertVects[j] == if j < verts.Length && old(verts[j].dirty)
                              then Relative(verts[j].transform.position, verts[j].offset)
                              else old(vertVects[j])
    ensures forall j :: 0 <= j < verts.Length ==> !verts[j].dirty
  {
    ghost var hv := verts[..];
    var i := 0;
    while i < verts.Length
      invariant 0 <= i <= |hv|
      invariant forall j :: 0 <= j < vertVects.Length ==>
                  vertVects[j] == if j < i && old(hv[j].dirty) then Relative(hv[j].transform.position, hv[j].offset) else old(vertVects[j])
      invariant forall j :: 0 <= j < i ==> !hv[j].dirty
      invariant forall j :: i <= j < |hv| ==> hv[j].dirty == old(hv[j].dirty)
    {
      var h := verts[i];
      if h.dirty {
        vertVects[i] := Sub(h.transform.position, h.offset);
        h.Reset();
      }
      i := i + 1;
    }
  }

  class ParentObj {
    var index: int
    var mesh: Mesh?
    var vertObjs: seq<GameObject>
    var verts: array?<VertexObj?>

    constructor ()
      ensures index == -1 && mesh == null && vertObjs == [] && verts == null
    {
      index := -1;
      mesh := null;
      vertObjs := [];
      verts := null;
    }

    /** The handles as a set, for frames. */
    ghost function Handles(): set<VertexObj>
      reads this, verts
    {
      if verts == null then {} else set i | 0 <= i < verts.Length && verts[i] != null :: verts[i]
    }

    /** What `Refresh` needs so that it cannot fail: every handle present,
        no handle twice, and a vertex for every handle. */
    ghost predicate CanRefresh()
      reads this, verts, mesh
    {
      mesh != null && verts != null ==>
        && verts.Length <= |mesh.vertices|
        && (forall i :: 0 <= i < verts.Length ==> verts[i] != null)
        && (forall i, j :: 0 <= i < j < verts.Length ==> verts[i] != verts[j])
    }

    /** The handles in order, with their positions. */
    ghost function HandleViews(): (r: seq<HandleView>)
      requires verts != null && forall i :: 0 <= i < verts.Length ==> verts[i] != null
      reads this, verts, Handles(), set h | h in Handles() :: h.transform
      ensures |r| == verts.Length
    {
      ViewsOf(verts[..])
    }

    method Init(nIndex: int, nMesh: Mesh?)
      modifies `index, `mesh
      ensures index == nIndex && mesh == nMesh
    {
      index := nIndex;
      mesh := nMesh;
    }

    method AssignVerts(nVerts: seq<GameObject>)
      modifies `vertObjs, `verts
      ensures vertObjs == nVerts
      ensures verts != null && fresh(verts) && verts.Length == |nVerts|
      ensures forall i :: 0 <= i < |nVerts| ==> verts[i] == nVerts[i].vertex
    {
      vertObjs := nVerts;
      var vs := new VertexObj?[|nVerts|];
      for i := 0 to vs.Length
        invariant vertObjs == nVerts
        invariant forall j :: 0 <= j < i ==> vs[j] == nVerts[j].vertex
      {
        vs[i] := nVerts[i].vertex;
      }
      verts := vs;
    }

    /** Copy the position of every dirty handle, less its offset, into the
        mesh's vertex buffer and clear the handle's flag. The frame says that
        only the buffer and the dirty flags change, and nothing at all
        without a mesh or without handles. */
    method Refresh()
      requires CanRefresh()
      modifies (if mesh == null || verts == null then {} else {mesh})`vertices
      modifies (if mesh == null || verts == null then {} else Handles())`dirty
      ensures mesh != null && verts != null ==>
                && mesh.vertices == Synced(old(mesh.vertices), old(HandleViews()))
                && forall i :: 0 <= i < verts.Length ==> !verts[i].dirty
      ensures mesh != null && verts == null ==> mesh.vertices == old(mesh.vertices)
    {
      if mesh != null && verts != null {
        ghost var hs := HandleViews();
        ghost var vs := mesh.vertices;
        var vertVects := ToArray(mesh.vertices);
        SyncPass(verts, vertVects);
        forall j | 0 <= j < |vs| ensures vertVects[j] == Synced(vs, hs)[j] {
          SyncedAt(vs, hs, j);
        }
        mesh.vertices := vertVects[..];
      }
    }

    /** The per-render callback, called explicitly: the sync runs only while
        the editor shows the mesh during editing. */
    method OnRenderObject(showMesh: bool)
      requires CanRefresh()
      modifies (if showMesh && mesh != null && verts != null then {mesh} else {})`vertices
      modifies (if showMesh && mesh != null && verts != null then Handles() else {})`dirty
      ensures showMesh && mesh != null && verts != null ==>
                && mesh.vertices == Synced(old(mesh.vertices), old(HandleViews()))
                && forall i :: 0 <= i < verts.Length ==> !verts[i].dirty
      ensures mesh != null && (!showMesh || verts == null) ==> mesh.vertices == old(mesh.vertices)
    {
      if showMesh {
        Refresh();
      }
    }
  }
}
