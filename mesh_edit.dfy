/** MeshEdit: the editor window that runs an edit session. It dissolves the
    selected meshes into one handle per vertex, lets the handles be moved,
    and restores the meshes from the handle positions. */
module Session {
  import opened Engine
  import opened Vertex
  import opened Scene
  import opened Parent
  import opened Prefs

  const NO_SELECTION: string := "No GameObject(s) currently selected..."
  const EDITING: string := "Editing..."
  const SEPARATOR: string := ", "
  /** Appended to an object's name to name its stand-in while editing. */
  const PARENT_SUFFIX: string := ":Editing..."

  /** The names list shown in the window: the names in order, separated by
      `SEPARATOR`, with no separator after the last one. */
  function JoinNames(ns: seq<string>): string
    decreases |ns|
  {
    if |ns| == 0 then ""
    else if |ns| == 1 then ns[0]
    else JoinNames(ns[..|ns| - 1]) + SEPARATOR + ns[|ns| - 1]
  }

  /** The list read from the front: the first name, a separator, then the
      list of the remaining names. */
  lemma {:induction false} JoinNamesFront(ns: seq<string>)
    requires |ns| >= 2
    ensures JoinNames(ns) == ns[0] + SEPARATOR + JoinNames(ns[1..])
    decreases |ns|
  {
    var n := |ns|;
    if n == 2 {
      assert ns[..1] == [ns[0]];
      assert ns[1..] == [ns[1]];
    } else {
      JoinNamesFront(ns[..n - 1]);
      assert ns[..n - 1][1..] == ns[1..][..n - 2];
      assert ns[..n - 1][0] == ns[0];
      assert ns[1..][n - 2] == ns[n - 1];
    }
  }

  /** The list has one separator fewer than names, so its length is the
      names' total length plus two per gap. */
  function TotalLength(ns: seq<string>): nat
    decreases |ns|
  {
    if |ns| == 0 then 0 else TotalLength(ns[..|ns| - 1]) + |ns[|ns| - 1]|
  }

  lemma {:induction false} JoinNamesLength(ns: seq<string>)
    requires |ns| >= 1
    ensures |JoinNames(ns)| == TotalLength(ns) + |SEPARATOR| * (|ns| - 1)
    decreases |ns|
  {
    if |ns| > 1 {
      JoinNamesLength(ns[..|ns| - 1]);
    } else {
      assert ns[..0] == [];
    }
  }

  /** One more name at the end of the list. */
  lemma JoinNamesSnoc(ns: seq<string>, name: string)
    ensures JoinNames(ns + [name]) == if |ns| == 0 then name else JoinNames(ns) + SEPARATOR + name
  {
    assert (ns + [name])[..|ns|] == ns;
  }

  /** The names loop of `CheckSelected`: append each name and, before every
      name but the last, a separator. */
  method BuildNames(selected: array<GameObject>) returns (names: string)
    ensures names == JoinNames(NamesOf(selected[..]))
  {
    names := "";
    var n := selected.Length;
    for i := 0 to n
      invariant names == JoinNames(NamesOf(selected[..i])) + (if 0 < i < n then SEPARATOR else "")
    {
      assert selected[..i + 1] == selected[..i] + [selected[i]];
      assert NamesOf(selected[..i + 1]) == NamesOf(selected[..i]) + [selected[i].name];
      JoinNamesSnoc(NamesOf(selected[..i]), selected[i].name);
      names := names + selected[i].name;
      if i < n - 1 {
        names := names + SEPARATOR;
      }
    }
    assert selected[..n] == selected[..];
  }

  /** One highlight loop of `CheckSelected`: `Select(isSelected)` on the
      handle component of each object that has one. */
  method SelectAll(objs: seq<GameObject>, isSelected: bool)
    modifies HandlesOf(objs)`sprRender
    ensures forall h :: h in HandlesOf(objs) ==> h.sprRender == Shown(old(h.sprRender), isSelected)
  {
    for i := 0 to |objs|
      invariant forall h :: h in HandlesOf(objs) ==>
                  h.sprRender == if h in HandlesOf(objs[..i]) then Shown(old(h.sprRender), isSelected) else old(h.sprRender)
    {
      var h := objs[i].vertex;
      if h != null {
        h.Select(isSelected);
        ShownLast(old(h.sprRender), isSelected, isSelected);
      }
    }
    assert objs[..|objs|] == objs;
  }

  /** Both highlight loops of `CheckSelected`: the handles on `prev` are
      deselected, then those on `next` selected, so a handle on both ends
      up selected. */
  method MoveHighlight(prev: seq<GameObject>, next: seq<GameObject>)
    modifies HandlesOf(prev)`sprRender, HandlesOf(next)`sprRender
    ensures forall h :: h in HandlesOf(next) ==> h.sprRender == Shown(old(h.sprRender), true)
    ensures forall h :: h in HandlesOf(prev) && h !in HandlesOf(next) ==> h.sprRender == Shown(old(h.sprRender), false)
  {
    SelectAll(prev, false);
    SelectAll(next, true);
    forall h | h in HandlesOf(next) && h in HandlesOf(prev)
      ensures h.sprRender == Shown(old(h.sprRender), true)
    {
      ShownLast(old(h.sprRender), false, true);
    }
  }

  /** Where the handles of a mesh are placed: vertex `v` at `origin + vs[v]`. */
  function Placed(origin: Vec3, vs: seq<Vec3>): (r: seq<Vec3>)
    ensures |r| == |vs|
  {
    seq(|vs|, v requires 0 <= v < |vs| => Add(origin, vs[v]))
  }

  /** The vertices restored from handle positions: each less the origin. */
  function Committed(positions: seq<Vec3>, origin: Vec3): (r: seq<Vec3>)
    ensures |r| == |positions|
  {
    seq(|positions|, v requires 0 <= v < |positions| => Sub(positions[v], origin))
  }

  /** Restoring from handles that were not moved gives back the vertices. */
  lemma RestoreUndoesDissolve(origin: Vec3, vs: seq<Vec3>)
    ensures Committed(Placed(origin, vs), origin) == vs
  {
    forall v | 0 <= v < |vs| ensures Committed(Placed(origin, vs), origin)[v] == vs[v] {
      SubAddCancel(origin, vs[v]);
    }
  }

  /** Moving one handle by `d` moves exactly its vertex by `d`. */
  lemma RestoreMovedHandle(origin: Vec3, vs: seq<Vec3>, v: int, d: Vec3)
    requires 0 <= v < |vs|
    ensures Committed(Placed(origin, vs)[v := Add(Placed(origin, vs)[v], d)], origin)
         == vs[v := Add(vs[v], d)]
  {
    RestoreUndoesDissolve(origin, vs);
  }

  /** The objects of `objs`, as a set, for frames. */
  function ObjectSet(objs: seq<GameObject>): set<GameObject> {
    set o | o in objs
  }

  /** The filters of `objs` that are present, for frames. */
  function FilterSet(objs: seq<GameObject>): set<MeshFilter> {
    set o | o in objs && o.filter != null :: o.filter
  }

  /** The reactivation loop of `Reset`: make each object visible again and,
      when the collision mesh is being rebuilt, give it a new mesh collider. */
  method ReactivateAll(objs: seq<GameObject>, addCollider: bool)
    requires Distinct(objs)
    modifies ObjectSet(objs)`active, ObjectSet(objs)`colliders
    ensures forall i :: 0 <= i < |objs| ==>
              && objs[i].active
              && objs[i].colliders == old(objs[i].colliders) + (if addCollider then [MeshCollider(null)] else [])
  {
    for i := 0 to |objs|
      invariant forall j :: 0 <= j < i ==>
                  && objs[j].active
                  && objs[j].colliders == old(objs[j].colliders) + (if addCollider then [MeshCollider(null)] else [])
      invariant forall j :: i <= j < |objs| ==> objs[j].colliders == old(objs[j].colliders)
    {
      objs[i].SetActive(true);
      if addCollider {
        objs[i].colliders := objs[i].colliders + [MeshCollider(null)];
      }
    }
  }

  /** A teardown loop: destroy each object not destroyed yet. */
  method DestroyAll(objs: seq<GameObject>)
    modifies ObjectSet(objs)`destroyed
    ensures forall o :: o in objs ==> o.destroyed
  {
    for i := 0 to |objs|
      invariant forall j :: 0 <= j < i ==> objs[j].destroyed
    {
      if !objs[i].destroyed {
        objs[i].Destroy();
      }
    }
  }

  /** The handle teardown of `Reset`: destroy every handle of every row. */
  method DestroyRows(rows: seq<seq<GameObject>>)
    modifies RowSet(rows)`destroyed
    ensures forall o :: o in RowSet(rows) ==> o.destroyed
  {
    for i := 0 to |rows|
      invariant forall j, h :: 0 <= j < i && h in rows[j] ==> h.destroyed
    {
      DestroyAll(rows[i]);
    }
  }

  /** Each object of `objs` is visible, with the colliders `cols` lists for
      it and, when `addCollider` is set, one new mesh collider after them. */
  ghost predicate Reactivated(objs: seq<GameObject>, cols: seq<seq<Collider>>, addCollider: bool)
    reads ObjectSet(objs)`active, ObjectSet(objs)`colliders
  {
    && |cols| == |objs|
    && forall i :: 0 <= i < |objs| ==>
         && objs[i].active
         && objs[i].colliders == cols[i] + (if addCollider then [MeshCollider(null)] else [])
  }

  /** Every object of `doomed` is destroyed. */
  ghost predicate AllDestroyed(doomed: set<GameObject>)
    reads doomed`destroyed
  {
    forall o :: o in doomed ==> o.destroyed
  }

  /** Whether the objects are shown again depends on nothing but the
      objects themselves. */
  twostate lemma ReactivatedKept(new objs: seq<GameObject>, new cols: seq<seq<Collider>>, new addCollider: bool)
    requires old(allocated(objs)) && old(allocated(cols))
    requires old(Reactivated(objs, cols, addCollider))
    requires unchanged(ObjectSet(objs)`active, ObjectSet(objs)`colliders)
    ensures Reactivated(objs, cols, addCollider)
  {
  }

  /** Likewise for the destroyed objects. */
  twostate lemma DestroyedKept(new doomed: set<GameObject>)
    requires old(allocated(doomed))
    requires old(AllDestroyed(doomed)) && unchanged(doomed`destroyed)
    ensures AllDestroyed(doomed)
  {
  }

  /** The object loops of `Reset`: show the stored objects again, then
      destroy the stand-ins and the handles. */
  method TearDown(stored: seq<GameObject>, parents: seq<GameObject>, rows: seq<seq<GameObject>>, addCollider: bool,
                  ghost cols: seq<seq<Collider>>)
    requires Distinct(stored)
    requires |cols| == |stored| && forall i :: 0 <= i < |stored| ==> stored[i].colliders == cols[i]
    modifies ObjectSet(stored)`active, ObjectSet(stored)`colliders, ObjectSet(parents)`destroyed, RowSet(rows)`destroyed
    ensures Reactivated(stored, cols, addCollider)
    ensures AllDestroyed(ObjectSet(parents) + RowSet(rows))
  {
    if |stored| > 0 {
      ReactivateAll(stored, addCollider);
    }
    if |parents| > 0 {
      DestroyAll(parents);
    }
    if |rows| > 0 {
      DestroyRows(rows);
    }
  }

  /** The handle loop of `RestoreObjects` for one mesh: each handle's
      position less `origin` becomes its vertex, and the handle is destroyed
      unless it already is. `positions` are the handles' positions. */
  method CommitHandles(hs: seq<GameObject>, origin: Vec3, ghost positions: seq<Vec3>) returns (verts: array<Vec3>)
    requires |positions| == |hs| && forall w :: 0 <= w < |hs| ==> hs[w].transform.position == positions[w]
    requires Distinct(hs) && forall h :: h in hs ==> !h.destroyed
    modifies ObjectSet(hs)`destroyed
    ensures fresh(verts) && verts[..] == Committed(positions, origin)
    ensures forall h :: h in hs ==> h.destroyed
  {
    verts := new Vec3[|hs|];
    for v := 0 to verts.Length
      invariant forall w :: 0 <= w < v ==> verts[w] == Sub(positions[w], origin)
      invariant forall w :: 0 <= w < v ==> hs[w].destroyed
      invariant forall w :: v <= w < |hs| ==> !hs[w].destroyed
    {
      verts[v] := Sub(hs[v].transform.position, origin);
      if !hs[v].destroyed {
        hs[v].Destroy();
      }
    }
  }

  /** `RestoreObjects` for one stored object `o` that has a filter, whose
      handles are `hs` and whose stand-in is `parent`: a copy of its mesh
      gets the handle positions less the object's position as vertices and
      replaces the mesh on its filter, the handles and the stand-in are
      destroyed, a mesh collider on the new mesh is added when `modCol` is
      set, and the object is shown again. */
  method RestoreOne(o: GameObject, filter: MeshFilter, hs: seq<GameObject>, parent: GameObject, modCol: bool,
                    ghost positions: seq<Vec3>)
    requires o.filter == filter && filter.sharedMesh != null
    requires |positions| == |hs| && forall w :: 0 <= w < |hs| ==> hs[w].transform.position == positions[w]
    requires !o.destroyed && o !in hs && o != parent
    requires Distinct(hs) && forall h :: h in hs ==> !h.destroyed
    modifies o`active, o`colliders, filter`sharedMesh, ObjectSet(hs)`destroyed, parent`destroyed
    ensures fresh(filter.sharedMesh)
    ensures filter.sharedMesh.vertices == Committed(positions, o.transform.position)
    ensures filter.sharedMesh.triangles == old(filter.sharedMesh.triangles)
    ensures filter.sharedMesh.name == o.name
    ensures o.active
    ensures o.colliders == old(o.colliders) + (if modCol then [MeshCollider(filter.sharedMesh)] else [])
    ensures forall h :: h in hs ==> h.destroyed
    ensures parent.destroyed
  {
    var objMesh := new Mesh.Instantiate(filter.sharedMesh);
    var verts := CommitHandles(hs, o.transform.position, positions);
    if !parent.destroyed {
      parent.Destroy();
    }
    objMesh.vertices := verts[..];
    objMesh.name := o.name;
    filter.sharedMesh := objMesh;
    if modCol {
      o.colliders := o.colliders + [MeshCollider(objMesh)];
    }
    o.SetActive(true);
  }

  /** The positions of the objects of each row. */
  ghost function PositionRows(rows: seq<seq<GameObject>>): (r: seq<seq<Vec3>>)
    reads set i, o | 0 <= i < |rows| && o in rows[i] :: o.transform
    ensures |r| == |rows|
    ensures forall i :: 0 <= i < |rows| ==> r[i] == PositionsOf(rows[i])
    decreases |rows|
  {
    if |rows| == 0 then [] else PositionRows(rows[..|rows| - 1]) + [PositionsOf(rows[|rows| - 1])]
  }

  /** The triangles of the mesh on each object's filter, empty where there is none. */
  ghost function TrianglesOf(objs: seq<GameObject>): (r: seq<seq<int>>)
    reads set o | o in objs :: o.filter
    reads set o | o in objs && o.filter != null && o.filter.sharedMesh != null :: o.filter.sharedMesh
    ensures |r| == |objs|
    ensures forall i :: 0 <= i < |objs| && objs[i].filter != null && objs[i].filter.sharedMesh != null ==>
              r[i] == objs[i].filter.sharedMesh.triangles
    decreases |objs|
  {
    if |objs| == 0 then []
    else
      var o := objs[|objs| - 1];
      TrianglesOf(objs[..|objs| - 1]) +
      [if o.filter != null && o.filter.sharedMesh != null then o.filter.sharedMesh.triangles else []]
  }

  /** The colliders of each object. */
  ghost function CollidersOf(objs: seq<GameObject>): (r: seq<seq<Collider>>)
    reads objs
    ensures |r| == |objs|
    ensures forall i :: 0 <= i < |objs| ==> r[i] == objs[i].colliders
    decreases |objs|
  {
    if |objs| == 0 then [] else CollidersOf(objs[..|objs| - 1]) + [objs[|objs| - 1].colliders]
  }

  /** Every object in any of the rows, as a set, for frames. */
  function RowSet(rows: seq<seq<GameObject>>): set<GameObject> {
    set i, o | 0 <= i < |rows| && o in rows[i] :: o
  }

  /** The meshes on the filters of `stored`, for frames. */
  function MeshSet(stored: seq<GameObject>): set<Mesh>
    reads FilterSet(stored)`sharedMesh
  {
    set o | o in stored && o.filter != null && o.filter.sharedMesh != null :: o.filter.sharedMesh
  }

  /** The transforms of `objs`, for frames. */
  function TransformSet(objs: seq<GameObject>): set<Transform> {
    set o | o in objs :: o.transform
  }

  /** Every stored object with a filter carries a rebuilt mesh: its vertices
      are the positions `positions[i]` of its handles less the object's own
      position, its triangles are `tris[i]` and it is named after the object. */
  ghost predicate Rebuilt(stored: seq<GameObject>, positions: seq<seq<Vec3>>, tris: seq<seq<int>>)
    reads FilterSet(stored)`sharedMesh, MeshSet(stored)`vertices, MeshSet(stored)`triangles, MeshSet(stored)`name
    reads TransformSet(stored)`position
  {
    && |stored| <= |positions| && |stored| <= |tris|
    && forall i :: 0 <= i < |stored| && stored[i].filter != null ==>
         var m := stored[i].filter.sharedMesh;
         && m != null
         && m.vertices == Committed(positions[i], stored[i].transform.position)
         && m.triangles == tris[i]
         && m.name == stored[i].name
  }

  /** Every stored object with a filter is shown again and, when `modCol`
      is set, has a mesh collider on its new mesh after the colliders
      `cols[i]` it had. */
  ghost predicate Reshown(stored: seq<GameObject>, cols: seq<seq<Collider>>, modCol: bool)
    reads ObjectSet(stored)`active, ObjectSet(stored)`colliders, FilterSet(stored)`sharedMesh
  {
    && |stored| <= |cols|
    && forall i :: 0 <= i < |stored| && stored[i].filter != null ==>
         && stored[i].active
         && stored[i].colliders == cols[i] + (if modCol then [MeshCollider(stored[i].filter.sharedMesh)] else [])
  }

  /** The stand-in and the handles of every stored object with a filter are destroyed. */
  ghost predicate CleanedUp(stored: seq<GameObject>, rows: seq<seq<GameObject>>, parents: seq<GameObject>)
    reads ObjectSet(parents)`destroyed, RowSet(rows)`destroyed
  {
    && |stored| <= |rows| && |stored| <= |parents|
    && forall i :: 0 <= i < |stored| && stored[i].filter != null ==>
         && parents[i].destroyed
         && forall h :: h in rows[i] ==> h.destroyed
  }

  /** No handle occurs twice in a row or in two rows. */
  ghost predicate Partitioned(rows: seq<seq<GameObject>>) {
    && (forall k :: 0 <= k < |rows| ==> Distinct(rows[k]))
    && (forall j, k, h :: 0 <= j < k < |rows| && h in rows[k] ==> h !in rows[j])
  }

  /** The stored objects, the stand-ins and the handles are different
      objects, and no handle is shared: destroying the handles and the
      stand-in of one stored object destroys nothing that is still to be
      read. */
  ghost predicate Separate(stored: seq<GameObject>, rows: seq<seq<GameObject>>, parents: seq<GameObject>) {
    && Partitioned(rows)
    && (forall i, j :: 0 <= i < |parents| && 0 <= j < |stored| ==> stored[j] != parents[i])
    && (forall h :: h in RowSet(rows) ==> h !in stored && h !in parents)
  }

  /** The stored objects from `n` on, and the handles of those with a
      filter, are not destroyed: `RestoreObjects` reads each of them. */
  ghost predicate AliveFrom(n: nat, stored: seq<GameObject>, rows: seq<seq<GameObject>>)
    reads ObjectSet(stored)`destroyed, RowSet(rows)`destroyed
  {
    forall j :: n <= j < |stored| ==>
      && !stored[j].destroyed
      && (j < |rows| && stored[j].filter != null ==> forall h :: h in rows[j] ==> !h.destroyed)
  }

  /** What separation means for stored object `i`: its own handles are
      distinct and are neither it nor its stand-in, and neither those
      handles nor its stand-in are a later stored object or a later
      object's handle. */
  lemma SeparateAt(i: nat, stored: seq<GameObject>, rows: seq<seq<GameObject>>, parents: seq<GameObject>)
    requires Separate(stored, rows, parents) && i < |stored| && i < |rows| && i < |parents|
    ensures Distinct(rows[i]) && stored[i] !in rows[i] && stored[i] != parents[i]
    ensures forall j :: i < j < |stored| ==> stored[j] !in rows[i] && stored[j] != parents[i]
    ensures forall j, h :: i < j < |rows| && h in rows[j] ==> h !in rows[i] && h != parents[i]
  {
    forall j | 0 <= j < |stored| ensures stored[j] !in rows[i] {
      assert stored[j] in rows[i] ==> stored[j] in RowSet(rows);
    }
    forall j, h | i < j < |rows| && h in rows[j] ensures h != parents[i] {
      assert h in RowSet(rows);
    }
  }

  /** Destroying the handles and the stand-in of stored object `i` leaves
      the objects after it, and their handles, as they were. */
  twostate lemma AliveKept(i: nat, new stored: seq<GameObject>, new rows: seq<seq<GameObject>>,
                           new parents: seq<GameObject>)
    requires old(allocated(stored)) && old(allocated(rows)) && old(allocated(parents))
    requires i < |stored| && i < |rows| && i < |parents|
    requires forall j :: i < j < |stored| ==> stored[j] !in rows[i] && stored[j] != parents[i]
    requires forall j, h :: i < j < |rows| && h in rows[j] ==> h !in rows[i] && h != parents[i]
    requires old(AliveFrom(i, stored, rows))
    requires forall o :: o in ObjectSet(stored) + RowSet(rows) && o !in rows[i] && o != parents[i] ==>
               o.destroyed == old(o.destroyed)
    ensures AliveFrom(i + 1, stored, rows)
  {
    forall j | i + 1 <= j < |stored|
      ensures !stored[j].destroyed
      ensures j < |rows| && stored[j].filter != null ==> forall h :: h in rows[j] ==> !h.destroyed
    {
      assert stored[j] in ObjectSet(stored);
      if j < |rows| && stored[j].filter != null {
        forall h | h in rows[j] ensures !h.destroyed {
          assert h in RowSet(rows);
        }
      }
    }
  }

  /** The loop of `RestoreObjects`: `RestoreOne` for each stored object that
      has a filter, with the handles `rows[i]` and the stand-in `parents[i]`.
      The ghost parameters name what the loop reads before it changes it:
      the positions of the handles, and each object's triangles and
      colliders. */
  method RestoreAll(stored: seq<GameObject>, rows: seq<seq<GameObject>>, parents: seq<GameObject>, modCol: bool,
                    ghost positions: seq<seq<Vec3>>, ghost tris: seq<seq<int>>, ghost cols: seq<seq<Collider>>,
                    ghost objs: set<GameObject>, ghost fs: set<MeshFilter>, ghost doomed: set<GameObject>)
    requires |stored| <= |rows| && |stored| <= |parents| && |stored| <= |positions|
    requires |stored| == |tris| == |cols|
    requires forall i :: 0 <= i < |stored| ==> |positions[i]| == |rows[i]|
    requires forall i, w :: 0 <= i < |stored| && 0 <= w < |rows[i]| ==> rows[i][w].transform.position == positions[i][w]
    requires Distinct(stored)
    requires forall i :: 0 <= i < |stored| ==> stored[i] in objs
    requires forall i :: 0 <= i < |stored| && stored[i].filter != null ==> stored[i].filter in fs
    requires forall i :: 0 <= i < |stored| ==> parents[i] in doomed && forall h :: h in rows[i] ==> h in doomed
    requires forall i, j :: 0 <= i < j < |stored| && stored[i].filter != null ==> stored[i].filter != stored[j].filter
    requires forall i :: 0 <= i < |stored| && stored[i].filter != null ==>
               stored[i].filter.sharedMesh != null && stored[i].filter.sharedMesh.triangles == tris[i]
    requires forall i :: 0 <= i < |stored| ==> stored[i].colliders == cols[i]
    requires Separate(stored, rows, parents) && AliveFrom(0, stored, rows)
    modifies objs`active, objs`colliders, fs`sharedMesh, doomed`destroyed
    ensures Rebuilt(stored, positions, tris)
    ensures Reshown(stored, cols, modCol)
    ensures CleanedUp(stored, rows, parents)
    ensures forall i :: 0 <= i < |stored| && stored[i].filter != null ==> fresh(stored[i].filter.sharedMesh)
  {
    assert stored[0..] == stored;
    for i := 0 to |stored|
      invariant RestoredUpTo(i, stored, rows, parents, modCol, positions, tris, cols)
      invariant PendingFrom(i, stored, tris, cols)
      invariant AliveFrom(i, stored, rows)
      invariant forall j :: 0 <= j < i && stored[j].filter != null ==> fresh(stored[j].filter.sharedMesh)
    {
      RestoreNext(i, stored, rows, parents, modCol, positions, tris, cols, objs, fs, doomed);
    }
  }

  /** The first `n` stored objects that have a filter are restored: their
      meshes rebuilt, the objects shown again with their colliders, and
      their stand-ins and handles destroyed. */
  ghost predicate RestoredUpTo(n: nat, stored: seq<GameObject>, rows: seq<seq<GameObject>>, parents: seq<GameObject>,
                               modCol: bool, positions: seq<seq<Vec3>>, tris: seq<seq<int>>, cols: seq<seq<Collider>>)
    requires n <= |stored| && n <= |rows| && n <= |parents|
    reads ObjectSet(stored[..n])`active, ObjectSet(stored[..n])`colliders, FilterSet(stored[..n])`sharedMesh
    reads MeshSet(stored[..n])`vertices, MeshSet(stored[..n])`triangles, MeshSet(stored[..n])`name
    reads TransformSet(stored[..n])`position, ObjectSet(parents[..n])`destroyed, RowSet(rows[..n])`destroyed
  {
    && n <= |positions| && n <= |tris| && n <= |cols|
    && forall j :: 0 <= j < n && stored[j].filter != null ==>
         var m := stored[j].filter.sharedMesh;
         && m != null
         && m.vertices == Committed(positions[j], stored[j].transform.position)
         && m.triangles == tris[j]
         && m.name == stored[j].name
         && stored[j].active
         && stored[j].colliders == cols[j] + (if modCol then [MeshCollider(m)] else [])
         && parents[j].destroyed
         && forall h :: h in rows[j] ==> h.destroyed
  }

  /** The stored objects from `n` on still have their colliders and the
      triangles of their meshes. */
  ghost predicate PendingFrom(n: nat, stored: seq<GameObject>, tris: seq<seq<int>>, cols: seq<seq<Collider>>)
    requires n <= |stored|
    reads ObjectSet(stored[n..])`colliders, FilterSet(stored[n..])`sharedMesh, MeshSet(stored[n..])`triangles
  {
    && |stored| <= |tris| && |stored| <= |cols|
    && forall j :: n <= j < |stored| ==>
         && stored[j].colliders == cols[j]
         && (stored[j].filter != null ==>
               stored[j].filter.sharedMesh != null && stored[j].filter.sharedMesh.triangles == tris[j])
  }

  /** The body of the loop of `RestoreObjects` for stored object `i`: the
      objects before it stay restored and those after it untouched. */
  method RestoreNext(i: nat, stored: seq<GameObject>, rows: seq<seq<GameObject>>, parents: seq<GameObject>, modCol: bool,
                     ghost positions: seq<seq<Vec3>>, ghost tris: seq<seq<int>>, ghost cols: seq<seq<Collider>>,
                     ghost objs: set<GameObject>, ghost fs: set<MeshFilter>, ghost doomed: set<GameObject>)
    requires i < |stored| <= |rows| && |stored| <= |parents| && |stored| <= |positions|
    requires |positions[i]| == |rows[i]|
    requires forall w :: 0 <= w < |rows[i]| ==> rows[i][w].transform.position == positions[i][w]
    requires Distinct(stored) && stored[i] in objs && (stored[i].filter != null ==> stored[i].filter in fs)
    requires parents[i] in doomed && forall h :: h in rows[i] ==> h in doomed
    requires forall j :: 0 <= j < |stored| && j != i && stored[j].filter != null ==> stored[j].filter != stored[i].filter
    requires RestoredUpTo(i, stored, rows, parents, modCol, positions, tris, cols)
    requires PendingFrom(i, stored, tris, cols)
    requires Separate(stored, rows, parents) && AliveFrom(i, stored, rows)
    modifies objs`active, objs`colliders, fs`sharedMesh, doomed`destroyed
    ensures RestoredUpTo(i + 1, stored, rows, parents, modCol, positions, tris, cols)
    ensures PendingFrom(i + 1, stored, tris, cols)
    ensures AliveFrom(i + 1, stored, rows)
    ensures stored[i].filter != null ==> fresh(stored[i].filter.sharedMesh)
    ensures forall j :: 0 <= j < i && stored[j].filter != null ==>
              stored[j].filter.sharedMesh == old(stored[j].filter.sharedMesh)
  {
    assert PendingFrom(i + 1, stored, tris, cols);
    SeparateAt(i, stored, rows, parents);
    var objFilter := stored[i].filter;
    if objFilter != null {
      RestoreOne(stored[i], objFilter, rows[i], parents[i], modCol, positions[i]);
    }
    AliveKept(i, stored, rows, parents);
    RestoredKept(i, stored, rows, parents, modCol, positions, tris, cols);
    RestoredSnoc(i, stored, rows, parents, modCol, positions, tris, cols);
    PendingKept(i + 1, stored, tris, cols);
  }

  /** The objects restored so far stay restored while a later one is. */
  twostate lemma RestoredKept(n: nat, new stored: seq<GameObject>, new rows: seq<seq<GameObject>>,
                              new parents: seq<GameObject>, new modCol: bool, new positions: seq<seq<Vec3>>,
                              new tris: seq<seq<int>>, new cols: seq<seq<Collider>>)
    requires old(allocated(stored)) && old(allocated(rows)) && old(allocated(parents))
    requires old(allocated(positions)) && old(allocated(tris)) && old(allocated(cols))
    requires n <= |stored| && n <= |rows| && n <= |parents|
    requires old(RestoredUpTo(n, stored, rows, parents, modCol, positions, tris, cols))
    requires unchanged(ObjectSet(stored[..n])`active, ObjectSet(stored[..n])`colliders, FilterSet(stored[..n])`sharedMesh)
    requires unchanged(old(MeshSet(stored[..n]))`vertices, old(MeshSet(stored[..n]))`triangles)
    requires unchanged(old(MeshSet(stored[..n]))`name, TransformSet(stored[..n])`position)
    requires forall o :: o in ObjectSet(parents[..n]) + RowSet(rows[..n]) && old(o.destroyed) ==> o.destroyed
    ensures RestoredUpTo(n, stored, rows, parents, modCol, positions, tris, cols)
  {
  }

  /** One more stored object restored. */
  lemma RestoredSnoc(i: nat, stored: seq<GameObject>, rows: seq<seq<GameObject>>, parents: seq<GameObject>,
                     modCol: bool, positions: seq<seq<Vec3>>, tris: seq<seq<int>>, cols: seq<seq<Collider>>)
    requires i < |stored| && i < |rows| && i < |parents| && i < |positions| && i < |tris| && i < |cols|
    requires RestoredUpTo(i, stored, rows, parents, modCol, positions, tris, cols)
    requires stored[i].filter != null ==>
               var m := stored[i].filter.sharedMesh;
               && m != null
               && m.vertices == Committed(positions[i], stored[i].transform.position)
               && m.triangles == tris[i]
               && m.name == stored[i].name
               && stored[i].active
               && stored[i].colliders == cols[i] + (if modCol then [MeshCollider(m)] else [])
               && parents[i].destroyed
               && forall h :: h in rows[i] ==> h.destroyed
    ensures RestoredUpTo(i + 1, stored, rows, parents, modCol, positions, tris, cols)
  {
  }

  /** The objects not yet restored stay untouched while an earlier one is. */
  twostate lemma PendingKept(n: nat, new stored: seq<GameObject>, new tris: seq<seq<int>>, new cols: seq<seq<Collider>>)
    requires old(allocated(stored)) && old(allocated(tris)) && old(allocated(cols))
    requires n <= |stored|
    requires old(PendingFrom(n, stored, tris, cols))
    requires unchanged(ObjectSet(stored[n..])`colliders, FilterSet(stored[n..])`sharedMesh)
    requires unchanged(old(MeshSet(stored[n..]))`triangles)
    ensures PendingFrom(n, stored, tris, cols)
  {
  }

  /** `filters` and `renderers` are the components of `objs`, index by index. */
  predicate ComponentsOf(objs: seq<GameObject>, filters: seq<MeshFilter>, renderers: seq<MeshRenderer>) {
    && |filters| == |objs| && |renderers| == |objs|
    && forall i :: 0 <= i < |objs| ==> filters[i] == objs[i].filter && renderers[i] == objs[i].renderer
  }

  /** The filter loop of `DissolveObjects`: keep, in order, the selected
      objects that have a mesh filter and a mesh renderer, with their
      filters and renderers, and hide each object kept. */
  method GatherEditable(selection: seq<GameObject>)
    returns (objs: seq<GameObject>, filters: seq<MeshFilter>, renderers: seq<MeshRenderer>)
    requires Dissolvable(selection)
    modifies ObjectSet(selection)`active
    ensures objs == EditableObjects(selection)
    ensures ComponentsOf(objs, filters, renderers)
    ensures Distinct(objs) && forall o :: o in objs ==> !o.destroyed
    ensures forall i :: 0 <= i < |objs| ==> filters[i].sharedMesh != null
    ensures forall i, j :: 0 <= i < j < |objs| ==> filters[i] != filters[j]
    ensures forall j :: 0 <= j < |selection| ==> selection[j].active == (old(selection[j].active) && !HasMesh(selection[j]))
    ensures forall o :: o in selection ==> o.active == (old(o.active) && !HasMesh(o))
  {
    objs, filters, renderers := [], [], [];
    for i := 0 to |selection|
      invariant objs == EditableObjects(selection[..i])
      invariant ComponentsOf(objs, filters, renderers)
      invariant forall j :: 0 <= j < |selection| ==>
                  selection[j].active == (old(selection[j].active) && !(j < i && HasMesh(selection[j])))
    {
      objs, filters, renderers := GatherOne(selection, i, objs, filters, renderers);
    }
    assert selection[..|selection|] == selection;
    forall o | o in selection ensures o.active == (old(o.active) && !HasMesh(o)) {
      var j :| 0 <= j < |selection| && selection[j] == o;
    }
    EditableMembers(selection);
    EditableDistinct(selection);
    assert forall i :: 0 <= i < |objs| ==> objs[i] in objs;
  }

  /** One step of the filter loop: object `i` is kept and hidden exactly
      when it has a mesh filter and a mesh renderer. */
  method GatherOne(selection: seq<GameObject>, i: nat,
                   objs: seq<GameObject>, filters: seq<MeshFilter>, renderers: seq<MeshRenderer>)
    returns (objs': seq<GameObject>, filters': seq<MeshFilter>, renderers': seq<MeshRenderer>)
    requires i < |selection| && Distinct(selection)
    requires objs == EditableObjects(selection[..i]) && ComponentsOf(objs, filters, renderers)
    modifies ObjectSet([selection[i]])`active
    ensures objs' == EditableObjects(selection[..i + 1]) && ComponentsOf(objs', filters', renderers')
    ensures selection[i].active == (old(selection[i].active) && !HasMesh(selection[i]))
  {
    var o := selection[i];
    objs', filters', renderers' := objs, filters, renderers;
    var objFilter, objRenderer := o.filter, o.renderer;
    if objFilter != null && objRenderer != null {
      var f: MeshFilter, r: MeshRenderer := objFilter, objRenderer;
      objs', filters', renderers' := objs + [o], filters + [f], renderers + [r];
      o.SetActive(false);
    }
    assert selection[..i + 1] == selection[..i] + [o];
    EditableSnoc(selection[..i], o);
  }

  /** The character of a decimal digit. */
  function Digit(d: nat): (c: char)
    requires d < 10
    ensures '0' <= c <= '9'
  {
    "0123456789"[d]
  }

  /** `n` in decimal, as `int.ToString()` writes a non-negative number:
      digits only, and at least two of them from ten on. */
  function NatString(n: nat): (r: string)
    ensures |r| >= 1 && (n >= 10 <==> |r| >= 2)
    ensures forall c :: c in r ==> '0' <= c <= '9'
    decreases n
  {
    if n < 10 then [Digit(n)] else NatString(n / 10) + [Digit(n % 10)]
  }

  /** Different numbers are written differently. */
  lemma {:induction false} NatStringInjective(a: nat, b: nat)
    requires NatString(a) == NatString(b)
    ensures a == b
    decreases a
  {
    if a >= 10 {
      var sa, sb := NatString(a), NatString(b);
      assert sa[..|sa| - 1] == NatString(a / 10);
      assert sb[..|sb| - 1] == NatString(b / 10);
      NatStringInjective(a / 10, b / 10);
      assert "0123456789"[a % 10] == "0123456789"[b % 10];
    }
  }

  /** The name of handle `v` of mesh `k`. */
  function HandleName(k: nat, v: nat): string {
    "Vert[" + NatString(k) + "][" + NatString(v) + "]"
  }

  /** The position of the first `]` in `s`, or `|s|` if there is none. */
  function IndexOfClose(s: string): (r: nat)
    ensures r <= |s|
    ensures forall i :: 0 <= i < r ==> s[i] != ']'
    ensures r < |s| ==> s[r] == ']'
  {
    if |s| == 0 || s[0] == ']' then 0 else 1 + IndexOfClose(s[1..])
  }

  /** In a run of digits followed by `]`, the first `]` ends the run. */
  lemma {:induction false} CloseAfterDigits(a: string, rest: string)
    requires forall c :: c in a ==> '0' <= c <= '9'
    ensures IndexOfClose(a + "]" + rest) == |a|
    decreases |a|
  {
    if |a| > 0 {
      assert a[0] in a;
      assert forall c :: c in a[1..] ==> c in a;
      assert (a + "]" + rest)[1..] == a[1..] + "]" + rest;
      CloseAfterDigits(a[1..], rest);
    }
  }

  /** A handle name past its `Vert[` prefix: the mesh number, `]`, then
      the bracketed vertex number. */
  lemma HandleNameTail(k: nat, v: nat)
    ensures HandleName(k, v)[5..] == NatString(k) + "]" + ("[" + NatString(v) + "]")
  {
  }

  /** No two handles of a dissolve get the same name. */
  lemma HandleNameInjective(k: nat, v: nat, k': nat, v': nat)
    requires HandleName(k, v) == HandleName(k', v')
    ensures k == k' && v == v'
  {
    var a, a' := NatString(k), NatString(k');
    var r, r' := "[" + NatString(v) + "]", "[" + NatString(v') + "]";
    var t := HandleName(k, v)[5..];
    HandleNameTail(k, v);
    HandleNameTail(k', v');
    assert t == a + "]" + r == a' + "]" + r';
    CloseAfterDigits(a, r);
    CloseAfterDigits(a', r');
    assert a == t[..|a|] == a';
    NatStringInjective(k, k');
    assert r == t[|a| + 1..] == r';
    assert NatString(v) == r[1..|r| - 1] == NatString(v');
    NatStringInjective(v, v');
  }

  /** `h` is handle `v` of mesh `k`, for the vertex `vtx` of an object at
      `origin`: it is named after `k` and `v`, hangs under `parent`, stands
      at `origin + vtx` and carries a handle component that is initialised,
      clean, has index `k`, offset `origin` and rest position `vtx`, and
      shows `sprite`. */
  ghost predicate HandleAt(h: GameObject, k: nat, v: nat, origin: Vec3, vtx: Vec3, parent: Transform, sprite: Option<Sprite>)
    reads h`vertex, h`active, h`destroyed, h.transform`parent, h.transform`position
    reads HandlesOf([h])`init, HandlesOf([h])`dirty, HandlesOf([h])`index, HandlesOf([h])`prevPos
    reads HandlesOf([h])`offset, HandlesOf([h])`sprRender
  {
    && h.name == HandleName(k, v)
    && h.transform.parent == parent
    && h.transform.position == Add(origin, vtx)
    && h.active && !h.destroyed
    && h.vertex != null
    && h.vertex.transform == h.transform
    && h.vertex.sprRender == sprite
    && h.vertex.State() == HandleState(true, false, k, vtx, origin)
  }

  /** `hs` are the handles of mesh `k` laid out over the vertices `vs` of an
      object at `origin`, in vertex order. */
  ghost predicate HandleRow(hs: seq<GameObject>, k: nat, origin: Vec3, vs: seq<Vec3>, parent: Transform, sprite: Option<Sprite>)
    reads ObjectSet(hs)`vertex, ObjectSet(hs)`active, ObjectSet(hs)`destroyed
    reads TransformSet(hs)`parent, TransformSet(hs)`position
    reads HandlesOf(hs)`init, HandlesOf(hs)`dirty, HandlesOf(hs)`index, HandlesOf(hs)`prevPos
    reads HandlesOf(hs)`offset, HandlesOf(hs)`sprRender
  {
    && |hs| == |vs|
    && forall v :: 0 <= v < |hs| ==> HandleAt(hs[v], k, v, origin, vs[v], parent, sprite)
  }

  /** No handle object and no handle component occurs twice in `hs`. */
  ghost predicate DistinctHandles(hs: seq<GameObject>)
    reads ObjectSet(hs)`vertex
  {
    forall v, w :: 0 <= v < w < |hs| ==> hs[v] != hs[w] && hs[v].vertex != hs[w].vertex
  }

  /** The body of the handle loop of `DissolveObjects`: a new object with a
      handle component, placed at the object's position plus the vertex and
      initialised with that position as offset. */
  method NewHandle(k: nat, v: nat, origin: Vec3, vtx: Vec3, parent: Transform, sprite: Option<Sprite>)
    returns (h: GameObject)
    ensures fresh(h) && fresh(h.transform) && fresh(h.vertex)
    ensures HandleAt(h, k, v, origin, vtx, parent, sprite)
  {
    h := new GameObject(HandleName(k, v), null, null);
    var vertScript := new VertexObj(h.transform, sprite);
    h.vertex := vertScript;
    h.transform.parent := parent;
    h.transform.position := Add(origin, vtx);
    vertScript.Init(origin, k);
    SubAddCancel(origin, vtx);
  }

  /** The handle loop of `DissolveObjects` for mesh `k`: one new handle per
      vertex. `sprite` is what the sprite renderer of a new handle shows. */
  method BuildHandles(k: nat, origin: Vec3, vs: seq<Vec3>, parent: Transform, sprite: Option<Sprite>)
    returns (hs: seq<GameObject>)
    ensures HandleRow(hs, k, origin, vs, parent, sprite)
    ensures DistinctHandles(hs)
    ensures forall v :: 0 <= v < |hs| ==> fresh(hs[v]) && fresh(hs[v].transform) && fresh(hs[v].vertex)
  {
    hs := [];
    for v := 0 to |vs|
      invariant HandleRow(hs, k, origin, vs[..v], parent, sprite)
      invariant DistinctHandles(hs)
      invariant forall w :: 0 <= w < |hs| ==> fresh(hs[w]) && fresh(hs[w].transform) && fresh(hs[w].vertex)
    {
      var tempObj := NextHandle(k, v, origin, vs, parent, sprite, hs);
      hs := hs + [tempObj];
    }
    assert vs[..|vs|] == vs;
  }

  /** Handle `v` of mesh `k`, after the handles `hs` of the vertices before
      it. */
  method NextHandle(k: nat, v: nat, origin: Vec3, vs: seq<Vec3>, parent: Transform, sprite: Option<Sprite>,
                    hs: seq<GameObject>)
    returns (h: GameObject)
    requires v < |vs| && HandleRow(hs, k, origin, vs[..v], parent, sprite) && DistinctHandles(hs)
    ensures HandleRow(hs + [h], k, origin, vs[..v + 1], parent, sprite) && DistinctHandles(hs + [h])
    ensures fresh(h) && fresh(h.transform) && fresh(h.vertex)
  {
    h := NewHandle(k, v, origin, vs[v], parent, sprite);
    assert HandleRow(hs, k, origin, vs[..v], parent, sprite);
    assert vs[..v + 1] == vs[..v] + [vs[v]];
  }

  /** `parent` and `script` are the stand-in made for mesh `i`, the mesh of
      `o` with vertices `vs` and triangles `ts`: named after `o`, placed at
      its position and visible. With the mesh shown, the stand-in draws a
      copy of the mesh and its script holds index `i` and that copy;
      otherwise it has no mesh components and its script is as created. */
  ghost predicate StandInAt(parent: GameObject, script: ParentObj, i: nat, o: GameObject, vs: seq<Vec3>, ts: seq<int>,
                            showMesh: bool)
    reads parent`active, parent`destroyed, parent.transform`position, o.transform`position
    reads FilterSet([parent])`sharedMesh, script`index, script`mesh
    reads (if parent.filter != null then {parent.filter.sharedMesh} else {})`vertices
    reads (if parent.filter != null then {parent.filter.sharedMesh} else {})`triangles
  {
    && parent.name == o.name + PARENT_SUFFIX
    && parent.transform.position == o.transform.position
    && parent.active && !parent.destroyed
    && if showMesh then
         && parent.filter != null && parent.renderer != null
         && var m := parent.filter.sharedMesh;
            && m != null && m.vertices == vs && m.triangles == ts
            && script.index == i && script.mesh == m
       else
         && parent.filter == null && parent.renderer == null
         && script.index == -1 && script.mesh == null
  }

  /** The body of the first loop of `DissolveObjects` for the stored object
      `o` with filter `filter`: remove its colliders when the collision mesh
      is being rebuilt, copy its mesh, keep the copy's vertices and
      triangles, and make its stand-in. */
  method NewStandIn(i: nat, o: GameObject, filter: MeshFilter, modCol: bool, showMesh: bool)
    returns (parent: GameObject, script: ParentObj, vs: seq<Vec3>, ts: seq<int>)
    requires filter.sharedMesh != null
    modifies o`colliders
    ensures o.colliders == if modCol then [] else old(o.colliders)
    ensures vs == filter.sharedMesh.vertices && ts == filter.sharedMesh.triangles
    ensures fresh(parent) && fresh(parent.transform) && fresh(script)
    ensures parent.filter != null ==> fresh(parent.filter) && fresh(parent.filter.sharedMesh)
    ensures StandInAt(parent, script, i, o, vs, ts, showMesh)
  {
    if modCol {
      o.colliders := [];
    }
    var objMesh := new Mesh.Instantiate(filter.sharedMesh);
    vs := objMesh.vertices;
    ts := objMesh.triangles;
    var editFilter: MeshFilter? := null;
    var editRender: MeshRenderer? := null;
    if showMesh {
      editFilter := new MeshFilter(objMesh);
      editRender := new MeshRenderer();
    }
    parent := new GameObject(o.name + PARENT_SUFFIX, editFilter, editRender);
    parent.transform.position := o.transform.position;
    script := new ParentObj();
    if showMesh {
      script.Init(i, objMesh);
    }
  }

  /** The first loop of `DissolveObjects`, over the stored objects `stored`
      with filters `filters`: a stand-in per object, the vertices and
      triangles of each mesh, and, with the mesh shown, the stand-ins'
      filters. */
  method BuildParents(stored: seq<GameObject>, filters: seq<MeshFilter>, modCol: bool, showMesh: bool)
    returns (parents: seq<GameObject>, scripts: seq<ParentObj>, editFilters: seq<MeshFilter>,
             vertVects: seq<seq<Vec3>>, tris: seq<seq<int>>)
    requires |filters| == |stored| && Distinct(stored)
    requires forall i :: 0 <= i < |stored| ==> stored[i].filter == filters[i] && filters[i].sharedMesh != null
    modifies ObjectSet(stored)`colliders
    ensures Captured(stored, vertVects, tris)
    ensures StandIns(stored, parents, scripts, vertVects, tris, showMesh)
    ensures |editFilters| == (if showMesh then |stored| else 0)
    ensures forall i :: 0 <= i < |editFilters| ==> editFilters[i] == parents[i].filter
    ensures forall i :: 0 <= i < |stored| ==> fresh(scripts[i]) && fresh(parents[i])
    ensures forall i :: 0 <= i < |editFilters| ==> fresh(editFilters[i])
    ensures Distinct(scripts)
    ensures forall o :: o in stored ==> o.colliders == if modCol then [] else old(o.colliders)
  {
    parents, scripts, editFilters, vertVects, tris := [], [], [], [], [];
    for i := 0 to |stored|
      invariant Captured(stored[..i], vertVects, tris)
      invariant StandIns(stored[..i], parents, scripts, vertVects, tris, showMesh)
      invariant |editFilters| == (if showMesh then i else 0)
      invariant forall j :: 0 <= j < |editFilters| ==> editFilters[j] == parents[j].filter
      invariant forall j :: 0 <= j < |scripts| ==> fresh(scripts[j])
      invariant forall j :: 0 <= j < |parents| ==> fresh(parents[j])
      invariant forall j :: 0 <= j < |editFilters| ==> fresh(editFilters[j])
      invariant Distinct(scripts)
      invariant forall j :: 0 <= j < |stored| ==>
                  stored[j].colliders == if modCol && j < i then [] else old(stored[j].colliders)
    {
      parents, scripts, editFilters, vertVects, tris :=
        NextStandIn(stored, i, parents, scripts, editFilters, vertVects, tris, modCol, showMesh);
    }
    assert stored[..|stored|] == stored;
    forall o | o in stored ensures o.colliders == if modCol then [] else old(o.colliders) {
      var k :| 0 <= k < |stored| && stored[k] == o;
    }
  }

  /** The stand-in of stored object `i` appended to those made so far, and
      its mesh to those captured so far. */
  method NextStandIn(stored: seq<GameObject>, i: nat, parents: seq<GameObject>, scripts: seq<ParentObj>,
                     editFilters: seq<MeshFilter>, vertVects: seq<seq<Vec3>>, tris: seq<seq<int>>,
                     modCol: bool, showMesh: bool)
    returns (parents': seq<GameObject>, scripts': seq<ParentObj>, editFilters': seq<MeshFilter>,
             vertVects': seq<seq<Vec3>>, tris': seq<seq<int>>)
    requires i < |stored| && stored[i].filter != null && stored[i].filter.sharedMesh != null
    requires Captured(stored[..i], vertVects, tris)
    requires StandIns(stored[..i], parents, scripts, vertVects, tris, showMesh)
    requires |editFilters| == (if showMesh then i else 0)
    requires forall j :: 0 <= j < |editFilters| ==> editFilters[j] == parents[j].filter
    requires Distinct(scripts)
    modifies ObjectSet([stored[i]])`colliders
    ensures Captured(stored[..i + 1], vertVects', tris')
    ensures StandIns(stored[..i + 1], parents', scripts', vertVects', tris', showMesh)
    ensures |editFilters'| == (if showMesh then i + 1 else 0)
    ensures forall j :: 0 <= j < |editFilters'| ==> editFilters'[j] == parents'[j].filter
    ensures scripts' == scripts + [scripts'[i]] && fresh(scripts'[i]) && Distinct(scripts')
    ensures parents' == parents + [parents'[i]] && fresh(parents'[i]) && fresh(parents'[i].transform)
    ensures parents'[i].filter != null ==> fresh(parents'[i].filter) && fresh(parents'[i].filter.sharedMesh)
    ensures stored[i].colliders == if modCol then [] else old(stored[i].colliders)
  {
    var parent, script, vs, ts := NewStandIn(i, stored[i], stored[i].filter, modCol, showMesh);
    CapturedSnoc(stored, i, vertVects, tris, vs, ts);
    StandInsSnoc(stored, i, parents, scripts, vertVects, tris, parent, script, vs, ts, showMesh);
    parents', scripts', vertVects', tris' := parents + [parent], scripts + [script], vertVects + [vs], tris + [ts];
    editFilters' := editFilters;
    if showMesh {
      var editFilter: MeshFilter := parent.filter;
      editFilters' := editFilters + [editFilter];
    }
  }

  /** One more stored object whose mesh is captured. */
  lemma CapturedSnoc(stored: seq<GameObject>, i: nat, vertVects: seq<seq<Vec3>>, tris: seq<seq<int>>,
                     vs: seq<Vec3>, ts: seq<int>)
    requires i < |stored| && Captured(stored[..i], vertVects, tris)
    requires stored[i].filter != null && stored[i].filter.sharedMesh != null
    requires vs == stored[i].filter.sharedMesh.vertices && ts == stored[i].filter.sharedMesh.triangles
    ensures Captured(stored[..i + 1], vertVects + [vs], tris + [ts])
  {
    assert forall k :: 0 <= k < i ==> stored[..i + 1][k] == stored[..i][k];
  }

  /** One more stand-in, made for stored object `i`. */
  lemma StandInsSnoc(stored: seq<GameObject>, i: nat, parents: seq<GameObject>, scripts: seq<ParentObj>,
                     vertVects: seq<seq<Vec3>>, tris: seq<seq<int>>,
                     parent: GameObject, script: ParentObj, vs: seq<Vec3>, ts: seq<int>, showMesh: bool)
    requires i < |stored| && StandIns(stored[..i], parents, scripts, vertVects, tris, showMesh)
    requires StandInAt(parent, script, i, stored[i], vs, ts, showMesh)
    ensures StandIns(stored[..i + 1], parents + [parent], scripts + [script], vertVects + [vs], tris + [ts], showMesh)
  {
    assert forall k :: 0 <= k < i ==> stored[..i + 1][k] == stored[..i][k];
  }

  /** The scripts of `scripts`, as a set, for frames. */
  function ScriptSet(scripts: seq<ParentObj>): set<ParentObj> {
    set s | s in scripts
  }

  /** `script` holds the handles `hs` and, index by index, their handle
      components. */
  ghost predicate Assigned(script: ParentObj, hs: seq<GameObject>)
    reads script`vertObjs, script`verts, script.verts, ObjectSet(hs)`vertex
  {
    && script.vertObjs == hs
    && script.verts != null && script.verts.Length == |hs|
    && forall v :: 0 <= v < |hs| ==> script.verts[v] == hs[v].vertex
  }

  /** The body of the second loop of `DissolveObjects` for mesh `k`: its
      handles, handed to the stand-in's script. */
  method BuildRow(k: nat, stored: seq<GameObject>, parents: seq<GameObject>, scripts: seq<ParentObj>,
                  vertVects: seq<seq<Vec3>>, sprite: Option<Sprite>, ghost tris: seq<seq<int>>, ghost showMesh: bool,
                  ghost rows: seq<seq<GameObject>>)
    returns (hs: seq<GameObject>)
    requires k < |stored| && Distinct(scripts)
    requires StandIns(stored, parents, scripts, vertVects, tris, showMesh) && Captured(stored, vertVects, tris)
    requires LaidUpTo(k, stored, parents, vertVects, rows, sprite) && AssignedUpTo(k, scripts, rows)
    modifies ScriptSet(scripts)`vertObjs, ScriptSet(scripts)`verts
    ensures StandIns(stored, parents, scripts, vertVects, tris, showMesh) && Captured(stored, vertVects, tris)
    ensures LaidUpTo(k + 1, stored, parents, vertVects, rows + [hs], sprite)
    ensures AssignedUpTo(k + 1, scripts, rows + [hs])
    ensures Distinct(hs) && forall h :: h in hs ==> fresh(h) && fresh(h.transform) && fresh(h.vertex)
  {
    hs := BuildHandles(k, stored[k].transform.position, vertVects[k], parents[k].transform, sprite);
    LaidSnoc(k, stored, parents, vertVects, rows, hs, sprite);
    HandOver(k, stored, parents, scripts, vertVects, sprite, tris, showMesh, rows, hs);
  }

  /** `AssignVerts` for mesh `k`: the captured meshes and the stand-ins are
      described by state the call leaves alone. `HandOver`, `KeepLaid` and
      `AssignRow` are one call of the source, split so that each proof
      carries only one or two of the session predicates across it. */
  method HandOver(k: nat, stored: seq<GameObject>, parents: seq<GameObject>, scripts: seq<ParentObj>,
                  vertVects: seq<seq<Vec3>>, sprite: Option<Sprite>, ghost tris: seq<seq<int>>, ghost showMesh: bool,
                  ghost rows: seq<seq<GameObject>>, hs: seq<GameObject>)
    requires k < |scripts| && Distinct(scripts)
    requires StandIns(stored, parents, scripts, vertVects, tris, showMesh) && Captured(stored, vertVects, tris)
    requires LaidUpTo(k + 1, stored, parents, vertVects, rows + [hs], sprite) && AssignedUpTo(k, scripts, rows)
    modifies ScriptSet(scripts)`vertObjs, ScriptSet(scripts)`verts
    ensures StandIns(stored, parents, scripts, vertVects, tris, showMesh) && Captured(stored, vertVects, tris)
    ensures LaidUpTo(k + 1, stored, parents, vertVects, rows + [hs], sprite)
    ensures AssignedUpTo(k + 1, scripts, rows + [hs])
  {
    KeepLaid(k, stored, parents, scripts, vertVects, sprite, rows, hs);
    CapturedKept(stored, vertVects, tris);
    StandInsKept(stored, parents, scripts, vertVects, tris, showMesh);
  }

  /** The captured meshes are described by the stored objects' filters and
      meshes alone. */
  twostate lemma CapturedKept(new stored: seq<GameObject>, new vertVects: seq<seq<Vec3>>, new tris: seq<seq<int>>)
    requires old(allocated(stored)) && old(allocated(vertVects)) && old(allocated(tris))
    requires old(Captured(stored, vertVects, tris))
    requires unchanged(FilterSet(stored)`sharedMesh, old(MeshSet(stored))`vertices, old(MeshSet(stored))`triangles)
    ensures Captured(stored, vertVects, tris)
  {
  }

  /** The stand-ins are described by their objects, transforms, meshes and
      script indices alone. */
  twostate lemma StandInsKept(new stored: seq<GameObject>, new parents: seq<GameObject>, new scripts: seq<ParentObj>,
                              new vertVects: seq<seq<Vec3>>, new tris: seq<seq<int>>, new showMesh: bool)
    requires old(allocated(stored)) && old(allocated(parents)) && old(allocated(scripts))
    requires old(allocated(vertVects)) && old(allocated(tris))
    requires old(StandIns(stored, parents, scripts, vertVects, tris, showMesh))
    requires unchanged(ObjectSet(parents)`active, ObjectSet(parents)`destroyed, TransformSet(parents)`position)
    requires unchanged(TransformSet(stored)`position, FilterSet(parents)`sharedMesh)
    requires unchanged(old(MeshSet(parents))`vertices, old(MeshSet(parents))`triangles)
    requires unchanged(ScriptSet(scripts)`index, ScriptSet(scripts)`mesh)
    ensures StandIns(stored, parents, scripts, vertVects, tris, showMesh)
  {
  }

  /** `AssignVerts` for mesh `k`: the handles laid out so far are described
      by state the call leaves alone. */
  method KeepLaid(k: nat, stored: seq<GameObject>, parents: seq<GameObject>, scripts: seq<ParentObj>,
                  vertVects: seq<seq<Vec3>>, sprite: Option<Sprite>, ghost rows: seq<seq<GameObject>>,
                  hs: seq<GameObject>)
    requires k < |scripts| && Distinct(scripts)
    requires LaidUpTo(k + 1, stored, parents, vertVects, rows + [hs], sprite) && AssignedUpTo(k, scripts, rows)
    modifies ScriptSet(scripts)`vertObjs, ScriptSet(scripts)`verts
    ensures LaidUpTo(k + 1, stored, parents, vertVects, rows + [hs], sprite)
    ensures AssignedUpTo(k + 1, scripts, rows + [hs])
  {
    AssignRow(k, scripts, rows, hs);
    LaidKept(k + 1, stored, parents, vertVects, rows + [hs], sprite);
  }

  /** The handles laid out so far are described by state that a change to
      the scripts' handle fields leaves alone. */
  twostate lemma LaidKept(n: nat, new stored: seq<GameObject>, new parents: seq<GameObject>,
                          new vertVects: seq<seq<Vec3>>, new rows: seq<seq<GameObject>>, new sprite: Option<Sprite>)
    requires old(allocated(stored)) && old(allocated(parents)) && old(allocated(vertVects))
    requires old(allocated(rows)) && old(allocated(sprite))
    requires old(LaidUpTo(n, stored, parents, vertVects, rows, sprite))
    requires unchanged(RowSet(rows), RowTransforms(rows), old(RowVertices(rows)), TransformSet(stored))
    ensures LaidUpTo(n, stored, parents, vertVects, rows, sprite)
  {
  }

  /** `AssignVerts` for mesh `k`: its script takes the new row, and the
      scripts before it keep theirs. */
  method AssignRow(k: nat, scripts: seq<ParentObj>, ghost rows: seq<seq<GameObject>>, hs: seq<GameObject>)
    requires k < |scripts| && Distinct(scripts) && AssignedUpTo(k, scripts, rows)
    modifies ScriptSet(scripts)`vertObjs, ScriptSet(scripts)`verts
    ensures AssignedUpTo(k + 1, scripts, rows + [hs])
  {
    scripts[k].AssignVerts(hs);
    AssignedSnoc(k, scripts, rows, hs);
  }

  /** One more row of handles, laid out for mesh `k`. */
  lemma LaidSnoc(k: nat, stored: seq<GameObject>, parents: seq<GameObject>, vertVects: seq<seq<Vec3>>,
                 rows: seq<seq<GameObject>>, hs: seq<GameObject>, sprite: Option<Sprite>)
    requires LaidUpTo(k, stored, parents, vertVects, rows, sprite) && k < |stored|
    requires HandleRow(hs, k, stored[k].transform.position, vertVects[k], parents[k].transform, sprite)
    requires DistinctHandles(hs)
    ensures LaidUpTo(k + 1, stored, parents, vertVects, rows + [hs], sprite)
  {
    forall j | 0 <= j < k + 1
      ensures HandleRow((rows + [hs])[j], j, stored[j].transform.position, vertVects[j], parents[j].transform, sprite)
      ensures DistinctHandles((rows + [hs])[j])
    {
      if j < k {
        assert (rows + [hs])[j] == rows[j];
      }
    }
  }

  /** One more script, holding the row of handles of mesh `k`. */
  lemma AssignedSnoc(k: nat, scripts: seq<ParentObj>, rows: seq<seq<GameObject>>, hs: seq<GameObject>)
    requires k < |scripts| && AssignedUpTo(k, scripts, rows) && Assigned(scripts[k], hs)
    ensures AssignedUpTo(k + 1, scripts, rows + [hs])
  {
    forall j | 0 <= j < k + 1 ensures Assigned(scripts[j], (rows + [hs])[j]) {
      if j < k {
        assert (rows + [hs])[j] == rows[j];
      }
    }
  }

  /** The second loop of `DissolveObjects`: the handles of each mesh `k`,
      laid out over its vertices `vertVects[k]` at the position of
      `stored[k]` under the stand-in `parents[k]`, and handed to the stand-in's
      script. */
  method BuildRows(stored: seq<GameObject>, parents: seq<GameObject>, scripts: seq<ParentObj>,
                   vertVects: seq<seq<Vec3>>, sprite: Option<Sprite>, ghost tris: seq<seq<int>>, ghost showMesh: bool)
    returns (rows: seq<seq<GameObject>>)
    requires Distinct(scripts)
    requires StandIns(stored, parents, scripts, vertVects, tris, showMesh) && Captured(stored, vertVects, tris)
    requires forall i, j :: 0 <= i < |parents| && 0 <= j < |stored| ==> stored[j] != parents[i]
    requires forall o :: o in stored ==> !o.destroyed
    modifies ScriptSet(scripts)`vertObjs, ScriptSet(scripts)`verts
    ensures StandIns(stored, parents, scripts, vertVects, tris, showMesh) && Captured(stored, vertVects, tris)
    ensures LaidUpTo(|stored|, stored, parents, vertVects, rows, sprite)
    ensures AssignedUpTo(|stored|, scripts, rows)
    ensures Partitioned(rows) && forall h :: h in RowSet(rows) ==> fresh(h) && fresh(h.transform) && fresh(h.vertex)
    ensures Separate(stored, rows, parents) && AliveFrom(0, stored, rows)
  {
    rows := [];
    for k := 0 to |stored|
      invariant StandIns(stored, parents, scripts, vertVects, tris, showMesh) && Captured(stored, vertVects, tris)
      invariant LaidUpTo(k, stored, parents, vertVects, rows, sprite) && AssignedUpTo(k, scripts, rows)
      invariant Partitioned(rows) && forall h :: h in RowSet(rows) ==> fresh(h) && fresh(h.transform) && fresh(h.vertex)
    {
      var hs := BuildRow(k, stored, parents, scripts, vertVects, sprite, tris, showMesh, rows);
      PartitionedSnoc(rows, hs);
      rows := rows + [hs];
    }
    LaidAlive(|stored|, stored, parents, vertVects, rows, sprite);
  }

  /** A row of new handles, none of them in an earlier row, keeps the rows
      partitioned. */
  lemma PartitionedSnoc(rows: seq<seq<GameObject>>, hs: seq<GameObject>)
    requires Partitioned(rows) && Distinct(hs) && forall h :: h in hs ==> h !in RowSet(rows)
    ensures Partitioned(rows + [hs])
    ensures RowSet(rows + [hs]) == RowSet(rows) + ObjectSet(hs)
  {
    var rows' := rows + [hs];
    forall j, k, h | 0 <= j < k < |rows'| && h in rows'[k] ensures h !in rows'[j] {
      assert rows'[j] == rows[j];
      if k < |rows| {
        assert rows'[k] == rows[k];
      } else {
        assert h in hs;
        assert h in rows[j] ==> h in RowSet(rows);
      }
    }
    forall o | o in RowSet(rows') ensures o in RowSet(rows) + ObjectSet(hs) {
      var k :| 0 <= k < |rows'| && o in rows'[k];
      if k < |rows| {
        assert o in rows[k];
      }
    }
    forall o | o in RowSet(rows) ensures o in RowSet(rows') {
      var k :| 0 <= k < |rows| && o in rows[k];
      assert rows'[k] == rows[k];
    }
    assert forall o :: o in hs ==> o in rows'[|rows|];
  }

  /** Both loops of `DissolveObjects` over the stored objects: a stand-in
      per object, holding a copy of its mesh, and a row of handles per
      stand-in. */
  method LayOut(stored: seq<GameObject>, filters: seq<MeshFilter>, modCol: bool, showMesh: bool, sprite: Option<Sprite>)
    returns (parents: seq<GameObject>, scripts: seq<ParentObj>, editFilters: seq<MeshFilter>,
             vertVects: seq<seq<Vec3>>, tris: seq<seq<int>>, rows: seq<seq<GameObject>>)
    requires |filters| == |stored| && Distinct(stored)
    requires forall i :: 0 <= i < |stored| ==> stored[i].filter == filters[i] && filters[i].sharedMesh != null
    requires forall o :: o in stored ==> !o.destroyed
    modifies ObjectSet(stored)`colliders
    ensures Built(stored, parents, scripts, vertVects, tris, rows, showMesh, sprite)
    ensures |editFilters| == (if showMesh then |stored| else 0)
    ensures forall k :: 0 <= k < |editFilters| ==> editFilters[k] == parents[k].filter
    ensures forall o :: o in stored ==> o.colliders == if modCol then [] else old(o.colliders)
    ensures Separate(stored, rows, parents)
    ensures AliveFrom(0, stored, rows)
    ensures forall o: object :: Made(o, parents, scripts, editFilters, rows) ==> fresh(o)
  {
    parents, scripts, editFilters, vertVects, tris := BuildParents(stored, filters, modCol, showMesh);
    rows := BuildRows(stored, parents, scripts, vertVects, sprite, tris, showMesh);
  }

  /** The handles laid out are not destroyed, so with live stored objects
      the whole session is alive. */
  lemma LaidAlive(n: nat, stored: seq<GameObject>, parents: seq<GameObject>, vertVects: seq<seq<Vec3>>,
                  rows: seq<seq<GameObject>>, sprite: Option<Sprite>)
    requires LaidUpTo(n, stored, parents, vertVects, rows, sprite)
    ensures forall k, h :: 0 <= k < |rows| && h in rows[k] ==> !h.destroyed
    ensures (forall o :: o in stored ==> !o.destroyed) ==> AliveFrom(0, stored, rows)
  {
    forall k, h | 0 <= k < |rows| && h in rows[k] ensures !h.destroyed {
      var v :| 0 <= v < |rows[k]| && rows[k][v] == h;
      assert HandleAt(rows[k][v], k, v, stored[k].transform.position, vertVects[k][v], parents[k].transform, sprite);
    }
  }

  /** The scripts' handle arrays, for frames. */
  function HandleArrays(scripts: seq<ParentObj>): set<array<VertexObj?>>
    reads ScriptSet(scripts)`verts
  {
    set s | s in scripts && s.verts != null :: s.verts
  }

  /** The transforms of the handles of all rows, for frames. */
  function RowTransforms(rows: seq<seq<GameObject>>): set<Transform> {
    set i, o | 0 <= i < |rows| && o in rows[i] :: o.transform
  }

  /** `o` is one of the objects `DissolveObjects` creates: a stand-in, its
      script, its edit filter or a handle. */
  ghost predicate Made(o: object, parents: seq<GameObject>, scripts: seq<ParentObj>, editFilters: seq<MeshFilter>,
                       rows: seq<seq<GameObject>>)
  {
    o in parents || o in scripts || o in editFilters || o in RowSet(rows)
  }




  /** The handle components of the handles of all rows, for frames. */
  function RowVertices(rows: seq<seq<GameObject>>): set<VertexObj>
    reads RowSet(rows)`vertex
  {
    set i, o | 0 <= i < |rows| && o in rows[i] && o.vertex != null :: o.vertex
  }

  /** The vertices and triangles kept for each stored object are those of
      the mesh on its filter. */
  ghost predicate Captured(stored: seq<GameObject>, vertVects: seq<seq<Vec3>>, tris: seq<seq<int>>)
    reads FilterSet(stored)`sharedMesh, MeshSet(stored)`vertices, MeshSet(stored)`triangles
  {
    && |vertVects| == |stored| && |tris| == |stored|
    && forall k :: 0 <= k < |stored| ==>
         && stored[k].filter != null && stored[k].filter.sharedMesh != null
         && vertVects[k] == stored[k].filter.sharedMesh.vertices
         && tris[k] == stored[k].filter.sharedMesh.triangles
  }

  /** `parents[k]` and `scripts[k]` are the stand-in of mesh `k`. */
  ghost predicate StandIns(stored: seq<GameObject>, parents: seq<GameObject>, scripts: seq<ParentObj>,
                           vertVects: seq<seq<Vec3>>, tris: seq<seq<int>>, showMesh: bool)
    reads ObjectSet(parents)`active, ObjectSet(parents)`destroyed, TransformSet(parents)`position
    reads TransformSet(stored)`position, FilterSet(parents)`sharedMesh
    reads MeshSet(parents)`vertices, MeshSet(parents)`triangles, ScriptSet(scripts)`index, ScriptSet(scripts)`mesh
  {
    && |parents| == |scripts| == |vertVects| == |tris| == |stored|
    && forall k :: 0 <= k < |stored| ==>
         StandInAt(parents[k], scripts[k], k, stored[k], vertVects[k], tris[k], showMesh)
  }

  /** `rows[k]`, for each of the first `n` meshes `k`, are the handles of
      mesh `k`, laid out over `vertVects[k]` at the position of `stored[k]`
      under its stand-in `parents[k]`. */
  ghost predicate LaidUpTo(n: nat, stored: seq<GameObject>, parents: seq<GameObject>, vertVects: seq<seq<Vec3>>,
                           rows: seq<seq<GameObject>>, sprite: Option<Sprite>)
    reads RowSet(rows)`vertex, RowSet(rows)`active, RowSet(rows)`destroyed
    reads RowTransforms(rows)`parent, RowTransforms(rows)`position, TransformSet(stored)`position
    reads RowVertices(rows)`init, RowVertices(rows)`dirty, RowVertices(rows)`index, RowVertices(rows)`prevPos
    reads RowVertices(rows)`offset, RowVertices(rows)`sprRender
  {
    && |rows| == n <= |stored| && |parents| == |stored| && |vertVects| == |stored|
    && forall k :: 0 <= k < n ==>
         && HandleRow(rows[k], k, stored[k].transform.position, vertVects[k], parents[k].transform, sprite)
         && DistinctHandles(rows[k])
  }

  /** The script of each of the first `n` stand-ins holds the handles of its
      mesh. */
  ghost predicate AssignedUpTo(n: nat, scripts: seq<ParentObj>, rows: seq<seq<GameObject>>)
    requires n <= |scripts|
    reads ScriptSet(scripts[..n])`vertObjs, ScriptSet(scripts[..n])`verts, HandleArrays(scripts[..n])
    reads RowSet(rows)`vertex
  {
    && |rows| == n
    && forall k :: 0 <= k < n ==> Assigned(scripts[k], rows[k])
  }

  /** The whole edit session built from `stored`: the captured meshes, a
      stand-in per stored object, and its row of handles held by its script. */
  ghost predicate Built(stored: seq<GameObject>, parents: seq<GameObject>, scripts: seq<ParentObj>,
                        vertVects: seq<seq<Vec3>>, tris: seq<seq<int>>, rows: seq<seq<GameObject>>,
                        showMesh: bool, sprite: Option<Sprite>)
    reads FilterSet(stored)`sharedMesh, MeshSet(stored)`vertices, MeshSet(stored)`triangles
    reads ObjectSet(parents)`active, ObjectSet(parents)`destroyed, TransformSet(parents)`position
    reads TransformSet(stored)`position, FilterSet(parents)`sharedMesh
    reads MeshSet(parents)`vertices, MeshSet(parents)`triangles, ScriptSet(scripts)`index, ScriptSet(scripts)`mesh
    reads RowSet(rows)`vertex, RowSet(rows)`active, RowSet(rows)`destroyed
    reads RowTransforms(rows)`parent, RowTransforms(rows)`position
    reads RowVertices(rows)`init, RowVertices(rows)`dirty, RowVertices(rows)`index, RowVertices(rows)`prevPos
    reads RowVertices(rows)`offset, RowVertices(rows)`sprRender
    reads ScriptSet(scripts)`vertObjs, ScriptSet(scripts)`verts, HandleArrays(scripts)
  {
    && |scripts| == |stored|
    && Captured(stored, vertVects, tris)
    && StandIns(stored, parents, scripts, vertVects, tris, showMesh)
    && LaidUpTo(|stored|, stored, parents, vertVects, rows, sprite)
    && AssignedUpTo(|stored|, scripts, rows)
  }

  /** The dissolve/restore round trip: right after the session is built,
      the handles of mesh `k` stand at the object's position plus the
      captured vertices, so restoring from where they stand gives back the
      vertices of the object's mesh. */
  lemma BuiltRoundTrip(stored: seq<GameObject>, parents: seq<GameObject>, scripts: seq<ParentObj>,
                       vertVects: seq<seq<Vec3>>, tris: seq<seq<int>>, rows: seq<seq<GameObject>>,
                       showMesh: bool, sprite: Option<Sprite>, k: int)
    requires Built(stored, parents, scripts, vertVects, tris, rows, showMesh, sprite) && 0 <= k < |stored|
    ensures PositionsOf(rows[k]) == Placed(stored[k].transform.position, vertVects[k])
    ensures Committed(PositionsOf(rows[k]), stored[k].transform.position) == stored[k].filter.sharedMesh.vertices
  {
    var origin := stored[k].transform.position;
    assert HandleRow(rows[k], k, origin, vertVects[k], parents[k].transform, sprite);
    forall v | 0 <= v < |rows[k]| ensures PositionsOf(rows[k])[v] == Placed(origin, vertVects[k])[v] {
      assert HandleAt(rows[k][v], k, v, origin, vertVects[k][v], parents[k].transform, sprite);
    }
    RestoreUndoesDissolve(origin, vertVects[k]);
  }

  /** Right after the session is built every handle is clean, and an
      `Update` with the handle where it was placed keeps it so. */
  lemma BuiltHandlesAtRest(stored: seq<GameObject>, parents: seq<GameObject>, scripts: seq<ParentObj>,
                           vertVects: seq<seq<Vec3>>, tris: seq<seq<int>>, rows: seq<seq<GameObject>>,
                           showMesh: bool, sprite: Option<Sprite>, k: int, v: int)
    requires Built(stored, parents, scripts, vertVects, tris, rows, showMesh, sprite)
    requires 0 <= k < |stored| && 0 <= v < |rows[k]|
    ensures rows[k][v].vertex != null && !rows[k][v].vertex.dirty
    ensures Updated(rows[k][v].vertex.State(), rows[k][v].transform.position) == rows[k][v].vertex.State()
  {
    var origin := stored[k].transform.position;
    assert HandleRow(rows[k], k, origin, vertVects[k], parents[k].transform, sprite);
    assert HandleAt(rows[k][v], k, v, origin, vertVects[k][v], parents[k].transform, sprite);
    SubAddCancel(origin, vertVects[k][v]);
  }

  /** With the mesh shown, a stand-in's `Refresh` right after the session is
      built cannot fail and leaves its edit mesh as it is: no handle is
      dirty yet. */
  lemma BuiltRefreshIsIdentity(stored: seq<GameObject>, parents: seq<GameObject>, scripts: seq<ParentObj>,
                               vertVects: seq<seq<Vec3>>, tris: seq<seq<int>>, rows: seq<seq<GameObject>>,
                               sprite: Option<Sprite>, k: int)
    requires Built(stored, parents, scripts, vertVects, tris, rows, true, sprite) && 0 <= k < |stored|
    ensures scripts[k].CanRefresh() && scripts[k].mesh != null && scripts[k].verts != null
    ensures Synced(scripts[k].mesh.vertices, scripts[k].HandleViews()) == scripts[k].mesh.vertices
  {
    var script, hs := scripts[k], rows[k];
    var origin := stored[k].transform.position;
    assert StandInAt(parents[k], script, k, stored[k], vertVects[k], tris[k], true);
    assert HandleRow(hs, k, origin, vertVects[k], parents[k].transform, sprite) && DistinctHandles(hs);
    assert Assigned(script, hs);
    forall v | 0 <= v < |hs| ensures script.verts[v] == hs[v].vertex && hs[v].vertex != null && !hs[v].vertex.dirty {
      assert HandleAt(hs[v], k, v, origin, vertVects[k][v], parents[k].transform, sprite);
    }
    CleanSyncIsIdentity(script.mesh.vertices, script.HandleViews());
  }

  /** What `DissolveObjects` needs of the selection so that it cannot fail:
      no object destroyed, no object twice, no mesh filter shared by two
      objects (a component belongs to one object) and a mesh on the filter
      of every object that has a filter and a renderer. */
  ghost predicate Dissolvable(objs: seq<GameObject>)
    reads ObjectSet(objs)`destroyed, FilterSet(objs)`sharedMesh
  {
    && (forall o :: o in objs ==> !o.destroyed)
    && Distinct(objs)
    && (forall a, b :: a in objs && b in objs && a != b && a.filter != null ==> a.filter != b.filter)
    && (forall o :: o in objs && HasMesh(o) ==> o.filter.sharedMesh != null)
  }

  /** What `DissolveObjects` did. */
  datatype Outcome = NothingSelected | NoMeshes | Dissolved

  /** The window and its session state. The window's static fields (the
      editing flag, the four options, the window instance) and the
      preference store are fields here as well. */
  class MeshEdit {
    /** The window is open (the static instance is set). */
    var open: bool
    var editing: bool
    var editOnOpen: bool
    var modCol: bool
    var showMesh: bool
    var saveOnClose: bool
    var editorPrefs: Store

    var selected: array?<GameObject>
    var prevSelected: array?<GameObject>
    /** The dissolved objects, to be restored later. */
    var stored: seq<GameObject>
    /** The stand-in object created for each stored object. */
    var parentObjs: seq<GameObject>
    /** The handles of each stored object's mesh, one per vertex. */
    var vertObjs: seq<seq<GameObject>>
    var parentScripts: seq<ParentObj>
    var filters: seq<MeshFilter>
    var parentObjFilters: seq<MeshFilter>
    var renderers: seq<MeshRenderer>
    var vertVects: seq<seq<Vec3>>
    var tris: seq<seq<int>>
    var selectedNum: int
    var prevNum: int
    var names: string

    /** A new window, with the options as the static fields hold them and
        the given preference store. */
    constructor (options: Flags, store: Store)
      ensures open && !editing && Options() == options && editorPrefs == store
      ensures selected == null && prevSelected == null && stored == [] && parentObjs == []
      ensures vertObjs == [] && parentScripts == [] && filters == [] && parentObjFilters == []
      ensures renderers == [] && vertVects == [] && tris == []
      ensures selectedNum == 0 && prevNum == 0 && names == ""
    {
      open := true;
      editing := false;
      editOnOpen := options.editOnOpen;
      modCol := options.modCol;
      showMesh := options.showMesh;
      saveOnClose := options.saveOnClose;
      editorPrefs := store;
      selected := null;
      prevSelected := null;
      stored := [];
      parentObjs := [];
      vertObjs := [];
      parentScripts := [];
      filters := [];
      parentObjFilters := [];
      renderers := [];
      vertVects := [];
      tris := [];
      selectedNum := 0;
      prevNum := 0;
      names := "";
    }

    /** The four options as one value. */
    function Options(): Flags
      reads this
    {
      Flags(editOnOpen, modCol, showMesh, saveOnClose)
    }

    method TryGetEditorPrefs()
      modifies `editOnOpen, `modCol, `showMesh, `saveOnClose
      ensures Options() == Loaded(editorPrefs, old(Options()))
    {
      if KEY_VERSION in editorPrefs {
        var tempVersion := GetFloat(editorPrefs, KEY_VERSION);
        if tempVersion <= VERSION {
          editOnOpen := GetBool(editorPrefs, KEY_EDIT_OPEN, true);
          modCol := GetBool(editorPrefs, KEY_MOD_COL, true);
          showMesh := GetBool(editorPrefs, KEY_SHOW_MESH, true);
          saveOnClose := GetBool(editorPrefs, KEY_SAVE_CLOSE, false);
        } else {
          SetDefaultPrefs();
        }
      }
    }

    method SaveEditorPrefs()
      modifies `editorPrefs
      ensures editorPrefs == Saved(old(editorPrefs), Options())
    {
      editorPrefs := editorPrefs[KEY_VERSION := FloatPref(VERSION)];
      editorPrefs := editorPrefs[KEY_EDIT_OPEN := BoolPref(editOnOpen)];
      editorPrefs := editorPrefs[KEY_MOD_COL := BoolPref(modCol)];
      editorPrefs := editorPrefs[KEY_SHOW_MESH := BoolPref(showMesh)];
      editorPrefs := editorPrefs[KEY_SAVE_CLOSE := BoolPref(saveOnClose)];
    }

    method SetDefaultPrefs()
      modifies `editOnOpen, `modCol, `showMesh, `saveOnClose
      ensures Options() == DEFAULTS
    {
      editOnOpen := true;
      modCol := true;
      showMesh := true;
      saveOnClose := false;
    }

    /** The handles whose sprite `CheckSelected` may change: while editing
        with the mesh shown, those on the previous and the new selection. */
    ghost function Highlighted(selection: array<GameObject>): set<VertexObj>
      reads this, prevSelected, selection, selection[..]
      reads if prevSelected == null then {} else set o | o in prevSelected[..]
    {
      if editing && showMesh && prevSelected != null
      then HandlesOf(prevSelected[..]) + HandlesOf(selection[..])
      else {}
    }

    /** Take the host's current selection, rebuild the names text and, while
        editing with the mesh shown, move the highlight from the previous
        selection's handles to the new one's. The result says whether the
        window must be redrawn. */
    method CheckSelected(selection: array<GameObject>) returns (update: bool)
      requires editing && showMesh ==> prevSelected != null
      modifies `selected, `prevSelected, `selectedNum, `prevNum, `names, Highlighted(selection)`sprRender
      ensures selected == selection && prevSelected == selection
      ensures selectedNum == selection.Length && prevNum == old(selectedNum)
      ensures names == if editing then EDITING
                       else if selection.Length == 0 then NO_SELECTION
                       else JoinNames(NamesOf(selection[..]))
      ensures update <==> old(selectedNum) != selection.Length || old(prevSelected) != selection
      ensures editing && showMesh ==>
                && (forall h :: h in HandlesOf(selection[..]) ==> h.sprRender == Shown(old(h.sprRender), true))
                && (forall h :: h in HandlesOf(old(prevSelected)[..]) && h !in HandlesOf(selection[..]) ==>
                      h.sprRender == Shown(old(h.sprRender), false))
    {
      update := false;
      selected := selection;
      prevNum := selectedNum;
      selectedNum := selected.Length;

      if !editing {
        if selectedNum <= 0 {
          names := NO_SELECTION;
        } else {
          names := BuildNames(selected);
        }
      } else {
        names := EDITING;
        if showMesh {
          MoveHighlight(prevSelected[..], selected[..]);
        }
      }

      if prevNum != selectedNum || prevSelected != selected {
        update := true;
        prevSelected := selected;
      }
    }

    /** What `RestoreObjects` needs so that it cannot fail: a stand-in and a
        row of handles for every stored object, a mesh on every filter, no
        stored object and no handle it reads destroyed, and none of them
        destroyed by the restore of another; and, so that each object is
        restored once, no object or filter twice. */
    ghost predicate Restorable()
      reads this, FilterSet(stored), ObjectSet(stored)`destroyed, RowSet(vertObjs)`destroyed
    {
      && |stored| <= |vertObjs| && |stored| <= |parentObjs|
      && Distinct(stored)
      && (forall i, j :: 0 <= i < j < |stored| && stored[i].filter != null ==> stored[i].filter != stored[j].filter)
      && (forall i :: 0 <= i < |stored| && stored[i].filter != null ==> stored[i].filter.sharedMesh != null)
      && Separate(stored, vertObjs, parentObjs)
      && AliveFrom(0, stored, vertObjs)
    }

    /** `CheckSelected` outside an edit session, where it moves no
        highlight: only the window's own fields change. */
    method CheckSelectedIdle(selection: array<GameObject>)
      requires !editing
      modifies `selected, `prevSelected, `selectedNum, `prevNum, `names
      ensures selected == selection && prevSelected == selection
      ensures selectedNum == selection.Length && prevNum == old(selectedNum)
      ensures names == if selection.Length == 0 then NO_SELECTION else JoinNames(NamesOf(selection[..]))
      ensures stored == old(stored) && vertObjs == old(vertObjs) && parentObjs == old(parentObjs) && modCol == old(modCol)
    {
      var _ := CheckSelected(selection);
    }

    /** The objects of the current selection, for frames. */
    ghost function SelectedSet(): set<GameObject>
      reads this, selected
    {
      if selected == null then {} else ObjectSet(selected[..])
    }

    /** The part of `DissolveObjects` after the stored objects are chosen:
        a stand-in per stored object and one handle per vertex of its mesh,
        then editing starts. */
    method SetUpSession(sprite: Option<Sprite>)
      requires ComponentsOf(stored, filters, renderers) && Distinct(stored)
      requires forall i :: 0 <= i < |stored| ==> filters[i].sharedMesh != null
      requires forall i, j :: 0 <= i < j < |stored| ==> filters[i] != filters[j]
      requires forall o :: o in stored ==> !o.destroyed
      modifies `vertVects, `tris, `parentObjs, `parentScripts, `parentObjFilters, `vertObjs, `editing
      modifies ObjectSet(stored)`colliders
      ensures editing && Restorable()
      ensures Built(stored, parentObjs, parentScripts, vertVects, tris, vertObjs, showMesh, sprite)
      ensures |parentObjFilters| == (if showMesh then |stored| else 0)
      ensures forall k :: 0 <= k < |parentObjFilters| ==> parentObjFilters[k] == parentObjs[k].filter
      ensures forall o :: o in stored ==> o.colliders == if modCol then [] else old(o.colliders)
      ensures forall o: object :: Made(o, parentObjs, parentScripts, parentObjFilters, vertObjs) ==> fresh(o)
    {
      var parents, scripts, editFilters, vs, ts, rows := LayOut(stored, filters, modCol, showMesh, sprite);
      InstallBuilt(parents, scripts, editFilters, vs, ts, rows, sprite);
    }

    /** `Install`, seen from the session it installs: nothing the session is
        described by changes. `InstallBuilt`, `InstallRows` and
        `InstallStandIns` are the one assignment of `Install`, layered so that
        each proof carries one group of session predicates across it. */
    method InstallBuilt(parents: seq<GameObject>, scripts: seq<ParentObj>, editFilters: seq<MeshFilter>,
                        vs: seq<seq<Vec3>>, ts: seq<seq<int>>, rows: seq<seq<GameObject>>, ghost sprite: Option<Sprite>)
      requires Built(stored, parents, scripts, vs, ts, rows, showMesh, sprite)
      requires Distinct(stored) && Separate(stored, rows, parents) && AliveFrom(0, stored, rows)
      requires forall i, j :: 0 <= i < j < |stored| && stored[i].filter != null ==> stored[i].filter != stored[j].filter
      modifies `vertVects, `tris, `parentObjs, `parentScripts, `parentObjFilters, `vertObjs, `editing
      ensures vertVects == vs && tris == ts && parentObjs == parents && parentScripts == scripts
      ensures parentObjFilters == editFilters && vertObjs == rows && editing
      ensures stored == old(stored) && showMesh == old(showMesh) && modCol == old(modCol)
      ensures Built(stored, parents, scripts, vs, ts, rows, showMesh, sprite)
      ensures Restorable()
    {
      InstallRows(parents, scripts, editFilters, vs, ts, rows, sprite);
    }

    /** `Install`, seen from the rows of handles. */
    method InstallRows(parents: seq<GameObject>, scripts: seq<ParentObj>, editFilters: seq<MeshFilter>,
                       vs: seq<seq<Vec3>>, ts: seq<seq<int>>, rows: seq<seq<GameObject>>, ghost sprite: Option<Sprite>)
      requires Captured(stored, vs, ts) && StandIns(stored, parents, scripts, vs, ts, showMesh)
      requires LaidUpTo(|stored|, stored, parents, vs, rows, sprite)
      modifies `vertVects, `tris, `parentObjs, `parentScripts, `parentObjFilters, `vertObjs, `editing
      ensures vertVects == vs && tris == ts && parentObjs == parents && parentScripts == scripts
      ensures parentObjFilters == editFilters && vertObjs == rows && editing
      ensures stored == old(stored) && showMesh == old(showMesh) && modCol == old(modCol)
      ensures Captured(stored, vs, ts) && StandIns(stored, parents, scripts, vs, ts, showMesh)
      ensures LaidUpTo(|stored|, stored, parents, vs, rows, sprite)
    {
      InstallStandIns(parents, scripts, editFilters, vs, ts, rows);
    }

    /** `Install`, seen from the captured meshes and the stand-ins. */
    method InstallStandIns(parents: seq<GameObject>, scripts: seq<ParentObj>, editFilters: seq<MeshFilter>,
                           vs: seq<seq<Vec3>>, ts: seq<seq<int>>, rows: seq<seq<GameObject>>)
      requires Captured(stored, vs, ts) && StandIns(stored, parents, scripts, vs, ts, showMesh)
      modifies `vertVects, `tris, `parentObjs, `parentScripts, `parentObjFilters, `vertObjs, `editing
      ensures vertVects == vs && tris == ts && parentObjs == parents && parentScripts == scripts
      ensures parentObjFilters == editFilters && vertObjs == rows && editing
      ensures stored == old(stored) && showMesh == old(showMesh) && modCol == old(modCol)
      ensures Captured(stored, vs, ts) && StandIns(stored, parents, scripts, vs, ts, showMesh)
    {
      Install(parents, scripts, editFilters, vs, ts, rows);
    }

    /** The session fields take what the two loops built, and editing
        starts. */
    method Install(parents: seq<GameObject>, scripts: seq<ParentObj>, editFilters: seq<MeshFilter>,
                   vs: seq<seq<Vec3>>, ts: seq<seq<int>>, rows: seq<seq<GameObject>>)
      modifies `vertVects, `tris, `parentObjs, `parentScripts, `parentObjFilters, `vertObjs, `editing
      ensures vertVects == vs && tris == ts && parentObjs == parents && parentScripts == scripts
      ensures parentObjFilters == editFilters && vertObjs == rows && editing
      ensures stored == old(stored) && showMesh == old(showMesh) && modCol == old(modCol)
    {
      vertVects, tris, parentObjs, parentScripts, parentObjFilters, vertObjs, editing :=
        vs, ts, parents, scripts, editFilters, rows, true;
    }

    /** Dissolve the selected objects that have a mesh filter and a mesh
        renderer: hide them, keep them with their components, make a
        stand-in per object and one handle per vertex, and start editing.
        With nothing selected, or nothing with a mesh, nothing changes.
        `sprite` is what the sprite renderer of a new handle shows. */
    method DissolveObjects(sprite: Option<Sprite>) returns (outcome: Outcome)
      requires selected != null ==> Dissolvable(selected[..])
      modifies `stored, `selected, `filters, `renderers, `vertVects, `tris, `parentObjs, `parentScripts, `parentObjFilters, `vertObjs, `editing
      modifies SelectedSet()`active, SelectedSet()`colliders
      ensures Options() == old(Options()) && editorPrefs == old(editorPrefs) && open == old(open)
      ensures prevSelected == old(prevSelected) && selectedNum == old(selectedNum) && prevNum == old(prevNum)
      ensures names == old(names)
      ensures outcome == NothingSelected <==> old(selected == null || selected.Length == 0)
      ensures outcome == NoMeshes <==> old(selected != null && selected.Length > 0 && EditableObjects(selected[..]) == [])
      ensures outcome != Dissolved ==>
                && unchanged(this)
                && forall o :: o in old(SelectedSet()) ==> o.active == old(o.active) && o.colliders == old(o.colliders)
      ensures outcome == Dissolved ==>
                && editing && selected == null
                && stored == EditableObjects(old(selected[..]))
                && ComponentsOf(stored, filters, renderers)
                && Restorable()
      ensures outcome == Dissolved ==>
                Built(stored, parentObjs, parentScripts, vertVects, tris, vertObjs, showMesh, sprite)
      ensures outcome == Dissolved ==>
                && |parentObjFilters| == (if showMesh then |stored| else 0)
                && (forall k :: 0 <= k < |parentObjFilters| ==> parentObjFilters[k] == parentObjs[k].filter)
                && (forall o :: o in old(SelectedSet()) ==> o.active == (old(o.active) && !HasMesh(o)))
                && (forall o :: o in old(SelectedSet()) && HasMesh(o) ==>
                      o.colliders == if modCol then [] else old(o.colliders))
      ensures outcome == Dissolved ==> forall o: object :: Made(o, parentObjs, parentScripts, parentObjFilters, vertObjs) ==> fresh(o)
    {
      if selected == null || selected.Length == 0 {
        return NothingSelected;
      }
      outcome := DissolveSelection(sprite);
    }

    /** `DissolveObjects` once something is selected. */
    method DissolveSelection(sprite: Option<Sprite>) returns (outcome: Outcome)
      requires selected != null && selected.Length > 0 && Dissolvable(selected[..])
      modifies `stored, `selected, `filters, `renderers, `vertVects, `tris, `parentObjs, `parentScripts, `parentObjFilters, `vertObjs, `editing
      modifies SelectedSet()`active, SelectedSet()`colliders
      ensures outcome != NothingSelected
      ensures outcome == NoMeshes <==> old(EditableObjects(selected[..]) == [])
      ensures outcome != Dissolved ==>
                && unchanged(this)
                && forall o: GameObject :: o in old(selected[..]) ==> o.active == old(o.active) && o.colliders == old(o.colliders)
      ensures outcome == Dissolved ==>
                && editing && selected == null
                && stored == EditableObjects(old(selected[..]))
                && ComponentsOf(stored, filters, renderers)
                && Restorable()
      ensures outcome == Dissolved ==>
                Built(stored, parentObjs, parentScripts, vertVects, tris, vertObjs, showMesh, sprite)
      ensures outcome == Dissolved ==>
                && |parentObjFilters| == (if showMesh then |stored| else 0)
                && (forall k :: 0 <= k < |parentObjFilters| ==> parentObjFilters[k] == parentObjs[k].filter)
                && (forall o: GameObject :: o in old(selected[..]) ==> o.active == (old(o.active) && !HasMesh(o)))
                && (forall o: GameObject :: o in old(selected[..]) && HasMesh(o) ==>
                      o.colliders == if modCol then [] else old(o.colliders))
      ensures outcome == Dissolved ==> forall o: object :: Made(o, parentObjs, parentScripts, parentObjFilters, vertObjs) ==> fresh(o)
    {
      ghost var sel: seq<GameObject> := selected[..];
      assert forall o :: o in sel ==> allocated(o);
      EditableMembers(sel);
      EditableDistinct(sel);
      var objsWithMesh, tempFilters, tempRenderers := GatherEditable(selected[..]);
      if |tempFilters| == 0 {
        return NoMeshes;
      }
      assert forall o :: o in sel ==> o.colliders == old(o.colliders);
      assert sel == old(selected[..]);
      label Gathered:
      Enter(objsWithMesh, tempFilters, tempRenderers, sprite, sel);
      outcome := Dissolved;
      forall o: GameObject | o in sel ensures o.active == (old(o.active) && !HasMesh(o)) {
        assert o.active == old@Gathered(o.active);
        assert old@Gathered(o.active) == (old(o.active) && !HasMesh(o));
      }
      forall o: GameObject | o in sel && HasMesh(o) ensures o.colliders == if modCol then [] else old(o.colliders) {
        assert o in objsWithMesh;
        assert old@Gathered(o.colliders) == old(o.colliders);
      }
    }

    /** The end of `DissolveObjects` once there are meshes to edit: the
        selection is dropped, the gathered objects and components are
        stored, and the session is set up over them. */
    method Enter(objs: seq<GameObject>, fs: seq<MeshFilter>, rs: seq<MeshRenderer>, sprite: Option<Sprite>,
                 ghost others: seq<GameObject>)
      requires ComponentsOf(objs, fs, rs) && Distinct(objs)
      requires forall i :: 0 <= i < |objs| ==> fs[i].sharedMesh != null
      requires forall i, j :: 0 <= i < j < |objs| ==> fs[i] != fs[j]
      requires forall o :: o in objs ==> !o.destroyed
      modifies `stored, `selected, `filters, `renderers, `vertVects, `tris, `parentObjs, `parentScripts, `parentObjFilters, `vertObjs, `editing
      modifies ObjectSet(objs)`colliders
      ensures stored == objs && filters == fs && renderers == rs && selected == null
      ensures editing && Restorable() && modCol == old(modCol) && showMesh == old(showMesh)
      ensures Built(stored, parentObjs, parentScripts, vertVects, tris, vertObjs, showMesh, sprite)
      ensures |parentObjFilters| == (if showMesh then |stored| else 0)
      ensures forall k :: 0 <= k < |parentObjFilters| ==> parentObjFilters[k] == parentObjs[k].filter
      ensures forall o: object :: Made(o, parentObjs, parentScripts, parentObjFilters, vertObjs) ==> fresh(o)
      ensures forall o :: o in objs ==> o.colliders == if modCol then [] else old(o.colliders)
      ensures forall o :: o in others ==> o.active == old(o.active)
    {
      stored, selected, filters, renderers := objs, null, fs, rs;
      SetUpSession(sprite);
    }

    /** The loop of `RestoreObjects` over the session: every stored object
        with a filter gets its rebuilt mesh and is shown again, and its
        stand-in and handles are destroyed. */
    method RestoreStored()
      requires Restorable()
      modifies ObjectSet(stored)`active, ObjectSet(stored)`colliders, FilterSet(stored)`sharedMesh, ObjectSet(parentObjs)`destroyed, RowSet(vertObjs)`destroyed
      ensures Rebuilt(stored, old(PositionRows(vertObjs)), old(TrianglesOf(stored)))
      ensures Reshown(stored, old(CollidersOf(stored)), modCol)
      ensures CleanedUp(stored, vertObjs, parentObjs)
      ensures forall i :: 0 <= i < |stored| && stored[i].filter != null ==> fresh(stored[i].filter.sharedMesh)
    {
      if |stored| > 0 {
        RestoreAll(stored, vertObjs, parentObjs, modCol, PositionRows(vertObjs), TrianglesOf(stored),
                   CollidersOf(stored), ObjectSet(stored), FilterSet(stored), ObjectSet(parentObjs) + RowSet(vertObjs));
      }
    }

    /** The end of `RestoreObjects`: leave editing and take the selection
        again; the restored objects, their meshes and the destroyed
        stand-ins and handles are left as they are. */
    method FinishRestore(selection: array<GameObject>, ghost positions: seq<seq<Vec3>>, ghost ts: seq<seq<int>>,
                         ghost cols: seq<seq<Collider>>)
      requires Rebuilt(stored, positions, ts) && Reshown(stored, cols, modCol) && CleanedUp(stored, vertObjs, parentObjs)
      modifies `editing, `selected, `prevSelected, `selectedNum, `prevNum, `names
      ensures !editing && selected == selection && prevSelected == selection
      ensures selectedNum == selection.Length && prevNum == old(selectedNum)
      ensures names == if selection.Length == 0 then NO_SELECTION else JoinNames(NamesOf(selection[..]))
      ensures Rebuilt(stored, positions, ts) && Reshown(stored, cols, modCol) && CleanedUp(stored, vertObjs, parentObjs)
    {
      editing := false;
      CheckSelectedIdle(selection);
    }

    /** Save: rebuild each stored object's mesh from its handles, clean up
        the handles and stand-ins, show the objects again, leave editing and
        take the selection again. */
    method RestoreObjects(selection: array<GameObject>)
      requires Restorable()
      modifies `editing, `selected, `prevSelected, `selectedNum, `prevNum, `names
      modifies ObjectSet(stored)`active, ObjectSet(stored)`colliders, FilterSet(stored)`sharedMesh, ObjectSet(parentObjs)`destroyed, RowSet(vertObjs)`destroyed
      ensures !editing && selected == selection && prevSelected == selection
      ensures selectedNum == selection.Length && prevNum == old(selectedNum)
      ensures names == if selection.Length == 0 then NO_SELECTION else JoinNames(NamesOf(selection[..]))
      ensures Rebuilt(stored, old(PositionRows(vertObjs)), old(TrianglesOf(stored)))
      ensures Reshown(stored, old(CollidersOf(stored)), modCol)
      ensures CleanedUp(stored, vertObjs, parentObjs)
      ensures forall i :: 0 <= i < |stored| && stored[i].filter != null ==> fresh(stored[i].filter.sharedMesh)
    {
      ghost var positions, ts, cols := PositionRows(vertObjs), TrianglesOf(stored), CollidersOf(stored);
      RestoreStored();
      FinishRestore(selection, positions, ts, cols);
    }

    /** The session arrays of `Reset` set to null, here empty. */
    method ClearSession()
      modifies `stored, `parentObjs, `vertObjs, `filters, `vertVects, `tris
      ensures stored == [] && parentObjs == [] && vertObjs == []
      ensures filters == [] && vertVects == [] && tris == []
    {
      stored := [];
      parentObjs := [];
      vertObjs := [];
      filters := [];
      vertVects := [];
      tris := [];
    }

    /** The end of `Reset`: clear the session arrays and take the selection
        again; the objects shown again and the destroyed stand-ins and
        handles are left as they are. */
    method FinishReset(selection: array<GameObject>, ghost objs: seq<GameObject>, ghost cols: seq<seq<Collider>>,
                       ghost doomed: set<GameObject>)
      requires !editing
      requires Reactivated(objs, cols, modCol) && AllDestroyed(doomed)
      modifies `selected, `prevSelected, `selectedNum, `prevNum, `names
      modifies `stored, `parentObjs, `vertObjs, `filters, `vertVects, `tris
      ensures selected == selection && prevSelected == selection
      ensures selectedNum == selection.Length && prevNum == old(selectedNum)
      ensures names == if selection.Length == 0 then NO_SELECTION else JoinNames(NamesOf(selection[..]))
      ensures stored == [] && parentObjs == [] && vertObjs == []
      ensures filters == [] && vertVects == [] && tris == []
      ensures Reactivated(objs, cols, modCol) && AllDestroyed(doomed)
    {
      ClearSession();
      CheckSelectedIdle(selection);
      ReactivatedKept(objs, cols, modCol);
      DestroyedKept(doomed);
    }

    /** Abandon the session: show the stored objects again (with a new mesh
        collider when the collision mesh is being rebuilt), destroy the
        stand-ins and the handles, clear the session arrays and take the
        selection again. */
    method Reset(selection: array<GameObject>)
      requires Distinct(stored)
      modifies `editing, `selected, `prevSelected, `selectedNum, `prevNum, `names
      modifies `stored, `parentObjs, `vertObjs, `filters, `vertVects, `tris
      modifies ObjectSet(stored)`active, ObjectSet(stored)`colliders, ObjectSet(parentObjs)`destroyed, RowSet(vertObjs)`destroyed
      ensures !editing && selected == selection && prevSelected == selection
      ensures selectedNum == selection.Length && prevNum == old(selectedNum)
      ensures names == if selection.Length == 0 then NO_SELECTION else JoinNames(NamesOf(selection[..]))
      ensures stored == [] && parentObjs == [] && vertObjs == []
      ensures filters == [] && vertVects == [] && tris == []
      ensures Reactivated(old(stored), old(CollidersOf(stored)), modCol)
      ensures AllDestroyed(old(ObjectSet(parentObjs) + RowSet(vertObjs)))
    {
      ghost var objs, cols, doomed := stored, CollidersOf(stored), ObjectSet(parentObjs) + RowSet(vertObjs);
      editing := false;
      selected := null;
      prevSelected := null;
      TearDown(stored, parentObjs, vertObjs, modCol, cols);
      FinishReset(selection, objs, cols, doomed);
    }

    /** The window closes: save the session when editing with save-on-close
        set, abandon it otherwise, then save the preferences and let go of
        the window. */
    method OnDestroy(selection: array<GameObject>)
      requires Distinct(stored)
      requires editing && saveOnClose ==> Restorable()
      modifies `editing, `selected, `prevSelected, `selectedNum, `prevNum, `names, `editorPrefs, `open
      modifies `stored, `parentObjs, `vertObjs, `filters, `vertVects, `tris
      modifies ObjectSet(stored)`active, ObjectSet(stored)`colliders, FilterSet(stored)`sharedMesh
      modifies ObjectSet(parentObjs)`destroyed, RowSet(vertObjs)`destroyed
      ensures !open && !editing && selected == selection
      ensures Options() == old(Options()) && editorPrefs == Saved(old(editorPrefs), Options())
      ensures old(editing && saveOnClose) ==>
                && stored == old(stored) && parentObjs == old(parentObjs) && vertObjs == old(vertObjs)
                && Rebuilt(stored, old(PositionRows(vertObjs)), old(TrianglesOf(stored)))
                && Reshown(stored, old(CollidersOf(stored)), modCol)
                && CleanedUp(stored, vertObjs, parentObjs)
      ensures !old(editing && saveOnClose) ==>
                && stored == [] && parentObjs == [] && vertObjs == []
                && Reactivated(old(stored), old(CollidersOf(stored)), modCol)
                && AllDestroyed(old(ObjectSet(parentObjs) + RowSet(vertObjs)))
    {
      if editing && saveOnClose {
        SaveAndClose(selection);
      } else {
        AbandonAndClose(selection);
      }
    }

    /** `OnDestroy` while editing with save-on-close set. */
    method SaveAndClose(selection: array<GameObject>)
      requires Restorable()
      modifies `editing, `selected, `prevSelected, `selectedNum, `prevNum, `names, `editorPrefs, `open
      modifies ObjectSet(stored)`active, ObjectSet(stored)`colliders, FilterSet(stored)`sharedMesh
      modifies ObjectSet(parentObjs)`destroyed, RowSet(vertObjs)`destroyed
      ensures !open && !editing && selected == selection && editorPrefs == Saved(old(editorPrefs), Options())
      ensures Rebuilt(stored, old(PositionRows(vertObjs)), old(TrianglesOf(stored)))
      ensures Reshown(stored, old(CollidersOf(stored)), modCol)
      ensures CleanedUp(stored, vertObjs, parentObjs)
    {
      ghost var positions, ts, cols := PositionRows(vertObjs), TrianglesOf(stored), CollidersOf(stored);
      RestoreObjects(selection);
      CloseRestored(positions, ts, cols);
    }

    /** `Close` after a restore, which the restore's results survive. A
        layer over `Close` only, so that the proof of `SaveAndClose` does not
        carry the restore's predicates across two calls. */
    method CloseRestored(ghost positions: seq<seq<Vec3>>, ghost ts: seq<seq<int>>, ghost cols: seq<seq<Collider>>)
      requires Rebuilt(stored, positions, ts) && Reshown(stored, cols, modCol) && CleanedUp(stored, vertObjs, parentObjs)
      modifies `editorPrefs, `open
      ensures !open && editorPrefs == Saved(old(editorPrefs), Options())
      ensures Rebuilt(stored, positions, ts) && Reshown(stored, cols, modCol) && CleanedUp(stored, vertObjs, parentObjs)
    {
      Close();
    }

    /** `OnDestroy` in every other case. */
    method AbandonAndClose(selection: array<GameObject>)
      requires Distinct(stored)
      modifies `editing, `selected, `prevSelected, `selectedNum, `prevNum, `names, `editorPrefs, `open
      modifies `stored, `parentObjs, `vertObjs, `filters, `vertVects, `tris
      modifies ObjectSet(stored)`active, ObjectSet(stored)`colliders, ObjectSet(parentObjs)`destroyed, RowSet(vertObjs)`destroyed
      ensures !open && !editing && selected == selection && editorPrefs == Saved(old(editorPrefs), Options())
      ensures stored == [] && parentObjs == [] && vertObjs == []
      ensures Reactivated(old(stored), old(CollidersOf(stored)), modCol)
      ensures AllDestroyed(old(ObjectSet(parentObjs) + RowSet(vertObjs)))
    {
      Reset(selection);
      Close();
    }

    /** What a new window does once created: load the preferences over the
        options and, when edit-on-open is then set, take the selection and
        dissolve it. */
    method OnOpen(selection: array<GameObject>, sprite: Option<Sprite>) returns (outcome: Option<Outcome>)
      requires !editing && stored == [] && selected == null
      requires Loaded(editorPrefs, Options()).editOnOpen ==> Dissolvable(selection[..])
      modifies `editOnOpen, `modCol, `showMesh, `saveOnClose
      modifies `selected, `prevSelected, `selectedNum, `prevNum, `names
      modifies `stored, `filters, `renderers, `vertVects, `tris, `parentObjs, `parentScripts, `parentObjFilters, `vertObjs, `editing
      modifies ObjectSet(selection[..])`active, ObjectSet(selection[..])`colliders
      ensures Options() == Loaded(editorPrefs, old(Options()))
      ensures outcome.None? <==> !editOnOpen
      ensures outcome.None? ==>
                && !editing && stored == [] && selected == null
                && forall o :: o in selection[..] ==> o.active == old(o.active) && o.colliders == old(o.colliders)
      ensures outcome.Some? ==>
                && (outcome.value == NothingSelected <==> selection.Length == 0)
                && (outcome.value == NoMeshes <==> selection.Length > 0 && EditableObjects(selection[..]) == [])
                && (outcome.value == Dissolved <==> editing)
                && (editing ==> stored == EditableObjects(selection[..]) && Restorable())
    {
      TryGetEditorPrefs();
      outcome := EditOnOpen(selection, sprite);
    }

    /** The end of opening a window: when edit-on-open is set, take the
        selection as `CheckSelected` does and dissolve it as
        `DissolveObjects` does; otherwise do nothing. The outcome is that
        of the dissolve, `None` when there was none. */
    method EditOnOpen(selection: array<GameObject>, sprite: Option<Sprite>) returns (outcome: Option<Outcome>)
      requires !editing && stored == [] && selected == null
      requires editOnOpen ==> Dissolvable(selection[..])
      modifies `selected, `prevSelected, `selectedNum, `prevNum, `names
      modifies `stored, `filters, `renderers, `vertVects, `tris, `parentObjs, `parentScripts, `parentObjFilters, `vertObjs, `editing
      modifies ObjectSet(selection[..])`active, ObjectSet(selection[..])`colliders
      ensures Options() == old(Options()) && editorPrefs == old(editorPrefs)
      ensures outcome.None? <==> !editOnOpen
      ensures outcome.None? ==> unchanged(this) && unchanged(ObjectSet(selection[..]))
      ensures outcome.Some? ==>
                && prevSelected == selection && selectedNum == selection.Length
                && names == (if selection.Length == 0 then NO_SELECTION else JoinNames(NamesOf(selection[..])))
                && (outcome.value == NothingSelected <==> selection.Length == 0)
                && (outcome.value == NoMeshes <==> selection.Length > 0 && EditableObjects(selection[..]) == [])
                && (outcome.value == Dissolved <==> editing)
                && (editing ==> stored == EditableObjects(selection[..]) && Restorable())
    {
      outcome := None;
      if editOnOpen {
        CheckSelectedIdle(selection);
        var dissolved := DissolveObjects(sprite);
        outcome := Some(dissolved);
      }
    }

    /** The end of `OnDestroy`: save the preferences and let go of the
        window. */
    method Close()
      modifies `editorPrefs, `open
      ensures !open && editorPrefs == Saved(old(editorPrefs), Options())
    {
      SaveEditorPrefs();
      open := false;
    }
  }

  /** Opening the window when none is open: a new window with the static
      options and the preference store, the preferences loaded over the
      options, and, when edit-on-open is set, the selection taken and
      dissolved at once. The outcome is that of the dissolve, `None` when
      there was none. */
  method Open(options: Flags, store: Store, selection: array<GameObject>, sprite: Option<Sprite>)
    returns (w: MeshEdit, outcome: Option<Outcome>)
    requires Loaded(store, options).editOnOpen ==> Dissolvable(selection[..])
    modifies ObjectSet(selection[..])`active, ObjectSet(selection[..])`colliders
    ensures fresh(w) && w.open && w.Options() == Loaded(store, options) && w.editorPrefs == store
    ensures outcome.None? <==> !w.editOnOpen
    ensures outcome.None? ==>
              && !w.editing && w.stored == [] && w.selected == null
              && forall o :: o in selection[..] ==> o.active == old(o.active) && o.colliders == old(o.colliders)
    ensures outcome.Some? ==>
              && (outcome.value == NothingSelected <==> selection.Length == 0)
              && (outcome.value == NoMeshes <==> selection.Length > 0 && EditableObjects(selection[..]) == [])
              && (outcome.value == Dissolved <==> w.editing)
              && (w.editing ==> w.stored == EditableObjects(selection[..]) && w.Restorable())
  {
    w := new MeshEdit(options, store);
    outcome := w.OnOpen(selection, sprite);
  }

  /** The menu command: open the window when none is open, otherwise close
      the open one, which runs its `OnDestroy`. `current` is the static
      window instance and `next` its new value. */
  method Init(current: MeshEdit?, options: Flags, store: Store, selection: array<GameObject>, sprite: Option<Sprite>)
    returns (next: MeshEdit?, outcome: Option<Outcome>)
    requires current == null && Loaded(store, options).editOnOpen ==> Dissolvable(selection[..])
    requires current != null ==> Distinct(current.stored) && (current.editing && current.saveOnClose ==> current.Restorable())
    modifies if current == null then {} else {current}
    modifies (if current == null then ObjectSet(selection[..]) else ObjectSet(current.stored))`active
    modifies (if current == null then ObjectSet(selection[..]) else ObjectSet(current.stored))`colliders
    modifies (if current == null then {} else FilterSet(current.stored))`sharedMesh
    modifies (if current == null then {} else ObjectSet(current.parentObjs) + RowSet(current.vertObjs))`destroyed
    ensures current == null ==> next != null && fresh(next) && next.open && next.Options() == Loaded(store, options)
    ensures current == null ==> (outcome.None? <==> !next.editOnOpen)
    ensures current == null && outcome == Some(Dissolved) ==>
              next.editing && next.stored == EditableObjects(selection[..]) && next.Restorable()
    ensures current != null ==>
              && next == null && outcome.None? && !current.open && !current.editing
              && current.editorPrefs == Saved(old(current.editorPrefs), current.Options())
  {
    if current == null {
      next, outcome := Open(options, store, selection, sprite);
    } else {
      current.OnDestroy(selection);
      next, outcome := null, None;
    }
  }
}
