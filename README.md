# MeshEdit, modelled in Dafny

MeshEdit is a Unity editor extension for editing meshes by hand. It works on the
objects selected in the scene that have both a mesh filter and a mesh renderer:

- **Dissolve.** The window hides each such object. It keeps the object with its
  filter and renderer, copies the object's mesh, and creates a *stand-in* object at
  the object's position. The stand-in carries a `ParentObj` script and, when
  "show mesh" is set, draws the copied mesh. For every vertex it creates one
  *handle*: a child of the stand-in at the object's position plus the vertex,
  carrying a `VertexObj` script.
- **Edit.** A handle marks itself dirty when it is moved. While the mesh is shown,
  the stand-in copies the positions of dirty handles back into its edit mesh on
  every render. The handles of the selected objects are highlighted.
- **Save** (restore). Each stored object gets a new copy of its mesh whose vertices
  are the handle positions less the object's position. The handles and the
  stand-in are destroyed, a mesh collider is added when "modify collision" is set,
  and the object is shown again.
- **Discard** (reset). The stored objects are shown again, a mesh collider is added
  to each when "modify collision" is set, and the stand-ins and handles are
  destroyed.
- **Close.** Closing the window saves or discards the session, according to the
  "save on close" option. It then writes the four options to the editor
  preferences under a version key.

The model is in six modules, one file each:

- `Engine` (`engine.dfy`): the engine values and objects the extension touches. These
  are exact vectors, transforms, meshes, mesh filters and renderers, colliders and
  sprites.
- `Vertex` (`vertex_obj.dfy`): `VertexObj` as a class. Each method is tied to a
  pure function of the handle's state (`Initialized`, `Updated`, `Cleared`,
  `Shown`). Lemmas about those functions cover runs of frames.
- `Scene` (`game_object.dfy`): scene objects with their components, and the filter
  that keeps the editable objects of a selection.
- `Parent` (`parent_obj.dfy`): `ParentObj` as a class. Its sync pass runs in place on
  an array and is proved against the pure function `Synced`.
- `Prefs` (`prefs.dfy`): the preference store as a map from key to typed value,
  with the load and save functions and their round trip.
- `Session` (`mesh_edit.dfy`): the window as the class `MeshEdit`, with its static
  fields as fields. Every loop of `DissolveObjects`, `RestoreObjects`, `Reset` and
  `CheckSelected` is a method with loop invariants, proved against predicates over
  the scene:
  - `Built`: what a dissolve creates.
  - `Rebuilt`, `Reshown` and `CleanedUp`: what a save leaves.
  - `Reactivated` and `AllDestroyed`: what a discard leaves.

  The partner lemmas join these up:
  - `BuiltRoundTrip`: saving right after a dissolve gives each object back its
    vertices.
  - `BuiltHandlesAtRest`: right after a dissolve, no handle is dirty and an
    `Update` changes nothing.
  - `BuiltRefreshIsIdentity`: right after a dissolve, the first sync of a
    stand-in leaves its mesh as it is.

Scene state that the engine holds is modelled with these conventions:

- **Destruction.** Destroying an object sets its `destroyed` flag; the engine then
  compares it equal to null. Only the object itself is marked: the engine would
  also destroy its children, and the model instead requires of a save that no
  object it still reads is destroyed along the way (`Separate`, `AliveFrom`).
- **Sprite renderer.** A handle's sprite renderer is an `Option<Sprite>`: `None`
  when the handle references no renderer.
- **Null arrays.** A session array that the source sets to null is empty here.
- **Static instance.** The window's static instance is the `open` flag.
- **Engine callbacks.** `Update` and `OnRenderObject` are methods that the caller
  invokes; the callback argument, such as `showMesh`, is a parameter.

Three behaviours of the source are kept as written:

- **Reset after a save.** `RestoreObjects` does not clear the stored objects, so a
  later `Reset` (for example on closing the window) shows them again and, with
  "modify collision" set, gives each one more mesh collider. `Session.MeshEdit.Reset`
  states exactly that for whatever `stored` holds.
- **`ParentObj.Init` argument.** `ParentObj.Init` takes a mesh, but
  `DissolveObjects` passes it the stand-in's mesh filter (MeshEdit.cs:425). The
  model passes the mesh that filter holds, which is the copy the stand-in draws.
- **Handle index.** `DissolveObjects` initialises every handle of mesh `k` with
  index `k`, the mesh number, not the vertex number (MeshEdit.cs:462). `HandleAt`
  states that index, and nothing in the session reads it.

## Model

| member | source | states |
|---|---|---|
| Engine.SubAddCancel | MeshEdit.cs:459 | a handle placed at the object's position plus a vertex gives that vertex back once the position is subtracted |
| Engine.Mesh.Instantiate | MeshEdit.cs:405 | the copy has the source mesh's name, vertices and triangles |
| Engine.ToArray | ParentObj.cs:44 | a fresh array holding exactly the elements of the sequence |
| Vertex.Initialized | VertexObj.cs:62-68 | after `Init` the handle is initialised with the given offset and index, its dirty flag is unchanged, and its rest position is its position less the offset |
| Vertex.Updated | VertexObj.cs:75-85 | an uninitialised handle is unchanged; otherwise it is dirty iff it was dirty or its relative position differs from the rest position, and the rest position becomes the relative position |
| Vertex.Cleared | VertexObj.cs:70-73 | `Reset` clears the dirty flag and changes nothing else |
| Vertex.Shown | VertexObj.cs:47-60 | a handle without a sprite renderer is left alone; otherwise it shows the selected sprite iff it is selected, and never the initial one |
| Vertex.UpdatedOver | VertexObj.cs:75-85 | over any run of frames a dirty handle stays dirty, and the init flag, index and offset never change |
| Vertex.ShownLast | VertexObj.cs:47-60 | of two `Select` calls only the last decides what the handle shows |
| Vertex.UpdateBeforeInit | VertexObj.cs:75-85 | before `Init`, no number of `Update` frames changes a fresh handle, however it moves |
| Vertex.InitThenStillUpdateIsClean | VertexObj.cs:62-85 | a fresh handle that is initialised and then updated where it stands is clean and unchanged |
| Vertex.DirtyOverFrames | VertexObj.cs:75-85 | an initialised handle ends a run of frames dirty iff it was dirty or, in some frame, stood away from the rest position it started with |
| Vertex.PrevPosTracksLastFrame | VertexObj.cs:79-83 | after at least one frame, the rest position is the relative position of the last frame |
| Vertex.VertexObj.constructor | VertexObj.cs:16-21 | a new handle has the field initialisers: not initialised, clean, index -1, zero vectors |
| Vertex.VertexObj.OnEnable | VertexObj.cs:38-45 | the rest position becomes the current position, and the renderer found on the object is taken only if none is referenced |
| Vertex.VertexObj.Select | VertexObj.cs:47-60 | the new sprite is `Shown` of the old one |
| Vertex.VertexObj.Init | VertexObj.cs:62-68 | the new state is `Initialized` of the old state at the handle's position |
| Vertex.VertexObj.Reset | VertexObj.cs:70-73 | the new state is `Cleared` of the old one |
| Vertex.VertexObj.Update | VertexObj.cs:75-85 | the new state is `Updated` of the old state at the handle's position |
| Scene.GameObject.constructor | MeshEdit.cs:409 | a new object has the given name and components, stands at the origin with no parent, is active and not destroyed, and has no handle script and no colliders |
| Scene.GameObject.SetActive | MeshEdit.cs:353 | the active flag takes the given value |
| Scene.GameObject.Destroy | MeshEdit.cs:491 | the object is destroyed |
| Scene.EditableObjects | MeshEdit.cs:343-355 | the kept objects are no more than the selection |
| Scene.EditableMembers | MeshEdit.cs:343-362 | exactly the selected objects with both a mesh filter and a mesh renderer are kept, and nothing is kept iff no selected object has both |
| Scene.EditableAppend | MeshEdit.cs:343-355 | the filter distributes over concatenation, so it keeps the selection's order |
| Scene.EditableSnoc | MeshEdit.cs:348-354 | one more selected object is kept iff it has a mesh filter and a mesh renderer |
| Scene.EditableDistinct | MeshEdit.cs:343-355 | filtering a selection with no object twice keeps no object twice |
| Parent.Synced | ParentObj.cs:40-57 | the sync keeps the length of the vertex buffer |
| Parent.SyncedAt | ParentObj.cs:46-53 | after a sync, the vertex of a dirty handle is that handle's position less its offset, and every other vertex keeps its value |
| Parent.ClearedAll | ParentObj.cs:51 | after a sync, every handle has its dirty flag cleared and is otherwise unchanged |
| Parent.CleanSyncIsIdentity | ParentObj.cs:46-55 | with no handle dirty, a sync leaves the vertex buffer as it is |
| Parent.SyncTwice | ParentObj.cs:40-57 | a second sync with no movement in between changes nothing |
| Parent.SyncMatchesHandles | ParentObj.cs:40-57 | if every clean handle's vertex already matches its relative position, one sync makes the whole buffer the handles' relative positions |
| Parent.ViewsOf | ParentObj.cs:46-50 | entry `i` is handle `i`'s state and position |
| Parent.SyncPass | ParentObj.cs:46-53 | in place, each vertex of a handle that was dirty becomes its relative position, every other vertex is unchanged, and every handle ends clean |
| Parent.ParentObj.constructor | ParentObj.cs:11-15 | a new script has index -1 and no mesh or handles |
| Parent.ParentObj.Init | ParentObj.cs:23-27 | index and mesh take the given values |
| Parent.ParentObj.AssignVerts | ParentObj.cs:29-38 | the script keeps the handle objects, and entry `i` of a fresh array holds the handle script of object `i` |
| Parent.ParentObj.Refresh | ParentObj.cs:40-57 | with a mesh and handles, the mesh's vertices become `Synced` of the old vertices and handles, and every handle ends clean; with a mesh but no handles, its vertices are unchanged |
| Parent.ParentObj.OnRenderObject | ParentObj.cs:59-65 | `Refresh` runs iff the mesh is shown; otherwise the mesh's vertices are unchanged |
| Prefs.SaveThenLoad | MeshEdit.cs:112-143 | loading what was just saved gives back the saved options, whatever the store held before |
| Prefs.LoadWithoutVersion | MeshEdit.cs:114 | without a version key the options are left as they are |
| Prefs.LoadNewerVersion | MeshEdit.cs:117-131 | preferences stored by any newer version are replaced by the defaults |
| Prefs.LoadOnlyVersion | MeshEdit.cs:117-122 | a version key with no option keys loads the per-key defaults, which are the defaults |
| Prefs.SavedKeys | MeshEdit.cs:136-143 | saving writes the version key and the four option keys, and leaves every other key as it was |
| Prefs.SaveOverwritesAt | MeshEdit.cs:136-143 | key by key, a later save overwrites an earlier one |
| Prefs.SaveOverwrites | MeshEdit.cs:136-143 | saving twice is the same as saving only the second time |
| Session.MeshEdit.TryGetEditorPrefs | MeshEdit.cs:112-134 | the options become `Loaded` of the store and the old options |
| Session.MeshEdit.SaveEditorPrefs | MeshEdit.cs:136-143 | the store becomes `Saved` of the old store and the options |
| Session.MeshEdit.SetDefaultPrefs | MeshEdit.cs:145-151 | the options become the defaults (true, true, true, false) |
| Session.JoinNamesFront | MeshEdit.cs:288-294 | read from the front, the names list is the first name, a separator, and the list of the rest |
| Session.JoinNamesLength | MeshEdit.cs:288-294 | the list is as long as the names plus one separator per gap |
| Session.JoinNamesSnoc | MeshEdit.cs:289-294 | appending a name appends a separator and the name, or just the name to an empty list |
| Session.BuildNames | MeshEdit.cs:288-294 | the names loop yields the names in order, with a separator between each two |
| Session.SelectAll | MeshEdit.cs:303-311 | every handle on the objects shows `Shown` of its old sprite; the frame allows no other change |
| Session.MoveHighlight | MeshEdit.cs:301-312 | the handles on the new selection end selected, and those only on the previous selection end deselected |
| Session.Placed | MeshEdit.cs:459 | one handle position per vertex |
| Session.Committed | MeshEdit.cs:489 | one vertex per handle |
| Session.RestoreUndoesDissolve | MeshEdit.cs:459-489 | restoring from handles that were not moved gives back the vertices |
| Session.RestoreMovedHandle | MeshEdit.cs:459-489 | moving one handle by `d` moves exactly its vertex by `d` |
| Session.ReactivateAll | MeshEdit.cs:546-557 | every stored object is active, with one new mesh collider after its old colliders when collision is modified |
| Session.DestroyAll | MeshEdit.cs:560-568 | every object is destroyed |
| Session.DestroyRows | MeshEdit.cs:570-581 | every handle of every row is destroyed |
| Session.TearDown | MeshEdit.cs:546-581 | the stored objects are `Reactivated`, and the stand-ins and handles are all destroyed |
| Session.CommitHandles | MeshEdit.cs:485-492 | given live, distinct handles (the source reads each handle's position before it checks it), the new vertices are the handle positions less the object's position, and every handle is destroyed |
| Session.RestoreOne | MeshEdit.cs:478-507 | for a live object and live, distinct handles other than the object and its stand-in, a fresh mesh with the committed handle positions, the old triangles and the object's name replaces the object's mesh; its handles and stand-in are destroyed; a mesh collider on the new mesh is added iff collision is modified; the object is shown |
| Session.RestoreAll | MeshEdit.cs:474-522 | every stored object with a filter is `Rebuilt` from its handle positions, `Reshown` with its colliders, and `CleanedUp` |
| Session.RestoreNext | MeshEdit.cs:476-521 | one more stored object is restored, the ones before stay restored, and every later stored object and its handles are still alive (`AliveFrom`) |
| Session.SeparateAt | MeshEdit.cs:476-507 | in separated rows, the object restored at step `i` is not one of its own handles or its stand-in, its handles are distinct, and no later object, handle or stand-in is among them, so destroying them spares what later steps read |
| Session.AliveKept | MeshEdit.cs:476-521 | when a restore step destroys only its own handles and stand-in, every later stored object and handle that was alive stays alive |
| Session.GatherEditable | MeshEdit.cs:339-355 | the kept objects are `EditableObjects` of the selection, distinct and alive, with their filters and renderers (distinct, each with a mesh), and exactly those are hidden |
| Session.GatherOne | MeshEdit.cs:345-354 | object `i` is kept and hidden iff it has a mesh filter and a mesh renderer |
| Session.Digit | MeshEdit.cs:442-451 | a decimal digit is a digit character |
| Session.NatString | MeshEdit.cs:442-451 | the decimal form has only digits, and at least two of them from ten on |
| Session.NatStringInjective | MeshEdit.cs:442-451 | different numbers have different decimal forms |
| Session.IndexOfClose | MeshEdit.cs:442-451 | the position of the first `]` |
| Session.CloseAfterDigits | MeshEdit.cs:442-451 | in a run of digits followed by `]`, the first `]` ends the run |
| Session.HandleNameTail | MeshEdit.cs:442-451 | after its prefix, a handle name is the mesh number, `]`, and the bracketed vertex number |
| Session.HandleNameInjective | MeshEdit.cs:442-451 | no two handles of a dissolve are given the same name |
| Session.NewHandle | MeshEdit.cs:433-462 | a fresh handle named after its mesh and vertex, under the stand-in, at the object's position plus the vertex, initialised with that position as offset and the mesh number as index, and clean |
| Session.BuildHandles | MeshEdit.cs:431-463 | one handle per vertex, laid out as `HandleRow` states, with no handle object or script twice |
| Session.NextHandle | MeshEdit.cs:431-462 | the row with one more handle still satisfies `HandleRow` and has no duplicates |
| Session.NewStandIn | MeshEdit.cs:391-426 | the colliders are removed iff collision is modified; the kept vertices and triangles are the mesh's; the fresh stand-in satisfies `StandInAt` |
| Session.BuildParents | MeshEdit.cs:381-427 | every stored mesh is `Captured` and has its stand-in (`StandIns`); one edit filter per stand-in iff the mesh is shown; the scripts, stand-ins and edit filters are new, and the scripts distinct |
| Session.NextStandIn | MeshEdit.cs:389-427 | the prefix of stored objects with one more stand-in and captured mesh; the new stand-in, its transform, its script and, with the mesh shown, its filter and mesh copy are new |
| Session.BuildRow | MeshEdit.cs:429-466 | mesh `k`'s handles are laid out and handed to its stand-in's script, and the earlier rows and the stand-ins are kept; the handles are distinct and new, with new transforms and handle components |
| Session.HandOver | MeshEdit.cs:465 | `AssignVerts` on stand-in `k` keeps the captured meshes, the stand-ins and the laid-out rows |
| Session.KeepLaid | MeshEdit.cs:465 | `AssignVerts` on stand-in `k` keeps the laid-out rows, and its script now holds row `k` |
| Session.AssignRow | MeshEdit.cs:465 | the script of stand-in `k` holds row `k`, and the earlier scripts keep theirs |
| Session.BuildRows | MeshEdit.cs:429-466 | every mesh's handles are laid out (`LaidUpTo`) and held by its stand-in's script (`AssignedUpTo`); all handles, their transforms and handle components are new, and no handle is in two rows or twice in one (`Partitioned`); handles, stand-ins and live stored objects are `Separate` and the session is alive (`AliveFrom`) |
| Session.PartitionedSnoc | MeshEdit.cs:429-466 | appending a row of distinct new handles to partitioned rows keeps them partitioned and adds exactly that row's handles |
| Session.LaidAlive | MeshEdit.cs:429-466 | every handle laid out for the meshes is alive, so with live stored objects the whole session is alive |
| Session.LayOut | MeshEdit.cs:389-466 | both loops together yield a `Built` session, with the edit filters and colliders as `DissolveObjects` leaves them; handles, stand-ins and stored objects are separate and alive, so the session can later be saved; every stand-in, script, edit filter and handle returned is new (`Made`) |
| Session.BuiltRoundTrip | MeshEdit.cs:459-489 | right after a dissolve the handles stand at the object's position plus the vertices, and restoring from them gives back the mesh's vertices |
| Session.BuiltHandlesAtRest | MeshEdit.cs:459-462 | right after a dissolve every handle is clean, and an `Update` where it stands leaves it unchanged |
| Session.BuiltRefreshIsIdentity | MeshEdit.cs:419-425 | with the mesh shown, a stand-in's first `Refresh` after a dissolve can run and leaves its edit mesh unchanged |
| Session.MeshEdit.constructor | MeshEdit.cs:31-54 | a new window is open, not editing, with the given options and store and empty session fields |
| Session.MeshEdit.CheckSelected | MeshEdit.cs:274-324 | the selection is taken; the names text is "Editing...", the no-selection text, or the joined names; the result is true iff the count or the selection changed; while editing with the mesh shown, the highlight moves from the previous selection to the new one |
| Session.MeshEdit.CheckSelectedIdle | MeshEdit.cs:274-296 | outside editing, the same except that no highlight moves and the session is untouched |
| Session.MeshEdit.SetUpSession | MeshEdit.cs:373-469 | the session is `Built` over the stored objects, editing has started, and the session is `Restorable`; its stand-ins, scripts, edit filters and handles are new (`Made`) |
| Session.MeshEdit.Install | MeshEdit.cs:376-468 | the session fields take what the two loops built, and editing starts |
| Session.MeshEdit.InstallBuilt | MeshEdit.cs:376-468 | installing keeps the session `Built` and makes it `Restorable` |
| Session.MeshEdit.InstallRows | MeshEdit.cs:376-468 | installing keeps the captured meshes, the stand-ins and the rows |
| Session.MeshEdit.InstallStandIns | MeshEdit.cs:376-468 | installing keeps the captured meshes and the stand-ins |
| Session.MeshEdit.DissolveObjects | MeshEdit.cs:330-470 | nothing changes with nothing selected or no editable object, and the outcome tells which; otherwise the stored objects are `EditableObjects` of the selection and hidden, the selection is dropped, editing starts and the session is `Built` and `Restorable`, with colliders removed iff collision is modified, and its stand-ins, scripts, edit filters and handles are new (`Made`), so the caller may save or discard it; the options, preferences, window state, previous selection, counters and handle names are unchanged |
| Session.MeshEdit.DissolveSelection | MeshEdit.cs:339-470 | with a non-empty selection the outcome is never `NothingSelected`; it is `NoMeshes` iff no selected object is editable, and otherwise the editable objects are stored and hidden, the rest of the selection keeps its visibility, and the session is `Built` and `Restorable`, with new stand-ins, scripts, edit filters and handles (`Made`) |
| Session.MeshEdit.Enter | MeshEdit.cs:364-470 | the gathered objects and components are stored, the selection is dropped, and the session is `Built` over them, with new stand-ins, scripts, edit filters and handles (`Made`); objects outside the gathered ones keep their visibility |
| Session.MeshEdit.RestoreStored | MeshEdit.cs:474-526 | every stored object with a filter is `Rebuilt`, `Reshown` and `CleanedUp`, each with a fresh mesh |
| Session.MeshEdit.FinishRestore | MeshEdit.cs:529-530 | editing stops, the selection is taken again, and the restored objects are left as they are |
| Session.MeshEdit.RestoreObjects | MeshEdit.cs:472-532 | save: each stored object is `Rebuilt` from its handle positions, `Reshown` and `CleanedUp`, editing stops and the selection is taken again |
| Session.MeshEdit.ClearSession | MeshEdit.cs:558-585 | the session arrays are cleared |
| Session.MeshEdit.FinishReset | MeshEdit.cs:581-587 | the session arrays are cleared and the selection is taken again; the shown objects and destroyed stand-ins and handles are left as they are |
| Session.MeshEdit.Reset | MeshEdit.cs:540-590 | discard: the stored objects are shown again with one more mesh collider iff collision is modified, all stand-ins and handles are destroyed, editing stops, the session arrays are cleared and the selection is taken again |
| Session.MeshEdit.OnDestroy | MeshEdit.cs:597-611 | closing saves the session when editing with save-on-close set and discards it otherwise, then saves the preferences and closes the window; a save keeps the stored objects, stand-ins and handle rows, as the source does not clear them |
| Session.MeshEdit.SaveAndClose | MeshEdit.cs:601-602 | the session is saved, the preferences are saved and the window is closed |
| Session.MeshEdit.CloseRestored | MeshEdit.cs:609-610 | closing leaves the saved session as it is |
| Session.MeshEdit.AbandonAndClose | MeshEdit.cs:604-610 | the session is discarded, the preferences are saved and the window is closed |
| Session.MeshEdit.Close | MeshEdit.cs:609-610 | the store becomes `Saved` of the options, and the window is no longer open |
| Session.MeshEdit.EditOnOpen | MeshEdit.cs:89-93 | with edit-on-open set, the selection is taken (names text, counts) and dissolved, and the outcome is `DissolveObjects`' (nothing selected, no meshes, or a `Restorable` session of the editable objects); without it nothing changes; the options and store are unchanged |
| Session.MeshEdit.OnOpen | MeshEdit.cs:85-93 | the options become `Loaded` of the store, and the selection is dissolved iff the loaded edit-on-open is set, with `EditOnOpen`'s outcome |
| Session.Open | MeshEdit.cs:80-93 | a new open window whose options are `Loaded` of the store over the static options; it dissolves the selection iff the loaded edit-on-open is set, and otherwise leaves the selection and the session untouched |
| Session.Init | MeshEdit.cs:78-99 | with no window open, a new one as `Open` gives; with one open, that window is closed (its `OnDestroy` runs: not editing, preferences saved) and the static instance becomes null |

## Left out

- The GUI: `OnGUI`, the title, `UpdateGUIStyles`, `ShowUtility`, buttons, `Repaint` and `MeshLog`. They draw the window or write log lines; the buttons' effects are the modelled operations. The menu command `Init` (MeshEdit.cs:78-99) is modelled by `Init` and `Open` without these calls: it loads the preferences, dissolves the selection at once when edit-on-open is set, and closes a window that is already open.
- CameraFacingSprite.cs is not part of this model. It turns sprites toward the scene camera and does not touch the session.
- Loading the handle prefab and the sprite resource (`FindVertPrefab`, `Update`, `Resources.Load`) is not modelled. What a new handle's sprite renderer references is the parameter `sprite`: `None` models a handle that found no renderer, `Some(s)` one that shows `s`. The prefab path and the path without a prefab are both covered by the parameter.
- `OnEnable` is not called on new handles. `Init` overwrites the rest position it records, and the renderer it picks up is the `sprite` parameter.
- Floating point: vectors have exact integer components and are compared exactly. The engine's approximate `Vector3` equality and rounding are left out. The preference version (a float in the source) is an exact `real`, and the version test (MeshEdit.cs:117) compares it exactly.
- The preference store's behaviour on a key stored with another type is a plain default here. A float read of a non-float entry gives 0, and a bool read of a non-bool entry gives the default.
- Materials, the "(Clone)" suffix of instantiated objects, and the context of `Selection.SetActiveObjectWithContext` are left out: no logic depends on them.
- The order in which components are added to a new object is left out. A new object's filter and renderer are given at creation.
- Collider details: a collider is "a mesh collider on a mesh" or "another kind". Removing colliders leaves the object with none. A mesh collider added by `Reset` has no mesh assigned (the engine would fill one in from the filter).
- `ParentObj`'s `_showMesh` field, which nothing reads, and the getters and setters of both scripts are left out. The model reads the fields directly.
- Parent.ParentObj.Refresh: requires `CanRefresh` (every handle present, no handle twice, a vertex per handle), where the source would throw on a missing handle or an index out of range.
- Session.MeshEdit.CheckSelected: requires a previous selection while editing with the mesh shown, where the source would throw on a null `_prevSelected`.
- Session.MeshEdit.DissolveObjects: requires `Dissolvable` (no selected object destroyed, no object twice, no filter shared, a mesh on every filter of an editable object), where the source would throw on a destroyed object or on instantiating a null mesh.
- Session.MeshEdit.RestoreObjects: requires `Restorable` (a stand-in and handles per stored object, a mesh on every filter, no object or filter twice, every stored object and handle alive, and no handle shared between rows or equal to a stored object or stand-in), where the source would throw on a destroyed object or handle or restore an object twice. With a stored object that has no filter, the source only logs; here that object is left as it is.
- Destruction does not cascade: destroying a stand-in does not mark its children (the handles) destroyed, as the engine would. The save destroys every handle itself, so its result is the same; the model does not capture destroying a stand-in while its handles are still in use.
- Session.MeshEdit.Reset: requires no stored object twice, so that each gets exactly one more collider. It does not require the stored objects to be alive, although the source would throw on showing a destroyed one (MeshEdit.cs:550); here a destroyed object is shown again like any other.
- Session.MeshEdit.OnDestroy: requires what `Reset` and `RestoreObjects` require.
- The window's static instance is the `current` parameter and `next` result of `Init`, and a window's `open` flag says that it is still that instance. The static options are the `options` parameter of `Open`. The host's current selection is a parameter of the operations that read it.
- Newness is carried from the construction loops up to `DissolveObjects` for the stand-ins, their scripts, the edit filters and the handles (`Made`): these are what later operations modify or destroy. That the stand-ins' and handles' transforms, the edit filters' mesh copies and the handles' components are new is stated only where they are made (`NewStandIn`, `NextStandIn`, `NewHandle`, `BuildRow`, `BuildRows`), for proof cost.
- Session.Open: requires `Dissolvable` of the selection when the loaded edit-on-open is set, as `DissolveObjects` does. It does not repeat `EditOnOpen`'s names text and counts, and it does not state newness (`Made`) of the session it builds.
- Session.Init: on the close path it states only that the window is closed, not editing, and its preferences saved; what happens to the session is `OnDestroy`'s contract, which it calls. It requires what `OnDestroy` requires of the open window.
