/** The editor preferences of the window: four flags saved under string keys
    next to the version that wrote them. The preference store is a map from
    key to a typed value. */
module Prefs {

  /** A stored preference: the store keeps floats and booleans apart. */
  datatype PrefValue = FloatPref(f: real) | BoolPref(b: bool)

  type Store = map<string, PrefValue>

  /** The version written with the preferences. */
  const VERSION: real := 0.2

  const KEY_VERSION: string := "version"
  const KEY_EDIT_OPEN: string := "editOnOpen"
  const KEY_MOD_COL: string := "modCol"
  const KEY_SHOW_MESH: string := "showMesh"
  const KEY_SAVE_CLOSE: string := "saveOnClose"

  /** The four options: edit the selection when the window opens, rebuild the
      collision mesh, show the mesh while editing, save when the window closes. */
  datatype Flags = Flags(editOnOpen: bool, modCol: bool, showMesh: bool, saveOnClose: bool)

  const DEFAULTS: Flags := Flags(true, true, true, false)

  /** `EditorPrefs.GetFloat(key)`: the stored float, or 0 when there is none. */
  function GetFloat(store: Store, key: string): real {
    if key in store && store[key].FloatPref? then store[key].f else 0.0
  }

  /** `EditorPrefs.GetBool(key, default)`: the stored boolean, or the default
      when there is none. */
  function GetBool(store: Store, key: string, default: bool): bool {
    if key in store && store[key].BoolPref? then store[key].b else default
  }

  /** The flags after `TryGetEditorPrefs`, starting from `current`: untouched
      without a version key, the defaults when the preferences come from a
      newer version, and otherwise each flag read with its default. */
  function Loaded(store: Store, current: Flags): Flags {
    if KEY_VERSION !in store then current
    else if GetFloat(store, KEY_VERSION) <= VERSION then
      Flags(GetBool(store, KEY_EDIT_OPEN, DEFAULTS.editOnOpen),
            GetBool(store, KEY_MOD_COL, DEFAULTS.modCol),
            GetBool(store, KEY_SHOW_MESH, DEFAULTS.showMesh),
            GetBool(store, KEY_SAVE_CLOSE, DEFAULTS.saveOnClose))
    else DEFAULTS
  }

  /** The store after `SaveEditorPrefs` with the flags `f`. */
  function Saved(store: Store, f: Flags): Store {
    store[KEY_VERSION := FloatPref(VERSION)]
         [KEY_EDIT_OPEN := BoolPref(f.editOnOpen)]
         [KEY_MOD_COL := BoolPref(f.modCol)]
         [KEY_SHOW_MESH := BoolPref(f.showMesh)]
         [KEY_SAVE_CLOSE := BoolPref(f.saveOnClose)]
  }

  /** Saving and loading again gives back the saved flags, whatever the store
      held and whatever the flags were before loading. */
  lemma SaveThenLoad(store: Store, f: Flags, current: Flags)
    ensures Loaded(Saved(store, f), current) == f
  {
  }

  /** Without a version key the flags are left as they are. */
  lemma LoadWithoutVersion(store: Store, current: Flags)
    requires KEY_VERSION !in store
    ensures Loaded(store, current) == current
  {
  }

  /** Preferences written by a newer version are replaced by the defaults. */
  lemma LoadNewerVersion(store: Store, current: Flags)
    requires KEY_VERSION in store && GetFloat(store, KEY_VERSION) > VERSION
    ensures Loaded(store, current) == DEFAULTS
  {
  }

  /** A version key with none of the flag keys yields the defaults. */
  lemma LoadOnlyVersion(v: real, current: Flags)
    requires v <= VERSION
    ensures Loaded(map[KEY_VERSION := FloatPref(v)], current) == DEFAULTS
  {
  }

  /** Saving writes the five keys and leaves every other key as it was. */
  lemma SavedKeys(store: Store, f: Flags, k: string)
    ensures k in Saved(store, f) <==>
            k in store || k in {KEY_VERSION, KEY_EDIT_OPEN, KEY_MOD_COL, KEY_SHOW_MESH, KEY_SAVE_CLOSE}
    ensures k !in {KEY_VERSION, KEY_EDIT_OPEN, KEY_MOD_COL, KEY_SHOW_MESH, KEY_SAVE_CLOSE} && k in store ==>
            Saved(store, f)[k] == store[k]
  {
  }

  /** Key by key, a later save overwrites an earlier one. */
  lemma SaveOverwritesAt(store: Store, f: Flags, g: Flags, k: string)
    ensures k in Saved(Saved(store, f), g) <==> k in Saved(store, g)
    ensures k in Saved(store, g) ==> Saved(Saved(store, f), g)[k] == Saved(store, g)[k]
  {
    SavedKeys(store, f, k);
    SavedKeys(Saved(store, f), g, k);
    SavedKeys(store, g, k);
  }

  /** A later save overwrites an earlier one completely. */
  lemma SaveOverwrites(store: Store, f: Flags, g: Flags)
    ensures Saved(Saved(store, f), g) == Saved(store, g)
  {
    forall k ensures (k in Saved(Saved(store, f), g) <==> k in Saved(store, g))
                  && (k in Saved(store, g) ==> Saved(Saved(store, f), g)[k] == Saved(store, g)[k]) {
      SaveOverwritesAt(store, f, g, k);
    }
  }
}
