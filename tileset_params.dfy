/**
 * Tileset lookup for systems (bevy_tileset_core/src/tileset/param.rs): the
 * `TilesetMap` resource relates tileset handles, ids and names, and the
 * `Tilesets` parameter answers queries through it against the loaded
 * tileset assets. The asset store is a map from handle to tileset.
 */
module TilesetParams {
  import opened Wrappers
  import opened Primitives
  import opened Ids
  import TS = Tilesets

  class TilesetMap {
    var nameToId: map<string, TilesetId>
    var idToHandle: map<TilesetId, Handle>
    var handleToId: map<Handle, TilesetId>
    var idToName: map<TilesetId, string>

    /** Every id with a name has a handle and every id with a handle has a name. */
    ghost predicate Valid()
      reads this
    {
      idToName.Keys == idToHandle.Keys
    }

    /** `TilesetMap::default()` */
    constructor ()
      ensures Valid()
      ensures nameToId == map[] && idToHandle == map[] && handleToId == map[] && idToName == map[]
    {
      nameToId, idToHandle, handleToId, idToName := map[], map[], map[], map[];
    }

    /** `register_tileset`: relates the handle, the tileset's id and its name in all four directions. */
    method RegisterTileset(tileset: TS.Tileset, handle: Handle)
      requires Valid()
      modifies this
      ensures Valid()
      ensures handleToId == old(handleToId)[handle := tileset.id]
      ensures idToName == old(idToName)[tileset.id := tileset.name]
      ensures nameToId == old(nameToId)[tileset.name := tileset.id]
      ensures idToHandle == old(idToHandle)[tileset.id := handle]
    {
      handleToId := handleToId[handle := tileset.id];
      idToName := idToName[tileset.id := tileset.name];
      nameToId := nameToId[tileset.name := tileset.id];
      idToHandle := idToHandle[tileset.id := handle];
    }

    /**
     * `deregister_tileset`: an unknown handle changes nothing. A known one
     * loses its id; that id loses its name and handle, and the name, if it
     * had one, loses its id.
     */
    method DeregisterTileset(handle: Handle)
      requires Valid()
      modifies this
      ensures Valid()
      ensures handle !in old(handleToId) ==> unchanged(this)
      ensures handle in old(handleToId) ==>
                var id := old(handleToId)[handle];
                && handleToId == old(handleToId) - {handle}
                && idToName == old(idToName) - {id}
                && idToHandle == old(idToHandle) - {id}
                && nameToId == if id in old(idToName) then old(nameToId) - {old(idToName)[id]} else old(nameToId)
    {
      if handle in handleToId {
        var id := handleToId[handle];
        handleToId := handleToId - {handle};
        if id in idToName {
          var name := idToName[id];
          idToName := idToName - {id};
          nameToId := nameToId - {name};
        }
        idToHandle := idToHandle - {id};
      }
    }
  }

  /** `get_by_id`: the id's handle, then the asset it refers to. */
  function GetById(m: TilesetMap, assets: map<Handle, TS.Tileset>, id: TilesetId): (r: Option<TS.Tileset>)
    reads m
    ensures r.Some? <==> id in m.idToHandle && m.idToHandle[id] in assets
    ensures r.Some? ==> r.value == assets[m.idToHandle[id]]
  {
    if id in m.idToHandle && m.idToHandle[id] in assets then Some(assets[m.idToHandle[id]]) else None
  }

  /** `get_by_name`: the name's id, then `get_by_id`. */
  function GetByName(m: TilesetMap, assets: map<Handle, TS.Tileset>, name: string): (r: Option<TS.Tileset>)
    reads m
    ensures name !in m.nameToId ==> r == None
    ensures name in m.nameToId ==> r == GetById(m, assets, m.nameToId[name])
  {
    if name in m.nameToId then GetById(m, assets, m.nameToId[name]) else None
  }

  /** `contains_id`: false without a handle; otherwise whether the asset is loaded. */
  predicate ContainsId(m: TilesetMap, assets: map<Handle, TS.Tileset>, id: TilesetId)
    reads m
  {
    if id in m.idToHandle then m.idToHandle[id] in assets else false
  }

  /** `contains_name`: false for an unmapped name; otherwise `contains_id` of its id. */
  predicate ContainsName(m: TilesetMap, assets: map<Handle, TS.Tileset>, name: string)
    reads m
  {
    if name in m.nameToId then ContainsId(m, assets, m.nameToId[name]) else false
  }

  /** The `contains_*` checks agree with the lookups: a tileset is contained exactly when it is found. */
  lemma ContainsIffFound(m: TilesetMap, assets: map<Handle, TS.Tileset>, id: TilesetId, name: string)
    ensures ContainsId(m, assets, id) <==> GetById(m, assets, id).Some?
    ensures ContainsName(m, assets, name) <==> GetByName(m, assets, name).Some?
  {
  }

  /** In a map whose id→name and id→handle entries agree, every tileset found by its id also has a name. */
  lemma FoundHasName(m: TilesetMap, assets: map<Handle, TS.Tileset>, id: TilesetId)
    requires m.Valid()
    ensures GetById(m, assets, id).Some? ==> id in m.idToName
  {
  }

  /**
   * Once a tileset is registered under a handle whose asset is loaded, it is
   * found by its id and by its name, and both are reported as contained.
   */
  method RegisterThenFind(tileset: TS.Tileset, handle: Handle, assets: map<Handle, TS.Tileset>)
    returns (byId: Option<TS.Tileset>, byName: Option<TS.Tileset>, hasId: bool, hasName: bool)
    requires handle in assets && assets[handle] == tileset
    ensures byId == Some(tileset) && byName == Some(tileset)
    ensures hasId && hasName
  {
    var m := new TilesetMap();
    m.RegisterTileset(tileset, handle);
    byId := GetById(m, assets, tileset.id);
    byName := GetByName(m, assets, tileset.name);
    hasId := ContainsId(m, assets, tileset.id);
    hasName := ContainsName(m, assets, tileset.name);
  }

  /**
   * A handle left over from an earlier registration of the same id still
   * deregisters that id: registering a tileset under handle 1 and then
   * under handle 2, then deregistering handle 1, leaves its id with no
   * handle and its name with no id, though handle 2 is still loaded.
   */
  method StaleHandleDeregisters(tileset: TS.Tileset) returns (byId: Option<TS.Tileset>, byName: Option<TS.Tileset>)
    ensures byId == None && byName == None
  {
    var m := new TilesetMap();
    m.RegisterTileset(tileset, 1);
    m.RegisterTileset(tileset, 2);
    m.DeregisterTileset(1);
    byId := GetById(m, map[2 := tileset], tileset.id);
    byName := GetByName(m, map[2 := tileset], tileset.name);
  }
}
