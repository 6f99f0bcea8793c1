/**
 * The resource holding every registered tileset (src/tileset/tilesets.rs):
 * tilesets by id, ids by name, and the counter that hands out fresh ids.
 */
module TilesetRegistry {
  import opened Wrappers
  import opened Primitives
  import opened Ids
  import TS = Tilesets

  class Registry {
    /** Tileset ids by tileset name; deregistering leaves these in place. */
    var ids: map<string, TilesetId>
    var tilesets: map<TilesetId, TS.Tileset>
    var counter: TilesetId

    /** `Tilesets::default()`: nothing registered, the counter at 0. */
    constructor ()
      ensures ids == map[] && tilesets == map[] && counter == 0
    {
      ids, tilesets, counter := map[], map[], 0;
    }

    /** `get_id` */
    function GetId(name: string): (r: Option<TilesetId>)
      reads this
      ensures r.Some? <==> name in ids
    {
      if name in ids then Some(ids[name]) else None
    }

    /** `get` */
    function Get(id: TilesetId): (r: Option<TS.Tileset>)
      reads this
      ensures r.Some? <==> id in tilesets
    {
      if id in tilesets then Some(tilesets[id]) else None
    }

    /** `get_by_name`: the name's id, then the tileset registered under it. */
    function GetByName(name: string): (r: Option<TS.Tileset>)
      reads this
      ensures r.Some? <==> name in ids && ids[name] in tilesets
      ensures r.Some? ==> r == Get(GetId(name).value)
    {
      var id :- GetId(name);
      Get(id)
    }

    /**
     * `next_id`: hands out the counter and advances it. The `u8` addition
     * overflows once 255 has been handed out, so a caller needs the counter
     * below 255.
     */
    method NextId() returns (id: TilesetId)
      requires counter < 255
      modifies this
      ensures id == old(counter) && counter == old(counter) + 1
      ensures ids == old(ids) && tilesets == old(tilesets)
    {
      id := counter;
      counter := counter + 1;
    }

    /**
     * `register`: the name now leads to the tileset's id and the id to the
     * tileset, so both lookups find it; the tileset the id held before is returned.
     */
    method Register(tileset: TS.Tileset) returns (r: Option<TS.Tileset>)
      modifies this
      ensures r == old(Get(tileset.id))
      ensures ids == old(ids)[tileset.name := tileset.id]
      ensures tilesets == old(tilesets)[tileset.id := tileset]
      ensures counter == old(counter)
      ensures Get(tileset.id) == Some(tileset) && GetByName(tileset.name) == Some(tileset)
    {
      r := Get(tileset.id);
      ids := ids[tileset.name := tileset.id];
      tilesets := tilesets[tileset.id := tileset];
    }

    /**
     * `deregister`: removes and returns the tileset under `id`. Names keep
     * pointing at the id, so `get_id` still answers for them while
     * `get_by_name` no longer finds a tileset.
     */
    method Deregister(id: TilesetId) returns (r: Option<TS.Tileset>)
      modifies this
      ensures r == old(Get(id))
      ensures tilesets == old(tilesets) - {id}
      ensures ids == old(ids) && counter == old(counter)
      ensures Get(id) == None
      ensures forall name | name in ids && ids[name] == id :: GetId(name) == Some(id) && GetByName(name) == None
    {
      r := Get(id);
      tilesets := tilesets - {id};
    }

    /**
     * `deregister_by_name`: an unknown name returns nothing and changes
     * nothing; otherwise the tileset under the name's id is deregistered and
     * the name entry stays.
     */
    method DeregisterByName(name: string) returns (r: Option<TS.Tileset>)
      modifies this
      ensures name !in old(ids) ==> r == None && unchanged(this)
      ensures name in old(ids) ==> && r == old(Get(ids[name]))
                                   && tilesets == old(tilesets) - {old(ids)[name]}
                                   && GetId(name) == old(GetId(name)) && GetByName(name) == None
      ensures ids == old(ids) && counter == old(counter)
    {
      if name !in ids {
        return None;
      }
      r := Deregister(ids[name]);
    }
  }

  /**
   * Registering a tileset and then deregistering its id leaves its name
   * resolvable to the id but to no tileset, and gives the tileset back.
   */
  method RegisterThenDeregister(tileset: TS.Tileset) returns (back: Option<TS.Tileset>, id: Option<TilesetId>,
                                                            found: Option<TS.Tileset>)
    ensures back == Some(tileset)
    ensures id == Some(tileset.id) && found == None
  {
    var registry := new Registry();
    var _ := registry.Register(tileset);
    back := registry.Deregister(tileset.id);
    id := registry.GetId(tileset.name);
    found := registry.GetByName(tileset.name);
  }
}
