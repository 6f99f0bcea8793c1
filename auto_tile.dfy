/**
 * The `AutoTile` component (src/auto/mod.rs): a tile group and tileset pair.
 * It is `Copy` with derived equality, so the two setters are modelled as
 * functions returning the updated value.
 */
module AutoTileComponent {
  import opened Ids

  datatype AutoTile = AutoTile(id: TileGroupId, tilesetId: TilesetId)

  /** `AutoTile::new`; `id()` and `tileset_id()` read the fields back. */
  function New(id: TileGroupId, tilesetId: TilesetId): (r: AutoTile)
    ensures r.id == id && r.tilesetId == tilesetId
  {
    AutoTile(id, tilesetId)
  }

  /** `set_id`: only the group id changes. */
  function SetId(a: AutoTile, id: TileGroupId): (r: AutoTile)
    ensures r.id == id && r.tilesetId == a.tilesetId
  {
    a.(id := id)
  }

  /** `set_tileset_id`: only the tileset id changes. */
  function SetTilesetId(a: AutoTile, tilesetId: TilesetId): (r: AutoTile)
    ensures r.tilesetId == tilesetId && r.id == a.id
  {
    a.(tilesetId := tilesetId)
  }

  /** Setting both fields of any tile gives the tile built from them; setting a field to its own value changes nothing. */
  lemma SettersRebuild(a: AutoTile, g: TileGroupId, t: TilesetId)
    ensures SetTilesetId(SetId(a, g), t) == New(g, t)
    ensures SetId(a, a.id) == a && SetTilesetId(a, a.tilesetId) == a
  {
  }

  /** Equality is componentwise over both fields. */
  lemma AutoTileEquality(a: AutoTile, b: AutoTile)
    ensures a == b <==> a.id == b.id && a.tilesetId == b.tilesetId
  {
  }
}
