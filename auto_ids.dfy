/** The tile group an auto tile belongs to (bevy_tileset_core/src/auto/mod.rs). */
module AutoIds {
  import opened Wrappers
  import opened Ids

  /** `AutoTileId`: a tile group within a tileset; equality is the derived one. */
  datatype AutoTileId = AutoTileId(groupId: TileGroupId, tilesetId: TilesetId)

  /** `From<TileId> for AutoTileId`: keeps group and tileset, drops the indices. */
  function FromTileId(id: TileId): (r: AutoTileId)
    ensures r.groupId == id.groupId && r.tilesetId == id.tilesetId
  {
    AutoTileId(id.groupId, id.tilesetId)
  }

  /** `From<AutoTileId> for TileId`: a bare `TileId::new`. */
  function ToTileId(a: AutoTileId): (r: TileId)
    ensures r.autoIndex == None && r.variantIndex == None
  {
    Ids.New(a.groupId, a.tilesetId)
  }

  /** Going to a `TileId` and back is the identity. */
  lemma ToTileIdRoundTrip(a: AutoTileId)
    ensures FromTileId(ToTileId(a)) == a
  {
  }

  /** Going from a `TileId` and back is the identity exactly for ids with no indices. */
  lemma FromTileIdRoundTrip(id: TileId)
    ensures ToTileId(FromTileId(id)) == id <==> id.autoIndex == None && id.variantIndex == None
  {
  }

  /** Two `TileId`s give the same `AutoTileId` exactly when they are of the same tile group. */
  lemma FromTileIdIsGroupEquality(a: TileId, b: TileId)
    ensures FromTileId(a) == FromTileId(b) <==> EqTileGroup(a, b)
  {
  }

  /** `AutoTileId` equality is componentwise. */
  lemma AutoTileIdEquality(a: AutoTileId, b: AutoTileId)
    ensures a == b <==> a.groupId == b.groupId && a.tilesetId == b.tilesetId
  {
  }
}
