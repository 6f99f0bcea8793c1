/** Tile identifiers and their equality lattice (bevy_tileset_core/src/ids.rs). */
module Ids {
  import opened Wrappers
  import opened Primitives

  /** `TilesetId` */
  type TilesetId = u8
  /** `TileGroupId` */
  type TileGroupId = u32

  /** `TileId`: an entry and variant within a tile group of a tileset. */
  datatype TileId = TileId(autoIndex: Option<nat>, variantIndex: Option<nat>,
                           groupId: TileGroupId, tilesetId: TilesetId)

  /** `PartialTileId`: a `TileId` without its tileset. */
  datatype PartialTileId = PartialTileId(autoIndex: Option<nat>, variantIndex: Option<nat>,
                                         groupId: TileGroupId)

  /** `TileId::new`: a bare group within a tileset. */
  function New(groupId: TileGroupId, tilesetId: TilesetId): (r: TileId)
    ensures r.autoIndex == None && r.variantIndex == None
    ensures r.groupId == groupId && r.tilesetId == tilesetId
  {
    TileId(None, None, groupId, tilesetId)
  }

  /** `PartialTileId::new`, which `From<TileGroupId>` also is. */
  function NewPartial(groupId: TileGroupId): (r: PartialTileId)
    ensures r.autoIndex == None && r.variantIndex == None && r.groupId == groupId
  {
    PartialTileId(None, None, groupId)
  }

  /** `eq_tileset` */
  predicate EqTileset(a: TileId, b: TileId) {
    a.tilesetId == b.tilesetId
  }

  /** `eq_tile_group` */
  predicate EqTileGroup(a: TileId, b: TileId) {
    a.groupId == b.groupId && EqTileset(a, b)
  }

  /** `eq_auto` */
  predicate EqAuto(a: TileId, b: TileId) {
    a.autoIndex == b.autoIndex && EqTileGroup(a, b)
  }

  /** `eq_variant`: the derived equality. */
  predicate EqVariant(a: TileId, b: TileId) {
    a == b
  }

  /** `partial`, which `From<TileId>` also is. */
  function Partial(id: TileId): (r: PartialTileId)
    ensures r.autoIndex == id.autoIndex && r.variantIndex == id.variantIndex && r.groupId == id.groupId
  {
    PartialTileId(id.autoIndex, id.variantIndex, id.groupId)
  }

  /** `PartialTileId::extend` */
  function Extend(p: PartialTileId, tilesetId: TilesetId): (r: TileId)
    ensures r.tilesetId == tilesetId
  {
    TileId(p.autoIndex, p.variantIndex, p.groupId, tilesetId)
  }

  /** Extending a partial id with the tileset it came from gives the id back. */
  lemma ExtendPartial(id: TileId)
    ensures Extend(Partial(id), id.tilesetId) == id
  {
  }

  /** Extending and then dropping the tileset gives the partial id back. */
  lemma PartialExtend(p: PartialTileId, t: TilesetId)
    ensures Partial(Extend(p, t)) == p
  {
  }

  /** Two ids agree on everything but the tileset exactly when their partial ids are equal. */
  lemma PartialInjectiveWithinTileset(a: TileId, b: TileId)
    requires EqTileset(a, b)
    ensures Partial(a) == Partial(b) <==> a == b
  {
  }

  /** `TileId::new` and `PartialTileId::new` agree once the tileset is added. */
  lemma NewIsExtendedNewPartial(g: TileGroupId, t: TilesetId)
    ensures Extend(NewPartial(g), t) == New(g, t)
    ensures Partial(New(g, t)) == NewPartial(g)
  {
  }

  /** Each equality implies the next coarser one. */
  lemma EqualityChain(a: TileId, b: TileId)
    ensures EqVariant(a, b) ==> EqAuto(a, b)
    ensures EqAuto(a, b) ==> EqTileGroup(a, b)
    ensures EqTileGroup(a, b) ==> EqTileset(a, b)
  {
  }

  /** None of the implications reverses: witnesses that differ only in the finer field. */
  lemma EqualityChainIsStrict()
    ensures var a := TileId(Some(0), Some(0), 1, 2);
            var b := TileId(Some(0), Some(1), 1, 2);
            var c := TileId(Some(1), Some(0), 1, 2);
            var d := TileId(Some(0), Some(0), 3, 2);
            && EqAuto(a, b) && !EqVariant(a, b)
            && EqTileGroup(a, c) && !EqAuto(a, c)
            && EqTileset(a, d) && !EqTileGroup(a, d)
  {
  }

  /**
   * `eq_tile_group` ignores both indices: it is equality of the bare ids,
   * and `eq_auto` is equality once the variant index is cleared.
   */
  lemma EqualitiesIgnoreIndices(a: TileId, b: TileId)
    ensures EqTileGroup(a, b) <==> New(a.groupId, a.tilesetId) == New(b.groupId, b.tilesetId)
    ensures EqAuto(a, b) <==> a.(variantIndex := None) == b.(variantIndex := None)
  {
  }
}
