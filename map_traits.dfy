/**
 * The `bevy_ecs_tilemap` side of the generic pass in `bevy_tileset_map`
 * (bevy_tileset_map/src/auto/traits.rs): `TileInfo` is the auto tile, and
 * the tiles query with the map query is the auto tilemap.
 *
 * Unlike the pass of `bevy_ecs_tilemap_tileset`, nothing here drops a
 * negative neighbour position: `make_coords` converts it to unsigned, so it
 * wraps round to a position near 2^32.
 *
 * Both queries are read-only during a pass and are modelled as maps: the
 * tiles query from entity to the components it yields, the map query from
 * tile coordinate to the tile entity there.
 */
module MapTraits {
  import opened Wrappers
  import opened Primitives
  import opened AutoIds
  import Core = CoreAutoTiler

  /** `TilePos`: an unsigned tile position. */
  datatype TilePos = TilePos(x: u32, y: u32)

  /** The map and layer a tile entity belongs to (`TileParent`). */
  datatype TileParent = TileParent(mapId: u16, layerId: u16)

  /** `TileCoord`: a tile's position with its map and layer. */
  datatype TileCoord = TileCoord(pos: TilePos, mapId: u16, layerId: u16)

  /** `TileInfo`: a tile entity with its coordinate and auto tile id. */
  datatype TileInfo = TileInfo(coord: TileCoord, entity: Entity, autoTile: AutoTileId)

  /** What the tiles query yields for a tile entity besides the entity itself. */
  datatype TileComponents = TileComponents(pos: TilePos, parent: TileParent, autoTile: AutoTileId)

  /** The tiles query and the map query's tile entities. */
  datatype Queries = Queries(tiles: map<Entity, TileComponents>, tileEntities: map<TileCoord, Entity>)

  /** `TileInfo::new`: the coordinate is the position on the parent's map and layer. */
  function NewTileInfo(entity: Entity, pos: TilePos, parent: TileParent, autoTile: AutoTileId): (r: TileInfo)
    ensures r.entity == entity && r.autoTile == autoTile
    ensures r.coord.pos == pos && r.coord.mapId == parent.mapId && r.coord.layerId == parent.layerId
  {
    TileInfo(TileCoord(pos, parent.mapId, parent.layerId), entity, autoTile)
  }

  /**
   * `TileCoords::pos` of a `TileCoord` (bevy_tileset_map/src/lib.rs): the
   * unsigned position read as `i32`, so a component from 2^31 up is negative.
   */
  function CoordPos(c: TileCoord): (r: IVec2)
    ensures InI32(r.x) && InI32(r.y)
    ensures r.x >= 0 <==> c.pos.x < 0x8000_0000
    ensures r.y >= 0 <==> c.pos.y < 0x8000_0000
  {
    IVec2(AsI32(c.pos.x), AsI32(c.pos.y))
  }

  /** `can_match`: same map, same layer and same auto tile id. */
  predicate CanMatch(a: TileInfo, b: TileInfo) {
    a.coord.mapId == b.coord.mapId && a.coord.layerId == b.coord.layerId && a.autoTile == b.autoTile
  }

  /**
   * `can_match` is an equivalence on tiles; it ignores position and entity,
   * and between auto tile ids it is equality of group and tileset.
   */
  lemma CanMatchIsEquivalence(a: TileInfo, b: TileInfo, c: TileInfo, pos: TilePos, e: Entity)
    ensures CanMatch(a, a)
    ensures CanMatch(a, b) ==> CanMatch(b, a)
    ensures CanMatch(a, b) && CanMatch(b, c) ==> CanMatch(a, c)
    ensures CanMatch(a, b) <==> CanMatch(a, b.(coord := b.coord.(pos := pos), entity := e))
    ensures CanMatch(a, b) ==> a.autoTile.groupId == b.autoTile.groupId && a.autoTile.tilesetId == b.autoTile.tilesetId
  {
  }

  /** `make_coords`: the position converted to unsigned, on the template's map and layer. */
  function MakeCoords(pos: IVec2, template: TileCoord): (r: TileCoord)
    ensures r.mapId == template.mapId && r.layerId == template.layerId
  {
    TileCoord(TilePos(AsU32(pos.x), AsU32(pos.y)), template.mapId, template.layerId)
  }

  /** Read back as `i32`, made coordinates lie at the position they were made from, negative ones included. */
  lemma MakeCoordsPos(pos: IVec2, template: TileCoord)
    requires InI32(pos.x) && InI32(pos.y)
    ensures CoordPos(MakeCoords(pos, template)) == pos
  {
    AsI32AsU32(pos.x);
    AsI32AsU32(pos.y);
  }

  /** Making coordinates from a coordinate's own position gives that coordinate back. */
  lemma MakeCoordsOfOwnPos(c: TileCoord)
    ensures MakeCoords(CoordPos(c), c) == c
  {
    AsU32AsI32(c.pos.x);
    AsU32AsI32(c.pos.y);
  }

  /** A step west of column 0 is made into column 2^32 - 1 of the same row, map and layer. */
  lemma MakeCoordsWrapsNegative(c: TileCoord)
    requires c.pos.x == 0
    ensures MakeCoords(Add(CoordPos(c), IVec2(-1, 0)), c) == TileCoord(TilePos(0xFFFF_FFFF, c.pos.y), c.mapId, c.layerId)
  {
    AsU32AsI32(c.pos.y);
  }

  /** `find_tile` of the tiles query: the entity's tile info, built with `TileInfo::new`. */
  function FindTile(q: Queries, e: Entity): (r: Option<TileInfo>)
    ensures r.Some? <==> e in q.tiles
    ensures r.Some? ==> r.value == NewTileInfo(e, q.tiles[e].pos, q.tiles[e].parent, q.tiles[e].autoTile)
  {
    if e in q.tiles then Some(NewTileInfo(e, q.tiles[e].pos, q.tiles[e].parent, q.tiles[e].autoTile)) else None
  }

  /**
   * `get_tile_at`: nothing when the map query has no tile entity at the
   * coordinate or the tiles query does not yield that entity; otherwise its
   * tile info.
   */
  function GetTileAt(q: Queries, c: TileCoord): (r: Option<TileInfo>)
    ensures r.Some? <==> c in q.tileEntities && q.tileEntities[c] in q.tiles
    ensures r.Some? ==> r.value.entity == q.tileEntities[c] && r.value.autoTile == q.tiles[q.tileEntities[c]].autoTile
  {
    if c in q.tileEntities then FindTile(q, q.tileEntities[c]) else None
  }

  /**
   * The tilemap the generic pass runs over (`TilemapCache`): tile info
   * coordinates and matching, `TileCoord` positions, `make_coords`,
   * `get_tile_at`, and as length the number of tiles the tiles query yields.
   */
  function Tilemap(q: Queries): Core.AutoTilemap<TileInfo, TileCoord> {
    Core.AutoTilemap((t: TileInfo) => t.coord, CanMatch, CoordPos, MakeCoords, (c: TileCoord) => GetTileAt(q, c), |q.tiles|)
  }

  /** Every tile the pass keeps as a valid neighbour is on the centre's map and layer with the centre's auto tile id. */
  lemma {:induction false} NeighborsShareGroup(q: Queries, t: TileInfo)
    ensures forall k | 0 <= k < |Core.TileNeighbors(Tilemap(q), t)| ::
              var n := Core.TileNeighbors(Tilemap(q), t)[k];
              n.coord.mapId == t.coord.mapId && n.coord.layerId == t.coord.layerId && n.autoTile == t.autoTile
  {
    var m := Tilemap(q);
    Core.ValidNeighborsMatch(m, t, Core.Surroundings(m, m.coords(t)));
  }

  /**
   * The pass looks each offset up on the centre's map and layer, at the
   * centre's position plus the offset; for a centre in column 0 the westward
   * offsets are looked up in column 2^32 - 1 instead of being dropped.
   */
  lemma LookupAtOffset(q: Queries, c: TileCoord, offset: IVec2)
    requires offset in Core.Offsets()
    ensures Core.NeighborAt(Tilemap(q), offset, c) == GetTileAt(q, MakeCoords(Add(CoordPos(c), offset), c))
    ensures MakeCoords(Add(CoordPos(c), offset), c).mapId == c.mapId
    ensures MakeCoords(Add(CoordPos(c), offset), c).layerId == c.layerId
    ensures c.pos.x == 0 && offset == IVec2(-1, 0) ==>
              Core.NeighborAt(Tilemap(q), offset, c) == GetTileAt(q, TileCoord(TilePos(0xFFFF_FFFF, c.pos.y), c.mapId, c.layerId))
  {
    Core.OffsetsAreTheRing(offset);
    if c.pos.x == 0 && offset == IVec2(-1, 0) {
      MakeCoordsWrapsNegative(c);
    }
  }
}
