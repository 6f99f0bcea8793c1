/**
 * Saving and loading tilemaps (bevy_ecs_tilemap_tileset/src/serialization.rs).
 *
 * Saving walks the tiles query in order and groups each tile it keeps under
 * its map id and then its layer id, as the tile id its tileset gives its
 * texture index together with its position. The first tile whose tileset or
 * tile id cannot be found makes the whole save fail. `save_maps`,
 * `save_map` and `save_layer` differ only in which tiles they keep, so the
 * model has one loop over a `Selection`.
 *
 * Loading asks the tile placer to place every saved tile and ignores what
 * it answers; the placer itself is not part of this model, so loading is
 * modelled by the placements it attempts.
 */
module Serialization {
  import opened Wrappers
  import opened Primitives
  import opened Ids
  import TS = Tilesets
  import TP = TilesetParams
  import Ecs = EcsAutoTiler

  /** `SerializableTile`: a saved tile's id and position. */
  datatype SerializableTile = SerializableTile(id: TileId, pos: Ecs.UVec2)

  /** Saved tiles by map id, then layer id, in the order they were saved. */
  type TileData = map<u16, map<u16, seq<SerializableTile>>>

  /** `SerializableTilemap` */
  datatype SerializableTilemap = SerializableTilemap(data: TileData)

  /** One row of the tiles query: the tile's texture index, parent, position and tileset. */
  datatype QueriedTile = QueriedTile(textureIndex: u16, parent: Ecs.TileParent, pos: Ecs.UVec2, tileset: TilesetId)

  /** Which tiles a save keeps: all (`save_maps`), one map's (`save_map`) or one layer's (`save_layer`). */
  datatype Selection = AllMaps | OneMap(mapId: u16) | OneLayer(mapId: u16, layerId: u16)

  predicate Keeps(sel: Selection, t: QueriedTile) {
    match sel
    case AllMaps => true
    case OneMap(mapId) => t.parent.mapId == mapId
    case OneLayer(mapId, layerId) => t.parent.mapId == mapId && t.parent.layerId == layerId
  }

  /** The saved id of a tile: its tileset by id, then the tile id of its texture index. */
  function SavedId(m: TP.TilesetMap, assets: map<Handle, TS.Tileset>, t: QueriedTile): (r: Option<TileId>)
    reads m
    ensures r.Some? <==> TP.GetById(m, assets, t.tileset).Some? &&
                         t.textureIndex as nat in TP.GetById(m, assets, t.tileset).value.tileIndices
    ensures r.Some? ==> r.value == TP.GetById(m, assets, t.tileset).value.tileIndices[t.textureIndex as nat]
  {
    match TP.GetById(m, assets, t.tileset)
    case None => None
    case Some(ts) => TS.GetTileId(ts, t.textureIndex as nat)
  }

  /** The saved tile appended to its map's layer, either created empty when missing. */
  function Insert(data: TileData, parent: Ecs.TileParent, tile: SerializableTile): (r: TileData)
    ensures r.Keys == data.Keys + {parent.mapId}
    ensures parent.layerId in r[parent.mapId]
    ensures r[parent.mapId].Keys == (if parent.mapId in data then data[parent.mapId].Keys else {}) + {parent.layerId}
    ensures r[parent.mapId][parent.layerId] ==
            (if parent.mapId in data && parent.layerId in data[parent.mapId]
             then data[parent.mapId][parent.layerId] else []) + [tile]
    ensures forall a | a in data && a != parent.mapId :: r[a] == data[a]
    ensures forall a, b | a in data && b in data[a] && (a, b) != (parent.mapId, parent.layerId) ::
              b in r[a] && r[a][b] == data[a][b]
  {
    var layers := if parent.mapId in data then data[parent.mapId] else map[];
    var tiles := if parent.layerId in layers then layers[parent.layerId] else [];
    data[parent.mapId := layers[parent.layerId := tiles + [tile]]]
  }

  /**
   * The save of the query rows, front to back: nothing once a kept tile's id
   * cannot be found, otherwise every kept tile inserted in turn.
   */
  function Save(m: TP.TilesetMap, assets: map<Handle, TS.Tileset>, sel: Selection, rows: seq<QueriedTile>): Option<TileData>
    reads m
  {
    if |rows| == 0 then Some(map[])
    else
      var t := rows[|rows| - 1];
      match Save(m, assets, sel, rows[..|rows| - 1])
      case None => None
      case Some(data) =>
        if !Keeps(sel, t) then Some(data)
        else match SavedId(m, assets, t)
          case None => None
          case Some(id) => Some(Insert(data, t.parent, SerializableTile(id, t.pos)))
  }

  /** A layer's saved tiles by reference: the kept rows of that layer, in query order. */
  function LayerTiles(m: TP.TilesetMap, assets: map<Handle, TS.Tileset>, sel: Selection, rows: seq<QueriedTile>,
                      mapId: u16, layerId: u16): (r: seq<SerializableTile>)
    reads m
    ensures |r| <= |rows|
  {
    if |rows| == 0 then []
    else
      var t := rows[|rows| - 1];
      var front := LayerTiles(m, assets, sel, rows[..|rows| - 1], mapId, layerId);
      if Keeps(sel, t) && t.parent == Ecs.TileParent(mapId, layerId) && SavedId(m, assets, t).Some?
      then front + [SerializableTile(SavedId(m, assets, t).value, t.pos)]
      else front
  }

  /** Some kept row belongs to the layer. */
  ghost predicate KeptInLayer(sel: Selection, rows: seq<QueriedTile>, mapId: u16, layerId: u16) {
    exists i | 0 <= i < |rows| :: Keeps(sel, rows[i]) && rows[i].parent == Ecs.TileParent(mapId, layerId)
  }

  /** Every saved map holds some layer. */
  ghost predicate MapsHoldLayers(data: TileData) {
    forall a | a in data :: |data[a]| > 0
  }

  /** Every saved layer holds exactly its kept rows, in query order, and comes from some kept row. */
  ghost predicate LayersMatch(m: TP.TilesetMap, assets: map<Handle, TS.Tileset>, sel: Selection, rows: seq<QueriedTile>, data: TileData)
    reads m
  {
    forall a, b | a in data && b in data[a] ::
      data[a][b] == LayerTiles(m, assets, sel, rows, a, b) && |data[a][b]| > 0 && KeptInLayer(sel, rows, a, b)
  }

  /** Every kept row's map and layer are saved. */
  ghost predicate RowsPresent(sel: Selection, rows: seq<QueriedTile>, data: TileData) {
    forall i | 0 <= i < |rows| && Keeps(sel, rows[i]) ::
      rows[i].parent.mapId in data && rows[i].parent.layerId in data[rows[i].parent.mapId]
  }

  /** How saved data is grouped by map and layer. */
  ghost predicate Grouped(m: TP.TilesetMap, assets: map<Handle, TS.Tileset>, sel: Selection, rows: seq<QueriedTile>, data: TileData)
    reads m
  {
    MapsHoldLayers(data) && LayersMatch(m, assets, sel, rows, data) && RowsPresent(sel, rows, data)
  }

  /** The save fails exactly when some kept row's id cannot be found; rows not kept are never looked up. */
  lemma {:induction false} SaveFailsIff(m: TP.TilesetMap, assets: map<Handle, TS.Tileset>, sel: Selection, rows: seq<QueriedTile>)
    ensures Save(m, assets, sel, rows).None? <==>
            exists i | 0 <= i < |rows| :: Keeps(sel, rows[i]) && SavedId(m, assets, rows[i]).None?
  {
    if |rows| > 0 {
      var front := rows[..|rows| - 1];
      SaveFailsIff(m, assets, sel, front);
      if exists i | 0 <= i < |front| :: Keeps(sel, front[i]) && SavedId(m, assets, front[i]).None? {
        var i :| 0 <= i < |front| && Keeps(sel, front[i]) && SavedId(m, assets, front[i]).None?;
        assert rows[i] == front[i];
      }
      if exists i | 0 <= i < |rows| :: Keeps(sel, rows[i]) && SavedId(m, assets, rows[i]).None? {
        var i :| 0 <= i < |rows| && Keeps(sel, rows[i]) && SavedId(m, assets, rows[i]).None?;
        if i < |front| {
          assert front[i] == rows[i];
        }
      }
    }
  }

  /** A save that has failed on a prefix of the rows fails on all of them. */
  lemma {:induction false} SaveFailureSticks(m: TP.TilesetMap, assets: map<Handle, TS.Tileset>, sel: Selection,
                                              rows: seq<QueriedTile>, n: nat)
    requires n <= |rows|
    requires Save(m, assets, sel, rows[..n]).None?
    ensures Save(m, assets, sel, rows).None?
  {
    if n < |rows| {
      var front := rows[..|rows| - 1];
      assert front[..n] == rows[..n];
      SaveFailureSticks(m, assets, sel, front, n);
    } else {
      assert rows[..n] == rows;
    }
  }

  /** A layer no kept row belongs to has no tiles. */
  lemma {:induction false} LayerTilesEmpty(m: TP.TilesetMap, assets: map<Handle, TS.Tileset>, sel: Selection,
                                            rows: seq<QueriedTile>, mapId: u16, layerId: u16)
    requires !KeptInLayer(sel, rows, mapId, layerId)
    ensures LayerTiles(m, assets, sel, rows, mapId, layerId) == []
  {
    if |rows| > 0 {
      var front := rows[..|rows| - 1];
      assert forall i | 0 <= i < |front| :: front[i] == rows[i];
      LayerTilesEmpty(m, assets, sel, front, mapId, layerId);
    }
  }

  /** A row that is not kept leaves the grouping as it was. */
  lemma SkipGrouped(m: TP.TilesetMap, assets: map<Handle, TS.Tileset>, sel: Selection, rows: seq<QueriedTile>, data: TileData)
    requires |rows| > 0 && !Keeps(sel, rows[|rows| - 1])
    requires Grouped(m, assets, sel, rows[..|rows| - 1], data)
    ensures Grouped(m, assets, sel, rows, data)
  {
    var front := rows[..|rows| - 1];
    forall a, b | a in data && b in data[a]
      ensures KeptInLayer(sel, rows, a, b)
    {
      var i :| 0 <= i < |front| && Keeps(sel, front[i]) && front[i].parent == Ecs.TileParent(a, b);
      assert rows[i] == front[i];
    }
    forall i | 0 <= i < |rows| && Keeps(sel, rows[i])
      ensures rows[i].parent.mapId in data && rows[i].parent.layerId in data[rows[i].parent.mapId]
    {
      assert front[i] == rows[i];
    }
  }

  /** Inserting a kept row's tile keeps each saved layer equal to its kept rows. */
  lemma StepLayers(m: TP.TilesetMap, assets: map<Handle, TS.Tileset>, sel: Selection, rows: seq<QueriedTile>,
                   before: TileData, after: TileData)
    requires |rows| > 0 && Keeps(sel, rows[|rows| - 1])
    requires LayersMatch(m, assets, sel, rows[..|rows| - 1], before)
    requires RowsPresent(sel, rows[..|rows| - 1], before)
    requires SavedId(m, assets, rows[|rows| - 1]).Some?
    requires after == Insert(before, rows[|rows| - 1].parent,
                             SerializableTile(SavedId(m, assets, rows[|rows| - 1]).value, rows[|rows| - 1].pos))
    ensures LayersMatch(m, assets, sel, rows, after)
  {
    var front := rows[..|rows| - 1];
    var t := rows[|rows| - 1];
    forall a, b | a in after && b in after[a]
      ensures after[a][b] == LayerTiles(m, assets, sel, rows, a, b) && |after[a][b]| > 0 && KeptInLayer(sel, rows, a, b)
    {
      if t.parent == Ecs.TileParent(a, b) {
        if !(a in before && b in before[a]) {
          assert !KeptInLayer(sel, front, a, b);
          LayerTilesEmpty(m, assets, sel, front, a, b);
        }
        assert Keeps(sel, rows[|rows| - 1]) && rows[|rows| - 1].parent == Ecs.TileParent(a, b);
      } else {
        assert a in before && b in before[a];
        var i :| 0 <= i < |front| && Keeps(sel, front[i]) && front[i].parent == Ecs.TileParent(a, b);
        assert rows[i] == front[i];
      }
    }
  }

  /** Inserting a kept row's tile keeps every map non-empty and every kept row's layer saved. */
  lemma StepRows(sel: Selection, rows: seq<QueriedTile>, before: TileData, tile: SerializableTile)
    requires |rows| > 0
    requires MapsHoldLayers(before)
    requires RowsPresent(sel, rows[..|rows| - 1], before)
    ensures MapsHoldLayers(Insert(before, rows[|rows| - 1].parent, tile))
    ensures RowsPresent(sel, rows, Insert(before, rows[|rows| - 1].parent, tile))
  {
    var front := rows[..|rows| - 1];
    var after := Insert(before, rows[|rows| - 1].parent, tile);
    forall i | 0 <= i < |rows| && Keeps(sel, rows[i])
      ensures rows[i].parent.mapId in after && rows[i].parent.layerId in after[rows[i].parent.mapId]
    {
      if i < |front| {
        assert front[i] == rows[i];
      }
    }
  }

  /** A successful save is grouped by map and layer, each layer holding its kept tiles in query order. */
  lemma {:induction false} SaveGroups(m: TP.TilesetMap, assets: map<Handle, TS.Tileset>, sel: Selection, rows: seq<QueriedTile>)
    requires Save(m, assets, sel, rows).Some?
    ensures Grouped(m, assets, sel, rows, Save(m, assets, sel, rows).value)
  {
    if |rows| > 0 {
      var front := rows[..|rows| - 1];
      var t := rows[|rows| - 1];
      SaveGroups(m, assets, sel, front);
      var before := Save(m, assets, sel, front).value;
      if Keeps(sel, t) {
        var tile := SerializableTile(SavedId(m, assets, t).value, t.pos);
        StepLayers(m, assets, sel, rows, before, Insert(before, t.parent, tile));
        StepRows(sel, rows, before, tile);
      } else {
        SkipGrouped(m, assets, sel, rows, before);
      }
    }
  }


  /** `save_map`'s data holds only the requested map. */
  lemma SaveMapOnlyThatMap(m: TP.TilesetMap, assets: map<Handle, TS.Tileset>, mapId: u16, rows: seq<QueriedTile>)
    requires Save(m, assets, OneMap(mapId), rows).Some?
    ensures Save(m, assets, OneMap(mapId), rows).value.Keys <= {mapId}
  {
    var data := Save(m, assets, OneMap(mapId), rows).value;
    SaveGroups(m, assets, OneMap(mapId), rows);
    forall a | a in data
      ensures a == mapId
    {
      var b :| b in data[a];
      assert KeptInLayer(OneMap(mapId), rows, a, b);
    }
  }

  /** `save_layer`'s data holds only the requested layer of the requested map. */
  lemma SaveLayerOnlyThatLayer(m: TP.TilesetMap, assets: map<Handle, TS.Tileset>, mapId: u16, layerId: u16,
                               rows: seq<QueriedTile>)
    requires Save(m, assets, OneLayer(mapId, layerId), rows).Some?
    ensures Save(m, assets, OneLayer(mapId, layerId), rows).value.Keys <= {mapId}
    ensures forall a | a in Save(m, assets, OneLayer(mapId, layerId), rows).value ::
              Save(m, assets, OneLayer(mapId, layerId), rows).value[a].Keys <= {layerId}
  {
    var data := Save(m, assets, OneLayer(mapId, layerId), rows).value;
    SaveGroups(m, assets, OneLayer(mapId, layerId), rows);
    forall a, b | a in data && b in data[a]
      ensures a == mapId && b == layerId
    {
      assert KeptInLayer(OneLayer(mapId, layerId), rows, a, b);
    }
  }

  /** The save of one more row: the row is skipped, fails the save, or is inserted. */
  lemma SaveStep(m: TP.TilesetMap, assets: map<Handle, TS.Tileset>, sel: Selection, rows: seq<QueriedTile>, i: nat,
                 data: TileData)
    requires i < |rows| && Save(m, assets, sel, rows[..i]) == Some(data)
    ensures !Keeps(sel, rows[i]) ==> Save(m, assets, sel, rows[..i + 1]) == Some(data)
    ensures Keeps(sel, rows[i]) && SavedId(m, assets, rows[i]).None? ==> Save(m, assets, sel, rows[..i + 1]) == None
    ensures Keeps(sel, rows[i]) && SavedId(m, assets, rows[i]).Some? ==>
              Save(m, assets, sel, rows[..i + 1]) ==
              Some(Insert(data, rows[i].parent, SerializableTile(SavedId(m, assets, rows[i]).value, rows[i].pos)))
  {
    assert rows[..i + 1][..i] == rows[..i];
  }

  /**
   * The save loop shared by `save_maps`, `save_map` and `save_layer`: each
   * kept tile's tileset by id, then its tile id, returning nothing at the
   * first that is missing, and the tile appended under its map and layer.
   */
  method SaveTiles(m: TP.TilesetMap, assets: map<Handle, TS.Tileset>, sel: Selection, rows: seq<QueriedTile>)
    returns (r: Option<SerializableTilemap>)
    ensures r.None? <==> Save(m, assets, sel, rows).None?
    ensures r.Some? ==> r.value.data == Save(m, assets, sel, rows).value
  {
    var data: TileData := map[];
    for i := 0 to |rows|
      invariant Save(m, assets, sel, rows[..i]) == Some(data)
    {
      SaveStep(m, assets, sel, rows, i, data);
      var t := rows[i];
      if Keeps(sel, t) {
        var tileset := TP.GetById(m, assets, t.tileset);
        if tileset.None? {
          SaveFailureSticks(m, assets, sel, rows, i + 1);
          return None;
        }
        var id := TS.GetTileId(tileset.value, t.textureIndex as nat);
        if id.None? {
          SaveFailureSticks(m, assets, sel, rows, i + 1);
          return None;
        }
        data := Insert(data, t.parent, SerializableTile(id.value, t.pos));
      }
    }
    assert rows[..|rows|] == rows;
    return Some(SerializableTilemap(data));
  }

  /** `save_maps`: every tile of every map. */
  method SaveMaps(m: TP.TilesetMap, assets: map<Handle, TS.Tileset>, rows: seq<QueriedTile>)
    returns (r: Option<SerializableTilemap>)
    ensures r.None? <==> exists i | 0 <= i < |rows| :: SavedId(m, assets, rows[i]).None?
    ensures r.Some? ==> Grouped(m, assets, AllMaps, rows, r.value.data)
  {
    r := SaveTiles(m, assets, AllMaps, rows);
    SaveFailsIff(m, assets, AllMaps, rows);
    if r.Some? {
      SaveGroups(m, assets, AllMaps, rows);
    }
  }

  /** `save_map`: the tiles of one map; the other maps' tiles are skipped before any lookup. */
  method SaveMap(m: TP.TilesetMap, assets: map<Handle, TS.Tileset>, rows: seq<QueriedTile>, mapId: u16)
    returns (r: Option<SerializableTilemap>)
    ensures r.None? <==> exists i | 0 <= i < |rows| :: rows[i].parent.mapId == mapId && SavedId(m, assets, rows[i]).None?
    ensures r.Some? ==> Grouped(m, assets, OneMap(mapId), rows, r.value.data) && r.value.data.Keys <= {mapId}
  {
    r := SaveTiles(m, assets, OneMap(mapId), rows);
    SaveFailsIff(m, assets, OneMap(mapId), rows);
    if r.Some? {
      SaveGroups(m, assets, OneMap(mapId), rows);
      SaveMapOnlyThatMap(m, assets, mapId, rows);
    }
  }

  /** `save_layer`: the tiles of one layer of one map. */
  method SaveLayer(m: TP.TilesetMap, assets: map<Handle, TS.Tileset>, rows: seq<QueriedTile>, mapId: u16, layerId: u16)
    returns (r: Option<SerializableTilemap>)
    ensures r.None? <==> exists i | 0 <= i < |rows| ::
              rows[i].parent == Ecs.TileParent(mapId, layerId) && SavedId(m, assets, rows[i]).None?
    ensures r.Some? ==> Grouped(m, assets, OneLayer(mapId, layerId), rows, r.value.data)
    ensures r.Some? ==> r.value.data.Keys <= {mapId} && forall a | a in r.value.data :: r.value.data[a].Keys <= {layerId}
  {
    r := SaveTiles(m, assets, OneLayer(mapId, layerId), rows);
    SaveFailsIff(m, assets, OneLayer(mapId, layerId), rows);
    if r.Some? {
      SaveGroups(m, assets, OneLayer(mapId, layerId), rows);
      SaveLayerOnlyThatLayer(m, assets, mapId, layerId, rows);
    }
  }

  /** A call to the tile placer: place this tile id at this position on this map and layer. */
  datatype Placement = Placement(id: TileId, pos: Ecs.UVec2, mapId: u16, layerId: u16)

  /** The placement is of a tile saved at that map and layer. */
  ghost predicate IsSaved(data: TileData, p: Placement) {
    p.mapId in data && p.layerId in data[p.mapId] && SerializableTile(p.id, p.pos) in data[p.mapId][p.layerId]
  }

  /** The placements of a layer's tiles on map `a`, layer `b`, in saved order. */
  function LayerPlacements(tiles: seq<SerializableTile>, a: u16, b: u16): (r: seq<Placement>)
    ensures |r| == |tiles|
    ensures forall k | 0 <= k < |tiles| :: r[k] == Placement(tiles[k].id, tiles[k].pos, a, b)
  {
    seq(|tiles|, k requires 0 <= k < |tiles| => Placement(tiles[k].id, tiles[k].pos, a, b))
  }

  /** The attempts made on map `a`, layer `b`, in the order they were made. */
  function AttemptsAt(attempts: seq<Placement>, a: u16, b: u16): seq<Placement> {
    if |attempts| == 0 then []
    else
      var last := attempts[|attempts| - 1];
      AttemptsAt(attempts[..|attempts| - 1], a, b) + (if last.mapId == a && last.layerId == b then [last] else [])
  }

  /** Attempts made one run after another are, on each map and layer, the first run's then the second's. */
  lemma {:induction false} AttemptsAtAppend(x: seq<Placement>, y: seq<Placement>, a: u16, b: u16)
    ensures AttemptsAt(x + y, a, b) == AttemptsAt(x, a, b) + AttemptsAt(y, a, b)
    decreases |y|
  {
    if |y| > 0 {
      var front := y[..|y| - 1];
      assert (x + y)[..|x + y| - 1] == x + front;
      AttemptsAtAppend(x, front, a, b);
    } else {
      assert x + y == x;
    }
  }

  /** A layer's placements are all on its own map and layer, so only there do they show up, all of them and in order. */
  lemma {:induction false} AttemptsAtLayer(tiles: seq<SerializableTile>, mapId: u16, layerId: u16, a: u16, b: u16)
    ensures AttemptsAt(LayerPlacements(tiles, mapId, layerId), a, b) ==
            if a == mapId && b == layerId then LayerPlacements(tiles, mapId, layerId) else []
    decreases |tiles|
  {
    if |tiles| > 0 {
      var front := tiles[..|tiles| - 1];
      assert LayerPlacements(tiles, mapId, layerId)[..|tiles| - 1] == LayerPlacements(front, mapId, layerId);
      AttemptsAtLayer(front, mapId, layerId, a, b);
      if a == mapId && b == layerId {
        assert LayerPlacements(tiles, mapId, layerId) ==
               LayerPlacements(front, mapId, layerId) + [LayerPlacements(tiles, mapId, layerId)[|tiles| - 1]];
      }
    }
  }

  /** One more layer `c` of map `mapId` placed after the layers in `done`: on each map and layer, its tiles join in order. */
  lemma PlaceLayerStep(attempts: seq<Placement>, before: seq<Placement>, mapId: u16,
                       layers: map<u16, seq<SerializableTile>>, done: set<u16>, c: u16)
    requires c in layers && c !in done && done <= layers.Keys
    requires forall a, b :: AttemptsAt(before, a, b) ==
               AttemptsAt(attempts, a, b) + if a == mapId && b in done then LayerPlacements(layers[b], a, b) else []
    ensures forall a, b :: AttemptsAt(before + LayerPlacements(layers[c], mapId, c), a, b) ==
              AttemptsAt(attempts, a, b) + if a == mapId && b in done + {c} then LayerPlacements(layers[b], a, b) else []
  {
    forall a, b
      ensures AttemptsAt(before + LayerPlacements(layers[c], mapId, c), a, b) ==
              AttemptsAt(attempts, a, b) + if a == mapId && b in done + {c} then LayerPlacements(layers[b], a, b) else []
    {
      AttemptsAtAppend(before, LayerPlacements(layers[c], mapId, c), a, b);
      AttemptsAtLayer(layers[c], mapId, c, a, b);
    }
  }

  /** One more map `c` placed after the maps in `done`: each of its layers' tiles shows up in order on that layer. */
  lemma PlaceMapStep(data: TileData, before: seq<Placement>, after: seq<Placement>, done: set<u16>, c: u16)
    requires c in data && c !in done && done <= data.Keys
    requires forall a, b :: AttemptsAt(before, a, b) ==
               if a in done && b in data[a] then LayerPlacements(data[a][b], a, b) else []
    requires forall a, b :: AttemptsAt(after, a, b) ==
               AttemptsAt(before, a, b) + if a == c && b in data[c] then LayerPlacements(data[c][b], a, b) else []
    ensures forall a, b :: AttemptsAt(after, a, b) ==
              if a in done + {c} && b in data[a] then LayerPlacements(data[a][b], a, b) else []
  {
    forall a, b
      ensures AttemptsAt(after, a, b) == if a in done + {c} && b in data[a] then LayerPlacements(data[a][b], a, b) else []
    {
      assert AttemptsAt(after, a, b) ==
             AttemptsAt(before, a, b) + if a == c && b in data[c] then LayerPlacements(data[c][b], a, b) else [];
      if a == c {
        assert AttemptsAt(before, a, b) == [];
      }
    }
  }

  /** Placing one layer after `before` keeps every earlier attempt and adds exactly that layer's tiles. */
  lemma PlaceLayerMembers(before: seq<Placement>, mapId: u16, layerId: u16, tiles: seq<SerializableTile>)
    ensures forall p | p in before :: p in before + LayerPlacements(tiles, mapId, layerId)
    ensures forall p | p in before + LayerPlacements(tiles, mapId, layerId) ::
              p in before || (p.mapId == mapId && p.layerId == layerId && SerializableTile(p.id, p.pos) in tiles)
    ensures forall j | 0 <= j < |tiles| ::
              Placement(tiles[j].id, tiles[j].pos, mapId, layerId) in before + LayerPlacements(tiles, mapId, layerId)
  {
    var r := before + LayerPlacements(tiles, mapId, layerId);
    forall p | p in r
      ensures p in before || (p.mapId == mapId && p.layerId == layerId && SerializableTile(p.id, p.pos) in tiles)
    {
      var k :| 0 <= k < |r| && r[k] == p;
      if k >= |before| {
        assert SerializableTile(p.id, p.pos) == tiles[k - |before|];
      }
    }
    forall j | 0 <= j < |tiles|
      ensures Placement(tiles[j].id, tiles[j].pos, mapId, layerId) in r
    {
      assert r[|before| + j] == Placement(tiles[j].id, tiles[j].pos, mapId, layerId);
    }
  }

  /** One more map `c` placed after the maps in `done`: every attempt is still of a saved tile, and its tiles are all attempted. */
  lemma PlaceMapMembers(data: TileData, before: seq<Placement>, after: seq<Placement>, done: set<u16>, c: u16)
    requires c in data && done <= data.Keys
    requires forall p | p in before :: IsSaved(data, p)
    requires forall a, b, j | a in done && b in data[a] && 0 <= j < |data[a][b]| ::
               Placement(data[a][b][j].id, data[a][b][j].pos, a, b) in before
    requires forall p | p in before :: p in after
    requires forall p | p in after :: p in before ||
               (p.mapId == c && p.layerId in data[c] && SerializableTile(p.id, p.pos) in data[c][p.layerId])
    requires forall b, j | b in data[c] && 0 <= j < |data[c][b]| :: Placement(data[c][b][j].id, data[c][b][j].pos, c, b) in after
    ensures forall p | p in after :: IsSaved(data, p)
    ensures forall a, b, j | a in done + {c} && b in data[a] && 0 <= j < |data[a][b]| ::
              Placement(data[a][b][j].id, data[a][b][j].pos, a, b) in after
  {
  }

  /** The inner loop of `load_maps`: each tile of one layer placed in saved order. */
  method PlaceLayer(attempts: seq<Placement>, mapId: u16, layerId: u16, tiles: seq<SerializableTile>)
    returns (r: seq<Placement>)
    ensures |r| == |attempts| + |tiles| && r[..|attempts|] == attempts
    ensures forall k | 0 <= k < |tiles| :: r[|attempts| + k] == Placement(tiles[k].id, tiles[k].pos, mapId, layerId)
    ensures r == attempts + LayerPlacements(tiles, mapId, layerId)
  {
    r := attempts;
    for j := 0 to |tiles|
      invariant |r| == |attempts| + j && r[..|attempts|] == attempts
      invariant forall k | 0 <= k < j :: r[|attempts| + k] == Placement(tiles[k].id, tiles[k].pos, mapId, layerId)
    {
      r := r + [Placement(tiles[j].id, tiles[j].pos, mapId, layerId)];
    }
  }

  /** The middle loop of `load_maps`: every layer of one map placed, in the layers' iteration order. */
  method PlaceMap(attempts: seq<Placement>, mapId: u16, layers: map<u16, seq<SerializableTile>>)
    returns (r: seq<Placement>)
    ensures forall p | p in attempts :: p in r
    ensures forall p | p in r :: p in attempts ||
              (p.mapId == mapId && p.layerId in layers && SerializableTile(p.id, p.pos) in layers[p.layerId])
    ensures forall b, j | b in layers && 0 <= j < |layers[b]| :: Placement(layers[b][j].id, layers[b][j].pos, mapId, b) in r
    ensures forall a, b :: AttemptsAt(r, a, b) ==
              AttemptsAt(attempts, a, b) + if a == mapId && b in layers then LayerPlacements(layers[b], a, b) else []
  {
    r := attempts;
    var todo := layers.Keys;
    ghost var done: set<u16> := {};
    while todo != {}
      invariant todo + done == layers.Keys && todo !! done
      invariant forall p | p in attempts :: p in r
      invariant forall p | p in r :: p in attempts ||
                  (p.mapId == mapId && p.layerId in layers && SerializableTile(p.id, p.pos) in layers[p.layerId])
      invariant forall b, j | b in done && 0 <= j < |layers[b]| :: Placement(layers[b][j].id, layers[b][j].pos, mapId, b) in r
      invariant forall a, b :: AttemptsAt(r, a, b) ==
                  AttemptsAt(attempts, a, b) + if a == mapId && b in done then LayerPlacements(layers[b], a, b) else []
      decreases |todo|
    {
      var b :| b in todo;
      var before := r;
      r := PlaceLayer(r, mapId, b, layers[b]);
      PlaceLayerStep(attempts, before, mapId, layers, done, b);
      PlaceLayerMembers(before, mapId, b, layers[b]);
      todo := todo - {b};
      done := done + {b};
    }
  }

  /**
   * `load_maps`: every saved tile is placed on the map and layer it was
   * saved under, whatever the placer answers for the others, and nothing
   * else is placed. Maps and layers come in the maps' iteration order,
   * which is unspecified; within a layer, tiles come in saved order.
   */
  method LoadMaps(tilemap: SerializableTilemap) returns (attempts: seq<Placement>)
    ensures forall p | p in attempts :: IsSaved(tilemap.data, p)
    ensures forall a, b, j | a in tilemap.data && b in tilemap.data[a] && 0 <= j < |tilemap.data[a][b]| ::
              Placement(tilemap.data[a][b][j].id, tilemap.data[a][b][j].pos, a, b) in attempts
    ensures forall a, b :: AttemptsAt(attempts, a, b) ==
              if a in tilemap.data && b in tilemap.data[a] then LayerPlacements(tilemap.data[a][b], a, b) else []
  {
    var data := tilemap.data;
    attempts := [];
    var todo := data.Keys;
    ghost var done: set<u16> := {};
    while todo != {}
      invariant todo + done == data.Keys && todo !! done
      invariant forall p | p in attempts :: IsSaved(data, p)
      invariant forall a, b, j | a in done && b in data[a] && 0 <= j < |data[a][b]| ::
                  Placement(data[a][b][j].id, data[a][b][j].pos, a, b) in attempts
      invariant forall a, b :: AttemptsAt(attempts, a, b) ==
                  if a in done && b in data[a] then LayerPlacements(data[a][b], a, b) else []
      decreases |todo|
    {
      var a :| a in todo;
      ghost var before := attempts;
      attempts := PlaceMap(attempts, a, data[a]);
      PlaceMapStep(data, before, attempts, done, a);
      PlaceMapMembers(data, before, attempts, done, a);
      todo := todo - {a};
      done := done + {a};
    }
  }
}
