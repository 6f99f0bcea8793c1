/**
 * The resolution pass of the `bevy_ecs_tilemap` integration
 * (bevy_ecs_tilemap_tileset/src/auto/auto_tiler.rs). It follows the generic
 * pass, but works on ECS entities: neighbours are found through the map
 * query's tile entities, their data through the tiles query, and a
 * neighbour position with a negative component is dropped before any
 * lookup, since tile positions are unsigned.
 *
 * The two queries are read-only during a pass and are modelled as maps: the
 * tiles query from entity to the components it yields, the map query from
 * tile coordinate to the tile entity there.
 */
module EcsAutoTiler {
  import opened Wrappers
  import opened Primitives
  import opened Rules
  import opened AutoTileComponent
  import Core = CoreAutoTiler
  import SeqUtil

  /** `UVec2`: an unsigned tile position. */
  datatype UVec2 = UVec2(x: u32, y: u32)

  /** `UVec2::as_i32` */
  function AsI32Vec(v: UVec2): IVec2 {
    IVec2(AsI32(v.x), AsI32(v.y))
  }

  /** `IVec2::as_u32` */
  function AsU32Vec(v: IVec2): UVec2 {
    UVec2(AsU32(v.x), AsU32(v.y))
  }

  /** The map and layer a tile entity belongs to (`TileParent`). */
  datatype TileParent = TileParent(mapId: u16, layerId: u16)

  /** `TileCoord`: a tile's position with its map and layer. */
  datatype TileCoord = TileCoord(pos: UVec2, mapId: u16, layerId: u16)

  /** `TileObject`: a tile entity with its coordinate and auto tile. */
  datatype TileObject = TileObject(coord: TileCoord, entity: Entity, autoTile: AutoTile)

  /** `TileUpdateRequest`: the entity to update and the rule it should match. */
  datatype TileUpdateRequest = TileUpdateRequest(entity: Entity, rule: AutoTileRule)

  /** What the tiles query yields for a tile entity besides the entity itself. */
  datatype TileComponents = TileComponents(pos: UVec2, parent: TileParent, autoTile: AutoTile)

  /** The ECS state a pass reads: the tiles query and the map query's tile entities. */
  datatype World = World(tiles: map<Entity, TileComponents>, tileEntities: map<TileCoord, Entity>)

  /** `TileObject::new_with_parent`: the coordinate takes the parent's map and layer. */
  function NewWithParent(entity: Entity, pos: UVec2, parent: TileParent, autoTile: AutoTile): (r: TileObject)
    ensures r.entity == entity && r.autoTile == autoTile
    ensures r.coord.pos == pos && r.coord.mapId == parent.mapId && r.coord.layerId == parent.layerId
  {
    TileObject(TileCoord(pos, parent.mapId, parent.layerId), entity, autoTile)
  }

  /**
   * `find_tile` of the tiles query: the entity's tile object, built with
   * `new_with_parent`, or nothing for an entity the query does not yield.
   */
  function FindTile(w: World, e: Entity): (r: Option<TileObject>)
    ensures r.Some? <==> e in w.tiles
    ensures r.Some? ==> r.value.entity == e && r.value.autoTile == w.tiles[e].autoTile
                        && r.value.coord.pos == w.tiles[e].pos
  {
    if e in w.tiles then Some(NewWithParent(e, w.tiles[e].pos, w.tiles[e].parent, w.tiles[e].autoTile)) else None
  }

  /** `is_valid_neighbor`: same map, same layer and equal auto tiles. */
  predicate IsValidNeighbor(tile: TileObject, neighbor: TileObject) {
    && tile.coord.mapId == neighbor.coord.mapId
    && tile.coord.layerId == neighbor.coord.layerId
    && tile.autoTile == neighbor.autoTile
  }

  /**
   * Being a valid neighbour is an equivalence: every tile is one of its
   * own, and the relation is symmetric and transitive. Position and entity
   * play no part in it.
   */
  lemma IsValidNeighborEquivalence(a: TileObject, b: TileObject, c: TileObject, pos: UVec2, e: Entity)
    ensures IsValidNeighbor(a, a)
    ensures IsValidNeighbor(a, b) ==> IsValidNeighbor(b, a)
    ensures IsValidNeighbor(a, b) && IsValidNeighbor(b, c) ==> IsValidNeighbor(a, c)
    ensures IsValidNeighbor(a, b) <==> IsValidNeighbor(a, b.(coord := b.coord.(pos := pos), entity := e))
  {
  }

  // ---------------------------------------------------------------------------
  // Neighbourhood

  /** The cache and map query key of a neighbour position: it inherits the centre's map and layer. */
  function KeyAt(nPos: IVec2, coord: TileCoord): TileCoord {
    TileCoord(AsU32Vec(nPos), coord.mapId, coord.layerId)
  }

  /**
   * The position `get_neighbor_at_offset` looks at: none for the zero
   * offset, and none when either component is negative; otherwise the
   * centre's position plus the offset.
   */
  function NeighborPos(offset: IVec2, coord: TileCoord): Option<IVec2> {
    if offset.x == 0 && offset.y == 0 then None
    else
      var nPos := Add(AsI32Vec(coord.pos), offset);
      if nPos.x >= 0 && nPos.y >= 0 then Some(nPos) else None
  }

  /**
   * A neighbour position is looked up on the centre's map and layer, at the
   * position itself: read back as `i32`, the key's position is the neighbour's.
   */
  lemma KeyInheritsMapAndLayer(offset: IVec2, coord: TileCoord)
    requires NeighborPos(offset, coord).Some?
    requires InI32(NeighborPos(offset, coord).value.x) && InI32(NeighborPos(offset, coord).value.y)
    ensures KeyAt(NeighborPos(offset, coord).value, coord).mapId == coord.mapId
    ensures KeyAt(NeighborPos(offset, coord).value, coord).layerId == coord.layerId
    ensures AsI32Vec(KeyAt(NeighborPos(offset, coord).value, coord).pos) == NeighborPos(offset, coord).value
  {
    var n := NeighborPos(offset, coord).value;
    AsI32AsU32(n.x);
    AsI32AsU32(n.y);
  }

  /** What `get_neighbor_at_offset` finds when nothing is cached: the position and the map query's entity there. */
  function NeighborAt(w: World, offset: IVec2, coord: TileCoord): Option<(IVec2, Entity)> {
    match NeighborPos(offset, coord)
    case None => None
    case Some(nPos) =>
      if KeyAt(nPos, coord) in w.tileEntities then Some((nPos, w.tileEntities[KeyAt(nPos, coord)])) else None
  }

  /** What `get_neighbors` finds when nothing is cached: one lookup per offset, in the generic pass's order. */
  function Surroundings(w: World, coord: TileCoord): (r: seq<Option<(IVec2, Entity)>>)
    ensures |r| == 8
  {
    seq(8, i requires 0 <= i < 8 => NeighborAt(w, Core.Offsets()[i], coord))
  }

  /**
   * At position (0,0) a non-zero offset survives the negative filter
   * exactly when neither component is negative, and then names a tile
   * exactly when the map query has a tile entity at the offset itself.
   */
  lemma NeighborAtOrigin(w: World, offset: IVec2, coord: TileCoord)
    requires coord.pos == UVec2(0, 0) && (offset.x != 0 || offset.y != 0)
    ensures NeighborAt(w, offset, coord).Some? <==>
              offset.x >= 0 && offset.y >= 0 && KeyAt(offset, coord) in w.tileEntities
  {
    assert AsI32Vec(coord.pos) == IVec2(0, 0);
    assert NeighborPos(offset, coord) == if offset.x >= 0 && offset.y >= 0 then Some(offset) else None;
  }

  /** The `k`-th candidate around (0,0) is the lookup at the `k`-th offset itself. */
  lemma OriginCandidate(w: World, coord: TileCoord, k: nat)
    requires coord.pos == UVec2(0, 0) && k < 8
    ensures Surroundings(w, coord)[k].Some? <==>
              Core.Offsets()[k].x >= 0 && Core.Offsets()[k].y >= 0 && KeyAt(Core.Offsets()[k], coord) in w.tileEntities
  {
    var o := Core.Offsets()[k];
    Core.OffsetsAreTheRing(o);
    NeighborAtOrigin(w, o, coord);
  }

  /** Of the eight offsets, only (0,1), (1,1) and (1,0), the second, third and fifth visited, have no negative component. */
  lemma NonNegativeOffsets()
    ensures forall k | 0 <= k < 8 :: Core.Offsets()[k].x >= 0 && Core.Offsets()[k].y >= 0 <==> k == 1 || k == 2 || k == 4
    ensures Core.Offsets()[1] == IVec2(0, 1) && Core.Offsets()[2] == IVec2(1, 1) && Core.Offsets()[4] == IVec2(1, 0)
  {
  }

  /** Every candidate names the entity the map query holds at its key. */
  ghost predicate FromTileEntities(w: World, coord: TileCoord, candidates: seq<Option<(IVec2, Entity)>>) {
    forall i | 0 <= i < |candidates| && candidates[i].Some? ::
      KeyAt(candidates[i].value.0, coord) in w.tileEntities
      && w.tileEntities[KeyAt(candidates[i].value.0, coord)] == candidates[i].value.1
  }

  /** The surroundings of a coordinate are taken from the map query. */
  lemma SurroundingsFromTileEntities(w: World, coord: TileCoord)
    ensures FromTileEntities(w, coord, Surroundings(w, coord))
  {
  }

  /**
   * What `filter_neighbors` keeps of one candidate when nothing is cached:
   * the tiles query's object for the candidate's entity, if there is one
   * and it is a valid neighbour of `tile`.
   */
  function Kept(w: World, tile: TileObject, candidate: Option<(IVec2, Entity)>): seq<TileObject> {
    match candidate
    case None => []
    case Some((_, e)) =>
      match FindTile(w, e)
      case None => []
      case Some(found) => if IsValidNeighbor(tile, found) then [found] else []
  }

  /** What `filter_neighbors` returns when nothing is cached: the kept tiles, in candidate order. */
  function ValidNeighbors(w: World, tile: TileObject, candidates: seq<Option<(IVec2, Entity)>>): seq<TileObject> {
    if |candidates| == 0 then []
    else ValidNeighbors(w, tile, candidates[..|candidates| - 1]) + Kept(w, tile, candidates[|candidates| - 1])
  }

  /**
   * A tile object is a valid neighbour exactly when it is the tiles query's
   * object for some candidate's entity and shares map, layer and auto tile
   * with the centre.
   */
  lemma {:induction false} ValidNeighborsIff(w: World, tile: TileObject, candidates: seq<Option<(IVec2, Entity)>>,
                                            x: TileObject)
    ensures x in ValidNeighbors(w, tile, candidates) <==>
              IsValidNeighbor(tile, x) &&
              exists i | 0 <= i < |candidates| :: candidates[i].Some? && FindTile(w, candidates[i].value.1) == Some(x)
  {
    if |candidates| > 0 {
      var front := candidates[..|candidates| - 1];
      var last := |candidates| - 1;
      ValidNeighborsIff(w, tile, front, x);
      if exists i | 0 <= i < |candidates| :: candidates[i].Some? && FindTile(w, candidates[i].value.1) == Some(x) {
        var i :| 0 <= i < |candidates| && candidates[i].Some? && FindTile(w, candidates[i].value.1) == Some(x);
        if i < last {
          assert front[i] == candidates[i];
        }
      }
      if x in ValidNeighbors(w, tile, front) {
        var i :| 0 <= i < |front| && front[i].Some? && FindTile(w, front[i].value.1) == Some(x);
        assert candidates[i] == front[i];
      }
    }
  }

  /** The number of candidates that name an entity. */
  function Present(candidates: seq<Option<(IVec2, Entity)>>): nat {
    if |candidates| == 0 then 0
    else Present(candidates[..|candidates| - 1]) + (if candidates[|candidates| - 1].Some? then 1 else 0)
  }

  /** There are never more valid neighbours than candidates naming an entity. */
  lemma {:induction false} ValidNeighborsAtMostPresent(w: World, tile: TileObject,
                                                      candidates: seq<Option<(IVec2, Entity)>>)
    ensures |ValidNeighbors(w, tile, candidates)| <= Present(candidates)
  {
    if |candidates| > 0 {
      ValidNeighborsAtMostPresent(w, tile, candidates[..|candidates| - 1]);
    }
  }

  /** Eight candidates of which the first, fourth, sixth, seventh and eighth name nothing have at most three present. */
  lemma PresentOutsideCorner(candidates: seq<Option<(IVec2, Entity)>>)
    requires |candidates| == 8
    requires candidates[0].None? && candidates[3].None? && candidates[5].None?
    requires candidates[6].None? && candidates[7].None?
    ensures Present(candidates) <= 3
  {
    PresentStep(candidates, 0);
    PresentStep(candidates, 1);
    PresentStep(candidates, 2);
    PresentStep(candidates, 3);
    PresentStep(candidates, 4);
    PresentStep(candidates, 5);
    PresentStep(candidates, 6);
    PresentStep(candidates, 7);
    assert candidates[..8] == candidates;
  }

  /** A tile at position (0,0) has at most three valid neighbours. */
  lemma OriginAtMostThree(w: World, tile: TileObject)
    requires tile.coord.pos == UVec2(0, 0)
    ensures |ValidNeighbors(w, tile, Surroundings(w, tile.coord))| <= 3
  {
    var s := Surroundings(w, tile.coord);
    OriginCandidate(w, tile.coord, 0);
    OriginCandidate(w, tile.coord, 3);
    OriginCandidate(w, tile.coord, 5);
    OriginCandidate(w, tile.coord, 6);
    OriginCandidate(w, tile.coord, 7);
    ValidNeighborsAtMostPresent(w, tile, s);
    PresentOutsideCorner(s);
  }

  /** Counting one more candidate adds one exactly when it names an entity. */
  lemma PresentStep(candidates: seq<Option<(IVec2, Entity)>>, i: nat)
    requires i < |candidates|
    ensures Present(candidates[..i + 1]) == Present(candidates[..i]) + if candidates[i].Some? then 1 else 0
  {
    assert candidates[..i + 1][..i] == candidates[..i];
  }

  // ---------------------------------------------------------------------------
  // Requests

  /** The position a tile's offsets are taken from: its coordinate's position as `i32`. */
  function ObjectPos(t: TileObject): IVec2 {
    AsI32Vec(t.coord.pos)
  }

  /** The positions of `tiles`, in order. */
  function Positions(tiles: seq<TileObject>): (r: seq<IVec2>)
    ensures |r| == |tiles|
  {
    if |tiles| == 0 then [] else Positions(tiles[..|tiles| - 1]) + [ObjectPos(tiles[|tiles| - 1])]
  }

  /** Each tile's position sits at the tile's place. */
  lemma {:induction false} PositionsAt(tiles: seq<TileObject>, k: nat)
    requires k < |tiles|
    ensures Positions(tiles)[k] == ObjectPos(tiles[k])
  {
    if k < |tiles| - 1 {
      PositionsAt(tiles[..|tiles| - 1], k);
    }
  }

  /** The valid neighbours of `t`: its surroundings, filtered against it. */
  function TileNeighbors(w: World, t: TileObject): seq<TileObject> {
    ValidNeighbors(w, t, Surroundings(w, t.coord))
  }

  /** The request the pass makes for `t`: its entity and the rule of its own valid neighbours. */
  function RequestFor(w: World, t: TileObject): TileUpdateRequest {
    TileUpdateRequest(t.entity, Core.GenerateRule(ObjectPos(t), Positions(TileNeighbors(w, t))))
  }

  /**
   * The rule requested for a tile sets a direction to `Some(true)` exactly
   * when one of its valid neighbours sits in that direction, and leaves it
   * unset otherwise.
   */
  lemma RequestRule(w: World, t: TileObject, d: Direction)
    ensures Get(RequestFor(w, t).rule, d) ==
              if exists k | 0 <= k < |TileNeighbors(w, t)| ::
                   Core.DeltaDirection(Sub(ObjectPos(TileNeighbors(w, t)[k]), ObjectPos(t))) == Some(d)
              then Some(true) else None
  {
    var ns := TileNeighbors(w, t);
    Core.GenerateRuleIff(ObjectPos(t), Positions(ns), d);
    forall k | 0 <= k < |ns|
      ensures Positions(ns)[k] == ObjectPos(ns[k])
    {
      PositionsAt(ns, k);
    }
  }

  /** The request made from a tile's filtered surroundings and the rule generated from them is the tile's request. */
  lemma RequestForIs(w: World, t: TileObject, neighbors: seq<TileObject>, rule: AutoTileRule)
    requires neighbors == TileNeighbors(w, t)
    requires rule == Core.GenerateRule(ObjectPos(t), Positions(neighbors))
    ensures TileUpdateRequest(t.entity, rule) == RequestFor(w, t)
  {
  }

  /** `RequestFor` over the queries in `w`, as a function of the tile. */
  function RequestOf(w: World): TileObject -> TileUpdateRequest {
    t => RequestFor(w, t)
  }

  /** A tile object's coordinate. */
  function CoordOf(t: TileObject): TileCoord {
    t.coord
  }

  /** One request per tile, in order. */
  function RequestsFor(w: World, tiles: seq<TileObject>): seq<TileUpdateRequest> {
    SeqUtil.Map(RequestOf(w), tiles)
  }

  /** The coordinates of `tiles`. */
  function CoordsOf(tiles: seq<TileObject>): set<TileCoord> {
    SeqUtil.Image(CoordOf, tiles)
  }

  /** Requesting one more tile appends its request and records its coordinate. */
  lemma RequestsForStep(w: World, tiles: seq<TileObject>, i: nat)
    requires i < |tiles|
    ensures RequestsFor(w, tiles[..i + 1]) == RequestsFor(w, tiles[..i]) + [RequestFor(w, tiles[i])]
    ensures CoordsOf(tiles[..i + 1]) == CoordsOf(tiles[..i]) + {tiles[i].coord}
  {
    SeqUtil.MapStep(RequestOf(w), tiles, i);
    SeqUtil.MapStep(CoordOf, tiles, i);
  }

  /** Requesting one tile gives its request alone and records its coordinate alone. */
  lemma RequestsForSingle(w: World, t: TileObject)
    ensures RequestsFor(w, [t]) == [RequestFor(w, t)]
    ensures CoordsOf([t]) == {t.coord}
  {
    SeqUtil.MapSingle(RequestOf(w), t);
    SeqUtil.MapSingle(CoordOf, t);
  }

  /** Requesting two runs of tiles one after the other requests their concatenation. */
  lemma RequestsForAppend(w: World, a: seq<TileObject>, b: seq<TileObject>)
    ensures RequestsFor(w, a + b) == RequestsFor(w, a) + RequestsFor(w, b)
    ensures CoordsOf(a + b) == CoordsOf(a) + CoordsOf(b)
  {
    SeqUtil.MapAppend(RequestOf(w), a, b);
    SeqUtil.MapAppend(CoordOf, a, b);
  }

  /** Each tile's request sits at the tile's place. */
  lemma RequestsForAt(w: World, tiles: seq<TileObject>)
    ensures |RequestsFor(w, tiles)| == |tiles|
    ensures forall k | 0 <= k < |tiles| :: RequestsFor(w, tiles)[k] == RequestFor(w, tiles[k])
  {
    SeqUtil.MapAt(RequestOf(w), tiles);
  }

  /**
   * The tiles `add_tile` requests for a centre not yet requested: the
   * centre itself if `includeSelf`, then its valid neighbours in offset order.
   */
  function RequestedTiles(w: World, base: TileObject, includeSelf: bool): seq<TileObject> {
    (if includeSelf then [base] else []) + TileNeighbors(w, base)
  }

  /** The requests `add_tile` appends for a centre not yet requested: one per requested tile, in order. */
  function AddTileRequests(w: World, base: TileObject, includeSelf: bool): seq<TileUpdateRequest> {
    RequestsFor(w, RequestedTiles(w, base, includeSelf))
  }

  /** The requests of one pass step: the centre's own, if included, then its neighbours'. */
  lemma AddTileRequestsSplit(w: World, base: TileObject, includeSelf: bool, valid: seq<TileObject>)
    requires valid == TileNeighbors(w, base)
    ensures AddTileRequests(w, base, includeSelf) == RequestsFor(w, if includeSelf then [base] else []) + RequestsFor(w, valid)
    ensures CoordsOf(RequestedTiles(w, base, includeSelf)) == CoordsOf(if includeSelf then [base] else []) + CoordsOf(valid)
  {
    RequestsForAppend(w, if includeSelf then [base] else [], valid);
  }

  /** The requests and coordinates of the centre's own part followed by its neighbours' are those of one pass step. */
  lemma AddTileOutcome(w: World, base: TileObject, includeSelf: bool, valid: seq<TileObject>,
                       before: seq<TileUpdateRequest>, middle: seq<TileUpdateRequest>, after: seq<TileUpdateRequest>,
                       beforeSet: set<TileCoord>, middleSet: set<TileCoord>, afterSet: set<TileCoord>)
    requires valid == TileNeighbors(w, base)
    requires middle == before + RequestsFor(w, if includeSelf then [base] else [])
    requires after == middle + RequestsFor(w, valid)
    requires middleSet == beforeSet + CoordsOf(if includeSelf then [base] else [])
    requires afterSet == middleSet + CoordsOf(valid)
    ensures after == before + AddTileRequests(w, base, includeSelf)
    ensures afterSet == beforeSet + CoordsOf(RequestedTiles(w, base, includeSelf))
  {
    AddTileRequestsSplit(w, base, includeSelf, valid);
    SeqUtil.AppendAssoc(before, RequestsFor(w, if includeSelf then [base] else []), RequestsFor(w, valid));
  }

  /**
   * One pass step requests at most nine tiles: the centre, first, exactly
   * when `includeSelf`, then each valid neighbour, each on the centre's map
   * and layer with the centre's auto tile; at position (0,0) at most four.
   */
  lemma {:induction false} RequestedTilesShape(w: World, base: TileObject, includeSelf: bool)
    ensures |RequestedTiles(w, base, includeSelf)| == |TileNeighbors(w, base)| + (if includeSelf then 1 else 0) <= 9
    ensures base.coord.pos == UVec2(0, 0) ==> |RequestedTiles(w, base, includeSelf)| <= 4
    ensures includeSelf ==> RequestedTiles(w, base, includeSelf)[0] == base
    ensures forall k | 0 <= k < |RequestedTiles(w, base, includeSelf)| ::
              IsValidNeighbor(base, RequestedTiles(w, base, includeSelf)[k])
  {
    var s := Surroundings(w, base.coord);
    ValidNeighborsAtMostPresent(w, base, s);
    PresentAtMost(s);
    if base.coord.pos == UVec2(0, 0) {
      OriginAtMostThree(w, base);
    }
    forall k | 0 <= k < |RequestedTiles(w, base, includeSelf)|
      ensures IsValidNeighbor(base, RequestedTiles(w, base, includeSelf)[k])
    {
      var x := RequestedTiles(w, base, includeSelf)[k];
      IsValidNeighborEquivalence(base, base, base, base.coord.pos, base.entity);
      if !(includeSelf && k == 0) {
        assert x in TileNeighbors(w, base);
        ValidNeighborsIff(w, base, s, x);
      }
    }
  }

  /** No more candidates name an entity than there are candidates. */
  lemma {:induction false} PresentAtMost(candidates: seq<Option<(IVec2, Entity)>>)
    ensures Present(candidates) <= |candidates|
  {
    if |candidates| > 0 {
      PresentAtMost(candidates[..|candidates| - 1]);
    }
  }

  /**
   * The requests of one pass step: the `k`-th is for the `k`-th requested
   * tile's entity, carrying the rule of that tile's own valid neighbours.
   */
  lemma AddTileRequestsAt(w: World, base: TileObject, includeSelf: bool)
    ensures |AddTileRequests(w, base, includeSelf)| == |RequestedTiles(w, base, includeSelf)|
    ensures forall k | 0 <= k < |RequestedTiles(w, base, includeSelf)| ::
              AddTileRequests(w, base, includeSelf)[k] == RequestFor(w, RequestedTiles(w, base, includeSelf)[k])
  {
    RequestsForAt(w, RequestedTiles(w, base, includeSelf));
  }

  // ---------------------------------------------------------------------------
  // The pass

  /** `AutoTiler`: the state of one resolution pass over the queries in `w`. */
  class AutoTiler {
    const w: World
    /** Tile objects already found to be valid neighbours, by their keys. */
    var cache: map<TileCoord, TileObject>
    /** The requests made so far, in order. */
    var requests: seq<TileUpdateRequest>
    /** The coordinates of the tiles requested so far. */
    var requested: set<TileCoord>

    /** Every cached object is what the tiles query yields for the map query's entity at its key. */
    ghost predicate Valid()
      reads this
    {
      forall key | key in cache :: key in w.tileEntities && FindTile(w, w.tileEntities[key]) == Some(cache[key])
    }

    /** The cache only gains entries, and keeps the ones it had. */
    ghost predicate CacheGrew(before: map<TileCoord, TileObject>)
      reads this
    {
      forall key | key in before :: key in cache && cache[key] == before[key]
    }

    /** `AutoTiler::new`: an empty cache, no requests and nothing requested. */
    constructor (w: World)
      ensures Valid()
      ensures this.w == w && cache == map[] && requests == [] && requested == {}
    {
      this.w := w;
      cache, requests, requested := map[], [], {};
    }

    /** `requests`: the requests in the order they were made. */
    function Requests(): (r: seq<TileUpdateRequest>)
      reads this
      ensures r == requests
    {
      requests
    }

    /**
     * `get_neighbor_at_offset`: the entity cached at the neighbour's key,
     * else the map query's. Since the cache agrees with the queries, this is
     * the uncached lookup.
     */
    function GetNeighborAtOffset(offsetX: int, offsetY: int, coord: TileCoord): (r: Option<(IVec2, Entity)>)
      reads this
      requires Valid()
      ensures r == NeighborAt(w, IVec2(offsetX, offsetY), coord)
    {
      if offsetX == 0 && offsetY == 0 then None
      else
        var nPos := Add(AsI32Vec(coord.pos), IVec2(offsetX, offsetY));
        if nPos.x >= 0 && nPos.y >= 0 then
          var key := TileCoord(AsU32Vec(nPos), coord.mapId, coord.layerId);
          if key in cache then Some((nPos, cache[key].entity))
          else if key in w.tileEntities then Some((nPos, w.tileEntities[key]))
          else None
        else None
    }

    /** `get_neighbors`: the eight lookups, in offset order. */
    function GetNeighbors(coord: TileCoord): (r: seq<Option<(IVec2, Entity)>>)
      reads this
      requires Valid()
      ensures r == Surroundings(w, coord)
    {
      [GetNeighborAtOffset(-1, 1, coord), GetNeighborAtOffset(0, 1, coord), GetNeighborAtOffset(1, 1, coord),
       GetNeighborAtOffset(-1, 0, coord), GetNeighborAtOffset(1, 0, coord),
       GetNeighborAtOffset(-1, -1, coord), GetNeighborAtOffset(0, -1, coord), GetNeighborAtOffset(1, -1, coord)]
    }

    /**
     * `filter_neighbors`: each candidate's key is looked up in the cache
     * first, else its entity in the tiles query; a tile object found is kept
     * if it is a valid neighbour of `tile`, and one found in the query is
     * cached only then. The result is the uncached filter, and only valid
     * neighbours join the cache.
     */
    method FilterNeighbors(tile: TileObject, neighbors: seq<Option<(IVec2, Entity)>>) returns (r: seq<TileObject>)
      requires Valid() && FromTileEntities(w, tile.coord, neighbors)
      modifies this
      ensures Valid()
      ensures r == ValidNeighbors(w, tile, neighbors)
      ensures requests == old(requests) && requested == old(requested)
      ensures CacheGrew(old(cache))
      ensures forall key | key in cache && key !in old(cache) :: IsValidNeighbor(tile, cache[key])
    {
      r := [];
      var i := 0;
      while i < |neighbors|
        invariant 0 <= i <= |neighbors|
        invariant Valid()
        invariant r == ValidNeighbors(w, tile, neighbors[..i])
        invariant requests == old(requests) && requested == old(requested)
        invariant CacheGrew(old(cache))
        invariant forall key | key in cache && key !in old(cache) :: IsValidNeighbor(tile, cache[key])
      {
        assert neighbors[..i + 1][..i] == neighbors[..i];
        match neighbors[i] {
          case None =>
          case Some((nPos, entity)) =>
            var key := TileCoord(AsU32Vec(nPos), tile.coord.mapId, tile.coord.layerId);
            if key in cache {
              if IsValidNeighbor(tile, cache[key]) {
                r := r + [cache[key]];
              }
            } else {
              match FindTile(w, entity) {
                case None =>
                case Some(neighbor) =>
                  if IsValidNeighbor(tile, neighbor) {
                    cache := cache[key := neighbor];
                    r := r + [neighbor];
                  }
              }
            }
        }
        i := i + 1;
      }
      assert neighbors[..i] == neighbors;
    }

    /** `try_add_request`: appends one request for the tile's entity and records its coordinate. */
    method TryAddRequest(tile: TileObject, rule: AutoTileRule)
      modifies this
      ensures requests == old(requests) + [TileUpdateRequest(tile.entity, rule)]
      ensures requested == old(requested) + {tile.coord}
      ensures cache == old(cache)
    {
      requests := requests + [TileUpdateRequest(tile.entity, rule)];
      requested := requested + {tile.coord};
    }

    /**
     * The step `add_tile` takes for each valid neighbour: its surroundings
     * are looked up and filtered, a rule is generated from them and the
     * request is added.
     */
    method AddRequestFor(t: TileObject)
      requires Valid()
      modifies this
      ensures Valid()
      ensures requests == old(requests) + [RequestFor(w, t)]
      ensures requested == old(requested) + {t.coord}
      ensures CacheGrew(old(cache))
    {
      var neighbors := GetNeighbors(t.coord);
      SurroundingsFromTileEntities(w, t.coord);
      var valid := FilterNeighbors(t, neighbors);
      var rule := Core.GenerateRule(AsI32Vec(t.coord.pos), Positions(valid));
      TryAddRequest(t, rule);
      RequestForIs(w, t, valid, rule);
    }

    /** The loop of `add_tile` over the valid neighbours: one request each, in order. */
    method AddRequestsFor(tiles: seq<TileObject>)
      requires Valid()
      modifies this
      ensures Valid()
      ensures requests == old(requests) + RequestsFor(w, tiles)
      ensures requested == old(requested) + CoordsOf(tiles)
      ensures CacheGrew(old(cache))
    {
      var i := 0;
      while i < |tiles|
        invariant 0 <= i <= |tiles|
        invariant Valid()
        invariant requests == old(requests) + RequestsFor(w, tiles[..i])
        invariant requested == old(requested) + CoordsOf(tiles[..i])
        invariant CacheGrew(old(cache))
      {
        AddRequestFor(tiles[i]);
        RequestsForStep(w, tiles, i);
        SeqUtil.AppendAssoc(old(requests), RequestsFor(w, tiles[..i]), [RequestFor(w, tiles[i])]);
        i := i + 1;
      }
      assert tiles[..i] == tiles;
    }

    /**
     * `add_tile`: a centre whose coordinate is already requested changes
     * nothing. Otherwise the pass appends the centre's own request when
     * `includeSelf`, then one request per valid neighbour, each computed
     * from that neighbour's own valid neighbours, and records all their
     * coordinates.
     */
    method AddTile(entity: Entity, pos: UVec2, parent: TileParent, autoTile: AutoTile, includeSelf: bool)
      requires Valid()
      modifies this
      ensures Valid()
      ensures TileCoord(pos, parent.mapId, parent.layerId) in old(requested) ==> unchanged(this)
      ensures TileCoord(pos, parent.mapId, parent.layerId) !in old(requested) ==>
                var base := TileObject(TileCoord(pos, parent.mapId, parent.layerId), entity, autoTile);
                && requests == old(requests) + AddTileRequests(w, base, includeSelf)
                && requested == old(requested) + CoordsOf(RequestedTiles(w, base, includeSelf))
      ensures CacheGrew(old(cache))
    {
      var coord := TileCoord(pos, parent.mapId, parent.layerId);
      if coord in requested {
        return;
      }
      var base := TileObject(coord, entity, autoTile);
      var neighbors := GetNeighbors(base.coord);
      SurroundingsFromTileEntities(w, base.coord);
      var valid := FilterNeighbors(base, neighbors);
      ghost var own: seq<TileObject> := if includeSelf then [base] else [];
      if includeSelf {
        var rule := Core.GenerateRule(AsI32Vec(base.coord.pos), Positions(valid));
        TryAddRequest(base, rule);
        RequestForIs(w, base, valid, rule);
        RequestsForSingle(w, base);
      }
      ghost var middle, middleSet := requests, requested;
      assert middle == old(requests) + RequestsFor(w, own);
      assert middleSet == old(requested) + CoordsOf(own);
      AddRequestsFor(valid);
      AddTileOutcome(w, base, includeSelf, valid, old(requests), middle, requests, old(requested), middleSet, requested);
    }
  }
}
