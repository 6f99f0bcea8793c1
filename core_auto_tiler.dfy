/**
 * The generic auto-tile resolution pass (bevy_tileset_core/src/auto/auto_tiler.rs)
 * over an abstract tilemap (bevy_tileset_core/src/auto/traits.rs).
 *
 * A pass takes tiles one at a time. For each it looks at the eight
 * surrounding cells, keeps the tiles that can match it, derives a rule from
 * where they sit and emits a request for the tile and for each kept
 * neighbour (whose rule is derived from its own surroundings, one level
 * deep). Tiles found to match are cached for the rest of the pass.
 */
module CoreAutoTiler {
  import opened Wrappers
  import opened Primitives
  import opened Rules
  import SeqUtil

  /**
   * The `AutoTile`, `TileCoords` and `AutoTilemap` trait methods the pass
   * uses, for one tile type and one coordinate type. The tilemap is only
   * read during a pass.
   */
  datatype AutoTilemap<!Tile, !Coords> = AutoTilemap(
    coords: Tile -> Coords,
    canMatch: (Tile, Tile) -> bool,
    pos: Coords -> IVec2,
    makeCoords: (IVec2, Coords) -> Coords,
    getTileAt: Coords -> Option<Tile>,
    len: nat)

  /** `AutoTileRequest`: a tile and the rule it should be updated to match. */
  datatype AutoTileRequest<Tile> = AutoTileRequest(tile: Tile, rule: AutoTileRule)

  /** `AutoTile::pos`: the position of the tile's coordinates. */
  function TilePos<Tile, Coords>(m: AutoTilemap<Tile, Coords>, t: Tile): IVec2 {
    m.pos(m.coords(t))
  }

  // ---------------------------------------------------------------------------
  // Neighbourhood

  /** The offsets `get_neighbors` visits, in its order: northern row, own row, southern row. */
  function Offsets(): (r: seq<IVec2>)
    ensures |r| == 8
  {
    [IVec2(-1, 1), IVec2(0, 1), IVec2(1, 1),
     IVec2(-1, 0), IVec2(1, 0),
     IVec2(-1, -1), IVec2(0, -1), IVec2(1, -1)]
  }

  /** The candidates are exactly the eight non-zero offsets within one step, each visited once. */
  lemma OffsetsAreTheRing(o: IVec2)
    ensures o in Offsets() <==> -1 <= o.x <= 1 && -1 <= o.y <= 1 && o != IVec2(0, 0)
    ensures forall i, j | 0 <= i < j < 8 :: Offsets()[i] != Offsets()[j]
  {
  }

  /**
   * What `get_neighbor_at_offset` finds when nothing is cached: nothing for
   * the zero offset, otherwise the tilemap's tile at the coordinates made
   * from the shifted position with `coords` as template.
   */
  function NeighborAt<Tile, Coords>(m: AutoTilemap<Tile, Coords>, offset: IVec2, coords: Coords): Option<Tile> {
    if offset.x != 0 || offset.y != 0 then m.getTileAt(m.makeCoords(Add(m.pos(coords), offset), coords))
    else None
  }

  /** What `get_neighbors` finds when nothing is cached: one lookup per offset, in order. */
  function Surroundings<Tile, Coords>(m: AutoTilemap<Tile, Coords>, coords: Coords): (r: seq<Option<Tile>>)
    ensures |r| == 8
  {
    seq(8, i requires 0 <= i < 8 => NeighborAt(m, Offsets()[i], coords))
  }

  /** The zero offset never yields a neighbour; every ring offset is looked up in the tilemap. */
  lemma NeighborAtZero<Tile, Coords>(m: AutoTilemap<Tile, Coords>, coords: Coords)
    ensures NeighborAt(m, IVec2(0, 0), coords) == None
    ensures forall i | 0 <= i < 8 ::
              Surroundings(m, coords)[i] == m.getTileAt(m.makeCoords(Add(m.pos(coords), Offsets()[i]), coords))
  {
  }

  /**
   * What `filter_neighbors` keeps of one candidate when nothing is cached:
   * the tilemap's tile at the candidate's coordinates, if there is one and
   * it can match `tile`.
   */
  function Kept<Tile, Coords>(m: AutoTilemap<Tile, Coords>, tile: Tile, candidate: Option<Tile>): seq<Tile> {
    match candidate
    case None => []
    case Some(n) =>
      match m.getTileAt(m.coords(n))
      case None => []
      case Some(found) => if m.canMatch(tile, found) then [found] else []
  }

  /** What `filter_neighbors` returns when nothing is cached: the kept tiles, in candidate order. */
  function ValidNeighbors<Tile, Coords>(m: AutoTilemap<Tile, Coords>, tile: Tile, candidates: seq<Option<Tile>>): seq<Tile> {
    if |candidates| == 0 then []
    else ValidNeighbors(m, tile, candidates[..|candidates| - 1]) + Kept(m, tile, candidates[|candidates| - 1])
  }

  /**
   * A tile is a valid neighbour exactly when some candidate's coordinates
   * hold it in the tilemap and it can match the centre.
   */
  lemma {:induction false} ValidNeighborsIff<Tile, Coords>(m: AutoTilemap<Tile, Coords>, tile: Tile,
                                                          candidates: seq<Option<Tile>>, x: Tile)
    ensures x in ValidNeighbors(m, tile, candidates) <==>
              m.canMatch(tile, x) &&
              exists i | 0 <= i < |candidates| ::
                candidates[i].Some? && m.getTileAt(m.coords(candidates[i].value)) == Some(x)
  {
    if |candidates| > 0 {
      var front := candidates[..|candidates| - 1];
      var last := |candidates| - 1;
      ValidNeighborsIff(m, tile, front, x);
      if exists i | 0 <= i < |candidates| ::
           candidates[i].Some? && m.getTileAt(m.coords(candidates[i].value)) == Some(x) {
        var i :| 0 <= i < |candidates| && candidates[i].Some? && m.getTileAt(m.coords(candidates[i].value)) == Some(x);
        if i < last {
          assert front[i] == candidates[i];
        }
      }
      if x in ValidNeighbors(m, tile, front) {
        var i :| 0 <= i < |front| && front[i].Some? && m.getTileAt(m.coords(front[i].value)) == Some(x);
        assert candidates[i] == front[i];
      }
    }
  }

  /** Every valid neighbour can match the centre. */
  lemma {:induction false} ValidNeighborsMatch<Tile, Coords>(m: AutoTilemap<Tile, Coords>, tile: Tile,
                                                            candidates: seq<Option<Tile>>)
    ensures forall k | 0 <= k < |ValidNeighbors(m, tile, candidates)| :: m.canMatch(tile, ValidNeighbors(m, tile, candidates)[k])
  {
    if |candidates| > 0 {
      ValidNeighborsMatch(m, tile, candidates[..|candidates| - 1]);
    }
  }

  /** There are never more valid neighbours than candidates. */
  lemma {:induction false} ValidNeighborsLength<Tile, Coords>(m: AutoTilemap<Tile, Coords>, tile: Tile,
                                                             candidates: seq<Option<Tile>>)
    ensures |ValidNeighbors(m, tile, candidates)| <= |candidates|
  {
    if |candidates| > 0 {
      ValidNeighborsLength(m, tile, candidates[..|candidates| - 1]);
    }
  }

  // ---------------------------------------------------------------------------
  // Rule generation

  /**
   * The direction a neighbour at offset `diff` marks: the row is chosen by
   * `diff.y`; within the northern and southern rows `x == 0` is the middle,
   * `x == -1` the west and anything else the east; within the own row
   * `x == -1` is west and anything else east. Rows beyond one step mark nothing.
   */
  function DeltaDirection(diff: IVec2): Option<Direction> {
    if diff.y == 1 then Some(if diff.x == 0 then North else if diff.x == -1 then NorthWest else NorthEast)
    else if diff.y == 0 then Some(if diff.x == -1 then West else East)
    else if diff.y == -1 then Some(if diff.x == 0 then South else if diff.x == -1 then SouthWest else SouthEast)
    else None
  }

  /** One step of the `generate_rule` fold: the three row checks, each setting one field to `Some(true)`. */
  function Mark(rule: AutoTileRule, diff: IVec2): AutoTileRule {
    var northern :=
      if diff.y == 1 then
        (if diff.x == 0 then rule.(north := Some(true))
         else if diff.x == -1 then rule.(northWest := Some(true))
         else rule.(northEast := Some(true)))
      else rule;
    var parallel :=
      if diff.y == 0 then
        (if diff.x == -1 then northern.(west := Some(true)) else northern.(east := Some(true)))
      else northern;
    if diff.y == -1 then
      (if diff.x == 0 then parallel.(south := Some(true))
       else if diff.x == -1 then parallel.(southWest := Some(true))
       else parallel.(southEast := Some(true)))
    else parallel
  }

  /** A fold step sets the direction of its offset to `Some(true)` and nothing else. */
  lemma MarkSetsDirection(rule: AutoTileRule, diff: IVec2)
    ensures Mark(rule, diff) == match DeltaDirection(diff)
                                case None => rule
                                case Some(d) => Set(rule, d, Some(true))
  {
  }

  /**
   * `generate_rule`: folds the neighbours' positions, first to last, into
   * the all-unset rule, marking each neighbour's offset from `pos`.
   */
  function GenerateRule(pos: IVec2, neighbors: seq<IVec2>): AutoTileRule {
    if |neighbors| == 0 then Default()
    else Mark(GenerateRule(pos, neighbors[..|neighbors| - 1]), Sub(neighbors[|neighbors| - 1], pos))
  }

  /** Some neighbour's offset from `pos` marks direction `d`. */
  ghost predicate Marked(pos: IVec2, neighbors: seq<IVec2>, d: Direction) {
    exists i | 0 <= i < |neighbors| :: DeltaDirection(Sub(neighbors[i], pos)) == Some(d)
  }

  /**
   * A generated rule only ever holds `Some(true)` or `None`: a direction is
   * `Some(true)` exactly when some neighbour's offset marks it and stays
   * unset otherwise.
   */
  lemma {:induction false} GenerateRuleIff(pos: IVec2, neighbors: seq<IVec2>, d: Direction)
    ensures Get(GenerateRule(pos, neighbors), d) == if Marked(pos, neighbors, d) then Some(true) else None
  {
    if |neighbors| > 0 {
      var front := neighbors[..|neighbors| - 1];
      var last := neighbors[|neighbors| - 1];
      GenerateRuleIff(pos, front, d);
      MarkSetsDirection(GenerateRule(pos, front), Sub(last, pos));
      if Marked(pos, front, d) {
        var i :| 0 <= i < |front| && DeltaDirection(Sub(front[i], pos)) == Some(d);
        assert neighbors[i] == front[i];
      }
      if Marked(pos, neighbors, d) && DeltaDirection(Sub(last, pos)) != Some(d) {
        var i :| 0 <= i < |neighbors| && DeltaDirection(Sub(neighbors[i], pos)) == Some(d);
        assert front[i] == neighbors[i];
      }
    }
  }

  /** The compass direction of each offset `get_neighbors` visits, in the same order. */
  function OffsetDirections(): seq<Direction> {
    [NorthWest, North, NorthEast, West, East, SouthWest, South, SouthEast]
  }

  /** The position of `d` in `OffsetDirections()`. */
  function DirectionIndex(d: Direction): (i: nat)
    ensures i < 8 && OffsetDirections()[i] == d
  {
    match d
    case NorthWest => 0 case North => 1 case NorthEast => 2 case West => 3
    case East => 4 case SouthWest => 5 case South => 6 case SouthEast => 7
  }

  /**
   * The delta mapping: (0,1) is north, (-1,1) north-west, (1,1) north-east,
   * (-1,0) west, (1,0) east, (0,-1) south, (-1,-1) south-west and (1,-1)
   * south-east, so the eight ring offsets mark eight different directions.
   */
  lemma DeltaMapping()
    ensures forall i | 0 <= i < 8 :: DeltaDirection(Offsets()[i]) == Some(OffsetDirections()[i])
    ensures forall d: Direction :: d in OffsetDirections()
  {
    forall d: Direction
      ensures d in OffsetDirections()
    {
      assert OffsetDirections()[DirectionIndex(d)] == d;
    }
  }

  /**
   * Outside the ring the row checks still mark: an offset of (0,0) marks
   * east and (2,1) north-east; only rows more than one step away mark nothing.
   */
  lemma DeltaOutsideRing(diff: IVec2)
    ensures DeltaDirection(IVec2(0, 0)) == Some(East) && DeltaDirection(IVec2(2, 1)) == Some(NorthEast)
    ensures DeltaDirection(diff).None? <==> diff.y < -1 || diff.y > 1
  {
  }

  /** The rule of a tile surrounded on all eight sides has every direction `Some(true)`. */
  lemma {:induction false} FullRingIsDefaultTrue(pos: IVec2)
    ensures GenerateRule(pos, seq(8, i requires 0 <= i < 8 => Add(pos, Offsets()[i]))) == DefaultTrue()
  {
    var ring := seq(8, i requires 0 <= i < 8 => Add(pos, Offsets()[i]));
    var r := GenerateRule(pos, ring);
    forall d: Direction
      ensures Get(r, d) == Get(DefaultTrue(), d)
    {
      GenerateRuleIff(pos, ring, d);
      DeltaMapping();
      var i := DirectionIndex(d);
      assert Sub(ring[i], pos) == Offsets()[i];
    }
    RuleExtensionality(r, DefaultTrue());
  }

  // ---------------------------------------------------------------------------
  // Requests

  /** The positions of `tiles`, in order (the `pos()` the fold takes of each). */
  function Positions<Tile, Coords>(m: AutoTilemap<Tile, Coords>, tiles: seq<Tile>): seq<IVec2> {
    if |tiles| == 0 then [] else Positions(m, tiles[..|tiles| - 1]) + [TilePos(m, tiles[|tiles| - 1])]
  }

  /** The valid neighbours of `t`: its surroundings, filtered against it. */
  function TileNeighbors<Tile, Coords>(m: AutoTilemap<Tile, Coords>, t: Tile): seq<Tile> {
    ValidNeighbors(m, t, Surroundings(m, m.coords(t)))
  }

  /** The request the pass makes for `t`: the rule of its own valid neighbours. */
  function RequestFor<Tile, Coords>(m: AutoTilemap<Tile, Coords>, t: Tile): AutoTileRequest<Tile> {
    AutoTileRequest(t, GenerateRule(TilePos(m, t), Positions(m, TileNeighbors(m, t))))
  }

  /** `RequestFor` over the tilemap `m`, as a function of the tile. */
  function RequestOf<Tile, Coords>(m: AutoTilemap<Tile, Coords>): Tile -> AutoTileRequest<Tile> {
    t => RequestFor(m, t)
  }

  /** One request per tile, in order. */
  function RequestsFor<Tile, Coords>(m: AutoTilemap<Tile, Coords>, tiles: seq<Tile>): seq<AutoTileRequest<Tile>> {
    SeqUtil.Map(RequestOf(m), tiles)
  }

  /** The request made from a tile's filtered surroundings and the rule generated from them is the tile's request. */
  lemma RequestForIs<Tile, Coords>(m: AutoTilemap<Tile, Coords>, t: Tile, neighbors: seq<Tile>, rule: AutoTileRule)
    requires neighbors == TileNeighbors(m, t)
    requires rule == GenerateRule(TilePos(m, t), Positions(m, neighbors))
    ensures AutoTileRequest(t, rule) == RequestFor(m, t)
  {
  }

  /** Requesting one more tile appends its request. */
  lemma RequestsForStep<Tile, Coords>(m: AutoTilemap<Tile, Coords>, tiles: seq<Tile>, i: nat)
    requires i < |tiles|
    ensures RequestsFor(m, tiles[..i + 1]) == RequestsFor(m, tiles[..i]) + [RequestFor(m, tiles[i])]
  {
    SeqUtil.MapStep(RequestOf(m), tiles, i);
  }

  /** Requesting two runs of tiles one after the other requests their concatenation. */
  lemma RequestsForAppend<Tile, Coords>(m: AutoTilemap<Tile, Coords>, a: seq<Tile>, b: seq<Tile>)
    ensures RequestsFor(m, a + b) == RequestsFor(m, a) + RequestsFor(m, b)
  {
    SeqUtil.MapAppend(RequestOf(m), a, b);
  }

  /** Requesting one tile gives its request alone. */
  lemma RequestsForSingle<Tile, Coords>(m: AutoTilemap<Tile, Coords>, t: Tile)
    ensures RequestsFor(m, [t]) == [RequestFor(m, t)]
  {
    SeqUtil.MapSingle(RequestOf(m), t);
  }

  /** Each tile's request sits at the tile's place. */
  lemma RequestsForAt<Tile, Coords>(m: AutoTilemap<Tile, Coords>, tiles: seq<Tile>)
    ensures |RequestsFor(m, tiles)| == |tiles|
    ensures forall k | 0 <= k < |tiles| :: RequestsFor(m, tiles)[k] == RequestFor(m, tiles[k])
  {
    SeqUtil.MapAt(RequestOf(m), tiles);
  }

  /**
   * The tiles `add_tile` requests for a tile not yet requested: the tile
   * itself if `includeSelf`, then its valid neighbours in offset order.
   */
  function RequestedTiles<Tile, Coords>(m: AutoTilemap<Tile, Coords>, tile: Tile, includeSelf: bool): seq<Tile> {
    (if includeSelf then [tile] else []) + TileNeighbors(m, tile)
  }

  /** The requests `add_tile` appends for a tile not yet requested: one per requested tile, in order. */
  function AddTileRequests<Tile, Coords>(m: AutoTilemap<Tile, Coords>, tile: Tile, includeSelf: bool): seq<AutoTileRequest<Tile>> {
    RequestsFor(m, RequestedTiles(m, tile, includeSelf))
  }

  /** The requests of one pass step: the tile's own, if included, then its neighbours'. */
  lemma AddTileRequestsSplit<Tile, Coords>(m: AutoTilemap<Tile, Coords>, tile: Tile, includeSelf: bool, valid: seq<Tile>)
    requires valid == TileNeighbors(m, tile)
    ensures AddTileRequests(m, tile, includeSelf) == RequestsFor(m, if includeSelf then [tile] else []) + RequestsFor(m, valid)
  {
    RequestsForAppend(m, if includeSelf then [tile] else [], valid);
  }

  /**
   * One pass step requests at most nine tiles: the tile itself, first,
   * exactly when `includeSelf`, then each valid neighbour in offset order.
   */
  lemma {:induction false} RequestedTilesShape<Tile, Coords>(m: AutoTilemap<Tile, Coords>, tile: Tile, includeSelf: bool)
    ensures |RequestedTiles(m, tile, includeSelf)| == |TileNeighbors(m, tile)| + (if includeSelf then 1 else 0) <= 9
    ensures includeSelf ==> RequestedTiles(m, tile, includeSelf)[0] == tile
    ensures forall k | 0 <= k < |TileNeighbors(m, tile)| ::
              RequestedTiles(m, tile, includeSelf)[k + (if includeSelf then 1 else 0)] == TileNeighbors(m, tile)[k]
  {
    ValidNeighborsLength(m, tile, Surroundings(m, m.coords(tile)));
  }

  /**
   * The requests of one pass step: the `k`-th is the `k`-th requested
   * tile's, carrying the rule of that tile's own valid neighbours.
   */
  lemma {:induction false} AddTileRequestsAt<Tile, Coords>(m: AutoTilemap<Tile, Coords>, tile: Tile, includeSelf: bool)
    ensures |AddTileRequests(m, tile, includeSelf)| == |RequestedTiles(m, tile, includeSelf)|
    ensures forall k | 0 <= k < |RequestedTiles(m, tile, includeSelf)| ::
              AddTileRequests(m, tile, includeSelf)[k] == RequestFor(m, RequestedTiles(m, tile, includeSelf)[k])
  {
    RequestsForAt(m, RequestedTiles(m, tile, includeSelf));
  }

  /** The coordinates of a request's tile in tilemap `m`. */
  function RequestCoords<Tile, Coords>(m: AutoTilemap<Tile, Coords>): AutoTileRequest<Tile> -> Coords {
    (r: AutoTileRequest<Tile>) => m.coords(r.tile)
  }

  /** The coordinates of every request's tile. */
  function RequestedCoords<Tile, Coords>(m: AutoTilemap<Tile, Coords>, requests: seq<AutoTileRequest<Tile>>): set<Coords> {
    SeqUtil.Image(RequestCoords(m), requests)
  }

  /** A coordinate is recorded exactly when some request's tile has it. */
  lemma RequestedCoordsIff<Tile, Coords>(m: AutoTilemap<Tile, Coords>, requests: seq<AutoTileRequest<Tile>>, c: Coords)
    ensures c in RequestedCoords(m, requests) <==> exists i | 0 <= i < |requests| :: m.coords(requests[i].tile) == c
  {
    SeqUtil.ImageIff(RequestCoords(m), requests, c);
  }

  // ---------------------------------------------------------------------------
  // The pass

  /** `AutoTiler`: the state of one resolution pass over tilemap `m`. */
  class AutoTiler<Tile, Coords(==)> {
    const m: AutoTilemap<Tile, Coords>
    /** Tiles already found to match some centre, by their coordinates. */
    var cache: map<Coords, Tile>
    /** The requests made so far, in order. */
    var requests: seq<AutoTileRequest<Tile>>
    /** The coordinates of the tiles requested so far. */
    var requested: set<Coords>

    /**
     * Every cached tile is what the tilemap holds at its coordinates, and
     * `requested` holds exactly the coordinates of the requests made.
     */
    ghost predicate Valid()
      reads this
    {
      && (forall c | c in cache :: m.getTileAt(c) == Some(cache[c]))
      && requested == RequestedCoords(m, requests)
    }

    /** The cache only gains entries, and keeps the ones it had. */
    ghost predicate CacheGrew(before: map<Coords, Tile>)
      reads this
    {
      forall c | c in before :: c in cache && cache[c] == before[c]
    }

    /** `AutoTiler::new`: an empty cache, no requests and nothing requested. */
    constructor (m: AutoTilemap<Tile, Coords>)
      ensures Valid()
      ensures this.m == m && cache == map[] && requests == [] && requested == {}
    {
      this.m := m;
      cache, requests, requested := map[], [], {};
    }

    /**
     * `finish`: the requests in the order they were made; their tiles'
     * coordinates are exactly the ones recorded as requested.
     */
    function Finish(): (r: seq<AutoTileRequest<Tile>>)
      reads this
      requires Valid()
      ensures forall i | 0 <= i < |r| :: m.coords(r[i].tile) in requested
      ensures forall c | c in requested :: exists i | 0 <= i < |r| :: m.coords(r[i].tile) == c
    {
      var r := requests;
      assert forall i | 0 <= i < |r| :: m.coords(r[i].tile) in requested by {
        forall i | 0 <= i < |r| {
          RequestedCoordsIff(m, r, m.coords(r[i].tile));
        }
      }
      assert forall c | c in requested :: exists i | 0 <= i < |r| :: m.coords(r[i].tile) == c by {
        forall c | c in requested {
          RequestedCoordsIff(m, r, c);
        }
      }
      r
    }

    /**
     * `get_neighbor_at_offset`: the cached tile at the neighbour's
     * coordinates, else the tilemap's. Since the cache agrees with the
     * tilemap, this is the uncached lookup.
     */
    function GetNeighborAtOffset(offsetX: int, offsetY: int, coords: Coords): (r: Option<Tile>)
      reads this
      requires Valid()
      ensures r == NeighborAt(m, IVec2(offsetX, offsetY), coords)
    {
      if offsetX != 0 || offsetY != 0 then
        var nCoords := m.makeCoords(Add(m.pos(coords), IVec2(offsetX, offsetY)), coords);
        if nCoords in cache then Some(cache[nCoords]) else m.getTileAt(nCoords)
      else None
    }

    /** `get_neighbors`: the eight lookups, in offset order. */
    function GetNeighbors(tile: Tile): (r: seq<Option<Tile>>)
      reads this
      requires Valid()
      ensures r == Surroundings(m, m.coords(tile))
    {
      var coords := m.coords(tile);
      [GetNeighborAtOffset(-1, 1, coords), GetNeighborAtOffset(0, 1, coords), GetNeighborAtOffset(1, 1, coords),
       GetNeighborAtOffset(-1, 0, coords), GetNeighborAtOffset(1, 0, coords),
       GetNeighborAtOffset(-1, -1, coords), GetNeighborAtOffset(0, -1, coords), GetNeighborAtOffset(1, -1, coords)]
    }

    /**
     * `filter_neighbors`: each candidate is looked up again by its own
     * coordinates, in the cache first; a tile found is kept if it can match
     * `tile`, and a tile found in the tilemap is cached only if it matches.
     * The result is the uncached filter, and only matching tiles join the cache.
     */
    method FilterNeighbors(tile: Tile, neighbors: seq<Option<Tile>>) returns (r: seq<Tile>)
      requires Valid()
      modifies this
      ensures Valid()
      ensures r == ValidNeighbors(m, tile, neighbors)
      ensures requests == old(requests) && requested == old(requested)
      ensures CacheGrew(old(cache))
      ensures forall c | c in cache && c !in old(cache) :: m.canMatch(tile, cache[c])
    {
      r := [];
      var i := 0;
      while i < |neighbors|
        invariant 0 <= i <= |neighbors|
        invariant Valid()
        invariant r == ValidNeighbors(m, tile, neighbors[..i])
        invariant requests == old(requests) && requested == old(requested)
        invariant CacheGrew(old(cache))
        invariant forall c | c in cache && c !in old(cache) :: m.canMatch(tile, cache[c])
      {
        assert neighbors[..i + 1][..i] == neighbors[..i];
        match neighbors[i] {
          case None =>
          case Some(n) =>
            var nCoords := m.coords(n);
            if nCoords in cache {
              if m.canMatch(tile, cache[nCoords]) {
                r := r + [cache[nCoords]];
              }
            } else {
              match m.getTileAt(nCoords) {
                case None =>
                case Some(found) =>
                  if m.canMatch(tile, found) {
                    cache := cache[nCoords := found];
                    r := r + [found];
                  }
              }
            }
        }
        i := i + 1;
      }
      assert neighbors[..i] == neighbors;
    }

    /** `try_add_request`: records the tile's coordinates and appends one request. */
    method TryAddRequest(tile: Tile, rule: AutoTileRule)
      requires Valid()
      modifies this
      ensures Valid()
      ensures requested == old(requested) + {m.coords(tile)}
      ensures requests == old(requests) + [AutoTileRequest(tile, rule)]
      ensures cache == old(cache)
    {
      requested := requested + {m.coords(tile)};
      requests := requests + [AutoTileRequest(tile, rule)];
      assert requests[..|requests| - 1] == old(requests);
    }

    /**
     * The step `add_tile` takes for the tile itself and for each valid
     * neighbour: its surroundings are looked up and filtered, a rule is
     * generated from them and the request is added.
     */
    method AddRequestFor(t: Tile)
      requires Valid()
      modifies this
      ensures Valid()
      ensures requests == old(requests) + [RequestFor(m, t)]
      ensures requested == old(requested) + {m.coords(t)}
      ensures CacheGrew(old(cache))
    {
      var neighbors := GetNeighbors(t);
      var valid := FilterNeighbors(t, neighbors);
      var rule := GenerateRule(TilePos(m, t), Positions(m, valid));
      TryAddRequest(t, rule);
      RequestForIs(m, t, valid, rule);
    }

    /**
     * `add_tile`: a tile whose coordinates are already requested changes
     * nothing. Otherwise the pass appends the tile's own request when
     * `includeSelf`, then one request per valid neighbour, each computed
     * from that neighbour's own valid neighbours; `requested` only grows.
     */
    method AddTile(tile: Tile, includeSelf: bool)
      requires Valid()
      modifies this
      ensures Valid()
      ensures m.coords(tile) in old(requested) ==> unchanged(this)
      ensures m.coords(tile) !in old(requested) ==> requests == old(requests) + AddTileRequests(m, tile, includeSelf)
      ensures old(requested) <= requested
      ensures CacheGrew(old(cache))
    {
      if m.coords(tile) in requested {
        return;
      }
      var neighbors := GetNeighbors(tile);
      var valid := FilterNeighbors(tile, neighbors);
      ghost var own: seq<Tile> := if includeSelf then [tile] else [];
      if includeSelf {
        var rule := GenerateRule(TilePos(m, tile), Positions(m, valid));
        TryAddRequest(tile, rule);
        RequestForIs(m, tile, valid, rule);
        RequestsForSingle(m, tile);
      }
      ghost var start := requests;
      assert start == old(requests) + RequestsFor(m, own);
      AddRequestsFor(valid);
      AddTileRequestsSplit(m, tile, includeSelf, valid);
      SeqUtil.AppendAssoc(old(requests), RequestsFor(m, own), RequestsFor(m, valid));
    }

    /** The loop of `add_tile` over the valid neighbours: one request each, in order. */
    method AddRequestsFor(tiles: seq<Tile>)
      requires Valid()
      modifies this
      ensures Valid()
      ensures requests == old(requests) + RequestsFor(m, tiles)
      ensures old(requested) <= requested
      ensures CacheGrew(old(cache))
    {
      var i := 0;
      while i < |tiles|
        invariant 0 <= i <= |tiles|
        invariant Valid()
        invariant requests == old(requests) + RequestsFor(m, tiles[..i])
        invariant old(requested) <= requested
        invariant CacheGrew(old(cache))
      {
        AddRequestFor(tiles[i]);
        RequestsForStep(m, tiles, i);
        SeqUtil.AppendAssoc(old(requests), RequestsFor(m, tiles[..i]), [RequestFor(m, tiles[i])]);
        i := i + 1;
      }
      assert tiles[..i] == tiles;
    }
  }
}
