/**
 * The auto tile systems of `bevy_tileset_map` (bevy_tileset_map/src/auto/systems.rs):
 * changed tiles and removal events are fed to a pass of the generic auto
 * tiler over the `bevy_ecs_tilemap` queries, and its requests are applied to
 * the working tiles one by one.
 *
 * The working query is a map from tile entity to the components the apply
 * loop reads and writes. Adding and removing a `GPUAnimated` component go
 * through Bevy's `Commands`, which only queue the change; the queue is
 * applied later, after the system, and `Flush` models that.
 *
 * The weighted variant choice inside `get_auto_index` is random: `draw(i)`
 * is the sampler's outcome for the `i`-th request.
 */
module MapSystems {
  import opened Wrappers
  import opened Primitives
  import opened Rules
  import opened Ids
  import opened AutoIds
  import opened TileIndexes
  import SeqUtil
  import TS = Tilesets
  import TP = TilesetParams
  import MT = MapTraits
  import Core = CoreAutoTiler

  /** A tile entity as the changed-tiles query yields it, and the payload of `RemoveAutoTileEvent`. */
  datatype TileEntry = TileEntry(entity: Entity, pos: MT.TilePos, parent: MT.TileParent, autoId: AutoTileId)

  /** The tile info a pass is given for an entry: `TileInfo::new` of its components. */
  function Info(e: TileEntry): MT.TileInfo {
    MT.NewTileInfo(e.entity, e.pos, e.parent, e.autoId)
  }

  /** The tile infos of `entries`, in order. */
  function Infos(entries: seq<TileEntry>): seq<MT.TileInfo> {
    SeqUtil.Map(Info, entries)
  }

  type Request = Core.AutoTileRequest<MT.TileInfo>

  // ---------------------------------------------------------------------------
  // The pass

  /**
   * The requests a pass makes when every tile of `tiles` is added in turn
   * with `include_self`: a tile whose coordinates an earlier request already
   * has adds nothing, any other adds its own request and its neighbours'.
   */
  function PassRequests<Tile, Coords(==)>(m: Core.AutoTilemap<Tile, Coords>, tiles: seq<Tile>): seq<Core.AutoTileRequest<Tile>> {
    if |tiles| == 0 then []
    else
      var before := PassRequests(m, tiles[..|tiles| - 1]);
      var t := tiles[|tiles| - 1];
      if m.coords(t) in Core.RequestedCoords(m, before) then before
      else before + Core.AddTileRequests(m, t, true)
  }

  /** Adding one more tile to a pass: nothing if its coordinates are already requested, else its step's requests. */
  lemma PassRequestsSnoc<Tile, Coords>(m: Core.AutoTilemap<Tile, Coords>, tiles: seq<Tile>, t: Tile)
    ensures PassRequests(m, tiles + [t]) ==
              if m.coords(t) in Core.RequestedCoords(m, PassRequests(m, tiles)) then PassRequests(m, tiles)
              else PassRequests(m, tiles) + Core.AddTileRequests(m, t, true)
  {
    assert (tiles + [t])[..|tiles|] == tiles;
  }

  /** Every tile added to a pass ends up with some request at its coordinates. */
  lemma {:induction false} PassCoversEveryTile<Tile, Coords>(m: Core.AutoTilemap<Tile, Coords>, tiles: seq<Tile>)
    ensures forall i | 0 <= i < |tiles| :: m.coords(tiles[i]) in Core.RequestedCoords(m, PassRequests(m, tiles))
  {
    if |tiles| > 0 {
      var front := tiles[..|tiles| - 1];
      var t := tiles[|tiles| - 1];
      var before := PassRequests(m, front);
      PassCoversEveryTile(m, front);
      if m.coords(t) !in Core.RequestedCoords(m, before) {
        var added := Core.AddTileRequests(m, t, true);
        SeqUtil.MapAppend(Core.RequestCoords(m), before, added);
        Core.RequestedTilesShape(m, t, true);
        Core.AddTileRequestsAt(m, t, true);
        assert added[0].tile == t;
        Core.RequestedCoordsIff(m, added, m.coords(t));
      }
      forall i | 0 <= i < |front|
        ensures tiles[i] == front[i]
      {
      }
    }
  }

  /** Adding more tiles to a pass only appends requests: the earlier ones stay as they were. */
  lemma {:induction false} PassRequestsGrow<Tile, Coords>(m: Core.AutoTilemap<Tile, Coords>, tiles: seq<Tile>, k: nat)
    requires k <= |tiles|
    ensures |PassRequests(m, tiles[..k])| <= |PassRequests(m, tiles)|
    ensures PassRequests(m, tiles)[..|PassRequests(m, tiles[..k])|] == PassRequests(m, tiles[..k])
  {
    if k < |tiles| {
      var front := tiles[..|tiles| - 1];
      assert front[..k] == tiles[..k];
      PassRequestsGrow(m, front, k);
    } else {
      assert tiles[..k] == tiles;
    }
  }

  /**
   * The pass of both systems: a fresh auto tiler over the tilemap of `q`,
   * each entry added with `include_self`, then `finish`.
   */
  method RunPass(q: MT.Queries, entries: seq<TileEntry>) returns (requests: seq<Request>)
    ensures requests == PassRequests(MT.Tilemap(q), Infos(entries))
  {
    var m := MT.Tilemap(q);
    var tiler := new Core.AutoTiler(m);
    var i := 0;
    while i < |entries|
      invariant 0 <= i <= |entries|
      invariant fresh(tiler) && tiler.m == m && tiler.Valid()
      invariant tiler.requests == PassRequests(m, Infos(entries[..i]))
    {
      var info := MT.NewTileInfo(entries[i].entity, entries[i].pos, entries[i].parent, entries[i].autoId);
      SeqUtil.MapStep(Info, entries, i);
      PassRequestsSnoc(m, Infos(entries[..i]), info);
      tiler.AddTile(info, true);
      i := i + 1;
    }
    assert entries[..i] == entries;
    requests := tiler.Finish();
  }

  // ---------------------------------------------------------------------------
  // Applying requests

  /** `GPUAnimated`: the animation range and speed of an animated tile. */
  datatype GpuAnimated = GpuAnimated(start: u32, end: u32, speed: real)

  /** What the working query yields for a tile entity: its place, auto tile id, texture index and animation. */
  datatype WorkingTile = WorkingTile(pos: MT.TilePos, parent: MT.TileParent, autoTile: AutoTileId,
                                     textureIndex: u16, anim: Option<GpuAnimated>)

  /** A queued command: removing or inserting an entity's `GPUAnimated`. */
  datatype Command = RemoveAnimated(entity: Entity) | InsertAnimated(entity: Entity, anim: GpuAnimated)

  /** What applying requests changes: the working tiles, the queued commands and the chunks notified, in order. */
  datatype State = State(tiles: map<Entity, WorkingTile>, commands: seq<Command>, notified: seq<MT.TileCoord>)

  /** What a request comes to for the tile it names: skipped, or rewritten to an index of its tileset. */
  datatype Outcome = Skipped | Rewrite(index: TileIndex)

  /**
   * The lookups of the apply loop: the tile's tileset by id, its tile name
   * by group id, then, unless the current texture index is already a
   * variant of the entry matching `rule`, the auto index for the rule.
   */
  function Resolve(t: WorkingTile, rule: AutoTileRule, m: TP.TilesetMap, assets: map<Handle, TS.Tileset>,
                   draw: nat): (r: Outcome)
    reads m
    ensures TP.GetById(m, assets, t.autoTile.tilesetId).None? ==> r == Skipped
    ensures r.Rewrite? ==>
              var ts := TP.GetById(m, assets, t.autoTile.tilesetId).value;
              && TS.GetTileName(ts, t.autoTile.groupId).Some?
              && !TS.IsAutoVariant(ts, TS.GetTileName(ts, t.autoTile.groupId).value, t.textureIndex as nat, rule)
              && TS.GetAutoIndex(ts, TS.GetTileName(ts, t.autoTile.groupId).value, rule, draw) == Some(r.index)
    ensures TP.GetById(m, assets, t.autoTile.tilesetId).Some? ==>
              var ts := TP.GetById(m, assets, t.autoTile.tilesetId).value;
              match TS.GetTileName(ts, t.autoTile.groupId)
              case None => r == Skipped
              case Some(name) =>
                (TS.IsAutoVariant(ts, name, t.textureIndex as nat, rule) || TS.GetAutoIndex(ts, name, rule, draw).None?)
                <==> r == Skipped
  {
    match TP.GetById(m, assets, t.autoTile.tilesetId)
    case None => Skipped
    case Some(ts) =>
      match TS.GetTileName(ts, t.autoTile.groupId)
      case None => Skipped
      case Some(name) =>
        if TS.IsAutoVariant(ts, name, t.textureIndex as nat, rule) then Skipped
        else
          match TS.GetAutoIndex(ts, name, rule, draw)
          case None => Skipped
          case Some(index) => Rewrite(index)
  }

  /** The animation an animated index carries, with its frames cast to `u32`. */
  function AnimationOf(start: nat, end: nat, speed: real): GpuAnimated {
    GpuAnimated(AsU32(start), AsU32(end), speed)
  }

  /**
   * The tile rewritten to `index`: the texture index becomes the index, or
   * the animation's start, cast to `u16`; an existing animation takes the
   * new range and speed.
   */
  function Rewritten(t: WorkingTile, index: TileIndex): WorkingTile {
    match index
    case Standard(idx) => t.(textureIndex := AsU16(idx))
    case Animated(start, end, speed) =>
      t.(textureIndex := AsU16(start), anim := if t.anim.Some? then Some(AnimationOf(start, end, speed)) else None)
  }

  /**
   * The commands a rewrite queues: a standard index removes an existing
   * animation; an animated index inserts one when the tile has none.
   */
  function Queued(e: Entity, t: WorkingTile, index: TileIndex): seq<Command> {
    match index
    case Standard(_) => if t.anim.Some? then [RemoveAnimated(e)] else []
    case Animated(start, end, speed) => if t.anim.Some? then [] else [InsertAnimated(e, AnimationOf(start, end, speed))]
  }

  /** The chunk notice for a tile: its position on its parent's map and layer. */
  function ChunkOf(t: WorkingTile): MT.TileCoord {
    MT.TileCoord(t.pos, t.parent.mapId, t.parent.layerId)
  }

  /**
   * One turn of the apply loop: a request whose entity the working query
   * does not yield, or whose outcome is skipped, changes nothing; otherwise
   * only that entity's tile is rewritten, its commands are queued and its
   * chunk is notified.
   */
  function ApplyRequest(s: State, request: Request, m: TP.TilesetMap, assets: map<Handle, TS.Tileset>,
                        draw: nat): (r: State)
    reads m
    ensures r.tiles.Keys == s.tiles.Keys
    ensures forall e | e in s.tiles && e != request.tile.entity :: r.tiles[e] == s.tiles[e]
    ensures |s.commands| <= |r.commands| && r.commands[..|s.commands|] == s.commands
    ensures forall i | |s.commands| <= i < |r.commands| :: r.commands[i].entity == request.tile.entity
    ensures request.tile.entity !in s.tiles ==> r == s
  {
    var e := request.tile.entity;
    if e !in s.tiles then s
    else
      var t := s.tiles[e];
      match Resolve(t, request.rule, m, assets, draw)
      case Skipped => s
      case Rewrite(index) =>
        assert (s.commands + Queued(e, t, index))[..|s.commands|] == s.commands;
        State(s.tiles[e := Rewritten(t, index)], s.commands + Queued(e, t, index), s.notified + [ChunkOf(t)])
  }

  /** `apply_requests`: the requests applied in list order, the `i`-th with the sampler's `draw(i)`. */
  function ApplyAll(s: State, requests: seq<Request>, m: TP.TilesetMap, assets: map<Handle, TS.Tileset>,
                    draw: nat -> nat): State
    reads m
  {
    if |requests| == 0 then s
    else ApplyRequest(ApplyAll(s, requests[..|requests| - 1], m, assets, draw), requests[|requests| - 1], m, assets,
                      draw(|requests| - 1))
  }

  /** Applying requests never adds or removes a working tile. */
  lemma {:induction false} ApplyAllKeys(s: State, requests: seq<Request>, m: TP.TilesetMap,
                                       assets: map<Handle, TS.Tileset>, draw: nat -> nat)
    ensures ApplyAll(s, requests, m, assets, draw).tiles.Keys == s.tiles.Keys
  {
    if |requests| > 0 {
      ApplyAllKeys(s, requests[..|requests| - 1], m, assets, draw);
    }
  }

  /**
   * Requests are applied in list order, so the last one for an entity
   * decides its tile: once the `k`-th request is applied, the requests after
   * it that name other entities leave that entity's tile as it is.
   */
  lemma {:induction false} LaterRequestWins(s: State, requests: seq<Request>, m: TP.TilesetMap,
                                           assets: map<Handle, TS.Tileset>, draw: nat -> nat, k: nat, e: Entity)
    requires k < |requests| && e in s.tiles
    requires forall j | k < j < |requests| :: requests[j].tile.entity != e
    ensures e in ApplyAll(s, requests, m, assets, draw).tiles && e in ApplyAll(s, requests[..k + 1], m, assets, draw).tiles
    ensures ApplyAll(s, requests, m, assets, draw).tiles[e] == ApplyAll(s, requests[..k + 1], m, assets, draw).tiles[e]
  {
    ApplyAllKeys(s, requests[..k + 1], m, assets, draw);
    ApplyAllKeys(s, requests, m, assets, draw);
    if |requests| == k + 1 {
      assert requests[..k + 1] == requests;
    } else {
      var front := requests[..|requests| - 1];
      assert front[..k + 1] == requests[..k + 1];
      LaterRequestWins(s, front, m, assets, draw, k, e);
      ApplyAllKeys(s, front, m, assets, draw);
    }
  }

  // ---------------------------------------------------------------------------
  // Queued commands

  /** One queued command applied to the tiles; a command for an entity with no tile changes nothing. */
  function FlushOne(tiles: map<Entity, WorkingTile>, c: Command): map<Entity, WorkingTile> {
    if c.entity !in tiles then tiles
    else match c
      case RemoveAnimated(e) => tiles[e := tiles[e].(anim := None)]
      case InsertAnimated(e, a) => tiles[e := tiles[e].(anim := Some(a))]
  }

  /** The queued commands applied to the tiles in order, as Bevy does after the system has run. */
  function Flush(tiles: map<Entity, WorkingTile>, commands: seq<Command>): map<Entity, WorkingTile> {
    if |commands| == 0 then tiles else FlushOne(Flush(tiles, commands[..|commands| - 1]), commands[|commands| - 1])
  }

  /** The animation a tile has once showing `index`: none for a standard index, the index's range and speed otherwise. */
  function AnimationFor(index: TileIndex): Option<GpuAnimated> {
    match index
    case Standard(_) => None
    case Animated(start, end, speed) => Some(AnimationOf(start, end, speed))
  }

  /**
   * Once its commands have run, a rewritten tile shows `index`: its texture
   * index is the index's base index cast to `u16`, a standard tile has no
   * animation left, and an animated one has exactly the index's animation,
   * whether it had one before or not.
   */
  lemma RewriteThenFlush(tiles: map<Entity, WorkingTile>, e: Entity, index: TileIndex)
    requires e in tiles
    ensures var t := tiles[e];
            Flush(tiles[e := Rewritten(t, index)], Queued(e, t, index))
              == tiles[e := t.(textureIndex := AsU16(BaseIndex(index)), anim := AnimationFor(index))]
  {
    var t := tiles[e];
    var q := Queued(e, t, index);
    if |q| == 1 {
      assert q[..0] == [];
    }
  }

  /**
   * Re-applying a rule just applied leaves the tile alone: when the rule
   * matched an entry, the rewrite picked a variant of it, its index fits in
   * a `u16` and, for an animation, the range is not reversed, the new
   * texture index is already a variant for the rule, whatever the sampler
   * draws next.
   */
  lemma ReapplySkipped(t: WorkingTile, rule: AutoTileRule, m: TP.TilesetMap, assets: map<Handle, TS.Tileset>,
                       draw: nat, nextDraw: nat)
    requires Resolve(t, rule, m, assets, draw).Rewrite?
    requires var ts := TP.GetById(m, assets, t.autoTile.tilesetId).value;
             var name := TS.GetTileName(ts, t.autoTile.groupId).value;
             TS.GetTileData(ts, name).Some? && TS.GetTileData(ts, name).value.tile.Auto? &&
             TS.FindMatching(TS.GetTileData(ts, name).value.tile.autos, rule).Some?
    requires var index := Resolve(t, rule, m, assets, draw).index;
             BaseIndex(index) < 0x1_0000 && (index.Animated? ==> index.start <= index.end)
    ensures Resolve(Rewritten(t, Resolve(t, rule, m, assets, draw).index), rule, m, assets, nextDraw) == Skipped
  {
    var ts := TP.GetById(m, assets, t.autoTile.tilesetId).value;
    var name := TS.GetTileName(ts, t.autoTile.groupId).value;
    var index := Resolve(t, rule, m, assets, draw).index;
    TS.SelectedIndexIsAutoVariant(ts, name, rule, draw);
    assert Rewritten(t, index).textureIndex as nat == BaseIndex(index);
  }

  // ---------------------------------------------------------------------------
  // The systems

  /** The working tiles, the commands queued for them and the chunks notified. */
  class TileWorld {
    var tiles: map<Entity, WorkingTile>
    var commands: seq<Command>
    var notified: seq<MT.TileCoord>

    constructor (tiles: map<Entity, WorkingTile>)
      ensures this.tiles == tiles && commands == [] && notified == []
    {
      this.tiles := tiles;
      commands, notified := [], [];
    }

    /** The state the apply loop changes. */
    function Snapshot(): State
      reads this
    {
      State(tiles, commands, notified)
    }

    /** One turn of the apply loop. */
    method ApplyOne(request: Request, m: TP.TilesetMap, assets: map<Handle, TS.Tileset>, draw: nat)
      modifies this
      ensures Snapshot() == ApplyRequest(old(Snapshot()), request, m, assets, draw)
    {
      var e := request.tile.entity;
      if e !in tiles {
        return;
      }
      var t := tiles[e];
      var tileset := TP.GetById(m, assets, t.autoTile.tilesetId);
      if tileset.None? {
        return;
      }
      var name := TS.GetTileName(tileset.value, t.autoTile.groupId);
      if name.None? {
        return;
      }
      if TS.IsAutoVariant(tileset.value, name.value, t.textureIndex as nat, request.rule) {
        return;
      }
      var index := TS.GetAutoIndex(tileset.value, name.value, request.rule, draw);
      if index.None? {
        return;
      }
      match index.value {
        case Standard(idx) =>
          tiles := tiles[e := t.(textureIndex := AsU16(idx))];
          if t.anim.Some? {
            commands := commands + [RemoveAnimated(e)];
          }
        case Animated(start, end, speed) =>
          if t.anim.Some? {
            tiles := tiles[e := t.(textureIndex := AsU16(start), anim := Some(AnimationOf(start, end, speed)))];
          } else {
            tiles := tiles[e := t.(textureIndex := AsU16(start))];
            commands := commands + [InsertAnimated(e, AnimationOf(start, end, speed))];
          }
      }
      notified := notified + [ChunkOf(t)];
    }

    /** `apply_requests`: each request in turn, the `i`-th with the sampler's `draw(i)`. */
    method ApplyRequests(requests: seq<Request>, m: TP.TilesetMap, assets: map<Handle, TS.Tileset>, draw: nat -> nat)
      modifies this
      ensures Snapshot() == ApplyAll(old(Snapshot()), requests, m, assets, draw)
    {
      var i := 0;
      while i < |requests|
        invariant 0 <= i <= |requests|
        invariant Snapshot() == ApplyAll(old(Snapshot()), requests[..i], m, assets, draw)
      {
        assert requests[..i + 1][..i] == requests[..i];
        ApplyOne(requests[i], m, assets, draw(i));
        i := i + 1;
      }
      assert requests[..i] == requests;
    }

    /**
     * `on_change_auto_tile`: with no changed tile nothing happens; otherwise
     * a pass over the changed tiles, each with `include_self`, and its
     * requests applied.
     */
    method OnChangeAutoTile(changed: seq<TileEntry>, q: MT.Queries, m: TP.TilesetMap,
                            assets: map<Handle, TS.Tileset>, draw: nat -> nat)
      modifies this
      ensures |changed| == 0 ==> unchanged(this)
      ensures |changed| > 0 ==>
                Snapshot() == ApplyAll(old(Snapshot()), PassRequests(MT.Tilemap(q), Infos(changed)), m, assets, draw)
    {
      if |changed| < 1 {
        return;
      }
      var requests := RunPass(q, changed);
      ApplyRequests(requests, m, assets, draw);
    }

    /**
     * `on_remove_auto_tile`: a pass over the removed tiles, each with
     * `include_self`, and its requests applied; the tiles query no longer
     * yields the removed tiles, so their own requests find no working tile.
     */
    method OnRemoveAutoTile(events: seq<TileEntry>, q: MT.Queries, m: TP.TilesetMap,
                            assets: map<Handle, TS.Tileset>, draw: nat -> nat)
      modifies this
      ensures Snapshot() == ApplyAll(old(Snapshot()), PassRequests(MT.Tilemap(q), Infos(events)), m, assets, draw)
    {
      var requests := RunPass(q, events);
      ApplyRequests(requests, m, assets, draw);
    }
  }
}
