/**
 * A built tileset and the queries on it: name, id and index lookups, tile
 * selection (src/tileset/impls/mod.rs), weighted variant choice
 * (src/tileset/impls/variants.rs) and auto tile entry selection
 * (bevy_tileset_core/src/tileset/impls/auto.rs).
 */
module Tilesets {
  import opened Wrappers
  import opened Primitives
  import opened Rules
  import opened Ids
  import opened TileIndexes
  import V = Variants
  import A = AutoTiles
  import T = Tiles

  /**
   * A built tileset. `tiles`, `tileNames` are keyed by group id, `tileIds` by
   * name, `tileHandles` and `tileIndices` by atlas index.
   */
  datatype Tileset = Tileset(
    id: TilesetId,
    name: string,
    tiles: map<TileGroupId, T.TileData>,
    tileIds: map<string, TileGroupId>,
    tileNames: map<TileGroupId, string>,
    tileHandles: map<nat, Handle>,
    tileIndices: map<nat, TileId>)

  /** `get_tile_name` */
  function GetTileName(ts: Tileset, groupId: TileGroupId): Option<string> {
    if groupId in ts.tileNames then Some(ts.tileNames[groupId]) else None
  }

  /** `get_tile_group_id` */
  function GetTileGroupId(ts: Tileset, name: string): Option<TileGroupId> {
    if name in ts.tileIds then Some(ts.tileIds[name]) else None
  }

  /** `get_tile_id` */
  function GetTileId(ts: Tileset, index: nat): Option<TileId> {
    if index in ts.tileIndices then Some(ts.tileIndices[index]) else None
  }

  /** `get_tile_handle` */
  function GetTileHandle(ts: Tileset, index: nat): Option<Handle> {
    if index in ts.tileHandles then Some(ts.tileHandles[index]) else None
  }

  /** `get_tile_name_by_index`: the group recorded for the index, then its name. */
  function GetTileNameByIndex(ts: Tileset, index: nat): (r: Option<string>)
    ensures r.Some? <==> index in ts.tileIndices && ts.tileIndices[index].groupId in ts.tileNames
    ensures r.Some? ==> r == GetTileName(ts, GetTileId(ts, index).value.groupId)
  {
    var id :- GetTileId(ts, index);
    GetTileName(ts, id.groupId)
  }

  /** `get_tile_data`: the name's group, then its data. */
  function GetTileData(ts: Tileset, name: string): (r: Option<T.TileData>)
    ensures r.Some? <==> name in ts.tileIds && ts.tileIds[name] in ts.tiles
    ensures r.Some? ==> r.value == ts.tiles[GetTileGroupId(ts, name).value]
  {
    var g :- GetTileGroupId(ts, name);
    if g in ts.tiles then Some(ts.tiles[g]) else None
  }

  // ---------------------------------------------------------------------
  // Weighted variant choice

  /**
   * Whether a weighted index distribution can be built over `weights`: at
   * least one weight, none negative, and a positive total.
   */
  predicate ValidWeights(weights: seq<real>) {
    |weights| > 0 && (forall i | 0 <= i < |weights| :: weights[i] >= 0.0) && Sum(weights) > 0.0
  }

  function Sum(weights: seq<real>): real {
    if |weights| == 0 then 0.0 else Sum(weights[..|weights| - 1]) + weights[|weights| - 1]
  }

  function Weights(variants: seq<V.VariantTileData>): (r: seq<real>)
    ensures |r| == |variants|
    ensures forall i | 0 <= i < |variants| :: r[i] == variants[i].weight
  {
    seq(|variants|, i requires 0 <= i < |variants| => variants[i].weight)
  }

  /**
   * `select_variant`: `None` when the weights admit no distribution;
   * otherwise the variant at the index the sampler drew (`draw`, supplied by
   * the caller), or `None` if that index is out of range.
   */
  function SelectVariant(variants: seq<V.VariantTileData>, draw: nat): (r: Option<V.VariantTileData>)
    ensures r.Some? <==> ValidWeights(Weights(variants)) && draw < |variants|
    ensures r.Some? ==> r.value == variants[draw]
  {
    if !ValidWeights(Weights(variants)) then None
    else if draw < |variants| then Some(variants[draw])
    else None
  }

  /** No variant can be drawn from an empty list. */
  lemma SelectVariantEmpty(draw: nat)
    ensures SelectVariant([], draw) == None
  {
  }

  // ---------------------------------------------------------------------
  // Auto tile entry selection

  /**
   * The `find` over auto entries: the position of the first entry, in
   * declaration order, whose rule is a subset of `rule`.
   */
  function FindMatching(autos: seq<A.AutoTileData>, rule: AutoTileRule): (r: Option<nat>)
    ensures r.Some? ==> r.value < |autos| && IsSubsetOf(autos[r.value].rule, rule)
    ensures r.Some? ==> forall j | 0 <= j < r.value :: !IsSubsetOf(autos[j].rule, rule)
    ensures r.None? ==> forall j | 0 <= j < |autos| :: !IsSubsetOf(autos[j].rule, rule)
  {
    if |autos| == 0 then None
    else if IsSubsetOf(autos[0].rule, rule) then Some(0)
    else match FindMatching(autos[1..], rule)
      case None => None
      case Some(i) => Some(i + 1)
  }

  /**
   * The entry `select_auto` uses: the explicit `auto_index` when given (out of
   * range gives `None`), else the first matching entry, else the last entry.
   */
  function ChooseEntry(autos: seq<A.AutoTileData>, rule: AutoTileRule, autoIndex: Option<nat>): (r: Option<nat>)
    ensures autoIndex.Some? ==> r == (if autoIndex.value < |autos| then autoIndex else None)
    ensures autoIndex.None? && FindMatching(autos, rule).Some? ==> r == FindMatching(autos, rule)
    ensures autoIndex.None? && FindMatching(autos, rule).None? ==>
              r == (if |autos| == 0 then None else Some(|autos| - 1))
  {
    if autoIndex.Some? then
      (if autoIndex.value < |autos| then autoIndex else None)
    else match FindMatching(autos, rule)
      case Some(i) => Some(i)
      case None => if |autos| == 0 then None else Some(|autos| - 1)
  }

  /**
   * `select_auto`: the chosen entry, then the explicit `variant_index` (out of
   * range gives `None`) or a weighted draw among its variants, as a `TileIndex`.
   */
  function SelectAuto(autos: seq<A.AutoTileData>, rule: AutoTileRule, id: PartialTileId, draw: nat): (r: Option<TileIndex>)
    ensures r.Some? <==>
      && ChooseEntry(autos, rule, id.autoIndex).Some?
      && var vs := autos[ChooseEntry(autos, rule, id.autoIndex).value].variants;
         if id.variantIndex.Some? then id.variantIndex.value < |vs|
         else SelectVariant(vs, draw).Some?
    ensures r.Some? ==>
      var vs := autos[ChooseEntry(autos, rule, id.autoIndex).value].variants;
      exists j | 0 <= j < |vs| :: r.value == FromSimple(vs[j].tile)
    ensures r.Some? && id.variantIndex.Some? ==>
      var vs := autos[ChooseEntry(autos, rule, id.autoIndex).value].variants;
      r.value == FromSimple(vs[id.variantIndex.value].tile)
    ensures r.Some? && id.variantIndex.None? ==>
      var vs := autos[ChooseEntry(autos, rule, id.autoIndex).value].variants;
      r.value == FromSimple(vs[draw].tile)
  {
    var e :- ChooseEntry(autos, rule, id.autoIndex);
    var vs := autos[e].variants;
    var variant :- if id.variantIndex.Some? then
                     (if id.variantIndex.value < |vs| then Some(vs[id.variantIndex.value]) else None)
                   else SelectVariant(vs, draw);
    Some(FromSimple(variant.tile))
  }

  /**
   * `is_auto_variant`: the name must denote an auto tile, some entry must
   * match `rule`, and the first one that does must have a variant containing
   * `index`. Unlike `select_auto` there is no fallback to the last entry.
   */
  predicate IsAutoVariant(ts: Tileset, name: string, index: nat, rule: AutoTileRule) {
    match GetTileData(ts, name)
    case None => false
    case Some(data) =>
      match data.tile
      case Auto(autos) =>
        (match FindMatching(autos, rule)
         case Some(i) => T.AnyVariantContains(autos[i].variants, index)
         case None => false)
      case _ => false
  }

  /** `is_auto_variant` is false for an unknown name and for a tile that is not an auto tile. */
  lemma IsAutoVariantNeedsAutoTile(ts: Tileset, name: string, index: nat, rule: AutoTileRule)
    ensures GetTileData(ts, name).None? ==> !IsAutoVariant(ts, name, index, rule)
    ensures GetTileData(ts, name).Some? && !GetTileData(ts, name).value.tile.Auto? ==>
              !IsAutoVariant(ts, name, index, rule)
  {
  }

  /**
   * For an auto tile, `is_auto_variant` holds exactly when some entry matches
   * and the first matching entry has a variant containing `index`.
   */
  lemma IsAutoVariantIff(ts: Tileset, name: string, index: nat, rule: AutoTileRule)
    requires GetTileData(ts, name).Some? && GetTileData(ts, name).value.tile.Auto?
    ensures var autos := GetTileData(ts, name).value.tile.autos;
            IsAutoVariant(ts, name, index, rule) <==>
              exists i | 0 <= i < |autos| ::
                && IsSubsetOf(autos[i].rule, rule)
                && (forall j | 0 <= j < i :: !IsSubsetOf(autos[j].rule, rule))
                && T.AnyVariantContains(autos[i].variants, index)
  {
    var autos := GetTileData(ts, name).value.tile.autos;
    var f := FindMatching(autos, rule);
  }

  /** `select_tile_by_id`: the tile's index for the id, alongside its data. */
  function SelectTileById(ts: Tileset, id: PartialTileId, draw: nat): (r: Option<(TileIndex, T.TileData)>)
    ensures id.groupId !in ts.tiles ==> r.None?
    ensures r.Some? ==> id.groupId in ts.tiles && r.value.1 == ts.tiles[id.groupId]
    ensures id.groupId in ts.tiles && ts.tiles[id.groupId].tile.Standard? ==>
              r == Some((TileIndexes.Standard(ts.tiles[id.groupId].tile.index), ts.tiles[id.groupId]))
    ensures id.groupId in ts.tiles && ts.tiles[id.groupId].tile.Animated? ==>
              var a := ts.tiles[id.groupId].tile.anim;
              r == Some((TileIndexes.Animated(a.start, a.end, a.speed), ts.tiles[id.groupId]))
    ensures id.groupId in ts.tiles && ts.tiles[id.groupId].tile.Variant? && id.variantIndex.Some? ==>
              var vs := ts.tiles[id.groupId].tile.variants;
              r == if id.variantIndex.value < |vs|
                   then Some((FromSimple(vs[id.variantIndex.value].tile), ts.tiles[id.groupId]))
                   else None
    ensures id.groupId in ts.tiles && ts.tiles[id.groupId].tile.Variant? && id.variantIndex.None? ==>
              var vs := ts.tiles[id.groupId].tile.variants;
              r == if SelectVariant(vs, draw).Some? then Some((FromSimple(vs[draw].tile), ts.tiles[id.groupId])) else None
    ensures id.groupId in ts.tiles && ts.tiles[id.groupId].tile.Auto? ==>
              var sel := SelectAuto(ts.tiles[id.groupId].tile.autos, Default(), id, draw);
              r == if sel.Some? then Some((sel.value, ts.tiles[id.groupId])) else None
  {
    if id.groupId !in ts.tiles then None
    else
      var data := ts.tiles[id.groupId];
      var index :- match data.tile
        case Standard(i) => Some(TileIndexes.Standard(i))
        case Animated(a) => Some(TileIndexes.Animated(a.start, a.end, a.speed))
        case Variant(vs) =>
          var variant :- if id.variantIndex.Some? then
                           (if id.variantIndex.value < |vs| then Some(vs[id.variantIndex.value]) else None)
                         else SelectVariant(vs, draw);
          Some(FromSimple(variant.tile))
        case Auto(autos) => SelectAuto(autos, Default(), id, draw);
      Some((index, data))
  }

  /** `select_tile`: by the name's group id, or `None` if the name is unknown. */
  function SelectTile(ts: Tileset, name: string, draw: nat): (r: Option<(TileIndex, T.TileData)>)
    ensures name !in ts.tileIds ==> r.None?
    ensures name in ts.tileIds ==> r == SelectTileById(ts, NewPartial(ts.tileIds[name]), draw)
  {
    var g :- GetTileGroupId(ts, name);
    SelectTileById(ts, NewPartial(g), draw)
  }

  /** `get_tile_index` */
  function GetTileIndex(ts: Tileset, name: string, draw: nat): (r: Option<TileIndex>)
    ensures r.Some? <==> SelectTile(ts, name, draw).Some?
    ensures r.Some? ==> r.value == SelectTile(ts, name, draw).value.0
  {
    var sel :- SelectTile(ts, name, draw);
    Some(sel.0)
  }

  /** `get_tile_index_by_id` */
  function GetTileIndexById(ts: Tileset, id: PartialTileId, draw: nat): (r: Option<TileIndex>)
    ensures r.Some? <==> SelectTileById(ts, id, draw).Some?
    ensures r.Some? ==> r.value == SelectTileById(ts, id, draw).value.0
  {
    var sel :- SelectTileById(ts, id, draw);
    Some(sel.0)
  }

  /** `get_base_tile_index`: the index of a standard tile, the start of an animated one. */
  function GetBaseTileIndex(ts: Tileset, name: string, draw: nat): (r: Option<nat>)
    ensures r.Some? <==> GetTileIndex(ts, name, draw).Some?
    ensures r.Some? ==> r.value == BaseIndex(GetTileIndex(ts, name, draw).value)
  {
    var index :- GetTileIndex(ts, name, draw);
    match index
    case Standard(i) => Some(i)
    case Animated(s, _, _) => Some(s)
  }

  /**
   * `get_auto_index_by_id`: `None` for an unknown group; an auto tile selects
   * by `rule`, any other tile is delegated to `get_tile_index_by_id`.
   */
  function GetAutoIndexById(ts: Tileset, id: PartialTileId, rule: AutoTileRule, draw: nat): (r: Option<TileIndex>)
    ensures id.groupId !in ts.tiles ==> r.None?
    ensures id.groupId in ts.tiles && ts.tiles[id.groupId].tile.Auto? ==>
              r == SelectAuto(ts.tiles[id.groupId].tile.autos, rule, id, draw)
    ensures id.groupId in ts.tiles && !ts.tiles[id.groupId].tile.Auto? ==>
              r == GetTileIndexById(ts, id, draw)
  {
    if id.groupId !in ts.tiles then None
    else match ts.tiles[id.groupId].tile
      case Auto(autos) => SelectAuto(autos, rule, id, draw)
      case _ => GetTileIndexById(ts, id, draw)
  }

  /** `get_auto_index`: by the name's group id with no explicit indices. */
  function GetAutoIndex(ts: Tileset, name: string, rule: AutoTileRule, draw: nat): (r: Option<TileIndex>)
    ensures name !in ts.tileIds ==> r.None?
    ensures name in ts.tileIds ==> r == GetAutoIndexById(ts, NewPartial(ts.tileIds[name]), rule, draw)
  {
    var g :- GetTileGroupId(ts, name);
    GetAutoIndexById(ts, NewPartial(g), rule, draw)
  }

  /**
   * With the all-unset rule, asking for the auto index of an auto tile is the
   * same as selecting it by name.
   */
  lemma GetAutoIndexDefaultRule(ts: Tileset, name: string, draw: nat)
    ensures GetAutoIndex(ts, name, Default(), draw) == GetTileIndex(ts, name, draw)
  {
  }

  /**
   * `select_auto` without explicit indices picks the first matching entry;
   * every index it can return belongs to that entry, so `is_auto_variant`
   * recognises it afterwards (for an animation, its start frame, when the
   * animation is not reversed).
   */
  lemma SelectedIndexIsAutoVariant(ts: Tileset, name: string, rule: AutoTileRule, draw: nat)
    requires GetTileData(ts, name).Some? && GetTileData(ts, name).value.tile.Auto?
    requires FindMatching(GetTileData(ts, name).value.tile.autos, rule).Some?
    requires GetAutoIndex(ts, name, rule, draw).Some?
    requires var t := GetAutoIndex(ts, name, rule, draw).value; t.Animated? ==> t.start <= t.end
    ensures IsAutoVariant(ts, name, BaseIndex(GetAutoIndex(ts, name, rule, draw).value), rule)
  {
    var autos := GetTileData(ts, name).value.tile.autos;
    var i := FindMatching(autos, rule).value;
    var vs := autos[i].variants;
    var t := GetAutoIndex(ts, name, rule, draw).value;
    assert t == SelectAuto(autos, rule, NewPartial(ts.tileIds[name]), draw).value;
    var j :| 0 <= j < |vs| && t == FromSimple(vs[j].tile);
    BaseIndexContained(vs[j].tile);
  }

  /**
   * The missing fallback shows: with a single entry requiring a northern
   * neighbour, selecting for the all-unset rule falls back to that entry and
   * yields index 7, yet `is_auto_variant` rejects 7 for the same rule.
   */
  lemma IsAutoVariantMissesFallback()
    ensures var entry := A.New(Default().(north := Some(true)), [V.New(1.0, V.Standard(7))]);
            var ts := Tileset(0, "set", map[3 := T.New("wall", T.Auto([entry]))],
                              map["wall" := 3], map[3 := "wall"], map[], map[]);
            && GetAutoIndex(ts, "wall", Default(), 0) == Some(TileIndexes.Standard(7))
            && !IsAutoVariant(ts, "wall", 7, Default())
  {
    var entry := A.New(Default().(north := Some(true)), [V.New(1.0, V.Standard(7))]);
    var ws := Weights(entry.variants);
    assert ws == [1.0];
    assert Sum(ws) == 1.0 by { assert ws[..0] == []; }
  }
}
