/** Variant tiles: a weighted simple tile (bevy_tileset_tiles/src/variants.rs). */
module Variants {
  import opened Wrappers
  import opened Primitives
  import opened AnimatedTiles

  /** `SimpleTileType`: one atlas index, or an animated range of them. */
  datatype SimpleTileType = Standard(index: nat) | Animated(anim: AnimatedTileData)

  /** `VariantTileData`: a simple tile with its sampling weight (an `f32`, carried as a real). */
  datatype VariantTileData = VariantTileData(weight: real, tile: SimpleTileType)

  /** `SimpleTileHandle`: the texture handles a simple tile is built from. */
  datatype SimpleTileHandle = StandardHandle(handle: Handle) | AnimatedHandle(anim: AnimatedTileHandle)

  /** `VariantTileHandle` */
  datatype VariantTileHandle = VariantTileHandle(weight: real, tile: SimpleTileHandle)

  /** `SimpleTileDefType`: a texture path, or an animation definition. */
  datatype SimpleTileDefType = StandardDef(path: string) | AnimatedDef(anim: AnimatedTileDef)

  /** `VariantTileDef` */
  datatype VariantTileDef = VariantTileDef(weight: real, tile: SimpleTileDefType)

  /** `VariantTileData::new`; `weight()` and `tile()` are the fields. */
  function New(weight: real, tile: SimpleTileType): (r: VariantTileData)
    ensures r.tile == tile && r.weight == weight
  {
    VariantTileData(weight, tile)
  }

  /** A `VariantTileDef` as deserialized: a missing weight becomes 1.0 (`default_weight`). */
  function VariantTileDefFrom(weight: Option<real>, tile: SimpleTileDefType): (r: VariantTileDef)
    ensures r.weight == (if weight.Some? then weight.value else 1.0)
    ensures r.tile == tile
  {
    VariantTileDef(weight.GetOr(1.0), tile)
  }

  /** The atlas indices a simple tile displays. */
  function Indices(t: SimpleTileType): seq<nat> {
    match t
    case Standard(i) => [i]
    case Animated(a) => Frames(a)
  }

  /**
   * `SimpleTileType::contains_index`: equality for a standard tile, the
   * inclusive range `start..=end` for an animated one.
   */
  predicate ContainsIndex(t: SimpleTileType, index: nat)
    ensures ContainsIndex(t, index) <==> index in Indices(t)
  {
    match t
    case Standard(i) => i == index
    case Animated(a) => a.start <= index && index <= a.end
  }

  /** Both bounds of an animated tile are contained. */
  lemma AnimatedBoundsContained(a: AnimatedTileData)
    requires a.start <= a.end
    ensures ContainsIndex(Animated(a), a.start) && ContainsIndex(Animated(a), a.end)
  {
  }

  /** An animated tile whose start is past its end contains no index. */
  lemma ReversedAnimationIsEmpty(a: AnimatedTileData, index: nat)
    requires a.start > a.end
    ensures !ContainsIndex(Animated(a), index)
  {
  }
}
