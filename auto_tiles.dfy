/** Auto tile data: a rule with the variants it selects (bevy_tileset_tiles/src/auto/mod.rs). */
module AutoTiles {
  import opened Wrappers
  import opened Rules
  import opened Variants

  /** `AutoTileData`: the rule this entry answers to and its weighted variants. */
  datatype AutoTileData = AutoTileData(rule: AutoTileRule, variants: seq<VariantTileData>)

  /** `AutoTileHandle` */
  datatype AutoTileHandle = AutoTileHandle(rule: AutoTileRule, variants: seq<VariantTileHandle>)

  /** `AutoTileDef` */
  datatype AutoTileDef = AutoTileDef(rule: AutoTileRule, variants: seq<VariantTileDef>)

  /** `AutoTileData::new`; `rule()` and `variants()` read the fields back. */
  function New(rule: AutoTileRule, variants: seq<VariantTileData>): (r: AutoTileData)
    ensures r.rule == rule && r.variants == variants
  {
    AutoTileData(rule, variants)
  }

  /**
   * An `AutoTileDef` as deserialized: both fields are `#[serde(default)]`, so a
   * missing rule ignores every direction and missing variants are an empty list.
   */
  function AutoTileDefFrom(rule: Option<AutoTileRule>, variants: Option<seq<VariantTileDef>>): (r: AutoTileDef)
    ensures rule.None? ==> forall d :: Get(r.rule, d) == None
    ensures rule.Some? ==> r.rule == rule.value
    ensures r.variants == (if variants.Some? then variants.value else [])
  {
    AutoTileDef(rule.GetOr(Default()), variants.GetOr([]))
  }
}
