/** Top-level tile data, its kinds and its texture handles (bevy_tileset_tiles/src/tile.rs). */
module Tiles {
  import opened Primitives
  import opened AnimatedTiles
  import V = Variants
  import A = AutoTiles
  import Rules

  /** `TileType`: the four kinds of tile. */
  datatype TileType =
    | Standard(index: nat)
    | Animated(anim: AnimatedTileData)
    | Variant(variants: seq<V.VariantTileData>)
    | Auto(autos: seq<A.AutoTileData>)

  /** `TileData`: a named tile. */
  datatype TileData = TileData(name: string, tile: TileType)

  /** `TileHandleType`: the texture handles each kind of tile is built from. */
  datatype TileHandleType =
    | StandardHandle(handle: Handle)
    | AnimatedHandle(anim: AnimatedTileHandle)
    | VariantHandle(variants: seq<V.VariantTileHandle>)
    | AutoHandle(autos: seq<A.AutoTileHandle>)

  /** `TileHandle` */
  datatype TileHandle = TileHandle(name: string, tile: TileHandleType)

  /** `TileData::new`; `name()` and `tile()` read the fields back. */
  function New(name: string, tile: TileType): (r: TileData)
    ensures r.name == name && r.tile == tile
  {
    TileData(name, tile)
  }

  predicate IsStandard(t: TileData) { t.tile.Standard? }
  predicate IsAnimated(t: TileData) { t.tile.Animated? }
  predicate IsVariant(t: TileData) { t.tile.Variant? }
  predicate IsAuto(t: TileData) { t.tile.Auto? }

  /** Exactly one of the four kind predicates holds for every tile. */
  lemma ExactlyOneKind(t: TileData)
    ensures IsStandard(t) || IsAnimated(t) || IsVariant(t) || IsAuto(t)
    ensures IsStandard(t) ==> !IsAnimated(t) && !IsVariant(t) && !IsAuto(t)
    ensures IsAnimated(t) ==> !IsVariant(t) && !IsAuto(t)
    ensures IsVariant(t) ==> !IsAuto(t)
  {
  }

  /** The variants of every auto entry, entry after entry (the `flat_map` over `variants()`). */
  function AutoVariants(autos: seq<A.AutoTileData>): (r: seq<V.VariantTileData>)
    ensures |autos| == 0 ==> r == []
  {
    if |autos| == 0 then [] else AutoVariants(autos[..|autos| - 1]) + autos[|autos| - 1].variants
  }

  /** Does any variant's simple tile contain `index` (the `any` over variants)? */
  predicate AnyVariantContains(variants: seq<V.VariantTileData>, index: nat) {
    exists i | 0 <= i < |variants| :: V.ContainsIndex(variants[i].tile, index)
  }

  /** `TileType::contains_index` */
  predicate ContainsIndex(t: TileType, index: nat) {
    match t
    case Standard(i) => i == index
    case Animated(a) => a.start <= index && index <= a.end
    case Variant(vs) => AnyVariantContains(vs, index)
    case Auto(autos) => AnyVariantContains(AutoVariants(autos), index)
  }

  /** Flattening the auto entries neither loses nor invents a variant. */
  lemma {:induction false} AutoVariantsMembers(autos: seq<A.AutoTileData>, v: V.VariantTileData)
    ensures v in AutoVariants(autos) <==> exists k | 0 <= k < |autos| :: v in autos[k].variants
  {
    if |autos| > 0 {
      var front := autos[..|autos| - 1];
      AutoVariantsMembers(front, v);
      if v in AutoVariants(autos) {
        if v in AutoVariants(front) {
          var k :| 0 <= k < |front| && v in front[k].variants;
          assert autos[k] == front[k];
        } else {
          assert v in autos[|autos| - 1].variants;
        }
      }
      if exists k | 0 <= k < |autos| :: v in autos[k].variants {
        var k :| 0 <= k < |autos| && v in autos[k].variants;
        if k < |autos| - 1 {
          assert front[k] == autos[k];
        }
      }
    }
  }

  /**
   * An auto tile contains `index` exactly when some variant of some of its
   * entries does; a variant tile exactly when one of its variants does.
   */
  lemma AutoContainsIndexIff(autos: seq<A.AutoTileData>, index: nat)
    ensures ContainsIndex(Auto(autos), index) <==>
            exists k, j | 0 <= k < |autos| && 0 <= j < |autos[k].variants| ::
              V.ContainsIndex(autos[k].variants[j].tile, index)
  {
    var flat := AutoVariants(autos);
    if ContainsIndex(Auto(autos), index) {
      var i :| 0 <= i < |flat| && V.ContainsIndex(flat[i].tile, index);
      AutoVariantsMembers(autos, flat[i]);
      var k :| 0 <= k < |autos| && flat[i] in autos[k].variants;
      var j :| 0 <= j < |autos[k].variants| && autos[k].variants[j] == flat[i];
    }
    if exists k, j | 0 <= k < |autos| && 0 <= j < |autos[k].variants| ::
         V.ContainsIndex(autos[k].variants[j].tile, index) {
      var k, j :| 0 <= k < |autos| && 0 <= j < |autos[k].variants| &&
                  V.ContainsIndex(autos[k].variants[j].tile, index);
      var v := autos[k].variants[j];
      AutoVariantsMembers(autos, v);
      var i :| 0 <= i < |flat| && flat[i] == v;
    }
  }

  /** For every kind, `contains_index` is membership in the indices the tile can display. */
  lemma ContainsIndexIsMembership(t: TileType, index: nat)
    ensures t.Standard? ==> (ContainsIndex(t, index) <==> index == t.index)
    ensures t.Animated? ==> (ContainsIndex(t, index) <==> index in Frames(t.anim))
    ensures t.Variant? ==> (ContainsIndex(t, index) <==>
              exists j | 0 <= j < |t.variants| :: index in V.Indices(t.variants[j].tile))
  {
  }

  /** `TileHandle::new_standard` and its siblings. */
  function NewStandard(name: string, handle: Handle): (r: TileHandle)
    ensures r.name == name && r.tile == StandardHandle(handle)
  {
    TileHandle(name, StandardHandle(handle))
  }

  function NewAnimated(name: string, anim: AnimatedTileHandle): (r: TileHandle)
    ensures r.name == name && r.tile == AnimatedHandle(anim)
  {
    TileHandle(name, AnimatedHandle(anim))
  }

  function NewVariant(name: string, variants: seq<V.VariantTileHandle>): (r: TileHandle)
    ensures r.name == name && r.tile == VariantHandle(variants)
  {
    TileHandle(name, VariantHandle(variants))
  }

  function NewAuto(name: string, autos: seq<A.AutoTileHandle>): (r: TileHandle)
    ensures r.name == name && r.tile == AutoHandle(autos)
  {
    TileHandle(name, AutoHandle(autos))
  }

  /** The handles of one simple tile: itself, or its frames in order. */
  function SimpleHandles(t: V.SimpleTileHandle): seq<Handle> {
    match t
    case StandardHandle(h) => [h]
    case AnimatedHandle(a) => a.frames
  }

  /** `iter_variant_handles`: the handles of each variant, variant after variant. */
  function VariantHandles(variants: seq<V.VariantTileHandle>): seq<Handle> {
    if |variants| == 0 then []
    else VariantHandles(variants[..|variants| - 1]) + SimpleHandles(variants[|variants| - 1].tile)
  }

  /** The variants of every auto entry, entry after entry. */
  function AutoVariantHandles(autos: seq<A.AutoTileHandle>): seq<V.VariantTileHandle> {
    if |autos| == 0 then [] else AutoVariantHandles(autos[..|autos| - 1]) + autos[|autos| - 1].variants
  }

  /** `TileHandle::iter_handles`, collected. */
  function IterHandles(h: TileHandle): seq<Handle> {
    match h.tile
    case StandardHandle(x) => [x]
    case AnimatedHandle(a) => a.frames
    case VariantHandle(vs) => VariantHandles(vs)
    case AutoHandle(autos) => VariantHandles(AutoVariantHandles(autos))
  }

  /** Iterating two runs of variants one after the other yields their handles one after the other. */
  lemma {:induction false} VariantHandlesAppend(a: seq<V.VariantTileHandle>, b: seq<V.VariantTileHandle>)
    ensures VariantHandles(a + b) == VariantHandles(a) + VariantHandles(b)
    decreases |b|
  {
    if |b| == 0 {
      assert a + b == a;
    } else {
      var b' := b[..|b| - 1];
      assert (a + b)[..|a + b| - 1] == a + b';
      VariantHandlesAppend(a, b');
    }
  }

  /** The handles of an auto tile are those of its entries, entry after entry. */
  lemma {:induction false} AutoHandlesByEntry(autos: seq<A.AutoTileHandle>)
    ensures |autos| > 0 ==>
      IterHandles(NewAuto("", autos)) ==
        IterHandles(NewAuto("", autos[..|autos| - 1])) + VariantHandles(autos[|autos| - 1].variants)
  {
    if |autos| > 0 {
      VariantHandlesAppend(AutoVariantHandles(autos[..|autos| - 1]), autos[|autos| - 1].variants);
    }
  }

  /** The count of handles of a run of variants: one per standard variant, one per frame. */
  function HandleCount(variants: seq<V.VariantTileHandle>): nat {
    if |variants| == 0 then 0
    else HandleCount(variants[..|variants| - 1]) + |SimpleHandles(variants[|variants| - 1].tile)|
  }

  lemma {:induction false} VariantHandlesCount(variants: seq<V.VariantTileHandle>)
    ensures |VariantHandles(variants)| == HandleCount(variants)
  {
    if |variants| > 0 {
      VariantHandlesCount(variants[..|variants| - 1]);
    }
  }

  /** A standard variant followed by a three-frame animated one, as in the iteration tests. */
  function TestVariants(h: Handle): seq<V.VariantTileHandle> {
    [V.VariantTileHandle(1.0, V.StandardHandle(h)),
     V.VariantTileHandle(1.0, V.AnimatedHandle(AnimatedTileHandle(1.0, [h, h, h])))]
  }

  /**
   * The iteration tests: a standard tile yields one handle, a three-frame
   * animation three, the two variants above four, and two auto entries holding
   * them eight.
   */
  lemma IterHandlesTestCounts(h: Handle)
    ensures |IterHandles(NewStandard("Standard", h))| == 1
    ensures |IterHandles(NewAnimated("Animated", AnimatedTileHandle(1.0, [h, h, h])))| == 3
    ensures |IterHandles(NewVariant("Variant", TestVariants(h)))| == 4
    ensures |IterHandles(NewAuto("Auto", [A.AutoTileHandle(Rules.Default(), TestVariants(h)),
                                          A.AutoTileHandle(Rules.Default(), TestVariants(h))]))| == 8
  {
    var vs := TestVariants(h);
    assert vs[..1][..0] == [];
    assert VariantHandles(vs[..1]) == [h];
    assert VariantHandles(vs) == [h] + [h, h, h];
    var e := A.AutoTileHandle(Rules.Default(), vs);
    assert [e, e][..1] == [e];
    assert [e][..0] == [];
    assert AutoVariantHandles([e]) == vs;
    assert AutoVariantHandles([e, e]) == vs + vs;
    VariantHandlesAppend(vs, vs);
  }
}
