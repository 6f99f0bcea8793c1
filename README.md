# bevy_tileset auto-tile core, modelled in Dafny

This project models the auto-tile engine of bevy_tileset and the bookkeeping around it, and proves properties of the model:

- **Rules.** `AutoTileRule` has eight tri-state directions, and `is_subset_of` is asymmetric (`Rules`).
- **Tile data.** Simple, variant and auto tiles, which atlas indices each contains, and how their texture handles are flattened (`AnimatedTiles`, `Variants`, `AutoTiles`, `Tiles`).
- **Ids.** `TileId`, `PartialTileId` and `AutoTileId`, their conversions and their equality chain (`Ids`, `AutoIds`), and the `AutoTile` component (`AutoTileComponent`).
- **Built tilesets.** Name, id and index lookups, tile selection, auto entry selection with its last-entry fallback, and the anti-flicker check `is_auto_variant` (`TileIndexes`, `Tilesets`).
- **The tileset builder** (`Builder`). It is a class whose methods update the tile tables, the atlas and the index records in place.
- **The two tileset registries.** `TilesetMap` with the `Tilesets` parameter (`TilesetParams`), and the `Tilesets` resource (`TilesetRegistry`).
- **The generic resolution pass** `AutoTiler` (`CoreAutoTiler`). It is a class with a pass-scoped cache, a request list and a requested set.
- **The pass for `bevy_ecs_tilemap`** (`EcsAutoTiler`). It also drops neighbour positions with a negative component.
- **The `bevy_tileset_map` glue.** Its tilemap implementation (`MapTraits`) and the change/removal systems with the apply loop (`MapSystems`).
- **Map saving and loading** (`Serialization`).

## How the model is built

- **Pure and imperative code.** Pure code (matches, folds, lookups) is written as functions. Code that updates state step by step is written as classes and methods with loops. Each method is proved against a specification function, and the properties the source promises are proved about that function as lemmas.
- **The passes.** `FilterNeighbors`, `AddTile` and the apply loop are proved equal to cache-free reference definitions: `ValidNeighbors`, `AddTileRequests` and `ApplyAll`.
- **Cache coherence.** Both passes keep this invariant: every cached tile is what the tilemap (or the queries) hold at its key. So the cache never changes an answer.
- **Integer widths.** The `as` casts between `i32`, `u32` and `u16` are written out in `Primitives`: wrap-around on `u32`, truncation to `u16`. Values that are never cast are unbounded `nat`s.
- **Randomness.** Variant choice depends on the random sampler, which is a parameter. `ValidWeights` says whether `WeightedIndex::new` accepts the variants' weights; when it does, the index the sampler draws is the parameter `draw: nat`. In the apply loop, `draw(i)` is the index drawn for the `i`-th request.
- **ECS queries and resources.** The queries and resources are maps:
  - the tiles query maps an entity to its components;
  - the map query maps a tile coordinate to the entity there;
  - the working query maps an entity to its tile state;
  - the asset store maps a handle to a tileset.
- **`Commands`.** They only queue changes; `Flush` applies the queue afterwards.

### Behaviour worth knowing

- **Diagonals.** Rule generation marks a direction for every kept neighbour, diagonals included, by the row checks in `generate_rule`. A neighbour at `(0,0)` or `(2,1)` would also mark a direction (`CoreAutoTiler.DeltaOutsideRing`).
- **The origin.** With the negative-position filter, a tile at `(0,0)` has only three candidates: `(0,1)`, `(1,1)` and `(1,0)`. So it has at most three valid neighbours (`EcsAutoTiler.OriginAtMostThree`).
- **Duplicate requests.** Requests are not free of duplicates across `add_tile` calls. A neighbour is requested without checking `requested`, so the model proves no global uniqueness. What it proves is that every added tile gets a request (`MapSystems.PassCoversEveryTile`) and that a later request for an entity wins (`MapSystems.LaterRequestWins`).
- **No fallback in `is_auto_variant`.** `is_auto_variant` uses the first matching entry and has no last-entry fallback. So it can reject an index that `get_auto_index` would choose (`Tilesets.IsAutoVariantMissesFallback`).
- **Negative positions in `bevy_tileset_map`.** Its `make_coords` does not drop a negative neighbour position: it wraps to a column or row near 2^32 (`MapTraits.MakeCoordsWrapsNegative`, `MapTraits.LookupAtOffset`).

## Model

| member | source | states |
|---|---|---|
| Rules.Set | bevy_tileset_tiles/src/auto/rules.rs:10-35 | setting one direction of a rule changes that direction and leaves the other seven as they were |
| Rules.RuleExtensionality | bevy_tileset_tiles/src/auto/rules.rs:9-35 | two rules that agree on all eight directions are equal, as the derived `Eq` compares the eight fields |
| Rules.Default | bevy_tileset_tiles/src/auto/rules.rs:9-35 | the derived default rule leaves every direction unset |
| Rules.DefaultFalse | bevy_tileset_tiles/src/auto/rules.rs:86-97 | `default_false` sets every direction to `Some(false)` |
| Rules.DefaultTrue | bevy_tileset_tiles/src/auto/rules.rs:100-111 | `default_true` sets every direction to `Some(true)` |
| Rules.CheckBoolCases | bevy_tileset_tiles/src/auto/rules.rs:113-121 | an unset candidate always passes; `Some(true)` passes only `Some(true)`; `Some(false)` passes anything but `Some(true)`, an unset field included |
| Rules.IsSubsetOfPerDirection | bevy_tileset_tiles/src/auto/rules.rs:74-83 | `is_subset_of` holds exactly when `check_bool` holds in all eight directions |
| Rules.DefaultIsSubsetOfAll | bevy_tileset_tiles/src/auto/rules.rs:113-121 | the all-unset default rule is a subset of every rule |
| Rules.IsSubsetOfReflexive | bevy_tileset_tiles/src/auto/rules.rs:113-121 | every rule is a subset of itself |
| Rules.IsSubsetOfNotSymmetric | bevy_tileset_tiles/src/auto/rules.rs:128-143 | {n:T} is a subset of {n:T, e:T, s:F} but not the other way round |
| Rules.IsSubsetOfNotTransitive | bevy_tileset_tiles/src/auto/rules.rs:113-121 | {n:F} is a subset of the default rule and the default rule of {n:T}, yet {n:F} is not a subset of {n:T} |
| Rules.DefaultTrueSubsetIff | bevy_tileset_tiles/src/auto/rules.rs:100-121 | `default_true` is a subset of a rule exactly when every direction of that rule is `Some(true)` |
| Rules.DefaultFalseSubsetIff | bevy_tileset_tiles/src/auto/rules.rs:86-121 | `default_false` is a subset of a rule exactly when no direction of it is `Some(true)`, so also of the default rule |
| Rules.Get | bevy_tileset_tiles/src/auto/rules.rs:10-35 | the field of a rule for one of the eight directions |
| Rules.CheckBool | bevy_tileset_tiles/src/auto/rules.rs:113-121 | an unset candidate field accepts anything; a set one accepts an equal generated field, and `Some(false)` also accepts an unset one |
| Rules.IsSubsetOf | bevy_tileset_tiles/src/auto/rules.rs:74-83 | `check_bool` of the candidate's field against the generated rule's, conjoined over the eight directions |
| AnimatedTiles.New | bevy_tileset_tiles/src/animated.rs:61-78 | `new(speed, start, end)` has `start()`, `end()` and `speed()` equal to its arguments |
| AnimatedTiles.InclusiveRange | bevy_tileset_tiles/src/animated.rs:12-15 | the frames `start..=end` are exactly the indices between the bounds, both included, `end - start + 1` of them, none when `start > end` |
| AnimatedTiles.FrameCount | bevy_tileset_tiles/src/animated.rs:81-83 | as written: defined only for `end >= start` (unsigned subtraction) and one less than the number of frames |
| AnimatedTiles.FrameCountInclusive | bevy_tileset_tiles/src/animated.rs:12-15 | the number of frames of the inclusive range, one more than `frame_count` whenever that is defined |
| AnimatedTiles.AnimatedTileDefFrom | bevy_tileset_tiles/src/animated.rs:33-58 | a definition missing its speed gets 1.0 and one missing its frames gets an empty list |
| AnimatedTiles.FrameCountOffByOne | bevy_tileset_tiles/src/animated.rs:81-83 | the animation `0..=2` has three frames while `frame_count` reports two |
| AnimatedTiles.Frames | bevy_tileset_tiles/src/animated.rs:12-15 | the atlas indices of an animation, `start` to `end` with both ends included |
| AutoTiles.New | bevy_tileset_tiles/src/auto/mod.rs:43-55 | `new(rule, variants)` reads back the same rule and the same variants, in order |
| AutoTiles.AutoTileDefFrom | bevy_tileset_tiles/src/auto/mod.rs:33-40 | a definition missing its rule gets the all-unset rule, one missing its variants an empty list; given fields are kept |
| Variants.New | bevy_tileset_tiles/src/variants.rs:69-83 | `new(weight, tile)` reads back the same weight and tile |
| Variants.VariantTileDefFrom | bevy_tileset_tiles/src/variants.rs:48-57 | a definition missing its weight gets 1.0; the tile is kept |
| Variants.ContainsIndex | bevy_tileset_tiles/src/variants.rs:94-99 | a simple tile contains an index exactly when the index is among the atlas indices it displays: its own index, or the inclusive range of its animation |
| Variants.AnimatedBoundsContained | bevy_tileset_tiles/src/variants.rs:97 | both the start and the end of an animated tile are contained |
| Variants.ReversedAnimationIsEmpty | bevy_tileset_tiles/src/variants.rs:97 | an animated tile whose start is past its end contains no index |
| Variants.Indices | bevy_tileset_tiles/src/variants.rs:94-99 | the one index of a standard tile, the inclusive frame range of an animated one |
| Tiles.New | bevy_tileset_tiles/src/tile.rs:100-112 | `TileData::new(name, tile)` reads back the same name and tile |
| Tiles.ExactlyOneKind | bevy_tileset_tiles/src/tile.rs:114-134 | for every tile exactly one of `is_standard`, `is_animated`, `is_variant`, `is_auto` holds |
| Tiles.AutoVariantsMembers | bevy_tileset_tiles/src/tile.rs:153-155 | the `flat_map` over the auto entries holds a variant exactly when some entry holds it |
| Tiles.AutoContainsIndexIff | bevy_tileset_tiles/src/tile.rs:153-156 | an auto tile contains an index exactly when some variant of some entry contains it, over all entries rather than a matched one |
| Tiles.ContainsIndexIsMembership | bevy_tileset_tiles/src/tile.rs:146-151 | a standard tile contains only its index, an animated tile exactly its inclusive frame range, a variant tile exactly the indices some variant displays |
| Tiles.NewStandard | bevy_tileset_tiles/src/tile.rs:162-167 | `new_standard` keeps the name and wraps the one handle |
| Tiles.NewAnimated | bevy_tileset_tiles/src/tile.rs:169-174 | `new_animated` keeps the name and the animation handle |
| Tiles.NewVariant | bevy_tileset_tiles/src/tile.rs:176-182 | `new_variant` keeps the name and the variant handles |
| Tiles.NewAuto | bevy_tileset_tiles/src/tile.rs:184-190 | `new_auto` keeps the name and the auto entry handles |
| Tiles.VariantHandlesAppend | bevy_tileset_tiles/src/tile.rs:214-227 | iterating two runs of variants in turn yields their handles in turn |
| Tiles.AutoHandlesByEntry | bevy_tileset_tiles/src/tile.rs:207-209 | an auto tile's handles are its entries' variant handles, entry after entry |
| Tiles.VariantHandlesCount | bevy_tileset_tiles/src/tile.rs:215-227 | a run of variants yields one handle per standard variant and one per animation frame |
| Tiles.IterHandlesTestCounts | bevy_tileset_tiles/src/tile.rs:235-351 | the test tiles yield 1 (standard), 3 (animation), 1+3 (variants) and 2×(1+3) (auto) handles |
| Tiles.AutoVariants | bevy_tileset_tiles/src/tile.rs:153-155 | the variants of every auto entry, entry after entry, as the `flat_map` over `variants()` yields them |
| Tiles.ContainsIndex | bevy_tileset_tiles/src/tile.rs:146-158 | equality for a standard tile, the inclusive range for an animated one, and for variant and auto tiles whether any variant's simple tile contains the index |
| Tiles.IterHandles | bevy_tileset_tiles/src/tile.rs:200-227 | the handle of a standard tile, an animation's frame handles in order, and for variant and auto tiles each variant's handles, variant after variant |
| Ids.New | bevy_tileset_core/src/ids.rs:46-55 | `TileId::new` leaves both indices `None` and keeps the group and tileset |
| Ids.NewPartial | bevy_tileset_core/src/ids.rs:92-100 | `PartialTileId::new` (and `From<TileGroupId>`) leaves both indices `None` and keeps the group |
| Ids.Partial | bevy_tileset_core/src/ids.rs:80-88 | `partial` (and `From<TileId>`) keeps both indices and the group |
| Ids.Extend | bevy_tileset_core/src/ids.rs:103-112 | `extend` sets the given tileset |
| Ids.ExtendPartial | bevy_tileset_core/src/ids.rs:80-112 | `partial(id).extend(id.tileset_id) == id` |
| Ids.PartialExtend | bevy_tileset_core/src/ids.rs:80-112 | `extend(p, t).partial() == p` |
| Ids.PartialInjectiveWithinTileset | bevy_tileset_core/src/ids.rs:80-88 | within one tileset two ids are equal exactly when their partial ids are |
| Ids.NewIsExtendedNewPartial | bevy_tileset_core/src/ids.rs:46-112 | `PartialTileId::new(g).extend(t) == TileId::new(g, t)` and `TileId::new(g, t).partial() == PartialTileId::new(g)` |
| Ids.EqualityChain | bevy_tileset_core/src/ids.rs:57-77 | `eq_variant` implies `eq_auto`, which implies `eq_tile_group`, which implies `eq_tileset` |
| Ids.EqualityChainIsStrict | bevy_tileset_core/src/ids.rs:57-77 | none of those implications reverses: ids differing only in the finer field witness each |
| Ids.EqualitiesIgnoreIndices | bevy_tileset_core/src/ids.rs:65-72 | `eq_tile_group` ignores both indices and `eq_auto` ignores the variant index |
| Ids.EqTileset | bevy_tileset_core/src/ids.rs:75-77 | equal tileset ids |
| Ids.EqTileGroup | bevy_tileset_core/src/ids.rs:70-72 | equal group ids and `eq_tileset` |
| Ids.EqAuto | bevy_tileset_core/src/ids.rs:64-67 | equal auto indices and `eq_tile_group` |
| Ids.EqVariant | bevy_tileset_core/src/ids.rs:58-61 | the derived equality of the whole id |
| AutoIds.FromTileId | bevy_tileset_core/src/auto/mod.rs:22-29 | `TileId` to `AutoTileId` keeps the group and tileset and drops the indices |
| AutoIds.ToTileId | bevy_tileset_core/src/auto/mod.rs:31-35 | `AutoTileId` to `TileId` gives an id with no auto or variant index |
| AutoIds.ToTileIdRoundTrip | bevy_tileset_core/src/auto/mod.rs:22-35 | `AutoTileId` to `TileId` and back is the identity |
| AutoIds.FromTileIdRoundTrip | bevy_tileset_core/src/auto/mod.rs:22-35 | `TileId` to `AutoTileId` and back is the identity exactly for ids with neither index |
| AutoIds.FromTileIdIsGroupEquality | bevy_tileset_core/src/auto/mod.rs:22-29 | two `TileId`s give the same `AutoTileId` exactly when `eq_tile_group` holds |
| AutoIds.AutoTileIdEquality | bevy_tileset_core/src/auto/mod.rs:16-20 | `AutoTileId` equality is equality of group and tileset |
| AutoTileComponent.New | src/auto/mod.rs:26-38 | `AutoTile::new(g, t)` has `id() == g` and `tileset_id() == t` |
| AutoTileComponent.SetId | src/auto/mod.rs:51-53 | `set_id` changes the group id and keeps the tileset id |
| AutoTileComponent.SetTilesetId | src/auto/mod.rs:66-68 | `set_tileset_id` changes the tileset id and keeps the group id |
| AutoTileComponent.SettersRebuild | src/auto/mod.rs:51-68 | setting both fields gives `new` of them; setting a field to its own value changes nothing |
| AutoTileComponent.AutoTileEquality | src/auto/mod.rs:13-14 | the derived equality compares both fields |
| TileIndexes.BaseIndex | src/tileset/tile_index.rs:18-23 | `base_index` is the index of a standard tile and the start of an animated one, for both kinds |
| TileIndexes.BaseIndexIgnoresEndAndSpeed | src/tileset/tile_index.rs:21 | the base index of an animated index does not depend on its end or speed |
| TileIndexes.BaseIndexContained | src/tileset/tile_index.rs:13-23 | the base index of a simple tile's index is an index that tile contains, unless the animation's start is past its end |
| TileIndexes.FromSimple | src/tileset/impls/mod.rs:211-222 | a standard simple tile becomes the standard index of its atlas index, an animated one the animated index carrying its (start, end, speed) |
| Tilesets.GetTileNameByIndex | src/tileset/impls/mod.rs:61-64 | the name is found exactly when the index has a recorded id whose group has a name, and it is that group's name |
| Tilesets.GetTileData | src/tileset/impls/mod.rs:110-113 | the data is found exactly when the name has a group id with tile data, and it is that data |
| Tilesets.Weights | src/tileset/impls/variants.rs:20 | the weights are the variants' weights, one per variant, in order |
| Tilesets.SelectVariant | src/tileset/impls/variants.rs:18-24 | a variant is chosen exactly when the weights admit a distribution and the drawn index is in range, and it is the variant at that index |
| Tilesets.SelectVariantEmpty | src/tileset/impls/variants.rs:21 | nothing can be chosen from no variants |
| Tilesets.FindMatching | bevy_tileset_core/src/tileset/impls/auto.rs:137-141 | the result is the first entry, in declaration order, whose rule is a subset of the given rule; none when no entry's rule is |
| Tilesets.ChooseEntry | bevy_tileset_core/src/tileset/impls/auto.rs:134-144 | an explicit `auto_index` picks that entry or nothing when out of range; otherwise the first matching entry, else the last entry, else nothing for no entries |
| Tilesets.SelectAuto | bevy_tileset_core/src/tileset/impls/auto.rs:128-154 | a result exists exactly when an entry is chosen and then an explicit `variant_index` is in range or the weighted draw succeeds; the result is the index of the chosen entry's variant at the explicit `variant_index`, or at the drawn index when there is none |
| Tilesets.IsAutoVariantNeedsAutoTile | bevy_tileset_core/src/tileset/impls/auto.rs:108-126 | `is_auto_variant` is false for an unknown name and for a tile that is not an auto tile |
| Tilesets.IsAutoVariantIff | bevy_tileset_core/src/tileset/impls/auto.rs:111-119 | for an auto tile, `is_auto_variant` holds exactly when some entry matches and the first matching entry has a variant containing the index |
| Tilesets.IsAutoVariantMissesFallback | bevy_tileset_core/src/tileset/impls/auto.rs:117-119 | with one entry requiring a northern neighbour, `get_auto_index` for the all-unset rule falls back to that entry's index 7, yet `is_auto_variant` rejects 7 for the same rule |
| Tilesets.SelectTileById | src/tileset/impls/mod.rs:201-229 | unknown group gives nothing; standard gives its index, animated its (start, end, speed); a variant tile its explicit variant or nothing when out of range, and without an explicit index the drawn variant when the weights admit a distribution and the draw is in range, nothing otherwise; an auto tile `select_auto` with the all-unset rule; the tile data is returned alongside |
| Tilesets.SelectTile | src/tileset/impls/mod.rs:182-185 | an unknown name gives nothing; a known one is `select_tile_by_id` of its group id |
| Tilesets.GetTileIndex | src/tileset/impls/mod.rs:137-140 | the index part of `select_tile`, present exactly when that is |
| Tilesets.GetTileIndexById | src/tileset/impls/mod.rs:142-145 | the index part of `select_tile_by_id`, present exactly when that is |
| Tilesets.GetBaseTileIndex | src/tileset/impls/mod.rs:163-168 | the base index of `get_tile_index`: the index of a standard tile, the start of an animated one |
| Tilesets.GetAutoIndexById | bevy_tileset_core/src/tileset/impls/auto.rs:76-89 | unknown group gives nothing; an auto tile is `select_auto` for the given rule; any other tile is delegated to `get_tile_index_by_id` |
| Tilesets.GetAutoIndex | bevy_tileset_core/src/tileset/impls/auto.rs:45-48 | an unknown name gives nothing; a known one is `get_auto_index_by_id` of its group id |
| Tilesets.GetAutoIndexDefaultRule | src/tileset/impls/mod.rs:225 | `get_auto_index` with the all-unset rule equals `get_tile_index`, for every kind of tile |
| Tilesets.SelectedIndexIsAutoVariant | bevy_tileset_core/src/tileset/impls/auto.rs:108-154 | when some entry matches, the base of any index `get_auto_index` returns is recognised by `is_auto_variant` for the same rule (for an animation that is not reversed) |
| Tilesets.GetTileName | src/tileset/impls/mod.rs:49-51 | the name recorded for a group id, none for an unknown group |
| Tilesets.GetTileGroupId | src/tileset/impls/mod.rs:74-76 | the group id recorded for a name, none for an unknown name |
| Tilesets.GetTileId | src/tileset/impls/mod.rs:86-88 | the tile id recorded for an atlas index, none for an unknown index |
| Tilesets.GetTileHandle | src/tileset/impls/mod.rs:98-100 | the texture handle recorded for an atlas index, none for an unknown index |
| Tilesets.ValidWeights | src/tileset/impls/variants.rs:18-24 | the weights `WeightedIndex::new` accepts: at least one, none negative, and a positive total |
| Tilesets.IsAutoVariant | bevy_tileset_core/src/tileset/impls/auto.rs:108-126 | false for an unknown name or a tile that is not an auto tile, and false when no entry matches the rule; otherwise whether a variant of the first matching entry contains the index |
| Builder.StoredPrefix | src/tileset/builder.rs:215-216 | the frames inserted before `?` stops: all from the first up to, not including, the first frame the store lacks |
| Builder.KeysBelowGrow | src/tileset/builder.rs:255-267 | the index the atlas hands out next was not recorded before, and every recorded index stays below the grown atlas |
| Builder.TaggedMembers | src/tileset/builder.rs:260-268 | textures added one after another record exactly their new indices, all under the same id, and keep every other entry |
| Builder.NamesAgreeRegister | src/tileset/builder.rs:130-132 | registering a new group under its name keeps `tile_ids`, `tile_names` and `tiles` in agreement |
| Builder.AllRecordedRegister | src/tileset/builder.rs:125-132 | a tile whose displayed indices are recorded under its group can be registered without breaking "every displayed index is recorded under its tile's group" |
| Builder.AllRecordedGrow | src/tileset/builder.rs:123-128 | adding textures from the atlas end on keeps every tile registered before recorded |
| Builder.TilesetBuilder.constructor | src/tileset/builder.rs:34-50 | a new builder has no tiles, names, handles or recorded indices, an empty atlas, group 0 and no variant or auto entry in progress |
| Builder.TilesetBuilder.AddTexture | src/tileset/builder.rs:250-271 | the texture gets the next atlas index, which is returned; it is recorded with the current (group, variant, auto) and its handle is stored; nothing else changes |
| Builder.TilesetBuilder.InsertHandle | src/tileset/builder.rs:238-248 | a texture missing from the store gives `ImageNotFound` and changes nothing; otherwise it is added as by `add_texture` |
| Builder.TilesetBuilder.CreateAnimated | src/tileset/builder.rs:209-236 | the frames are added up to the first missing one; the result is `ImageNotFound` if one is missing, `InvalidData` for fewer than two frames, else start at the first frame's index and end at the last's |
| Builder.TilesetBuilder.BuildSimple | src/tileset/builder.rs:191-198 | a variant's texture or animation is built as by `insert_handle` or `create_animated`; every index it displays was just added, and holds the texture, or the frame, it was built from; earlier handles are kept |
| Builder.TilesetBuilder.CreateVariants | src/tileset/builder.rs:179-207 | always succeeds; failed variants are dropped; the k-th built variant comes from the k-th surviving handle with its weight, holds that handle's textures at its indices, and its indices are recorded with variant index k; the variant counter ends `None` |
| Builder.TilesetBuilder.BuildEntry | src/tileset/builder.rs:165-171 | one auto entry keeps its rule, builds its surviving variants from their textures, recorded under the current entry index, and advances that index by one |
| Builder.TilesetBuilder.CreateAutos | src/tileset/builder.rs:156-177 | always succeeds with one entry per handle, each keeping its rule and built from its surviving variants' textures; the indices of variant v of entry k are recorded as (k, v); the entry counter ends `None` |
| Builder.TilesetBuilder.GetTileType | src/tileset/builder.rs:135-154 | standard and animated tiles build or fail as `insert_handle` and `create_animated` do; variant and auto tiles always build; a built tile is the one its handles describe, its textures added from the old atlas end on; every index it displays is recorded under the current group |
| Builder.TilesetBuilder.AddTile | src/tileset/builder.rs:111-133 | a group id already registered gives `TileAlreadyExists` and changes nothing; otherwise the group becomes current, a build error is returned with nothing registered, and the tile built from the given handles, its textures added from the old atlas end on, is registered under its group and name, returning no previous tile; handles stored before are kept |
| Builder.TilesetBuilder.Build | src/tileset/builder.rs:60-85 | the tileset keeps the tiles, names and handles and extends every recorded id with the tileset id; from a ready builder every index a tile displays leads back to that tile's group |
| Builder.BuiltTile | src/tileset/builder.rs:135-154 | the tile `get_tile_type` builds from its handles: a standard tile at the first new atlas index holding its texture, an animation from there on holding its frames in order, and variant and auto tiles built from their surviving handles |
| Builder.GetTileHandleOfBuilt | src/tileset/impls/mod.rs:98-100 | `get_tile_handle` at each index a built simple tile displays gives back the texture it was built from, the frame for that index for an animation |
| Builder.BuiltTileKept | src/tileset/builder.rs:250-271 | adding textures only adds handles, so a tile registered earlier stays tied to the textures it was built from |
| TilesetParams.TilesetMap.constructor | bevy_tileset_core/src/tileset/param.rs:18-24 | the default map relates no names, ids or handles |
| TilesetParams.TilesetMap.RegisterTileset | bevy_tileset_core/src/tileset/param.rs:101-108 | sets handle→id, id→name, name→id and id→handle for the tileset and keeps every other entry |
| TilesetParams.TilesetMap.DeregisterTileset | bevy_tileset_core/src/tileset/param.rs:117-124 | an unknown handle changes nothing; a known one removes handle→id, the id's name and handle, and the name→id entry of that name |
| TilesetParams.GetById | bevy_tileset_core/src/tileset/param.rs:42-45 | found exactly when the id has a handle whose asset is loaded, and it is that asset |
| TilesetParams.GetByName | bevy_tileset_core/src/tileset/param.rs:54-57 | nothing for an unmapped name; otherwise `get_by_id` of the name's id |
| TilesetParams.ContainsIffFound | bevy_tileset_core/src/tileset/param.rs:66-89 | `contains_id` and `contains_name` hold exactly when `get_by_id` and `get_by_name` find a tileset |
| TilesetParams.RegisterThenFind | bevy_tileset_core/src/tileset/param.rs:42-108 | after registering a loaded tileset, it is found and contained by its id and by its name |
| TilesetParams.StaleHandleDeregisters | bevy_tileset_core/src/tileset/param.rs:101-124 | registering one tileset under handle 1 then handle 2 and deregistering handle 1 leaves it found neither by id nor by name, though handle 2 is loaded |
| TilesetParams.ContainsId | bevy_tileset_core/src/tileset/param.rs:66-73 | false for an id with no handle; otherwise whether the handle's asset is loaded |
| TilesetParams.ContainsName | bevy_tileset_core/src/tileset/param.rs:82-89 | false for an unmapped name; otherwise `contains_id` of its id |
| TilesetParams.FoundHasName | bevy_tileset_core/src/tileset/param.rs:42-45 | in a map kept consistent by registering and deregistering, a tileset found by its id also has a name |
| TilesetRegistry.Registry.constructor | src/tileset/tilesets.rs:5-11 | the default registry holds no names, no tilesets and a counter of 0 |
| TilesetRegistry.Registry.GetId | src/tileset/tilesets.rs:22-24 | an id is found exactly when the name is registered |
| TilesetRegistry.Registry.Get | src/tileset/tilesets.rs:34-36 | a tileset is found exactly when its id is registered |
| TilesetRegistry.Registry.GetByName | src/tileset/tilesets.rs:46-49 | found exactly when the name maps to an id that holds a tileset, and then it is that id's tileset |
| TilesetRegistry.Registry.NextId | src/tileset/tilesets.rs:54-58 | hands out the old counter and advances it by one, changing nothing else |
| TilesetRegistry.Registry.Register | src/tileset/tilesets.rs:70-74 | returns the tileset the id held before; afterwards the tileset is found by its id and by its name |
| TilesetRegistry.Registry.Deregister | src/tileset/tilesets.rs:84-86 | returns and removes the id's tileset; names keep their id but no longer find a tileset |
| TilesetRegistry.Registry.DeregisterByName | src/tileset/tilesets.rs:96-99 | an unknown name changes nothing; a known one deregisters its id's tileset and keeps the name entry |
| TilesetRegistry.RegisterThenDeregister | src/tileset/tilesets.rs:70-99 | register then deregister gives the tileset back and leaves the name resolving to the id but to no tileset |
| CoreAutoTiler.Offsets | bevy_tileset_core/src/auto/auto_tiler.rs:86-101 | `get_neighbors` makes eight lookups |
| CoreAutoTiler.OffsetsAreTheRing | bevy_tileset_core/src/auto/auto_tiler.rs:86-101 | the offsets visited are exactly the eight non-zero offsets within one step, each once |
| CoreAutoTiler.Surroundings | bevy_tileset_core/src/auto/auto_tiler.rs:86-101 | one lookup per offset, eight in all |
| CoreAutoTiler.NeighborAtZero | bevy_tileset_core/src/auto/auto_tiler.rs:104-130 | the zero offset finds nothing; each ring offset is the tilemap's tile at the coordinates made from the shifted position |
| CoreAutoTiler.ValidNeighborsIff | bevy_tileset_core/src/auto/auto_tiler.rs:134-160 | a tile is kept exactly when it can match the centre and some candidate's coordinates hold it in the tilemap |
| CoreAutoTiler.ValidNeighborsMatch | bevy_tileset_core/src/auto/auto_tiler.rs:141-153 | every kept neighbour can match the centre |
| CoreAutoTiler.ValidNeighborsLength | bevy_tileset_core/src/auto/auto_tiler.rs:134-160 | no more neighbours are kept than there are candidates |
| CoreAutoTiler.MarkSetsDirection | bevy_tileset_core/src/auto/auto_tiler.rs:167-202 | one fold step sets the direction of the neighbour's offset to `Some(true)` and leaves every other direction |
| CoreAutoTiler.GenerateRuleIff | bevy_tileset_core/src/auto/auto_tiler.rs:164-203 | a generated rule holds `Some(true)` in a direction exactly when some neighbour's offset marks it, and `None` otherwise |
| CoreAutoTiler.DirectionIndex | bevy_tileset_core/src/auto/auto_tiler.rs:86-101 | every direction has a place among the eight offsets visited |
| CoreAutoTiler.DeltaMapping | bevy_tileset_core/src/auto/auto_tiler.rs:170-199 | the eight ring offsets mark the eight compass directions, each a different one |
| CoreAutoTiler.DeltaOutsideRing | bevy_tileset_core/src/auto/auto_tiler.rs:170-199 | offset (0,0) marks east and (2,1) north-east; an offset marks nothing exactly when its row is more than one step away |
| CoreAutoTiler.FullRingIsDefaultTrue | bevy_tileset_core/src/auto/auto_tiler.rs:164-203 | a tile with all eight neighbours gets the rule with every direction `Some(true)` |
| CoreAutoTiler.RequestForIs | bevy_tileset_core/src/auto/auto_tiler.rs:67-73 | a request built from a tile's filtered surroundings and the rule generated from them is the tile's request |
| CoreAutoTiler.AddTileRequestsSplit | bevy_tileset_core/src/auto/auto_tiler.rs:60-73 | the requests of one step are the tile's own, if included, followed by its neighbours' |
| CoreAutoTiler.RequestedTilesShape | bevy_tileset_core/src/auto/auto_tiler.rs:55-73 | one step requests at most nine tiles: the tile first exactly when `include_self`, then the valid neighbours in offset order |
| CoreAutoTiler.AddTileRequestsAt | bevy_tileset_core/src/auto/auto_tiler.rs:55-73 | the k-th request of one step is for the k-th requested tile, with the rule of that tile's own valid neighbours |
| CoreAutoTiler.RequestedCoordsIff | bevy_tileset_core/src/auto/auto_tiler.rs:77-81 | a coordinate is recorded as requested exactly when some request's tile has it |
| CoreAutoTiler.AutoTiler.constructor | bevy_tileset_core/src/auto/auto_tiler.rs:20-30 | a new pass has an empty cache, no requests and nothing requested |
| CoreAutoTiler.AutoTiler.Finish | bevy_tileset_core/src/auto/auto_tiler.rs:33-35 | the requests returned are exactly for the coordinates recorded as requested |
| CoreAutoTiler.AutoTiler.GetNeighborAtOffset | bevy_tileset_core/src/auto/auto_tiler.rs:104-130 | with the cache agreeing with the tilemap, the cached-then-tilemap lookup equals the tilemap lookup; the zero offset finds nothing |
| CoreAutoTiler.AutoTiler.GetNeighbors | bevy_tileset_core/src/auto/auto_tiler.rs:86-101 | the eight lookups in offset order equal the surroundings |
| CoreAutoTiler.AutoTiler.FilterNeighbors | bevy_tileset_core/src/auto/auto_tiler.rs:134-160 | returns the kept neighbours in order; the cache only grows, with matching tiles that agree with the tilemap |
| CoreAutoTiler.AutoTiler.TryAddRequest | bevy_tileset_core/src/auto/auto_tiler.rs:77-81 | records the tile's coordinates and appends exactly one request |
| CoreAutoTiler.AutoTiler.AddRequestFor | bevy_tileset_core/src/auto/auto_tiler.rs:67-73 | appends the request of one tile with the rule of its own valid neighbours |
| CoreAutoTiler.AutoTiler.AddTile | bevy_tileset_core/src/auto/auto_tiler.rs:47-74 | an already requested tile changes nothing; otherwise the step's requests are appended in order and `requested` only grows |
| CoreAutoTiler.AutoTiler.AddRequestsFor | bevy_tileset_core/src/auto/auto_tiler.rs:67-73 | the neighbour loop appends one request per tile, in order |
| CoreAutoTiler.NeighborAt | bevy_tileset_core/src/auto/auto_tiler.rs:104-130 | with nothing cached: none for the zero offset, otherwise the tilemap's tile at the coordinates made from the shifted position |
| CoreAutoTiler.ValidNeighbors | bevy_tileset_core/src/auto/auto_tiler.rs:134-160 | with nothing cached: for each present candidate, in order, the tilemap's tile at its coordinates when there is one and it can match the centre |
| CoreAutoTiler.DeltaDirection | bevy_tileset_core/src/auto/auto_tiler.rs:170-199 | the direction an offset marks: the row by `y`, then `x == 0` for the middle, `x == -1` for the west and any other `x` for the east; none beyond one row away |
| CoreAutoTiler.Mark | bevy_tileset_core/src/auto/auto_tiler.rs:167-201 | one step of the fold: the three row checks, each setting at most one field to `Some(true)` |
| CoreAutoTiler.GenerateRule | bevy_tileset_core/src/auto/auto_tiler.rs:164-203 | the fold of the neighbours' offsets, first to last, over the all-unset default rule |
| CoreAutoTiler.RequestFor | bevy_tileset_core/src/auto/auto_tiler.rs:55-72 | the request for a tile: the tile itself with the rule generated from its own valid neighbours |
| EcsAutoTiler.NewWithParent | bevy_ecs_tilemap_tileset/src/auto/auto_tiler.rs:43-58 | the tile object keeps the entity, position and auto tile and takes the parent's map and layer |
| EcsAutoTiler.FindTile | bevy_ecs_tilemap_tileset/src/auto/auto_tiler.rs:156-165 | the tiles query finds exactly the entities it yields, with their own position and auto tile |
| EcsAutoTiler.IsValidNeighborEquivalence | bevy_ecs_tilemap_tileset/src/auto/auto_tiler.rs:172-176 | being a valid neighbour is reflexive, symmetric and transitive, and ignores position and entity |
| EcsAutoTiler.KeyInheritsMapAndLayer | bevy_ecs_tilemap_tileset/src/auto/auto_tiler.rs:264-276 | a surviving neighbour position is looked up on the centre's map and layer at that very position |
| EcsAutoTiler.Surroundings | bevy_ecs_tilemap_tileset/src/auto/auto_tiler.rs:234-248 | one lookup per offset, eight in all |
| EcsAutoTiler.NeighborAtOrigin | bevy_ecs_tilemap_tileset/src/auto/auto_tiler.rs:257-291 | at (0,0) a non-zero offset finds an entity exactly when neither component is negative and the map query has a tile there |
| EcsAutoTiler.OriginCandidate | bevy_ecs_tilemap_tileset/src/auto/auto_tiler.rs:234-291 | at (0,0) the k-th candidate is present exactly when the k-th offset is non-negative and the map query has a tile at it |
| EcsAutoTiler.NonNegativeOffsets | bevy_ecs_tilemap_tileset/src/auto/auto_tiler.rs:234-248 | only the second, third and fifth offsets, (0,1), (1,1) and (1,0), have no negative component |
| EcsAutoTiler.SurroundingsFromTileEntities | bevy_ecs_tilemap_tileset/src/auto/auto_tiler.rs:272-291 | every candidate names the entity the map query holds at its key |
| EcsAutoTiler.ValidNeighborsIff | bevy_ecs_tilemap_tileset/src/auto/auto_tiler.rs:135-169 | a tile object is kept exactly when it is the tiles query's object for some candidate's entity and a valid neighbour of the centre |
| EcsAutoTiler.ValidNeighborsAtMostPresent | bevy_ecs_tilemap_tileset/src/auto/auto_tiler.rs:135-169 | no more neighbours are kept than candidates naming an entity |
| EcsAutoTiler.PresentOutsideCorner | bevy_ecs_tilemap_tileset/src/auto/auto_tiler.rs:234-248 | eight candidates with the five offsets having a negative component absent have at most three present |
| EcsAutoTiler.OriginAtMostThree | bevy_ecs_tilemap_tileset/src/auto/auto_tiler.rs:257-270 | a tile at (0,0) has at most three valid neighbours |
| EcsAutoTiler.PresentStep | bevy_ecs_tilemap_tileset/src/auto/auto_tiler.rs:140-142 | counting one more candidate adds one exactly when it names an entity |
| EcsAutoTiler.Positions | bevy_ecs_tilemap_tileset/src/auto/auto_tiler.rs:183 | one position per tile |
| EcsAutoTiler.PositionsAt | bevy_ecs_tilemap_tileset/src/auto/auto_tiler.rs:183 | the k-th position is the k-th tile's position as `i32` |
| EcsAutoTiler.RequestRule | bevy_ecs_tilemap_tileset/src/auto/auto_tiler.rs:179-218 | a requested rule is `Some(true)` in a direction exactly when one of the tile's valid neighbours sits there, and unset otherwise |
| EcsAutoTiler.RequestForIs | bevy_ecs_tilemap_tileset/src/auto/auto_tiler.rs:123-130 | a request built from a tile's filtered surroundings and the rule generated from them is the tile's request |
| EcsAutoTiler.AddTileRequestsSplit | bevy_ecs_tilemap_tileset/src/auto/auto_tiler.rs:116-130 | the requests and coordinates of one step are the centre's own, if included, followed by its neighbours' |
| EcsAutoTiler.AddTileOutcome | bevy_ecs_tilemap_tileset/src/auto/auto_tiler.rs:116-130 | appending the centre's part and then the neighbours' part gives exactly the step's requests and coordinates |
| EcsAutoTiler.RequestedTilesShape | bevy_ecs_tilemap_tileset/src/auto/auto_tiler.rs:109-130 | one step requests at most nine tiles (four at (0,0)): the centre first exactly when `include_self`, and each one a valid neighbour of the centre |
| EcsAutoTiler.PresentAtMost | bevy_ecs_tilemap_tileset/src/auto/auto_tiler.rs:140-142 | no more candidates name an entity than there are candidates |
| EcsAutoTiler.AddTileRequestsAt | bevy_ecs_tilemap_tileset/src/auto/auto_tiler.rs:109-130 | the k-th request of one step is for the k-th requested tile's entity, with the rule of that tile's own valid neighbours |
| EcsAutoTiler.AutoTiler.constructor | bevy_ecs_tilemap_tileset/src/auto/auto_tiler.rs:70-83 | a new pass has an empty cache, no requests and nothing requested |
| EcsAutoTiler.AutoTiler.GetNeighborAtOffset | bevy_ecs_tilemap_tileset/src/auto/auto_tiler.rs:251-291 | with the cache agreeing with the queries, the cached-then-map-query lookup equals the map query lookup; zero and negative positions find nothing |
| EcsAutoTiler.AutoTiler.GetNeighbors | bevy_ecs_tilemap_tileset/src/auto/auto_tiler.rs:234-248 | the eight lookups in offset order equal the surroundings |
| EcsAutoTiler.AutoTiler.FilterNeighbors | bevy_ecs_tilemap_tileset/src/auto/auto_tiler.rs:135-169 | returns the kept neighbours in order; the cache only grows, with valid neighbours that agree with the queries |
| EcsAutoTiler.AutoTiler.TryAddRequest | bevy_ecs_tilemap_tileset/src/auto/auto_tiler.rs:223-231 | appends exactly one request for the tile's entity and records its coordinate |
| EcsAutoTiler.AutoTiler.AddRequestFor | bevy_ecs_tilemap_tileset/src/auto/auto_tiler.rs:123-130 | appends the request of one tile with the rule of its own valid neighbours |
| EcsAutoTiler.AutoTiler.AddRequestsFor | bevy_ecs_tilemap_tileset/src/auto/auto_tiler.rs:123-130 | the neighbour loop appends one request per tile in order and records their coordinates |
| EcsAutoTiler.AutoTiler.AddTile | bevy_ecs_tilemap_tileset/src/auto/auto_tiler.rs:90-131 | an already requested coordinate changes nothing; otherwise the step's requests are appended in order and their coordinates recorded |
| EcsAutoTiler.IsValidNeighbor | bevy_ecs_tilemap_tileset/src/auto/auto_tiler.rs:172-176 | same map, same layer and equal auto tile |
| EcsAutoTiler.KeyAt | bevy_ecs_tilemap_tileset/src/auto/auto_tiler.rs:272-276 | the cache and map query key of a neighbour position: the position cast to `u32` on the centre's map and layer |
| EcsAutoTiler.NeighborPos | bevy_ecs_tilemap_tileset/src/auto/auto_tiler.rs:257-270 | none for the zero offset and none when either component of the shifted position is negative; otherwise the centre's position, read as `i32`, plus the offset |
| MapTraits.NewTileInfo | bevy_tileset_map/src/auto/traits.rs:43-53 | the tile info keeps the entity, position and auto tile id and takes the parent's map and layer |
| MapTraits.CoordPos | bevy_tileset_map/src/lib.rs:38-43 | the position is read as `i32`, negative exactly from 2^31 up |
| MapTraits.CanMatchIsEquivalence | bevy_tileset_map/src/auto/traits.rs:67-71 | `can_match` is reflexive, symmetric and transitive, ignores position and entity, and implies equal group and tileset |
| MapTraits.MakeCoords | bevy_tileset_map/src/auto/traits.rs:77-87 | made coordinates keep the template's map and layer |
| MapTraits.MakeCoordsPos | bevy_tileset_map/src/auto/traits.rs:77-87 | read back as `i32`, made coordinates lie at the position they were made from, negative ones included |
| MapTraits.MakeCoordsOfOwnPos | bevy_tileset_map/src/auto/traits.rs:77-87 | making coordinates from a coordinate's own position gives it back |
| MapTraits.MakeCoordsWrapsNegative | bevy_tileset_map/src/auto/traits.rs:77-87 | a step west of column 0 becomes column 2^32 - 1 of the same row, map and layer |
| MapTraits.FindTile | bevy_tileset_map/src/auto/traits.rs:16-22 | the tiles query finds exactly the entities it yields, as `TileInfo::new` of their components |
| MapTraits.GetTileAt | bevy_tileset_map/src/auto/traits.rs:89-99 | a tile is found exactly when the map query has an entity at the coordinate and the tiles query yields it, and it is that entity's |
| MapTraits.NeighborsShareGroup | bevy_tileset_map/src/auto/traits.rs:67-71 | every kept neighbour is on the centre's map and layer with the centre's auto tile id |
| MapTraits.LookupAtOffset | bevy_tileset_map/src/auto/traits.rs:77-99 | each offset is looked up on the centre's map and layer at the shifted position; from column 0 westward lookups land in column 2^32 - 1 |
| MapTraits.CanMatch | bevy_tileset_map/src/auto/traits.rs:67-71 | same map, same layer and same auto tile id |
| MapTraits.Tilemap | bevy_tileset_map/src/auto/traits.rs:74-104 | the tilemap the generic pass runs over: tile coordinates and `can_match`, `make_coords`, `get_tile_at` through the map query and the tiles query, and the tiles query's count as length |
| MapSystems.PassRequestsSnoc | bevy_tileset_map/src/auto/systems.rs:50-52 | adding one more tile to a pass adds nothing if its coordinates are already requested, and its step's requests otherwise |
| MapSystems.PassCoversEveryTile | bevy_tileset_map/src/auto/systems.rs:50-54 | every tile added to a pass ends up with a request at its coordinates |
| MapSystems.PassRequestsGrow | bevy_tileset_map/src/auto/systems.rs:50-54 | adding more tiles to a pass only appends requests |
| MapSystems.RunPass | bevy_tileset_map/src/auto/systems.rs:43-54 | a fresh auto tiler with each entry added with `include_self` returns the pass's requests |
| MapSystems.Resolve | bevy_tileset_map/src/auto/systems.rs:132-144 | skipped when the tileset or tile name is missing, when the texture index is already a variant for the rule, or when no auto index is found; otherwise rewritten to that auto index |
| MapSystems.ApplyRequest | bevy_tileset_map/src/auto/systems.rs:129-178 | only the named entity's tile may change, commands are only appended and only for that entity, and a request for an entity the working query lacks changes nothing |
| MapSystems.ApplyAllKeys | bevy_tileset_map/src/auto/systems.rs:129-179 | applying requests never adds or removes a working tile |
| MapSystems.LaterRequestWins | bevy_tileset_map/src/auto/systems.rs:129-179 | requests are applied in order, so those after the last one for an entity leave its tile as that one left it |
| MapSystems.RewriteThenFlush | bevy_tileset_map/src/auto/systems.rs:145-171 | once its commands have run, a rewritten tile shows the index's base index as `u16` and exactly the index's animation, or none for a standard index |
| MapSystems.ReapplySkipped | bevy_tileset_map/src/auto/systems.rs:136-144 | re-applying the rule just applied to a tile is skipped as a variant, whatever the sampler draws |
| MapSystems.TileWorld.constructor | bevy_tileset_map/src/auto/systems.rs:27-34 | the working tiles as given, with no commands queued and no chunk notified |
| MapSystems.TileWorld.ApplyOne | bevy_tileset_map/src/auto/systems.rs:130-175 | one turn of the loop changes the state as `ApplyRequest` describes |
| MapSystems.TileWorld.ApplyRequests | bevy_tileset_map/src/auto/systems.rs:115-180 | the requests are applied in order, as `ApplyAll` describes |
| MapSystems.TileWorld.OnChangeAutoTile | bevy_tileset_map/src/auto/systems.rs:20-63 | with no changed tile nothing happens; otherwise the pass's requests over the changed tiles are applied |
| MapSystems.TileWorld.OnRemoveAutoTile | bevy_tileset_map/src/auto/systems.rs:70-112 | the pass's requests over the removed tiles are applied |
| MapSystems.PassRequests | bevy_tileset_map/src/auto/systems.rs:50-54 | the requests of a pass that adds every changed tile in turn with `include_self`: a tile whose coordinates are already requested adds nothing, any other adds its step's requests |
| MapSystems.Rewritten | bevy_tileset_map/src/auto/systems.rs:146-170 | a standard index sets the texture index to the index as `u16`; an animated one sets it to the start as `u16` and, when the tile is animated, sets the animation's range and speed |
| MapSystems.Queued | bevy_tileset_map/src/auto/systems.rs:149-168 | a standard index queues the removal of an existing animation; an animated index queues an insertion when the tile has none |
| MapSystems.ApplyAll | bevy_tileset_map/src/auto/systems.rs:129-179 | the requests applied in list order, the `i`-th with the sampler's `i`-th draw |
| MapSystems.Flush | bevy_tileset_map/src/auto/systems.rs:151-168 | the queued commands run in order once the system is done; a command for an entity with no tile changes nothing |
| Serialization.SavedId | bevy_ecs_tilemap_tileset/src/serialization.rs:45-47 | a tile's id is found exactly when its tileset is found by id and has an id at the texture index, and it is that id |
| Serialization.Insert | bevy_ecs_tilemap_tileset/src/serialization.rs:48-56 | the tile is appended to its map and layer, creating them when missing, and every other map and layer is unchanged |
| Serialization.LayerTiles | bevy_ecs_tilemap_tileset/src/serialization.rs:65-67 | a layer holds at most one tile per queried row |
| Serialization.SaveFailsIff | bevy_ecs_tilemap_tileset/src/serialization.rs:43-58 | a save fails exactly when some selected row's tileset or tile id is missing |
| Serialization.SaveFailureSticks | bevy_ecs_tilemap_tileset/src/serialization.rs:45-47 | once a save has failed on some rows it fails whatever rows follow |
| Serialization.LayerTilesEmpty | bevy_ecs_tilemap_tileset/src/serialization.rs:48-56 | a layer no selected row belongs to gets no tiles |
| Serialization.SkipGrouped | bevy_ecs_tilemap_tileset/src/serialization.rs:75-77 | a row the selection skips leaves the saved data as it was |
| Serialization.StepLayers | bevy_ecs_tilemap_tileset/src/serialization.rs:48-56 | saving one more row keeps every layer equal to the selected rows of that layer, in query order |
| Serialization.StepRows | bevy_ecs_tilemap_tileset/src/serialization.rs:48-56 | saving one more row keeps every map non-empty and every selected row's map and layer present |
| Serialization.SaveGroups | bevy_ecs_tilemap_tileset/src/serialization.rs:62-69 | a successful save holds exactly the selected rows' maps and layers, each layer its rows' tiles in query order |
| Serialization.SaveMapOnlyThatMap | bevy_ecs_tilemap_tileset/src/serialization.rs:72-82 | saving one map gives data for that map only |
| Serialization.SaveLayerOnlyThatLayer | bevy_ecs_tilemap_tileset/src/serialization.rs:85-95 | saving one layer gives data for that map and layer only |
| Serialization.SaveTiles | bevy_ecs_tilemap_tileset/src/serialization.rs:43-58 | the loop over the rows returns what the save gives, failing as soon as one row fails |
| Serialization.SaveMaps | bevy_ecs_tilemap_tileset/src/serialization.rs:62-69 | fails exactly when some row's id is missing; otherwise every row is saved, grouped by map and layer in query order |
| Serialization.SaveMap | bevy_ecs_tilemap_tileset/src/serialization.rs:72-82 | fails exactly when some row of the map has a missing id; otherwise the map's rows are saved, grouped by layer |
| Serialization.SaveLayer | bevy_ecs_tilemap_tileset/src/serialization.rs:85-95 | fails exactly when some row of the layer has a missing id; otherwise the layer's rows are saved in query order |
| Serialization.PlaceLayer | bevy_ecs_tilemap_tileset/src/serialization.rs:101-105 | one placement attempt per tile of the layer, in saved order, after the earlier attempts |
| Serialization.PlaceMap | bevy_ecs_tilemap_tileset/src/serialization.rs:100-106 | every tile of every layer of the map gets an attempt, and no other attempt is added; on each layer of the map the new attempts are its tiles in saved order |
| Serialization.LoadMaps | bevy_ecs_tilemap_tileset/src/serialization.rs:98-108 | every saved tile gets an attempt at its own id, position, map and layer, every attempt is for a saved tile, and on each map and layer the attempts are that layer's tiles in saved order |
| Serialization.AttemptsAtAppend | bevy_ecs_tilemap_tileset/src/serialization.rs:98-108 | placements made one run after another show up on each map and layer as the first run's followed by the second's |
| Serialization.AttemptsAtLayer | bevy_ecs_tilemap_tileset/src/serialization.rs:101-105 | a layer's placements show up, all of them and in order, on that map and layer only |
| Serialization.LayerPlacements | bevy_ecs_tilemap_tileset/src/serialization.rs:101-105 | one placement per tile of the layer, at the tile's id and position on the given map and layer |
| Serialization.Keeps | bevy_ecs_tilemap_tileset/src/serialization.rs:75-77 | which rows a save keeps: all for `save_maps`, the map's for `save_map`, the map and layer's for `save_layer` (also lines 88-90) |
| Serialization.Save | bevy_ecs_tilemap_tileset/src/serialization.rs:43-58 | the rows front to back: nothing once a kept row's tileset or tile id is missing, otherwise every kept row appended to its map and layer |
| Primitives.AsU32 | bevy_ecs_tilemap_tileset/src/auto/auto_tiler.rs:264-266 | the `as u32` cast keeps a value in range and wraps a negative `i32` by 2^32 |
| Primitives.AsI32 | bevy_ecs_tilemap_tileset/src/auto/auto_tiler.rs:264 | `as_i32` of a `u32` lies in `i32` range and is negative exactly from 2^31 up |
| Primitives.AsU16 | bevy_tileset_map/src/auto/systems.rs:147 | the `as u16` cast keeps the value modulo 2^16, so a value below 2^16 unchanged |
| Primitives.AsI32AsU32 | bevy_tileset_map/src/lib.rs:38-43 | an `i32` cast to `u32` and back is itself |
| Primitives.AsU32AsI32 | bevy_tileset_map/src/auto/traits.rs:77-87 | a `u32` cast to `i32` and back is itself |

## Left out

- **Asset and file loading.** Loading, `ron` parsing and the asset server are not modelled. Tilesets arrive as values, and the asset store is a map from handle to tileset.
- **The texture atlas builder.** This foreign component is modelled as always accepting a texture and handing out the next consecutive index. Its packing errors and `max_columns` are not modelled.
- **The random sampler.** `WeightedIndex` is not modelled; the index it draws is a parameter (`draw`, or `draw(i)` in the apply loop). Weights are `real`: `ValidWeights` sums and compares them, and animation speeds are only carried.
- **`f32` weights.** Weights as `real` have no NaN and no infinity, which `WeightedIndex::new` would reject, and their total is exact where the source's `f32` sum rounds.
- Tilesets.SelectVariant: `draw` may be any index in range, a zero-weight one included, which `WeightedIndex` never draws; the model does not tie the draw to the weights.
- **The placement crate.** Placing, the rendering plugins, debug output and the examples are not modelled. The tile placer called by `load_maps` is not modelled: `Serialization.LoadMaps` returns the placements it attempts, and the placer's answers are ignored, as the source ignores them.
- **Order of `load_maps`.** It iterates `HashMap`s, so the order of attempts across maps and layers is unspecified. `Serialization.LoadMaps` states which placements are attempted and, on each map and layer, their order (the layer's saved order), but not how the attempts of different layers interleave.
- **Capacities.** The `HashMap`/`Vec` capacities in `AutoTiler::new` and `save_maps` are not modelled, and neither is the tile count `len()` of the tilemap. The count is carried in the tilemap but used only for capacity.
- **Unused accessors.** `AutoTile::auto_id` is never used by the pass. `coords()` is the `coord` field, read directly.
- **Superseded copies.** `bevy_ecs_tilemap_tileset/src/auto/systems.rs`, `src/tileset/serialization.rs`, `src/tiles/*`, `src/tileset.rs`, `src/tileset/tileset.rs` and `src/tileset/param.rs` repeat logic already modelled here. The first of them uses `include_self = false` for removals; the second skips failed tiles instead of aborting.
- **The `FindTile` trait.** `bevy_ecs_tilemap_tileset/src/auto/traits.rs`, where it is implemented for the tiles query, is not part of this model. `EcsAutoTiler.FindTile` follows its counterpart in `bevy_tileset_map/src/auto/traits.rs`.
- **Interfaces and declarations.** The trait declarations (`bevy_tileset_core/src/auto/traits.rs`, `bevy_tileset_core/src/coords.rs`) become the `AutoTilemap` datatype of function-typed fields. The error enums become datatypes.
- AutoTileComponent.SetId: the `set_id` and `set_tileset_id` setters update the component in place. `AutoTile` is `Copy` with derived equality, so they are modelled as functions returning the updated value; aliasing of the component is not captured.
- MapSystems.TileWorld.ApplyOne: the working query, the tiles query and the map query are independent maps. The model does not tie the working tiles to the tiles the pass saw, and the chunk notification is modelled as a list of notified coordinates.
- **`i32` overflow in both passes.** The addition of an offset to a position read as `i32` is unbounded in the model, in the ECS pass (`EcsAutoTiler`) and in the generic pass over the `bevy_tileset_map` tilemap (`CoreAutoTiler` with `MapTraits`), and so is the subtraction in `generate_rule`. Positions at ±2^31 would overflow in the source.
- **Debug output in `select_auto`.** The `println!` of the explicit variant index and the variant count (bevy_tileset_core/src/tileset/impls/auto.rs:147) is output only and is not modelled.
- Builder.TilesetBuilder.CreateAnimated: `create_animated` (src/tileset/builder.rs:209-236) keeps `start` and `end` as `i32` with `-1` as the "not yet set" sentinel and casts each atlas index `as i32`. The model keeps the sentinel but not the cast: an atlas index of 2^31 or more would wrap negative in the source and be taken for a missing frame.
- TilesetRegistry.Registry.NextId: requires `counter < 255`. The source's `u8` addition overflows (a panic in debug builds) once 255 has been handed out.
- AnimatedTiles.FrameCount: requires `start <= end`. There the source's `usize` subtraction underflows (a panic in debug builds); the corrected `FrameCountInclusive` has no such precondition.

## Findings

| source | as written | input that shows it | evidently intended | confidence | as-written member | corrected member |
|---|---|---|---|---|---|---|
| bevy_tileset_tiles/src/animated.rs:81-83 | `frame_count` returns `end - start` | the animation with `start = 0` and `end = 2` has the three frames 0, 1, 2 (inclusive range, lines 12-15), but `frame_count` is 2 | the number of frames, `end - start + 1` | not executed | AnimatedTiles.FrameCountOffByOne | AnimatedTiles.FrameCountInclusive |
