/**
 * The tileset builder (src/tileset/builder.rs): registers tiles under
 * group ids, adds their textures to the atlas and records, for every atlas
 * index, which group, variant and auto entry it belongs to.
 *
 * The atlas builder is a foreign component; it is modelled by the number
 * of textures added so far, and it hands out the next consecutive index.
 * The texture store is the set of handles whose image is available.
 */
module Builder {
  import opened Wrappers
  import opened Primitives
  import opened Ids
  import opened AnimatedTiles
  import V = Variants
  import A = AutoTiles
  import T = Tiles
  import TS = Tilesets

  /** The `TilesetError` cases the builder raises. */
  datatype TilesetError = TileAlreadyExists(groupId: TileGroupId) | ImageNotFound | InvalidData

  /** How many frames, from the first, are in the store: `?` stops at the first missing one. */
  function StoredPrefix(frames: seq<Handle>, store: set<Handle>): (n: nat)
    ensures n <= |frames|
    ensures forall i | 0 <= i < n :: frames[i] in store
    ensures n < |frames| ==> frames[n] !in store
  {
    if |frames| == 0 || frames[0] !in store then 0 else 1 + StoredPrefix(frames[1..], store)
  }

  /** An animation builds when all its frames are stored and there are at least two of them. */
  predicate AnimationBuilds(a: AnimatedTileHandle, store: set<Handle>) {
    StoredPrefix(a.frames, store) == |a.frames| && |a.frames| >= 2
  }

  /** A simple tile builds when its texture, or its animation, does. */
  predicate SimpleBuilds(t: V.SimpleTileHandle, store: set<Handle>) {
    match t
    case StandardHandle(h) => h in store
    case AnimatedHandle(a) => AnimationBuilds(a, store)
  }

  /** A variant builds when its simple tile does; the weight plays no part. */
  predicate VariantBuilds(v: V.VariantTileHandle, store: set<Handle>) {
    SimpleBuilds(v.tile, store)
  }

  /** A tile builds unless its standard texture or its animation fails; variant and auto tiles always do. */
  predicate TileBuilds(t: T.TileHandleType, store: set<Handle>) {
    match t
    case StandardHandle(h) => h in store
    case AnimatedHandle(a) => AnimationBuilds(a, store)
    case VariantHandle(_) => true
    case AutoHandle(_) => true
  }

  /** The variants that survive building, in order. */
  function Survivors(variants: seq<V.VariantTileHandle>, store: set<Handle>): seq<V.VariantTileHandle> {
    if |variants| == 0 then []
    else
      var last := variants[|variants| - 1];
      Survivors(variants[..|variants| - 1], store) + (if VariantBuilds(last, store) then [last] else [])
  }

  /** Frame `f` of `frames` is the texture stored at atlas index `lo + f`, for every frame. */
  predicate FramesStored(frames: seq<Handle>, lo: nat, handles: map<nat, Handle>) {
    forall j: nat {:trigger FrameStoredAt(frames, lo, handles, j)} | lo <= j < lo + |frames| ::
      FrameStoredAt(frames, lo, handles, j)
  }

  /** `FramesStored` at atlas index `j`. The quantifier above fires only on this, so a proof names the index. */
  predicate FrameStoredAt(frames: seq<Handle>, lo: nat, handles: map<nat, Handle>, j: nat) {
    lo <= j < lo + |frames| ==> j in handles && handles[j] == frames[j - lo]
  }

  /**
   * A built simple tile comes from its handle: same kind, same speed, one
   * index per frame, and every index it displays holds the texture it was
   * built from.
   */
  predicate BuiltFrom(t: V.SimpleTileType, h: V.SimpleTileHandle, handles: map<nat, Handle>) {
    match h
    case StandardHandle(x) => t.Standard? && t.index in handles && handles[t.index] == x
    case AnimatedHandle(a) =>
      && t.Animated? && t.anim.speed == a.speed && t.anim.start + |a.frames| == t.anim.end + 1
      && FramesStored(a.frames, t.anim.start, handles)
  }

  /** `after` still holds every texture `before` holds, at the same index. */
  ghost predicate HandlesKept(after: map<nat, Handle>, before: map<nat, Handle>) {
    forall i: nat {:trigger KeptAt(after, before, i)} :: KeptAt(after, before, i)
  }

  /** `HandlesKept` at index `i`. The quantifier above fires only on this, so a proof names the index. */
  ghost predicate KeptAt(after: map<nat, Handle>, before: map<nat, Handle>, i: nat) {
    i in before ==> i in after && after[i] == before[i]
  }

  /**
   * `get_tile_handle` on a tileset whose handles hold a built simple tile's
   * textures gives back, at every index the tile displays, the texture it was
   * built from: the standard texture, or the animation's frame for that index.
   */
  lemma GetTileHandleOfBuilt(ts: TS.Tileset, t: V.SimpleTileType, h: V.SimpleTileHandle, j: nat)
    requires BuiltFrom(t, h, ts.tileHandles) && V.ContainsIndex(t, j)
    ensures TS.GetTileHandle(ts, j) == Some(match h
                                           case StandardHandle(x) => x
                                           case AnimatedHandle(a) => a.frames[j - t.anim.start])
  {
    if h.AnimatedHandle? {
      assert FrameStoredAt(h.anim.frames, t.anim.start, ts.tileHandles, j);
    }
  }

  /** Keeping textures is transitive. */
  lemma HandlesKeptTrans(a: map<nat, Handle>, b: map<nat, Handle>, c: map<nat, Handle>)
    requires HandlesKept(b, a) && HandlesKept(c, b)
    ensures HandlesKept(c, a)
  {
    forall i: nat
      ensures KeptAt(c, a, i)
    {
      assert KeptAt(b, a, i) && KeptAt(c, b, i);
    }
  }

  /** Stored frames stay stored as the atlas grows. */
  lemma FramesStoredKept(frames: seq<Handle>, lo: nat, before: map<nat, Handle>, after: map<nat, Handle>)
    requires FramesStored(frames, lo, before) && HandlesKept(after, before)
    ensures FramesStored(frames, lo, after)
  {
    forall j: nat | lo <= j < lo + |frames|
      ensures FrameStoredAt(frames, lo, after, j)
    {
      assert FrameStoredAt(frames, lo, before, j) && KeptAt(after, before, j);
    }
  }

  /** Storing the next frame at the next index extends the stored frames by one. */
  lemma FramesStoredStep(frames: seq<Handle>, i: nat, lo: nat, before: map<nat, Handle>, after: map<nat, Handle>)
    requires i < |frames|
    requires FramesStored(frames[..i], lo, before) && HandlesKept(after, before)
    requires lo + i in after && after[lo + i] == frames[i]
    ensures FramesStored(frames[..i + 1], lo, after)
  {
    FramesStoredKept(frames[..i], lo, before, after);
    var front, grown := frames[..i], frames[..i + 1];
    forall j: nat | lo <= j < lo + |grown|
      ensures FrameStoredAt(grown, lo, after, j)
    {
      if j < lo + i {
        assert FrameStoredAt(front, lo, after, j);
      }
    }
  }

  /** Textures are only ever added to the atlas, so a built simple tile stays tied to its textures. */
  lemma BuiltFromKept(t: V.SimpleTileType, h: V.SimpleTileHandle, before: map<nat, Handle>, after: map<nat, Handle>)
    requires BuiltFrom(t, h, before) && HandlesKept(after, before)
    ensures BuiltFrom(t, h, after)
  {
    match h
    case StandardHandle(_) => assert KeptAt(after, before, t.index);
    case AnimatedHandle(a) => FramesStoredKept(a.frames, t.anim.start, before, after);
  }

  /** `i` is an index of an atlas holding `n` textures. */
  ghost predicate IndexBelow(i: nat, n: nat) {
    i < n
  }

  /**
   * Every index recorded in `m` is below `n`. The quantifier fires only on
   * `IndexBelow`, so the fact is used where a proof asks for it.
   */
  ghost predicate KeysBelow(m: map<nat, PartialTileId>, n: nat) {
    forall i {:trigger IndexBelow(i, n)} | i in m :: IndexBelow(i, n)
  }

  /** The k-th built variant comes from the k-th surviving handle, with its weight, for every k. */
  predicate BuiltFromEach(built: seq<V.VariantTileData>, survivors: seq<V.VariantTileHandle>, handles: map<nat, Handle>) {
    && |built| == |survivors|
    && forall k | 0 <= k < |built| ::
         built[k].weight == survivors[k].weight && BuiltFrom(built[k].tile, survivors[k].tile, handles)
  }

  /** Built variants stay tied to their textures as the atlas grows. */
  lemma BuiltFromEachKept(built: seq<V.VariantTileData>, survivors: seq<V.VariantTileHandle>,
                          before: map<nat, Handle>, after: map<nat, Handle>)
    requires BuiltFromEach(built, survivors, before) && HandlesKept(after, before)
    ensures BuiltFromEach(built, survivors, after)
  {
    forall k | 0 <= k < |built|
      ensures BuiltFrom(built[k].tile, survivors[k].tile, after)
    {
      BuiltFromKept(built[k].tile, survivors[k].tile, before, after);
    }
  }

  /** One more handle: it survives exactly when it builds, and then its built variant is appended. */
  lemma {:induction false} BuiltFromEachStep(built: seq<V.VariantTileData>, variants: seq<V.VariantTileHandle>, i: nat,
                                             store: set<Handle>, next: Option<V.VariantTileData>, handles: map<nat, Handle>)
    requires i < |variants|
    requires BuiltFromEach(built, Survivors(variants[..i], store), handles)
    requires next.Some? <==> VariantBuilds(variants[i], store)
    requires next.Some? ==> next.value.weight == variants[i].weight && BuiltFrom(next.value.tile, variants[i].tile, handles)
    ensures BuiltFromEach(built + (if next.Some? then [next.value] else []), Survivors(variants[..i + 1], store), handles)
  {
    assert variants[..i + 1][..i] == variants[..i];
    var s := Survivors(variants[..i], store);
    assert Survivors(variants[..i + 1], store) == s + (if next.Some? then [variants[i]] else []);
    var nb := built + (if next.Some? then [next.value] else []);
    var ns := Survivors(variants[..i + 1], store);
    forall k | 0 <= k < |nb|
      ensures nb[k].weight == ns[k].weight && BuiltFrom(nb[k].tile, ns[k].tile, handles)
    {
      if k < |built| {
        assert nb[k] == built[k] && ns[k] == s[k];
      }
    }
  }

  /** Recording the next index keeps every index below the grown atlas, and that index was not recorded before. */
  lemma KeysBelowGrow(m: map<nat, PartialTileId>, n: nat, id: PartialTileId)
    requires KeysBelow(m, n)
    ensures n !in m
    ensures KeysBelow(m[n := id], n + 1)
  {
    assert !IndexBelow(n, n);
    forall i | i in m
      ensures IndexBelow(i, n + 1)
    {
      assert IndexBelow(i, n);
    }
    assert IndexBelow(n, n + 1);
  }

  /** The k-th built entry keeps the k-th handle's rule and builds its surviving variants, for every k. */
  predicate EntriesBuiltFrom(built: seq<A.AutoTileData>, autos: seq<A.AutoTileHandle>, store: set<Handle>,
                            handles: map<nat, Handle>) {
    && |built| == |autos|
    && forall k | 0 <= k < |built| ::
         built[k].rule == autos[k].rule && BuiltFromEach(built[k].variants, Survivors(autos[k].variants, store), handles)
  }

  /** Built entries stay tied to their textures as the atlas grows. */
  lemma EntriesBuiltFromKept(built: seq<A.AutoTileData>, autos: seq<A.AutoTileHandle>, store: set<Handle>,
                             before: map<nat, Handle>, after: map<nat, Handle>)
    requires EntriesBuiltFrom(built, autos, store, before) && HandlesKept(after, before)
    ensures EntriesBuiltFrom(built, autos, store, after)
  {
    forall k | 0 <= k < |built|
      ensures BuiltFromEach(built[k].variants, Survivors(autos[k].variants, store), after)
    {
      BuiltFromEachKept(built[k].variants, Survivors(autos[k].variants, store), before, after);
    }
  }

  /** One more entry, built from the next handle, extends the correspondence. */
  lemma EntriesBuiltFromStep(built: seq<A.AutoTileData>, autos: seq<A.AutoTileHandle>, i: nat, store: set<Handle>,
                             entry: A.AutoTileData, handles: map<nat, Handle>)
    requires i < |autos|
    requires EntriesBuiltFrom(built, autos[..i], store, handles)
    requires entry.rule == autos[i].rule && BuiltFromEach(entry.variants, Survivors(autos[i].variants, store), handles)
    ensures EntriesBuiltFrom(built + [entry], autos[..i + 1], store, handles)
  {
  }

  /**
   * The tile `get_tile_type` builds from handles `h`, its textures added
   * from atlas index `lo` on: a standard tile at `lo` holding its texture,
   * an animation from `lo` on holding its frames in order, and variant and
   * auto tiles built from their surviving handles.
   */
  predicate BuiltTile(t: T.TileType, h: T.TileHandleType, lo: nat, store: set<Handle>, handles: map<nat, Handle>) {
    match h
    case StandardHandle(x) => t == T.Standard(lo) && lo in handles && handles[lo] == x
    case AnimatedHandle(a) =>
      && t.Animated? && t.anim.speed == a.speed && t.anim.start == lo && t.anim.start + |a.frames| == t.anim.end + 1
      && FramesStored(a.frames, lo, handles)
    case VariantHandle(vs) => t.Variant? && BuiltFromEach(t.variants, Survivors(vs, store), handles)
    case AutoHandle(autos) => t.Auto? && EntriesBuiltFrom(t.autos, autos, store, handles)
  }

  /** A later `add_tile` only adds textures, so an earlier tile stays tied to the textures it was built from. */
  lemma BuiltTileKept(t: T.TileType, h: T.TileHandleType, lo: nat, store: set<Handle>,
                      before: map<nat, Handle>, after: map<nat, Handle>)
    requires BuiltTile(t, h, lo, store, before) && HandlesKept(after, before)
    ensures BuiltTile(t, h, lo, store, after)
  {
    match h
    case StandardHandle(_) => assert KeptAt(after, before, lo);
    case AnimatedHandle(a) => FramesStoredKept(a.frames, lo, before, after);
    case VariantHandle(vs) => BuiltFromEachKept(t.variants, Survivors(vs, store), before, after);
    case AutoHandle(autos) => EntriesBuiltFromKept(t.autos, autos, store, before, after);
  }

  /** `m` with every index in `lo..hi` recorded under `id`. */
  function Tagged(m: map<nat, PartialTileId>, lo: nat, hi: nat, id: PartialTileId): map<nat, PartialTileId>
    decreases hi
  {
    if hi <= lo then m else Tagged(m, lo, hi - 1, id)[hi - 1 := id]
  }

  /** Tagging adds exactly the indices `lo..hi`, all recorded under `id`, and keeps every other entry. */
  lemma {:induction false} TaggedMembers(m: map<nat, PartialTileId>, lo: nat, hi: nat, id: PartialTileId)
    ensures var r := Tagged(m, lo, hi, id);
            && (forall i: nat :: i in r <==> i in m || lo <= i < hi)
            && (forall i | i in r :: r[i] == if lo <= i < hi then id else m[i])
    decreases hi
  {
    if hi > lo {
      TaggedMembers(m, lo, hi - 1, id);
    }
  }

  /**
   * `after` grows `before` from index `lo` on: below `lo` nothing changes, and
   * everything recorded from `lo` on belongs to `group`.
   */
  ghost predicate Extends(after: map<nat, PartialTileId>, before: map<nat, PartialTileId>, lo: nat, group: TileGroupId) {
    forall j: nat {:trigger ExtendsAt(after, before, lo, group, j)} :: ExtendsAt(after, before, lo, group, j)
  }

  /** `Extends` at one index. The quantifier above fires only on this, so a proof asks for an index explicitly. */
  ghost predicate ExtendsAt(after: map<nat, PartialTileId>, before: map<nat, PartialTileId>, lo: nat, group: TileGroupId, j: nat) {
    && (j < lo ==> (j in after <==> j in before))
    && (j < lo && j in before ==> after[j] == before[j])
    && (lo <= j && j in after ==> after[j].groupId == group)
  }

  /** Every index that the k-th built variant contains lies in `lo..hi` and is recorded with variant index k. */
  ghost predicate VariantsRecorded(built: seq<V.VariantTileData>, lo: nat, hi: nat, indices: map<nat, PartialTileId>,
                             auto: Option<nat>, group: TileGroupId) {
    forall k, j: nat {:trigger V.ContainsIndex(built[k].tile, j)} | 0 <= k < |built| && V.ContainsIndex(built[k].tile, j) ::
      lo <= j < hi && j in indices && indices[j] == PartialTileId(auto, Some(k), group)
  }

  /** Every index that variant v of the k-th built entry contains lies in `lo..hi` and is recorded as (k, v). */
  ghost predicate AutosRecorded(built: seq<A.AutoTileData>, lo: nat, hi: nat, indices: map<nat, PartialTileId>, group: TileGroupId) {
    forall k, v, j: nat {:trigger V.ContainsIndex(built[k].variants[v].tile, j)} |
      0 <= k < |built| && 0 <= v < |built[k].variants| && V.ContainsIndex(built[k].variants[v].tile, j) ::
      lo <= j < hi && j in indices && indices[j] == PartialTileId(Some(k), Some(v), group)
  }

  /** Tagging fresh indices from `lo` on extends a record whose indices all lie below `lo`. */
  lemma TaggedExtends(m: map<nat, PartialTileId>, lo: nat, hi: nat, id: PartialTileId)
    requires KeysBelow(m, lo)
    ensures Extends(Tagged(m, lo, hi, id), m, lo, id.groupId)
  {
    TaggedMembers(m, lo, hi, id);
    var r := Tagged(m, lo, hi, id);
    forall j: nat
      ensures ExtendsAt(r, m, lo, id.groupId, j)
    {
      if j in m {
        assert IndexBelow(j, lo);
      }
    }
  }

  /** Growing the record from `mid` on keeps what was recorded below `mid`. */
  lemma {:induction false} ExtendsTransitive(a: map<nat, PartialTileId>, b: map<nat, PartialTileId>, c: map<nat, PartialTileId>,
                                             lo: nat, mid: nat, group: TileGroupId)
    requires lo <= mid && Extends(b, a, lo, group) && Extends(c, b, mid, group)
    ensures Extends(c, a, lo, group)
  {
    forall j: nat
      ensures ExtendsAt(c, a, lo, group, j)
    {
      assert ExtendsAt(b, a, lo, group, j) && ExtendsAt(c, b, mid, group, j);
    }
  }

  /** One more variant step: the earlier variants stay recorded, and a new one whose indices were all just tagged joins them. */
  lemma {:induction false} VariantsRecordedStep(built: seq<V.VariantTileData>, lo: nat, mid: nat, hi: nat,
                                                before: map<nat, PartialTileId>, auto: Option<nat>, group: TileGroupId,
                                                next: Option<V.VariantTileData>)
    requires lo <= mid <= hi
    requires VariantsRecorded(built, lo, mid, before, auto, group)
    requires next.Some? ==> forall j: nat | V.ContainsIndex(next.value.tile, j) :: mid <= j < hi
    ensures var after := Tagged(before, mid, hi, PartialTileId(auto, Some(|built|), group));
            VariantsRecorded(built + (if next.Some? then [next.value] else []), lo, hi, after, auto, group)
  {
    var after := Tagged(before, mid, hi, PartialTileId(auto, Some(|built|), group));
    TaggedMembers(before, mid, hi, PartialTileId(auto, Some(|built|), group));
    var nb := built + (if next.Some? then [next.value] else []);
    forall k, j: nat | 0 <= k < |nb| && V.ContainsIndex(nb[k].tile, j)
      ensures lo <= j < hi && j in after && after[j] == PartialTileId(auto, Some(k), group)
    {
      if k < |built| {
        assert nb[k] == built[k];
      } else {
        assert nb[k] == next.value;
      }
    }
  }

  /** One more entry step: the earlier entries stay recorded, and the new entry's variants join them as entry k. */
  lemma {:induction false} AutosRecordedStep(built: seq<A.AutoTileData>, lo: nat, mid: nat, hi: nat,
                                             before: map<nat, PartialTileId>, after: map<nat, PartialTileId>,
                                             group: TileGroupId, next: A.AutoTileData)
    requires lo <= mid <= hi
    requires AutosRecorded(built, lo, mid, before, group)
    requires Extends(after, before, mid, group)
    requires VariantsRecorded(next.variants, mid, hi, after, Some(|built|), group)
    ensures AutosRecorded(built + [next], lo, hi, after, group)
  {
    var nb := built + [next];
    forall k, v, j: nat | 0 <= k < |nb| && 0 <= v < |nb[k].variants| && V.ContainsIndex(nb[k].variants[v].tile, j)
      ensures lo <= j < hi && j in after && after[j] == PartialTileId(Some(k), Some(v), group)
    {
      if k < |built| {
        assert nb[k] == built[k];
        assert j < mid && j in before && ExtendsAt(after, before, mid, group, j);
      } else {
        assert nb[k] == next;
      }
    }
  }

  /** One more variant attempt, its textures tagged from `mid` on: the record still extends the start, and a built variant joins it. */
  lemma VariantRecorded(built: seq<V.VariantTileData>, lo: nat, mid: nat, hi: nat, start: map<nat, PartialTileId>,
                        before: map<nat, PartialTileId>, auto: Option<nat>, group: TileGroupId,
                        next: Option<V.VariantTileData>)
    requires lo <= mid <= hi
    requires KeysBelow(before, mid)
    requires Extends(before, start, lo, group)
    requires VariantsRecorded(built, lo, mid, before, auto, group)
    requires next.Some? ==> forall j: nat | V.ContainsIndex(next.value.tile, j) :: mid <= j < hi
    ensures var after := Tagged(before, mid, hi, PartialTileId(auto, Some(|built|), group));
            && Extends(after, start, lo, group)
            && VariantsRecorded(built + (if next.Some? then [next.value] else []), lo, hi, after, auto, group)
  {
    var id := PartialTileId(auto, Some(|built|), group);
    TaggedExtends(before, mid, hi, id);
    ExtendsTransitive(start, before, Tagged(before, mid, hi, id), lo, mid, group);
    VariantsRecordedStep(built, lo, mid, hi, before, auto, group, next);
  }

  /** One more entry whose variants were just built: the record still extends the start, and the entry joins the record. */
  lemma EntryRecorded(built: seq<A.AutoTileData>, lo: nat, mid: nat, hi: nat, start: map<nat, PartialTileId>,
                      before: map<nat, PartialTileId>, after: map<nat, PartialTileId>, group: TileGroupId,
                      entry: A.AutoTileData)
    requires lo <= mid <= hi
    requires AutosRecorded(built, lo, mid, before, group)
    requires Extends(before, start, lo, group) && Extends(after, before, mid, group)
    requires VariantsRecorded(entry.variants, mid, hi, after, Some(|built|), group)
    ensures AutosRecorded(built + [entry], lo, hi, after, group)
    ensures Extends(after, start, lo, group)
  {
    ExtendsTransitive(start, before, after, lo, mid, group);
    AutosRecordedStep(built, lo, mid, hi, before, after, group, entry);
  }

  /** Every index tile `t` displays lies in `lo..hi` and is recorded under `group`. */
  ghost predicate TileRecorded(t: T.TileType, lo: nat, hi: nat, indices: map<nat, PartialTileId>, group: TileGroupId) {
    forall j: nat | T.ContainsIndex(t, j) :: lo <= j < hi && j in indices && indices[j].groupId == group
  }

  /** Tagging `lo..hi` records a tile whose indices all lie there. */
  lemma TaggedRecorded(t: T.TileType, m: map<nat, PartialTileId>, lo: nat, hi: nat, id: PartialTileId)
    requires forall j: nat | T.ContainsIndex(t, j) :: lo <= j < hi
    ensures TileRecorded(t, lo, hi, Tagged(m, lo, hi, id), id.groupId)
  {
    TaggedMembers(m, lo, hi, id);
  }

  /** A variant tile whose variants are recorded is recorded under their group. */
  lemma VariantTileRecorded(built: seq<V.VariantTileData>, lo: nat, hi: nat, indices: map<nat, PartialTileId>,
                            auto: Option<nat>, group: TileGroupId)
    requires VariantsRecorded(built, lo, hi, indices, auto, group)
    ensures TileRecorded(T.Variant(built), lo, hi, indices, group)
  {
    forall j: nat | T.ContainsIndex(T.Variant(built), j)
      ensures lo <= j < hi && j in indices && indices[j].groupId == group
    {
      var k :| 0 <= k < |built| && V.ContainsIndex(built[k].tile, j);
    }
  }

  /** An auto tile whose entries are recorded is recorded under their group. */
  lemma AutoTileRecorded(built: seq<A.AutoTileData>, lo: nat, hi: nat, indices: map<nat, PartialTileId>, group: TileGroupId)
    requires AutosRecorded(built, lo, hi, indices, group)
    ensures TileRecorded(T.Auto(built), lo, hi, indices, group)
  {
    forall j: nat | T.ContainsIndex(T.Auto(built), j)
      ensures lo <= j < hi && j in indices && indices[j].groupId == group
    {
      T.AutoContainsIndexIff(built, j);
      var k, v :| 0 <= k < |built| && 0 <= v < |built[k].variants| && V.ContainsIndex(built[k].variants[v].tile, j);
    }
  }

  /** Every index a registered tile displays is recorded under that tile's group. */
  ghost predicate AllRecorded(tiles: map<TileGroupId, T.TileData>, indices: map<nat, PartialTileId>) {
    forall g, j: nat {:trigger T.ContainsIndex(tiles[g].tile, j)} | g in tiles && T.ContainsIndex(tiles[g].tile, j) ::
      j in indices && indices[j].groupId == g
  }

  /**
   * The name maps agree with the tiles: `tileNames` names exactly the
   * registered groups, and every name in `tileIds` leads to a tile of that
   * name (a later tile of the same name takes the name over).
   */
  predicate NamesAgree(tiles: map<TileGroupId, T.TileData>, tileIds: map<string, TileGroupId>, tileNames: map<TileGroupId, string>) {
    && tiles.Keys == tileNames.Keys
    && (forall g | g in tileNames :: tileNames[g] == tiles[g].name)
    && (forall n | n in tileIds :: tileIds[n] in tiles && tiles[tileIds[n]].name == n)
  }

  /** Registering a fresh group under its name keeps the name maps in agreement. */
  lemma NamesAgreeRegister(tiles: map<TileGroupId, T.TileData>, tileIds: map<string, TileGroupId>,
                           tileNames: map<TileGroupId, string>, group: TileGroupId, data: T.TileData)
    requires NamesAgree(tiles, tileIds, tileNames) && group !in tiles
    ensures NamesAgree(tiles[group := data], tileIds[data.name := group], tileNames[group := data.name])
  {
  }

  /** The record grew from `lo` on, under `group`: every tile registered before stays recorded. */
  lemma AllRecordedGrow(tiles: map<TileGroupId, T.TileData>, before: map<nat, PartialTileId>,
                        after: map<nat, PartialTileId>, lo: nat, group: TileGroupId)
    requires AllRecorded(tiles, before) && KeysBelow(before, lo)
    requires Extends(after, before, lo, group)
    ensures AllRecorded(tiles, after)
  {
    forall g, j: nat | g in tiles && T.ContainsIndex(tiles[g].tile, j)
      ensures j in after && after[j].groupId == g
    {
      assert IndexBelow(j, lo) && ExtendsAt(after, before, lo, group, j);
    }
  }

  /** A tile recorded under its group can be registered under it. */
  lemma AllRecordedRegister(tiles: map<TileGroupId, T.TileData>, indices: map<nat, PartialTileId>,
                            lo: nat, hi: nat, group: TileGroupId, data: T.TileData)
    requires AllRecorded(tiles, indices)
    requires TileRecorded(data.tile, lo, hi, indices, group)
    ensures AllRecorded(tiles[group := data], indices)
  {
    var nt := tiles[group := data];
    forall g, j: nat | g in nt && T.ContainsIndex(nt[g].tile, j)
      ensures j in indices && indices[j].groupId == g
    {
      if g != group {
        assert nt[g] == tiles[g];
      }
    }
  }

  class TilesetBuilder {
    var tiles: map<TileGroupId, T.TileData>
    var tileIds: map<string, TileGroupId>
    var tileNames: map<TileGroupId, string>
    var tileHandles: map<nat, Handle>
    var tileIndices: map<nat, PartialTileId>
    var currentGroup: TileGroupId
    var currentVariant: Option<nat>
    var currentAuto: Option<nat>
    /** How many textures the atlas builder holds; the next one gets this index. */
    var atlasSize: nat

    /** Every atlas index has its handle and its recorded id, and nothing else does. */
    ghost predicate Valid()
      reads this
    {
      && tileHandles.Keys == tileIndices.Keys
      && |tileIndices| == atlasSize
      && KeysBelow(tileIndices, atlasSize)
    }

    /**
     * Between public calls: the atlas record is valid, no variant or auto
     * entry is in progress, the name maps agree with the tiles, and every
     * index a registered tile displays is recorded under its group.
     */
    ghost predicate Ready()
      reads this
    {
      && Valid()
      && currentVariant == None && currentAuto == None
      && NamesAgree(tiles, tileIds, tileNames)
      && AllRecorded(tiles, tileIndices)
    }

    /** The registered tiles and their name and group mappings. */
    function Registered(): (map<TileGroupId, T.TileData>, map<string, TileGroupId>, map<TileGroupId, string>)
      reads this
    {
      (tiles, tileIds, tileNames)
    }

    /** The id the next added texture is recorded under. */
    function Tag(): PartialTileId
      reads this
    {
      PartialTileId(currentAuto, currentVariant, currentGroup)
    }

    /** `TilesetBuilder::new`: nothing registered, group 0, no variant or auto entry in progress. */
    constructor ()
      ensures Ready()
      ensures tiles == map[] && tileIds == map[] && tileNames == map[]
      ensures tileIndices == map[] && tileHandles == map[] && atlasSize == 0
      ensures currentGroup == 0 && currentVariant == None && currentAuto == None
    {
      tiles, tileIds, tileNames := map[], map[], map[];
      tileHandles, tileIndices, atlasSize := map[], map[], 0;
      currentGroup, currentVariant, currentAuto := 0, None, None;
    }

    /** `add_texture`: the texture takes the next atlas index, recorded under the current tag. */
    method AddTexture(h: Handle) returns (r: Result<nat, TilesetError>)
      requires Valid()
      modifies this
      ensures Valid()
      ensures r == Ok(old(atlasSize)) && atlasSize == old(atlasSize) + 1
      ensures tileIndices == old(tileIndices)[old(atlasSize) := old(Tag())]
      ensures tileHandles == old(tileHandles)[old(atlasSize) := h]
      ensures HandlesKept(tileHandles, old(tileHandles))
      ensures Registered() == old(Registered()) && Tag() == old(Tag())
    {
      var index := atlasSize;
      KeysBelowGrow(tileIndices, index, Tag());
      atlasSize := atlasSize + 1;
      tileIndices := tileIndices[index := Tag()];
      tileHandles := tileHandles[index := h];
      r := Ok(index);
    }

    /** `insert_handle`: `ImageNotFound` unless the store has the texture, which is then added. */
    method InsertHandle(h: Handle, store: set<Handle>) returns (r: Result<nat, TilesetError>)
      requires Valid()
      modifies this
      ensures Valid()
      ensures h !in store ==> && r == Err(ImageNotFound) && atlasSize == old(atlasSize)
                              && tileIndices == old(tileIndices) && tileHandles == old(tileHandles)
      ensures h in store ==> && r == Ok(old(atlasSize)) && atlasSize == old(atlasSize) + 1
                             && tileIndices == old(tileIndices)[old(atlasSize) := old(Tag())]
                             && tileHandles == old(tileHandles)[old(atlasSize) := h]
      ensures HandlesKept(tileHandles, old(tileHandles))
      ensures Registered() == old(Registered()) && Tag() == old(Tag())
    {
      if h in store {
        r := AddTexture(h);
      } else {
        r := Err(ImageNotFound);
      }
    }

    /**
     * `create_animated`: adds the frames in order. The first frame sets the
     * start, every later one the end, so fewer than two frames is
     * `InvalidData`; a missing frame aborts with `ImageNotFound`, keeping the
     * frames added before it.
     */
    method CreateAnimated(anim: AnimatedTileHandle, store: set<Handle>) returns (r: Result<AnimatedTileData, TilesetError>)
      requires Valid()
      modifies this
      ensures Valid()
      ensures atlasSize == old(atlasSize) + StoredPrefix(anim.frames, store)
      ensures tileIndices == Tagged(old(tileIndices), old(atlasSize), atlasSize, old(Tag()))
      ensures r.Ok? <==> AnimationBuilds(anim, store)
      ensures r.Ok? ==> r.value == AnimatedTileData(anim.speed, old(atlasSize), old(atlasSize) + |anim.frames| - 1)
      ensures r.Err? ==> r.error == (if StoredPrefix(anim.frames, store) < |anim.frames| then ImageNotFound else InvalidData)
      ensures FramesStored(anim.frames[..StoredPrefix(anim.frames, store)], old(atlasSize), tileHandles)
      ensures HandlesKept(tileHandles, old(tileHandles))
      ensures Registered() == old(Registered()) && Tag() == old(Tag())
    {
      ghost var n := StoredPrefix(anim.frames, store);
      var start: int, end: int := -1, -1;
      var i := 0;
      while i < |anim.frames|
        invariant 0 <= i <= n
        invariant Valid()
        invariant atlasSize == old(atlasSize) + i
        invariant tileIndices == Tagged(old(tileIndices), old(atlasSize), atlasSize, old(Tag()))
        invariant start == (if i == 0 then -1 else old(atlasSize))
        invariant end == (if i <= 1 then -1 else old(atlasSize) + i - 1)
        invariant FramesStored(anim.frames[..i], old(atlasSize), tileHandles)
        invariant HandlesKept(tileHandles, old(tileHandles))
        invariant Registered() == old(Registered()) && Tag() == old(Tag())
      {
        ghost var stored := tileHandles;
        var res := InsertHandle(anim.frames[i], store);
        if res.Err? {
          assert i == n;
          return Err(res.error);
        }
        FramesStoredStep(anim.frames, i, old(atlasSize), stored, tileHandles);
        HandlesKeptTrans(old(tileHandles), stored, tileHandles);
        if start == -1 {
          start := res.value;
        } else {
          end := res.value;
        }
        i := i + 1;
      }
      if start < 0 || end < 0 {
        return Err(InvalidData);
      }
      r := Ok(AnimatedTiles.New(anim.speed, start, end));
    }

    /**
     * `create_variants`: builds each variant in order, dropping those that
     * fail. The variant counter starts at 0 and advances only after a
     * success, so every texture of the k-th surviving variant is recorded
     * with variant index k; the counter is cleared at the end.
     */
    method CreateVariants(variants: seq<V.VariantTileHandle>, store: set<Handle>)
      returns (r: Result<seq<V.VariantTileData>, TilesetError>)
      requires Valid()
      modifies this
      ensures Valid()
      ensures r.Ok?
      ensures BuiltFromEach(r.value, Survivors(variants, store), tileHandles)
      ensures HandlesKept(tileHandles, old(tileHandles))
      ensures VariantsRecorded(r.value, old(atlasSize), atlasSize, tileIndices, old(currentAuto), old(currentGroup))
      ensures old(atlasSize) <= atlasSize
      ensures Extends(tileIndices, old(tileIndices), old(atlasSize), old(currentGroup))
      ensures Registered() == old(Registered())
      ensures currentGroup == old(currentGroup) && currentAuto == old(currentAuto) && currentVariant == None
    {
      currentVariant := Some(0);
      var built: seq<V.VariantTileData> := [];
      var i := 0;
      TaggedExtends(tileIndices, atlasSize, atlasSize, Tag());
      while i < |variants|
        invariant 0 <= i <= |variants|
        invariant Valid()
        invariant currentVariant == Some(|built|)
        invariant BuiltFromEach(built, Survivors(variants[..i], store), tileHandles)
        invariant HandlesKept(tileHandles, old(tileHandles))
        invariant VariantsRecorded(built, old(atlasSize), atlasSize, tileIndices, old(currentAuto), old(currentGroup))
        invariant old(atlasSize) <= atlasSize
        invariant Extends(tileIndices, old(tileIndices), old(atlasSize), old(currentGroup))
        invariant Registered() == old(Registered()) && currentGroup == old(currentGroup) && currentAuto == old(currentAuto)
      {
        var v := variants[i];
        ghost var before, prior, stored := atlasSize, tileIndices, tileHandles;
        var tile := BuildSimple(v.tile, store);
        var next := if tile.Ok? then Some(V.New(v.weight, tile.value)) else None;
        VariantRecorded(built, old(atlasSize), before, atlasSize, old(tileIndices), prior, old(currentAuto), old(currentGroup), next);
        BuiltFromEachKept(built, Survivors(variants[..i], store), stored, tileHandles);
        HandlesKeptTrans(old(tileHandles), stored, tileHandles);
        BuiltFromEachStep(built, variants, i, store, next, tileHandles);
        if tile.Ok? {
          built := built + [next.value];
          currentVariant := Some(1 + currentVariant.GetOr(0));
        }
        i := i + 1;
      }
      assert variants[..i] == variants;
      currentVariant := None;
      r := Ok(built);
    }

    /** Builds one variant's simple tile: its texture, or its animation. */
    method BuildSimple(h: V.SimpleTileHandle, store: set<Handle>) returns (r: Result<V.SimpleTileType, TilesetError>)
      requires Valid()
      modifies this
      ensures Valid()
      ensures r.Ok? <==> SimpleBuilds(h, store)
      ensures r.Ok? ==> BuiltFrom(r.value, h, tileHandles)
      ensures HandlesKept(tileHandles, old(tileHandles))
      ensures r.Ok? ==> forall j: nat | V.ContainsIndex(r.value, j) :: old(atlasSize) <= j < atlasSize
      ensures old(atlasSize) <= atlasSize
      ensures tileIndices == Tagged(old(tileIndices), old(atlasSize), atlasSize, old(Tag()))
      ensures Registered() == old(Registered()) && Tag() == old(Tag())
    {
      match h {
        case StandardHandle(handle) =>
          var res := InsertHandle(handle, store);
          r := if res.Ok? then Ok(V.Standard(res.value)) else Err(res.error);
        case AnimatedHandle(a) =>
          var res := CreateAnimated(a, store);
          if res.Ok? {
            assert a.frames[..StoredPrefix(a.frames, store)] == a.frames;
          }
          r := if res.Ok? then Ok(V.Animated(res.value)) else Err(res.error);
      }
    }

    /**
     * `create_autos`: builds each entry's variants in order. Building variants
     * never fails, so every entry survives; the auto counter starts at 0,
     * advances per entry and is cleared at the end, so every texture of
     * variant v of entry k is recorded with auto index k and variant index v.
     */
    method CreateAutos(autos: seq<A.AutoTileHandle>, store: set<Handle>)
      returns (r: Result<seq<A.AutoTileData>, TilesetError>)
      requires Valid()
      modifies this
      ensures Valid()
      ensures r.Ok? && EntriesBuiltFrom(r.value, autos, store, tileHandles)
      ensures HandlesKept(tileHandles, old(tileHandles))
      ensures AutosRecorded(r.value, old(atlasSize), atlasSize, tileIndices, old(currentGroup))
      ensures old(atlasSize) <= atlasSize
      ensures Extends(tileIndices, old(tileIndices), old(atlasSize), old(currentGroup))
      ensures Registered() == old(Registered())
      ensures currentGroup == old(currentGroup) && currentAuto == None
      ensures currentVariant == if |autos| == 0 then old(currentVariant) else None
    {
      currentAuto := Some(0);
      var built: seq<A.AutoTileData> := [];
      var i := 0;
      TaggedExtends(tileIndices, atlasSize, atlasSize, Tag());
      while i < |autos|
        invariant 0 <= i <= |autos|
        invariant Valid()
        invariant currentAuto == Some(|built|)
        invariant EntriesBuiltFrom(built, autos[..i], store, tileHandles)
        invariant HandlesKept(tileHandles, old(tileHandles))
        invariant AutosRecorded(built, old(atlasSize), atlasSize, tileIndices, old(currentGroup))
        invariant old(atlasSize) <= atlasSize
        invariant Extends(tileIndices, old(tileIndices), old(atlasSize), old(currentGroup))
        invariant Registered() == old(Registered()) && currentGroup == old(currentGroup)
        invariant currentVariant == if i == 0 then old(currentVariant) else None
      {
        ghost var stored := tileHandles;
        var entry := BuildEntry(autos[i], store, built, old(atlasSize), old(tileIndices));
        EntriesBuiltFromKept(built, autos[..i], store, stored, tileHandles);
        HandlesKeptTrans(old(tileHandles), stored, tileHandles);
        EntriesBuiltFromStep(built, autos, i, store, entry, tileHandles);
        built := built + [entry];
        i := i + 1;
      }
      assert autos[..i] == autos;
      currentAuto := None;
      r := Ok(built);
    }

    /**
     * The closure `create_autos` maps over its entries: the entry keeps its
     * rule, builds its variants under the current auto index, and advances
     * that index.
     */
    method BuildEntry(auto: A.AutoTileHandle, store: set<Handle>, ghost built: seq<A.AutoTileData>,
                      ghost lo: nat, ghost start: map<nat, PartialTileId>)
      returns (entry: A.AutoTileData)
      requires Valid() && currentAuto == Some(|built|) && lo <= atlasSize
      requires AutosRecorded(built, lo, atlasSize, tileIndices, currentGroup)
      requires Extends(tileIndices, start, lo, currentGroup)
      modifies this
      ensures Valid()
      ensures entry.rule == auto.rule && BuiltFromEach(entry.variants, Survivors(auto.variants, store), tileHandles)
      ensures HandlesKept(tileHandles, old(tileHandles))
      ensures AutosRecorded(built + [entry], lo, atlasSize, tileIndices, currentGroup)
      ensures old(atlasSize) <= atlasSize
      ensures Extends(tileIndices, start, lo, currentGroup)
      ensures Registered() == old(Registered()) && currentGroup == old(currentGroup)
      ensures currentAuto == Some(|built| + 1) && currentVariant == None
    {
      ghost var before, prior := atlasSize, tileIndices;
      var vs := CreateVariants(auto.variants, store);
      entry := A.New(auto.rule, vs.value);
      EntryRecorded(built, lo, before, atlasSize, start, prior, tileIndices, currentGroup, entry);
      currentAuto := Some(1 + currentAuto.GetOr(0));
    }

    /**
     * `get_tile_type`: builds the tile of the kind its handles describe.
     * Standard and animated tiles fail as their textures do; variant and auto
     * tiles always build, dropping what fails. Every index the built tile
     * displays was added by this call and is recorded under the current group.
     */
    method GetTileType(tile: T.TileHandleType, store: set<Handle>) returns (r: Result<T.TileType, TilesetError>)
      requires Valid()
      modifies this
      ensures Valid()
      ensures r.Ok? <==> TileBuilds(tile, store)
      ensures r.Ok? ==> TileRecorded(r.value, old(atlasSize), atlasSize, tileIndices, currentGroup)
      ensures r.Ok? ==> BuiltTile(r.value, tile, old(atlasSize), store, tileHandles)
      ensures HandlesKept(tileHandles, old(tileHandles))
      ensures tile.StandardHandle? ==> if r.Ok? then r.value == T.Standard(old(atlasSize)) else r.error == ImageNotFound
      ensures tile.AnimatedHandle? && r.Ok? ==>
                r.value == T.Animated(AnimatedTileData(tile.anim.speed, old(atlasSize), old(atlasSize) + |tile.anim.frames| - 1))
      ensures tile.AnimatedHandle? && r.Err? ==>
                r.error == if StoredPrefix(tile.anim.frames, store) < |tile.anim.frames| then ImageNotFound else InvalidData
      ensures tile.VariantHandle? ==> r.Ok? && r.value.Variant?
      ensures tile.AutoHandle? ==> r.Ok? && r.value.Auto?
      ensures old(atlasSize) <= atlasSize
      ensures Extends(tileIndices, old(tileIndices), old(atlasSize), currentGroup)
      ensures Registered() == old(Registered()) && currentGroup == old(currentGroup)
      ensures old(currentVariant) == None && old(currentAuto) == None ==> currentVariant == None && currentAuto == None
    {
      match tile {
        case StandardHandle(h) =>
          ghost var before := tileIndices;
          var res := InsertHandle(h, store);
          TaggedExtends(before, old(atlasSize), atlasSize, old(Tag()));
          assert tileIndices == Tagged(before, old(atlasSize), atlasSize, old(Tag()));
          if res.Ok? {
            TaggedRecorded(T.Standard(res.value), before, old(atlasSize), atlasSize, old(Tag()));
            r := Ok(T.Standard(res.value));
          } else {
            r := Err(res.error);
          }
        case AnimatedHandle(a) =>
          ghost var before := tileIndices;
          var res := CreateAnimated(a, store);
          TaggedExtends(before, old(atlasSize), atlasSize, old(Tag()));
          if res.Ok? {
            assert a.frames[..StoredPrefix(a.frames, store)] == a.frames;
            TaggedRecorded(T.Animated(res.value), before, old(atlasSize), atlasSize, old(Tag()));
            r := Ok(T.Animated(res.value));
          } else {
            r := Err(res.error);
          }
        case VariantHandle(variants) =>
          var res := CreateVariants(variants, store);
          VariantTileRecorded(res.value, old(atlasSize), atlasSize, tileIndices, old(currentAuto), currentGroup);
          r := Ok(T.Variant(res.value));
        case AutoHandle(autos) =>
          var res := CreateAutos(autos, store);
          AutoTileRecorded(res.value, old(atlasSize), atlasSize, tileIndices, currentGroup);
          r := Ok(T.Auto(res.value));
      }
    }

    /**
     * `add_tile`: a group id already registered is refused with nothing
     * changed. Otherwise the group becomes current and the tile is built; a
     * build error is returned (the textures added before it stay in the
     * atlas), and a built tile is registered under its group and name. The
     * result is the tile the group held before, which is none.
     */
    method AddTile(handle: T.TileHandle, groupId: TileGroupId, store: set<Handle>)
      returns (r: Result<Option<T.TileData>, TilesetError>)
      requires Ready()
      modifies this
      ensures Ready()
      ensures groupId in old(tiles) ==> r == Err(TileAlreadyExists(groupId)) && unchanged(this)
      ensures groupId !in old(tiles) ==> currentGroup == groupId && (r.Ok? <==> TileBuilds(handle.tile, store))
      ensures groupId !in old(tiles) ==> Extends(tileIndices, old(tileIndices), old(atlasSize), groupId)
      ensures r.Ok? ==> && r.value == None
                        && groupId in tiles && tiles[groupId].name == handle.name
                        && tiles == old(tiles)[groupId := tiles[groupId]]
                        && tileIds == old(tileIds)[handle.name := groupId]
                        && tileNames == old(tileNames)[groupId := handle.name]
                        && TileRecorded(tiles[groupId].tile, old(atlasSize), atlasSize, tileIndices, groupId)
                        && BuiltTile(tiles[groupId].tile, handle.tile, old(atlasSize), store, tileHandles)
      ensures HandlesKept(tileHandles, old(tileHandles))
      ensures r.Err? ==> Registered() == old(Registered())
    {
      if groupId in tiles {
        return Err(TileAlreadyExists(groupId));
      }
      currentGroup := groupId;
      ghost var before := tileIndices;
      var built := GetTileType(handle.tile, store);
      AllRecordedGrow(tiles, before, tileIndices, old(atlasSize), groupId);
      if built.Err? {
        return Err(built.error);
      }
      var data := T.New(handle.name, built.value);
      AllRecordedRegister(tiles, tileIndices, old(atlasSize), atlasSize, groupId, data);
      NamesAgreeRegister(tiles, tileIds, tileNames, groupId, data);
      tileIds := tileIds[handle.name := groupId];
      tileNames := tileNames[groupId := handle.name];
      tiles := tiles[groupId := data];
      r := Ok(None);
    }

    /**
     * `build`: the tileset holds the registered tiles, names and handles, and
     * every recorded id extended with the tileset id. From a ready builder,
     * every index a tile displays leads back to that tile's group in this tileset.
     */
    function Build(name: string, id: TilesetId): (r: TS.Tileset)
      reads this
      ensures r.id == id && r.name == name
      ensures r.tiles == tiles && r.tileIds == tileIds && r.tileNames == tileNames && r.tileHandles == tileHandles
      ensures r.tileIndices.Keys == tileIndices.Keys
      ensures forall i | i in r.tileIndices :: Partial(r.tileIndices[i]) == tileIndices[i] && r.tileIndices[i].tilesetId == id
      ensures Ready() ==> forall g, j: nat | g in r.tiles && T.ContainsIndex(r.tiles[g].tile, j) ::
                            j in r.tileIndices && r.tileIndices[j].groupId == g && r.tileIndices[j].tilesetId == id
    {
      TS.Tileset(id, name, tiles, tileIds, tileNames, tileHandles, map i | i in tileIndices :: Extend(tileIndices[i], id))
    }
  }
}
