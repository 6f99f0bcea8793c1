/** Animated tile data: an inclusive range of atlas indices (bevy_tileset_tiles/src/animated.rs). */
module AnimatedTiles {
  import opened Wrappers
  import opened Primitives

  /**
   * `AnimatedTileData`: the frames are the atlas indices `start..=end`.
   * The `f32` speed is carried as a real and never computed on.
   */
  datatype AnimatedTileData = AnimatedTileData(speed: real, start: nat, end: nat)

  /** `AnimatedTileData::new`; the accessors `start()`, `end()`, `speed()` are the fields. */
  function New(speed: real, start: nat, end: nat): (r: AnimatedTileData)
    ensures r.start == start && r.end == end && r.speed == speed
  {
    AnimatedTileData(speed, start, end)
  }

  /** The indices `lo`, `lo + 1`, ..., `hi`, in order (empty when `lo > hi`). */
  function InclusiveRange(lo: nat, hi: nat): (r: seq<nat>)
    ensures |r| == if lo <= hi then hi - lo + 1 else 0
    ensures forall j :: j in r <==> lo <= j <= hi
    decreases hi + 1 - lo
  {
    if lo > hi then [] else [lo] + InclusiveRange(lo + 1, hi)
  }

  /** The atlas indices the animation runs through, in order. */
  function Frames(a: AnimatedTileData): seq<nat> {
    InclusiveRange(a.start, a.end)
  }

  /**
   * `frame_count` as written: `end - start` on `usize`, which underflows (a
   * panic) unless `end >= start`. It is one less than the number of frames.
   */
  function FrameCount(a: AnimatedTileData): (r: nat)
    requires a.start <= a.end
    ensures r + 1 == |Frames(a)|
  {
    a.end - a.start
  }

  /** The evident intent of `frame_count`: the number of frames of the inclusive range. */
  function FrameCountInclusive(a: AnimatedTileData): (r: nat)
    ensures r == |Frames(a)|
    ensures a.start <= a.end ==> r == FrameCount(a) + 1
  {
    if a.start <= a.end then a.end - a.start + 1 else 0
  }

  /** `AnimatedTileHandle`: the speed and the frame textures, in order. */
  datatype AnimatedTileHandle = AnimatedTileHandle(speed: real, frames: seq<Handle>)

  /** `AnimatedTileDef` as written in a tileset file: frame paths, in order. */
  datatype AnimatedTileDef = AnimatedTileDef(speed: real, frames: seq<string>)

  /**
   * An `AnimatedTileDef` as deserialized: a missing `speed` becomes 1.0 and
   * missing `frames` an empty list.
   */
  function AnimatedTileDefFrom(speed: Option<real>, frames: Option<seq<string>>): (r: AnimatedTileDef)
    ensures r.speed == (if speed.Some? then speed.value else 1.0)
    ensures r.frames == (if frames.Some? then frames.value else [])
  {
    AnimatedTileDef(speed.GetOr(1.0), frames.GetOr([]))
  }

  /** A three-frame animation `0..=2` reports two frames. */
  lemma FrameCountOffByOne()
    ensures var a := New(1.0, 0, 2);
            |Frames(a)| == 3 && FrameCount(a) == 2 && FrameCountInclusive(a) == 3
  {
  }
}
