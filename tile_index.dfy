/** Atlas indices of a selected tile (src/tileset/tile_index.rs). */
module TileIndexes {
  import opened AnimatedTiles
  import V = Variants

  /** `TileIndex`: a single index, or an animation's (start, end, speed). */
  datatype TileIndex = Standard(index: nat) | Animated(start: nat, end: nat, speed: real)

  /** `TileIndex::base_index`: total over both kinds. */
  function BaseIndex(t: TileIndex): (r: nat)
    ensures t.Standard? ==> r == t.index
    ensures t.Animated? ==> r == t.start
  {
    match t
    case Standard(i) => i
    case Animated(s, _, _) => s
  }

  /**
   * The conversion of a simple tile into a `TileIndex`, as the Standard and
   * Animated arms of tile selection build it.
   */
  function FromSimple(t: V.SimpleTileType): (r: TileIndex)
    ensures t.Standard? <==> r.Standard?
    ensures t.Standard? ==> r == Standard(t.index)
    ensures t.Animated? ==> r == Animated(t.anim.start, t.anim.end, t.anim.speed)
  {
    match t
    case Standard(i) => Standard(i)
    case Animated(a) => Animated(a.start, a.end, a.speed)
  }

  /** The base index ignores the animated end and speed. */
  lemma BaseIndexIgnoresEndAndSpeed(s: nat, e1: nat, e2: nat, sp1: real, sp2: real)
    ensures BaseIndex(Animated(s, e1, sp1)) == BaseIndex(Animated(s, e2, sp2))
  {
  }

  /**
   * The base index of a converted simple tile is one of the indices that
   * tile contains, unless it is an animation whose start is past its end.
   */
  lemma BaseIndexContained(t: V.SimpleTileType)
    requires t.Animated? ==> t.anim.start <= t.anim.end
    ensures V.ContainsIndex(t, BaseIndex(FromSimple(t)))
  {
  }
}
