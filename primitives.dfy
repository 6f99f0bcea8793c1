/**
 * The Rust primitive widths the source relies on, the integer vector type of
 * the tile grid, and the identities the engine hands around (asset handles and
 * ECS entities). Casts with `as` are written out, wrap-around included.
 */
module Primitives {

  newtype u8 = x: int | 0 <= x < 0x100
  newtype u16 = x: int | 0 <= x < 0x1_0000
  newtype u32 = x: int | 0 <= x < 0x1_0000_0000

  /** An asset handle (`Handle<Image>`, `Handle<Tileset>`), identified by its id. */
  type Handle = nat
  /** An ECS entity. */
  type Entity = nat

  /** `IVec2`: a signed grid position or offset. */
  datatype IVec2 = IVec2(x: int, y: int)

  function Add(a: IVec2, b: IVec2): IVec2 { IVec2(a.x + b.x, a.y + b.y) }

  function Sub(a: IVec2, b: IVec2): IVec2 { IVec2(a.x - b.x, a.y - b.y) }

  predicate InI32(v: int) { -0x8000_0000 <= v < 0x8000_0000 }

  /** `v as u32` for an `i32` value: negative values wrap around. */
  function AsU32(v: int): (r: u32)
    ensures 0 <= v < 0x1_0000_0000 ==> r as int == v
    ensures -0x1_0000_0000 <= v < 0 ==> r as int == v + 0x1_0000_0000
  {
    (v % 0x1_0000_0000) as u32
  }

  /** `v as i32` for a `u32` value: values from 2^31 on wrap to negatives. */
  function AsI32(v: u32): (r: int)
    ensures InI32(r)
    ensures r >= 0 <==> v < 0x8000_0000
  {
    if v < 0x8000_0000 then v as int else v as int - 0x1_0000_0000
  }

  /** `v as u16` for a `usize` value: truncation to the low 16 bits. */
  function AsU16(v: nat): (r: u16)
    ensures r as int == v % 0x1_0000
    ensures v < 0x1_0000 ==> r as int == v
  {
    (v % 0x1_0000) as u16
  }

  /** Casting an `i32` to `u32` and back gives the value back. */
  lemma AsI32AsU32(v: int)
    requires InI32(v)
    ensures AsI32(AsU32(v)) == v
  {
  }

  /** Casting a `u32` to `i32` and back gives the value back. */
  lemma AsU32AsI32(v: u32)
    ensures AsU32(AsI32(v)) == v
  {
  }
}
