/** Machine-level types and conversions shared by the colour/brightness pipeline
    and the device protocol: Rust's `u8`/`u16`, `Option`, the saturating
    truncating `as u8` cast of a float, and the wrapping `u8` increment. */
module Prims {

  newtype u8 = x: int | 0 <= x < 256
  newtype u16 = x: int | 0 <= x < 0x1_0000

  datatype Option<T> = None | Some(value: T)

  /** Rust's `f as u8`: truncation toward zero, saturating at both ends of the
      range (floats are modelled as reals, so there is no NaN case). */
  function AsU8(x: real): (r: u8)
    ensures x <= 0.0 ==> r == 0
    ensures x >= 255.0 ==> r == 255
    ensures 0.0 <= x < 256.0 ==> r as real <= x < r as real + 1.0
  {
    if x <= 0.0 then 0
    else if x >= 255.0 then 255
    else x.Floor as u8
  }

  /** `x += 1` on a `u8` in a release build: 255 wraps to 0. */
  function WrappingInc(x: u8): (r: u8)
    ensures r as int == (x as int + 1) % 256
  {
    if x == 255 then 0 else x + 1
  }
}
