/**
 * Pixel to EMU conversion (`px_to_emu`). Pixels are at 96 per inch and an
 * inch holds 914400 English Metric Units, so one pixel is exactly 9525 EMU.
 * The source computes in `f64` and casts with `as i32`, which truncates
 * toward zero and saturates at the bounds of `i32`; both are written out
 * here over exact reals.
 */
module Units {

  const Dpi: real := 96.0
  const EmusPerInch: real := 914400.0

  const I32Min: int := -0x8000_0000
  const I32Max: int := 0x7FFF_FFFF

  /** The integer part of `x`, dropping the fraction toward zero. */
  function TruncateTowardZero(x: real): (r: int)
    ensures 0.0 <= x ==> r as real <= x < r as real + 1.0
    ensures x < 0.0 ==> r as real - 1.0 < x <= r as real
  {
    if x >= 0.0 then x.Floor else -((-x).Floor)
  }

  /** `v` clamped into the range of `i32`, as Rust's float-to-int `as` cast does. */
  function SaturateI32(v: int): (r: int)
    ensures I32Min <= r <= I32Max
    ensures I32Min <= v <= I32Max ==> r == v
    ensures v > I32Max ==> r == I32Max
    ensures v < I32Min ==> r == I32Min
  {
    if v > I32Max then I32Max else if v < I32Min then I32Min else v
  }

  /**
   * `px_to_emu`: `(px / 96 * 914400) as i32`. A size whose exact EMU value
   * lies inside the `i32` range converts to that value with its fraction
   * dropped toward zero; beyond the range the result is the nearer bound.
   */
  function PxToEmu(px: real): (emu: int)
    ensures I32Min <= emu <= I32Max
    ensures 0.0 <= px ==> 0 <= emu
    ensures 0.0 <= px && px * 9525.0 < I32Max as real ==> emu as real <= px * 9525.0 < emu as real + 1.0
    ensures 0.0 <= px && px * 9525.0 >= I32Max as real ==> emu == I32Max
    ensures px < 0.0 && I32Min as real < px * 9525.0 ==> emu as real - 1.0 < px * 9525.0 <= emu as real
    ensures px < 0.0 && px * 9525.0 <= I32Min as real ==> emu == I32Min
  {
    SaturateI32(TruncateTowardZero(px / Dpi * EmusPerInch))
  }

  /** For a non-negative size that fits, the result is the floor of the exact EMU value. */
  lemma PxToEmuIsFloor(px: real)
    requires 0.0 <= px && px * 9525.0 < I32Max as real
    ensures PxToEmu(px) == (px * 9525.0).Floor
  {
  }

  /** A larger size never converts to fewer EMU. */
  lemma PxToEmuMonotone(a: real, b: real)
    requires a <= b
    ensures PxToEmu(a) <= PxToEmu(b)
  {
    var x, y := a / Dpi * EmusPerInch, b / Dpi * EmusPerInch;
    assert x <= y;
    TruncateMonotone(x, y);
  }

  lemma TruncateMonotone(x: real, y: real)
    requires x <= y
    ensures TruncateTowardZero(x) <= TruncateTowardZero(y)
  {
    if 0.0 <= x {
      assert x.Floor as real <= y;
    } else if y < 0.0 {
      assert (-y).Floor as real <= -x;
    }
  }

  /** A 720 by 1018 pixel page is 6858000 by 9696450 EMU. */
  lemma PxToEmuExamples()
    ensures PxToEmu(720.0) == 6858000
    ensures PxToEmu(1018.0) == 9696450
  {
    assert 720.0 / Dpi * EmusPerInch == 6858000.0;
    assert 1018.0 / Dpi * EmusPerInch == 9696450.0;
  }
}
