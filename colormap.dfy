/** `rgb` of src/colproc.rs: the dominant frequency is mapped linearly onto a
    hue, converted from HSL (saturation 1, lightness 0.5) to RGB in six 60°
    sectors, and each channel is scaled to 0..255 by a truncating cast. */
module ColorMap {
  import opened Prims

  const MaxFrequency: real := 20000.0
  const MinFrequency: real := 20.0
  const Saturation: real := 1.0
  const Lightness: real := 0.5

  /** The hue of a frequency: 20 Hz is 0°, 20000 Hz is 360°. */
  function Hue(hz: real): (h: real)
    ensures hz <= MinFrequency ==> h <= 0.0
    ensures MinFrequency <= hz < MaxFrequency ==> 0.0 <= h < 360.0
  {
    (hz - MinFrequency) / (MaxFrequency - MinFrequency) * 360.0
  }

  function Abs(x: real): real {
    if x < 0.0 then -x else x
  }

  /** Integer part of `x`, rounding toward zero. */
  function Trunc(x: real): (t: int)
    ensures x >= 0.0 ==> t as real <= x < t as real + 1.0
    ensures x <= 0.0 ==> t as real - 1.0 < x <= t as real
  {
    if x >= 0.0 then x.Floor else -((-x).Floor)
  }

  /** Rust's `%` on floats: the remainder of a division truncated toward zero,
      which takes the sign of the dividend. For `% 2.0`, the only remainder
      `rgb` takes, it lies in `[0, 2)` for a non-negative dividend and in
      `(-2, 0]` for a non-positive one. */
  function FMod(a: real, b: real): (r: real)
    requires b > 0.0
    ensures b == 2.0 && a >= 0.0 ==> 0.0 <= r < 2.0
    ensures b == 2.0 && a <= 0.0 ==> -2.0 < r <= 0.0
  {
    a - Trunc(a / b) as real * b
  }

  /** The chroma of the `hsl_to_rgb` closure. */
  function Chroma(s: real, l: real): real {
    (1.0 - Abs(2.0 * l - 1.0)) * s
  }

  /** The `hsl_to_rgb` closure: chroma `c`, second component `x` and offset
      `m`, arranged by the 60° sector the hue falls in. Whatever the sector,
      one channel is `l + c/2` and another `l - c/2`; the third is `x + m`. */
  function HslToRgb(h: real, s: real, l: real): (rgb: seq<real>)
    ensures |rgb| == 3
    ensures l + Chroma(s, l) / 2.0 in rgb && l - Chroma(s, l) / 2.0 in rgb
  {
    var c := Chroma(s, l);
    var x := c * (1.0 - Abs(FMod(h / 60.0, 2.0) - 1.0));
    var m := l - c / 2.0;
    if h < 60.0 then [c + m, x + m, m]
    else if h < 120.0 then [x + m, c + m, m]
    else if h < 180.0 then [m, c + m, x + m]
    else if h < 240.0 then [m, x + m, c + m]
    else if h < 300.0 then [x + m, m, c + m]
    else [c + m, m, x + m]
  }

  /** The three channels, each in [0, 1] when the hue is in range, that `rgb`
      computes for a frequency. */
  function Channels(hz: real): (ch: seq<real>)
    ensures |ch| == 3
  {
    HslToRgb(Hue(hz), Saturation, Lightness)
  }

  /** The colour `rgb` returns: each channel times 255, cast to `u8`. With
      saturation 1 and lightness 0.5 the chroma is 1 and the offset 0, so
      every colour has one channel fully on and one fully off. */
  function RgbOf(hz: real): (rgb: seq<u8>)
    ensures |rgb| == 3
    ensures 255 in rgb && 0 in rgb
  {
    var ch := Channels(hz);
    assert 1.0 in ch && 0.0 in ch;
    [AsU8(ch[0] * 255.0), AsU8(ch[1] * 255.0), AsU8(ch[2] * 255.0)]
  }

  /** `rgb`: fills the three-byte output from the channels, one at a time. */
  method Rgb(hz: real) returns (rgb: seq<u8>)
    ensures rgb == RgbOf(hz)
  {
    var rgbF := Channels(hz);
    var max := 255.0;
    var out := new u8[3];
    for count := 0 to 3
      invariant forall j :: 0 <= j < count ==> out[j] == AsU8(rgbF[j] * max)
    {
      out[count] := AsU8(rgbF[count] * max);
    }
    rgb := out[..];
  }

  /** From 20 Hz upward the hue is non-negative and every channel lies in
      [0, 1], so the cast truncates and never saturates. */
  lemma ChannelsInUnitRange(hz: real)
    requires hz >= MinFrequency
    ensures forall i :: 0 <= i < 3 ==> 0.0 <= Channels(hz)[i] <= 1.0
  {
  }

  /** At and below 20 Hz (including the 0 Hz reported when no bin is a
      candidate) the hue is not positive and falls into the first sector:
      pure red. */
  lemma RedAtAndBelowMinimum(hz: real)
    requires hz <= MinFrequency
    ensures RgbOf(hz) == [255, 0, 0]
  {
  }

  /** Above the top of the range the hue passes 360° and lands in the last
      sector, red on and green off. */
  lemma RedDominatesAboveMaximum(hz: real)
    requires hz >= MaxFrequency
    ensures RgbOf(hz)[0] == 255 && RgbOf(hz)[1] == 0
  {
  }

  /** The sector boundaries at 120° and 240° give pure green and pure blue. */
  lemma GreenAndBlueAtThirds()
    ensures RgbOf(6680.0) == [0, 255, 0]
    ensures RgbOf(13340.0) == [0, 0, 255]
  {
  }

  /** Halfway through the first sector green is at half strength, truncated. */
  lemma OrangeAtThirtyDegrees()
    ensures RgbOf(1685.0) == [255, 127, 0]
  {
    assert Hue(1685.0) == 30.0;
    assert FMod(0.5, 2.0) == 0.5;
    assert (0.5 * 255.0).Floor == 127;
  }
}
