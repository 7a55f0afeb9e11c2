/** The per-frame steps of the two consumer loops of src/colproc.rs:
    `process` (dominant bin -> brightness and colour) and `process_cycle`
    (a palette colour first, then the mean sample level as brightness), with
    the palette pick `cycle_color`. Queues, threads and the liveness flag are
    not part of the model; each step takes one frame and returns what would be
    sent. */
module ColProc {
  import opened Prims
  import opened Normalizer
  import opened Spectrum
  import opened ColorMap

  /** One iteration of the `process` loop over the magnitude spectrum of a
      frame: the dominant bin's magnitude is normalised into a brightness and
      its frequency mapped to a colour. */
  method ProcessFrame(bright: BrightNorm, mags: seq<real>) returns (brightness: u8, rgb: seq<u8>)
    requires bright.Valid()
    modifies bright
    ensures bright.Valid() && brightness <= 100
    ensures HasCandidate(mags) ==>
              exists k :: IsDominant(mags, k) &&
                (bright.State(), brightness) == Step(old(bright.State()), mags[k]) &&
                rgb == RgbOf(BinHz(k, |mags|))
    ensures !HasCandidate(mags) ==>
              (bright.State(), brightness) == Step(old(bright.State()), 0.0) &&
              rgb == [255, 0, 0]
  {
    var topFreq, topVol := DominantFrequency(mags);
    brightness := bright.Norm(topVol);
    rgb := Rgb(topFreq);
    if !HasCandidate(mags) {
      RedAtAndBelowMinimum(topFreq);
    }
  }

  /** A silent frame of the 2048-sample window is not reported as 0 Hz: every
      bin ties at 0, the last in-range bin 1023 wins (about 22028 Hz, past
      the top of the hue range), and `process` sends magenta-red rather than
      the red of 0 Hz. */
  lemma SilentFrameColour(mags: seq<real>)
    requires |mags| == 2048
    requires forall i :: 0 <= i < |mags| ==> mags[i] == 0.0
    ensures IsDominant(mags, 1023)
    ensures BinHz(1023, 2048) > MaxFrequency
    ensures RgbOf(BinHz(1023, 2048)) == [255, 0, 155]
  {
    SilenceReportsLastBin(mags);
    var hz := BinHz(1023, 2048);
    assert hz == 45114300.0 / 2048.0;
    var q := Hue(hz) / 60.0;
    assert 6.6 < q < 6.7;
    assert Trunc(q / 2.0) == 3;
    assert 155.0 < (q - 6.0) * 255.0 < 156.0;
  }

  /** The fixed palette of `cycle_color`. */
  const Palette: seq<seq<u8>> := [
    [255, 0, 0],
    [255, 0, 213],
    [94, 0, 255],
    [0, 26, 255],
    [0, 213, 255],
    [26, 255, 0],
    [255, 111, 0]
  ]

  /** `cycle_color`: a palette entry and its index, never the previous index.
      The random draw and its rejection loop are a nondeterministic choice. */
  method CycleColor(prev: Option<nat>) returns (color: seq<u8>, index: nat)
    ensures index < |Palette| && color == Palette[index]
    ensures prev.Some? ==> index != prev.value
  {
    match prev {
      case None =>
        index :| 0 <= index < |Palette|;
      case Some(val) =>
        assert (if val == 0 then 1 else 0) != val;
        index :| 0 <= index < |Palette| && index != val;
    }
    color := Palette[index];
  }

  /** What `process_cycle` sends for one frame. */
  datatype Cycle = Brightness(level: u8) | Color(rgb: seq<u8>)

  /** The arm of the `match cycle_count` a frame takes. */
  datatype Arm = SendColor | SendBrightness | ChangeColor

  const CycleEnd: u8 := 255

  function ArmOf(count: u8): Arm {
    if count == 0 then SendColor
    else if count < CycleEnd then SendBrightness
    else ChangeColor
  }

  /** `cycle_count` after one frame: it is increased only in the `0` arm, so
      from below `cycle_end` it lands in the brightness arm, and the
      colour-changing arm, once taken, is kept. */
  function NextCount(count: u8): (next: u8)
    ensures count < CycleEnd ==> 0 < next < CycleEnd && ArmOf(next) == SendBrightness
    ensures ArmOf(count) == ChangeColor ==> ArmOf(next) == ChangeColor
  {
    if count == 0 then 1 else count
  }

  /** `cycle_count` after `frames` frames, starting from 0. */
  function CountAfter(frames: nat): u8 {
    if frames == 0 then 0 else NextCount(CountAfter(frames - 1))
  }

  /** After the first frame the count is 1 for good. */
  lemma {:induction false} CountSettlesAtOne(frames: nat)
    ensures CountAfter(frames) == if frames == 0 then 0 else 1
  {
    if frames > 0 {
      CountSettlesAtOne(frames - 1);
    }
  }

  /** Hence the colour-changing arm is never taken: only the first frame
      sends a colour, every later one a brightness. */
  lemma {:induction false} ColorChangeUnreachable(frames: nat)
    ensures ArmOf(CountAfter(frames)) != ChangeColor
    ensures frames > 0 ==> ArmOf(CountAfter(frames)) == SendBrightness
  {
    CountSettlesAtOne(frames);
  }

  function Sum(xs: seq<real>): real {
    if xs == [] then 0.0 else Sum(xs[..|xs| - 1]) + xs[|xs| - 1]
  }

  /** The mean sample level `process_cycle` normalises. */
  function Mean(frame: seq<real>): real
    requires |frame| > 0
  {
    Sum(frame) / |frame| as real
  }

  /** Bounds on every sample bound their sum, scaled by the count. */
  lemma {:induction false} SumBetween(xs: seq<real>, lo: real, hi: real)
    requires forall i :: 0 <= i < |xs| ==> lo <= xs[i] <= hi
    ensures |xs| as real * lo <= Sum(xs) <= |xs| as real * hi
    decreases |xs|
  {
    if xs != [] {
      var init := xs[..|xs| - 1];
      assert forall i :: 0 <= i < |init| ==> init[i] == xs[i];
      SumBetween(init, lo, hi);
      assert |xs| as real * lo == |init| as real * lo + lo;
      assert |xs| as real * hi == |init| as real * hi + hi;
    }
  }

  /** The brightness `process_cycle` sends is the level of a value that lies
      between the smallest and the largest sample of the frame. */
  lemma MeanBetween(frame: seq<real>, lo: real, hi: real)
    requires |frame| > 0
    requires forall i :: 0 <= i < |frame| ==> lo <= frame[i] <= hi
    ensures lo <= Mean(frame) <= hi
  {
    SumBetween(frame, lo, hi);
    var n := |frame| as real;
    var q := Sum(frame) / n;
    assert q * n == Sum(frame);
  }

  /** The local state of `process_cycle`: the current palette colour and
      index, the frame counter and its own normaliser. */
  class CycleProcessor {
    var color: seq<u8>
    var colorIndex: nat
    var cycleCount: u8
    const bright: BrightNorm

    ghost predicate Valid()
      reads this, bright
    {
      bright.Valid() && colorIndex < |Palette| && color == Palette[colorIndex]
    }

    constructor ()
      ensures Valid() && fresh(bright)
      ensures cycleCount == 0 && bright.State() == Initial
    {
      var c, i := CycleColor(None);
      color, colorIndex := c, i;
      cycleCount := 0;
      bright := new BrightNorm();
    }

    /** One iteration of the `process_cycle` loop on one captured frame. */
    method Frame(frame: seq<real>) returns (out: Cycle)
      requires Valid() && |frame| > 0
      modifies this, bright
      ensures Valid()
      ensures cycleCount == NextCount(old(cycleCount))
      ensures ArmOf(old(cycleCount)) == SendColor ==>
                out == Color(old(color)) &&
                color == old(color) && colorIndex == old(colorIndex) &&
                bright.State() == old(bright.State())
      ensures ArmOf(old(cycleCount)) == SendBrightness ==>
                color == old(color) && colorIndex == old(colorIndex) && out.Brightness? &&
                (bright.State(), out.level) == Step(old(bright.State()), Mean(frame))
      ensures ArmOf(old(cycleCount)) == ChangeColor ==>
                out == Color(color) && colorIndex != old(colorIndex) &&
                bright.State() == old(bright.State())
    {
      if cycleCount == 0 {
        out := Color(color);
        cycleCount := cycleCount + 1;
      } else if cycleCount < CycleEnd {
        var vol := Mean(frame);
        var level := bright.Norm(vol);
        out := Brightness(level);
      } else {
        var c, i := CycleColor(Some(colorIndex));
        color, colorIndex := c, i;
        out := Color(color);
      }
    }
  }
}
