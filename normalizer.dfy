/** The adaptive brightness normaliser `BrightNorm` of src/colproc.rs.

    Its state is an adaptive ceiling `max` (0 while there is none) and a
    counter `reset` of consecutive non-peak samples; `default` (800) and
    `reset_end` (50) never change and are constants here. Each call of `norm`
    takes one of five branches and yields a brightness in 0..100. */
module Normalizer {
  import opened Prims

  const Default: real := 800.0
  const ResetEnd: u8 := 50

  datatype NormState = NormState(max: real, reset: u8)

  /** The state `BrightNorm::new` builds. */
  const Initial := NormState(0.0, 0)

  /** What every reachable state satisfies: the ceiling is either absent or
      above the default, and an absent ceiling has a cleared counter. */
  ghost predicate Inv(s: NormState) {
    (s.max == 0.0 || s.max > Default) && (s.max == 0.0 ==> s.reset == 0)
  }

  /** `((vol / ceiling) * 100.0) as u8` */
  function Scale(vol: real, ceiling: real): (r: u8)
    requires ceiling > 0.0
    ensures vol <= ceiling ==> r <= 100
    ensures vol <= 0.0 ==> r == 0
  {
    var q := vol / ceiling;
    assert vol <= ceiling ==> q <= 1.0;
    AsU8(q * 100.0)
  }

  /** One call of `norm`: the new state and the brightness returned. */
  function Step(s: NormState, vol: real): (r: (NormState, u8))
    requires Inv(s)
    ensures r.1 <= 100
    ensures Inv(r.0)
  {
    if s.max != 0.0 && s.reset >= ResetEnd && vol < Default then
      (NormState(0.0, 0), Scale(vol, Default))
    else if s.max != 0.0 && (vol > s.max || vol > Default) then
      (NormState(vol, 0), 100)
    else if s.max != 0.0 then
      (NormState(s.max, WrappingInc(s.reset)), Scale(vol, s.max))
    else if vol > Default then
      (NormState(vol, 0), 100)
    else
      (NormState(0.0, 0), Scale(vol, Default))
  }

  /** A peak — above the default, or above an existing ceiling — is reported
      at full brightness, becomes the ceiling and clears the counter. */
  lemma PeakBecomesCeiling(s: NormState, vol: real)
    requires Inv(s)
    requires vol > Default || (s.max != 0.0 && vol > s.max)
    ensures Step(s, vol) == (NormState(vol, 0), 100)
  {
  }

  /** Once `reset_end` non-peak samples have been seen, a sample below the
      default drops the ceiling and is scaled against the default. */
  lemma WindowCloses(s: NormState, vol: real)
    requires Inv(s)
    requires s.max != 0.0 && s.reset >= ResetEnd && vol < Default
    ensures Step(s, vol) == (NormState(0.0, 0), Scale(vol, Default))
  {
  }

  /** A non-peak sample while a ceiling is held, before the window closes:
      counted, and scaled against the ceiling, which stays. */
  lemma NonPeakCounted(s: NormState, vol: real)
    requires Inv(s)
    requires s.max != 0.0 && vol <= Default
    requires !(s.reset >= ResetEnd && vol < Default)
    ensures Step(s, vol) == (NormState(s.max, WrappingInc(s.reset)), Scale(vol, s.max))
  {
  }

  /** Without a ceiling, a sample up to the default is scaled against the
      default and leaves the state as it was. */
  lemma NoCeilingScalesByDefault(s: NormState, vol: real)
    requires Inv(s)
    requires s.max == 0.0 && vol <= Default
    ensures Step(s, vol) == (s, Scale(vol, Default))
  {
  }

  /** Brightness is full exactly on a sample above the default (every peak
      is one, since a held ceiling lies above the default), or on a sample of
      exactly the default while no ceiling is held. */
  lemma FullBrightnessIff(s: NormState, vol: real)
    requires Inv(s)
    ensures Step(s, vol).1 == 100 <==> vol > Default || (s.max == 0.0 && vol == Default)
  {
  }

  /** `norm` applied to a stream of samples: the final state and every
      brightness produced. */
  function Run(s: NormState, vols: seq<real>): (r: (NormState, seq<u8>))
    requires Inv(s)
    ensures |r.1| == |vols|
    decreases |vols|
  {
    if vols == [] then (s, [])
    else
      var (s1, b) := Step(s, vols[0]);
      var (sf, bs) := Run(s1, vols[1..]);
      (sf, [b] + bs)
  }

  /** Over any stream the invariant is kept and every output is at most 100. */
  lemma {:induction false} RunBounded(s: NormState, vols: seq<real>)
    requires Inv(s)
    ensures Inv(Run(s, vols).0)
    ensures forall i :: 0 <= i < |vols| ==> Run(s, vols).1[i] <= 100
    decreases |vols|
  {
    if vols != [] {
      var s1 := Step(s, vols[0]).0;
      RunBounded(s1, vols[1..]);
    }
  }

  /** Once the window is due, the counter survives a step only on a sample of
      exactly the default: anything below closes the window, anything above
      is a new peak. So the counter passes `reset_end` only on such samples. */
  lemma CounterPastWindowOnlyOnDefault(s: NormState, vol: real)
    requires Inv(s) && s.reset >= ResetEnd
    requires Step(s, vol).0.reset != 0
    ensures vol == Default && Step(s, vol).0 == NormState(s.max, WrappingInc(s.reset))
  {
  }

  /** A stream of `k` samples of exactly the default under a ceiling adds `k`
      to the counter modulo 256 and keeps the ceiling. */
  lemma {:induction false} DefaultStreamCounts(m: real, r: u8, k: nat)
    requires m > Default
    ensures Run(NormState(m, r), seq(k, _ => Default)).0 == NormState(m, ((r as int + k) % 256) as u8)
    decreases k
  {
    if k > 0 {
      var vols := seq(k, _ => Default);
      var rest := seq(k - 1, _ => Default);
      assert vols[0] == Default && vols[1..] == rest;
      var r1 := WrappingInc(r);
      assert Step(NormState(m, r), Default).0 == NormState(m, r1);
      assert Run(NormState(m, r), vols).0 == Run(NormState(m, r1), rest).0;
      DefaultStreamCounts(m, r1, k - 1);
      assert (r1 as int + (k - 1)) % 256 == (r as int + k) % 256;
    }
  }

  /** After a peak, 255 samples of exactly the default drive the `u8`
      counter to 255, and one more wraps it back to 0 with the ceiling still
      held: the one way the increment of `norm` overflows. */
  lemma CounterWrapsOnExactDefault(m: real)
    requires m > Default
    ensures Run(NormState(m, 0), seq(255, _ => Default)).0 == NormState(m, 255)
    ensures Run(NormState(m, 0), seq(256, _ => Default)).0 == NormState(m, 0)
  {
    DefaultStreamCounts(m, 0, 255);
    DefaultStreamCounts(m, 0, 256);
  }

  /** How many consecutive samples below the default it takes to drop a
      held ceiling. */
  function QuietNeeded(s: NormState): nat {
    if s.max == 0.0 then 0
    else if s.reset >= ResetEnd then 1
    else (ResetEnd - s.reset) as nat + 1
  }

  /** A loud transient does not dim the output for ever: after at most
      `reset_end + 1` samples below the default the ceiling is gone. */
  lemma {:induction false} QuietReleasesCeiling(s: NormState, vols: seq<real>)
    requires Inv(s)
    requires forall i :: 0 <= i < |vols| ==> vols[i] < Default
    requires |vols| >= QuietNeeded(s)
    ensures Run(s, vols).0 == Initial
    decreases |vols|
  {
    if vols == [] {
    } else {
      var s1 := Step(s, vols[0]).0;
      assert QuietNeeded(s1) <= QuietNeeded(s) - 1 || QuietNeeded(s1) == 0;
      QuietReleasesCeiling(s1, vols[1..]);
    }
  }

  /** `BrightNorm`: the normaliser object whose fields `norm` updates. */
  class BrightNorm {
    var max: real
    var reset: u8

    function State(): NormState
      reads this
    {
      NormState(max, reset)
    }

    ghost predicate Valid()
      reads this
    {
      Inv(State())
    }

    constructor ()
      ensures Valid() && State() == Initial
    {
      max := 0.0;
      reset := 0;
    }

    method Norm(vol: real) returns (b: u8)
      requires Valid()
      modifies this
      ensures Valid()
      ensures (State(), b) == Step(old(State()), vol)
      ensures b <= 100
    {
      if max != 0.0 && reset >= ResetEnd && vol < Default {
        max := 0.0;
        reset := 0;
        b := Scale(vol, Default);
      } else if max != 0.0 && (vol > max || vol > Default) {
        max := vol;
        reset := 0;
        b := 100;
      } else if max != 0.0 {
        reset := WrappingInc(reset);
        b := Scale(vol, max);
      } else if vol > Default {
        max := vol;
        reset := 0;
        b := 100;
      } else {
        reset := 0;
        b := Scale(vol, Default);
      }
    }
  }
}
