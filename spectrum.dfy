/** The dominant-bin scan of `process` in src/colproc.rs: over the magnitude
    spectrum of one frame, the bin with the greatest magnitude among
    `0 < i < len/2` (no DC bin, no mirrored half), with later bins winning
    ties, reported as a frequency in Hz. */
module Spectrum {

  /** Samples per second of the captured audio. */
  const SampleRate: real := 44100.0

  /** `i as f32 * 44100_f32 / len as f32`: the centre frequency of bin `i`. */
  function BinHz(i: nat, n: nat): (hz: real)
    requires n > 0
    ensures 0 < i < n / 2 ==> 0.0 < hz < SampleRate / 2.0
  {
    if 0 < i < n / 2 then
      QuotientBelow(i as real * SampleRate, n as real, SampleRate / 2.0);
      i as real * SampleRate / n as real
    else
      i as real * SampleRate / n as real
  }

  lemma QuotientBelow(a: real, b: real, c: real)
    requires b > 0.0 && 0.0 < a < c * b
    ensures 0.0 < a / b < c
  {
  }

  /** Some bin of the searched range reaches the scan's starting maximum, 0. */
  predicate HasCandidate(mags: seq<real>) {
    exists i :: 0 < i < |mags| / 2 && mags[i] >= 0.0
  }

  /** Bin `k` is what the scan reports: in range, non-negative, at least as
      large as every bin of the range, and strictly larger than every later
      one (ties go to the highest index). */
  predicate IsDominant(mags: seq<real>, k: int) {
    0 < k < |mags| / 2 && mags[k] >= 0.0 &&
    (forall j :: 0 < j < |mags| / 2 ==> mags[j] <= mags[k]) &&
    (forall j :: k < j < |mags| / 2 ==> mags[j] < mags[k])
  }

  /** The description above pins the reported bin down uniquely. */
  lemma DominantUnique(mags: seq<real>, k1: int, k2: int)
    requires IsDominant(mags, k1) && IsDominant(mags, k2)
    ensures k1 == k2
  {
  }

  /** A silent spectrum reports the last bin of the range, not bin 0. */
  lemma SilenceReportsLastBin(mags: seq<real>)
    requires |mags| >= 4
    requires forall i :: 0 <= i < |mags| ==> mags[i] == 0.0
    ensures IsDominant(mags, |mags| / 2 - 1)
  {
  }

  /** The scan over the frame's magnitudes, updating `top_freq` and
      `top_freq_vol` whenever an in-range bin is `>=` the best so far. */
  method DominantFrequency(mags: seq<real>) returns (topFreq: real, topVol: real)
    ensures !HasCandidate(mags) ==> topFreq == 0.0 && topVol == 0.0
    ensures HasCandidate(mags) ==>
              exists k :: IsDominant(mags, k) && topVol == mags[k] && topFreq == BinHz(k, |mags|)
  {
    topFreq, topVol := 0.0, 0.0;
    ghost var best := 0;
    var n := |mags|;
    for i := 0 to n
      invariant best == 0 ==> topFreq == 0.0 && topVol == 0.0
      invariant best == 0 ==> forall j :: 0 < j < i && j < n / 2 ==> mags[j] < 0.0
      invariant best != 0 ==> 0 < best < i && best < n / 2 && mags[best] >= 0.0
      invariant best != 0 ==> topVol == mags[best] && topFreq == BinHz(best, n)
      invariant best != 0 ==> forall j :: 0 < j < i && j < n / 2 ==> mags[j] <= topVol
      invariant best != 0 ==> forall j :: best < j < i && j < n / 2 ==> mags[j] < topVol
    {
      if i > 0 && i < n / 2 && mags[i] >= topVol {
        topFreq := i as real * SampleRate / n as real;
        topVol := mags[i];
        best := i;
      }
    }
    if best != 0 {
      assert IsDominant(mags, best);
    }
  }
}
