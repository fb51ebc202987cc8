/**
 The spectrum measurement: frames stream into accumulators, and the end of a
 window turns them into noise, peak, average and duty cycle.

 A frame is given by the power of each bin of its transform, in the
 transform's own order; powers are linear, so ratios stand for decibels.
 */
module Measure {
  import opened Arithmetic
  import opened Results

  const FFT_SIZE: nat := 16_384
  const CENTER: nat := 8192

  /** Powers below this are reported as this. */
  const FLOOR: real := 0.000000000000000000000000000001

  type Frame = seq<real>

  predicate IsFrame(f: Frame) {
    |f| == FFT_SIZE && forall i | 0 <= i < FFT_SIZE :: f[i] >= 0.0
  }

  predicate AreFrames(frames: seq<Frame>) {
    forall i | 0 <= i < |frames| :: IsFrame(frames[i])
  }

  // ---------------- which bins belong to the signal ---------------------

  const ISIZE_END: int := 0x8000_0000_0000_0000
  const USIZE_END: int := 0x1_0000_0000_0000_0000

  /** `f64::round`: halves go away from zero. */
  function Round(x: real): int {
    if x >= 0.0 then (x + 0.5).Floor else -((-x + 0.5).Floor)
  }

  /** `as isize` from a float saturates. */
  function ToIsize(n: int): int {
    if n < -ISIZE_END then -ISIZE_END else if n >= ISIZE_END then ISIZE_END - 1 else n
  }

  /** What is left of a sum that overflows `isize`. */
  function WrapIsize(n: int): int {
    (n + ISIZE_END) % USIZE_END - ISIZE_END
  }

  /** `as usize` from an `isize`, and sums that overflow `usize`. */
  function ToUsize(n: int): nat {
    n % USIZE_END
  }

  function Greater(a: real, b: real): real {
    if a < b then b else a
  }

  datatype Band = Band(lo: nat, hi: nat, half: nat)

  function BinHz(sampleRate: real): real {
    sampleRate / 16384.0
  }

  function BandFor(sampleRate: real, offsetHz: real, widthHz: real): Band
    requires sampleRate > 0.0
  {
    var binHz := BinHz(sampleRate);
    var offset := ToIsize(Round(offsetHz / binHz));
    var half := ToIsize(Max(Round(widthHz / binHz / 2.0), 1));
    var middle := WrapIsize(CENTER + offset);
    Band(ToUsize(Max(WrapIsize(middle - half), 0)), ToUsize(Min(WrapIsize(middle + half), FFT_SIZE - 1)), half)
  }

  predicate InBand(b: Band, k: int) {
    b.lo <= k <= b.hi
  }

  function GuardLo(b: Band): nat {
    if b.lo < b.half then 0 else b.lo - b.half
  }

  function GuardHi(b: Band): nat {
    Min(ToUsize(b.hi + b.half), FFT_SIZE - 1)
  }

  predicate InNoise(b: Band, k: int) {
    k < GuardLo(b) || k > GuardHi(b)
  }

  /** Bin `k` of the spectrum is bin `Shifted(k)` of the transform. */
  function Shifted(k: nat): (s: nat)
    ensures s < FFT_SIZE
  {
    (k + CENTER) % FFT_SIZE
  }

  // ---------------- the batch definition --------------------------------

  /** In-band power of one frame, up to bin `n`. */
  function BandSum(f: Frame, b: Band, n: nat): real
    requires IsFrame(f) && n <= FFT_SIZE
  {
    if n == 0 then 0.0
    else BandSum(f, b, n - 1) + if InBand(b, n - 1) then f[Shifted(n - 1)] else 0.0
  }

  function Power(f: Frame, b: Band, energy: real): real
    requires IsFrame(f) && energy > 0.0
  {
    BandSum(f, b, FFT_SIZE) / energy
  }

  function Powers(frames: seq<Frame>, b: Band, energy: real): (p: seq<real>)
    requires AreFrames(frames) && energy > 0.0
    ensures |p| == |frames|
  {
    seq(|frames|, i requires 0 <= i < |frames| => Power(frames[i], b, energy))
  }

  /** Power of spectrum bin `k` over all frames. */
  function BinSum(frames: seq<Frame>, k: nat): real
    requires AreFrames(frames) && k < FFT_SIZE
  {
    if frames == [] then 0.0
    else BinSum(frames[..|frames| - 1], k) + frames[|frames| - 1][Shifted(k)]
  }

  function Total(s: seq<real>): real {
    if s == [] then 0.0 else Total(s[..|s| - 1]) + s[|s| - 1]
  }

  /** The greatest element above zero, or zero. */
  function Peak(s: seq<real>): real {
    if s == [] then 0.0 else Greater(Peak(s[..|s| - 1]), s[|s| - 1])
  }

  function Scaled(x: real, scale: real): real {
    x * scale
  }

  /** Average power of each noise bin below `n`, in bin order. */
  function NoiseBins(frames: seq<Frame>, b: Band, scale: real, n: nat): seq<real>
    requires AreFrames(frames) && n <= FFT_SIZE
  {
    if n == 0 then []
    else
      var below := NoiseBins(frames, b, scale, n - 1);
      if InNoise(b, n - 1) then below + [Scaled(BinSum(frames, n - 1), scale)] else below
  }

  function Inserted(sorted: seq<real>, x: real): seq<real> {
    if sorted == [] || x < sorted[0] then [x] + sorted else [sorted[0]] + Inserted(sorted[1..], x)
  }

  /** The standard library's stable sort, by insertion. */
  function Sorted(s: seq<real>): (r: seq<real>)
    ensures |r| == |s|
  {
    if s == [] then []
    else
      InsertedLength(Sorted(s[..|s| - 1]), s[|s| - 1]);
      Inserted(Sorted(s[..|s| - 1]), s[|s| - 1])
  }

  lemma {:induction false} InsertedLength(s: seq<real>, x: real)
    ensures |Inserted(s, x)| == |s| + 1
  {
    if s != [] && x >= s[0] {
      InsertedLength(s[1..], x);
    }
  }

  function Median(s: seq<real>): real
    requires s != []
  {
    Sorted(s)[|s| / 2]
  }

  function NoiseScale(count: nat, energy: real): real
    requires count > 0 && energy > 0.0
  {
    1.0 / (count as real * energy)
  }

  function NoisePower(frames: seq<Frame>, b: Band, energy: real): Option<real>
    requires AreFrames(frames) && frames != [] && energy > 0.0
  {
    var bins := NoiseBins(frames, b, NoiseScale(|frames|, energy), FFT_SIZE);
    if bins == [] then None
    else Some(Greater(Scaled(Median(bins), ToUsize(b.hi - b.lo + 1) as real), FLOOR))
  }

  datatype Gate = Gate(count: nat, peak: real, sum: real)

  /** The frames above the threshold. */
  function Gated(powers: seq<real>, threshold: real): (g: Gate)
    ensures g.count <= |powers|
  {
    if powers == [] then Gate(0, 0.0, 0.0)
    else
      var g, p := Gated(powers[..|powers| - 1], threshold), powers[|powers| - 1];
      if p > threshold then Gate(g.count + 1, Greater(g.peak, p), g.sum + p) else g
  }

  datatype Measurement = Measurement(
    noise: real,
    peak: real,
    average: real,
    peakRatio: real,
    averageRatio: real,
    activeFraction: real
  )

  function Reported(powers: seq<real>, noise: real): Measurement
    requires powers != [] && noise > 0.0
  {
    var g, n := Gated(powers, noise * 2.0), |powers| as real;
    var peak := Greater(if g.count > 0 then g.peak else Peak(powers), FLOOR);
    var average := Greater(if g.count > 0 then g.sum / g.count as real else Total(powers) / n, FLOOR);
    Measurement(noise, peak, average, peak / noise, average / noise, g.count as real / n)
  }

  /** What a window over `frames` measures, all frames at hand. */
  function Measured(frames: seq<Frame>, b: Band, energy: real): Option<Measurement>
    requires AreFrames(frames) && energy > 0.0
  {
    if frames == [] || b.hi <= b.lo then None
    else
      match NoisePower(frames, b, energy)
      case None => None
      case Some(noise) => Some(Reported(Powers(frames, b, energy), noise))
  }

  method GatePowers(powers: seq<real>, threshold: real) returns (count: nat, peak: real, sum: real)
    ensures Gate(count, peak, sum) == Gated(powers, threshold)
  {
    count, peak, sum := 0, 0.0, 0.0;
    for i := 0 to |powers|
      invariant Gate(count, peak, sum) == Gated(powers[..i], threshold)
    {
      var p := powers[i];
      assert powers[..i + 1][..i] == powers[..i];
      if p > threshold {
        count := count + 1;
        if p > peak {
          peak := p;
        }
        sum := sum + p;
      }
    }
    assert powers[..|powers|] == powers;
  }

  // ---------------- the streaming analyzer ------------------------------

  class SpectrumAnalyzer {
    const windowEnergy: real
    const sampleRate: real
    const psdSum: array<real>
    var windowOpen: bool
    var sigLo: nat
    var sigHi: nat
    var halfWidthBins: nat
    var sigPeakPower: real
    var sigSumPower: real
    var framePowers: seq<real>
    var frameCount: nat
    /** The frames of this window so far. */
    ghost var frames: seq<Frame>

    function View(): Band
      reads this
    {
      Band(sigLo, sigHi, halfWidthBins)
    }

    /** The accumulators hold what the batch definition says of the frames so far. */
    ghost predicate Valid()
      reads this, psdSum
    {
      && windowEnergy > 0.0 && sampleRate > 0.0 && psdSum.Length == FFT_SIZE
      && AreFrames(frames)
      && (forall k | 0 <= k < FFT_SIZE :: psdSum[k] == BinSum(frames, k))
      && framePowers == Powers(frames, View(), windowEnergy)
      && sigPeakPower == Peak(framePowers) && sigSumPower == Total(framePowers)
      && frameCount == |frames|
    }

    constructor (sampleRate: real, windowEnergy: real)
      requires sampleRate > 0.0 && windowEnergy > 0.0
      ensures Valid() && !windowOpen && frames == [] && fresh(psdSum)
      ensures this.sampleRate == sampleRate && this.windowEnergy == windowEnergy
    {
      this.windowEnergy := windowEnergy;
      this.sampleRate := sampleRate;
      psdSum := new real[FFT_SIZE](_ => 0.0);
      windowOpen := false;
      sigLo, sigHi, halfWidthBins := 0, 0, 0;
      sigPeakPower, sigSumPower := 0.0, 0.0;
      framePowers, frameCount := [], 0;
      frames := [];
      new;
      assert Powers(frames, View(), windowEnergy) == [];
    }

    method StartWindow(offsetHz: real, widthHz: real)
      requires Valid()
      modifies this, psdSum
      ensures Valid() && windowOpen && frames == []
      ensures View() == BandFor(sampleRate, offsetHz, widthHz)
    {
      var band := BandFor(sampleRate, offsetHz, widthHz);
      sigLo, sigHi, halfWidthBins := band.lo, band.hi, band.half;
      for k := 0 to FFT_SIZE
        invariant forall i | 0 <= i < k :: psdSum[i] == 0.0
        modifies psdSum
      {
        psdSum[k] := 0.0;
      }
      sigPeakPower, sigSumPower := 0.0, 0.0;
      framePowers, frameCount := [], 0;
      windowOpen := true;
      frames := [];
      assert Powers(frames, View(), windowEnergy) == [];
    }

    method AddFrame(f: Frame) returns (power: real)
      requires Valid() && windowOpen && IsFrame(f)
      modifies this`sigPeakPower, this`sigSumPower, this`framePowers, this`frameCount, this`frames, psdSum
      ensures Valid() && frames == old(frames) + [f]
      ensures power == Power(f, View(), windowEnergy)
    {
      hide BandSum, BinSum, Powers, Peak, Total;
      var sum := 0.0;
      assert BandSum(f, View(), 0) == 0.0 by { BandSumStep(f, View(), 0); }
      for k := 0 to FFT_SIZE
        invariant sum == BandSum(f, View(), k)
        invariant forall i | 0 <= i < k :: psdSum[i] == BinSum(frames, i) + f[Shifted(i)]
        invariant forall i | k <= i < FFT_SIZE :: psdSum[i] == BinSum(frames, i)
        modifies psdSum
      {
        var binPower := f[Shifted(k)];
        psdSum[k] := psdSum[k] + binPower;
        if sigLo <= k <= sigHi {
          sum := sum + binPower;
        }
        BandSumStep(f, View(), k + 1);
      }
      power := sum / windowEnergy;
      if power > sigPeakPower {
        sigPeakPower := power;
      }
      sigSumPower := sigSumPower + power;
      framePowers := framePowers + [power];
      frameCount := frameCount + 1;
      BinSumStep(frames, f);
      PowersStep(frames, f, View(), windowEnergy);
      frames := frames + [f];
    }

    /** The averaged bins outside the guarded passband. */
    method OutOfBand(scale: real) returns (bins: seq<real>)
      requires Valid()
      ensures bins == NoiseBins(frames, View(), scale, FFT_SIZE)
    {
      hide BinSum, Powers, Peak, Total;
      var guardLo, guardHi := GuardLo(View()), GuardHi(View());
      bins := [];
      for i := 0 to FFT_SIZE
        invariant bins == NoiseBins(frames, View(), scale, i)
      {
        if i < guardLo || i > guardHi {
          bins := bins + [Scaled(psdSum[i], scale)];
        }
      }
    }

    method Finalize() returns (r: Option<Measurement>)
      requires Valid()
      modifies this`windowOpen
      ensures Valid() && !windowOpen
      ensures r == if old(windowOpen) then Measured(frames, View(), windowEnergy) else None
    {
      hide BinSum, Powers, Sorted, Peak, Total, Gated, NoiseBins;
      var open := windowOpen;
      windowOpen := false;
      if frameCount == 0 || !open { return None; }
      if sigHi <= sigLo { return None; }
      var bins := OutOfBand(NoiseScale(frameCount, windowEnergy));
      if bins == [] { return None; }
      var perBin := Sorted(bins)[|bins| / 2];
      var noise := Greater(Scaled(perBin, ToUsize(sigHi - sigLo + 1) as real), FLOOR);
      var count, activePeak, activeSum := GatePowers(framePowers, noise * 2.0);
      var n := frameCount as real;
      var peak, average;
      if count > 0 {
        peak, average := Greater(activePeak, FLOOR), Greater(activeSum / count as real, FLOOR);
      } else {
        peak, average := Greater(sigPeakPower, FLOOR), Greater(sigSumPower / n, FLOOR);
      }
      return Some(Measurement(noise, peak, average, peak / noise, average / noise, count as real / n));
    }

    /** A whole window at once: the stream of frames measures what the batch does. */
    method Analyze(window: seq<Frame>, offsetHz: real, widthHz: real) returns (r: Option<Measurement>)
      requires Valid() && AreFrames(window)
      modifies this, psdSum
      ensures Valid() && !windowOpen
      ensures r == Measured(window, BandFor(sampleRate, offsetHz, widthHz), windowEnergy)
    {
      StartWindow(offsetHz, widthHz);
      for i := 0 to |window|
        invariant Valid() && windowOpen && frames == window[..i]
        invariant View() == BandFor(sampleRate, offsetHz, widthHz)
      {
        var power := AddFrame(window[i]);
      }
      r := Finalize();
      assert window[..|window|] == window;
    }
  }

  lemma BandSumStep(f: Frame, b: Band, n: nat)
    requires IsFrame(f) && n <= FFT_SIZE
    ensures BandSum(f, b, n) == if n == 0 then 0.0
              else BandSum(f, b, n - 1) + if InBand(b, n - 1) then f[Shifted(n - 1)] else 0.0
  {
  }

  lemma PowersStep(frames: seq<Frame>, f: Frame, b: Band, energy: real)
    requires AreFrames(frames) && IsFrame(f) && AreFrames(frames + [f]) && energy > 0.0
    ensures var before, p := Powers(frames, b, energy), Power(f, b, energy);
            && Powers(frames + [f], b, energy) == before + [p]
            && Peak(before + [p]) == Greater(Peak(before), p) && Total(before + [p]) == Total(before) + p
  {
    hide Power;
    var before, p := Powers(frames, b, energy), Power(f, b, energy);
    assert (before + [p])[..|before|] == before;
  }

  lemma BinSumStep(frames: seq<Frame>, f: Frame)
    requires AreFrames(frames) && IsFrame(f)
    ensures AreFrames(frames + [f])
    ensures forall k | 0 <= k < FFT_SIZE :: BinSum(frames + [f], k) == BinSum(frames, k) + f[Shifted(k)]
  {
    assert (frames + [f])[..|frames|] == frames;
  }
}
