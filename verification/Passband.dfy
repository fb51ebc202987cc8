/**
 Where the passband of an accepted config lands among the bins, which
 frequencies that covers, and when a window over it measures anything.
 */
module Passband {
  import opened Arithmetic
  import opened Numbers
  import opened NodeConfig
  import opened Measure

  // ---------------- rounding and dividing -------------------------------

  lemma RoundIsNear(x: real)
    ensures -0.5 <= Round(x) as real - x <= 0.5
    ensures x >= 0.0 ==> Round(x) >= 0
  {
  }

  lemma QuotientBelow(x: real, k: real, d: real)
    requires d > 0.0
    ensures x / d <= k <==> x <= k * d
    ensures x / d < k <==> x < k * d
    ensures x / d * d == x
  {
    var q := x / d;
    assert q * d == x;
    ScaleKeepsOrder(q, k, d);
    ScaleKeepsOrder(k, q, d);
  }

  lemma ScaleKeepsOrder(a: real, b: real, d: real)
    requires d > 0.0
    ensures a <= b <==> a * d <= b * d
  {
    assert (b - a) * d == b * d - a * d;
  }

  // ---------------- accepted configs ------------------------------------

  /** The passband lies inside the sampled spectrum. */
  predicate Fits(sampleRate: real, offsetHz: real, widthHz: real) {
    sampleRate >= 250000.0 && widthHz > 0.0 && Abs(offsetHz) + widthHz / 2.0 <= sampleRate / 2.0
  }

  predicate HasBand(c: Config) {
    BrokenRule(c).None?
  }

  lemma AcceptedFits(c: Config)
    requires HasBand(c)
    ensures var (offset, width) := PassbandFor(c.mode, c.beacon);
            c.sampleRate.Finite? && offset.Finite? && width.Finite? &&
            Fits(Value(c.sampleRate), Value(offset), Value(width))
  {
    assert FracValue("") == 0.0;
  }

  /** The bins of an accepted config, at the rate it asked for. */
  function ConfigBand(c: Config): Band
    requires HasBand(c)
  {
    AcceptedFits(c);
    var (offset, width) := PassbandFor(c.mode, c.beacon);
    BandFor(Value(c.sampleRate), Value(offset), Value(width))
  }

  function OffsetBins(sampleRate: real, offsetHz: real): int
    requires sampleRate > 0.0
  {
    Round(offsetHz / BinHz(sampleRate))
  }

  function HalfBins(sampleRate: real, widthHz: real): int
    requires sampleRate > 0.0
  {
    Max(Round(widthHz / BinHz(sampleRate) / 2.0), 1)
  }

  lemma BinsInRange(sampleRate: real, offsetHz: real, widthHz: real)
    requires Fits(sampleRate, offsetHz, widthHz)
    ensures -8192 <= OffsetBins(sampleRate, offsetHz) <= 8192
    ensures 1 <= HalfBins(sampleRate, widthHz) <= 8192
  {
    var binHz := BinHz(sampleRate);
    RoundIsNear(offsetHz / binHz);
    RoundIsNear(widthHz / binHz / 2.0);
    QuotientBelow(offsetHz, 8192.0, binHz);
    QuotientBelow(-offsetHz, 8192.0, binHz);
    assert -offsetHz / binHz == -(offsetHz / binHz);
    QuotientBelow(widthHz, 16384.0, binHz);
  }

  /** No cast saturates or wraps: the band is the rounded passband, cut to the spectrum. */
  lemma BandIsCut(sampleRate: real, offsetHz: real, widthHz: real)
    requires Fits(sampleRate, offsetHz, widthHz)
    ensures var b, o, h := BandFor(sampleRate, offsetHz, widthHz), OffsetBins(sampleRate, offsetHz),
                           HalfBins(sampleRate, widthHz);
            && b.lo == Max(CENTER + o - h, 0) && b.hi == Min(CENTER + o + h, FFT_SIZE - 1) && b.half == h
            && 0 <= b.lo <= b.hi <= FFT_SIZE - 1
  {
    hide Round, BinHz, ToIsize, WrapIsize, ToUsize;
    BinsInRange(sampleRate, offsetHz, widthHz);
    var o, h := OffsetBins(sampleRate, offsetHz), HalfBins(sampleRate, widthHz);
    SmallIsExact(o);
    SmallIsExact(h);
    SmallIsExact(CENTER + o);
    SmallIsExact(CENTER + o - h);
    SmallIsExact(CENTER + o + h);
    SmallIsExact(Max(CENTER + o - h, 0));
    SmallIsExact(Min(CENTER + o + h, FFT_SIZE - 1));
  }

  lemma SmallIsExact(n: int)
    requires -100_000 <= n <= 100_000
    ensures ToIsize(n) == n && WrapIsize(n) == n && (n >= 0 ==> ToUsize(n) == n)
  {
  }

  // ---------------- which frequencies that is ---------------------------

  function Hertz(bins: int, sampleRate: real): real {
    bins as real * BinHz(sampleRate)
  }

  /** The frequency of bin `j` of the transform, relative to the tuned one. */
  function TransformHz(sampleRate: real, j: nat): real {
    Hertz(if j < CENTER then j else j - FFT_SIZE, sampleRate)
  }

  /** The shifted spectrum runs from the lowest frequency to the highest, each bin once. */
  lemma SpectrumIsShifted(sampleRate: real, k: nat)
    requires k < FFT_SIZE
    ensures Shifted(k) < FFT_SIZE && Shifted(Shifted(k)) == k
    ensures TransformHz(sampleRate, Shifted(k)) == Hertz(k - CENTER, sampleRate)
  {
  }

  /**
   The bins measured are the passband's to within a bin: every frequency a bin
   or more inside its edges is measured, and none further than one and a half
   bins outside them.
   */
  lemma BandCoversPassband(sampleRate: real, offsetHz: real, widthHz: real, k: nat)
    requires Fits(sampleRate, offsetHz, widthHz) && k < FFT_SIZE
    ensures var b, away := BandFor(sampleRate, offsetHz, widthHz), Abs(Hertz(k - CENTER, sampleRate) - offsetHz);
            && (away <= widthHz / 2.0 - BinHz(sampleRate) ==> InBand(b, k))
            && (InBand(b, k) ==> away <= Greater(widthHz / 2.0, BinHz(sampleRate) / 2.0) + BinHz(sampleRate))
  {
    hide *;
    var binHz := BinHz(sampleRate);
    BandInBins(sampleRate, offsetHz, widthHz, k);
    HalfOf(widthHz, binHz);
    AwayIs(sampleRate, offsetHz, k);
    InHertz(Abs((k - CENTER) as real - offsetHz / binHz), widthHz / binHz / 2.0, binHz,
            Abs(Hertz(k - CENTER, sampleRate) - offsetHz), widthHz / 2.0);
  }

  lemma AwayIs(sampleRate: real, offsetHz: real, k: nat)
    requires BinHz(sampleRate) > 0.0
    ensures Abs(Hertz(k - CENTER, sampleRate) - offsetHz) ==
            Abs((k - CENTER) as real - offsetHz / BinHz(sampleRate)) * BinHz(sampleRate)
  {
    hide BinHz;
    var binHz, d := BinHz(sampleRate), (k - CENTER) as real;
    var x := offsetHz / binHz;
    assert x * binHz == offsetHz;
    DistanceScales(d, x, binHz);
  }

  lemma DistanceScales(d: real, x: real, binHz: real)
    requires binHz > 0.0
    ensures Abs(d * binHz - x * binHz) == Abs(d - x) * binHz
  {
    assert d * binHz - x * binHz == (d - x) * binHz;
  }

  /** Distances in bins and in hertz. */
  lemma InHertz(a: real, w: real, binHz: real, away: real, half: real)
    requires binHz > 0.0 && away == a * binHz && half == w * binHz
    ensures away <= half - binHz ==> a <= w - 1.0
    ensures a <= w + 1.0 || a <= 1.5 ==> away <= Greater(half, binHz / 2.0) + binHz
  {
    Compared(a, w - 1.0, binHz, away, half - binHz);
    Compared(a, w + 1.0, binHz, away, half + binHz);
    Compared(a, 1.5, binHz, away, 1.5 * binHz);
  }

  lemma Compared(a: real, b: real, d: real, ad: real, bd: real)
    requires d > 0.0 && ad == a * d && bd == b * d
    ensures a <= b <==> ad <= bd
  {
    ScaleKeepsOrder(a, b, d);
  }

  lemma HalfOf(x: real, d: real)
    requires d > 0.0
    ensures x / d / 2.0 * d == x / 2.0
  {
    assert x / d * d == x;
  }

  lemma BandInBins(sampleRate: real, offsetHz: real, widthHz: real, k: nat)
    requires Fits(sampleRate, offsetHz, widthHz) && k < FFT_SIZE
    ensures BinHz(sampleRate) > 0.0
    ensures var b := BandFor(sampleRate, offsetHz, widthHz);
            var x, w := offsetHz / BinHz(sampleRate), widthHz / BinHz(sampleRate) / 2.0;
            var away := Abs((k - CENTER) as real - x);
            && (away <= w - 1.0 ==> InBand(b, k))
            && (InBand(b, k) ==> away <= w + 1.0 || away <= 1.5)
  {
    hide Round, BandFor;
    BandIsCut(sampleRate, offsetHz, widthHz);
    var x, w := offsetHz / BinHz(sampleRate), widthHz / BinHz(sampleRate) / 2.0;
    RoundIsNear(x);
    RoundIsNear(w);
    NearInBins(k - CENTER, x, w, OffsetBins(sampleRate, offsetHz), HalfBins(sampleRate, widthHz));
  }

  /** Rounding moves each edge by at most half a bin, or the width to a single bin either side. */
  lemma NearInBins(d: int, x: real, w: real, o: int, h: int)
    requires -0.5 <= o as real - x <= 0.5
    requires h == 1 || -0.5 <= h as real - w <= 0.5
    requires h as real >= w - 0.5
    ensures Abs(d as real - x) <= w - 1.0 ==> o - h <= d <= o + h
    ensures o - h <= d <= o + h ==> Abs(d as real - x) <= w + 1.0 || Abs(d as real - x) <= 1.5
  {
  }

  // ---------------- when a window measures ------------------------------

  lemma {:induction false} NoiseBinsEmpty(frames: seq<Frame>, b: Band, scale: real, n: nat)
    requires AreFrames(frames) && n <= FFT_SIZE
    ensures NoiseBins(frames, b, scale, n) == [] <==> forall k | 0 <= k < n :: !InNoise(b, k)
    decreases n
  {
    hide InNoise, BinSum;
    if n > 0 {
      NoiseBinsEmpty(frames, b, scale, n - 1);
    }
  }

  /** Some bin lies outside the passband and its guard on both sides. */
  predicate LeavesNoise(b: Band) {
    b.lo > b.half || b.hi + b.half < FFT_SIZE - 1
  }

  /** A window over a band inside the spectrum measures exactly when it has a frame, a band and some noise. */
  lemma MeasuresExactly(frames: seq<Frame>, b: Band, energy: real)
    requires AreFrames(frames) && energy > 0.0 && b.lo <= b.hi < FFT_SIZE && b.half < FFT_SIZE
    ensures Measured(frames, b, energy).Some? <==> frames != [] && b.lo < b.hi && LeavesNoise(b)
  {
    hide NoiseBins, Reported, Powers, Sorted;
    if frames != [] {
      NoiseBinsEmpty(frames, b, NoiseScale(|frames|, energy), FFT_SIZE);
      assert InNoise(b, 0) <==> b.lo > b.half;
      assert InNoise(b, FFT_SIZE - 1) <==> b.hi + b.half < FFT_SIZE - 1;
    }
  }

  /** The same for the bins of any accepted config: they lie in the spectrum, and may leave no noise. */
  lemma AcceptedMeasuresExactly(frames: seq<Frame>, c: Config, energy: real)
    requires AreFrames(frames) && energy > 0.0 && HasBand(c)
    ensures var b := ConfigBand(c);
            && 0 <= b.lo <= b.hi <= FFT_SIZE - 1
            && (Measured(frames, b, energy).Some? <==> frames != [] && b.lo < b.hi && LeavesNoise(b))
  {
    hide HasBand, BandFor, Value, Fits, PassbandFor;
    AcceptedFits(c);
    var (offset, width) := PassbandFor(c.mode, c.beacon);
    BandIsCut(Value(c.sampleRate), Value(offset), Value(width));
    BinsInRange(Value(c.sampleRate), Value(offset), Value(width));
    MeasuresExactly(frames, ConfigBand(c), energy);
  }

  /**
   Not every accepted config measures. Wide FM does exactly from a rate at
   which twice its width and a bin fit the spectrum, a little over 300 kHz; at
   the least accepted rate it never does.
   */
  lemma WideFmMeasuresExactly(frames: seq<Frame>, c: Config, energy: real)
    requires AreFrames(frames) && energy > 0.0 && HasBand(c) && c.mode == Wfm && c.sampleRate.Finite?
    ensures Measured(frames, ConfigBand(c), energy).Some? <==>
            frames != [] && Value(c.sampleRate) * 8191.0 > 150000.0 * 16384.0
    ensures c.sampleRate == Whole(250000) ==> Measured(frames, ConfigBand(c), energy).None?
  {
    hide HasBand, Fits;
    AcceptedMeasuresExactly(frames, c, energy);
    WideFmBand(c);
    var rate := Value(c.sampleRate);
    var binHz := BinHz(rate);
    hide Measured, ConfigBand;
    QuotientBelow(150000.0, 8191.0, binHz);
    var x := 150000.0 / binHz / 2.0;
    assert Round(x) <= 4095 <==> x < 4095.5;
    assert FracValue("") == 0.0;
  }

  lemma WideFmBand(c: Config)
    requires HasBand(c) && c.mode == Wfm && c.sampleRate.Finite?
    ensures Value(c.sampleRate) >= 250000.0
    ensures var h := HalfBins(Value(c.sampleRate), 150000.0);
            1 <= h <= 8192 && ConfigBand(c) == Band(Max(CENTER - h, 0), Min(CENTER + h, FFT_SIZE - 1), h)
  {
    AcceptedFits(c);
    assert FracValue("") == 0.0;
    var rate := Value(c.sampleRate);
    BandIsCut(rate, 0.0, 150000.0);
    BinsInRange(rate, 0.0, 150000.0);
    assert OffsetBins(rate, 0.0) == 0;
  }

  // ---------------- which configs measure -------------------------------

  /** In rounded bins: the band has two bins, and twice its half-width stays short of the far edge. */
  lemma MeasuresInBins(sampleRate: real, offsetHz: real, widthHz: real)
    requires Fits(sampleRate, offsetHz, widthHz)
    ensures var b, o, h := BandFor(sampleRate, offsetHz, widthHz), OffsetBins(sampleRate, offsetHz),
                           HalfBins(sampleRate, widthHz);
            b.lo < b.hi && LeavesNoise(b) <==> !(o == 8192 && h == 1) && (2 * h + o < 8191 || 2 * h - o < 8192)
  {
    hide Round, BinHz, BandFor;
    BandIsCut(sampleRate, offsetHz, widthHz);
    BinsInRange(sampleRate, offsetHz, widthHz);
  }

  /** The bins of an offset and of a width, to half a bin. */
  lemma BinsNear(sampleRate: real, offsetHz: real, widthHz: real)
    requires sampleRate >= 250000.0
    ensures var binHz, o, h := BinHz(sampleRate), OffsetBins(sampleRate, offsetHz), HalfBins(sampleRate, widthHz);
            && binHz > 0.0 && -0.5 <= o as real - offsetHz / binHz <= 0.5
            && h as real >= widthHz / binHz / 2.0 - 0.5
            && (h == 1 || h as real <= widthHz / binHz / 2.0 + 0.5)
  {
    RoundIsNear(offsetHz / BinHz(sampleRate));
    RoundIsNear(widthHz / BinHz(sampleRate) / 2.0);
    hide Round;
  }

  lemma QuotientDifference(x: real, y: real, d: real)
    requires d > 0.0
    ensures x / d - Abs(y / d) == (x - Abs(y)) / d
  {
    var p, q := x / d, y / d;
    assert p * d == x && q * d == y;
    assert Abs(q) * d == Abs(y);
    assert (p - Abs(q)) * d == x - Abs(y);
  }

  /**
   In hertz, for any passband inside the spectrum: it measures when its width
   exceeds its offset by four bins less than half the rate, and it keeps a bin
   from the upper edge; it never does from two bins more than half the rate on.
   */
  lemma MeasuresInHertz(sampleRate: real, offsetHz: real, widthHz: real)
    requires Fits(sampleRate, offsetHz, widthHz)
    ensures var b, binHz, excess := BandFor(sampleRate, offsetHz, widthHz), BinHz(sampleRate), widthHz - Abs(offsetHz);
            && (excess <= sampleRate / 2.0 - 4.0 * binHz && offsetHz <= sampleRate / 2.0 - binHz ==>
                  b.lo < b.hi && LeavesNoise(b))
            && (excess >= sampleRate / 2.0 + 2.0 * binHz ==> !LeavesNoise(b))
  {
    var binHz := BinHz(sampleRate);
    MeasuresInBins(sampleRate, offsetHz, widthHz);
    BinsNear(sampleRate, offsetHz, widthHz);
    QuotientDifference(widthHz, offsetHz, binHz);
    QuotientBelow(widthHz - Abs(offsetHz), 8188.0, binHz);
    QuotientBelow(widthHz - Abs(offsetHz), 8194.0, binHz);
    QuotientBelow(offsetHz, 8191.0, binHz);
    assert sampleRate == 16384.0 * binHz;
    LeavesInBins(sampleRate, offsetHz, widthHz);
    hide BandFor, OffsetBins, HalfBins, LeavesNoise, BinHz, Fits;
    ExcessInBins(OffsetBins(sampleRate, offsetHz), HalfBins(sampleRate, widthHz), offsetHz / binHz, widthHz / binHz);
  }

  lemma LeavesInBins(sampleRate: real, offsetHz: real, widthHz: real)
    requires Fits(sampleRate, offsetHz, widthHz)
    ensures var b, o, h := BandFor(sampleRate, offsetHz, widthHz), OffsetBins(sampleRate, offsetHz),
                           HalfBins(sampleRate, widthHz);
            LeavesNoise(b) ==> 2 * h + o < 8191 || 2 * h - o < 8192
    ensures 1 <= HalfBins(sampleRate, widthHz) && -8192 <= OffsetBins(sampleRate, offsetHz) <= 8192
  {
    hide Round, BinHz, BandFor;
    BandIsCut(sampleRate, offsetHz, widthHz);
    BinsInRange(sampleRate, offsetHz, widthHz);
  }

  lemma ExcessInBins(o: int, h: int, x: real, w: real)
    requires -0.5 <= o as real - x <= 0.5 && h as real >= w / 2.0 - 0.5 && (h == 1 || h as real <= w / 2.0 + 0.5)
    requires h >= 1
    ensures w - Abs(x) <= 8188.0 ==> 2 * h + o < 8191 || 2 * h - o < 8192
    ensures x <= 8191.0 ==> o < 8192
    ensures w - Abs(x) >= 8194.0 ==> !(2 * h + o < 8191 || 2 * h - o < 8192)
  {
  }

  /** Every voice and narrow mode measures, at every accepted rate, as soon as there is a frame. */
  lemma OtherModesMeasure(frames: seq<Frame>, c: Config, energy: real)
    requires AreFrames(frames) && energy > 0.0 && HasBand(c) && c.mode != Wfm && c.mode != Beacon
    ensures Measured(frames, ConfigBand(c), energy).Some? <==> frames != []
  {
    AcceptedMeasuresExactly(frames, c, energy);
    AcceptedFits(c);
    NarrowPassband(c);
    var (offset, width) := PassbandFor(c.mode, c.beacon);
    var rate := Value(c.sampleRate);
    MeasuresInHertz(rate, Value(offset), Value(width));
    hide Measured, BandFor, LeavesNoise, PassbandFor, HasBand;
  }

  lemma NarrowPassband(c: Config)
    requires c.mode != Wfm && c.mode != Beacon
    ensures var (offset, width) := PassbandFor(c.mode, c.beacon);
            offset.Finite? && width.Finite? && Abs(Value(offset)) <= 1500.0 && Value(width) <= 12500.0
  {
    assert FracValue("") == 0.0;
  }

  /** A beacon that fits measures by its own offset and width, to a few bins. */
  lemma BeaconMeasures(frames: seq<Frame>, c: Config, energy: real)
    requires AreFrames(frames) && energy > 0.0 && HasBand(c) && c.mode == Beacon
    ensures c.sampleRate.Finite? && c.beacon.Some?
    ensures c.beacon.value.offsetHz.Finite? && c.beacon.value.bandwidthHz.Finite?
    ensures var rate, offset := Value(c.sampleRate), Value(c.beacon.value.offsetHz);
            var excess, binHz, measured :=
              Value(c.beacon.value.bandwidthHz) - Abs(offset), BinHz(rate), Measured(frames, ConfigBand(c), energy);
            && (excess <= rate / 2.0 - 4.0 * binHz && offset <= rate / 2.0 - binHz ==>
                  (measured.Some? <==> frames != []))
            && (excess >= rate / 2.0 + 2.0 * binHz ==> measured.None?)
  {
    AcceptedMeasuresExactly(frames, c, energy);
    AcceptedFits(c);
    var rate := Value(c.sampleRate);
    MeasuresInHertz(rate, Value(c.beacon.value.offsetHz), Value(c.beacon.value.bandwidthHz));
    hide Measured, BandFor, LeavesNoise;
  }
}
