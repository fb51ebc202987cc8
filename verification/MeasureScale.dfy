/**
 The scale of a measurement: a flat spectrum measures no signal, a tone counts
 exactly when its bin is in the passband, powers add up, amplifying the input
 amplifies every level and no ratio, and the level is that of the active frames.
 */
module MeasureScale {
  import opened Arithmetic
  import opened Measure
  import opened MeasureLaws
  import opened Results

  // ---------------- products of reals -----------------------------------

  lemma ScaledSum(x: real, y: real, c: real)
    ensures Scaled(x + y, c) == Scaled(x, c) + Scaled(y, c) && Scaled(0.0, c) == 0.0
  {
  }

  lemma ScaledOrder(x: real, y: real, c: real)
    requires c > 0.0
    ensures x < y <==> Scaled(x, c) < Scaled(y, c)
  {
  }

  lemma ScaledTwice(x: real, c: real, d: real)
    ensures Scaled(Scaled(x, c), d) == Scaled(Scaled(x, d), c)
  {
  }

  lemma ScaledQuotient(x: real, c: real, e: real)
    requires e != 0.0
    ensures Scaled(x, c) / e == Scaled(x / e, c)
  {
    assert x / e * e == x;
    assert (x / e) * c * e == x * c;
  }

  lemma ScaledGreater(x: real, y: real, c: real)
    requires c > 0.0
    ensures Greater(Scaled(x, c), Scaled(y, c)) == Scaled(Greater(x, y), c)
  {
    ScaledOrder(x, y, c);
  }

  // ---------------- a flat spectrum -------------------------------------

  /** How many bins below `n` are in the passband. */
  function BinsIn(b: Band, n: nat): nat {
    if n == 0 then 0 else BinsIn(b, n - 1) + if InBand(b, n - 1) then 1 else 0
  }

  lemma {:induction false} BinsInAre(b: Band, n: nat)
    requires b.lo <= b.hi
    ensures BinsIn(b, n) == if n <= b.lo then 0 else Min(n - 1, b.hi) - b.lo + 1
  {
    if n > 0 { BinsInAre(b, n - 1); }
  }

  /** Every bin of every frame holds `q`. */
  predicate Flat(frames: seq<Frame>, q: real)
    requires AreFrames(frames)
  {
    forall i, k | 0 <= i < |frames| && 0 <= k < FFT_SIZE :: frames[i][k] == q
  }

  lemma {:induction false} FlatBandSum(f: Frame, b: Band, q: real, n: nat)
    requires IsFrame(f) && n <= FFT_SIZE && forall k | 0 <= k < FFT_SIZE :: f[k] == q
    ensures BandSum(f, b, n) == Times(BinsIn(b, n), q)
  {
    if n == 0 {
      TimesNext(0, q);
    } else {
      hide Times, Shifted;
      FlatBandSum(f, b, q, n - 1);
      TimesNext(BinsIn(b, n - 1), q);
    }
  }

  lemma {:induction false} FlatBinSum(frames: seq<Frame>, q: real, k: nat)
    requires AreFrames(frames) && Flat(frames, q) && k < FFT_SIZE
    ensures BinSum(frames, k) == Times(|frames|, q)
    decreases |frames|
  {
    TimesNext(0, q);
    hide Times, Shifted;
    if frames != [] {
      FlatBinSum(frames[..|frames| - 1], q, k);
      TimesNext(|frames| - 1, q);
    }
  }

  lemma {:induction false} FlatNoiseBins(frames: seq<Frame>, b: Band, q: real, scale: real, n: nat)
    requires AreFrames(frames) && Flat(frames, q) && n <= FFT_SIZE
    ensures forall x | x in NoiseBins(frames, b, scale, n) :: x == Scaled(Times(|frames|, q), scale)
    decreases n
  {
    hide InNoise, BinSum, Flat, Times, Scaled;
    if n > 0 {
      FlatNoiseBins(frames, b, q, scale, n - 1);
      FlatBinSum(frames, q, n - 1);
    }
  }

  /** The average density of a flat spectrum, and the power of a passband `w` bins wide. */
  lemma FlatDensity(n: nat, q: real, w: nat, energy: real)
    requires n > 0 && energy > 0.0
    ensures Scaled(Scaled(Times(n, q), NoiseScale(n, energy)), w as real) == Times(w, q) / energy
  {
    var m := n as real;
    assert m * energy > 0.0;
    var s := NoiseScale(n, energy);
    assert s * (m * energy) == 1.0;
    assert (m * q) * s * energy == q * (s * (m * energy));
    assert (m * q) * s == q / energy;
    assert q / energy * energy == q;
    assert (q / energy) * (w as real) * energy == w as real * q;
  }

  lemma FlatPowers(frames: seq<Frame>, b: Band, energy: real, q: real)
    requires AreFrames(frames) && Flat(frames, q) && energy > 0.0
    ensures forall i | 0 <= i < |frames| :: Powers(frames, b, energy)[i] == Times(BinsIn(b, FFT_SIZE), q) / energy
  {
    hide BandSum, Times, BinsIn;
    forall i | 0 <= i < |frames| ensures Power(frames[i], b, energy) == Times(BinsIn(b, FFT_SIZE), q) / energy {
      FlatBandSum(frames[i], b, q, FFT_SIZE);
    }
  }

  /** Equal powers that do not exceed the threshold: the peak and the mean are that power, and none is active. */
  lemma {:induction false} EqualPowers(s: seq<real>, p: real, t: real)
    requires 0.0 <= p <= t && forall i | 0 <= i < |s| :: s[i] == p
    ensures Gated(s, t).count == 0 && Total(s) == Times(|s|, p) && (s != [] ==> Peak(s) == p)
    decreases |s|
  {
    TimesNext(0, p);
    hide Times;
    if s != [] {
      EqualPowers(s[..|s| - 1], p, t);
      TimesNext(|s| - 1, p);
    }
  }

  /**
   A flat spectrum measures no signal at all, whatever its level and the
   passband: noise, peak and average are the level times the number of bins
   measured, over the energy of the window, both ratios are 1, and no frame is
   active.
   */
  lemma FlatSpectrumIsNoise(frames: seq<Frame>, b: Band, energy: real, q: real)
    requires AreFrames(frames) && frames != [] && energy > 0.0 && Flat(frames, q)
    requires b.hi < FFT_SIZE && Measured(frames, b, energy).Some?
    ensures var p := Greater(FlatPower(b, q, energy), FLOOR);
            Measured(frames, b, energy).value == Measurement(p, p, p, 1.0, 1.0, 0.0)
  {
    hide NoisePower, Powers, Reported, Flat, IsFrame, Greater, BinsIn;
    var p := FlatPower(b, q, energy);
    assert q >= 0.0 by { FlatLevel(frames, q); }
    FlatPowerIs(b, q, energy);
    FlatNoise(frames, b, energy, q);
    FlatPowers(frames, b, energy, q);
    EqualReported(Powers(frames, b, energy), p);
  }

  /** `q` times the number of bins measured, over the energy of the window. */
  function FlatPower(b: Band, q: real, energy: real): real
    requires energy > 0.0
  {
    BinsIn(b, FFT_SIZE) as real * q / energy
  }

  lemma FlatPowerIs(b: Band, q: real, energy: real)
    requires energy > 0.0
    ensures FlatPower(b, q, energy) == Times(BinsIn(b, FFT_SIZE), q) / energy
    ensures q >= 0.0 ==> FlatPower(b, q, energy) >= 0.0
  {
    QuotientSign(Times(BinsIn(b, FFT_SIZE), if q >= 0.0 then q else 0.0), energy);
  }

  lemma FlatLevel(frames: seq<Frame>, q: real)
    requires AreFrames(frames) && frames != [] && Flat(frames, q)
    ensures q >= 0.0
  {
    assert IsFrame(frames[0]) && frames[0][0] == q;
  }

  lemma FlatNoise(frames: seq<Frame>, b: Band, energy: real, q: real)
    requires AreFrames(frames) && frames != [] && energy > 0.0 && Flat(frames, q)
    requires b.lo < b.hi < FFT_SIZE && NoisePower(frames, b, energy).Some?
    ensures NoisePower(frames, b, energy).value == Greater(Times(BinsIn(b, FFT_SIZE), q) / energy, FLOOR)
  {
    hide NoiseBins, Sorted, Flat, IsFrame, Times, Scaled, NoiseScale, Greater;
    BinsInAre(b, FFT_SIZE);
    var w := BinsIn(b, FFT_SIZE);
    assert ToUsize(b.hi - b.lo + 1) == w;
    hide BinsIn;
    var scale := NoiseScale(|frames|, energy);
    var bins := NoiseBins(frames, b, scale, FFT_SIZE);
    FlatNoiseBins(frames, b, q, scale, FFT_SIZE);
    MedianSplits(bins);
    assert Median(bins) == Scaled(Times(|frames|, q), scale);
    FlatDensity(|frames|, q, w, energy);
  }

  lemma EqualReported(powers: seq<real>, p: real)
    requires powers != [] && p >= 0.0 && forall i | 0 <= i < |powers| :: powers[i] == p
    ensures var x := Greater(p, FLOOR); Reported(powers, x) == Measurement(x, x, x, 1.0, 1.0, 0.0)
  {
    hide Gated, Peak, Total, Times;
    var x := Greater(p, FLOOR);
    EqualPowers(powers, p, x * 2.0);
    MeanOfEqual(|powers|, p);
    RatioTimes(x, x);
    assert 0.0 / |powers| as real == 0.0;
  }

  lemma QuotientSign(x: real, e: real)
    requires x >= 0.0 && e > 0.0
    ensures x / e >= 0.0
  {
  }

  lemma MeanOfEqual(n: nat, p: real)
    requires n > 0
    ensures Times(n, p) / n as real == p
  {
  }

  /** Without any power all three levels are 10^-30, and the ratios 1. */
  lemma SilenceMeasuresTheFloor(frames: seq<Frame>, b: Band, energy: real)
    requires AreFrames(frames) && frames != [] && energy > 0.0 && Flat(frames, 0.0)
    requires b.hi < FFT_SIZE && Measured(frames, b, energy).Some?
    ensures var m := Measured(frames, b, energy).value;
            && m == Measurement(m.noise, m.noise, m.noise, 1.0, 1.0, 0.0)
            && m.noise * 1000000000000000.0 * 1000000000000000.0 == 1.0
  {
    FlatSpectrumIsNoise(frames, b, energy, 0.0);
    hide Measured, Flat;
    assert FlatPower(b, 0.0, energy) == 0.0 by { NoPower(b, energy); }
  }

  lemma NoPower(b: Band, energy: real)
    requires energy > 0.0
    ensures FlatPower(b, 0.0, energy) == 0.0
  {
    assert BinsIn(b, FFT_SIZE) as real * 0.0 == 0.0;
    assert 0.0 / energy == 0.0;
  }

  // ---------------- tones and sums --------------------------------------

  lemma {:induction false} ToneSum(f: Frame, b: Band, k: nat, n: nat)
    requires IsFrame(f) && k < FFT_SIZE && n <= FFT_SIZE
    requires forall j: nat | j < FFT_SIZE && j != k :: f[Shifted(j)] == 0.0
    ensures BandSum(f, b, n) == if k < n && InBand(b, k) then f[Shifted(k)] else 0.0
    decreases n
  {
    hide Shifted;
    if n > 0 { ToneSum(f, b, k, n - 1); }
  }

  /** A tone in one bin of the spectrum is measured, whole, exactly when the bin is in the passband. */
  lemma ToneIsMeasuredExactly(f: Frame, b: Band, energy: real, k: nat)
    requires IsFrame(f) && energy > 0.0 && k < FFT_SIZE
    requires forall j: nat | j < FFT_SIZE && j != k :: f[Shifted(j)] == 0.0
    ensures Power(f, b, energy) == if b.lo <= k <= b.hi then f[(k + 8192) % 16384] / energy else 0.0
  {
    hide BandSum;
    ToneSum(f, b, k, FFT_SIZE);
  }

  lemma {:induction false} SumsAdd(f: Frame, g: Frame, h: Frame, b: Band, n: nat)
    requires IsFrame(f) && IsFrame(g) && IsFrame(h) && n <= FFT_SIZE
    requires forall i | 0 <= i < FFT_SIZE :: h[i] == f[i] + g[i]
    ensures BandSum(h, b, n) == BandSum(f, b, n) + BandSum(g, b, n)
    decreases n
  {
    hide Shifted;
    if n > 0 { SumsAdd(f, g, h, b, n - 1); }
  }

  /** Powers add up: so the power of any frame is that of its bins in the passband, one by one. */
  lemma PowersAdd(f: Frame, g: Frame, h: Frame, b: Band, energy: real)
    requires IsFrame(f) && IsFrame(g) && IsFrame(h) && energy > 0.0
    requires forall i | 0 <= i < FFT_SIZE :: h[i] == f[i] + g[i]
    ensures Power(h, b, energy) == Power(f, b, energy) + Power(g, b, energy)
  {
    SumsAdd(f, g, h, b, FFT_SIZE);
    var x, y := BandSum(f, b, FFT_SIZE), BandSum(g, b, FFT_SIZE);
    hide BandSum;
    assert (x + y) / energy == x / energy + y / energy;
  }

  // ---------------- amplification ---------------------------------------

  /** The frames of `g` are those of `f`, every power multiplied by `c`. */
  predicate Amplified(f: seq<Frame>, g: seq<Frame>, c: real)
    requires AreFrames(f) && AreFrames(g)
  {
    |f| == |g| && forall i, k | 0 <= i < |f| && 0 <= k < FFT_SIZE :: g[i][k] == Scaled(f[i][k], c)
  }

  function AllScaled(s: seq<real>, c: real): (r: seq<real>)
    ensures |r| == |s|
  {
    seq(|s|, i requires 0 <= i < |s| => Scaled(s[i], c))
  }

  lemma {:induction false} AmplifiedBandSum(f: Frame, g: Frame, b: Band, c: real, n: nat)
    requires IsFrame(f) && IsFrame(g) && n <= FFT_SIZE
    requires forall k | 0 <= k < FFT_SIZE :: g[k] == Scaled(f[k], c)
    ensures BandSum(g, b, n) == Scaled(BandSum(f, b, n), c)
    decreases n
  {
    ScaledSum(0.0, 0.0, c);
    hide Scaled, Shifted;
    if n > 0 {
      AmplifiedBandSum(f, g, b, c, n - 1);
      ScaledSum(BandSum(f, b, n - 1), if InBand(b, n - 1) then f[Shifted(n - 1)] else 0.0, c);
    }
  }

  lemma {:induction false} AmplifiedBinSum(f: seq<Frame>, g: seq<Frame>, c: real, k: nat)
    requires AreFrames(f) && AreFrames(g) && Amplified(f, g, c) && k < FFT_SIZE
    ensures BinSum(g, k) == Scaled(BinSum(f, k), c)
    decreases |f|
  {
    ScaledSum(0.0, 0.0, c);
    hide Scaled, Shifted;
    if f != [] {
      var n := |f| - 1;
      AmplifiedBinSum(f[..n], g[..n], c, k);
      ScaledSum(BinSum(f[..n], k), f[n][Shifted(k)], c);
    }
  }

  lemma {:induction false} AmplifiedNoiseBins(f: seq<Frame>, g: seq<Frame>, b: Band, c: real, scale: real, n: nat)
    requires AreFrames(f) && AreFrames(g) && Amplified(f, g, c) && n <= FFT_SIZE
    ensures NoiseBins(g, b, scale, n) == AllScaled(NoiseBins(f, b, scale, n), c)
    decreases n
  {
    hide InNoise, BinSum, Amplified, Scaled;
    if n > 0 {
      AmplifiedNoiseBins(f, g, b, c, scale, n - 1);
      AmplifiedBinSum(f, g, c, n - 1);
      ScaledTwice(BinSum(f, n - 1), c, scale);
    }
  }

  lemma AmplifiedPowers(f: seq<Frame>, g: seq<Frame>, b: Band, c: real, energy: real)
    requires AreFrames(f) && AreFrames(g) && Amplified(f, g, c) && energy > 0.0
    ensures Powers(g, b, energy) == AllScaled(Powers(f, b, energy), c)
  {
    hide BandSum, Scaled;
    forall i | 0 <= i < |f| ensures Power(g[i], b, energy) == Scaled(Power(f[i], b, energy), c) {
      AmplifiedBandSum(f[i], g[i], b, c, FFT_SIZE);
      ScaledQuotient(BandSum(f[i], b, FFT_SIZE), c, energy);
    }
  }

  lemma {:induction false} InsertedScaled(s: seq<real>, x: real, c: real)
    requires c > 0.0
    ensures Inserted(AllScaled(s, c), Scaled(x, c)) == AllScaled(Inserted(s, x), c)
    decreases |s|
  {
    hide Scaled;
    var t := AllScaled(s, c);
    if s != [] {
      ScaledOrder(x, s[0], c);
      assert t[1..] == AllScaled(s[1..], c);
      if x >= s[0] { InsertedScaled(s[1..], x, c); }
    }
  }

  lemma {:induction false} SortedScaled(s: seq<real>, c: real)
    requires c > 0.0
    ensures Sorted(AllScaled(s, c)) == AllScaled(Sorted(s), c)
    decreases |s|
  {
    hide Scaled, Inserted;
    if s != [] {
      var n := |s| - 1;
      assert AllScaled(s, c)[..n] == AllScaled(s[..n], c);
      SortedScaled(s[..n], c);
      InsertedScaled(Sorted(s[..n]), s[n], c);
    }
  }

  lemma {:induction false} GateScaled(s: seq<real>, t: real, c: real)
    requires c > 0.0
    ensures var g := Gated(s, t);
            Gated(AllScaled(s, c), Scaled(t, c)) == Gate(g.count, Scaled(g.peak, c), Scaled(g.sum, c))
    ensures Peak(AllScaled(s, c)) == Scaled(Peak(s), c) && Total(AllScaled(s, c)) == Scaled(Total(s), c)
    decreases |s|
  {
    ScaledSum(0.0, 0.0, c);
    hide Scaled, Greater;
    if s != [] {
      var n := |s| - 1;
      var rest := s[..n];
      assert AllScaled(s, c)[..n] == AllScaled(rest, c);
      GateScaled(rest, t, c);
      ScaledOrder(t, s[n], c);
      ScaledSum(Gated(rest, t).sum, s[n], c);
      ScaledSum(Total(rest), s[n], c);
      ScaledGreater(Gated(rest, t).peak, s[n], c);
      ScaledGreater(Peak(rest), s[n], c);
    }
  }

  lemma FloorScales(x: real, c: real)
    requires c > 0.0 && Greater(x, FLOOR) > FLOOR && Scaled(Greater(x, FLOOR), c) >= FLOOR
    ensures Greater(Scaled(x, c), FLOOR) == Scaled(Greater(x, FLOOR), c)
  {
    hide Scaled;
  }

  lemma RatioScales(x: real, y: real, c: real)
    requires c > 0.0 && y > 0.0 && Scaled(y, c) > 0.0
    ensures Scaled(x, c) / Scaled(y, c) == x / y
  {
    assert x / y * y == x;
    assert (x / y) * (y * c) == x * c;
  }

  /** Nothing it says is at the floor, and neither is anything once scaled. */
  predicate AboveFloor(m: Measurement, c: real) {
    && m.noise > FLOOR && m.peak > FLOOR && m.average > FLOOR
    && Scaled(m.noise, c) >= FLOOR && Scaled(m.peak, c) >= FLOOR && Scaled(m.average, c) >= FLOOR
  }

  lemma ReportedScales(powers: seq<real>, noise: real, c: real)
    requires powers != [] && noise > 0.0 && Scaled(noise, c) > 0.0 && c > 0.0 && AboveFloor(Reported(powers, noise), c)
    ensures var m := Reported(powers, noise);
            Reported(AllScaled(powers, c), Scaled(noise, c)) ==
            Measurement(Scaled(noise, c), Scaled(m.peak, c), Scaled(m.average, c),
                        m.peakRatio, m.averageRatio, m.activeFraction)
  {
    var t, n := noise * 2.0, |powers| as real;
    assert Scaled(noise, c) * 2.0 == Scaled(t, c) by { ScaledTwice(noise, c, 2.0); }
    hide Scaled, Gated, Peak, Total, Greater;
    GateScaled(powers, t, c);
    var g := Gated(powers, t);
    var peak := if g.count > 0 then g.peak else Peak(powers);
    var average := if g.count > 0 then g.sum / g.count as real else Total(powers) / n;
    if g.count > 0 {
      ScaledQuotient(g.sum, c, g.count as real);
    } else {
      ScaledQuotient(Total(powers), c, n);
    }
    FloorScales(peak, c);
    FloorScales(average, c);
    RatioScales(Greater(peak, FLOOR), noise, c);
    RatioScales(Greater(average, FLOOR), noise, c);
  }

  /**
   Amplifying the input by `c` multiplies noise, peak and average by `c`, as
   long as nothing reaches the floor, and changes neither ratio and not the
   active fraction.
   */
  lemma AmplifyingScales(f: seq<Frame>, g: seq<Frame>, b: Band, energy: real, c: real)
    requires AreFrames(f) && AreFrames(g) && Amplified(f, g, c) && c > 0.0 && energy > 0.0
    requires Measured(f, b, energy).Some? && AboveFloor(Measured(f, b, energy).value, c)
    ensures var m := Measured(f, b, energy).value;
            Measured(g, b, energy) ==
            Some(Measurement(Scaled(m.noise, c), Scaled(m.peak, c), Scaled(m.average, c),
                             m.peakRatio, m.averageRatio, m.activeFraction))
  {
    hide NoiseBins, Powers, Sorted, Gated, Peak, Total, Scaled, Reported, NoiseScale, IsFrame;
    var noise := NoisePower(f, b, energy).value;
    assert Measured(f, b, energy).value.noise == noise by { NoiseIsReported(Powers(f, b, energy), noise); }
    assert |f| == |g| by { SameSize(f, g, c); }
    AmplifiedPowers(f, g, b, c, energy);
    AmplifiedNoise(f, g, b, energy, c);
    ReportedScales(Powers(f, b, energy), noise, c);
  }

  lemma SameSize(f: seq<Frame>, g: seq<Frame>, c: real)
    requires AreFrames(f) && AreFrames(g) && Amplified(f, g, c)
    ensures |f| == |g|
  {
  }

  lemma NoiseIsReported(powers: seq<real>, noise: real)
    requires powers != [] && noise > 0.0
    ensures Reported(powers, noise).noise == noise
  {
  }

  lemma AmplifiedNoise(f: seq<Frame>, g: seq<Frame>, b: Band, energy: real, c: real)
    requires AreFrames(f) && AreFrames(g) && f != [] && Amplified(f, g, c) && c > 0.0 && energy > 0.0
    requires NoisePower(f, b, energy).Some?
    requires var noise := NoisePower(f, b, energy).value; noise > FLOOR && Scaled(noise, c) >= FLOOR
    ensures g != [] && NoisePower(g, b, energy) == Some(Scaled(NoisePower(f, b, energy).value, c))
  {
    hide NoiseBins, Sorted, Scaled, NoiseScale, IsFrame, Greater;
    assert |f| == |g| by { SameSize(f, g, c); }
    hide Amplified;
    var s := NoiseScale(|f|, energy);
    var bins := NoiseBins(f, b, s, FFT_SIZE);
    AmplifiedNoiseBins(f, g, b, c, s, FFT_SIZE);
    SortedScaled(bins, c);
    var w := ToUsize(b.hi - b.lo + 1) as real;
    ScaledTwice(Median(bins), c, w);
    FloorScales(Scaled(Median(bins), w), c);
  }

  // ---------------- the noise figure ------------------------------------

  /** Average power of bin `k` of the spectrum, over the window's energy. */
  function Density(frames: seq<Frame>, k: nat, energy: real): real
    requires AreFrames(frames) && frames != [] && k < FFT_SIZE && energy > 0.0
  {
    Scaled(BinSum(frames, k), NoiseScale(|frames|, energy))
  }

  /** A bin further outside the passband than the passband's half-width. */
  predicate Outside(b: Band, k: int) {
    k < b.lo as int - b.half as int || k > b.hi + b.half
  }

  function OutsideBins(b: Band, n: nat): nat {
    if n == 0 then 0 else OutsideBins(b, n - 1) + if Outside(b, n - 1) then 1 else 0
  }

  /** How many outside bins below `n` have less power than `m`. */
  function OutsideBelow(frames: seq<Frame>, b: Band, energy: real, m: real, n: nat): nat
    requires AreFrames(frames) && frames != [] && n <= FFT_SIZE && energy > 0.0
  {
    if n == 0 then 0
    else
      OutsideBelow(frames, b, energy, m, n - 1)
      + if Outside(b, n - 1) && Density(frames, n - 1, energy) < m then 1 else 0
  }

  function OutsideAbove(frames: seq<Frame>, b: Band, energy: real, m: real, n: nat): nat
    requires AreFrames(frames) && frames != [] && n <= FFT_SIZE && energy > 0.0
  {
    if n == 0 then 0
    else
      OutsideAbove(frames, b, energy, m, n - 1)
      + if Outside(b, n - 1) && Density(frames, n - 1, energy) > m then 1 else 0
  }

  /** A band as one is cut for a window: inside the spectrum, with a half-width that fits its type. */
  predicate IsCut(b: Band) {
    b.lo <= b.hi < FFT_SIZE && b.half < ISIZE_END
  }

  lemma NoiseIsOutside(b: Band, k: nat)
    requires IsCut(b) && k < FFT_SIZE
    ensures InNoise(b, k) <==> Outside(b, k)
  {
  }

  lemma {:induction false} NoiseBinsAreOutside(frames: seq<Frame>, b: Band, energy: real, m: real, n: nat)
    requires AreFrames(frames) && frames != [] && energy > 0.0 && IsCut(b) && n <= FFT_SIZE
    ensures var bins := NoiseBins(frames, b, NoiseScale(|frames|, energy), n);
            && |bins| == OutsideBins(b, n) && CountBelow(bins, m) == OutsideBelow(frames, b, energy, m, n)
            && CountAbove(bins, m) == OutsideAbove(frames, b, energy, m, n)
    decreases n
  {
    hide InNoise, Outside, BinSum, NoiseScale, Scaled, IsCut, IsFrame, CountBelow, CountAbove;
    if n == 0 {
      NothingCounted(m);
    } else {
      NoiseBinsAreOutside(frames, b, energy, m, n - 1);
      NoiseIsOutside(b, n - 1);
      CountAppend(NoiseBins(frames, b, NoiseScale(|frames|, energy), n - 1), Density(frames, n - 1, energy), m);
    }
  }

  lemma NothingCounted(m: real)
    ensures CountBelow([], m) == 0 && CountAbove([], m) == 0
  {
  }

  /**
   The noise is `x` times the number of bins measured, where `x` is a median of
   the average powers of exactly the bins outside the guarded passband: at most
   half of them are below, and fewer than half above.
   */
  lemma NoiseIsMedianOutside(frames: seq<Frame>, b: Band, energy: real) returns (x: real)
    requires AreFrames(frames) && frames != [] && energy > 0.0 && IsCut(b)
    requires NoisePower(frames, b, energy).Some?
    ensures NoisePower(frames, b, energy).value == Greater(Scaled(x, (b.hi - b.lo + 1) as real), FLOOR)
    ensures var all := OutsideBins(b, FFT_SIZE);
            && OutsideBelow(frames, b, energy, x, FFT_SIZE) <= all / 2
            && OutsideAbove(frames, b, energy, x, FFT_SIZE) <= all - 1 - all / 2
  {
    hide NoiseBins, Scaled, NoiseScale, IsFrame, Sorted, OutsideBins, OutsideBelow, OutsideAbove, CountBelow,
         CountAbove, Greater;
    var bins := NoiseBins(frames, b, NoiseScale(|frames|, energy), FFT_SIZE);
    x := Median(bins);
    MedianSplits(bins);
    NoiseBinsAreOutside(frames, b, energy, x, FFT_SIZE);
    assert ToUsize(b.hi - b.lo + 1) == b.hi - b.lo + 1;
  }

  /** There is noise to measure if and only if some bin is outside. */
  lemma NoiseNeedsOutsideBins(frames: seq<Frame>, b: Band, energy: real)
    requires AreFrames(frames) && frames != [] && energy > 0.0 && IsCut(b)
    ensures NoisePower(frames, b, energy).Some? <==> OutsideBins(b, FFT_SIZE) > 0
  {
    hide NoiseBins, Scaled, NoiseScale, IsFrame, Sorted, OutsideBins, OutsideBelow, OutsideAbove, Greater;
    NoiseBinsAreOutside(frames, b, energy, 0.0, FFT_SIZE);
  }

  // ---------------- the active frames -----------------------------------

  /** The powers above the threshold, in order. */
  function Active(powers: seq<real>, t: real): seq<real> {
    if powers == [] then []
    else
      var before, p := Active(powers[..|powers| - 1], t), powers[|powers| - 1];
      if p > t then before + [p] else before
  }

  lemma {:induction false} GateIsOverActive(powers: seq<real>, t: real)
    ensures Gated(powers, t) == Gate(|Active(powers, t)|, Peak(Active(powers, t)), Total(Active(powers, t)))
    decreases |powers|
  {
    if powers != [] {
      var rest, p := powers[..|powers| - 1], powers[|powers| - 1];
      GateIsOverActive(rest, t);
      assert (Active(rest, t) + [p])[..|Active(rest, t)|] == Active(rest, t);
    }
  }

  /**
   The level reported is the peak and the mean of the frames more than 3 dB
   above the noise, or of all frames when there are none; the ratios are those
   levels over the noise, and the active fraction is their share.
   */
  lemma LevelIsOfActiveFrames(frames: seq<Frame>, b: Band, energy: real)
    requires AreFrames(frames) && energy > 0.0 && Measured(frames, b, energy).Some?
    ensures var m, powers := Measured(frames, b, energy).value, Powers(frames, b, energy);
            var active := Active(powers, 2.0 * m.noise);
            var heard := if active == [] then powers else active;
            && heard != [] && m.peak == Greater(Peak(heard), FLOOR)
            && m.average == Greater(Total(heard) / |heard| as real, FLOOR)
            && m.peakRatio * m.noise == m.peak && m.averageRatio * m.noise == m.average
            && m.activeFraction * |frames| as real == |active| as real
  {
    hide NoiseBins, Powers, Gated, Peak, Total, IsFrame, Active;
    var m, powers := Measured(frames, b, energy).value, Powers(frames, b, energy);
    GateIsOverActive(powers, 2.0 * m.noise);
    assert m.noise * 2.0 == 2.0 * m.noise;
    RatioTimes(m.peak, m.noise);
    RatioTimes(m.average, m.noise);
    RatioTimes(|Active(powers, 2.0 * m.noise)| as real, |frames| as real);
  }

  lemma RatioTimes(x: real, y: real)
    requires y > 0.0
    ensures x / y * y == x
  {
  }
}
