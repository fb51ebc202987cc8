/**
 What a measurement promises: gating keeps silence out of the level, the noise
 floor does not see the signal, and the order of frames does not matter.
 */
module MeasureLaws {
  import opened Arithmetic
  import opened Measure

  // ---------------- the gate --------------------------------------------

  function Times(n: nat, x: real): real {
    n as real * x
  }

  lemma TimesNext(n: nat, x: real)
    ensures Times(n + 1, x) == Times(n, x) + x
    ensures Times(0, x) == 0.0
  {
  }

  lemma TimesMonotone(n: nat, x: real, y: real)
    requires x <= y
    ensures Times(n, x) <= Times(n, y)
  {
  }

  lemma Cancel(n: nat, x: real, y: real)
    requires n > 0 && Times(n, x) <= Times(n, y)
    ensures x <= y
  {
  }

  predicate NonNegative(s: seq<real>) {
    forall i | 0 <= i < |s| :: s[i] >= 0.0
  }

  /** `Peak` is the greatest element. */
  lemma {:induction false} PeakIsGreatest(s: seq<real>)
    requires NonNegative(s)
    ensures forall i | 0 <= i < |s| :: s[i] <= Peak(s)
    ensures s != [] ==> Peak(s) in s
    ensures Peak(s) >= 0.0
  {
    if s != [] {
      var rest := s[..|s| - 1];
      PeakIsGreatest(rest);
      assert forall i | 0 <= i < |rest| :: s[i] == rest[i];
      assert rest == [] ==> Peak(s) == s[0];
    }
  }

  /** What the loop over the frame powers knows of the threshold. */
  lemma {:induction false} GateBounds(powers: seq<real>, t: real)
    requires NonNegative(powers) && t >= 0.0
    ensures var g := Gated(powers, t);
            && g.sum >= Times(g.count, t) && (g.count > 0 ==> g.sum > Times(g.count, t))
            && g.sum <= Times(g.count, Peak(powers))
            && g.peak == (if g.count > 0 then Peak(powers) else 0.0)
            && (Peak(powers) > t <==> g.count > 0)
            && Total(powers) <= g.sum + Times(|powers| - g.count, t)
            && 0.0 <= Peak(powers) && 0.0 <= Total(powers)
  {
    TimesNext(0, t);
    TimesNext(0, Peak(powers));
    if powers != [] {
      hide Times;
      var rest, p := powers[..|powers| - 1], powers[|powers| - 1];
      GateBounds(rest, t);
      var g := Gated(rest, t);
      TimesMonotone(g.count, Peak(rest), Peak(powers));
      TimesNext(g.count, Peak(powers));
      TimesNext(g.count, t);
      TimesNext(|rest| - g.count, t);
    }
  }

  /** Frames at or below the threshold change nothing, wherever they fall. */
  lemma {:induction false} GateSkips(a: seq<real>, x: real, b: seq<real>, t: real)
    ensures var g, h := Gated(a + b, t), Gated(a + [x] + b, t);
            if x > t then h.count == g.count + 1 && h.peak == Greater(g.peak, x) && h.sum == g.sum + x else h == g
    decreases |b|
  {
    if b == [] {
      assert a + b == a;
      assert a + [x] + b == a + [x] && (a + [x])[..|a|] == a;
    } else {
      var n := |b| - 1;
      assert (a + b)[..|a + b| - 1] == a + b[..n];
      assert (a + [x] + b)[..|a + [x] + b| - 1] == a + [x] + b[..n];
      GateSkips(a, x, b[..n], t);
    }
  }

  lemma QuotientBetween(sum: real, n: nat, low: real, high: real)
    requires n > 0 && Times(n, low) < sum <= Times(n, high)
    ensures low < sum / n as real <= high
  {
    var q := sum / n as real;
    assert Times(n, q) == sum;
    if q <= low {
      TimesMonotone(n, q, low);
    }
    Cancel(n, q, high);
  }

  /** The mean of the larger part is at least the mean of the whole. */
  lemma PartialMean(sum: real, count: nat, total: real, n: nat, t: real)
    requires 0 < count <= n && Times(count, t) <= sum && total <= sum + Times(n - count, t)
    ensures total / n as real <= sum / count as real
  {
    var c, m := count as real, n as real;
    var mean, whole := sum / c, total / m;
    assert c * mean == sum && m * whole == total;
    Cancel(count, t, mean);
    TimesMonotone(n - count, t, mean);
    assert (m - c) * mean + c * mean == m * mean;
    Cancel(n, whole, mean);
  }

  /**
   What is reported for any frame powers. When some frame is active, the
   average lies more than 3 dB above the noise and not above the peak, the peak
   is the greatest power of all frames, and the average is at least the ungated
   one. When none is, no frame exceeded the threshold.
   */
  lemma ReportedBounds(powers: seq<real>, noise: real)
    requires powers != [] && NonNegative(powers) && noise >= FLOOR
    ensures var m := Reported(powers, noise);
            && m.noise == noise && 0.0 <= m.activeFraction <= 1.0 && m.average <= m.peak
            && (m.activeFraction > 0.0 <==> exists i | 0 <= i < |powers| :: powers[i] > 2.0 * noise)
            && (m.activeFraction > 0.0 ==>
                  && 2.0 * noise < m.average && m.peak == Peak(powers)
                  && m.average >= Total(powers) / |powers| as real)
            && (m.activeFraction == 0.0 ==> m.peak <= 2.0 * noise)
  {
    hide Times, Gated, Peak, Total;
    var t := noise * 2.0;
    var g, n := Gated(powers, t), |powers|;
    GateBounds(powers, t);
    PeakIsGreatest(powers);
    Fraction(g.count, n);
    if g.count > 0 {
      QuotientBetween(g.sum, g.count, t, Peak(powers));
      PartialMean(g.sum, g.count, Total(powers), n, t);
      assert exists i | 0 <= i < |powers| :: powers[i] > 2.0 * noise;
    } else {
      MeanBelowPeak(powers);
    }
  }

  lemma Fraction(c: nat, n: nat)
    requires c <= n && n > 0
    ensures 0.0 <= c as real / n as real <= 1.0
    ensures c as real / n as real > 0.0 <==> c > 0
  {
  }

  lemma {:induction false} TotalBelow(s: seq<real>, top: real)
    requires forall i | 0 <= i < |s| :: s[i] <= top
    ensures Total(s) <= Times(|s|, top)
  {
    TimesNext(0, top);
    if s != [] {
      hide Times;
      TotalBelow(s[..|s| - 1], top);
      TimesNext(|s| - 1, top);
    }
  }

  lemma MeanBelowPeak(s: seq<real>)
    requires s != [] && NonNegative(s)
    ensures Total(s) / |s| as real <= Peak(s)
  {
    hide Peak, Total;
    PeakIsGreatest(s);
    TotalBelow(s, Peak(s));
    var n, mean := |s| as real, Total(s) / |s| as real;
    assert n * mean == Total(s);
    Cancel(|s|, mean, Peak(s));
  }

  /** Silence anywhere in the window thins the active fraction and changes nothing else. */
  lemma SilenceOnlyThins(a: seq<real>, x: real, b: seq<real>, noise: real)
    requires a + b != [] && noise > 0.0 && x <= 2.0 * noise
    requires Reported(a + b, noise).activeFraction > 0.0
    ensures var m, m', n := Reported(a + b, noise), Reported(a + [x] + b, noise), |a + b| as real;
            && m' == m.(activeFraction := m'.activeFraction)
            && m'.activeFraction * (n + 1.0) == m.activeFraction * n
  {
    hide Gated, Peak, Total;
    GateSkips(a, x, b, noise * 2.0);
    Fraction(Gated(a + b, noise * 2.0).count, |a + b|);
  }

  // ---------------- the median ------------------------------------------

  predicate Ordered(s: seq<real>) {
    forall i, j | 0 <= i < j < |s| :: s[i] <= s[j]
  }

  function CountBelow(s: seq<real>, m: real): nat {
    if s == [] then 0 else (if s[0] < m then 1 else 0) + CountBelow(s[1..], m)
  }

  function CountAbove(s: seq<real>, m: real): nat {
    if s == [] then 0 else (if s[0] > m then 1 else 0) + CountAbove(s[1..], m)
  }

  lemma {:induction false} InsertedCounts(s: seq<real>, x: real, m: real)
    ensures CountBelow(Inserted(s, x), m) == CountBelow(s, m) + (if x < m then 1 else 0)
    ensures CountAbove(Inserted(s, x), m) == CountAbove(s, m) + (if x > m then 1 else 0)
  {
    if s == [] || x < s[0] {
      assert ([x] + s)[1..] == s;
    } else {
      InsertedCounts(s[1..], x, m);
      assert ([s[0]] + Inserted(s[1..], x))[1..] == Inserted(s[1..], x);
    }
  }

  lemma {:induction false} InsertedElements(s: seq<real>, x: real)
    ensures multiset(Inserted(s, x)) == multiset(s) + multiset{x}
  {
    if s != [] && x >= s[0] {
      InsertedElements(s[1..], x);
      assert s == [s[0]] + s[1..];
    }
  }

  lemma OrderedCons(head: real, s: seq<real>)
    requires Ordered(s) && forall y | y in s :: head <= y
    ensures Ordered([head] + s)
  {
    var r := [head] + s;
    forall i, j | 0 <= i < j < |r| ensures r[i] <= r[j] {
      assert r[j] == s[j - 1] && s[j - 1] in s;
      assert i > 0 ==> r[i] == s[i - 1];
    }
  }

  lemma {:induction false} InsertedKeeps(s: seq<real>, x: real)
    requires Ordered(s)
    ensures Ordered(Inserted(s, x))
    ensures multiset(Inserted(s, x)) == multiset(s) + multiset{x}
  {
    InsertedElements(s, x);
    if s == [] || x < s[0] {
      OrderedCons(x, s);
    } else {
      var head, rest := s[0], s[1..];
      InsertedKeeps(rest, x);
      var r := Inserted(rest, x);
      forall y | y in r ensures head <= y {
        assert y in multiset(r);
      }
      OrderedCons(head, r);
    }
  }

  lemma {:induction false} CountAppend(s: seq<real>, x: real, m: real)
    ensures CountBelow(s + [x], m) == CountBelow(s, m) + (if x < m then 1 else 0)
    ensures CountAbove(s + [x], m) == CountAbove(s, m) + (if x > m then 1 else 0)
  {
    if s == [] {
      assert [] + [x] == [x] && [x][1..] == [];
    } else {
      assert (s + [x])[1..] == s[1..] + [x];
      CountAppend(s[1..], x, m);
    }
  }

  lemma NothingOrdered()
    ensures Ordered([])
  {
  }

  lemma {:induction false} SortedKeeps(s: seq<real>, m: real)
    ensures Ordered(Sorted(s)) && multiset(Sorted(s)) == multiset(s)
    ensures CountBelow(Sorted(s), m) == CountBelow(s, m) && CountAbove(Sorted(s), m) == CountAbove(s, m)
  {
    hide Inserted, Ordered, CountBelow, CountAbove;
    if s == [] {
      assert Ordered([]) by { NothingOrdered(); }
    } else {
      var n := |s| - 1;
      SortedKeeps(s[..n], m);
      InsertedKeeps(Sorted(s[..n]), s[n]);
      InsertedCounts(Sorted(s[..n]), s[n], m);
      CountAppend(s[..n], s[n], m);
      assert s == s[..n] + [s[n]];
    }
  }

  lemma {:induction false} OrderedCounts(s: seq<real>, k: int, m: real)
    requires Ordered(s) && -1 <= k <= |s|
    ensures (forall i | 0 <= i < |s| && i >= k :: s[i] >= m) ==> CountBelow(s, m) <= Max(k, 0)
    ensures (forall i | 0 <= i < |s| && i <= k :: s[i] <= m) ==> CountAbove(s, m) <= Max(|s| - 1 - k, 0)
    decreases |s|
  {
    if s != [] {
      var rest := s[1..];
      assert forall i | 0 <= i < |rest| :: rest[i] == s[i + 1];
      OrderedCounts(rest, Max(k - 1, -1), m);
    }
  }

  /** The noise figure is a true median: a bin's power, with at most half the bins on either side. */
  lemma MedianSplits(s: seq<real>)
    requires s != []
    ensures var m := Median(s);
            && m in s && CountBelow(s, m) <= |s| / 2 && CountAbove(s, m) <= |s| - 1 - |s| / 2
  {
    hide CountBelow, CountAbove, Sorted;
    var m, k := Median(s), |s| / 2;
    SortedKeeps(s, m);
    assert m in multiset(Sorted(s));
    OrderedCounts(Sorted(s), k, m);
  }

  // ---------------- what the noise floor sees ---------------------------

  /** Two windows that differ only inside the guarded passband. */
  predicate SameOutside(f: seq<Frame>, g: seq<Frame>, b: Band)
    requires AreFrames(f) && AreFrames(g)
  {
    && |f| == |g|
    && forall i, k | 0 <= i < |f| && 0 <= k < FFT_SIZE && InNoise(b, k) :: f[i][Shifted(k)] == g[i][Shifted(k)]
  }

  lemma {:induction false} SameBinSum(f: seq<Frame>, g: seq<Frame>, b: Band, k: nat)
    requires AreFrames(f) && AreFrames(g) && SameOutside(f, g, b) && k < FFT_SIZE && InNoise(b, k)
    ensures BinSum(f, k) == BinSum(g, k)
  {
    hide InNoise, Shifted;
    if f != [] {
      var n := |f| - 1;
      SameBinSum(f[..n], g[..n], b, k);
      assert f[n][Shifted(k)] == g[n][Shifted(k)];
    }
  }

  lemma {:induction false} SameNoiseBins(f: seq<Frame>, g: seq<Frame>, b: Band, scale: real, n: nat)
    requires AreFrames(f) && AreFrames(g) && SameOutside(f, g, b) && n <= FFT_SIZE
    ensures NoiseBins(f, b, scale, n) == NoiseBins(g, b, scale, n)
    decreases n
  {
    hide InNoise, Shifted, BinSum, SameOutside;
    if n > 0 {
      SameNoiseBins(f, g, b, scale, n - 1);
      if InNoise(b, n - 1) {
        SameBinSum(f, g, b, n - 1);
      }
    }
  }

  /** No change of power inside the passband and its guard bins moves the noise floor. */
  lemma NoiseIgnoresTheSignal(f: seq<Frame>, g: seq<Frame>, b: Band, energy: real)
    requires AreFrames(f) && AreFrames(g) && f != [] && SameOutside(f, g, b) && energy > 0.0
    ensures NoisePower(f, b, energy) == NoisePower(g, b, energy)
  {
    hide NoiseBins, SameOutside;
    assert |f| == |g| by { SameLength(f, g, b); }
    SameNoiseBins(f, g, b, NoiseScale(|f|, energy), FFT_SIZE);
  }

  lemma SameLength(f: seq<Frame>, g: seq<Frame>, b: Band)
    requires AreFrames(f) && AreFrames(g) && SameOutside(f, g, b)
    ensures |f| == |g|
  {
  }

  // ---------------- the order of frames ---------------------------------

  lemma {:induction false} TotalSkips(a: seq<real>, x: real, b: seq<real>)
    ensures Total(a + [x] + b) == Total(a + b) + x
    ensures Peak(a + [x] + b) == Greater(Peak(a + b), x)
    decreases |b|
  {
    if b == [] {
      assert a + b == a;
      assert a + [x] + b == a + [x] && (a + [x])[..|a|] == a;
    } else {
      var n := |b| - 1;
      assert (a + b)[..|a + b| - 1] == a + b[..n];
      assert (a + [x] + b)[..|a + [x] + b| - 1] == a + [x] + b[..n];
      TotalSkips(a, x, b[..n]);
    }
  }

  lemma {:induction false} BinSumSkips(a: seq<Frame>, x: Frame, b: seq<Frame>, k: nat)
    requires AreFrames(a + [x] + b) && AreFrames(a + b) && IsFrame(x) && k < FFT_SIZE
    ensures BinSum(a + [x] + b, k) == BinSum(a + b, k) + x[Shifted(k)]
    decreases |b|
  {
    hide Shifted;
    if b == [] {
      assert a + b == a;
      assert a + [x] + b == a + [x] && (a + [x])[..|a|] == a;
    } else {
      var n := |b| - 1;
      assert (a + b)[..|a + b| - 1] == a + b[..n];
      assert (a + [x] + b)[..|a + [x] + b| - 1] == a + [x] + b[..n];
      BinSumSkips(a, x, b[..n], k);
    }
  }

  /** One element of a sequence, in the sequence as a whole and taken out of its rearrangement. */
  lemma {:induction false} TakenOut<T>(s: seq<T>, r: seq<T>) returns (a: seq<T>, b: seq<T>)
    requires s != [] && multiset(s) == multiset(r)
    ensures r == a + [s[|s| - 1]] + b && multiset(s[..|s| - 1]) == multiset(a + b)
  {
    var x, rest := s[|s| - 1], s[..|s| - 1];
    assert s == rest + [x];
    assert x in multiset(r);
    var i :| 0 <= i < |r| && r[i] == x;
    a, b := r[..i], r[i + 1..];
    assert r == a + [x] + b;
    assert multiset(r) == multiset(a) + multiset{x} + multiset(b);
    assert multiset(rest) == multiset(s) - multiset{x};
    assert multiset(a + b) == multiset(a) + multiset(b);
  }

  lemma {:induction false} SameReport(s: seq<real>, r: seq<real>, t: real)
    requires multiset(s) == multiset(r)
    ensures Gated(s, t) == Gated(r, t) && Total(s) == Total(r) && Peak(s) == Peak(r) && |s| == |r|
    decreases |s|
  {
    assert |s| == |multiset(s)| == |multiset(r)| == |r|;
    if s != [] {
      var a, b := TakenOut(s, r);
      var rest, x := s[..|s| - 1], s[|s| - 1];
      SameReport(rest, a + b, t);
      GateSkips(a, x, b, t);
      TotalSkips(a, x, b);
    }
  }

  lemma {:induction false} SameSum(s: seq<Frame>, r: seq<Frame>, k: nat)
    requires AreFrames(s) && AreFrames(r) && multiset(s) == multiset(r) && k < FFT_SIZE
    ensures BinSum(s, k) == BinSum(r, k)
    decreases |s|
  {
    hide Shifted, IsFrame;
    if s == [] {
      assert r == [] by { assert |multiset(r)| == 0; }
    } else {
      var a, b := TakenOut(s, r);
      var rest, x := s[..|s| - 1], s[|s| - 1];
      assert AreFrames(a + b) by {
        assert forall i | 0 <= i < |a + b| :: (a + b)[i] in r;
      }
      SameSum(rest, a + b, k);
      BinSumSkips(a, x, b, k);
    }
  }

  lemma {:induction false} SamePowers(s: seq<Frame>, r: seq<Frame>, b: Band, energy: real)
    requires AreFrames(s) && AreFrames(r) && multiset(s) == multiset(r) && energy > 0.0
    ensures multiset(Powers(s, b, energy)) == multiset(Powers(r, b, energy))
    decreases |s|
  {
    hide IsFrame, Power;
    if s == [] {
      assert r == [] by { assert |multiset(r)| == 0; }
    } else {
      var u, v := TakenOut(s, r);
      var rest, x := s[..|s| - 1], s[|s| - 1];
      assert AreFrames(u + v) by {
        assert forall i | 0 <= i < |u + v| :: (u + v)[i] in r;
      }
      SamePowers(rest, u + v, b, energy);
      var p := Power(x, b, energy);
      var pu, pv := Powers(u + v, b, energy)[..|u|], Powers(u + v, b, energy)[|u|..];
      assert Powers(s, b, energy) == Powers(rest, b, energy) + [p];
      assert Powers(r, b, energy) == pu + [p] + pv;
      assert Powers(u + v, b, energy) == pu + pv;
    }
  }

  lemma {:induction false} SameNoise(s: seq<Frame>, r: seq<Frame>, b: Band, scale: real, n: nat)
    requires AreFrames(s) && AreFrames(r) && multiset(s) == multiset(r) && n <= FFT_SIZE
    ensures NoiseBins(s, b, scale, n) == NoiseBins(r, b, scale, n)
    decreases n
  {
    hide InNoise, BinSum, IsFrame;
    if n > 0 {
      SameNoise(s, r, b, scale, n - 1);
      SameSum(s, r, n - 1);
    }
  }

  /** The frames of a window may come in any order. */
  lemma FrameOrderIsIrrelevant(s: seq<Frame>, r: seq<Frame>, b: Band, energy: real)
    requires AreFrames(s) && AreFrames(r) && multiset(s) == multiset(r) && energy > 0.0
    ensures Measured(s, b, energy) == Measured(r, b, energy)
  {
    hide NoiseBins, Powers, Gated, Total, Peak, IsFrame;
    assert |s| == |multiset(s)| == |multiset(r)| == |r|;
    if s != [] {
      SameNoise(s, r, b, NoiseScale(|s|, energy), FFT_SIZE);
      var noise := NoisePower(s, b, energy);
      if noise.Some? {
        SamePowers(s, r, b, energy);
        SameReport(Powers(s, b, energy), Powers(r, b, energy), noise.value * 2.0);
      }
    }
  }

  // ---------------- a measurement as a whole ----------------------------

  lemma {:induction false} BandSumNonNegative(f: Frame, b: Band, n: nat)
    requires IsFrame(f) && n <= FFT_SIZE
    ensures BandSum(f, b, n) >= 0.0
    decreases n
  {
    if n > 0 {
      BandSumNonNegative(f, b, n - 1);
    }
  }

  lemma PowersNonNegative(frames: seq<Frame>, b: Band, energy: real)
    requires AreFrames(frames) && energy > 0.0
    ensures NonNegative(Powers(frames, b, energy))
  {
    hide BandSum, IsFrame;
    forall i | 0 <= i < |frames| ensures Power(frames[i], b, energy) >= 0.0 {
      BandSumNonNegative(frames[i], b, FFT_SIZE);
    }
  }

  /** Whatever the frames, a measurement obeys the laws of the gate. */
  lemma MeasurementIsGated(frames: seq<Frame>, b: Band, energy: real)
    requires AreFrames(frames) && energy > 0.0 && Measured(frames, b, energy).Some?
    ensures var m, powers := Measured(frames, b, energy).value, Powers(frames, b, energy);
            && 0.0 <= m.activeFraction <= 1.0 && m.noise >= FLOOR && m.average <= m.peak
            && (m.activeFraction > 0.0 <==> exists i | 0 <= i < |frames| :: powers[i] > 2.0 * m.noise)
            && (m.activeFraction > 0.0 ==>
                  && 2.0 * m.noise < m.average && m.peak == Peak(powers)
                  && m.average >= Total(powers) / |frames| as real)
            && (m.activeFraction == 0.0 ==> m.peak <= 2.0 * m.noise)
  {
    hide NoiseBins, Powers, Reported, Total, Peak, IsFrame;
    PowersNonNegative(frames, b, energy);
    ReportedBounds(Powers(frames, b, energy), NoisePower(frames, b, energy).value);
  }
}
