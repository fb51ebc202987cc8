/**
 The capture loop: samples arrive in reads of any size, are cut into frames
 for the analyzer, and run through a ring that the waterfall is drawn from.

 The transforms are parameters: `spectrum` gives the bin powers of a windowed
 frame, `transform` the bins of a waterfall row.
 */
module Worker {
  import opened Arithmetic
  import opened Results
  import opened Measure
  import opened Text

  datatype Complex = Complex(re: real, im: real)

  const WATERFALL_FFT_N: nat := 1024

  // ---------------- the waterfall ---------------------------------------

  /** The ring from `pos` on, wrapping around: oldest sample first. */
  function Linearized(ring: seq<Complex>, pos: nat): seq<Complex>
    requires |ring| == WATERFALL_FFT_N
  {
    seq(WATERFALL_FFT_N, i requires 0 <= i => ring[(pos + i) % WATERFALL_FFT_N])
  }

  function Windowed(samples: seq<Complex>, hann: seq<real>): seq<Complex>
    requires |samples| == |hann|
  {
    seq(|samples|, i requires 0 <= i < |samples| => Complex(samples[i].re * hann[i], samples[i].im * hann[i]))
  }

  function NormSquared(c: Complex): real {
    c.re * c.re + c.im * c.im
  }

  /** A waterfall row over 1024 consecutive samples: negative frequencies first. */
  function Row(samples: seq<Complex>, hann: seq<real>, transform: seq<Complex> -> seq<Complex>): seq<real>
    requires |samples| == |hann| == WATERFALL_FFT_N && KeepsLength(transform)
  {
    var bins := transform(Windowed(samples, hann));
    seq(WATERFALL_FFT_N, i requires 0 <= i < WATERFALL_FFT_N =>
      NormSquared(bins[(i + WATERFALL_FFT_N / 2) % WATERFALL_FFT_N]))
  }

  /**
   Frequencies rise along a row: bin `k` of the transform stands for frequency
   `k`, or for `k - 1024` from the middle on, and place `f + 512` of the row
   shows frequency `f`, for -512 <= f < 512.
   */
  lemma RowRunsUpwards(samples: seq<Complex>, hann: seq<real>, transform: seq<Complex> -> seq<Complex>, k: nat,
                       windowed: seq<Complex>)
    requires |samples| == |hann| == |windowed| == 1024 && KeepsLength(transform) && k < 1024
    requires forall i | 0 <= i < 1024 :: windowed[i] == Complex(samples[i].re * hann[i], samples[i].im * hann[i])
    ensures |transform(windowed)| == 1024
    ensures var bin, f := transform(windowed)[k], if k < 512 then k else k - 1024;
            Row(samples, hann, transform)[f + 512] == bin.re * bin.re + bin.im * bin.im
  {
    assert windowed == Windowed(samples, hann) by { WindowedIs(samples, hann, windowed); }
    hide Windowed;
    var place := (if k < 512 then k else k - 1024) + 512;
    assert (place + 512) % 1024 == k;
    assert Row(samples, hann, transform)[place] == NormSquared(transform(windowed)[k]);
  }

  lemma WindowedIs(samples: seq<Complex>, hann: seq<real>, windowed: seq<Complex>)
    requires |samples| == |hann| == |windowed|
    requires forall i | 0 <= i < |windowed| ::
               windowed[i] == Complex(samples[i].re * hann[i], samples[i].im * hann[i])
    ensures windowed == Windowed(samples, hann)
  {
    forall i | 0 <= i < |windowed| ensures windowed[i] == Windowed(samples, hann)[i] {
    }
  }

  ghost predicate KeepsLength(transform: seq<Complex> -> seq<Complex>) {
    forall s :: |transform(s)| == |s|
  }

  method ComputeWaterfallBins(ring: array<Complex>, pos: nat, hann: seq<real>,
                              transform: seq<Complex> -> seq<Complex>)
    returns (bins: seq<real>)
    requires ring.Length == WATERFALL_FFT_N && pos < WATERFALL_FFT_N
    requires |hann| == WATERFALL_FFT_N && KeepsLength(transform)
    ensures bins == Row(Linearized(ring[..], pos), hann, transform)
  {
    var work: seq<Complex> := [];
    ghost var oldestFirst := Linearized(ring[..], pos);
    for i := 0 to |hann|
      invariant |work| == i
      invariant forall k | 0 <= k < i :: work[k] == Windowed(oldestFirst, hann)[k]
    {
      var idx := (pos + i) % WATERFALL_FFT_N;
      var s := ring[idx];
      assert s == oldestFirst[i];
      work := work + [Complex(s.re * hann[i], s.im * hann[i])];
    }
    assert work == Windowed(oldestFirst, hann);
    work := transform(work);
    bins := [];
    var half := WATERFALL_FFT_N / 2;
    for i := half to WATERFALL_FFT_N
      invariant |bins| == i - half
      invariant forall k | 0 <= k < i - half :: bins[k] == NormSquared(work[k + half])
    {
      bins := bins + [NormSquared(work[i])];
    }
    for i := 0 to half
      invariant |bins| == half + i
      invariant forall k | 0 <= k < half + i :: bins[k] == NormSquared(work[(k + half) % WATERFALL_FFT_N])
    {
      bins := bins + [NormSquared(work[i])];
    }
  }

  class Waterfall {
    const ring: array<Complex>
    const hann: seq<real>
    const emitEvery: nat
    const transform: seq<Complex> -> seq<Complex>
    var pos: nat
    var filled: nat
    var sinceEmit: nat
    /** Every row sent so far. */
    var rows: seq<seq<real>>
    /** Every sample since the ring was made. */
    ghost var history: seq<Complex>
    /** How many samples there were when each row was sent. */
    ghost var ends: seq<nat>

    /** Before it is full the ring holds all samples, then the last 1024. */
    ghost predicate RingValid()
      reads this, ring
    {
      && ring.Length == WATERFALL_FFT_N
      && filled == Min(|history|, WATERFALL_FFT_N)
      && pos == |history| % WATERFALL_FFT_N
      && forall j | |history| - filled <= j < |history| :: ring[j % WATERFALL_FFT_N] == history[j]
    }

    /** The first row is sent once the ring is full, and then one every `emitEvery` samples. */
    ghost predicate OnTime()
      reads this
    {
      && (ends == [] ==> sinceEmit == |history| < Max(emitEvery, WATERFALL_FFT_N))
      && (ends != [] ==>
            && ends[0] == Max(emitEvery, WATERFALL_FFT_N)
            && sinceEmit == |history| - ends[|ends| - 1] && sinceEmit < Max(emitEvery, 1))
      && forall i | 0 < i < |ends| :: ends[i] == ends[i - 1] + Max(emitEvery, 1)
    }

    /** Each row is drawn from exactly the last 1024 samples of its time, in order. */
    ghost predicate RowsValid()
      reads this
    {
      && |hann| == WATERFALL_FFT_N && KeepsLength(transform) && |rows| == |ends|
      && forall i | 0 <= i < |ends| ::
           WATERFALL_FFT_N <= ends[i] <= |history| && rows[i] == RowAt(history, ends[i])
    }

    /** The row over the 1024 samples before `end`. */
    ghost function RowAt(h: seq<Complex>, end: nat): seq<real>
      requires |hann| == WATERFALL_FFT_N && KeepsLength(transform) && WATERFALL_FFT_N <= end <= |h|
    {
      Row(h[end - WATERFALL_FFT_N..end], hann, transform)
    }

    lemma RowAtGrows(h: seq<Complex>, s: Complex, end: nat)
      requires |hann| == WATERFALL_FFT_N && KeepsLength(transform) && WATERFALL_FFT_N <= end <= |h|
      ensures RowAt(h + [s], end) == RowAt(h, end)
    {
      assert (h + [s])[end - WATERFALL_FFT_N..end] == h[end - WATERFALL_FFT_N..end];
    }

    ghost predicate Valid()
      reads this, ring
    {
      RingValid() && OnTime() && RowsValid()
    }

    constructor (hann: seq<real>, emitEvery: nat, transform: seq<Complex> -> seq<Complex>)
      requires |hann| == WATERFALL_FFT_N && KeepsLength(transform)
      ensures Valid() && history == [] && rows == [] && fresh(ring)
      ensures this.emitEvery == emitEvery
    {
      this.hann := hann;
      this.emitEvery := emitEvery;
      this.transform := transform;
      ring := new Complex[WATERFALL_FFT_N](_ => Complex(0.0, 0.0));
      pos, filled, sinceEmit := 0, 0, 0;
      rows, history, ends := [], [], [];
    }

    /** Put one sample into the ring. */
    method Store(s: Complex)
      requires RingValid()
      modifies this`pos, this`filled, this`history, ring
      ensures RingValid() && history == old(history) + [s]
    {
      ring[pos] := s;
      pos := (pos + 1) % WATERFALL_FFT_N;
      if filled < WATERFALL_FFT_N {
        filled := filled + 1;
      }
      ghost var before := history;
      history := history + [s];
      forall j | |history| - filled <= j < |history| ensures ring[j % WATERFALL_FFT_N] == history[j] {
        if j < |before| {
          Apart(j, |before|);
        }
      }
    }

    /** Send the row the ring holds. */
    method Emit()
      requires RingValid() && RowsValid() && filled == WATERFALL_FFT_N
      modifies this`rows, this`ends
      ensures RowsValid() && ends == old(ends) + [|history|] && old(rows) <= rows
    {
      hide Row, Linearized;
      FullRing();
      var bins := ComputeWaterfallBins(ring, pos, hann, transform);
      assert history[|history| - WATERFALL_FFT_N..|history|] == history[|history| - WATERFALL_FFT_N..];
      rows := rows + [bins];
      ends := ends + [|history|];
    }

    method Push(s: Complex)
      requires Valid()
      modifies this, ring
      ensures Valid() && history == old(history) + [s]
      ensures old(rows) <= rows
    {
      hide RowAt, KeepsLength;
      forall i | 0 <= i < |ends| ensures RowAt(history + [s], ends[i]) == RowAt(history, ends[i]) {
        RowAtGrows(history, s, ends[i]);
      }
      Store(s);
      sinceEmit := sinceEmit + 1;
      if sinceEmit >= emitEvery && filled >= WATERFALL_FFT_N {
        sinceEmit := 0;
        Emit();
      }
    }

    /**
     When each row was sent, how many there are by now, and what each shows:
     the first one as soon as there are 1024 samples, at least `emitEvery`, and
     then one every `emitEvery` samples, over the 1024 samples before it.
     */
    lemma RowsComeOnTime(i: nat)
      requires OnTime() && RowsValid() && i < |rows|
      ensures ends[i] == Max(emitEvery, 1024) + i * Max(emitEvery, 1) <= |history|
      ensures rows[i] == Row(history[ends[i] - 1024..ends[i]], hann, transform)
    {
      hide Row, KeepsLength, Max;
      EndsAreSpaced(i);
      assert rows[i] == RowAt(history, ends[i]);
    }

    lemma {:induction false} EndsAreSpaced(i: nat)
      requires OnTime() && i < |ends|
      ensures ends[i] == Max(emitEvery, 1024) + i * Max(emitEvery, 1)
    {
      if i > 0 {
        EndsAreSpaced(i - 1);
        assert i * Max(emitEvery, 1) == (i - 1) * Max(emitEvery, 1) + Max(emitEvery, 1);
      }
    }

    /** No row is late: before the next one is due there have been too few samples for it. */
    lemma NoRowIsLate()
      requires OnTime() && RowsValid()
      ensures |history| < Max(emitEvery, 1024) + |rows| * Max(emitEvery, 1)
    {
      hide Row;
      if ends != [] {
        EndsAreSpaced(|ends| - 1);
        assert |ends| * Max(emitEvery, 1) == (|ends| - 1) * Max(emitEvery, 1) + Max(emitEvery, 1);
      }
    }

    /** Once filled, the ring read from `pos` is exactly the last 1024 samples in order. */
    lemma FullRing()
      requires RingValid() && filled == WATERFALL_FFT_N
      ensures |history| >= WATERFALL_FFT_N
      ensures Linearized(ring[..], pos) == history[|history| - WATERFALL_FFT_N..]
    {
      var last := |history| - WATERFALL_FFT_N;
      var l := Linearized(ring[..], pos);
      forall i | 0 <= i < WATERFALL_FFT_N ensures l[i] == history[last + i] {
        SameSlot(last, i);
        assert ring[(last + i) % WATERFALL_FFT_N] == history[last + i];
      }
    }
  }

  /** Fewer than 1024 samples apart is a different slot. */
  lemma Apart(a: nat, b: nat)
    requires a < b < a + WATERFALL_FFT_N
    ensures a % WATERFALL_FFT_N != b % WATERFALL_FFT_N
  {
  }

  lemma SameSlot(last: nat, i: nat)
    ensures ((last + WATERFALL_FFT_N) % WATERFALL_FFT_N + i) % WATERFALL_FFT_N == (last + i) % WATERFALL_FFT_N
  {
  }

  // ---------------- framing ---------------------------------------------

  /** The full frames of a stretch of samples, in order. */
  function FramesOf(s: seq<Complex>): seq<seq<Complex>> {
    if |s| < FFT_SIZE then [] else [s[..FFT_SIZE]] + FramesOf(s[FFT_SIZE..])
  }

  /** What is left behind the last full frame. */
  function LeftOf(s: seq<Complex>): seq<Complex> {
    if |s| < FFT_SIZE then s else LeftOf(s[FFT_SIZE..])
  }

  function Flattened(frames: seq<seq<Complex>>): seq<Complex> {
    if frames == [] then [] else frames[0] + Flattened(frames[1..])
  }

  predicate AreFull(frames: seq<seq<Complex>>) {
    forall i | 0 <= i < |frames| :: |frames[i]| == FFT_SIZE
  }

  /** Framing loses nothing, repeats nothing and keeps the order. */
  lemma {:induction false} FramingKeeps(s: seq<Complex>)
    ensures Flattened(FramesOf(s)) + LeftOf(s) == s
    ensures AreFull(FramesOf(s)) && |LeftOf(s)| < FFT_SIZE
    ensures |FramesOf(s)| == |s| / FFT_SIZE
    decreases |s|
  {
    if |s| < FFT_SIZE {
      assert [] + s == s;
    } else {
      var head, rest := s[..FFT_SIZE], s[FFT_SIZE..];
      FramingKeeps(rest);
      assert FramesOf(s)[1..] == FramesOf(rest);
      Regroup(head, Flattened(FramesOf(rest)), LeftOf(rest));
      assert head + rest == s;
    }
  }

  /** One more full frame, ready at the end. */
  lemma {:induction false} FrameAtEnd(s: seq<Complex>, frame: seq<Complex>)
    requires |s| % FFT_SIZE == 0 && |frame| == FFT_SIZE
    ensures FramesOf(s + frame) == FramesOf(s) + [frame] && LeftOf(s + frame) == []
    decreases |s|
  {
    if s == [] {
      assert s + frame == frame && frame[..FFT_SIZE] == frame && frame[FFT_SIZE..] == [];
      assert FramesOf([]) == [];
    } else {
      var head, rest := s[..FFT_SIZE], s[FFT_SIZE..];
      FrameAtEnd(rest, frame);
      assert (s + frame)[..FFT_SIZE] == head && (s + frame)[FFT_SIZE..] == rest + frame;
      Regroup([head], FramesOf(rest), [frame]);
    }
  }

  /** Too few samples for another frame change only what is left over. */
  lemma {:induction false} PartAtEnd(s: seq<Complex>, part: seq<Complex>)
    requires |s| % FFT_SIZE == 0 && |part| < FFT_SIZE
    ensures FramesOf(s + part) == FramesOf(s) && LeftOf(s + part) == part
    decreases |s|
  {
    if s == [] {
      assert s + part == part;
    } else {
      assert (s + part)[..FFT_SIZE] == s[..FFT_SIZE] && (s + part)[FFT_SIZE..] == s[FFT_SIZE..] + part;
      PartAtEnd(s[FFT_SIZE..], part);
    }
  }

  ghost predicate GivesFrames(spectrum: seq<Complex> -> Frame) {
    forall s :: |s| == FFT_SIZE ==> IsFrame(spectrum(s))
  }

  function Spectra(frames: seq<seq<Complex>>, spectrum: seq<Complex> -> Frame): (r: seq<Frame>)
    ensures |r| == |frames|
  {
    seq(|frames|, i requires 0 <= i < |frames| => spectrum(frames[i]))
  }

  /** What a window that reads `samples` measures. */
  ghost function WindowMeasured(samples: seq<Complex>, spectrum: seq<Complex> -> Frame, b: Band, energy: real)
    : Option<Measurement>
    requires GivesFrames(spectrum) && energy > 0.0
  {
    FramingKeeps(samples);
    Measured(Spectra(FramesOf(samples), spectrum), b, energy)
  }

  /** What one read took in: all of it went through the ring. */
  method Feed(waterfall: Waterfall, chunk: seq<Complex>)
    requires waterfall.Valid()
    modifies waterfall, waterfall.ring
    ensures waterfall.Valid() && waterfall.history == old(waterfall.history) + chunk
  {
    hide *;
    ghost var before := waterfall.history;
    for i := 0 to |chunk|
      invariant waterfall.Valid() && waterfall.history == before + chunk[..i]
    {
      waterfall.Push(chunk[i]);
      Regroup(before, chunk[..i], [chunk[i]]);
      assert chunk[..i] + [chunk[i]] == chunk[..i + 1];
    }
    assert chunk[..|chunk|] == chunk;
  }

  lemma NothingFramed(spectrum: seq<Complex> -> Frame)
    ensures FramesOf([]) == [] && Spectra(FramesOf([]), spectrum) == []
  {
  }

  lemma OneMoreFrame(framed: seq<Complex>, frame: seq<Complex>, spectrum: seq<Complex> -> Frame)
    requires |framed| % FFT_SIZE == 0 && |frame| == FFT_SIZE && GivesFrames(spectrum)
    ensures Spectra(FramesOf(framed + frame), spectrum) == Spectra(FramesOf(framed), spectrum) + [spectrum(frame)]
    ensures IsFrame(spectrum(frame))
  {
    FrameAtEnd(framed, frame);
  }

  lemma WindowIs(framed: seq<Complex>, part: seq<Complex>, spectrum: seq<Complex> -> Frame, b: Band, energy: real)
    requires |framed| % FFT_SIZE == 0 && |part| < FFT_SIZE && GivesFrames(spectrum) && energy > 0.0
    ensures LeftOf(framed + part) == part
    ensures AreFrames(Spectra(FramesOf(framed), spectrum))
    ensures WindowMeasured(framed + part, spectrum, b, energy) ==
            Measured(Spectra(FramesOf(framed), spectrum), b, energy)
  {
    PartAtEnd(framed, part);
    FramingKeeps(framed);
  }

  /** Process complete frames out of the buffer. */
  method DrainFrames(analyzer: SpectrumAnalyzer, ghost framed: seq<Complex>, buffer: seq<Complex>,
                     spectrum: seq<Complex> -> Frame)
    returns (ghost framed': seq<Complex>, frameBuf: seq<Complex>)
    requires analyzer.Valid() && analyzer.windowOpen && GivesFrames(spectrum)
    requires |framed| % FFT_SIZE == 0 && analyzer.frames == Spectra(FramesOf(framed), spectrum)
    modifies analyzer, analyzer.psdSum
    ensures analyzer.Valid() && analyzer.windowOpen && analyzer.View() == old(analyzer.View())
    ensures |framed'| % FFT_SIZE == 0 && analyzer.frames == Spectra(FramesOf(framed'), spectrum)
    ensures |frameBuf| < FFT_SIZE && framed' + frameBuf == framed + buffer
  {
    hide Spectra, GivesFrames, FramesOf;
    framed', frameBuf := framed, buffer;
    while |frameBuf| >= FFT_SIZE
      invariant analyzer.Valid() && analyzer.windowOpen && analyzer.View() == old(analyzer.View())
      invariant |framed'| % FFT_SIZE == 0 && analyzer.frames == Spectra(FramesOf(framed'), spectrum)
      invariant framed' + frameBuf == framed + buffer
      decreases |frameBuf|
    {
      var frame := frameBuf[..FFT_SIZE];
      OneMoreFrame(framed', frame, spectrum);
      var power := analyzer.AddFrame(spectrum(frame));
      frameBuf := frameBuf[FFT_SIZE..];
      Regroup(framed', frame, frameBuf);
      framed' := framed' + frame;
    }
  }

  /**
   One measurement window of `run_inner`. Read number `i` returns at most
   `counts[i]` samples of the stream, 0 standing for a read that timed out. The
   measurement is the batch one over the full frames of exactly the samples
   read, whatever the sizes of the reads; the rest of a frame is dropped.
   */
  method CaptureWindow(analyzer: SpectrumAnalyzer, waterfall: Waterfall, offsetHz: real, widthHz: real,
                       stream: seq<Complex>, counts: seq<nat>, mtu: nat, spectrum: seq<Complex> -> Frame)
    returns (m: Option<Measurement>, used: nat, frameBuf: seq<Complex>)
    requires analyzer.Valid() && waterfall.Valid() && GivesFrames(spectrum)
    modifies analyzer, analyzer.psdSum, waterfall, waterfall.ring
    ensures analyzer.Valid() && waterfall.Valid() && used <= |stream|
    ensures waterfall.history == old(waterfall.history) + stream[..used]
    ensures frameBuf == LeftOf(stream[..used]) && |frameBuf| < FFT_SIZE
    ensures m == WindowMeasured(stream[..used], spectrum, BandFor(analyzer.sampleRate, offsetHz, widthHz),
                                analyzer.windowEnergy)
  {
    hide BandFor, Measured, Spectra, GivesFrames, FramesOf, LeftOf, AreFrames, WindowMeasured, Waterfall.Valid;
    analyzer.StartWindow(offsetHz, widthHz);
    used, frameBuf := 0, [];
    ghost var framed: seq<Complex> := [];
    ghost var band, before := BandFor(analyzer.sampleRate, offsetHz, widthHz), waterfall.history;
    NothingFramed(spectrum);
    for i := 0 to |counts|
      invariant used <= |stream| && |frameBuf| < FFT_SIZE
      invariant |framed| % FFT_SIZE == 0 && framed + frameBuf == stream[..used]
      invariant analyzer.Valid() && analyzer.windowOpen && analyzer.View() == band
      invariant analyzer.frames == Spectra(FramesOf(framed), spectrum)
      invariant waterfall.Valid() && waterfall.history == before + stream[..used]
    {
      var want := Min(FFT_SIZE - |frameBuf|, mtu);
      var n := Min(Min(counts[i], want), |stream| - used);
      if n == 0 { continue; }
      var chunk := stream[used..used + n];
      Regroup(before, stream[..used], chunk);
      Regroup(framed, frameBuf, chunk);
      assert stream[..used] + chunk == stream[..used + n];
      Feed(waterfall, chunk);
      used := used + n;
      framed, frameBuf := DrainFrames(analyzer, framed, frameBuf + chunk, spectrum);
    }
    m := analyzer.Finalize();
    WindowIs(framed, frameBuf, spectrum, band, analyzer.windowEnergy);
  }
}
