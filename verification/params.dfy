/** The derived parameters of the run (create_cube.py:164-196).

    The user-facing settings are the file duration in seconds, the sampling
    rate, the processed stretch of cable in metres, the frequency cutoff and
    the frequency resolution.  Everything the workers use is derived from
    them once: the channel index range, the window length in samples, the
    number of half-overlapping windows per file and the number of kept bins.
 */
module Params {
  import opened Outcomes

  /** Samples per source file, hard-coded as `30000` at create_cube.py:134. */
  const SamplesPerFile := 30000

  /** Metres of cable between two neighbouring channels (create_cube.py:181-182). */
  const ChannelSpacing := 4

  /** The settings at create_cube.py:164-171. */
  datatype Config = Config(
    fileLength: nat,  // `file_length`, seconds of data per file
    nu: nat,          // `nu`, sampling frequency in Hz
    locA: nat,        // `loc_a`, first processed metre of cable
    locE: nat,        // `loc_e`, end of the processed stretch (exclusive)
    freqMax: nat,     // `freq_max`, highest kept frequency in Hz
    df: real)         // `d_f`, frequency resolution in Hz

  /** The values computed at create_cube.py:182-194. */
  datatype Derived = Derived(
    indA: nat,       // first channel row
    indE: nat,       // end of the channel rows (exclusive)
    segLength: nat,  // window duration in seconds
    indF: nat,       // number of kept frequency bins
    segLen: nat,     // window length in samples
    nseg: nat)       // windows per file

  /** Python's `int` on a positive float: truncation, which is the floor. */
  function TruncPositive(x: real): (n: nat)
    requires x > 0.0
    ensures n as real <= x < n as real + 1.0
  {
    x.Floor
  }

  /** create_cube.py:182-194; `file_length // seg_length` divides by zero when
      the resolution is coarser than 1 Hz. */
  function Derive(c: Config): (r: Result<Derived>)
    requires c.df > 0.0
    ensures r.Err? <==> c.df > 1.0
    ensures r.Err? ==> r.fault == ZeroDivisionError
    ensures r.Ok? ==> var d := r.value;
      && ChannelSpacing * d.indA <= c.locA < ChannelSpacing * (d.indA + 1)
      && ChannelSpacing * d.indE <= c.locE < ChannelSpacing * (d.indE + 1)
      && d.segLength >= 1
      && (d.segLength as real) * c.df <= 1.0 < (d.segLength as real + 1.0) * c.df
      && d.segLen == d.segLength * c.nu
      && d.indF == d.segLength * c.freqMax + 1
      && d.nseg % 2 == 0
      && (d.nseg / 2) * d.segLength <= c.fileLength < (d.nseg / 2 + 1) * d.segLength
  {
    var segLength := TruncPositive(1.0 / c.df);
    assert c.df > 1.0 <==> segLength == 0 by {
      if c.df > 1.0 {
        assert 1.0 / c.df < 1.0;
      } else {
        assert 1.0 / c.df >= 1.0;
      }
    }
    if segLength == 0 then Err(ZeroDivisionError)
    else
      assert (segLength as real) * c.df <= 1.0 < (segLength as real + 1.0) * c.df by {
        var x := 1.0 / c.df;
        var y := segLength as real + 1.0;
        assert x * c.df == 1.0;
        ScaleLe(segLength as real, x, c.df);
        ScaleLt(x, y, c.df);
      }
      Ok(Derived(
        indA := c.locA / ChannelSpacing,
        indE := c.locE / ChannelSpacing,
        segLength := segLength,
        indF := segLength * c.freqMax + 1,
        segLen := segLength * c.nu,
        nseg := 2 * (c.fileLength / segLength)))
  }

  /** The derivations up to create_cube.py:196: after `Derive`, the sample
      spacing `1/nu` of the `rfftfreq` call divides by zero for a sampling
      rate of 0.  The frequency axis itself is never stored and is not modelled. */
  function Prepare(c: Config): (r: Result<Derived>)
    requires c.df > 0.0
    ensures r.Err? <==> c.df > 1.0 || c.nu == 0
    ensures r.Err? ==> r.fault == ZeroDivisionError
    ensures r.Ok? ==> Derive(c) == r
  {
    match Derive(c)
    case Err(e) => Err(e)
    case Ok(d) => if c.nu == 0 then Err(ZeroDivisionError) else Ok(d)
  }

  /** `np.arange(loc_a, loc_e, 4)` (create_cube.py:195): the metre mark of every channel. */
  function LocationCoords(locA: int, locE: int): (r: seq<int>)
    ensures forall k :: 0 <= k < |r| ==> locA <= r[k] < locE
    ensures forall k :: 0 <= k && k + 1 < |r| ==> r[k + 1] - r[k] == ChannelSpacing
    ensures forall x :: locA <= x < locE && (x - locA) % ChannelSpacing == 0 ==> x in r
  {
    var n := if locE > locA then (locE - locA + ChannelSpacing - 1) / ChannelSpacing else 0;
    var r := seq(n, k => locA + ChannelSpacing * k);
    assert forall x :: locA <= x < locE && (x - locA) % ChannelSpacing == 0 ==> x in r by {
      forall x | locA <= x < locE && (x - locA) % ChannelSpacing == 0
        ensures x in r
      {
        var k := (x - locA) / ChannelSpacing;
        assert r[k] == x;
      }
    }
    r
  }

  /** On a stretch starting and ending on channel boundaries there is exactly one
      coordinate per processed channel row. */
  lemma CoordsMatchChannels(c: Config, d: Derived)
    requires c.df > 0.0 && Derive(c) == Ok(d)
    requires c.locA <= c.locE
    requires c.locA % ChannelSpacing == 0 && c.locE % ChannelSpacing == 0
    ensures |LocationCoords(c.locA, c.locE)| == d.indE - d.indA
  {
  }

  /** An example outside the source's settings: an end at 9202 m, between two
      channels, adds a coordinate without a channel row. */
  lemma CoordsOutnumberChannels()
    ensures Derive(Config(30, 1000, 0, 9202, 100, 1.0)).Ok?
    ensures var d := Derive(Config(30, 1000, 0, 9202, 100, 1.0)).value;
      |LocationCoords(0, 9202)| == d.indE - d.indA + 1
  {
  }

  /** The windowing assumptions under which one file's windows tile its samples:
      the file holds `file_length * nu` samples, the window duration divides the
      file duration and the window length in samples is even. */
  predicate Tiles(c: Config, d: Derived)
  {
    && c.fileLength * c.nu == SamplesPerFile
    && d.segLength >= 1
    && c.fileLength % d.segLength == 0
    && d.segLen == d.segLength * c.nu
    && d.segLen % 2 == 0
    && d.nseg == 2 * (c.fileLength / d.segLength)
  }

  /** The hop between window starts, `seg_len // 2`. */
  function Hop(d: Derived): nat
  {
    d.segLen / 2
  }

  /** Under `Tiles`, the `nseg` hops of a file cover its samples exactly, so the
      last window ends at the end of the buffer extended by `30000 // nseg`
      samples of the next file. */
  lemma HopsCoverFile(c: Config, d: Derived)
    requires Tiles(c, d)
    ensures d.nseg >= 2 && Hop(d) >= 1
    ensures d.nseg * Hop(d) == SamplesPerFile
    ensures SamplesPerFile / d.nseg == Hop(d)
    ensures (d.nseg + 1) * Hop(d) == SamplesPerFile + SamplesPerFile / d.nseg
  {
    var files := c.fileLength / d.segLength;
    assert c.fileLength == files * d.segLength;
    assert c.nu >= 1;
    assert files >= 1;
    assert d.segLen == 2 * Hop(d);
    calc {
      d.nseg * Hop(d);
      2 * files * Hop(d);
      files * d.segLen;
      files * d.segLength * c.nu;
      c.fileLength * c.nu;
    }
    assert d.segLen >= 2 by {
      assert d.segLength * c.nu >= 1;
    }
    DivDecompose(d.nseg * Hop(d), d.nseg, Hop(d), 0);
  }

  lemma ScaleLe(x: real, y: real, f: real)
    requires x <= y && f > 0.0
    ensures x * f <= y * f
  {
  }

  lemma ScaleLt(x: real, y: real, f: real)
    requires x < y && f > 0.0
    ensures x * f < y * f
  {
  }

  /** The settings of the source: 30 s files at 1 kHz, 9.2 km of cable, 1 Hz
      resolution up to 100 Hz give channels 0..2299, 1000-sample windows, 60
      windows per file and 101 bins, and they satisfy `Tiles`. */
  lemma SourceSettings()
    ensures var c := Config(30, 1000, 0, 9200, 100, 1.0);
      && Derive(c) == Ok(Derived(0, 2300, 1, 101, 1000, 60))
      && Tiles(c, Derive(c).value)
  {
  }
}
