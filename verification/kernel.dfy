/** channel_fourier (create_cube.py:82-106): cutting one file's sample array
    into half-overlapping windows and filling the spectrogram block
    `[segment][channel][bin]`.

    The numerics are abstract.  The Tukey taper, `np.fft.rfft`, `np.abs` and
    `modified_log` with its squaring (create_cube.py:101-102, 109-110, 138)
    are one opaque function `bin(series, k)`: the value the source stores in
    bin `k` for the channel time series `series` of one window.  Note that
    line 102 stores `(10 * log|X|)^2`, which is not the log-power
    `10 * log(|X|^2)`; the model does not depend on which of the two it is.

    What the model does keep is everything integer: which samples land in
    which window (numpy slices clamp at the end of the array), which channel
    rows are selected, how many bins `rfft` yields (`seg_len // 2 + 1`), the
    zeroed bin 0, and every numpy shape check that can abort the call.
 */
module Kernel {
  import opened Outcomes

  /** A 2-D numpy array of samples: `rows[t][ch]` is sample `t` of channel `ch`. */
  datatype Grid = Grid(width: nat, rows: seq<seq<real>>)
  {
    predicate Rectangular()
    {
      forall t :: 0 <= t < |rows| ==> |rows[t]| == width
    }
  }

  /** numpy arrays are rectangular by construction. */
  type Matrix = m: Grid | m.Rectangular() witness Grid(0, [])

  /** A 3-D float64 array `[segment][channel][bin]`. */
  type Block = seq<seq<seq<real>>>

  /** The value stored in bin `k` for a channel's window series (taper, `rfft`,
      magnitude, `modified_log`, squaring), kept abstract. */
  type BinValue = (seq<real>, nat) -> real

  /** Python's `rows[a:b]` for non-negative bounds: both bounds clamp to the length. */
  function SliceRows(rows: seq<seq<real>>, a: nat, b: nat): (w: seq<seq<real>>)
    ensures a <= b <= |rows| ==> w == rows[a..b]
    ensures a <= b && a <= |rows| ==> w == rows[a .. Min(b, |rows|)]
    ensures b <= a || |rows| <= a ==> w == []
    ensures forall t :: 0 <= t < |w| ==> w[t] in rows
  {
    var lo := Min(a, |rows|);
    var hi := Min(b, |rows|);
    if lo <= hi then rows[lo..hi] else []
  }

  /** Window `j` of a sample sequence: `data[j*hop:(j+2)*hop]`. */
  function RowWindow(rows: seq<seq<real>>, j: nat, hop: nat): (w: seq<seq<real>>)
    ensures forall t :: 0 <= t < |w| ==> w[t] in rows
  {
    SliceRows(rows, j * hop, (j + 2) * hop)
  }

  /** Window `j` of the array: `data[j*(seg_len//2):(j+2)*(seg_len//2)]` (create_cube.py:85). */
  function Window(m: Matrix, j: nat, hop: nat): (w: seq<seq<real>>)
    ensures forall t :: 0 <= t < |w| ==> |w[t]| == m.width
  {
    RowWindow(m.rows, j, hop)
  }

  /** Row `c` of the transposed window, `segs[j].T[c]`: the time series of channel `c`. */
  function Column(w: seq<seq<real>>, c: nat): (series: seq<real>)
    requires forall t :: 0 <= t < |w| ==> c < |w[t]|
    ensures |series| == |w|
    ensures forall t :: 0 <= t < |w| ==> series[t] == w[t][c]
  {
    seq(|w|, t requires 0 <= t < |w| => w[t][c])
  }

  function Zeros(n: nat): (z: seq<real>)
    ensures |z| == n && forall k :: 0 <= k < n ==> z[k] == 0.0
  {
    seq(n, k => 0.0)
  }

  /** How many channel rows `segs[j].T[ind_a:ind_e]` holds: the slice clamps to the width. */
  function ComputedChannels(width: nat, indA: nat, indE: nat): nat
  {
    Max(0, Min(indE, width) - Min(indA, width))
  }

  /** Length of `(...)[0:ind_f]`: `rfft(n=seg_len)` yields `seg_len // 2 + 1` bins. */
  function KeptBins(segLen: nat, indF: nat): nat
  {
    Min(segLen / 2 + 1, indF)
  }

  /** The exception, if any, raised while computing one channel row of a window of
      `len` samples (create_cube.py:101-104), in the order the source meets them. */
  function RowFault(len: nat, segLen: nat, indF: nat): (f: Option<Fault>)
    // the row is stored exactly when the taper and the series broadcast, `rfft` has a
    // positive length, bin 0 exists, and the kept bins fill the row or are a single bin
    ensures f.None? <==>
      && (len == segLen || len == 1 || segLen == 1)
      && segLen >= 1 && indF >= 1
      && (indF <= segLen / 2 + 1 || segLen == 1)
    // only the empty row of kept bins raises IndexError; every other failure is a ValueError
    ensures f.Some? ==>
      f.value == (if (len == segLen || len == 1 || segLen == 1) && segLen >= 1 && indF == 0 then IndexError else ValueError)
  {
    if !(len == segLen || len == 1 || segLen == 1) then Some(ValueError)  // `taper*channel` shapes clash
    else if segLen == 0 then Some(ValueError)                             // `rfft` with `n=0`
    else if KeptBins(segLen, indF) == 0 then Some(IndexError)             // `fourier_transformed[0]=0`
    else if KeptBins(segLen, indF) != indF && KeptBins(segLen, indF) != 1 then Some(ValueError)  // row assignment
    else None
  }

  /** The row stored in `Fsegs[j][channel_number]`; a single kept bin is broadcast. */
  function SpectrumRow(series: seq<real>, segLen: nat, indF: nat, bin: BinValue): (row: seq<real>)
    requires RowFault(|series|, segLen, indF).None?
    ensures |row| == indF
    ensures indF > 0 ==> row[0] == 0.0
  {
    if KeptBins(segLen, indF) == indF then seq(indF, (k: nat) => if k == 0 then 0.0 else bin(series, k))
    else Zeros(indF)
  }

  /** `Fsegs[j]`: channel rows beyond the array's width keep `np.zeros`' value. */
  function SegmentBlock(m: Matrix, j: nat, hop: nat, segLen: nat, indA: nat, indE: nat, indF: nat, bin: BinValue): (b: seq<seq<real>>)
    requires indA <= indE
    requires ComputedChannels(m.width, indA, indE) > 0 ==> RowFault(|Window(m, j, hop)|, segLen, indF).None?
    ensures |b| == indE - indA
    ensures forall c :: 0 <= c < |b| ==> |b[c]| == indF
    ensures indF > 0 ==> forall c :: 0 <= c < |b| ==> b[c][0] == 0.0
    ensures forall c :: 0 <= c < |b| && m.width <= indA + c ==> b[c] == Zeros(indF)
    ensures forall c :: 0 <= c < |b| && indA + c < m.width ==>
      b[c] == SpectrumRow(Column(Window(m, j, hop), indA + c), segLen, indF, bin)
  {
    var w := Window(m, j, hop);
    var b := seq(indE - indA, c requires 0 <= c < indE - indA =>
      if indA + c < m.width then SpectrumRow(Column(w, indA + c), segLen, indF, bin) else Zeros(indF));
    assert forall c :: 0 <= c < |b| ==> |b[c]| == indF && (indF > 0 ==> b[c][0] == 0.0) by {
      forall c | 0 <= c < |b|
        ensures |b[c]| == indF && (indF > 0 ==> b[c][0] == 0.0)
      {
        if indA + c < m.width {
          assert b[c] == SpectrumRow(Column(w, indA + c), segLen, indF, bin);
        } else {
          assert b[c] == Zeros(indF);
        }
      }
    }
    b
  }

  /** Windows `j .. nseg-1` of the loop at create_cube.py:96-104; the first
      window whose rows raise aborts the call. */
  function Segments(m: Matrix, j: nat, nseg: nat, hop: nat, segLen: nat, indA: nat, indE: nat, indF: nat, bin: BinValue): (r: Result<Block>)
    requires indA <= indE && j <= nseg
    decreases nseg - j
    ensures r.Ok? <==>
      (ComputedChannels(m.width, indA, indE) == 0 || forall k :: j <= k < nseg ==> RowFault(|Window(m, k, hop)|, segLen, indF).None?)
    ensures r.Ok? ==> |r.value| == nseg - j
    ensures r.Ok? ==> forall k :: 0 <= k < |r.value| ==> r.value[k] == SegmentBlock(m, j + k, hop, segLen, indA, indE, indF, bin)
  {
    if nseg <= j then Ok([])
    else if ComputedChannels(m.width, indA, indE) > 0 && RowFault(|Window(m, j, hop)|, segLen, indF).Some? then
      Err(RowFault(|Window(m, j, hop)|, segLen, indF).value)
    else
      match Segments(m, j + 1, nseg, hop, segLen, indA, indE, indF, bin)
      case Err(e) => Err(e)
      case Ok(rest) => Ok([SegmentBlock(m, j, hop, segLen, indA, indE, indF, bin)] + rest)
  }

  /** channel_fourier (create_cube.py:82-106) with the taper and spectrum folded into `bin`. */
  function ChannelFourier(m: Matrix, nseg: nat, segLen: nat, indA: nat, indE: nat, indF: nat, bin: BinValue): (r: Result<Block>)
    // the block has shape `nseg x (ind_e - ind_a) x ind_f`
    ensures r.Ok? ==> |r.value| == nseg
    ensures r.Ok? ==> forall j :: 0 <= j < nseg ==> |r.value[j]| == indE - indA
    ensures r.Ok? ==> forall j, c :: 0 <= j < nseg && 0 <= c < |r.value[j]| ==> |r.value[j][c]| == indF
    // bin 0 is 0 whatever the samples
    ensures r.Ok? && indF > 0 ==> forall j, c :: 0 <= j < nseg && 0 <= c < |r.value[j]| ==> r.value[j][c][0] == 0.0
    // channel rows past the array's width are never written
    ensures r.Ok? ==> forall j, c :: 0 <= j < nseg && 0 <= c < |r.value[j]| && m.width <= indA + c ==> r.value[j][c] == Zeros(indF)
    // every other entry is the spectrum of channel `ind_a + c` over window `j`
    ensures r.Ok? && KeptBins(segLen, indF) == indF ==>
      forall j, c, k :: 0 <= j < nseg && 0 <= c < |r.value[j]| && indA + c < m.width && 1 <= k < indF ==>
        r.value[j][c][k] == bin(Column(Window(m, j, segLen / 2), indA + c), k)
  {
    if indE < indA then Err(ValueError)  // `np.zeros` with a negative dimension
    else
      var r := Segments(m, 0, nseg, segLen / 2, segLen, indA, indE, indF, bin);
      assert r.Ok? ==> forall j :: 0 <= j < nseg ==> r.value[j] == SegmentBlock(m, j, segLen / 2, segLen, indA, indE, indF, bin) by {
        if r.Ok? {
          forall j | 0 <= j < nseg
            ensures r.value[j] == SegmentBlock(m, j, segLen / 2, segLen, indA, indE, indF, bin)
          {
            assert r.value[0 + j] == SegmentBlock(m, 0 + j, segLen / 2, segLen, indA, indE, indF, bin);
          }
        }
      }
      r
  }

  /** When `channel_fourier` succeeds: exactly when the channel range is not
      reversed and no window that has channels to fill raises. */
  lemma ChannelFourierSucceeds(m: Matrix, nseg: nat, segLen: nat, indA: nat, indE: nat, indF: nat, bin: BinValue)
    ensures ChannelFourier(m, nseg, segLen, indA, indE, indF, bin).Ok? <==>
      && indA <= indE
      && (ComputedChannels(m.width, indA, indE) == 0 ||
          forall j :: 0 <= j < nseg ==> RowFault(|Window(m, j, segLen / 2)|, segLen, indF).None?)
  {
  }

  /** Window `j` ends inside an array of `(nseg + 1) * hop` rows. */
  lemma WindowInside(j: nat, nseg: nat, hop: nat)
    requires j < nseg
    ensures (j + 2) * hop <= (nseg + 1) * hop
  {
    MulMonotone(j + 2, nseg + 1, hop);
  }

  /** A window that ends inside the sequence is the plain slice of `2 * hop` rows. */
  lemma RowWindowIsSlice(rows: seq<seq<real>>, j: nat, hop: nat)
    requires (j + 2) * hop <= |rows|
    ensures j * hop + 2 * hop <= |rows|
    ensures RowWindow(rows, j, hop) == rows[j * hop .. j * hop + 2 * hop]
  {
    assert (j + 2) * hop == j * hop + 2 * hop;
  }

  lemma WindowIsSlice(m: Matrix, j: nat, hop: nat)
    requires (j + 2) * hop <= |m.rows|
    ensures j * hop + 2 * hop <= |m.rows|
    ensures Window(m, j, hop) == m.rows[j * hop .. j * hop + 2 * hop]
  {
    RowWindowIsSlice(m.rows, j, hop);
  }

  /** Neighbouring full windows overlap by half: the second half of window `j`
      is the first half of window `j + 1`, whose start is one hop later. */
  lemma NeighboursOverlap(rows: seq<seq<real>>, j: nat, hop: nat)
    requires (j + 3) * hop <= |rows|
    ensures (j + 1) * hop == j * hop + hop
    ensures |RowWindow(rows, j, hop)| == 2 * hop && |RowWindow(rows, j + 1, hop)| == 2 * hop
    ensures RowWindow(rows, j, hop)[hop..] == RowWindow(rows, j + 1, hop)[..hop]
  {
    var a := j * hop;
    assert (j + 1) * hop == a + hop && (j + 3) * hop == a + 3 * hop;
    RowWindowIsSlice(rows, j, hop);
    RowWindowIsSlice(rows, j + 1, hop);
    SliceHalves(rows, a, hop);
  }

  lemma SliceHalves(rows: seq<seq<real>>, a: nat, hop: nat)
    requires a + 3 * hop <= |rows|
    ensures rows[a .. a + 2 * hop][hop..] == rows[a + hop .. a + hop + 2 * hop][..hop]
  {
    assert rows[a .. a + 2 * hop][hop..] == rows[a + hop .. a + 2 * hop];
  }

  /** Every window `j < nseg` of an array of `(nseg + 1) * hop` rows is full. */
  lemma FullWindow(m: Matrix, j: nat, nseg: nat, segLen: nat)
    requires segLen % 2 == 0
    requires j < nseg && (nseg + 1) * (segLen / 2) <= |m.rows|
    ensures j * (segLen / 2) + segLen <= |m.rows|
    ensures Window(m, j, segLen / 2) == m.rows[j * (segLen / 2) .. j * (segLen / 2) + segLen]
  {
    var hop := segLen / 2;
    assert 2 * hop == segLen;
    WindowInside(j, nseg, hop);
    WindowIsSlice(m, j, hop);
  }

  /** With an even window length, at most `seg_len // 2 + 1` bins kept and
      `(nseg + 1) * hop` samples available, the call succeeds, every window it
      reads is full (`seg_len` samples, see `FullWindow`), and entry `[j][c][k]`
      is the spectrum of channel `ind_a + c` over window `j`. */
  lemma ChannelFourierFullWindows(m: Matrix, nseg: nat, segLen: nat, indA: nat, indE: nat, indF: nat, bin: BinValue)
    requires segLen >= 2 && segLen % 2 == 0
    requires 1 <= indF <= segLen / 2 + 1
    requires indA <= indE <= m.width
    requires (nseg + 1) * (segLen / 2) <= |m.rows|
    ensures ChannelFourier(m, nseg, segLen, indA, indE, indF, bin).Ok?
    ensures forall j :: 0 <= j < nseg ==> |Window(m, j, segLen / 2)| == segLen
    ensures forall j, c, k :: 0 <= j < nseg && 0 <= c < indE - indA && 1 <= k < indF ==>
      ChannelFourier(m, nseg, segLen, indA, indE, indF, bin).value[j][c][k]
        == bin(Column(Window(m, j, segLen / 2), indA + c), k)
  {
    FullWindowsPass(m, nseg, segLen, indF);
    ChannelFourierSucceeds(m, nseg, segLen, indA, indE, indF, bin);
    assert KeptBins(segLen, indF) == indF;
  }

  /** Every window `j < nseg` has `seg_len` samples, so none raises. */
  lemma FullWindowsPass(m: Matrix, nseg: nat, segLen: nat, indF: nat)
    requires segLen >= 2 && segLen % 2 == 0
    requires 1 <= indF <= segLen / 2 + 1
    requires (nseg + 1) * (segLen / 2) <= |m.rows|
    ensures forall j :: 0 <= j < nseg ==> |Window(m, j, segLen / 2)| == segLen
    ensures forall j :: 0 <= j < nseg ==> RowFault(|Window(m, j, segLen / 2)|, segLen, indF).None?
  {
    forall j | 0 <= j < nseg
      ensures |Window(m, j, segLen / 2)| == segLen
    {
      FullWindow(m, j, nseg, segLen);
    }
  }
}
