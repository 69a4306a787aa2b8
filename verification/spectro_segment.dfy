/** create_spectro_segment (create_cube.py:112-142): one worker's job.

    The worker reads file `file_index` and the file after it, appends the
    first `30000 // nseg` samples of the next file to its own samples, so that
    the last window can run over the file boundary, and hands the extended
    array to channel_fourier.  Reading an HDF5 file is I/O; the model
    receives it as a function `read` from path to sample array.

    The guard at create_cube.py:125 skips reading the next file only for
    `file_index == 2880`, yet line 134 uses `data2` in every case, so that
    index fails with an unbound name; every other index needs its successor
    in the file table.
 */
module SpectroSegment {
  import opened Outcomes
  import opened Kernel
  import Params

  /** The one index for which the source does not read the next file (create_cube.py:125). */
  const NoSuccessorIndex := 2880

  /** `np.concatenate((data, data2[0:30000//nseg]), axis=0)` (create_cube.py:134). */
  function Extend(data: Matrix, next: Matrix, nseg: nat): (r: Result<Matrix>)
    ensures r.Ok? <==> nseg > 0 && data.width == next.width
    ensures nseg == 0 ==> r == Err(ZeroDivisionError)
    ensures nseg > 0 && data.width != next.width ==> r == Err(ValueError)
    ensures r.Ok? ==> r.value.width == data.width
    ensures r.Ok? ==> |r.value.rows| == |data.rows| + Min(Params.SamplesPerFile / nseg, |next.rows|)
    ensures r.Ok? ==> forall t :: 0 <= t < |data.rows| ==> r.value.rows[t] == data.rows[t]
    ensures r.Ok? ==> forall t :: |data.rows| <= t < |r.value.rows| ==> r.value.rows[t] == next.rows[t - |data.rows|]
  {
    if nseg == 0 then Err(ZeroDivisionError)        // `30000 // nseg`
    else if data.width != next.width then Err(ValueError)  // concatenation of arrays of different widths
    else
      var head := next.rows[..Min(Params.SamplesPerFile / nseg, |next.rows|)];
      var rows := data.rows + head;
      assert forall t :: 0 <= t < |rows| ==> |rows[t]| == data.width by {
        forall t | 0 <= t < |rows|
          ensures |rows[t]| == data.width
        {
          if t >= |data.rows| {
            assert rows[t] == next.rows[t - |data.rows|];
          }
        }
      }
      Ok(Grid(data.width, rows))
  }

  /** create_spectro_segment (create_cube.py:112-142); `q` is the table getFilenames built. */
  function CreateSpectroSegment(fileIndex: nat, nseg: nat, segLen: nat, indA: nat, indE: nat, indF: nat,
                                q: map<int, string>, read: string -> Matrix, bin: BinValue): (r: Result<Block>)
    ensures fileIndex !in q ==> r == Err(KeyError)
    ensures fileIndex in q && fileIndex == NoSuccessorIndex ==> r == Err(NameError)
    ensures fileIndex in q && fileIndex != NoSuccessorIndex && fileIndex + 1 !in q ==> r == Err(KeyError)
    ensures r.Ok? ==> fileIndex in q && fileIndex + 1 in q && fileIndex != NoSuccessorIndex
    ensures r.Ok? ==> |r.value| == nseg
    ensures r.Ok? ==> forall j :: 0 <= j < nseg ==> |r.value[j]| == indE - indA
    ensures r.Ok? ==> forall j, c :: 0 <= j < nseg && 0 <= c < |r.value[j]| ==> |r.value[j][c]| == indF
  {
    if fileIndex !in q then Err(KeyError)                        // `q[file_index]`
    else if fileIndex == NoSuccessorIndex then Err(NameError)     // `data2` never bound
    else if fileIndex + 1 !in q then Err(KeyError)               // `q[file_index+1]`
    else
      match Extend(read(q[fileIndex]), read(q[fileIndex + 1]), nseg)
      case Err(e) => Err(e)
      case Ok(data) => ChannelFourier(data, nseg, segLen, indA, indE, indF, bin)
  }

  // ---------------------------------------------------------------------------
  // Continuity across file boundaries.

  /** The continuous recording: the samples of all files, one after the other. */
  function Stream(files: seq<Matrix>): (s: seq<seq<real>>)
  {
    if files == [] then [] else files[0].rows + Stream(files[1..])
  }

  /** The recording as one array of `width` channels. */
  function Recording(files: seq<Matrix>, width: nat): (m: Matrix)
    requires forall k :: 0 <= k < |files| ==> files[k].width == width
    ensures m.width == width && m.rows == Stream(files)
  {
    StreamWidth(files, width);
    Grid(width, Stream(files))
  }

  lemma {:induction false} StreamWidth(files: seq<Matrix>, width: nat)
    requires forall k :: 0 <= k < |files| ==> files[k].width == width
    ensures Grid(width, Stream(files)).Rectangular()
  {
    if files != [] {
      StreamWidth(files[1..], width);
      var s := Stream(files);
      forall t | 0 <= t < |s|
        ensures |s[t]| == width
      {
        if t >= |files[0].rows| {
          assert s[t] == Stream(files[1..])[t - |files[0].rows|];
        }
      }
    }
  }

  /** Every file holds `n` samples of `width` channels. */
  predicate Uniform(files: seq<Matrix>, n: nat, width: nat)
  {
    forall k :: 0 <= k < |files| ==> |files[k].rows| == n && files[k].width == width
  }

  /** Sample `t` of file `i` is sample `i * n + t` of the recording. */
  lemma {:induction false} StreamIndex(files: seq<Matrix>, n: nat, width: nat, i: nat, t: nat)
    requires Uniform(files, n, width)
    requires i < |files| && t < n
    ensures |Stream(files)| == |files| * n
    ensures i * n + t < |Stream(files)| && Stream(files)[i * n + t] == files[i].rows[t]
  {
    if i == 0 {
      StreamLength(files, n, width);
    } else {
      assert Uniform(files[1..], n, width);
      StreamIndex(files[1..], n, width, i - 1, t);
      StreamLength(files, n, width);
      assert i * n + t == n + ((i - 1) * n + t);
    }
  }

  lemma {:induction false} StreamLength(files: seq<Matrix>, n: nat, width: nat)
    requires Uniform(files, n, width)
    ensures |Stream(files)| == |files| * n
  {
    if files != [] {
      assert Uniform(files[1..], n, width);
      StreamLength(files[1..], n, width);
    }
  }

  /** Window `j` of file `i` starts at sample `(i * nseg + j) * hop` of the recording. */
  lemma GlobalStart(i: nat, j: nat, nseg: nat, hop: nat)
    ensures i * (nseg * hop) + j * hop == (i * nseg + j) * hop
  {
  }

  /** Only the last window of a file reaches into the next file's samples. */
  lemma OnlyLastWindowCrosses(j: nat, nseg: nat, hop: nat)
    requires hop >= 1 && j < nseg
    ensures (j + 2) * hop <= (nseg + 1) * hop
    ensures (j + 2) * hop > nseg * hop <==> j == nseg - 1
  {
    if j < nseg - 1 {
      assert (j + 2) * hop <= nseg * hop;
    } else {
      assert (j + 2) * hop == nseg * hop + hop;
    }
  }

  /** Sample `t` of the extended buffer of file `i` is sample `i * n + t` of the recording. */
  lemma ExtendedSample(files: seq<Matrix>, width: nat, i: nat, nseg: nat, hop: nat, t: nat)
    requires Uniform(files, Params.SamplesPerFile, width)
    requires nseg * hop == Params.SamplesPerFile && nseg >= 1
    requires i + 1 < |files|
    requires t < Params.SamplesPerFile + hop
    ensures Extend(files[i], files[i + 1], nseg).Ok?
    ensures |Extend(files[i], files[i + 1], nseg).value.rows| == Params.SamplesPerFile + hop
    ensures i * Params.SamplesPerFile + t < |Stream(files)|
    ensures Extend(files[i], files[i + 1], nseg).value.rows[t] == Stream(files)[i * Params.SamplesPerFile + t]
  {
    var n := Params.SamplesPerFile;
    DivDecompose(nseg * hop, nseg, hop, 0);
    assert n / nseg == hop;
    assert hop <= n by {
      assert nseg * hop >= 1 * hop;
    }
    var e := Extend(files[i], files[i + 1], nseg).value;
    if t < n {
      StreamIndex(files, n, width, i, t);
    } else {
      StreamIndex(files, n, width, i + 1, t - n);
      assert (i + 1) * n + (t - n) == i * n + t;
    }
  }

  /** The extended buffer of file `i` is a stretch of the recording: the file's
      own samples followed by the first `hop` samples of file `i + 1`. */
  lemma ExtendedIsStreamSlice(files: seq<Matrix>, width: nat, i: nat, nseg: nat, hop: nat)
    requires Uniform(files, Params.SamplesPerFile, width)
    requires nseg * hop == Params.SamplesPerFile && nseg >= 1
    requires i + 1 < |files|
    ensures Extend(files[i], files[i + 1], nseg).Ok?
    ensures i * Params.SamplesPerFile + Params.SamplesPerFile + hop <= |Stream(files)|
    ensures Extend(files[i], files[i + 1], nseg).value.rows
      == Stream(files)[i * Params.SamplesPerFile .. i * Params.SamplesPerFile + Params.SamplesPerFile + hop]
  {
    var n := Params.SamplesPerFile;
    var b := i * n;
    ExtendedSample(files, width, i, nseg, hop, 0);
    ExtendedSample(files, width, i, nseg, hop, n + hop - 1);
    var e := Extend(files[i], files[i + 1], nseg).value;
    var s := Stream(files);
    var piece := s[b .. b + n + hop];
    forall t | 0 <= t < n + hop
      ensures e.rows[t] == piece[t]
    {
      ExtendedSample(files, width, i, nseg, hop, t);
    }
  }

  /** A window of a stretch of a sequence is a window of the sequence, shifted. */
  lemma SliceOfSlice(s: seq<seq<real>>, b: nat, len: nat, x: nat, y: nat)
    requires b + len <= |s| && x <= y <= len
    ensures SliceRows(s[b .. b + len], x, y) == SliceRows(s, b + x, b + y)
  {
  }

  /** A window of a stretch of the recording that starts at sample `b` is the
      recording's window that starts `b` samples later. */
  lemma ShiftedWindow(s: seq<seq<real>>, e: Matrix, b: nat, len: nat, j: nat, gi: nat, hop: nat)
    requires b + len <= |s| && e.rows == s[b .. b + len]
    requires j * hop <= (j + 2) * hop <= len
    requires gi * hop == b + j * hop && (gi + 2) * hop == b + (j + 2) * hop
    ensures Window(e, j, hop) == RowWindow(s, gi, hop)
  {
    SliceOfSlice(s, b, len, j * hop, (j + 2) * hop);
  }

  /** Cross-file continuity: window `j` of file `i`'s extended buffer is window
      `i * nseg + j` of the recording, sliced as if all files formed one array:
      the same samples a buffer concatenated by hand from both files holds. */
  lemma ExtendedWindowIsStreamWindow(files: seq<Matrix>, width: nat, i: nat, nseg: nat, hop: nat, j: nat)
    requires Uniform(files, Params.SamplesPerFile, width)
    requires nseg * hop == Params.SamplesPerFile && nseg >= 1
    requires i + 1 < |files| && j < nseg
    ensures Extend(files[i], files[i + 1], nseg).Ok?
    ensures (GlobalSegment(i, nseg, j) + 2) * hop <= |Stream(files)|
    ensures Window(Extend(files[i], files[i + 1], nseg).value, j, hop) == RowWindow(Stream(files), GlobalSegment(i, nseg, j), hop)
  {
    var n := Params.SamplesPerFile;
    var b := i * n;
    ExtendedIsStreamSlice(files, width, i, nseg, hop);
    var gi := GlobalSegment(i, nseg, j);
    assert j * hop <= (j + 2) * hop <= n + hop by {
      OnlyLastWindowCrosses(j, nseg, hop);
    }
    assert gi * hop == b + j * hop && (gi + 2) * hop == b + (j + 2) * hop by {
      GlobalStart(i, j, nseg, hop);
      Distribute(j, hop);
      Distribute(gi, hop);
    }
    ShiftedWindow(Stream(files), Extend(files[i], files[i + 1], nseg).value, b, n + hop, j, gi, hop);
  }

  lemma Distribute(j: nat, hop: nat)
    ensures (j + 2) * hop == j * hop + 2 * hop
  {
  }

  // ---------------------------------------------------------------------------
  // One worker's block, stated against the continuous recording.

  /** The file table lists `files` under keys `0 .. |files| - 1`. */
  predicate Lists(q: map<int, string>, read: string -> Matrix, files: seq<Matrix>)
  {
    forall k :: 0 <= k < |files| ==> k in q && read(q[k]) == files[k]
  }

  /** The extended buffer holds `nseg + 1` hops of samples. */
  lemma ExtendedLength(files: seq<Matrix>, width: nat, i: nat, nseg: nat, hop: nat)
    requires Uniform(files, Params.SamplesPerFile, width)
    requires nseg * hop == Params.SamplesPerFile && nseg >= 1
    requires i + 1 < |files|
    ensures Extend(files[i], files[i + 1], nseg).Ok?
    ensures (nseg + 1) * hop == |Extend(files[i], files[i + 1], nseg).value.rows|
  {
    ExtendedSample(files, width, i, nseg, hop, 0);
    assert (nseg + 1) * hop == nseg * hop + hop;
  }

  /** The index of window `j` of file `i` among all windows of the recording. */
  function GlobalSegment(i: nat, nseg: nat, j: nat): nat
  {
    i * nseg + j
  }

  /** create_spectro_segment for a file that has a successor, in settings where
      the windows tile the files: the call succeeds, every window it reads is a
      full window of the recording, and entry `[j][c][k]` is bin `k` of channel
      `ind_a + c` over window `i * nseg + j` of the recording. */
  lemma SpectroSegmentOfStream(files: seq<Matrix>, width: nat, q: map<int, string>, read: string -> Matrix,
                               i: nat, nseg: nat, hop: nat, indA: nat, indE: nat, indF: nat, bin: BinValue)
    requires Uniform(files, Params.SamplesPerFile, width) && Lists(q, read, files)
    requires i + 1 < |files| && i != NoSuccessorIndex
    requires nseg * hop == Params.SamplesPerFile && nseg >= 1
    requires 1 <= indF <= hop + 1
    requires indA <= indE <= width
    ensures CreateSpectroSegment(i, nseg, 2 * hop, indA, indE, indF, q, read, bin).Ok?
    ensures forall j :: 0 <= j < nseg ==> |Window(Recording(files, width), GlobalSegment(i, nseg, j), hop)| == 2 * hop
    ensures forall j, c, k :: 0 <= j < nseg && 0 <= c < indE - indA && 1 <= k < indF ==>
      CreateSpectroSegment(i, nseg, 2 * hop, indA, indE, indF, q, read, bin).value[j][c][k]
        == bin(Column(Window(Recording(files, width), GlobalSegment(i, nseg, j), hop), indA + c), k)
  {
    var segLen := 2 * hop;
    assert segLen / 2 == hop;
    ExtendedLength(files, width, i, nseg, hop);
    var e := Extend(files[i], files[i + 1], nseg).value;
    assert CreateSpectroSegment(i, nseg, segLen, indA, indE, indF, q, read, bin)
      == ChannelFourier(e, nseg, segLen, indA, indE, indF, bin);
    ChannelFourierFullWindows(e, nseg, segLen, indA, indE, indF, bin);
    forall j | 0 <= j < nseg
      ensures |Window(Recording(files, width), GlobalSegment(i, nseg, j), hop)| == 2 * hop
    {
      ExtendedWindowIsStreamWindow(files, width, i, nseg, hop, j);
      RowWindowIsSlice(Stream(files), GlobalSegment(i, nseg, j), hop);
    }
    forall j, c, k | 0 <= j < nseg && 0 <= c < indE - indA && 1 <= k < indF
      ensures CreateSpectroSegment(i, nseg, 2 * hop, indA, indE, indF, q, read, bin).value[j][c][k]
        == bin(Column(Window(Recording(files, width), GlobalSegment(i, nseg, j), hop), indA + c), k)
    {
      StreamEntry(files, width, i, nseg, hop, indA, indE, indF, bin, j, c, k);
    }
  }

  /** One entry of a worker's block, given that the block exists. */
  lemma StreamEntry(files: seq<Matrix>, width: nat, i: nat, nseg: nat, hop: nat,
                    indA: nat, indE: nat, indF: nat, bin: BinValue, j: nat, c: nat, k: nat)
    requires Uniform(files, Params.SamplesPerFile, width)
    requires nseg * hop == Params.SamplesPerFile && nseg >= 1
    requires i + 1 < |files|
    requires 1 <= indF <= hop + 1 && indA <= indE <= width
    requires Extend(files[i], files[i + 1], nseg).Ok?
    requires ChannelFourier(Extend(files[i], files[i + 1], nseg).value, nseg, 2 * hop, indA, indE, indF, bin).Ok?
    requires j < nseg && c < indE - indA && 1 <= k < indF
    ensures ChannelFourier(Extend(files[i], files[i + 1], nseg).value, nseg, 2 * hop, indA, indE, indF, bin).value[j][c][k]
      == bin(Column(Window(Recording(files, width), GlobalSegment(i, nseg, j), hop), indA + c), k)
  {
    ExtendedWindowIsStreamWindow(files, width, i, nseg, hop, j);
    assert (2 * hop) / 2 == hop;
    assert KeptBins(2 * hop, indF) == indF;
  }
}
