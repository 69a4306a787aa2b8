/** The main program of create_cube.py (lines 146-237) without its I/O.

    The run derives its parameters, allocates the zero-filled store of
    `nFiles * nseg` rows, builds the chronological file table, and then lets
    the batches of workers fill the store.  The directory listing, the file
    reader and the spectrum are parameters: `names` is what `listdir`
    returned, `read` maps a path to its sample array and `bin` is the
    abstract spectrum of one channel over one window.
 */
module Pipeline {
  import opened Outcomes
  import opened Kernel
  import Params
  import Filenames
  import SpectroSegment
  import opened Cube

  /** How the main program ends: before the store exists, or with the store. */
  datatype Outcome = NoStore(fault: Fault) | Stored(run: Run<seq<seq<real>>>)

  /** The worker of create_cube.py:234: `create_spectro_segment` with the run's settings. */
  function Worker(d: Params.Derived, q: map<int, string>, read: string -> Matrix, bin: BinValue): (w: nat -> Result<Block>)
    requires d.indA <= d.indE
    ensures forall i :: w(i).Ok? ==> Shaped(w(i).value, d.nseg, d.indE - d.indA, d.indF)
  {
    (i: nat) => SpectroSegment.CreateSpectroSegment(i, d.nseg, d.segLen, d.indA, d.indE, d.indF, q, read, bin)
  }

  /** The sample arrays of the first `n` files of the table, in key order. */
  function TableFiles(q: map<int, string>, read: string -> Matrix, n: nat): (files: seq<Matrix>)
    requires forall k :: 0 <= k < n ==> k in q
    ensures |files| == n && SpectroSegment.Lists(q, read, files)
  {
    seq(n, k requires 0 <= k < n => read(q[k]))
  }

  /** The settings under which every file has a successor, the windows tile the
      files and all samples have the same channels: the conditions of
      `SpectroSegment.SpectroSegmentOfStream` for every processed file. */
  predicate Regular(c: Params.Config, d: Params.Derived, nFiles: nat, names: seq<string>, dir: string,
                    day: int, month: int, read: string -> Matrix, width: nat)
  {
    && Params.Tiles(c, d)
    && 2 * c.freqMax <= c.nu
    && d.indA <= d.indE <= width
    && Filenames.GetFilenames(dir, names, day, month).Ok?
    && nFiles < |names|
    && nFiles <= SpectroSegment.NoSuccessorIndex
    && SpectroSegment.Uniform(TableFiles(Filenames.GetFilenames(dir, names, day, month).value, read, |names|),
                              Params.SamplesPerFile, width)
  }

  /** create_cube.py:164-237. */
  method CreateCube(c: Params.Config, nFiles: nat, parts: nat, dir: string, names: seq<string>,
                    day: int, month: int, read: string -> Matrix, bin: BinValue, ghost width: nat)
    returns (out: Outcome)
    requires c.df > 0.0 && c.locA <= c.locE
    // a resolution coarser than 1 Hz fails at `file_length // seg_length`, and a
    // sampling rate of 0 at `1/nu`, both before the store exists
    ensures out.NoStore? <==> c.df > 1.0 || c.nu == 0
    ensures out.NoStore? ==> out.fault == ZeroDivisionError
    // otherwise the store is filled with the derived settings
    ensures out.Stored? ==> Params.Derive(c).Ok? && RunOf(Params.Derive(c).value, nFiles, parts, dir, names, day, month, read, bin, out.run)
    // in regular settings the run completes and cube row `g` is the spectrogram
    // of window `g` of the continuous recording
    ensures c.df <= 1.0 && parts > 0 && Regular(c, Params.Derive(c).value, nFiles, names, dir, day, month, read, width) ==>
      && out.Stored? && out.run.Completed?
      && IsSpectrogram(out.run.cube, Params.Derive(c).value, nFiles,
                       SpectroSegment.Recording(RegularFiles(c, Params.Derive(c).value, nFiles, names, dir, day, month, read, width), width), bin)
  {
    var r := Params.Prepare(c);
    if r.Err? {
      return NoStore(r.fault);
    }
    var d := r.value;
    var run := Run(d, nFiles, parts, dir, names, day, month, read, bin);
    out := Stored(run);
    if parts > 0 && Regular(c, d, nFiles, names, dir, day, month, read, width) {
      RegularRun(c, d, nFiles, parts, names, dir, day, month, read, bin, width, run);
    }
  }

  /** The cube holds, in row `g`, the spectrogram of window `g` of `recording`. */
  ghost predicate IsSpectrogram(cube: Block, d: Params.Derived, nFiles: nat, recording: Matrix, bin: BinValue)
  {
    && |cube| == nFiles * d.nseg
    && d.indA <= d.indE <= recording.width
    && CubeShaped(cube, d.indE - d.indA, d.indF)
    && forall g, ch, k :: 0 <= g < nFiles * d.nseg && 0 <= ch < d.indE - d.indA && 1 <= k < d.indF ==>
         cube[g][ch][k] == bin(Column(Window(recording, g, Params.Hop(d)), d.indA + ch), k)
  }

  /** The sample arrays of the listed files in chronological order, in regular settings. */
  ghost function RegularFiles(c: Params.Config, d: Params.Derived, nFiles: nat, names: seq<string>, dir: string,
                              day: int, month: int, read: string -> Matrix, width: nat): (files: seq<Matrix>)
    requires Regular(c, d, nFiles, names, dir, day, month, read, width)
    ensures forall k :: 0 <= k < |files| ==> files[k].width == width
  {
    TableFiles(Filenames.GetFilenames(dir, names, day, month).value, read, |names|)
  }

  /** What a run with derived settings `d` promises: the store has one row per
      window of every processed file; a name without a time field ends the run
      with the store still zero; otherwise the run completes exactly when every
      worker does, and then file `i`'s block sits in rows `i*nseg ..`. */
  ghost predicate RunOf(d: Params.Derived, nFiles: nat, parts: nat, dir: string, names: seq<string>,
                        day: int, month: int, read: string -> Matrix, bin: BinValue, run: Run<seq<seq<real>>>)
    requires d.indA <= d.indE
  {
    var table := Filenames.GetFilenames(dir, names, day, month);
    && |run.cube| == nFiles * d.nseg
    && (table.Err? ==> run == Aborted(table.fault, ZeroCube(nFiles * d.nseg, d.indE - d.indA, d.indF)))
    && (table.Ok? ==>
          var w := Worker(d, table.value, read, bin);
          && (run.Completed? <==> parts > 0 && forall i :: 0 <= i < nFiles ==> w(i).Ok?)
          && (run.Completed? ==> Written(run.cube, w, nFiles, d.nseg)))
  }

  /** create_cube.py:208-237 once the settings are derived: allocate the store,
      build the file table, and let the batches of workers fill the store. */
  method Run(d: Params.Derived, nFiles: nat, parts: nat, dir: string, names: seq<string>,
             day: int, month: int, read: string -> Matrix, bin: BinValue)
    returns (run: Run<seq<seq<real>>>)
    requires d.indA <= d.indE
    ensures RunOf(d, nFiles, parts, dir, names, day, month, read, bin, run)
  {
    var C := d.indE - d.indA;
    var z := ZeroCube(nFiles * d.nseg, C, d.indF);
    var table := Filenames.GetFilenames(dir, names, day, month);
    if table.Err? {
      return Aborted(table.fault, z);
    }
    var w := Worker(d, table.value, read, bin);
    run := WriteCube(nFiles, parts, d.nseg, ZeroRow(C, d.indF), w);
  }

  /** A run over regular settings completes, and its cube is the spectrogram of
      the recording window by window. */
  lemma RegularRun(c: Params.Config, d: Params.Derived, nFiles: nat, parts: nat, names: seq<string>,
                   dir: string, day: int, month: int, read: string -> Matrix, bin: BinValue, width: nat, run: Run<seq<seq<real>>>)
    requires c.df > 0.0 && Params.Derive(c) == Ok(d)
    requires Regular(c, d, nFiles, names, dir, day, month, read, width)
    requires RunOf(d, nFiles, parts, dir, names, day, month, read, bin, run)
    requires parts > 0
    ensures run.Completed?
    ensures IsSpectrogram(run.cube, d, nFiles,
                          SpectroSegment.Recording(RegularFiles(c, d, nFiles, names, dir, day, month, read, width), width), bin)
  {
    var q := Filenames.GetFilenames(dir, names, day, month).value;
    var files := TableFiles(q, read, |names|);
    RegularIsTiled(c, d, nFiles, names, dir, day, month, read, width);
    TiledRunCompletes(d, nFiles, q, read, bin, width, files);
    CubeIsSpectrogram(d, nFiles, q, read, bin, width, files, run.cube);
  }

  /** Under `Tiles` and a cutoff at most half the sampling rate, the settings
      meet the conditions of the per-file theorem. */
  lemma RegularSettings(c: Params.Config, d: Params.Derived)
    requires Params.Tiles(c, d) && 2 * c.freqMax <= c.nu
    requires d.indF == d.segLength * c.freqMax + 1
    ensures d.nseg >= 1 && d.nseg * Params.Hop(d) == Params.SamplesPerFile
    ensures d.segLen == 2 * Params.Hop(d)
    ensures 1 <= d.indF <= Params.Hop(d) + 1
  {
    Params.HopsCoverFile(c, d);
    assert 2 * (d.segLength * c.freqMax) <= d.segLength * c.nu by {
      assert 2 * (d.segLength * c.freqMax) == d.segLength * (2 * c.freqMax);
    }
  }

  /** The conditions of the per-file theorem for every processed file. */
  predicate Tiled(d: Params.Derived, nFiles: nat, q: map<int, string>, read: string -> Matrix, width: nat, files: seq<Matrix>)
  {
    && d.nseg >= 1 && d.nseg * Params.Hop(d) == Params.SamplesPerFile && d.segLen == 2 * Params.Hop(d)
    && 1 <= d.indF <= Params.Hop(d) + 1 && d.indA <= d.indE <= width
    && SpectroSegment.Uniform(files, Params.SamplesPerFile, width) && SpectroSegment.Lists(q, read, files)
    && nFiles < |files| && nFiles <= SpectroSegment.NoSuccessorIndex
  }

  /** Regular settings meet those conditions for the chronological file table. */
  lemma RegularIsTiled(c: Params.Config, d: Params.Derived, nFiles: nat, names: seq<string>, dir: string,
                       day: int, month: int, read: string -> Matrix, width: nat)
    requires c.df > 0.0 && Params.Derive(c) == Ok(d)
    requires Regular(c, d, nFiles, names, dir, day, month, read, width)
    ensures var q := Filenames.GetFilenames(dir, names, day, month).value;
      Tiled(d, nFiles, q, read, width, TableFiles(q, read, |names|))
  {
    RegularSettings(c, d);
  }

  /** With tiled settings every worker succeeds. */
  lemma TiledRunCompletes(d: Params.Derived, nFiles: nat, q: map<int, string>, read: string -> Matrix, bin: BinValue,
                          width: nat, files: seq<Matrix>)
    requires Tiled(d, nFiles, q, read, width, files)
    ensures forall i :: 0 <= i < nFiles ==> Worker(d, q, read, bin)(i).Ok?
  {
    forall i | 0 <= i < nFiles
      ensures Worker(d, q, read, bin)(i).Ok?
    {
      SpectroSegment.SpectroSegmentOfStream(files, width, q, read, i, d.nseg, Params.Hop(d), d.indA, d.indE, d.indF, bin);
    }
  }

  /** With tiled settings a completed cube holds, in row `g`, the spectrogram of
      window `g` of the recording: the rows follow the recording without gap,
      repetition or reordering across file boundaries. */
  lemma CubeIsSpectrogram(d: Params.Derived, nFiles: nat, q: map<int, string>, read: string -> Matrix, bin: BinValue,
                          width: nat, files: seq<Matrix>, cube: Block)
    requires Tiled(d, nFiles, q, read, width, files)
    requires |cube| == nFiles * d.nseg && Written(cube, Worker(d, q, read, bin), nFiles, d.nseg)
    ensures CubeShaped(cube, d.indE - d.indA, d.indF)
    ensures forall g, ch, k :: 0 <= g < nFiles * d.nseg && 0 <= ch < d.indE - d.indA && 1 <= k < d.indF ==>
      cube[g][ch][k] == bin(Column(Window(SpectroSegment.Recording(files, width), g, Params.Hop(d)), d.indA + ch), k)
  {
    WrittenShaped(cube, Worker(d, q, read, bin), nFiles, d.nseg, d.indE - d.indA, d.indF);
    forall g, ch, k | 0 <= g < nFiles * d.nseg && 0 <= ch < d.indE - d.indA && 1 <= k < d.indF
      ensures cube[g][ch][k] == bin(Column(Window(SpectroSegment.Recording(files, width), g, Params.Hop(d)), d.indA + ch), k)
    {
      CubeEntry(d, nFiles, q, read, bin, width, files, cube, g, ch, k);
    }
  }

  /** One entry of the completed cube, for a file table `q` listing `files`. */
  lemma CubeEntry(d: Params.Derived, nFiles: nat, q: map<int, string>, read: string -> Matrix, bin: BinValue,
                  width: nat, files: seq<Matrix>, cube: Block, g: nat, ch: nat, k: nat)
    requires Tiled(d, nFiles, q, read, width, files)
    requires |cube| == nFiles * d.nseg && Written(cube, Worker(d, q, read, bin), nFiles, d.nseg)
    requires g < nFiles * d.nseg && ch < d.indE - d.indA && 1 <= k < d.indF
    requires CubeShaped(cube, d.indE - d.indA, d.indF)
    ensures cube[g][ch][k] == bin(Column(Window(SpectroSegment.Recording(files, width), g, Params.Hop(d)), d.indA + ch), k)
  {
    var w := Worker(d, q, read, bin);
    RowOfFile(cube, w, nFiles, d.nseg, g);
    var i: nat := g / d.nseg;
    var j: nat := g - SlotStart(i, d.nseg);
    assert SpectroSegment.GlobalSegment(i, d.nseg, j) == g;
    SpectroSegment.SpectroSegmentOfStream(files, width, q, read, i, d.nseg, Params.Hop(d), d.indA, d.indE, d.indF, bin);
  }
}
