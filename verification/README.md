# CryoCube spectrogram cube builder, modelled in Dafny

`create_cube.py` turns one day of distributed acoustic sensing (DAS) recordings into a
spectrogram cube. The recordings are 30-second HDF5 files of 30000 samples × channels.
The result is a zarr array of shape `(nFiles*nseg, ind_e-ind_a, ind_f)`. Row `i*nseg + j`
holds, for each selected channel, the log spectrum of window `j` of file `i`. Windows are
half-overlapping. The last window of a file reaches into the next file.

This project models the integer and ordering logic of that program:

- `Timestamps` decodes the `HHMMSS` time of day from a file name (`getTimeFromFilename`).
- `Filenames` keys, stably sorts and numbers the directory listing (`getFilenames`).
- `Params` derives the run parameters from the settings, including `np.arange` for the
  location coordinates.
- `Kernel` models `channel_fourier`: which samples fall in which window, which channel rows
  are selected, the block shape, the zeroed bin 0, and every numpy shape error that can
  abort the call. The spectrum itself is an abstract function `bin(series, k)`.
- `SpectroSegment` models `create_spectro_segment`. It extends a file with the first
  `30000 // nseg` samples of the next file, and ties the extended buffer's windows to the
  windows of the continuous recording.
- `Batches` models `np.array_split` over the file indices and the order-preserving `Pool.map`.
- `Cube` models the zero-filled store and the batched writes `z[i*nseg:(i+1)*nseg] = res[i-liste[0]]`.
- `Pipeline` models the main program end to end. Its final theorem covers settings where the
  windows tile the files: the run completes, and cube row `g` is the spectrogram of window
  `g` of the continuous recording, with no gap, repeat or reordering at file boundaries.

Python exceptions are results: `Result<T> = Ok(value) | Err(fault)`. `fault` names the
exception class: `IndexError`, `KeyError`, `NameError`, `ValueError` or `ZeroDivisionError`.
Every exception the modelled code can raise is an `Err` path in the model, except the cases
listed under "## Left out".

Some facts about the program that the model states as written:

- The code stores `(10·ln|X|)²` (lines 102, 110), not the log-power `10·ln(|X|²)`. Because
  the spectrum is abstract, the model holds either way. The difference is noted at `Kernel`.
- Every file gets exactly `nseg` windows over a buffer extended by `30000 // nseg` samples
  of the next file. No file is handled specially except index 2880.
- The only guard is `file_index != 2880` at line 125, and it skips reading the next file.
  Line 134 still uses `data2`, so index 2880 raises `UnboundLocalError`, a `NameError`, and
  the model says so.
  Every other index needs its successor in the file table or raises `KeyError`. The
  cube-level theorems therefore require `nFiles < number of files` and `nFiles <= 2880`.
  The source's own settings, 2879 files processed, meet both.
- No coordinates are written to the store. `location_coords` and `freq_coords` are computed
  and unused, and `time_coords` stays empty. Computing `freq_coords` still divides by `nu`,
  so a sampling rate of 0 raises ZeroDivisionError before the store is opened.
- The store has `nFiles*nseg` rows, `nseg` for each processed file.

## Model

| member | source | states |
|---|---|---|
| `Timestamps.FindFrom` | create_cube.py:52 | The position returned is a match of `_......\.` with no match before it; no result means no match anywhere from the start position on |
| `Timestamps.ParseTwo` | create_cube.py:54-56 | `int` of two characters: two digits read as `10a+b`; the value is in `[-9, 99]`; two non-digits fail |
| `Timestamps.TimeFromFilename` | create_cube.py:38-57 | No match raises IndexError; a result exists only for an existing date of 2020 and lies in `[0, 86400)` |
| `Timestamps.DecodeFileName` | create_cube.py:52-57 | Round trip: a second of the day written as `HHMMSS` in `prefix_HHMMSS.suffix` (prefix without `.`) decodes to that second for every existing date |
| `Timestamps.FindsLeftmost` | create_cube.py:52 | A match with none before it is the one `findall(...)[0]` takes |
| `Timestamps.DateDoesNotMatter` | create_cube.py:57 | The decoded time is the same for any two existing dates |
| `Timestamps.InvalidDateFails` | create_cube.py:57 | A date that does not exist in 2020 always fails |
| `Filenames.KeyedFrom` | create_cube.py:75 | Succeeds exactly when every listed name has a key; a failure is the exception of the first name, in listing order, without a key; entry `k` is the full path, the key and listing position `k` |
| `Filenames.Insert` | create_cube.py:76 | Insertion adds exactly one element to the multiset of entries and nothing else |
| `Filenames.InsertSorted` | create_cube.py:76 | Inserting an entry with a new listing position into a list ordered by (time, listing position) keeps it ordered |
| `Filenames.Sort` | create_cube.py:76 | The result is a permutation of the input, strictly ordered by (time, listing position): Python's stable sort by time |
| `Filenames.GetFilenames` | create_cube.py:61-77 | Succeeds exactly when every name decodes, otherwise raises the exception of the first name, in listing order, that does not; the keys are exactly `0 .. n-1` |
| `Filenames.GetFilenamesChronological` | create_cube.py:75-77 | Key `i` names entry `i` of a permutation of the listing whose times never decrease; equal times keep listing order |
| `Params.TruncPositive` | create_cube.py:188 | `int` of a positive float is its floor |
| `Params.Derive` | create_cube.py:182-194 | Fails with ZeroDivisionError exactly when `d_f > 1`; otherwise the channel indices are the floors of metres/4, `seg_length` is the floor of `1/d_f`, and `nseg` is twice the floor of `file_length/seg_length` |
| `Params.Prepare` | create_cube.py:182-196 | Fails with ZeroDivisionError exactly when `d_f > 1` (line 194) or `nu = 0` (`1/nu` at line 196); otherwise it yields the values `Params.Derive` states |
| `Params.LocationCoords` | create_cube.py:195 | Every coordinate is in `[loc_a, loc_e)`, neighbours differ by 4, and every metre mark `loc_a + 4m` below `loc_e` appears |
| `Params.CoordsMatchChannels` | create_cube.py:182-195 | With both ends on channel boundaries there is one coordinate per channel row |
| `Params.CoordsOutnumberChannels` | create_cube.py:182-195 | An example, not the source's settings: an end between two channels (9202 m) gives one coordinate more than channel rows |
| `Params.HopsCoverFile` | create_cube.py:192-194 | When the window duration divides the file duration and the window is even, `nseg` hops cover the 30000 samples exactly and the last window ends at `30000 + 30000 // nseg` |
| `Params.SourceSettings` | create_cube.py:164-194 | The source's settings give channels 0..2299, 1000-sample windows, 60 windows per file and 101 bins, and they tile the files |
| `Kernel.SliceRows` | create_cube.py:85 | numpy slicing: within bounds it is the plain slice, an end past the length clamps to the length, a start past the length or an end at or before the start gives the empty slice, and it only holds rows of the array |
| `Kernel.Column` | create_cube.py:88 | Row `c` of the transposed window is channel `c`'s time series |
| `Kernel.RowFault` | create_cube.py:101-104 | One channel row is stored exactly when the taper and the series broadcast, `seg_len >= 1`, `ind_f >= 1`, and the kept bins fill the row (`ind_f <= seg_len//2+1`) or are one broadcast bin; an empty row of kept bins raises IndexError at `[0] = 0`, every other failure is a ValueError |
| `Kernel.SpectrumRow` | create_cube.py:101-104 | A stored row has `ind_f` values and bin 0 is 0, whatever the samples |
| `Kernel.SegmentBlock` | create_cube.py:94-104 | One window's block has `ind_e-ind_a` rows of `ind_f` bins, bin 0 zero, rows past the array's width zero, the others the spectrum of channel `ind_a+c` |
| `Kernel.Segments` | create_cube.py:96-104 | The loop over windows succeeds exactly when no window with channels to fill raises; block `k` is window `j+k`'s block |
| `Kernel.ChannelFourier` | create_cube.py:82-106 | Block shape `nseg × (ind_e-ind_a) × ind_f`, bin 0 zero, rows past the width zero, entry `[j][c][k]` the spectrum of channel `ind_a+c` over window `j` |
| `Kernel.ChannelFourierSucceeds` | create_cube.py:82-106 | `channel_fourier` succeeds exactly when the channel range is not reversed and no window with channels to fill raises |
| `Kernel.RowWindowIsSlice` | create_cube.py:85 | A window that ends inside the array is the `2*hop` rows starting at `j*hop` |
| `Kernel.NeighboursOverlap` | create_cube.py:85 | Consecutive windows start one hop apart and overlap by half |
| `Kernel.FullWindow` | create_cube.py:85 | In an array of `(nseg+1)*hop` rows window `j < nseg` is samples `j*hop .. j*hop+seg_len-1` |
| `Kernel.ChannelFourierFullWindows` | create_cube.py:82-106 | With an even window, at most `seg_len//2+1` bins and `(nseg+1)*hop` samples, the call succeeds, every window it reads has `seg_len` samples, and entry `[j][c][k]` is the spectrum of channel `ind_a+c` over window `j` |
| `SpectroSegment.Extend` | create_cube.py:134 | The buffer is the file followed by the first `30000 // nseg` samples of the next file; `nseg = 0` raises ZeroDivisionError; otherwise different widths raise ValueError, and equal widths succeed |
| `SpectroSegment.CreateSpectroSegment` | create_cube.py:112-142 | A missing key raises KeyError, index 2880 raises NameError, a missing successor raises KeyError; a result has shape `nseg × (ind_e-ind_a) × ind_f` |
| `SpectroSegment.StreamIndex` | create_cube.py:134 | Sample `t` of file `i` is sample `i*30000 + t` of the continuous recording |
| `SpectroSegment.OnlyLastWindowCrosses` | create_cube.py:85 | No window ends past `(nseg+1)*hop`, and only the last one ends past `nseg*hop`, the end of the file's own samples |
| `SpectroSegment.ExtendedSample` | create_cube.py:134 | Sample `t` of file `i`'s extended buffer is sample `i*30000 + t` of the recording |
| `SpectroSegment.ExtendedIsStreamSlice` | create_cube.py:134 | File `i`'s extended buffer is the stretch of the recording from `i*30000` of length `30000 + hop` |
| `SpectroSegment.ExtendedWindowIsStreamWindow` | create_cube.py:85-134 | Window `j` of file `i`'s buffer is window `i*nseg + j` of the recording |
| `SpectroSegment.SpectroSegmentOfStream` | create_cube.py:112-142 | For a file with a successor in tiling settings the worker succeeds, reads only full windows, and entry `[j][c][k]` is bin `k` of channel `ind_a+c` over window `i*nseg + j` of the recording |
| `Batches.BoundaryFormula` | create_cube.py:232 | The running sum of section sizes is `b*(n//k) + min(b, n%k)` |
| `Batches.BoundaryEnd` | create_cube.py:232 | The last section ends at `n` |
| `Batches.ArraySplit` | create_cube.py:232 | `k = 0` raises ValueError; otherwise there are `k` sections |
| `Batches.ArraySplitConcat` | create_cube.py:232 | The sections concatenate back to the input |
| `Batches.ArraySplitSizes` | create_cube.py:232 | The first `n%k` sections hold `n//k+1` items and the rest `n//k` |
| `Batches.SplitRange` | create_cube.py:232 | Section `b` of `range(n)` is the consecutive run of indices starting at its boundary |
| `Batches.BatchLookup` | create_cube.py:236-237 | For every `i` of a batch, `res[i-liste[0]]` is in bounds and is the result for `i` |
| `Batches.MapInOrder` | create_cube.py:233-235 | The map succeeds exactly when every task does, result `t` belongs to input `t`, and a failure is some task's exception |
| `Cube.ZeroCube` | create_cube.py:208 | The store has the declared number of rows, all zero |
| `Cube.Place` | create_cube.py:237 | The slice assignment replaces exactly the rows of the slot and keeps the rest |
| `Cube.WritesTile` | create_cube.py:208-237 | The slots `[i*nseg, (i+1)*nseg)` lie inside the store, are disjoint and ordered by file, and cover every row |
| `Cube.SlotOwner` | create_cube.py:237 | A row in file `i`'s slot belongs to file `i` at position `g - i*nseg` |
| `Cube.WriteStep` | create_cube.py:237 | Writing file `i`'s block extends the written prefix by one file and leaves the rows after its slot untouched |
| `Cube.WriteSlot` | create_cube.py:237 | Writing file `i`'s block after files `0 .. i-1` leaves files `0 .. i` written and the rows after its slot untouched |
| `Cube.WriteBatch` | create_cube.py:236-237 | Writing a batch of consecutive files fills their slots and leaves later rows untouched |
| `Cube.ProcessBatch` | create_cube.py:232-237 | A batch is written exactly when all its files succeed, filling their slots and leaving later rows untouched; otherwise the exception of a file of that batch is returned |
| `Cube.WriteCube` | create_cube.py:232-237 | The run completes exactly when there is a batch and every file succeeds, with each file's block in its slot; zero batches raise ValueError on an untouched store; any other abort names a batch `b` whose files' exception it carries, with every file of the batches before `b` written and every later row untouched |
| `Cube.WriteBatches` | create_cube.py:232-237 | Over a fresh store and at least one batch, the loop completes exactly when every file succeeds, with each block in its slot; an abort names the batch `b` whose file raised, with the batches before `b` written and the later rows untouched |
| `Cube.RowOfFile` | create_cube.py:237 | Once every file is written, row `g` is row `g - i*nseg` of file `i = g//nseg`'s block |
| `Cube.CompletedRows` | create_cube.py:236-237 | In a completed store every row `g` is row `g % nseg` of file `g // nseg`'s block |
| `Cube.WrittenShaped` | create_cube.py:208 | A completed store has rows of `(ind_e-ind_a) × ind_f` values |
| `Pipeline.Worker` | create_cube.py:234 | The worker's blocks have the store's chunk shape |
| `Pipeline.CreateCube` | create_cube.py:164-237 | `d_f > 1` or `nu = 0` fails with ZeroDivisionError before the store exists; otherwise the store is filled as `Pipeline.Run` states; in regular settings the run completes and cube row `g` is the spectrogram of window `g` of the recording |
| `Pipeline.Run` | create_cube.py:208-237 | The store has `nFiles*nseg` rows; an undecodable name leaves it zero with that name's exception; otherwise the run completes exactly when every worker succeeds, and then file `i`'s block is in rows `i*nseg ..` |
| `Pipeline.RegularRun` | create_cube.py:232-237 | In regular settings the run completes and its cube is the spectrogram of the recording, window by window |
| `Pipeline.RegularSettings` | create_cube.py:188-194 | With a cutoff at most half the sampling rate, the kept bins fit in `seg_len//2+1` and the hops tile the file |
| `Pipeline.TiledRunCompletes` | create_cube.py:232-237 | In tiling settings every worker of the run succeeds |
| `Pipeline.CubeIsSpectrogram` | create_cube.py:232-237 | In tiling settings every cube entry `[g][c][k]`, `k >= 1`, is bin `k` of channel `ind_a+c` over window `g` of the recording |

## Left out

- Reading HDF5 files (lines 115-128) is I/O. The model takes a function `read` from path to sample array.
- Opening the zarr store (line 208) is I/O. The store is a zero-filled sequence of rows.
- `listdir` and directory creation (lines 72-74, 204-207) are I/O. The model takes the listed names and the directory path.
- `multiprocessing.Pool` (lines 233-234) is modelled as a sequential order-preserving map. When several tasks raise, which exception the pool reports is not modelled; the model reports one of them.
- Printing, timing and `sys.argv` (lines 147-159, 239-242) are left out.
- The Tukey taper, `rfft`, `np.abs`, `modified_log` and the squaring (lines 101-102, 109-110, 138) are floating-point numerics. They are the abstract `bin`, which cannot model a `-inf` from the log of zero.
- `rfftfreq` for `freq_coords` (line 196) is floating point and its result is never stored.
- `Timestamps.ParseTwo`: Python's `int` also accepts Unicode digits and whitespace outside Latin-1, and those are not modelled.
- `Timestamps.TimeFromFilename`: the source returns a float of seconds, `total_seconds()`; the model returns the same whole number as an integer.
- `Params.Derive`: requires `d_f > 0`, and `1/d_f` is exact rational arithmetic rather than a floating-point division.
- `Pipeline.CreateCube`: requires `loc_a <= loc_e`, because how zarr handles a negative channel dimension is not modelled.
- `Cube.WriteCube`: requires every successful block to have the chunk shape, so zarr's broadcasting of a block of another shape is not modelled. Every block the worker produces has that shape (`Pipeline.Worker`).
