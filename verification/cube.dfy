/** The write loop of create_cube.py:208, 232-237.

    The store is allocated with `nFiles * nseg` rows of `(ind_e - ind_a) x
    ind_f` values, all zero until written.  The file indices are cut into
    `number_of_parts` batches; each batch is processed by an order-preserving
    map and file `i`'s block is then written to rows
    `i*nseg .. (i+1)*nseg - 1`.  An exception in a batch ends the run with the
    rows of the earlier batches written and the rest still zero.
 */
module Cube {
  import opened Outcomes
  import opened Kernel
  import opened Batches

  /** The shape `nseg x C x F` of one file's block. */
  predicate Shaped(block: Block, nseg: nat, C: nat, F: nat)
  {
    && |block| == nseg
    && forall j :: 0 <= j < nseg ==> |block[j]| == C && forall c :: 0 <= c < C ==> |block[j][c]| == F
  }

  /** A row of the freshly allocated store. */
  function ZeroRow(C: nat, F: nat): (row: seq<seq<real>>)
    ensures |row| == C && forall c :: 0 <= c < C ==> row[c] == Zeros(F)
  {
    seq(C, c => Zeros(F))
  }

  /** A freshly allocated store of `rows` rows, each reading as `zero`. */
  function Store<R>(rows: nat, zero: R): (z: seq<R>)
    ensures |z| == rows && forall g :: 0 <= g < rows ==> z[g] == zero
  {
    seq(rows, g => zero)
  }

  /** `zarr.open(..., mode='w', shape=(rows, C, F))`: every value reads as 0. */
  function ZeroCube(rows: nat, C: nat, F: nat): (z: Block)
    ensures |z| == rows && forall g :: 0 <= g < rows ==> z[g] == ZeroRow(C, F)
  {
    Store(rows, ZeroRow(C, F))
  }

  /** First row written for file `i`: `i*nseg`. */
  function SlotStart(i: nat, nseg: nat): nat
  {
    i * nseg
  }

  /** `z[lo:lo+len(block)] = block`. */
  function Place<R>(z: seq<R>, lo: nat, block: seq<R>): (r: seq<R>)
    requires lo + |block| <= |z|
    ensures |r| == |z|
    ensures forall g :: 0 <= g < lo ==> r[g] == z[g]
    ensures forall g :: lo <= g < lo + |block| ==> r[g] == block[g - lo]
    ensures forall g :: lo + |block| <= g < |z| ==> r[g] == z[g]
  {
    z[..lo] + block + z[lo + |block|..]
  }

  // ---------------------------------------------------------------------------
  // Tiling of the rows by the files.

  /** The slot of file `i + 1` starts where the slot of file `i` ends. */
  lemma SlotNext(i: nat, nseg: nat)
    ensures SlotStart(i + 1, nseg) == SlotStart(i, nseg) + nseg
  {
  }

  /** Every file's slot lies inside the store. */
  lemma SlotWithin(i: nat, n: nat, nseg: nat)
    requires i < n
    ensures SlotStart(i, nseg) + nseg <= n * nseg
  {
    assert SlotStart(i, nseg) + nseg == (i + 1) * nseg;
    MulMonotone(i + 1, n, nseg);
  }

  /** A row inside file `i`'s slot belongs to file `i`, at position `g - i*nseg`. */
  lemma SlotOwner(i: nat, nseg: nat, g: nat)
    requires SlotStart(i, nseg) <= g < SlotStart(i, nseg) + nseg
    ensures nseg > 0 && g / nseg == i && g % nseg == g - SlotStart(i, nseg)
  {
    var r := g - i * nseg;
    assert g == i * nseg + r && 0 <= r < nseg;
    DivDecompose(g, nseg, i, r);
  }

  /** The writes `z[i*nseg:(i+1)*nseg]`, `0 <= i < nFiles`, are pairwise
      disjoint, ordered by file, inside the store, and together cover every
      one of its `nFiles * nseg` rows. */
  lemma WritesTile(nFiles: nat, nseg: nat)
    ensures forall i :: 0 <= i < nFiles ==> SlotStart(i, nseg) + nseg <= nFiles * nseg
    ensures forall i, i' :: 0 <= i < i' ==> SlotStart(i, nseg) + nseg <= SlotStart(i', nseg)
    ensures forall g :: 0 <= g < nFiles * nseg ==>
      nseg > 0 && g / nseg < nFiles && SlotStart(g / nseg, nseg) <= g < SlotStart(g / nseg, nseg) + nseg
  {
    forall i | 0 <= i < nFiles
      ensures SlotStart(i, nseg) + nseg <= nFiles * nseg
    {
      SlotWithin(i, nFiles, nseg);
    }
    forall i, i' | 0 <= i < i'
      ensures SlotStart(i, nseg) + nseg <= SlotStart(i', nseg)
    {
      SlotWithin(i, i', nseg);
    }
    forall g | 0 <= g < nFiles * nseg
      ensures nseg > 0 && g / nseg < nFiles && SlotStart(g / nseg, nseg) <= g < SlotStart(g / nseg, nseg) + nseg
    {
      assert nseg > 0;
      DivBounds(g, nFiles, nseg);
    }
  }

  lemma DivBounds(g: nat, n: nat, nseg: nat)
    requires nseg > 0 && g < n * nseg
    ensures g / nseg < n && (g / nseg) * nseg <= g < (g / nseg) * nseg + nseg
  {
    var q := g / nseg;
    assert g == q * nseg + g % nseg;
  }

  // ---------------------------------------------------------------------------
  // The write loop.  It is generic in the row type `R`: the store is a
  // sequence of rows that all read as `zero` until written, and file `i`'s
  // block is a sequence of `nseg` rows.

  /** File `i`'s slot holds `block`. */
  ghost predicate Holds<R>(z: seq<R>, i: nat, nseg: nat, block: seq<R>)
  {
    && SlotStart(i, nseg) + nseg <= |z|
    && |block| == nseg
    && forall j :: 0 <= j < nseg ==> z[SlotStart(i, nseg) + j] == block[j]
  }

  /** The slots of files `0 .. m - 1` hold the blocks computed for them. */
  ghost predicate Written<R>(z: seq<R>, process: nat -> Result<seq<R>>, m: nat, nseg: nat)
  {
    forall i :: 0 <= i < m ==> process(i).Ok? && Holds(z, i, nseg, process(i).value)
  }

  /** Rows `lo ..` still read as the store's initial value. */
  ghost predicate Blank<R>(z: seq<R>, lo: nat, zero: R)
  {
    forall g :: lo <= g < |z| ==> z[g] == zero
  }

  /** Every row of the store is a `C x F` array. */
  predicate CubeShaped(z: Block, C: nat, F: nat)
  {
    forall g :: 0 <= g < |z| ==> |z[g]| == C && forall c :: 0 <= c < C ==> |z[g][c]| == F
  }

  /** Once every file's slot holds a block of the declared shape, so does every row. */
  lemma WrittenShaped(z: Block, process: nat -> Result<Block>, nFiles: nat, nseg: nat, C: nat, F: nat)
    requires |z| == nFiles * nseg && Written(z, process, nFiles, nseg)
    requires forall i :: 0 <= i < nFiles && process(i).Ok? ==> Shaped(process(i).value, nseg, C, F)
    ensures CubeShaped(z, C, F)
  {
    forall g | 0 <= g < |z|
      ensures |z[g]| == C && forall c :: 0 <= c < C ==> |z[g][c]| == F
    {
      RowOfFile(z, process, nFiles, nseg, g);
    }
  }

  /** How a run ends: every batch written, or an exception with the store as it was then. */
  datatype Run<R> = Completed(cube: seq<R>) | Aborted(fault: Fault, cube: seq<R>)

  /** The state a run aborts in: batch `b` raised, so the files of the batches
      before it are written, the rest of the store is untouched, and the
      exception is the one raised by a file of batch `b`. */
  ghost predicate AbortedInBatch<R>(z: seq<R>, process: nat -> Result<seq<R>>, nFiles: nat, parts: nat, nseg: nat, zero: R, fault: Fault)
    requires parts > 0
  {
    exists b :: && 0 <= b < parts
                && Written(z, process, Boundary(nFiles, parts, b), nseg)
                && Blank(z, SlotStart(Boundary(nFiles, parts, b), nseg), zero)
                && FailsIn(process, Boundary(nFiles, parts, b), Boundary(nFiles, parts, b + 1), fault)
  }

  /** Some file `i` with `lo <= i < hi` raises `fault`. */
  ghost predicate FailsIn<R>(process: nat -> Result<seq<R>>, lo: nat, hi: nat, fault: Fault)
  {
    exists i: nat :: lo <= i < hi && process(i) == Err(fault)
  }

  /** create_cube.py:232-237 with `process(i)` standing for
      `create_spectro_segment(i, ...)` on file `i`, over a store whose rows
      all read as `zero`. */
  method WriteCube<R>(nFiles: nat, parts: nat, nseg: nat, zero: R, process: nat -> Result<seq<R>>)
    returns (run: Run<R>)
    requires forall i :: 0 <= i < nFiles && process(i).Ok? ==> |process(i).value| == nseg
    ensures |run.cube| == nFiles * nseg
    ensures run.Completed? <==> parts > 0 && forall i :: 0 <= i < nFiles ==> process(i).Ok?
    ensures run.Completed? ==> Written(run.cube, process, nFiles, nseg)
    ensures run.Aborted? && parts == 0 ==> run.fault == ValueError && Blank(run.cube, 0, zero)
    ensures run.Aborted? && parts > 0 ==> AbortedInBatch(run.cube, process, nFiles, parts, nseg, zero, run.fault)
  {
    var z := Store(nFiles * nseg, zero);
    if parts == 0 {
      return Aborted(ValueError, z);  // np.array_split with no sections
    }
    run := WriteBatches(z, nFiles, parts, nseg, zero, process);
  }

  /** The loop over the `parts` batches (create_cube.py:232-237), starting from
      the freshly allocated store `store`. */
  method WriteBatches<R>(store: seq<R>, nFiles: nat, parts: nat, nseg: nat, zero: R, process: nat -> Result<seq<R>>)
    returns (run: Run<R>)
    requires parts > 0
    requires |store| == nFiles * nseg && Blank(store, 0, zero)
    requires forall i :: 0 <= i < nFiles && process(i).Ok? ==> |process(i).value| == nseg
    ensures |run.cube| == nFiles * nseg
    ensures run.Completed? <==> forall i :: 0 <= i < nFiles ==> process(i).Ok?
    ensures run.Completed? ==> Written(run.cube, process, nFiles, nseg)
    ensures run.Aborted? ==> AbortedInBatch(run.cube, process, nFiles, parts, nseg, zero, run.fault)
  {
    var z := store;
    var b := 0;
    while b < parts
      invariant 0 <= b <= parts
      invariant Boundary(nFiles, parts, b) <= nFiles
      invariant |z| == nFiles * nseg
      invariant Written(z, process, Boundary(nFiles, parts, b), nseg)
      invariant Blank(z, SlotStart(Boundary(nFiles, parts, b), nseg), zero)
    {
      var r := ProcessBatch(z, process, nFiles, parts, nseg, zero, b);
      if r.Err? {
        AbortIn(z, process, nFiles, parts, nseg, zero, b, r.fault);
        return Aborted(r.fault, z);
      }
      z := r.value;
      b := b + 1;
    }
    BoundaryEnd(nFiles, parts);
    return Completed(z);
  }

  /** A store in which the batches before `b` are written and the rest is
      untouched is the state of a run aborted by batch `b`. */
  lemma AbortIn<R>(z: seq<R>, process: nat -> Result<seq<R>>, nFiles: nat, parts: nat, nseg: nat, zero: R, b: nat, fault: Fault)
    requires 0 <= b < parts
    requires Written(z, process, Boundary(nFiles, parts, b), nseg)
    requires Blank(z, SlotStart(Boundary(nFiles, parts, b), nseg), zero)
    requires FailsIn(process, Boundary(nFiles, parts, b), Boundary(nFiles, parts, b + 1), fault)
    ensures AbortedInBatch(z, process, nFiles, parts, nseg, zero, fault)
  {
  }

  /** One pass of the loop at create_cube.py:232-237: batch `b` is mapped, and
      its blocks are written only if no file of the batch raised. */
  method ProcessBatch<R>(z: seq<R>, process: nat -> Result<seq<R>>, nFiles: nat, parts: nat, nseg: nat, zero: R, b: nat)
    returns (r: Result<seq<R>>)
    requires 0 <= b < parts && Boundary(nFiles, parts, b) <= nFiles
    requires |z| == nFiles * nseg
    requires forall i :: 0 <= i < nFiles && process(i).Ok? ==> |process(i).value| == nseg
    requires Written(z, process, Boundary(nFiles, parts, b), nseg)
    requires Blank(z, SlotStart(Boundary(nFiles, parts, b), nseg), zero)
    ensures Boundary(nFiles, parts, b + 1) <= nFiles
    ensures r.Ok? <==> forall i :: Boundary(nFiles, parts, b) <= i < Boundary(nFiles, parts, b + 1) ==> process(i).Ok?
    ensures r.Ok? ==> |r.value| == |z|
    ensures r.Ok? ==> Written(r.value, process, Boundary(nFiles, parts, b + 1), nseg)
    ensures r.Ok? ==> Blank(r.value, SlotStart(Boundary(nFiles, parts, b + 1), nseg), zero)
    ensures r.Err? ==> FailsIn(process, Boundary(nFiles, parts, b), Boundary(nFiles, parts, b + 1), r.fault)
  {
    SplitRange(nFiles, parts);
    var liste := ArraySplit(Range(nFiles), parts).value[b];
    var first := Boundary(nFiles, parts, b);
    assert first + |liste| == Boundary(nFiles, parts, b + 1);
    BoundaryWithin(nFiles, parts, b + 1);
    var res := MapInOrder<nat, seq<R>>(process, liste);
    if res.Err? {
      var t :| 0 <= t < |liste| && process(liste[t]) == Err(res.fault);
      assert liste[t] == first + t;
      assert FailsIn(process, first, first + |liste|, res.fault);
      return Err(res.fault);
    }
    assert forall i :: first <= i < first + |liste| ==> process(i).Ok? by {
      forall i | first <= i < first + |liste|
        ensures process(i).Ok?
      {
        assert liste[i - first] == i;
      }
    }
    var z' := WriteBatch(z, process, nFiles, nseg, zero, first, liste, res.value);
    return Ok(z');
  }

  /** `for i in liste: z[i*nseg:(i+1)*nseg] = res[i-liste[0]]` (create_cube.py:236-237)
      for a batch of consecutive indices starting at `first`. */
  method WriteBatch<R>(z: seq<R>, process: nat -> Result<seq<R>>, nFiles: nat, nseg: nat, zero: R,
                       first: nat, liste: seq<nat>, res: seq<seq<R>>) returns (z': seq<R>)
    requires |z| == nFiles * nseg && first + |liste| <= nFiles
    requires forall t :: 0 <= t < |liste| ==> liste[t] == first + t
    requires |res| == |liste|
    requires forall t :: 0 <= t < |liste| ==> process(liste[t]).Ok? && res[t] == process(liste[t]).value
    requires forall i :: 0 <= i < nFiles && process(i).Ok? ==> |process(i).value| == nseg
    requires Written(z, process, first, nseg) && Blank(z, SlotStart(first, nseg), zero)
    ensures |z'| == |z|
    ensures Written(z', process, first + |liste|, nseg)
    ensures Blank(z', SlotStart(first + |liste|, nseg), zero)
  {
    z' := z;
    var t := 0;
    while t < |liste|
      invariant 0 <= t <= |liste|
      invariant |z'| == nFiles * nseg
      invariant Written(z', process, first + t, nseg)
      invariant Blank(z', SlotStart(first + t, nseg), zero)
    {
      var i := liste[t];
      assert i == first + t && liste[0] == first;
      var block := res[i - liste[0]];
      assert block == process(i).value;
      SlotWithin(i, nFiles, nseg);
      z' := WriteSlot(z', process, i, nseg, zero, block);
      t := t + 1;
    }
  }

  /** `z[i*nseg:(i+1)*nseg] = block` (create_cube.py:237) for the block computed
      for file `i`, written after files `0 .. i - 1`. */
  method WriteSlot<R>(z: seq<R>, process: nat -> Result<seq<R>>, i: nat, nseg: nat, zero: R, block: seq<R>)
    returns (r: seq<R>)
    requires SlotStart(i, nseg) + nseg <= |z|
    requires process(i) == Ok(block) && |block| == nseg
    requires Written(z, process, i, nseg) && Blank(z, SlotStart(i, nseg), zero)
    ensures |r| == |z|
    ensures Written(r, process, i + 1, nseg)
    ensures Blank(r, SlotStart(i + 1, nseg), zero)
  {
    WriteStep(z, process, i, nseg, zero);
    r := Place(z, SlotStart(i, nseg), block);
  }

  /** Writing file `i`'s block into its slot extends the written prefix by one
      file and leaves the rows after the slot untouched. */
  lemma WriteStep<R>(z: seq<R>, process: nat -> Result<seq<R>>, i: nat, nseg: nat, zero: R)
    requires SlotStart(i, nseg) + nseg <= |z|
    requires process(i).Ok? && |process(i).value| == nseg
    requires Written(z, process, i, nseg) && Blank(z, SlotStart(i, nseg), zero)
    ensures Written(Place(z, SlotStart(i, nseg), process(i).value), process, i + 1, nseg)
    ensures Blank(Place(z, SlotStart(i, nseg), process(i).value), SlotStart(i + 1, nseg), zero)
  {
    var lo := SlotStart(i, nseg);
    var r := Place(z, lo, process(i).value);
    SlotNext(i, nseg);
    forall i' | 0 <= i' < i
      ensures Holds(r, i', nseg, process(i').value)
    {
      SlotWithin(i', i, nseg);
      assert Holds(z, i', nseg, process(i').value);
    }
    assert Holds(r, i, nseg, process(i).value);
  }

  /** Once files `0 .. nFiles - 1` are written, row `g` of the store is row
      `g - i*nseg` of the block of its file `i = g / nseg`. */
  lemma RowOfFile<R>(z: seq<R>, process: nat -> Result<seq<R>>, nFiles: nat, nseg: nat, g: nat)
    requires |z| == nFiles * nseg && Written(z, process, nFiles, nseg)
    requires g < |z|
    ensures nseg > 0 && g / nseg < nFiles
    ensures SlotStart(g / nseg, nseg) <= g < SlotStart(g / nseg, nseg) + nseg
    ensures process(g / nseg).Ok? && |process(g / nseg).value| == nseg
    ensures z[g] == process(g / nseg).value[g - SlotStart(g / nseg, nseg)]
  {
    WritesTile(nFiles, nseg);
    var i := g / nseg;
    var j := g - SlotStart(i, nseg);
    assert Holds(z, i, nseg, process(i).value);
    assert z[SlotStart(i, nseg) + j] == process(i).value[j];
  }

  /** A completed run stores row `j` of file `i`'s block at row `i*nseg + j`,
      for every row of the store: each row has exactly one file and position. */
  lemma CompletedRows<R>(nFiles: nat, nseg: nat, cube: seq<R>, process: nat -> Result<seq<R>>)
    requires |cube| == nFiles * nseg && Written(cube, process, nFiles, nseg)
    ensures forall g :: 0 <= g < |cube| ==>
      && nseg > 0 && g / nseg < nFiles
      && process(g / nseg).Ok? && g % nseg < |process(g / nseg).value|
      && cube[g] == process(g / nseg).value[g % nseg]
  {
    forall g | 0 <= g < |cube|
      ensures && nseg > 0 && g / nseg < nFiles
              && process(g / nseg).Ok? && g % nseg < |process(g / nseg).value|
              && cube[g] == process(g / nseg).value[g % nseg]
    {
      RowOfFile(cube, process, nFiles, nseg, g);
      SlotOwner(g / nseg, nseg, g);
    }
  }
}
