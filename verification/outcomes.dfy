/** Failure-carrying results shared by every stage of the cube builder.

    The Python script has no error handling of its own: every failure is an
    exception that unwinds the whole run.  The model keeps the exception's
    class as a `Fault` so that each error branch of the source is visible.
    The module also holds the few facts about natural-number division and
    multiplication that the index computations of several stages share.
 */
module Outcomes {

  /** The Python exception classes the modelled code can raise. */
  datatype Fault =
    | IndexError         // `re.findall(...)[0]` with no match, `ft[0] = 0` on an empty row
    | KeyError           // `q[file_index]` for an index the file table does not hold
    | NameError          // `data2` read while unbound (the `file_index == 2880` branch); Python
                         // raises UnboundLocalError there, a subclass of NameError
    | ValueError         // bad `int(...)` text, an invalid `datetime`, a numpy shape clash
    | ZeroDivisionError  // `x // 0`

  datatype Option<+T> = None | Some(value: T)

  datatype Result<+T> = Ok(value: T) | Err(fault: Fault)

  function Min(a: int, b: int): int
  {
    if a <= b then a else b
  }

  function Max(a: int, b: int): int
  {
    if a <= b then b else a
  }

  /** Multiplying by a natural number keeps the order. */
  lemma MulMonotone(a: nat, b: nat, c: nat)
    requires a <= b
    ensures a * c <= b * c
  {
    assert b * c == a * c + (b - a) * c;
  }

  /** A multiple of `n` strictly between `-n` and `n` is zero. */
  lemma ProductBelow(d: int, n: int, e: int)
    requires d * n == e && -n < e < n
    ensures d == 0
  {
  }

  /** Quotient and remainder are unique: `g == q*n + r` with `r < n` gives `g / n == q` and `g % n == r`. */
  lemma DivDecompose(g: nat, n: nat, q: nat, r: nat)
    requires g == q * n + r && r < n
    ensures g / n == q && g % n == r
  {
    var q' := g / n;
    var r' := g % n;
    assert (q' - q) * n == r - r';
    ProductBelow(q' - q, n, r - r');
  }
}
