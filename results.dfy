/** Outcome types shared by the three evaluation scripts. */
module Results {

  /** A parsed numeric column: `None` when Python's `float()`/`int()` rejects the text. */
  datatype Option<T> = None | Some(value: T)

  /** The two ways a run aborts with an uncaught exception (no output file is written). */
  datatype Failure =
    | CoverageNotNumeric   // `float(coverage)` / `int(coverage)` raises ValueError
    | CoverageSumZero      // `item[0] / item[1]` raises ZeroDivisionError

  /** Either a value or the exception that ended the run. */
  datatype Result<T> = Ok(value: T) | Err(failure: Failure)
}
