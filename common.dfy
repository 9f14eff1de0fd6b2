/** Values shared by every stage of the registry filter: optional values,
    results, the spreadsheet cell as pandas hands it over, and the errors
    that abort a run. */
module Common {

  datatype Option<+T> = None | Some(value: T)

  datatype Result<+R, +E> = Ok(value: R) | Err(error: E)

  /** A cell read with `dtype=str`: text, or None for a missing value (NaN). */
  type Cell = Option<string>

  /** Why a run stops before anything is written. */
  datatype Failure =
    | NoSequenceToken(path: string)      // a source path without a `PLAN<digits>` token
    | LookupTooNarrow(width: nat)        // the municipality table has fewer than two columns
    | MissingOutputColumn(width: nat)    // a chunk with survivors lacks a column of the nine-field projection

  /** Python's `str()` of a cell: a missing value prints as "nan". */
  function Str(c: Cell): string
  {
    match c
    case None => "nan"
    case Some(t) => t
  }
}
