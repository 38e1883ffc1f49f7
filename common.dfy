/** Values shared by every part of the model: the outcome of an operation that
    can raise, and the transposition of a table (a list of rows). */
module Common {

  datatype Option<+T> = None | Some(value: T)

  /** The two Python exceptions the voting layer can raise on its own:
      `IndexError` (an index past the end of a list) and `TypeError`
      (`range(None)` or `None[i]` on a node that was never preprocessed). */
  datatype Error = IndexError | TypeError

  datatype Result<+T> = Success(value: T) | Failure(error: Error)

  /** Every row of `rows` has an entry at index `i`. */
  predicate HasColumn<T>(rows: seq<seq<T>>, i: nat)
  {
    forall j :: 0 <= j < |rows| ==> i < |rows[j]|
  }

  /** `rows` is non-empty and every row is at least as long as the first, so
      that `[row[i] for row in rows]` exists for every index of the first. */
  predicate Covers<T>(rows: seq<seq<T>>)
  {
    |rows| > 0 && forall j :: 0 <= j < |rows| ==> |rows[j]| >= |rows[0]|
  }

  /** `[row[i] for row in rows]`: the `i`-th entry of every row, in row order. */
  function Column<T>(rows: seq<seq<T>>, i: nat): (c: seq<T>)
    requires HasColumn(rows, i)
    ensures |c| == |rows|
    ensures forall j :: 0 <= j < |rows| ==> c[j] == rows[j][i]
  {
    seq(|rows|, j requires 0 <= j < |rows| => rows[j][i])
  }
}
