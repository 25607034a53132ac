/**
 * The row-shaping step of `run_sql_query`: the column names as a header row,
 * then every fetched row with each cell turned into text.
 */
module Psql {
  import opened Wrappers

  /** `str(col) if col is not None else ""`: SQL NULL becomes the empty string. */
  function CellText<T>(cell: Option<T>, str: T -> string): string {
    match cell
    case None => ""
    case Some(v) => str(v)
  }

  /**
   * Builds `[colnames] + str_rows` from the fetched rows; `str` stands for
   * Python's `str` on the driver's column values.
   */
  method ShapeRows<T>(colnames: seq<string>, rows: seq<seq<Option<T>>>, str: T -> string)
    returns (out: seq<seq<string>>)
    ensures |out| == |rows| + 1
    ensures out[0] == colnames
    ensures forall i :: 0 <= i < |rows| ==> |out[i + 1]| == |rows[i]|
    ensures forall i, j :: 0 <= i < |rows| && 0 <= j < |rows[i]| ==> out[i + 1][j] == CellText(rows[i][j], str)
  {
    out := [colnames];
    var i := 0;
    while i < |rows|
      invariant 0 <= i <= |rows|
      invariant |out| == i + 1 && out[0] == colnames
      invariant forall r :: 0 <= r < i ==> |out[r + 1]| == |rows[r]|
      invariant forall r, j :: 0 <= r < i && 0 <= j < |rows[r]| ==> out[r + 1][j] == CellText(rows[r][j], str)
    {
      var row := rows[i];
      var line: seq<string> := [];
      var j := 0;
      while j < |row|
        invariant 0 <= j <= |row|
        invariant |line| == j
        invariant forall k :: 0 <= k < j ==> line[k] == CellText(row[k], str)
      {
        var text := if row[j].None? then "" else str(row[j].value);
        line := line + [text];
        j := j + 1;
      }
      out := out + [line];
      i := i + 1;
    }
  }
}
