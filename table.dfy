/** The cells and rows of the tables `run_parse` builds and
    `process_output` reshapes. A row is a dictionary from column name to
    cell, as a row of a pandas `DataFrame` is read by label. */
module Table {
  /** A cell: a number, or text (the empty string stands for a missing
      value, as `run_parse` writes `''` for `None`). */
  datatype Cell = Num(n: int) | Str(s: string)

  type Row = map<string, Cell>

  /** The cell of `r` in column `k`; a column the row lacks reads as
      empty. */
  function Get(r: Row, k: string): Cell {
    if k in r then r[k] else Str("")
  }

  /** The numeric value of a cell; text counts as zero. */
  function NumOf(c: Cell): int {
    if c.Num? then c.n else 0
  }

  /** The restriction of `r` to the columns in `cols`. */
  function Project(r: Row, cols: seq<string>): (p: Row)
    ensures forall k :: k in p <==> k in r && k in cols
    ensures forall k :: k in p ==> p[k] == r[k]
  {
    map k | k in r && k in cols :: r[k]
  }
}
