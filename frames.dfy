/**
 The table a lightcurve is stored in, and the few table operations the
 statistics layer performs on it: indexing by a column name, subtracting a
 scalar from the whole table, and (for stating row-order independence)
 exchanging two rows.

 A table is held column by column: each column name maps to the series of
 its values, one per row, and every column has the same number of rows.
 Every cell is numeric. The only other argument modelled is a plain
 string, which cannot be indexed by a column name.
 */
module Frames {
  import opened Series

  /** The failures indexing and arithmetic can raise. */
  datatype Error =
    | TypeError          // the argument is not a table
    | KeyError(key: string)  // no column, or no band, of that name

  datatype Result<+T> = Ok(value: T) | Err(error: Error) {
    predicate IsFailure() { Err? }

    function PropagateFailure<U>(): Result<U>
      requires Err?
    {
      Err(error)
    }

    function Extract(): T
      requires Ok?
    {
      value
    }
  }

  datatype Table = Table(columns: map<string, seq<real>>, rows: nat)

  /** Every column holds exactly one value per row. */
  predicate Valid(t: Table)
  {
    forall c :: c in t.columns ==> |t.columns[c]| == t.rows
  }

  /** An argument of the statistics functions: a table, or a plain string. */
  datatype Data = Frame(table: Table) | Str(text: string)

  /**
   What the reductions need of their argument: a table is well formed, and
   the column to reduce, when it exists, is not empty.
   */
  predicate Reducible(d: Data, col: string)
  {
    d.Frame? ==> Valid(d.table) && (col in d.table.columns ==> d.table.rows > 0)
  }

  /** `d[col]`: a string cannot be indexed by a name, and a table lacking the column has no such key. */
  function Column(d: Data, col: string): (r: Result<seq<real>>)
    ensures d.Str? ==> r == Err(TypeError)
    ensures d.Frame? && col !in d.table.columns ==> r == Err(KeyError(col))
    ensures r.Ok? <==> d.Frame? && col in d.table.columns
    ensures r.Ok? ==> r.value == d.table.columns[col]
    ensures r.Ok? && Reducible(d, col) ==> |r.value| == d.table.rows > 0
  {
    match d
    case Str(_) => Err(TypeError)
    case Frame(t) => if col in t.columns then Ok(t.columns[col]) else Err(KeyError(col))
  }

  /** `d - c`: the scalar subtracted from every cell of every column. */
  function Subtract(d: Data, c: real): (r: Result<Data>)
    ensures r.Ok? <==> d.Frame?
    ensures r.Ok? ==> r.value.Frame? && r.value.table.rows == d.table.rows
    ensures r.Ok? ==> r.value.table.columns.Keys == d.table.columns.Keys
    ensures r.Ok? ==> forall k :: k in d.table.columns ==> r.value.table.columns[k] == Minus(d.table.columns[k], c)
  {
    match d
    case Str(_) => Err(TypeError)
    case Frame(t) =>
      Ok(Frame(Table(map k | k in t.columns :: Minus(t.columns[k], c), t.rows)))
  }

  /** The same table with rows `i` and `j` exchanged in every column. */
  function SwapRows(t: Table, i: nat, j: nat): (r: Table)
    requires Valid(t) && i < t.rows && j < t.rows
    ensures Valid(r) && r.rows == t.rows && r.columns.Keys == t.columns.Keys
    ensures forall k :: k in t.columns ==> multiset(r.columns[k]) == multiset(t.columns[k])
  {
    Table(map k | k in t.columns :: t.columns[k][i := t.columns[k][j]][j := t.columns[k][i]], t.rows)
  }
}
