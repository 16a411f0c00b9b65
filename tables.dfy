/** pandas data frames as the pipeline uses them: a list of column labels and
    rectangular rows of cells. `Frame` is the value; `DataFrame` is the mutable
    object for the places where the source rewrites a caller's frame in place. */
module Tables {
  import opened Wrappers
  import opened Text

  /** One pandas cell: text, a number (int or float), or missing (NaN / None). */
  datatype Cell = Str(s: string) | Num(x: real) | Null

  /** Python's `str(c)` / `astype(str)`. Python's float repr is not modelled: it is
      the parameter `floatText`. A missing cell reads as "nan". */
  function CellText(c: Cell, floatText: real -> string): string
  {
    match c
    case Str(s) => s
    case Num(x) => floatText(x)
    case Null => "nan"
  }

  datatype Frame = Frame(columns: seq<string>, rows: seq<seq<Cell>>)

  /** Every row has one cell per column. */
  ghost predicate Rectangular(f: Frame)
  {
    forall i :: 0 <= i < |f.rows| ==> |f.rows[i]| == |f.columns|
  }

  /** Position of the first column labelled `name` (`name in df.columns`). */
  function ColumnIndex(cols: seq<string>, name: string): (r: Option<nat>)
    ensures r.Some? ==> r.value < |cols| && cols[r.value] == name
    ensures r.Some? ==> forall j :: 0 <= j < r.value ==> cols[j] != name
    ensures r.None? <==> name !in cols
  {
    if |cols| == 0 then None
    else if cols[0] == name then Some(0)
    else match ColumnIndex(cols[1..], name)
      case None => None
      case Some(j) => Some(j + 1)
  }

  /** The cells of column `j`, top to bottom. */
  function Column(f: Frame, j: nat): (c: seq<Cell>)
    requires Rectangular(f) && j < |f.columns|
    ensures |c| == |f.rows|
    ensures forall i :: 0 <= i < |f.rows| ==> c[i] == f.rows[i][j]
  {
    seq(|f.rows|, i requires 0 <= i < |f.rows| => f.rows[i][j])
  }

  /** The same cell once per row (pandas broadcasting a scalar). */
  function Repeat(c: Cell, n: nat): (r: seq<Cell>)
    ensures |r| == n && forall i :: 0 <= i < n ==> r[i] == c
  {
    seq(n, _ => c)
  }

  /** `df[name] = values`: every column labelled `name` is overwritten; when there is
      none, a column is appended at the end. */
  function WithColumn(f: Frame, name: string, values: seq<Cell>): (r: Frame)
    requires Rectangular(f) && |values| == |f.rows|
    ensures Rectangular(r) && |r.rows| == |f.rows|
    ensures r.columns == if name in f.columns then f.columns else f.columns + [name]
    ensures forall i, j :: 0 <= i < |f.rows| && 0 <= j < |r.columns| ==>
      r.rows[i][j] == if r.columns[j] == name then values[i] else f.rows[i][j]
  {
    if name in f.columns then
      Frame(f.columns, seq(|f.rows|, i requires 0 <= i < |f.rows| =>
        seq(|f.columns|, j requires 0 <= j < |f.columns| =>
          if f.columns[j] == name then values[i] else f.rows[i][j])))
    else
      Frame(f.columns + [name], seq(|f.rows|, i requires 0 <= i < |f.rows| => f.rows[i] + [values[i]]))
  }

  /** The unit the pipeline gives a footprint that has none. */
  const DefaultUnit: string := "kg CO\U{2082} eq"

  /** The cell of a row in column `j`, missing when the row is too short. */
  function CellAt(row: seq<Cell>, j: nat): Cell
  {
    if j < |row| then row[j] else Null
  }

  /** Column `j` as the key of `drop_duplicates(subset=...)`. */
  function ColumnKey(j: nat): seq<Cell> -> Cell
  {
    r => CellAt(r, j)
  }

  /** Every label stripped (`[col.strip() for col in df.columns]`). */
  function StripLabels(cols: seq<string>): (r: seq<string>)
    ensures |r| == |cols| && forall j :: 0 <= j < |cols| ==> r[j] == Strip(cols[j])
  {
    seq(|cols|, j requires 0 <= j < |cols| => Strip(cols[j]))
  }

  /** `pd.to_numeric(c, errors='coerce')` followed by `fillna(0)`: numbers stay,
      texts are read by pandas' number parser (the parameter `parse`) and become 0
      when it rejects them, missing cells become 0. */
  function ToNumeric(c: Cell, parse: string -> Option<real>): (r: Cell)
    ensures r.Num?
    ensures c.Num? ==> r == c
    ensures c.Null? ==> r == Num(0.0)
    ensures c.Str? && parse(c.s).None? ==> r == Num(0.0)
  {
    match c
    case Num(_) => c
    case Str(s) => Num(parse(s).GetOr(0.0))
    case Null => Num(0.0)
  }

  /** A frame object that methods rewrite in place. */
  class DataFrame {
    var columns: seq<string>
    var rows: seq<seq<Cell>>

    function Value(): Frame
      reads this
    {
      Frame(columns, rows)
    }

    ghost predicate Valid()
      reads this
    {
      Rectangular(Value())
    }

    constructor (f: Frame)
      requires Rectangular(f)
      ensures Valid() && Value() == f
    {
      columns := f.columns;
      rows := f.rows;
    }

    /** `df[name] = values` on this object. */
    method Assign(name: string, values: seq<Cell>)
      requires Valid() && |values| == |rows|
      modifies this
      ensures Valid() && Value() == WithColumn(old(Value()), name, values)
    {
      var f := WithColumn(Value(), name, values);
      columns := f.columns;
      rows := f.rows;
    }
  }
}
