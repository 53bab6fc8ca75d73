/** The one-row pandas DataFrame that `build_input` fills in: an ordered
    list of column names and the row's cell under each name. */
module Frames {
  import opened Text

  /** A cell: text, a number, or NaN (pandas' missing value). */
  datatype Value = Str(s: string) | Num(x: real) | Missing

  datatype Result<+T, +E> = Ok(value: T) | Err(error: E)

  datatype Row = Row(cols: seq<string>, cells: map<string, Value>) {
    /** Column names are distinct and are exactly the names with a cell. */
    ghost predicate WellFormed() {
      && (forall i, j | 0 <= i < j < |cols| :: cols[i] != cols[j])
      && (forall c :: c in cells <==> c in cols)
    }
  }

  /** `safe_set(X, col, value)`: writes row 0 of an existing, non-empty column
      when there is a value (Python `None` is `Option.None`). */
  function SafeSetRow(r: Row, col: string, value: Option<Value>): (r': Row)
    ensures r'.cols == r.cols && r'.cells.Keys == r.cells.Keys
    ensures forall c | c in r.cells && c != col :: r'.cells[c] == r.cells[c]
    ensures col != [] && col in r.cells && value.Some? ==> r'.cells[col] == value.value
    ensures col == [] || col !in r.cells || value.None? ==> r' == r
  {
    if col != [] && col in r.cells && value.Some? then Row(r.cols, r.cells[col := value.value])
    else r
  }

  /** `df[col] = value`: overwrites a column in place, or appends a new one. */
  function AssignRow(r: Row, col: string, v: Value): (r': Row)
    ensures r'.cells == r.cells[col := v]
    ensures col in r.cells ==> r'.cols == r.cols
    ensures col !in r.cells ==> r'.cols == r.cols + [col]
  {
    if col in r.cells then Row(r.cols, r.cells[col := v]) else Row(r.cols + [col], r.cells[col := v])
  }

  /** `X[features]`: the cells of the listed columns, in the listed order, or
      the listed names that are not columns (pandas raises `KeyError`). */
  function Select(r: Row, features: seq<string>): (res: Result<seq<Value>, seq<string>>)
    ensures res.Ok? <==> forall i | 0 <= i < |features| :: features[i] in r.cells
    ensures res.Ok? ==>
              && |res.value| == |features|
              && forall i | 0 <= i < |features| :: res.value[i] == r.cells[features[i]]
    ensures res.Err? ==>
              && res.error != []
              && forall m | m in res.error :: m in features && m !in r.cells
  {
    if features == [] then Ok([])
    else
      var head := features[0];
      match Select(r, features[1..])
      case Ok(vs) => if head in r.cells then Ok([r.cells[head]] + vs) else Err([head])
      case Err(ms) => if head in r.cells then Err(ms) else Err([head] + ms)
  }

  /** Every feature that is not a column is reported. */
  lemma {:induction false} SelectReportsAll(r: Row, features: seq<string>)
    ensures Select(r, features).Err? ==>
      forall m | m in features && m !in r.cells :: m in Select(r, features).error
  {
    if features != [] {
      SelectReportsAll(r, features[1..]);
      forall m | m in features && m !in r.cells
        ensures m in Select(r, features).error
      {
        if m != features[0] {
          assert m in features[1..];
        }
      }
    }
  }

  lemma SafeSetWellFormed(r: Row, col: string, value: Option<Value>)
    requires r.WellFormed()
    ensures SafeSetRow(r, col, value).WellFormed()
  {
  }

  /** Assigning keeps the names distinct: a new name goes at the end once. */
  lemma AssignWellFormed(r: Row, col: string, v: Value)
    requires r.WellFormed()
    ensures AssignRow(r, col, v).WellFormed()
  {
    if col !in r.cells {
      var r' := AssignRow(r, col, v);
      forall i, j | 0 <= i < j < |r'.cols| ensures r'.cols[i] != r'.cols[j] {
        if j == |r.cols| {
          assert r.cols[i] in r.cells;
        }
      }
    }
  }

  /** The one-row frame, updated in place. */
  class Frame {
    var cols: seq<string>
    var cells: map<string, Value>

    function Snapshot(): Row
      reads this
    {
      Row(cols, cells)
    }

    ghost predicate Valid()
      reads this
    {
      Snapshot().WellFormed()
    }

    /** `pd.DataFrame([row])`. */
    constructor (r: Row)
      requires r.WellFormed()
      ensures Valid() && Snapshot() == r
    {
      cols := r.cols;
      cells := r.cells;
    }

    /** `df.copy()`: a new frame with the same columns and cells. */
    method Copy() returns (f: Frame)
      requires Valid()
      ensures fresh(f) && f.Valid() && f.Snapshot() == Snapshot()
    {
      f := new Frame(Snapshot());
    }

    /** `X.at[0, col]`. */
    method At(col: string) returns (v: Value)
      requires col in cells
      ensures v == cells[col]
    {
      v := cells[col];
    }

    method SafeSet(col: string, value: Option<Value>)
      requires Valid()
      modifies this
      ensures Valid() && Snapshot() == SafeSetRow(old(Snapshot()), col, value)
    {
      if col != [] && col in cells && value.Some? {
        cells := cells[col := value.value];
      }
    }

    method Assign(col: string, v: Value)
      requires Valid()
      modifies this
      ensures Valid() && Snapshot() == AssignRow(old(Snapshot()), col, v)
    {
      AssignWellFormed(Snapshot(), col, v);
      if col !in cells {
        cols := cols + [col];
      }
      cells := cells[col := v];
    }
  }
}
