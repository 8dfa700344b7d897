/** The part of a pandas `DataFrame` the disc pipeline uses: named columns over rows of
    cells, and the in-place operations `drop(columns=..., errors="ignore")`, assignment
    to `.columns`, `replace(dict)`, column assignment and `fillna`. A `Table` is the
    frame's contents as a value; the `DataFrame` class is the mutable object that the
    pipeline and its caller share. Missing cells (NaN, NaT, None) are `PyNone`. */
module Frames {
  import opened Wrappers
  import opened Dates
  import opened PyValues

  datatype Table = Table(columns: seq<string>, rows: seq<seq<Value>>)

  /** Every row has one cell per column. */
  predicate Rectangular(t: Table) {
    forall i :: 0 <= i < |t.rows| ==> |t.rows[i]| == |t.columns|
  }

  /** The positions, in increasing order, of the columns whose names are not in `drop`. */
  function KeptIndices(cols: seq<string>, drop: set<string>): (ix: seq<nat>)
    ensures |ix| <= |cols|
    ensures forall j :: 0 <= j < |ix| ==> ix[j] < |cols| && cols[ix[j]] !in drop
    ensures forall j, k :: 0 <= j < k < |ix| ==> ix[j] < ix[k]
    ensures forall i :: 0 <= i < |cols| && cols[i] !in drop ==> i in ix
  {
    if cols == [] then []
    else
      var ix := KeptIndices(cols[..|cols| - 1], drop);
      if cols[|cols| - 1] in drop then ix else ix + [|cols| - 1]
  }

  /** When no name is dropped, every position is kept. */
  lemma {:induction false} KeptIndicesAll(cols: seq<string>, drop: set<string>)
    requires forall i :: 0 <= i < |cols| ==> cols[i] !in drop
    ensures KeptIndices(cols, drop) == seq(|cols|, i => i)
  {
    if cols != [] {
      KeptIndicesAll(cols[..|cols| - 1], drop);
    }
  }

  /** The items of `xs` at positions `ix`, in that order. */
  function Pick<T>(xs: seq<T>, ix: seq<nat>): (ys: seq<T>)
    requires forall j :: 0 <= j < |ix| ==> ix[j] < |xs|
    ensures |ys| == |ix|
  {
    seq(|ix|, j requires 0 <= j < |ix| => xs[ix[j]])
  }

  /** `drop(columns=drop, errors="ignore")`: every column named in `drop` goes, names
      that are not there are ignored, and the remaining columns keep their order and
      their cells. */
  function DropColumns(t: Table, drop: set<string>): (u: Table)
    requires Rectangular(t)
    ensures Rectangular(u) && |u.rows| == |t.rows|
    ensures forall c :: c in u.columns ==> c in t.columns && c !in drop
    ensures forall c :: c in t.columns && c !in drop ==> c in u.columns
    ensures |u.columns| == |KeptIndices(t.columns, drop)|
    ensures forall j :: 0 <= j < |u.columns| ==> u.columns[j] == t.columns[KeptIndices(t.columns, drop)[j]]
    ensures forall i, j :: 0 <= i < |t.rows| && 0 <= j < |u.columns| ==>
              u.rows[i][j] == t.rows[i][KeptIndices(t.columns, drop)[j]]
  {
    var ix := KeptIndices(t.columns, drop);
    KeptNamesSurvive(t.columns, drop);
    Table(Pick(t.columns, ix), seq(|t.rows|, i requires 0 <= i < |t.rows| => Pick(t.rows[i], ix)))
  }

  lemma KeptNamesSurvive(cols: seq<string>, drop: set<string>)
    ensures forall c :: c in cols && c !in drop ==> c in Pick(cols, KeptIndices(cols, drop))
  {
    var ix := KeptIndices(cols, drop);
    forall c | c in cols && c !in drop
      ensures c in Pick(cols, ix)
    {
      var i :| 0 <= i < |cols| && cols[i] == c;
      var j :| 0 <= j < |ix| && ix[j] == i;
      assert Pick(cols, ix)[j] == c;
    }
  }

  /** Names that are not columns are ignored: dropping only absent names changes nothing. */
  lemma DropAbsentColumns(t: Table, drop: set<string>)
    requires Rectangular(t)
    requires forall c :: c in t.columns ==> c !in drop
    ensures DropColumns(t, drop) == t
  {
    KeptIndicesAll(t.columns, drop);
    var u := DropColumns(t, drop);
    assert u.columns == t.columns;
    assert forall i :: 0 <= i < |t.rows| ==> u.rows[i] == t.rows[i];
  }

  /** Each kept cell sits under the name of the column it came from. */
  lemma DropKeepsCellsUnderTheirNames(t: Table, drop: set<string>, i: nat, j: nat)
    requires Rectangular(t) && i < |t.rows| && j < |DropColumns(t, drop).columns|
    ensures exists k :: (0 <= k < |t.columns| && t.columns[k] !in drop
                         && DropColumns(t, drop).columns[j] == t.columns[k]
                         && DropColumns(t, drop).rows[i][j] == t.rows[i][k])
  {
    var k := KeptIndices(t.columns, drop)[j];
    assert DropColumns(t, drop).columns[j] == t.columns[k];
  }

  /** `df.columns = names`: pandas raises `ValueError` ("Length mismatch") unless there
      is exactly one name per column; the cells are not touched. */
  function SetColumns(t: Table, names: seq<string>): (r: Result<Table, Raised>)
    ensures r.Ok? <==> |names| == |t.columns|
    ensures r.Ok? ==> r.value.columns == names && r.value.rows == t.rows
    ensures r.Err? ==> r.error == ValueError
  {
    if |names| == |t.columns| then Ok(Table(names, t.rows)) else Err(ValueError)
  }

  /** One cell under `replace(table)`: exactly a key's text becomes its value. */
  function ReplaceCell(table: map<string, string>, v: Value): (w: Value)
    ensures v.PyStr? && v.s in table ==> w == PyStr(table[v.s])
    ensures !(v.PyStr? && v.s in table) ==> w == v
  {
    match v
    case PyStr(s) => if s in table then PyStr(table[s]) else v
    case _ => v
  }

  /** `replace(table)`: every cell of every column, in one pass. */
  function ReplaceValues(t: Table, table: map<string, string>): (u: Table)
    ensures u.columns == t.columns && |u.rows| == |t.rows|
    ensures forall i :: 0 <= i < |t.rows| ==> |u.rows[i]| == |t.rows[i]|
  {
    Table(t.columns, seq(|t.rows|, i requires 0 <= i < |t.rows| =>
      seq(|t.rows[i]|, j requires 0 <= j < |t.rows[i]| => ReplaceCell(table, t.rows[i][j]))))
  }

  /** Cell by cell, `replace` maps exactly the keys and keeps every other cell. */
  lemma ReplaceValuesCells(t: Table, table: map<string, string>, i: nat, j: nat)
    requires i < |t.rows| && j < |t.rows[i]|
    ensures var v, w := t.rows[i][j], ReplaceValues(t, table).rows[i][j];
      (v.PyStr? && v.s in table ==> w == PyStr(table[v.s])) && (!(v.PyStr? && v.s in table) ==> w == v)
  {
  }

  /** A table none of whose values is also a key is applied once and for all. */
  lemma ReplaceValuesIdempotent(t: Table, table: map<string, string>)
    requires forall k :: k in table ==> table[k] !in table
    ensures ReplaceValues(ReplaceValues(t, table), table) == ReplaceValues(t, table)
  {
    var u := ReplaceValues(t, table);
    forall i, j | 0 <= i < |t.rows| && 0 <= j < |t.rows[i]|
      ensures ReplaceCell(table, u.rows[i][j]) == u.rows[i][j]
    {
    }
    assert forall i :: 0 <= i < |t.rows| ==> ReplaceValues(u, table).rows[i] == u.rows[i];
  }

  /** The position `df[name]` reads: the first column with that name. */
  function ColumnIndex(cols: seq<string>, name: string): (r: Option<nat>)
    ensures r.Some? ==> (r.value < |cols| && cols[r.value] == name
                         && forall k :: 0 <= k < r.value ==> cols[k] != name)
    ensures r.None? <==> name !in cols
  {
    if cols == [] then None
    else if cols[0] == name then Some(0)
    else match ColumnIndex(cols[1..], name)
      case None => None
      case Some(k) => Some(k + 1)
  }

  /** The cells of column `j`, top to bottom. */
  function Column(t: Table, j: nat): (col: seq<Value>)
    requires Rectangular(t) && j < |t.columns|
    ensures |col| == |t.rows|
  {
    seq(|t.rows|, i requires 0 <= i < |t.rows| => t.rows[i][j])
  }

  /** `df[name] = col` for an existing column at position `j`. */
  function AssignColumn(t: Table, j: nat, col: seq<Value>): (u: Table)
    requires Rectangular(t) && j < |t.columns| && |col| == |t.rows|
    ensures Rectangular(u) && u.columns == t.columns && |u.rows| == |t.rows|
    ensures forall i, k :: 0 <= i < |t.rows| && 0 <= k < |t.columns| ==>
      u.rows[i][k] == if k == j then col[i] else t.rows[i][k]
  {
    Table(t.columns, seq(|t.rows|, i requires 0 <= i < |t.rows| => t.rows[i][j := col[i]]))
  }

  /** `fillna(v)`: every missing cell becomes `v`, every other cell is kept. */
  function FillNa(t: Table, v: Value): (u: Table)
    requires v != PyNone
    ensures u.columns == t.columns && |u.rows| == |t.rows|
    ensures forall i :: 0 <= i < |t.rows| ==> |u.rows[i]| == |t.rows[i]|
    ensures forall i :: 0 <= i < |u.rows| ==> PyNone !in u.rows[i]
  {
    Table(t.columns, seq(|t.rows|, i requires 0 <= i < |t.rows| =>
      seq(|t.rows[i]|, j requires 0 <= j < |t.rows[i]| => if t.rows[i][j] == PyNone then v else t.rows[i][j])))
  }

  /** Cell by cell, `fillna` replaces exactly the missing cells. */
  lemma FillNaCells(t: Table, v: Value, i: nat, j: nat)
    requires v != PyNone && i < |t.rows| && j < |t.rows[i]|
    ensures FillNa(t, v).rows[i][j] == if t.rows[i][j] == PyNone then v else t.rows[i][j]
  {
  }

  /** `to_dict("records")` for one row: column name to cell; with a repeated name the
      rightmost cell wins. */
  function RowRecord(cols: seq<string>, row: seq<Value>): (m: map<string, Value>)
    requires |row| == |cols|
    ensures m.Keys == set c | c in cols
  {
    if cols == [] then map[]
    else RowRecord(cols[..|cols| - 1], row[..|row| - 1])[cols[|cols| - 1] := row[|row| - 1]]
  }

  /** With distinct column names every cell is found under its own column's name. */
  lemma {:induction false} RowRecordCells(cols: seq<string>, row: seq<Value>, k: nat)
    requires |row| == |cols| && k < |cols|
    requires forall a, b :: 0 <= a < b < |cols| ==> cols[a] != cols[b]
    ensures RowRecord(cols, row)[cols[k]] == row[k]
  {
    var n := |cols| - 1;
    if k < n {
      RowRecordCells(cols[..n], row[..n], k);
    }
  }

  /** `to_dict("records")`: one record per row, in row order. */
  function Records(t: Table): (rs: seq<map<string, Value>>)
    requires Rectangular(t)
    ensures |rs| == |t.rows|
    ensures forall i :: 0 <= i < |t.rows| ==> rs[i] == RowRecord(t.columns, t.rows[i])
  {
    seq(|t.rows|, i requires 0 <= i < |t.rows| => RowRecord(t.columns, t.rows[i]))
  }

  /** The mutable frame. */
  class DataFrame {
    var columns: seq<string>
    var rows: seq<seq<Value>>

    function Contents(): Table
      reads this
    {
      Table(columns, rows)
    }

    predicate Valid()
      reads this
    {
      Rectangular(Contents())
    }

    constructor (t: Table)
      requires Rectangular(t)
      ensures Valid() && Contents() == t
    {
      columns := t.columns;
      rows := t.rows;
    }

    method Drop(names: set<string>)
      requires Valid()
      modifies this
      ensures Valid() && Contents() == DropColumns(old(Contents()), names)
    {
      var u := DropColumns(Contents(), names);
      columns, rows := u.columns, u.rows;
    }

    /** Assignment to `.columns`; on a length mismatch the frame is left as it was. */
    method SetColumnNames(names: seq<string>) returns (r: Result<(), Raised>)
      requires Valid()
      modifies this
      ensures Valid()
      ensures r.Ok? <==> SetColumns(old(Contents()), names).Ok?
      ensures r.Ok? ==> Contents() == SetColumns(old(Contents()), names).value
      ensures r.Err? ==> r.error == ValueError && Contents() == old(Contents())
    {
      match SetColumns(Contents(), names)
      case Ok(u) =>
        columns := u.columns;
        r := Ok(());
      case Err(e) =>
        r := Err(e);
    }

    method Replace(table: map<string, string>)
      requires Valid()
      modifies this
      ensures Valid() && Contents() == ReplaceValues(old(Contents()), table)
    {
      var u := ReplaceValues(Contents(), table);
      rows := u.rows;
    }

    method SetColumn(j: nat, col: seq<Value>)
      requires Valid() && j < |columns| && |col| == |rows|
      modifies this
      ensures Valid() && Contents() == AssignColumn(old(Contents()), j, col)
    {
      rows := AssignColumn(Contents(), j, col).rows;
    }

    method FillNaInPlace(v: Value)
      requires Valid() && v != PyNone
      modifies this
      ensures Valid() && Contents() == FillNa(old(Contents()), v)
    {
      rows := FillNa(Contents(), v).rows;
    }
  }
}
