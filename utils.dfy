/** `DiscsDF` of `src/utils.py`: the batch that turns the technical-standards disc table
    into `DiscBase` records. Building one runs, in place on the caller's frame, the
    positional renaming of the columns, the company-name substitution and the date
    coercion with a blanket fill, and then validates every row.

    Each step is specified by a function on `Table` values (`Renamed`, `NamesCleaned`,
    `TypesCleaned`, `Accepted`/`Rejections`); the methods of the class are proved to
    change the frame exactly as those functions say, and the lemmas state what the
    functions guarantee. */
module Utils {
  import opened Wrappers
  import opened Dates
  import opened PyValues
  import opened Coercion
  import opened Frames
  import opened Schemas

  /** The canonical names, assigned by position. */
  const FieldNames: seq<string> := [
    "manufacturer", "name", "weight_max", "diameter", "height", "rim_depth",
    "rim_diameter_inside", "rim_thickness", "rim_ratio", "rim_config",
    "flex", "cert", "approved"]

  const RemovedColumns: set<string> := {"Class", "Max Weight Vint (gr)", "Last Year Production"}

  const CompanyReplacements: map<string, string> := map[
    "Destiny/Dynamic Discs" := "Destiny-Dynamic Discs",
    "RPM Discs/Disc Golf Aotearoa" := "RPM Discs-Disc Golf Aotearoa",
    "Innova-Champion Discs" := "Innova Champion Discs",
    "Westside Golf Discs" := "Westside Discs"]

  // ---------------------------------------------------------------------------
  // rename_columns

  /** `rename_columns`: drop the three unused columns where present, then name the
      remaining ones by position; unless exactly 13 remain, the assignment raises. */
  function Renamed(t: Table): (r: Result<Table, Raised>)
    requires Rectangular(t)
    ensures r.Ok? <==> |DropColumns(t, RemovedColumns).columns| == |FieldNames|
    ensures r.Ok? ==> r.value.columns == FieldNames && Rectangular(r.value) && |r.value.rows| == |t.rows|
    ensures r.Ok? ==> forall i, j :: 0 <= i < |t.rows| && 0 <= j < |FieldNames| ==>
              j < |KeptIndices(t.columns, RemovedColumns)|
              && r.value.rows[i][j] == t.rows[i][KeptIndices(t.columns, RemovedColumns)[j]]
    ensures r.Err? ==> r.error == ValueError
  {
    SetColumns(DropColumns(t, RemovedColumns), FieldNames)
  }

  /** Without any of the three columns, the frame is only renamed: it must have exactly
      13 columns, and its rows are kept as they are. */
  lemma RenamedWithoutRemovedColumns(t: Table)
    requires Rectangular(t) && forall c :: c in t.columns ==> c !in RemovedColumns
    ensures Renamed(t).Ok? <==> |t.columns| == 13
    ensures Renamed(t).Ok? ==> Renamed(t).value == Table(FieldNames, t.rows)
  {
    DropAbsentColumns(t, RemovedColumns);
  }

  /** After renaming, the cell under the `j`-th canonical name is a cell of a column
      that was not removed, from the same row. */
  lemma RenamedCellOrigin(t: Table, i: nat, j: nat)
    requires Rectangular(t) && Renamed(t).Ok? && i < |t.rows| && j < |FieldNames|
    ensures exists k :: (0 <= k < |t.columns| && t.columns[k] !in RemovedColumns
                         && Renamed(t).value.rows[i][j] == t.rows[i][k])
  {
    DropKeepsCellsUnderTheirNames(t, RemovedColumns, i, j);
  }

  // ---------------------------------------------------------------------------
  // clean_company_names

  /** `clean_company_names`: the substitution over every cell of the frame. */
  function NamesCleaned(t: Table): (u: Table)
    ensures u.columns == t.columns && |u.rows| == |t.rows|
    ensures forall i :: 0 <= i < |t.rows| ==> |u.rows[i]| == |t.rows[i]|
    ensures forall i, j :: 0 <= i < |t.rows| && 0 <= j < |t.rows[i]| ==>
      u.rows[i][j] == ReplaceCell(CompanyReplacements, t.rows[i][j])
  {
    ReplaceValues(t, CompanyReplacements)
  }

  /** No replacement is itself one of the replaced names. */
  lemma ReplacementsAreFinal()
    ensures forall k :: k in CompanyReplacements ==> CompanyReplacements[k] !in CompanyReplacements
  {
    assert CompanyReplacements.Keys == {"Destiny/Dynamic Discs", "RPM Discs/Disc Golf Aotearoa",
      "Innova-Champion Discs", "Westside Golf Discs"};
  }

  /** Cleaning the names twice is cleaning them once. */
  lemma NamesCleanedIdempotent(t: Table)
    ensures NamesCleaned(NamesCleaned(t)) == NamesCleaned(t)
  {
    ReplacementsAreFinal();
    ReplaceValuesIdempotent(t, CompanyReplacements);
  }

  /** The four misspellings become the canonical names; every other cell is kept. */
  lemma CompanyNameExamples()
    ensures ReplaceCell(CompanyReplacements, PyStr("Westside Golf Discs")) == PyStr("Westside Discs")
    ensures ReplaceCell(CompanyReplacements, PyStr("Innova-Champion Discs")) == PyStr("Innova Champion Discs")
    ensures ReplaceCell(CompanyReplacements, PyStr("Innova")) == PyStr("Innova")
  {
    assert "Innova" !in CompanyReplacements by { ReplacementsAreFinal(); }
  }

  // ---------------------------------------------------------------------------
  // clean_data_types

  /** `.dt.date` of the coerced column: a date, or NaT for a cell that did not parse. */
  function DateCells(ds: seq<Option<Date>>): (col: seq<Value>)
    ensures |col| == |ds|
    ensures forall i :: 0 <= i < |ds| ==> col[i] == if ds[i].Some? then PyDate(ds[i].value) else PyNone
  {
    seq(|ds|, i requires 0 <= i < |ds| => match ds[i] case Some(d) => PyDate(d) case None => PyNone)
  }

  /** `clean_data_types`: coerce the `approved` column to dates (a `KeyError` when there
      is none), then fill every missing cell of the frame with 0.0. */
  function TypesCleaned(lib: Library, t: Table): (r: Result<Table, Raised>)
    requires Rectangular(t)
    ensures r.Err? <==> "approved" !in t.columns
    ensures r.Err? ==> r.error == KeyError
    ensures r.Ok? ==> Rectangular(r.value) && r.value.columns == t.columns && |r.value.rows| == |t.rows|
    ensures r.Ok? ==> forall i :: 0 <= i < |r.value.rows| ==> PyNone !in r.value.rows[i]
  {
    match ColumnIndex(t.columns, "approved")
    case None => Err(KeyError)
    case Some(j) =>
      var col := DateCells(lib.toDatetime(Column(t, j)));
      Ok(FillNa(AssignColumn(t, j, col), PyFloat(0.0)))
  }

  /** The `approved` cell after cleaning: the coerced date, or 0.0 where the coercion
      failed or the cell was missing. */
  lemma TypesCleanedApproved(lib: Library, t: Table, i: nat)
    requires Rectangular(t) && "approved" in t.columns && i < |t.rows|
    ensures var j := ColumnIndex(t.columns, "approved").value;
      var d := lib.toDatetime(Column(t, j))[i];
      TypesCleaned(lib, t).value.rows[i][j] == if d.Some? then PyDate(d.value) else PyFloat(0.0)
  {
    var j := ColumnIndex(t.columns, "approved").value;
    var col := DateCells(lib.toDatetime(Column(t, j)));
    FillNaCells(AssignColumn(t, j, col), PyFloat(0.0), i, j);
  }

  /** Every other cell after cleaning: 0.0 where it was missing, unchanged otherwise. */
  lemma TypesCleanedOther(lib: Library, t: Table, i: nat, k: nat)
    requires Rectangular(t) && "approved" in t.columns && i < |t.rows| && k < |t.columns|
    requires k != ColumnIndex(t.columns, "approved").value
    ensures TypesCleaned(lib, t).value.rows[i][k] == if t.rows[i][k] == PyNone then PyFloat(0.0) else t.rows[i][k]
  {
    var j := ColumnIndex(t.columns, "approved").value;
    var col := DateCells(lib.toDatetime(Column(t, j)));
    FillNaCells(AssignColumn(t, j, col), PyFloat(0.0), i, k);
  }

  /** The three table steps of `transform`, in order. */
  function Prepared(lib: Library, t: Table): (r: Result<Table, Raised>)
    requires Rectangular(t)
    ensures r.Ok? <==> Renamed(t).Ok?
    ensures r.Err? ==> r.error == ValueError
    ensures r.Ok? ==> r.value.columns == FieldNames && Rectangular(r.value) && |r.value.rows| == |t.rows|
    ensures r.Ok? ==> forall i :: 0 <= i < |r.value.rows| ==> PyNone !in r.value.rows[i]
  {
    match Renamed(t)
    case Err(e) => Err(e)
    case Ok(u) =>
      assert "approved" == FieldNames[12];
      TypesCleaned(lib, NamesCleaned(u))
  }

  // ---------------------------------------------------------------------------
  // validate_schema

  /** Why a row was turned away: an exception from the code, or pydantic's field errors. */
  datatype RowError = Raise(exc: Raised) | Rejected(fields: seq<FieldError>)

  /** `record["approved"] = datetime.combine(record["approved"], datetime.min.time())`:
      a date (or datetime) becomes a datetime at midnight; 0.0 and every other non-date
      raise `TypeError`. */
  function Combined(rec: Kwargs): (r: Result<Kwargs, RowError>)
    ensures "approved" !in rec ==> r == Err(Raise(KeyError))
    ensures "approved" in rec && !(rec["approved"].PyDate? || rec["approved"].PyDateTime?) ==> r == Err(Raise(TypeError))
    ensures "approved" in rec && (rec["approved"].PyDate? || rec["approved"].PyDateTime?) ==>
      r == Ok(rec["approved" := PyDateTime(rec["approved"].date, 0)])
  {
    if "approved" !in rec then Err(Raise(KeyError))
    else match rec["approved"]
      case PyDate(d) => Ok(rec["approved" := PyDateTime(d, 0)])
      case PyDateTime(d, _) => Ok(rec["approved" := PyDateTime(d, 0)])
      case _ => Err(Raise(TypeError))
  }

  /** One pass of the loop body: the disc, or the record (as far as it was updated)
      with what went wrong. */
  function CheckRecord(lib: Library, rec: Kwargs): (r: Result<Disc, (Kwargs, RowError)>)
    ensures r.Ok? <==> Combined(rec).Ok? && MakeDisc(lib, Combined(rec).value).Ok?
    ensures r.Ok? ==> MakeDisc(lib, Combined(rec).value) == Ok(r.value)
    ensures Combined(rec).Err? ==> r == Err((rec, Combined(rec).error))
  {
    match Combined(rec)
    case Err(e) => Err((rec, e))
    case Ok(rec2) =>
      match MakeDisc(lib, rec2)
      case Ok(d) => Ok(d)
      case Err(es) => Err((rec2, Rejected(es)))
  }

  /** The outcome of the loop body for each record, in record order. */
  function Outcomes(lib: Library, recs: seq<Kwargs>): (os: seq<Result<Disc, (Kwargs, RowError)>>)
    ensures |os| == |recs|
    ensures forall i :: 0 <= i < |recs| ==> os[i] == CheckRecord(lib, recs[i])
  {
    seq(|recs|, i requires 0 <= i < |recs| => CheckRecord(lib, recs[i]))
  }

  /** The successful values, in order. */
  function Oks<T, E>(os: seq<Result<T, E>>): (vs: seq<T>)
    ensures |vs| <= |os|
  {
    if os == [] then []
    else Oks(os[..|os| - 1]) + (if os[|os| - 1].Ok? then [os[|os| - 1].value] else [])
  }

  /** The failures, in order. */
  function Errs<T, E>(os: seq<Result<T, E>>): (es: seq<E>)
    ensures |es| <= |os|
  {
    if os == [] then []
    else Errs(os[..|os| - 1]) + (if os[|os| - 1].Err? then [os[|os| - 1].error] else [])
  }

  /** A value is kept exactly when some outcome is that success. */
  lemma {:induction false} OksMembers<T, E>(os: seq<Result<T, E>>)
    ensures forall x :: x in Oks(os) ==> Ok(x) in os
    ensures forall k :: 0 <= k < |os| && os[k].Ok? ==> os[k].value in Oks(os)
  {
    if os != [] {
      var p := os[..|os| - 1];
      OksMembers(p);
      assert forall k :: 0 <= k < |p| ==> p[k] == os[k];
    }
  }

  /** A failure is kept exactly when some outcome is that failure. */
  lemma {:induction false} ErrsMembers<T, E>(os: seq<Result<T, E>>)
    ensures forall e :: e in Errs(os) ==> Err(e) in os
    ensures forall k :: 0 <= k < |os| && os[k].Err? ==> os[k].error in Errs(os)
  {
    if os != [] {
      var p := os[..|os| - 1];
      ErrsMembers(p);
      assert forall k :: 0 <= k < |p| ==> p[k] == os[k];
    }
  }

  /** The discs `data` collects. */
  function Accepted(lib: Library, recs: seq<Kwargs>): (ds: seq<Disc>)
    ensures |ds| <= |recs|
  {
    Oks(Outcomes(lib, recs))
  }

  /** The pairs `errors` collects. */
  function Rejections(lib: Library, recs: seq<Kwargs>): (es: seq<(Kwargs, RowError)>)
    ensures |es| <= |recs|
  {
    Errs(Outcomes(lib, recs))
  }

  /** The discs are those of the records that pass, and there is one for each of them. */
  lemma AcceptedMembers(lib: Library, recs: seq<Kwargs>)
    ensures forall d :: d in Accepted(lib, recs) ==> exists i :: 0 <= i < |recs| && CheckRecord(lib, recs[i]) == Ok(d)
    ensures forall i :: 0 <= i < |recs| && CheckRecord(lib, recs[i]).Ok? ==> CheckRecord(lib, recs[i]).value in Accepted(lib, recs)
  {
    var os := Outcomes(lib, recs);
    OksMembers(os);
    assert forall d :: Ok(d) in os ==> exists i :: 0 <= i < |recs| && os[i] == Ok(d);
  }

  /** The errors are those of the records that fail, and there is one for each of them. */
  lemma RejectionsMembers(lib: Library, recs: seq<Kwargs>)
    ensures forall e :: e in Rejections(lib, recs) ==> exists i :: 0 <= i < |recs| && CheckRecord(lib, recs[i]) == Err(e)
    ensures forall i :: 0 <= i < |recs| && CheckRecord(lib, recs[i]).Err? ==> CheckRecord(lib, recs[i]).error in Rejections(lib, recs)
  {
    var os := Outcomes(lib, recs);
    ErrsMembers(os);
    assert forall e :: Err(e) in os ==> exists i :: 0 <= i < |recs| && os[i] == Err(e);
  }

  /** Every outcome lands in exactly one of the two lists. */
  lemma {:induction false} OksErrsSizes<T, E>(os: seq<Result<T, E>>)
    ensures |Oks(os)| + |Errs(os)| == |os|
  {
    if os != [] {
      OksErrsSizes(os[..|os| - 1]);
    }
  }

  /** The lists of a concatenation are the concatenations of the lists. */
  lemma {:induction false} OksErrsAppend<T, E>(a: seq<Result<T, E>>, b: seq<Result<T, E>>)
    ensures Oks(a + b) == Oks(a) + Oks(b)
    ensures Errs(a + b) == Errs(a) + Errs(b)
  {
    if b == [] {
      assert a + b == a;
    } else {
      var n := |b| - 1;
      assert (a + b)[..|a + b| - 1] == a + b[..n];
      assert (a + b)[|a + b| - 1] == b[n];
      OksErrsAppend(a, b[..n]);
    }
  }

  lemma OutcomesAppend(lib: Library, a: seq<Kwargs>, b: seq<Kwargs>)
    ensures Outcomes(lib, a + b) == Outcomes(lib, a) + Outcomes(lib, b)
  {
    var whole, parts := Outcomes(lib, a + b), Outcomes(lib, a) + Outcomes(lib, b);
    forall i | 0 <= i < |a + b|
      ensures whole[i] == parts[i]
    {
      if i < |a| {
        assert (a + b)[i] == a[i];
      } else {
        assert (a + b)[i] == b[i - |a|];
      }
    }
  }

  /** Every record lands in exactly one of the two lists. */
  lemma PartitionSizes(lib: Library, recs: seq<Kwargs>)
    ensures |Accepted(lib, recs)| + |Rejections(lib, recs)| == |recs|
  {
    OksErrsSizes(Outcomes(lib, recs));
  }

  /** The lists of a batch are those of its two halves, concatenated: order is kept,
      and a failure in the first half does not stop the second. */
  lemma PartitionAppend(lib: Library, a: seq<Kwargs>, b: seq<Kwargs>)
    ensures Accepted(lib, a + b) == Accepted(lib, a) + Accepted(lib, b)
    ensures Rejections(lib, a + b) == Rejections(lib, a) + Rejections(lib, b)
  {
    OutcomesAppend(lib, a, b);
    OksErrsAppend(Outcomes(lib, a), Outcomes(lib, b));
  }

  /** A lone record goes to `data` exactly when it is valid. */
  lemma PartitionSingle(lib: Library, rec: Kwargs)
    ensures Accepted(lib, [rec]) == (if CheckRecord(lib, rec).Ok? then [CheckRecord(lib, rec).value] else [])
    ensures Rejections(lib, [rec]) == (if CheckRecord(lib, rec).Err? then [CheckRecord(lib, rec).error] else [])
  {
    var os := Outcomes(lib, [rec]);
    assert os == [CheckRecord(lib, rec)];
    assert os[..0] == [];
    assert Oks(os) == Oks(os[..0]) + (if os[0].Ok? then [os[0].value] else []);
    assert Errs(os) == Errs(os[..0]) + (if os[0].Err? then [os[0].error] else []);
  }

  /** A record that fails takes no place among the discs, and the records around it
      keep theirs. */
  lemma RejectedRecordSkipped(lib: Library, a: seq<Kwargs>, rec: Kwargs, b: seq<Kwargs>)
    requires CheckRecord(lib, rec).Err?
    ensures Accepted(lib, a + [rec] + b) == Accepted(lib, a) + Accepted(lib, b)
  {
    PartitionAppend(lib, a + [rec], b);
    PartitionAppend(lib, a, [rec]);
    PartitionSingle(lib, rec);
  }

  /** A record whose `approved` cell was filled with 0.0 always fails, before
      construction is tried, and takes no place among the discs. */
  lemma ZeroApprovedRejected(lib: Library, a: seq<Kwargs>, rec: Kwargs, b: seq<Kwargs>)
    requires "approved" in rec && rec["approved"] == PyFloat(0.0)
    ensures CheckRecord(lib, rec) == Err((rec, Raise(TypeError)))
    ensures Accepted(lib, a + [rec] + b) == Accepted(lib, a) + Accepted(lib, b)
  {
    assert Combined(rec) == Err(Raise(TypeError));
    RejectedRecordSkipped(lib, a, rec, b);
  }

  /** A record with a coerced date that validates carries exactly that date. */
  lemma DatedRecordKeepsDate(lib: Library, rec: Kwargs, d: Date)
    requires "approved" in rec && rec["approved"] == PyDate(d) && CheckRecord(lib, rec).Ok?
    ensures CheckRecord(lib, rec).value.approved == Some(d)
  {
    var rec2 := Combined(rec).value;
    assert rec2["approved"] == PyDateTime(d, 0);
    assert ApprovedField(lib, rec2["approved"]) == Some(d);
  }

  /** After the table steps, the `approved` entry of each record is the last cell of its row. */
  lemma RecordApproved(t: Table, i: nat)
    requires Rectangular(t) && t.columns == FieldNames && i < |t.rows|
    ensures "approved" in Records(t)[i] && Records(t)[i]["approved"] == t.rows[i][12]
  {
  }

  /** A prepared row whose date did not parse (its `approved` cell is 0.0) is turned
      away with a `TypeError`. */
  lemma UndatedRowRejected(lib: Library, t: Table, i: nat)
    requires Rectangular(t) && Prepared(lib, t).Ok? && i < |t.rows|
    requires Prepared(lib, t).value.rows[i][12] == PyFloat(0.0)
    ensures CheckRecord(lib, Records(Prepared(lib, t).value)[i]).Err?
  {
    RecordApproved(Prepared(lib, t).value, i);
  }

  // ---------------------------------------------------------------------------
  // The batch object

  class DiscsDF {
    /** The caller's frame, rewritten in place. */
    const df: DataFrame
    /** The library behaviour the steps rely on (pandas, pydantic). */
    const lib: Library
    /** `schema_data`: Python's `None` until validation has run. */
    var schemaData: Option<seq<Disc>>

    /** The attribute assignments of `__init__`; `Create` is the whole of `__init__`. */
    constructor (df: DataFrame, lib: Library)
      ensures this.df == df && this.lib == lib && schemaData == None
    {
      this.df := df;
      this.lib := lib;
      schemaData := None;
    }

    /** `rename_columns`. The drop has already happened when the renaming raises. */
    method RenameColumns() returns (r: Result<(), Raised>)
      requires df.Valid()
      modifies df
      ensures df.Valid()
      ensures r.Ok? <==> Renamed(old(df.Contents())).Ok?
      ensures r.Ok? ==> df.Contents() == Renamed(old(df.Contents())).value
      ensures r.Err? ==> r.error == ValueError && df.Contents() == DropColumns(old(df.Contents()), RemovedColumns)
    {
      df.Drop(RemovedColumns);
      r := df.SetColumnNames(FieldNames);
    }

    /** `clean_company_names`. */
    method CleanCompanyNames()
      requires df.Valid()
      modifies df
      ensures df.Valid() && df.Contents() == NamesCleaned(old(df.Contents()))
    {
      df.Replace(CompanyReplacements);
    }

    /** `clean_data_types`; on a `KeyError` the frame is unchanged. */
    method CleanDataTypes() returns (r: Result<(), Raised>)
      requires df.Valid()
      modifies df
      ensures df.Valid()
      ensures r.Ok? <==> TypesCleaned(lib, old(df.Contents())).Ok?
      ensures r.Ok? ==> df.Contents() == TypesCleaned(lib, old(df.Contents())).value
      ensures r.Err? ==> r.error == KeyError && df.Contents() == old(df.Contents())
    {
      match ColumnIndex(df.columns, "approved")
      case None =>
        r := Err(KeyError);
      case Some(j) =>
        var col := DateCells(lib.toDatetime(Column(df.Contents(), j)));
        df.SetColumn(j, col);
        df.FillNaInPlace(PyFloat(0.0));
        r := Ok(());
    }

    /** `validate_schema`. Returns the two counts it logs. */
    method ValidateSchema() returns (records: nat, errorCount: nat)
      requires df.Valid()
      modifies this
      ensures schemaData == Some(Accepted(lib, Records(df.Contents())))
      ensures records == |Accepted(lib, Records(df.Contents()))|
      ensures errorCount == |Rejections(lib, Records(df.Contents()))|
      ensures records + errorCount == |df.rows|
    {
      var recs := Records(df.Contents());
      var data: seq<Disc> := [];
      var errors: seq<(Kwargs, RowError)> := [];
      for i := 0 to |recs|
        invariant data == Accepted(lib, recs[..i])
        invariant errors == Rejections(lib, recs[..i])
      {
        var record := recs[i];
        assert Outcomes(lib, recs[..i + 1])[..i] == Outcomes(lib, recs[..i]);
        match Combined(record)
        case Err(e) =>
          errors := errors + [(record, e)];
        case Ok(combined) =>
          record := combined;
          match MakeDisc(lib, record)
          case Ok(disc) =>
            data := data + [disc];
          case Err(es) =>
            errors := errors + [(record, Rejected(es))];
      }
      assert recs[..|recs|] == recs;
      schemaData := Some(data);
      PartitionSizes(lib, recs);
      records, errorCount := |data|, |errors|;
    }

    /** `transform`: the four steps in order; a `ValueError` from the renaming stops it. */
    method Transform() returns (r: Result<(), Raised>)
      requires df.Valid()
      modifies this, df
      ensures df.Valid()
      ensures r.Ok? <==> Renamed(old(df.Contents())).Ok?
      ensures r.Ok? ==> df.Contents() == Prepared(lib, old(df.Contents())).value
      ensures r.Ok? ==> schemaData == Some(Accepted(lib, Records(df.Contents())))
      ensures r.Err? ==> (r.error == ValueError && schemaData == old(schemaData)
                          && df.Contents() == DropColumns(old(df.Contents()), RemovedColumns))
    {
      r := RenameColumns();
      if r.Err? {
        return;
      }
      CleanCompanyNames();
      assert "approved" == FieldNames[12];
      r := CleanDataTypes();
      var _, _ := ValidateSchema();
    }

    /** `DiscsDF(df)`: stores the frame and runs `transform` on it, so the caller's frame
        is the one rewritten. The `ValueError` of a frame without the expected layout
        escapes from the constructor, after the drop. */
    static method Create(df: DataFrame, lib: Library) returns (r: Result<DiscsDF, Raised>)
      requires df.Valid()
      modifies df
      ensures df.Valid()
      ensures r.Ok? <==> Renamed(old(df.Contents())).Ok?
      ensures r.Ok? ==> fresh(r.value) && r.value.df == df && r.value.lib == lib
      ensures r.Ok? ==> df.Contents() == Prepared(lib, old(df.Contents())).value
      ensures r.Ok? ==> r.value.schemaData == Some(Accepted(lib, Records(df.Contents())))
      ensures r.Err? ==> r.error == ValueError && df.Contents() == DropColumns(old(df.Contents()), RemovedColumns)
    {
      var batch := new DiscsDF(df, lib);
      var t := batch.Transform();
      match t
      case Ok(_) => r := Ok(batch);
      case Err(e) => r := Err(e);
    }
  }
}
