/** The library behaviour the pipeline relies on but does not define: pandas'
    `to_datetime(..., errors="coerce")` and pydantic's field coercions and `HttpUrl`
    syntax check. The conversions pydantic performs in every mode (a `str` is a valid
    `str`, an `int` or `float` a valid `float`, a `bool` a valid `bool`, `None` never a
    valid non-optional value) are written out; the lax conversions beyond those (numeric
    strings to floats, "yes" to `True`, ...) are the `Library`'s parameters. */
module Coercion {
  import opened Wrappers
  import opened Dates
  import opened PyValues

  /** pandas `to_datetime` over a whole column with `errors="coerce"`, followed by
      `.dt.date`: one date or one NaT (`None`) per cell. It works on the column, not
      cell by cell, because pandas infers one format from the column's first entry. */
  type ColumnToDatetime = f: seq<Value> -> seq<Option<Date>> | forall c :: |f(c)| == |c|
    witness (c: seq<Value>) => seq(|c|, _ => None)

  datatype Library = Library(
    toDatetime: ColumnToDatetime,
    laxStr: Value -> Option<string>,
    laxFloat: Value -> Option<real>,
    laxDate: Value -> Option<Date>,
    laxBool: Value -> Option<bool>,
    httpUrl: Value -> Option<string>)

  /** pydantic's validation of a `str` field. */
  function StrField(lib: Library, v: Value): (r: Option<string>)
    ensures v.PyStr? ==> r == Some(v.s)
    ensures v.PyNone? ==> r == None
  {
    match v
    case PyStr(s) => Some(s)
    case PyNone => None
    case _ => lib.laxStr(v)
  }

  /** pydantic's validation of a `float` (or `Union[float, int]`) field. */
  function FloatField(lib: Library, v: Value): (r: Option<real>)
    ensures v.PyFloat? ==> r == Some(v.x)
    ensures v.PyInt? ==> r == Some(v.i as real)
    ensures v.PyNone? ==> r == None
  {
    match v
    case PyFloat(x) => Some(x)
    case PyInt(i) => Some(i as real)
    case PyNone => None
    case _ => lib.laxFloat(v)
  }

  /** pydantic's validation of a `bool` field. */
  function BoolField(lib: Library, v: Value): (r: Option<bool>)
    ensures v.PyBool? ==> r == Some(v.b)
    ensures v.PyNone? ==> r == None
  {
    match v
    case PyBool(b) => Some(b)
    case PyNone => None
    case _ => lib.laxBool(v)
  }

  /** pydantic's validation of a `date` field: a date is kept, a datetime is accepted
      only at midnight ("Datetimes provided to dates should have zero time"). */
  function DateField(lib: Library, v: Value): (r: Option<Date>)
    ensures v.PyDate? ==> r == Some(v.date)
    ensures v.PyDateTime? ==> (r.Some? <==> v.secondOfDay == 0) && (r.Some? ==> r.value == v.date)
    ensures v.PyNone? ==> r == None
  {
    match v
    case PyDate(d) => Some(d)
    case PyDateTime(d, t) => if t == 0 then Some(d) else None
    case PyNone => None
    case _ => lib.laxDate(v)
  }

  /** pydantic's validation of an `HttpUrl` field. */
  function UrlField(lib: Library, v: Value): (r: Option<string>)
    ensures v.PyNone? ==> r == None
    ensures !v.PyNone? ==> r == lib.httpUrl(v)
  {
    if v.PyNone? then None else lib.httpUrl(v)
  }
}
