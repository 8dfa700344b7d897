# pdga-data: the disc ingestion batch and the record validators

This project is a Dafny model of two parts of the PDGA data tool, with proofs about them.

The first part is the `DiscsDF` batch of `src/utils.py`. It takes the technical-standards
disc table and rewrites it in place, in four fixed steps:

1. It drops three unused columns and names the remaining 13 by position.
2. It substitutes four misspelt company names, in every cell.
3. It coerces the `approved` column to dates and fills every missing cell with 0.0.
4. It builds a `DiscBase` from every row. Each row lands either in the data list or in
   the error list, and the batch never stops early.

The second part is the record schemas of `src/schemas.py`:

- the required fields and defaults of `DiscBase` and `CompanyBase`;
- their before-validators `parse_datetime` and `parse_bool`;
- the `HoleScores` validators for the profile address and the hole scores;
- the `Event` website validator;
- `PlayerEvent.remove_scores`;
- `PlayerBase.profile`.

Modules:

- `Wrappers`: `Option` and `Result`.
- `Dates`: calendar dates, `strptime(s, "%Y-%m-%d")` as CPython's `_strptime` matches
  it, and `date.isoformat`.
- `PyValues`: the Python values that reach the code. It also holds truthiness,
  `int()` on text (whitespace, sign and `_` digit groups), iteration, and `dict.pop`
  on a mutable `PyDict`.
- `Coercion`: the library behaviour the code relies on. The conversions pydantic
  always performs are written out. pandas' `to_datetime`, pydantic's lax coercions and
  the `HttpUrl` syntax check are the function fields of a `Library` value.
- `Frames`: a pandas frame as a `Table` value. It has the operations the batch uses:
  `drop(errors="ignore")`, assignment to `columns`, `replace(dict)`, column
  assignment, `fillna` and `to_dict("records")`. The class `DataFrame` holds the
  mutable frame.
- `Schemas`: model construction as a function returning the model or the list of
  failing fields, plus the validators.
- `Utils`: each batch step is specified as a function on `Table`. The class `DiscsDF`
  runs the steps, in place, on the caller's `DataFrame`.

Missing cells are pandas' `NaN`/`NaT`/`None`; the model writes all three as `PyNone`.

## Model

| member | source | states |
|---|---|---|
| Dates.MonthThenDash | src/schemas.py:41 | `%m-` reads one or two digits as the month, followed by the dash; a two-digit month from 01 to 12 with a dash after it is always taken, and so is a single non-zero digit with a dash after it |
| Dates.DayAt | src/schemas.py:41 | `%d` reads two digits, one digit or a space and a digit as the day; two digits are taken whenever they spell 1 to 31, and otherwise a single non-zero digit is taken |
| Dates.ParseYmd | src/schemas.py:41 | a string accepted by `strptime("%Y-%m-%d")` gives a real calendar date (years 1-9999, month 1-12, day within the month) and has 8 to 10 characters with the first dash at position 4; the year is its four leading digits, the month is read after the first dash, and the day after the second dash runs to the end of the string |
| Dates.ParseYmdForms | src/schemas.py:41 | "2021-1-12" and "2021-06- 5" are accepted as January 12 and June 5, and "2021-02-29" is refused |
| Dates.ParseIsoFormat | src/schemas.py:41 | every valid date written as `YYYY-MM-DD` parses back to that date |
| Dates.ParsedTenCharsAreIso | src/schemas.py:41 | a parsed 10-character string without a padding space is exactly the `YYYY-MM-DD` text of the parsed date, so the format and the parse are inverse on canonical text |
| PyValues.Truthy | src/schemas.py:158 | the falsy values are exactly `None`, `False`, 0, 0.0, "" and the empty list |
| PyValues.IntOfText | src/schemas.py:158 | `int()` of a string fails only with `ValueError` |
| PyValues.Strip | src/schemas.py:158 | the text `int()` reads has no skipped white space at either end |
| PyValues.IntOfPaddedDigits | src/schemas.py:158 | tabs, newlines, spaces and the non-ASCII spaces on either side of the digits are ignored |
| PyValues.IntRejectsLeadingSeparator | src/schemas.py:158 | `int()` refuses an ASCII separator (U+001C) before the digits, although `str.isspace()` accepts it |
| PyValues.IntRejectsTrailingSeparator | src/schemas.py:158 | `int()` refuses an ASCII separator (U+001F) after the digits |
| PyValues.IntRejectsNonDigitStart | src/schemas.py:158 | text that does not start with a sign or a digit, once the white space is skipped, raises `ValueError` |
| PyValues.IntRejectsNonDigitEnd | src/schemas.py:158 | text that does not end with a digit, once the white space is skipped, raises `ValueError` |
| PyValues.IntOf | src/schemas.py:158 | `int()` keeps an int, takes `True`/`False` to 1/0, truncates a float, reads a string as `IntOfText` does, and raises `TypeError` on `None`, dates and lists |
| PyValues.Truncate | src/schemas.py:158 | `int()` of a float truncates toward zero: the floor for a non-negative float, the ceiling for a negative one |
| PyValues.IntOfDecimalText | src/schemas.py:158 | `int()` of the decimal text of a natural number gives that number |
| PyValues.IntOfNegatedDecimalText | src/schemas.py:158 | `int()` of "-" followed by a decimal text gives the negated number |
| PyValues.IntOfIntText | src/schemas.py:158 | `int()` inverts `str()` on every integer; CPython's 4300-digit limit is not modelled (see "## Left out") |
| PyValues.Iterate | src/schemas.py:158 | iterating a list gives its items, and iterating a string gives its one-character strings; anything else raises `TypeError` |
| PyValues.PyDict.Pop | src/schemas.py:249 | `pop(key, None)` removes exactly that key and returns its value, or `None` when it is absent |
| Frames.KeptIndices | src/utils.py:83 | the positions of the columns that survive a drop: in order, none dropped, none missed |
| Frames.DropColumns | src/utils.py:83 | `drop(columns=..., errors="ignore")` keeps the row count and rectangular shape; the resulting names are exactly the original names that were not dropped; the `j`-th remaining column is the `j`-th kept position, in its name and in every row's cell |
| Frames.DropAbsentColumns | src/utils.py:83 | dropping names the frame does not have leaves it unchanged |
| Frames.DropKeepsCellsUnderTheirNames | src/utils.py:83 | every cell after a drop is the same row's cell of a column that was not dropped |
| Frames.SetColumns | src/utils.py:84 | assigning `columns` succeeds exactly when the lengths agree and then keeps every row; otherwise it raises `ValueError` |
| Frames.ReplaceCell | src/utils.py:94 | a string cell equal to a key becomes that key's value; every other cell is unchanged |
| Frames.ReplaceValues | src/utils.py:94 | `replace(dict)` keeps the columns, the row count and every row length |
| Frames.ReplaceValuesCells | src/utils.py:94 | `replace(dict)` maps each cell through the table |
| Frames.ReplaceValuesIdempotent | src/utils.py:94 | when no value is a key, replacing twice is replacing once |
| Frames.ColumnIndex | src/utils.py:98 | `df[name]` finds the first column of that name, and fails exactly when the name is absent |
| Frames.AssignColumn | src/utils.py:98 | `df[name] = col` changes that column only, to `col`, cell by cell |
| Frames.FillNa | src/utils.py:99 | `fillna(v)` keeps the shape and leaves no missing cell |
| Frames.FillNaCells | src/utils.py:99 | `fillna(v)` puts `v` in the missing cells and keeps every other cell |
| Frames.RowRecord | src/utils.py:103 | a record's keys are the column names |
| Frames.RowRecordCells | src/utils.py:103 | with distinct column names, each key of a record maps to that column's cell |
| Frames.Records | src/utils.py:103 | `to_dict("records")` gives one record per row, in row order, each the record of its row |
| Frames.DataFrame.Drop | src/utils.py:83 | the in-place drop leaves the frame equal to `DropColumns` of its old contents |
| Frames.DataFrame.SetColumnNames | src/utils.py:84 | the in-place column assignment is `SetColumns` of the old contents; when it raises, the frame is unchanged |
| Frames.DataFrame.Replace | src/utils.py:94 | the in-place replace is `ReplaceValues` of the old contents |
| Frames.DataFrame.SetColumn | src/utils.py:98 | the in-place column assignment is `AssignColumn` of the old contents |
| Frames.DataFrame.FillNaInPlace | src/utils.py:99 | the in-place fill is `FillNa` of the old contents |
| Utils.Renamed | src/utils.py:75-84 | `rename_columns` succeeds exactly when 13 columns remain after the drop; the names are then the 13 field names in order, the row count is kept, and the cell under the `j`-th field name is the same row's cell of the `j`-th column that was not removed; otherwise `ValueError` |
| Utils.RenamedWithoutRemovedColumns | src/utils.py:82-84 | a frame without the three removed columns is only renamed: it must have exactly 13 columns, and its rows are kept unchanged |
| Utils.RenamedCellOrigin | src/utils.py:83-84 | each renamed cell comes from the same row, from a column that was not removed |
| Utils.NamesCleaned | src/utils.py:86-94 | `clean_company_names` keeps the columns, rows and row lengths, and replaces exactly the cells equal to one of the four names |
| Utils.ReplacementsAreFinal | src/utils.py:88-93 | no replacement name is itself one of the four keys |
| Utils.NamesCleanedIdempotent | src/utils.py:86-94 | cleaning the names twice is cleaning them once |
| Utils.CompanyNameExamples | src/utils.py:88-93 | "Westside Golf Discs" and "Innova-Champion Discs" become their canonical names, and "Innova" is untouched |
| Utils.DateCells | src/utils.py:98 | `.dt.date` gives one date per parsed entry and a missing cell per `NaT` |
| Utils.TypesCleaned | src/utils.py:96-99 | `clean_data_types` raises `KeyError` exactly when there is no `approved` column; otherwise it keeps the shape and leaves no missing cell |
| Utils.TypesCleanedApproved | src/utils.py:98-99 | after cleaning, an `approved` cell holds its coerced date, or 0.0 where the coercion failed |
| Utils.TypesCleanedOther | src/utils.py:99 | every other cell holds 0.0 where it was missing and is unchanged otherwise |
| Utils.Prepared | src/utils.py:68-72 | the three table steps succeed exactly when the renaming does; the result has the 13 field names, the same row count and no missing cell |
| Utils.Combined | src/utils.py:107 | `datetime.combine` turns a date or datetime into midnight of that day, raises `TypeError` on any other value, and a missing `approved` key gives `KeyError` |
| Utils.CheckRecord | src/utils.py:106-110 | a record is accepted exactly when combining its date succeeds and `DiscBase` accepts the combined record; the accepted disc is the one built |
| Utils.Outcomes | src/utils.py:105-110 | one outcome per record, in record order |
| Utils.Accepted | src/utils.py:104-111 | `data` has at most one disc per record |
| Utils.Rejections | src/utils.py:104-110 | `errors` has at most one entry per record |
| Utils.AcceptedMembers | src/utils.py:106-111 | every disc in `data` is the disc built from some record, and every record that passes has its disc in `data` |
| Utils.RejectionsMembers | src/utils.py:106-110 | every entry of `errors` is the failure of some record, and every record that fails has its entry in `errors` |
| Utils.OksMembers | src/utils.py:104-110 | the successes collected are exactly the successful outcomes |
| Utils.ErrsMembers | src/utils.py:104-110 | the failures collected are exactly the failed outcomes |
| Utils.OksErrsSizes | src/utils.py:104-110 | each outcome lands in exactly one of the two lists |
| Utils.OksErrsAppend | src/utils.py:104-110 | the two lists of a concatenation are the concatenations of the two lists |
| Utils.OutcomesAppend | src/utils.py:105-110 | the outcomes of a concatenation are the concatenated outcomes |
| Utils.PartitionSizes | src/utils.py:103-110 | `len(data) + len(errors)` equals the number of records |
| Utils.PartitionAppend | src/utils.py:103-110 | both lists keep input order, and a failure in an earlier record does not affect later ones |
| Utils.PartitionSingle | src/utils.py:106-110 | a single record lands in `data` exactly when it is valid, and in `errors` otherwise |
| Utils.RejectedRecordSkipped | src/utils.py:106-110 | a failing record adds nothing to `data`, and the records around it keep their places |
| Utils.ZeroApprovedRejected | src/utils.py:98-110 | a record whose `approved` cell is 0.0 fails with `TypeError` before construction and takes no place in `data` |
| Utils.DatedRecordKeepsDate | src/utils.py:107-108 | an accepted record whose `approved` cell was a date carries exactly that date |
| Utils.RecordApproved | src/utils.py:103 | after the table steps, the `approved` entry of each record is the last cell of its row |
| Utils.UndatedRowRejected | src/utils.py:98-110 | a prepared row whose date did not parse is rejected |
| Utils.DiscsDF.constructor | src/utils.py:63-65 | stores the frame, with `schema_data` still `None` |
| Utils.DiscsDF.RenameColumns | src/utils.py:75-84 | the frame becomes `Renamed` of the old frame; when the renaming raises, the drop has already happened |
| Utils.DiscsDF.CleanCompanyNames | src/utils.py:86-94 | the frame becomes `NamesCleaned` of the old frame |
| Utils.DiscsDF.CleanDataTypes | src/utils.py:96-99 | the frame becomes `TypesCleaned` of the old frame; on `KeyError` it is unchanged |
| Utils.DiscsDF.ValidateSchema | src/utils.py:101-114 | the loop sets `schema_data` to exactly the accepted discs, in order, and returns the two logged counts, which add up to the row count |
| Utils.DiscsDF.Transform | src/utils.py:68-73 | runs the four steps in order: on success the frame is `Prepared` of the old frame and `schema_data` holds its accepted discs; a `ValueError` from the renaming stops it after the drop, with `schema_data` unchanged |
| Utils.DiscsDF.Create | src/utils.py:63-66 | `DiscsDF(df)` rewrites the caller's own frame and succeeds exactly when the renaming does |
| Schemas.Required | src/schemas.py:15-16 | a field without a default: absent means a `Missing` error, present means the field's check decides |
| Schemas.Defaulted | src/schemas.py:17 | a field with a default: absent gives the default unchecked, present means the check decides |
| Schemas.DefaultNone | src/schemas.py:18 | a field declared `= None`: absent gives `None`; a passed value, `None` included, must pass the check |
| Schemas.Nullable | src/schemas.py:50 | an `Optional` field: absent or `None` gives `None`, and any other value must pass the check |
| Coercion.StrField | src/schemas.py:15 | a `str` field keeps a string as it is and refuses `None` |
| Coercion.FloatField | src/schemas.py:17 | a `float` field keeps a float, takes an int as its number, and refuses `None` |
| Coercion.BoolField | src/schemas.py:35 | a `bool` field keeps a boolean and refuses `None` |
| Coercion.DateField | src/schemas.py:27 | a `date` field keeps a date, takes a datetime only at midnight, as its date, and refuses `None` |
| Coercion.UrlField | src/schemas.py:34 | an `HttpUrl` field refuses `None` and otherwise is the URL check |
| Schemas.ParseDatetime | src/schemas.py:37-42 | `parse_datetime` returns non-strings unchanged, turns a string into the date `strptime` reads from it, and raises `ValueError` only on strings `strptime` refuses |
| Schemas.ApprovedField | src/schemas.py:27-42 | an `approved` string is read only by `strptime("%Y-%m-%d")`; any other value goes to the `date` check unchanged |
| Schemas.ParseDatetimeIso | src/schemas.py:39-42 | a `YYYY-MM-DD` string becomes the date with that year, month and day |
| Schemas.OptionalNumbers | src/schemas.py:18-31 | a run of numeric `= None` fields succeeds exactly when every present one is a number; each value is the coerced number or `None`, and every error names a failing field of the run |
| Schemas.MakeDisc | src/schemas.py:14-35 | `DiscBase(**kw)`: an error list is never empty; a missing manufacturer or name is reported as `Missing`; on success the required fields and `approved` come from the input, and `weight_max` is 180.0 when absent |
| Schemas.MakeDiscAcceptable | src/schemas.py:14-42 | construction succeeds exactly when both required fields are present and every present field passes its check |
| Schemas.MakeDiscMeasures | src/schemas.py:18-25 | each of the eight dimension fields of the built disc is the number its argument coerces to, or `None` when absent |
| Schemas.MakeDiscFlight | src/schemas.py:28-32 | each of the five flight numbers of the built disc is the number its argument coerces to, or `None` when absent |
| Schemas.MakeDiscOptionalFields | src/schemas.py:26-35 | `cert`, `description`, `url` and `oop` of the built disc are their validated arguments, or `None` when absent |
| Schemas.OptionalNumbersAbsent | src/schemas.py:18-31 | absent numeric fields all default to `None` |
| Schemas.DiscDefaults | src/schemas.py:14-35 | a disc given only its two names gets `weight_max` 180.0 and `None` in every other field |
| Schemas.MakeDiscRejectsBadDate | src/schemas.py:26-42 | an `approved` string that `strptime` rejects makes construction fail on `approved`, whatever the other fields hold |
| Schemas.Lower | src/schemas.py:69 | lower-casing keeps the length and lower-cases each character in place |
| Schemas.ParseBool | src/schemas.py:65-73 | `parse_bool` gives `True` exactly for "active" and `False` exactly for "inactive", in any letter case; every other value is returned unchanged |
| Schemas.ParseBoolIgnoresCase | src/schemas.py:69-71 | two spellings that differ only in case get the same result |
| Schemas.ParseBoolIdempotent | src/schemas.py:65-73 | applying the validator to its own output changes nothing |
| Schemas.ParseBoolExamples | src/schemas.py:68-73 | "Inactive" gives `False`, "ACTIVE" gives `True`, and "Pending" is unchanged |
| Schemas.LowerChar | src/schemas.py:69 | an ASCII capital becomes its small letter; every other character is unchanged |
| Schemas.IsActiveFieldValues | src/schemas.py:63-73 | "active" and "inactive", in any letter case, give `True` and `False`; a boolean is kept; `None` is refused; any other string goes to the `bool` check |
| Schemas.MakeCompany | src/schemas.py:45-63 | `CompanyBase(**kw)`: an error list is never empty; a missing `company_name` is reported as `Missing`; on success the name comes from the input, and `is_active` is `True` when absent or else the validated status |
| Schemas.MakeCompanyAcceptable | src/schemas.py:45-73 | construction succeeds exactly when `company_name` is present and every present field passes its check |
| Schemas.InactiveCompany | src/schemas.py:63-72 | "Inactive", in any case, gives an inactive company |
| Schemas.ValidateProfileUrl | src/schemas.py:147-152 | "" and `None` become "https://www.pdga.com/no_profile", and every other value is unchanged |
| Schemas.ValidateProfileUrlIdempotent | src/schemas.py:147-152 | applying the validator twice is applying it once |
| Schemas.ScoreOf | src/schemas.py:158 | a falsy entry becomes `None`; any other entry becomes `int(entry)`, or raises exactly the exception `int` raises |
| Schemas.ConvertScores | src/schemas.py:158 | the comprehension succeeds exactly when every entry converts, keeps the length, and converts entry by entry; a failure is the exception of the first entry that fails, every entry before it converting |
| Schemas.ValidateScores | src/schemas.py:154-159 | `validate_scores` converts a list's items, or a string's one-character strings, through the comprehension and keeps the number of entries; it raises `TypeError` on a value that is neither a list nor a string |
| Schemas.ScoreOfScoreText | src/schemas.py:158 | a score written as text, or as "" when missing, converts back to itself |
| Schemas.ValidateScoresOfTexts | src/schemas.py:154-159 | a list of scores written as text validates back to the same scores |
| Schemas.ScoreText | src/schemas.py:158 | a score is written as a string, empty exactly for a hole without a score |
| Schemas.ZeroScoreIsMissing | src/schemas.py:158 | a numeric 0 is falsy and becomes a missing score |
| Schemas.WebsiteUrlAsWritten | src/schemas.py:224-233 | the validator as written keeps `None`, and raises `TypeError` for every other value |
| Schemas.WebsiteUrlAsWrittenRejectsValidUrl | src/schemas.py:229-231 | on a well-formed https address, the validator as written raises while the intended one keeps the URL |
| Schemas.ValidateWebsiteUrl | src/schemas.py:224-233 | the intended validator keeps `None`, returns the value the URL check accepts, and turns a rejected value into `None` |
| Schemas.RemoveScores | src/schemas.py:243-250 | removes "scores" in place and hands on the same dict; every other key keeps its value, and an absent key is not an error |
| Schemas.Profile | src/schemas.py:326-333 | the profile has exactly the dump's keys minus `stats_years_urls` and `event_results`, with the same values |
| Schemas.ProfileOfPlayer | src/schemas.py:310-333 | a player's profile keeps the name and number, and drops the two excluded fields |

## Left out

- `Downloader`, `PDGADataHandler`, `main` and the logging configuration (src/utils.py:18-57, 117-166) are not part of this model. They are HTTP, file and console I/O.
- The `logging.info` call of `validate_schema` is not modelled. `Utils.DiscsDF.ValidateSchema` returns the two counts it logs instead.
- The `rich` `print` in `validate_website_url` is console output and is not modelled.
- The field-declaration classes without logic (`HoleDetail`, `Layout`, `Divisions`, `TournamentResult`, the season, rating and upcoming-event classes) are not part of this model. So are their `alias_generator`s, and the construction of `HoleScores`, `Event`, `PlayerEvent` and `PlayerBase` beyond the validators modelled.
- Library behaviour is a parameter, not reimplemented. This covers:
  - pandas' format inference in `to_datetime`;
  - pydantic's lax coercions (numeric strings to floats, "yes" to `True`, ...);
  - the `HttpUrl` syntax check and its normalisation.

  Only the length-preserving shape of `to_datetime` over a column is fixed.
- Floating point is `real`. The model does not keep apart the `int` and `float` that a `Union[float, int]` field can hold; both are its value as a number.
- Schemas.Lower: ASCII lower-casing only. No character outside ASCII lower-cases to a letter of "active" or "inactive", so `ParseBool` is exact.
- Dates.ParseYmd: ASCII digits only. `strptime` also accepts other Unicode decimal digits.
- PyValues.IntOfText: ASCII digits only. Python's `int()` also accepts other Unicode decimal digits.
- PyValues.IntOfText: no digit limit. CPython refuses text of more than `sys.get_int_max_str_digits()` (4300 by default) digits with `ValueError`, and `str()` refuses such integers the same way, so `PyValues.IntOfIntText` holds in CPython only below that limit.
- Schemas.ValidateScores: models lists and strings. Iterating other Python iterables (a dict's keys, a tuple) is not modelled; those values raise `TypeError` in the model.
- Schemas.RemoveScores: takes a dict. A non-dict input to the model validator (which makes `pop` fail) is not modelled.
- Schemas.MakeDisc: its own contract links the two names, `weight_max` and `approved` to the input. The other fields are linked by `Schemas.MakeDiscMeasures`, `Schemas.MakeDiscFlight` and `Schemas.MakeDiscOptionalFields`.
- Schemas.MakeCompany: its contract links `company_name` and `is_active` to the input. The other fields are characterised only through `Schemas.MakeCompanyAcceptable`, which says when construction succeeds.
- Utils.CheckRecord: pydantic's exception objects are reduced to an exception kind or the list of failing fields with their kind. Messages and input echoes are not modelled.
- Frames.ColumnIndex: with duplicate column names, `df["approved"]` is taken as the first such column. pandas would return a sub-frame there, which the 13 distinct field names rule out after renaming.

## Findings

| source | as written | input that shows it | evidently intended | confidence | as-written member | corrected member |
|---|---|---|---|---|---|---|
| src/schemas.py:229 | `HttpUrl(value, scheme="https")`. The module uses pydantic 2 (`field_validator`, `model_validator`, `RootModel`), where `HttpUrl` takes the URL alone, so the keyword makes the call raise `TypeError`. Neither `except ValidationError` nor pydantic converts it, so an `Event` with any website other than `None` fails to construct. | `website="https://example.com"` | validate the URL: `None` stays `None`, a valid URL is kept, an invalid one becomes `None` | high, not executed | Schemas.WebsiteUrlAsWritten, Schemas.WebsiteUrlAsWrittenRejectsValidUrl | Schemas.ValidateWebsiteUrl |
