# Formula 1 race-results cleaner, modelled in Dafny

This project models the table cleaner of the Formula 1 race-prediction
pipeline: `process_f1_data` in `src/process_data.py`. The cleaner takes a
table of race results, one row per driver per race, and works through it
column by column:

- it coerces seven columns to numbers, and text that is not a number becomes
  missing;
- it parses `StintStrategy` into a list of tyre-compound labels (`parse_stint`);
- it derives `StintCount` from that list;
- it fills missing values by a fixed rule per column: `-1` for the three
  positions, the column mean for `AirTemp`, `TrackTemp` and `NumLaps`, `0`
  for `PitStopCount`, and `'Unknown'` for `Weather` and `WeatherCategory`.

Files and modules:

- `cells.dfy` (`Cells`): a table cell (missing, a number or text), the numeral
  reader behind `pd.to_numeric(..., errors='coerce')`, and `fillna` on a cell.
- `stints.dfy` (`Stints`): `parse_stint`, a reader for the list literal
  `['SOFT', 'MEDIUM']` that stands in for `ast.literal_eval`, the
  `StintCount` lambda, and the writer `str(list)` that `to_csv` uses for a
  list cell.
- `table.dfy` (`Table`): rows, columns, each column step of the source as a
  function on a sequence of rows, `Clean` (all steps in source order), and
  `CleanRow`, a reference definition that cleans one row given the column
  means. `CleanByRow` proves the two agree.
- `properties.dfy` (`CleanProperties`): what cleaning guarantees for each
  column, the bounds of the mean, and idempotence.
- `frame.dfy` (`ProcessData`): the DataFrame as a class over an
  `array<Row>`. The class is updated in place by one loop per source step,
  and `Process` is proved to produce `Clean` of the input.

A table cell holds what a CSV read can give: NaN (`Missing`), a number, or
text. Numbers are exact `real`s. The `StintStrategy` cell holds either such a
cell or an already parsed list. `parse_stint` passes a list through unchanged
(src/process_data.py:17-18). A table read from a CSV file holds no list, so
that branch is reached only when the cleaning is applied again to a table
already in memory.

## Model

| member | source | states |
|---|---|---|
| `Cells.ToNumeric` | src/process_data.py:8-14 | Coercion never fails and never leaves text. A number is kept, a missing cell stays missing, and text becomes a number exactly when it reads as a numeral, with that numeral's value. |
| `Cells.IntTextRoundTrip` | src/process_data.py:8-14 | Any integer written as text coerces back to that same integer. |
| `Cells.NumeralShape` | src/process_data.py:8-14 | Only a numeral coerces to a number. Coercible text has at most one leading sign, then digits with at most one point among them, and at least one digit. Text such as `DNF`, `1.2.3` or the empty text becomes missing. |
| `Cells.CoercionIdempotent` | src/process_data.py:8-14 | A coerced cell is a number or missing, and coercing it again changes nothing. |
| `Cells.ParseNumber` | src/process_data.py:8-14 | The numeral reader behind `to_numeric`. A numeral read is never empty text, and the sign of its value follows the leading `-`. |
| `Cells.FillNa` | src/process_data.py:29-37 | `fillna` on one cell: a missing cell becomes the fill value, and any other cell is kept. |
| `Cells.DecimalTextRoundTrip` | src/process_data.py:8-14 | Any decimal numeral `d.f` or `-d.f` coerces to its value, the whole part plus the fraction. A temperature such as `24.5` keeps its value. |
| `Stints.ParseStint` | src/process_data.py:16-24 | A list is returned unchanged. Text starting with `[` is read as a list literal, and a failed read gives `[]`. Any other value gives `[]`. |
| `Stints.ParseListLiteral` | src/process_data.py:19-21 | The stand-in for `ast.literal_eval` on a list of strings. It reads only text that starts with `[`, and every label it reads is free of escapes and line breaks. |
| `Stints.StintCount` | src/process_data.py:27 | The count is the length of a list and 0 for anything else. |
| `Stints.StintCountOfParsed` | src/process_data.py:25-27 | After parsing, the stint count is the number of stints parsed. For a list it is unchanged. |
| `Stints.ParseStintIdempotent` | src/process_data.py:17-18 | A parsed list parses to itself. |
| `Stints.StintTextRoundTrip` | src/process_data.py:19-21 | A list of plain labels written as `str(list)` parses back to the same list. |
| `Table.Set` | src/process_data.py:8-37 | Assigning a column changes that column only. Every other column, the stint columns and the untouched columns are kept. |
| `Table.Mean` | src/process_data.py:32-35 | `Series.mean()` skips missing cells. There is no mean (NaN) exactly when the column holds no number, and otherwise the mean times the count of numbers is their sum. |
| `Table.FillMean` | src/process_data.py:32-35 | Filling with the column mean keeps the row count and every row whose cell is present. A missing cell gets the mean, and a column without a mean is left unchanged. |
| `Table.Clean` | src/process_data.py:8-37 | The column steps in source order. Cleaning keeps the number of rows. |
| `Table.CleanRow` | src/process_data.py:8-37 | One row cleaned with given column means. Every position is a number, and the pit-stop count is a number. Neither weather label is missing, the stints are a list whose count is its length, and the untouched columns are kept. |
| `Table.CleanByRow` | src/process_data.py:8-37 | The column-by-column cleaner keeps the row count and equals the per-row reference definition. The means are taken over the coerced columns, before any gap is filled. |
| `CleanProperties.NoMeanIffNoNumber` | src/process_data.py:32-35 | A column has no mean (NaN) exactly when it holds no number. |
| `CleanProperties.MeanBounds` | src/process_data.py:32-35 | The mean lies between any lower and upper bound of the numbers present. |
| `CleanProperties.CleanKeepsRows` | src/process_data.py:5-40 | Cleaning keeps the number and order of rows and leaves the columns it does not name unchanged. |
| `CleanProperties.PositionsFilled` | src/process_data.py:29-31 | No position is left missing. A missing or unreadable position becomes `-1`, and a readable one keeps its value. |
| `CleanProperties.MeanFilled` | src/process_data.py:32-35 | Air temperature, track temperature and lap count are handled the same way. A number present is kept. A gap gets the mean of the column's coerced numbers. A column with no number stays missing. |
| `CleanProperties.MeanFillInRange` | src/process_data.py:32-35 | A filled value lies within the range of the values present in its column. |
| `CleanProperties.ConstantFills` | src/process_data.py:34-37 | A missing pit-stop count becomes 0, and missing weather labels become `'Unknown'`. Values present are kept. |
| `CleanProperties.StintsDerived` | src/process_data.py:25-27 | Each cleaned row holds its parsed stints, and its stint count is their number. |
| `CleanProperties.CleanRowTwice` | src/process_data.py:17-37 | A cleaned row passes through a second cleaning unchanged, provided no mean becomes defined where none was. |
| `CleanProperties.CleanIdempotent` | src/process_data.py:8-37 | Cleaning a cleaned table gives the same table. |
| `ProcessData.Frame.UpdateColumn` | src/process_data.py:8-14 | Reassigning a column in place transforms every row's cell of that column and nothing else. |
| `ProcessData.Frame.CoerceNumeric` | src/process_data.py:8-14 | The in-place coercion of one column matches `CoerceColumn`. |
| `ProcessData.Frame.FillNaWith` | src/process_data.py:29-37 | The in-place `fillna` with a constant matches `FillColumn`. |
| `ProcessData.Frame.ColumnMean` | src/process_data.py:32-35 | The loop's sum and count give the mean of the numbers present, or no mean when there are none. |
| `ProcessData.Frame.FillNaWithMean` | src/process_data.py:32-35 | Filling with the column mean matches `FillMean`. A NaN mean leaves the column unchanged. |
| `ProcessData.Frame.ApplyParseStint` | src/process_data.py:25 | Every stint cell is replaced by its parsed list. |
| `ProcessData.Frame.AddStintCount` | src/process_data.py:27 | Every row's stint count is set from its stint cell. |
| `ProcessData.Frame.Process` | src/process_data.py:8-37 | The steps run in source order and leave the table equal to `Clean` of the input. Each row equals `CleanRow` with the input's means. |
| `ProcessData.ProcessF1Data` | src/process_data.py:5-40 | The cleaned table has as many rows as the input and no missing position. Each stint count is the length of its list, and cleaning the result again changes nothing. |

## Left out

- Reading and writing the CSV files and the `print` (src/process_data.py:6, 39-40): these are file I/O. The table comes in and goes out as a sequence of rows.
- `src/eda.py`, `src/fetch_data.py` and `src/test_fetch.py`: these are plotting and calls to the external `fastf1` service, with no cleaning logic.
- Numbers are exact reals, so floating-point rounding of the mean and of parsed numerals is not modelled.
- Integer and float column types are not modelled. The `-1` and `0` fills are the reals `-1.0` and `0.0`.
- `ParseNumber` reads a restricted set of numerals: an optional sign, digits, and an optional decimal point with more digits. pandas also reads exponents (`1e3`), `inf`, and surrounding spaces; the model treats those as missing. `nan` is missing in both.
- `ParseListLiteral` reads a restricted part of `ast.literal_eval`'s grammar: a bracketed list of single- or double-quoted strings, with spaces, an optional trailing comma and spaces after the closing bracket. Escape sequences, string prefixes, adjacent string literals, comments, and non-string elements such as numbers or nested lists all count as failures, so they give `[]`. Python would return a list for some of these.
- A column with no number at all has a NaN mean, and `fillna` with NaN changes nothing. The model keeps such a column missing instead of requiring a number to be present.
- pandas' chained-assignment and copy semantics of `df[c].fillna(..., inplace=True)` are not modelled. The model fills the column, which is the evident intent.
- Categorical encoding, encoder persistence, the driver-code mapping, the multi-season collector and the rainfall-to-weather-category rule are not in the cleaner's source. Encoding appears only as a to-do comment (src/process_data.py:1), so none of these are modelled.
- `PitStopCount` is filled with 0 (src/process_data.py:34). A median fill would be another reasonable policy, but the code fills 0, and so does the model.
- Both `Weather` and `WeatherCategory` are filled with `'Unknown'` (src/process_data.py:36-37), and the model fills both.
- `StintStrategy` text is read as a Python list literal (src/process_data.py:21), not split on a delimiter. The model does the same.
- ParseListLiteral: text that starts with `[` but is a tuple to `ast.literal_eval`, such as `['SOFT'], ['HARD']` or `['SOFT'],`, counts as a failed read in the model and gives `[]`. In the source `parse_stint` returns the tuple, and the lambda at src/process_data.py:27 then gives a `StintCount` of 0, not the tuple's length. `StintsDerived` and `ProcessF1Data` promise that each stint count is the length of its list. That holds only because the model treats such text as a failed read.
- CleanIdempotent: it, and the `Clean(cleaned) == cleaned` clause of `ProcessF1Data`, are about cleaning the same table again in memory. Across `to_csv` and `read_csv` (src/process_data.py:39, 6), every value comes back as `read_csv` reads the text that `to_csv` wrote. Of that round trip, only the stint text is covered, by `StintTextRoundTrip`.
- The input is assumed to have the ten columns the cleaner reads: the seven numeric columns (src/process_data.py:8-14), `StintStrategy` (line 25), `Weather` (line 36) and `WeatherCategory` (line 37). The source raises `KeyError` when the CSV lacks one of them, and the model has no such error path. `StintCount` is not read: line 27 creates it or overwrites it. The model's `Row` always carries a `stintCount` cell, and cleaning overwrites it.
