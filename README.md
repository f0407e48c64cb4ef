# geo-playground merger, modelled in Dafny

The merger reads two `;`-separated files of points of interest and joins
them row by row. The first file has `id_store`, `address` and
`variable1`; the second has `address` and `variable2`. For every pair of
rows it writes `store_id;var1;var2;ratio`. It has two parts:

- `prepare_df` walks the parsed records of one file in order. It builds a
  table with one row per record: `row_id` (the 0-based position),
  `store_id` (the `id_store` cell, or `''` when the file has no such
  column), `address` and `value` (the named measure cell passed through
  `float`). A missing `address` or measure column raises `KeyError`. A
  non-numeric measure raises `ValueError`.
- `merge` prepares the first file on `variable1` and the second on
  `variable2`. It raises `MergerError("Dataframes with different number of
  rows")` when the two tables differ in length. Otherwise it inner-joins
  them on `row_id` and adds `ratio`: `value_x / value_y` when
  `value_y > 0`, else `-1`. It keeps `store_id` (from the first table),
  `var1`, `var2` and `ratio`, in that order.

Modules:

- `Wrappers` (wrappers.dfy): `Option` and `Result`.
- `Numeric` (numeric.dfy): `ParseFloat`, the conversion `float(var)`
  applies to a measure cell, restricted to decimal numerals.
- `Frames` (frames.dfy): records (`map<string, string>`, one per data
  line), prepared rows, the `Error` datatype, and `prepare_df`. The loop
  is the method `PrepareDf`, proved equal to the specification function
  `Prepared`.
- `Merger` (merger.dfy): the join, the ratio rule, the projection and
  `Merge`. Each is a pure function, as in the source.
- `Scenarios` (examples.dfy): concrete inputs taken from the test suite and
  from the script's usage text.

The repository holds the same code twice: the package module
`geo_playground/merger.py` (which the tests import) and the script
`merger.py`. In the script, `merge` and `prepare_df` (merger.py:71-133)
repeat geo_playground/merger.py:29-91 line for line, 42 lines further
down. For example, the size check at merger.py:86-87 is
geo_playground/merger.py:44-45. The join at merger.py:89 is line 47, the
ratio at merger.py:90-91 is lines 48-49, and the projection at
merger.py:92-93 is lines 50-51. The loop at merger.py:119-131 is lines
77-89. So every row below models both copies; the table cites the package
copy.

Where the code and its own documentation differ, the model follows the
code:

- The docstring of `merge` (geo_playground/merger.py:34, merger.py:76)
  says the ratio is -1 "in case the value of df2.variable2 is 0". Line 48
  tests `row.value_y > 0`, so negative divisors also give -1.
- The script's usage text (merger.py:39-54) shows 2 first-file rows and 3
  second-file rows producing 3 output lines. The size check at
  merger.py:86-87 rejects that input (`Scenarios.TwoAgainstThreeFails`).
- There is no address normalisation or address join in the code; only the
  unused constant `ADDRESS_NORM` (geo_playground/merger.py:13). The join is
  on `row_id` only.

An edge case the code has: a file with no data rows never enters the loop
of `prepare_df`. So it prepares to an empty table even when a required
column is missing (`Prepared([], v) == Ok([])`).

## Model

| member | source | states |
|---|---|---|
| `Frames.Prepared` | geo_playground/merger.py:77-89 | Definition of the table `prepare_df` returns, or the first error; its contract gives one row per record with `row_id == i`. Described further by PreparedOk, PreparedErr, PreparedFields |
| `Frames.BuildRow` | geo_playground/merger.py:77-87 | A record yields a row exactly when it has `address`, has the measure column and the measure cell parses. The errors come in source order: KeyError('address'), then KeyError(var_name), then the `float` failure. The row has the given index as row id, the address cell, the parsed measure, and the `id_store` cell or `''` |
| `Frames.PrepareDf` | geo_playground/merger.py:73-91 | The loop that fills `df_norm.loc[index]` returns exactly `Prepared(records, varName)`: the table, or the first error met |
| `Frames.PreparedOk` | geo_playground/merger.py:77-89 | The preparation succeeds iff every record yields a row. Then the table has one row per record, and row i is the row built from record i at index i |
| `Frames.PreparedErr` | geo_playground/merger.py:77-86 | A failing preparation reports the error of the first failing record; all earlier records build rows |
| `Frames.PreparedExtendError` | geo_playground/merger.py:77-89 | Once the records up to some point fail, every longer walk fails with that same error (the exception ends the loop) |
| `Frames.PreparedOneRowPerRecord` | geo_playground/merger.py:77-89 | A prepared table has as many rows as the file has records, and row i has `row_id == i` |
| `Frames.PreparedFields` | geo_playground/merger.py:78-86 | Row i of a prepared table has the `id_store` cell of record i as `store_id`, or `''` when the record has no `id_store`. It has that record's address cell, and as `value` the parse of its measure cell |
| `Frames.MissingAddressFails` | geo_playground/merger.py:79 | A non-empty file without an `address` column fails with KeyError('address') |
| `Frames.MissingMeasureFails` | geo_playground/merger.py:80 | A non-empty file with addresses but without the measure column fails with KeyError(var_name) |
| `Frames.NonNumericFails` | geo_playground/merger.py:86 | Any measure cell that does not parse makes the whole preparation fail |
| `Numeric.ParseFloat` | geo_playground/merger.py:86 | The decimal-only stand-in for `float(var)` (see `Numeric.ParseFloat` under Left out); a non-empty run of ASCII digits parses to its decimal value. Described further by ParseFloatRejects, ParseFloatIntText |
| `Numeric.ParseFloatRejects` | geo_playground/merger.py:86 | For the decimal-only parser (not Python's `float`, which accepts more): a cell holding a character other than an ASCII digit, `.`, `+` or `-` does not parse; a cell that parses holds at least one digit |
| `Numeric.ParseFloatIntText` | geo_playground/merger.py:86 | The decimal text of every integer parses back to that integer (the `74` of a cell becomes `74.0`) |
| `Merger.JoinOnRowId` | geo_playground/merger.py:47 | Definition of the inner join on `row_id` in the first table's order; a join with an empty side is empty. Described by JoinSound, JoinComplete, JoinIsZip |
| `Merger.Project` | geo_playground/merger.py:48-51 | The output row keeps the first table's `store_id`, `value_x` as var1 and `value_y` as var2, and its ratio follows the sentinel rule (quotient iff var2 > 0, and then ratio × var2 == var1) |
| `Merger.RatioOf` | geo_playground/merger.py:48-49 | The ratio is a quotient exactly when the divisor is > 0, and then quotient × divisor == dividend. Otherwise (divisor 0 or negative, whatever the dividend) it is the sentinel -1 |
| `Merger.MergeFrames` | geo_playground/merger.py:44-51 | Two prepared tables are rejected with MergerError("Dataframes with different number of rows") exactly when their lengths differ; the check comes before the join |
| `Merger.JoinSound` | geo_playground/merger.py:47 | Every row of the inner join on `row_id` pairs a row of the first table with a row of the second that has the same `row_id` |
| `Merger.JoinComplete` | geo_playground/merger.py:47 | Every pair of rows sharing a `row_id` appears in the inner join |
| `Merger.JoinIsZip` | geo_playground/merger.py:47 | For two tables of one length whose row ids are their positions, the inner join on `row_id` is the positional pairing: row i with row i, same length, same order |
| `Merger.MergeFramesPositional` | geo_playground/merger.py:47-51 | On such tables the output has one row per input row. Row i is (store_id of the first table's row i, its value, the second table's value, their ratio) |
| `Merger.Merge` | geo_playground/merger.py:41-51 | Definition of `merge` on parsed records; files of different record counts always fail, and a result has as many rows as each file has records. Described by MergeOk, MergeErrors |
| `Merger.MergeOk` | geo_playground/merger.py:41-51 | The merge succeeds iff both files prepare and have as many records. Then output row i has the first file's `id_store` (or `''`), the parsed `variable1` of record i of the first file, the parsed `variable2` of record i of the second, and their ratio |
| `Merger.MergeErrors` | geo_playground/merger.py:41-45 | Errors come in order: the first file's preparation error, then the second file's, then MergerError for a row-count mismatch when both prepared |
| `Merger.MergeRowCountMismatch` | tests/test_merger.py:84-92 | Files with different record counts never produce output |
| `Merger.MergeRatioRule` | geo_playground/merger.py:48 | Every output row has a quotient ratio iff var2 > 0, and then ratio × var2 == var1 |
| `Merger.MergeIgnoresAddressesAndSecondStore` | geo_playground/merger.py:47-51 | Changing the address cells of either file, or the second file's `id_store` cells (keeping which columns are present, the measure cells and the first file's `id_store` cells), does not change the result. The projection drops both addresses and the second store id |
| `Scenarios.TwoStoresMerge` | merger.py:39-53 | Stores (1, "100 High St.", 74) and (2, "382-384 Brixton Rd", 91) against 88 and 42 give [("1", 74.0, 88.0, 74/88), ("2", 91.0, 42.0, 91/42)] |
| `Scenarios.TwoAgainstThreeFails` | merger.py:39-54 | The usage text's 2-against-3 input raises MergerError instead of producing output |
| `Scenarios.UnknownMeasureFails` | tests/test_merger.py:48-55 | Preparing on the measure `unknown` fails with KeyError('unknown') |
| `Scenarios.NonPositiveDivisorGivesSentinel` | tests/test_merger.py:81-82 | Second measures 0 and -5 both give the ratio -1 |

## Left out

- CSV reading and writing (`pd.read_csv`, `to_csv`, the `;` delimiter, the header line) is I/O inside pandas. Its errors are left out too (`FileNotFoundError`, the wrong-format failure of tests/test_merger.py:94-112). The model takes the parsed records as input and returns the projected rows.
- `main`, `get_params`, argparse and the unused `--debug` flag (merger.py:34-68, 136-144) are command-line plumbing.
- Merger.RatioOf: keeps the exact real quotient instead of the `"%.2f"` text (IEEE-754 division and rounding are floating point), so "0.84" appears as 74/88.
- Numeric.ParseFloat: accepts only a sign, ASCII digits and one optional decimal point. Python's `float` also accepts exponents, `inf`, `nan`, underscores between digits, surrounding whitespace and non-ASCII decimal digits (`float('٧٤') == 74.0`); the model rejects all of these. pandas' own typing of numeric columns is not modelled either.
- Missing values: pandas reads a blank cell as NaN. A blank `id_store` then gives NaN rather than `''`. A blank measure passes `float` as NaN, and the ratio rule then gives -1 for NaN divisors. The model treats a blank measure as non-numeric.
- pandas `merge` internals (dtypes, index handling) are not modelled. The join is specified by its result: a nested-loop inner join in the first table's order, proved equal to the positional pairing.
- Address normalisation and a join on addresses: there is none in the code, only the unused constant `ADDRESS_NORM` (geo_playground/merger.py:13), so there is nothing to model.
- The text of `KeyError` and `ValueError` messages is not modelled, and neither is the exception class hierarchy. `MergerError` keeps its `msg`.
- setup.py is packaging only.
