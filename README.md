# Lightcurve statistics, modelled in Dafny

This project models the statistics layer of `lcanalyzer`, a small lightcurve
analyser. Lightcurves are tables with one row per observation. The layer
offers five operations on them:

- `max_mag`, `min_mag` and `mean_mag` reduce one named magnitude column to a
  single number.
- `calc_stats` walks a list of photometric bands. For each band it looks up
  that band's table and records `{max, mean, min}` of its magnitude column.
- `normalize_lc` rescales one band's magnitude column to `[0, 1]`. It
  subtracts the column minimum from the whole table, divides by the maximum of
  the shifted column, and turns the NaN of a constant column (0/0) into 0.

Files:

- `series.dfy` (module `Series`): a numeric column and what is done to it. It
  has `Max`, `Min`, `Sum`, `Mean`, elementwise subtraction and division, and
  `fillna`. Division follows the floating-point rules for a zero divisor:
  0/0 is NaN and x/0 is an infinity. The file also proves the lemmas about
  sums, bounds and permutations.
- `frames.dfy` (module `Frames`): tables and the other kind of argument a
  caller can pass (a plain string). It covers indexing by column name
  (TypeError or KeyError), `table - scalar`, and exchanging two rows.
- `models.dfy` (module `Models`): the five operations and the per-band
  specification `BandStats` that `CalcStats` is proved against.
- `properties.dfy` (module `ModelProperties`): lemmas that relate several
  calls. They cover ordering, row-order independence, constant columns, and
  the normalisation's denominator, extremes and degenerate case.
- `scenarios.dfy` (module `Scenarios`): the concrete tables the statistics
  functions are exercised on, and the values they give.

Exceptions are modelled as values. A `Result` is either `Ok(value)` or
`Err(TypeError | KeyError(name))`. Magnitudes are exact `real` numbers.

`calc_stats` is the one imperative operation. It is the method
`CalcStats`, whose `for` loop extends a local `map<string, Stats>` band by
band, as the source's `stats[b] = stat` does. The other operations are pure
functions, as in the source.

The reducers add no type check of their own. Indexing a plain string by a
column name raises TypeError (`max_mag('string', 'b')`), and the
model keeps that case. Text columns, where pandas raises TypeError on `.mean()`
and on `table - scalar`, are outside the model (see Left out).

## Model

| member | source | states |
|---|---|---|
| `Series.Max` | lcanalyzer/models.py:35 | the maximum of a non-empty column is one of its entries and no entry exceeds it |
| `Series.Min` | lcanalyzer/models.py:44 | the minimum of a non-empty column is one of its entries and no entry is below it |
| `Series.Mean` | lcanalyzer/models.py:26 | the mean times the number of entries is the sum of the entries |
| `Series.SumPermutation` | lcanalyzer/models.py:26 | two columns holding the same values in any order have the same sum |
| `Series.MeanBetween` | lcanalyzer/models.py:26 | if every entry lies in [lo, hi], so does the mean |
| `Series.MeanWithinBounds` | lcanalyzer/models.py:20-44 | the mean of a column lies between its minimum and its maximum |
| `Series.ExtremesPermutation` | lcanalyzer/models.py:29-44 | max and min depend only on the multiset of entries, not on their order |
| `Series.MaxMinus` | lcanalyzer/models.py:69 | subtracting a scalar from every entry lowers the maximum by exactly that scalar |
| `Series.Minus` | lcanalyzer/models.py:69-70 | `s - c` keeps the length, and adding `c` back to each entry gives the original entry |
| `Series.Divide` | lcanalyzer/models.py:70 | one quotient under the floating-point rules: finite exactly when the divisor is non-zero, and then times the divisor it gives the dividend; 0/0 is NaN, a positive or negative number over 0 is +inf or -inf |
| `Series.DivideBy` | lcanalyzer/models.py:70 | `s / c` keeps the length; with c non-zero every entry is finite and times c gives the original entry; with c zero no entry is finite, and an entry is NaN exactly when the original entry is 0 (otherwise a signed infinity) |
| `Series.FillCell` | lcanalyzer/models.py:71 | after filling, a cell is never NaN; a NaN becomes the fill value and any other cell is kept |
| `Series.FillNa` | lcanalyzer/models.py:71 | `fillna(v)` keeps the length, leaves no NaN, puts v where a NaN was, and keeps every other cell |
| `Frames.Column` | lcanalyzer/models.py:26-44 | `data[mag_col]`: a string gives TypeError and a missing column gives KeyError(mag_col); it succeeds exactly on a table holding the column and yields that column, one value per row |
| `Frames.Subtract` | lcanalyzer/models.py:69 | `df - min` fails only on a string; on a table it keeps the row count and the column names, and subtracts the scalar from every cell of every column |
| `Models.MaxMag` | lcanalyzer/models.py:29-35 | a string argument gives TypeError and a missing column gives KeyError; otherwise the result is an entry of the column and every entry is at most the result |
| `Models.MinMag` | lcanalyzer/models.py:38-44 | a string argument gives TypeError and a missing column gives KeyError; otherwise the result is an entry of the column, at most every entry, with no special case for sign |
| `Models.MeanMag` | lcanalyzer/models.py:20-26 | the same two errors; otherwise it succeeds with a value between the column's minimum and maximum which, times the row count, is the sum of the column |
| `Models.MeanMagIsAverage` | lcanalyzer/models.py:26 | `mean_mag` times the row count equals the sum of the column: the sum divided by the number of rows |
| `Models.BandStats` | lcanalyzer/models.py:55-59 | one iteration of the band loop: a band missing from `lc` gives KeyError(band), a string gives TypeError, a missing column gives KeyError(mag_col); it succeeds exactly otherwise, with the max, mean and min of that band's column |
| `Models.CalcStats` | lcanalyzer/models.py:46-60 | it succeeds exactly when every listed band is present and its reductions succeed. On success the keys are exactly the distinct listed bands, and each entry is the band's `BandStats` (max, mean and min of `lc[b][mag_col]`). On failure the error is the first failing band's: KeyError for a band missing from `lc`, otherwise that band's reduction error |
| `Models.RescaleInUnitRange` | lcanalyzer/models.py:70-71 | every value of min-max scaling lies in [0, 1] |
| `Models.ShiftedQuotients` | lcanalyzer/models.py:68-71 | on a column, the literal steps give exactly the min-max scaling, with no NaN or infinity left. The steps are: subtract the minimum, divide by the maximum of the shifted column, fill NaN with 0 |
| `Models.NormalizeLc` | lcanalyzer/models.py:62-72 | a string argument gives TypeError and a missing column gives KeyError. Otherwise the result has one value per row, and each value is finite, in [0, 1], and equal to the min-max scaling of that row's magnitude |
| `ModelProperties.ReductionsOrdered` | lcanalyzer/models.py:20-44 | for every non-empty numeric column all three reductions succeed and `min_mag <= mean_mag <= max_mag` |
| `ModelProperties.BandStatsOrdered` | lcanalyzer/models.py:54-59 | an entry `calc_stats` records for a band is ordered min <= mean <= max, and its max and min are values of that band's magnitude column |
| `ModelProperties.ReductionsIgnoreRowOrder` | lcanalyzer/models.py:20-44 | two tables whose magnitude columns hold the same values in any order get the same max, min and mean |
| `ModelProperties.SwapRowsKeepsReductions` | lcanalyzer/models.py:20-44 | exchanging two rows of a table leaves max, min and mean of every column unchanged |
| `ModelProperties.ConstantColumnReductions` | lcanalyzer/models.py:20-44 | if every value of the column is v, then max, min and mean are all exactly v |
| `ModelProperties.NormalizeDenominator` | lcanalyzer/models.py:68-69 | the denominator, max of the column after subtracting the minimum from the whole table, equals max minus min, which is never negative |
| `ModelProperties.NormalizeSpread` | lcanalyzer/models.py:68-71 | on a non-constant column each row becomes (x - min) / (max - min); the minimum row becomes 0 and the maximum row becomes 1 |
| `ModelProperties.ScaledEnds` | lcanalyzer/models.py:70 | with a positive spread, the scaling is (x - lo) / (hi - lo); it maps lo to 0 and hi to 1 |
| `ModelProperties.ScaledZero` | lcanalyzer/models.py:70 | within [lo, hi], only lo scales to 0 |
| `ModelProperties.NormalizeZeroIffConstant` | lcanalyzer/models.py:69-71 | `normalize_lc` gives 0 on every row exactly when the column is constant (every quotient is 0/0 and `fillna(0)` makes it 0) |
| `Scenarios.MaxMagExamples` | tests/test_models.py:6-25 | column a = [1, 7, 3] has max 7; an all-zero column has max 0 |
| `Scenarios.MeanMagExamples` | tests/test_models.py:28-47 | column a = [1, 7, 3] has mean 11/3, within 1% of 3.66; an all-zero column has mean 0 |
| `Scenarios.MinMagExamples` | tests/test_models.py:51-76 | min of [1, 7, 3] is 1, of an all-zero column 0, of [-7, -3, -5] is -7 |
| `Scenarios.MaxMagOfString` | tests/test_models.py:78-84 | `max_mag('string', 'b')` is a TypeError |
| `Scenarios.NormalizeZerosExample` | lcanalyzer/models.py:68-71 | an all-zero column normalises to three finite zeros |
| `Scenarios.CalcStatsMissingBand` | lcanalyzer/models.py:54-59 | bands g and r when only g has a table: KeyError on r |

## Left out

- `load_dataset` (lcanalyzer/models.py:12-17) only calls the CSV reader on a file name. File I/O is not modelled.
- Table cells are numbers. The reducers add no type check of their own. Text columns, where pandas raises TypeError on `.mean()` and on `table - scalar` and orders strings for `.max()` and `.min()`, are not modelled, nor are mixed-type tables and dtype inference.
- Missing cells (NaN in the input) and pandas' `skipna` are not modelled; every cell is present.
- Empty columns are excluded by `Reducible`: a table whose magnitude column exists must have at least one row. On an empty column pandas returns NaN, not an error.
- Floating-point rounding is not modelled; values are exact reals. The only IEEE behaviour kept is division by zero (NaN or an infinity), because `fillna(0)` depends on it.
- `calc_stats` returns the band-to-statistics mapping itself, not the `pd.DataFrame.from_records` layout with bands as columns. Its `lc` is a mapping from band name to table. The case where `lc` is a single DataFrame and `lc[b]` selects a column is not modelled.
- The result of `normalize_lc` is a sequence in row order; the pandas index carried by the Series is not modelled.
- The reductions return `real` whatever the column's dtype. On an integer column pandas' `max_mag` and `min_mag` return an integer of the same value; `mean_mag` returns a float in pandas too.
- A string is the only non-table argument modelled. Other values (a dict, a Series, a number) raise other errors or succeed, and are not modelled.
- `ModelProperties.ReductionsIgnoreRowOrder` states row-order independence as equal multisets of the magnitude column. `ModelProperties.SwapRowsKeepsReductions` shows it for an exchange of two rows, and every row permutation is a sequence of such exchanges.
