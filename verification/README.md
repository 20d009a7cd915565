# Capsicum price forecast: the feature pipeline, in Dafny

This project models the feature pipeline of a Streamlit app that forecasts
the monthly modal price of capsicum. Each forecast request runs this pipeline:

1. **Load the context once.** Read the monthly history. Take the median of its
   precipitation, skipping NaN. Build an Indian holiday calendar for the years
   from the earliest history year through the year after the latest.
2. **Build and append the new row.** Build a row from the user's inputs and
   date it the first day of the requested month. It has no `ModalPrice`,
   because that is what is being forecast. Append it after the history, with
   no re-sorting.
3. **Engineer features over the whole frame:**
   - one-row lags (`shift(1)`);
   - `temp_range`, `humidity_precip` and `humid_uv`;
   - the rain flag against the history's median;
   - the three-month trailing mean and max of `Arrivals`;
   - sine/cosine encodings of the month and of the day of the year;
   - `price_momentum`;
   - the holiday flag.
4. **Select the feature vector.** Take the last row, project it onto the
   sixteen model columns, and replace every NaN with 0.

Pandas' NaN is `Option<real>` (`None` is NaN). Arithmetic with a missing
operand is missing, and a comparison with a missing operand is false. The
model is purely functional: rows are immutable records, the frame is a
`seq<Row>`, and every stage is a function. Modules follow the stages:

- `Missing`: NaN cells, `Result`, and the NaN rules for `-`, `*`, `>` and `fillna(0)`.
- `Calendar`: Gregorian dates, pandas' `dayofyear`, and `pd.to_datetime` of the first of a month.
- `Stats`: `Series.median()` with NaN skipped.
- `Frame`: rows, columns, `shift(1)` and `rolling(w)`.
- `Features`: the feature-engineering block.
- `Selection`: the column schema, the sixteen model columns and the fill.
- `Pipeline`: the context, the new row, the working frame and the end-to-end properties.

The main properties proved:

- The new row's lags are exactly the last history row's values, or NaN with
  no history.
- The new row's `price_momentum` is always missing, so its vector entry is
  always 0. The models never see a non-zero momentum at prediction time.
- Appending the new row leaves every engineered feature of the history rows
  unchanged.
- The vector has sixteen entries in the models' order, read from the last
  row only; missing cells become 0 and known cells pass through unchanged.

Three behaviours of the code that the model keeps:

- **Holiday calendar years.** The calendar covers the years from the
  earliest history year through `max + 1`, because `range(min, max + 2)`
  excludes its upper end.
- **Holiday lookups outside that range.** The `holidays` library expands its
  calendar on demand, so a lookup in any year answers. The year range
  therefore does not restrict the holiday flag. The model keeps the range in
  the context and takes membership as the parameter `isHoliday`.
- **Empty history.** An empty history cannot be loaded: `hist["Year"].min()`
  is NaN and `range()` raises on it, so `LoadContext` returns
  `NoHistoryYears`. The feature pipeline on its own still accepts an empty
  history, and `Pipeline.EmptyHistoryVector` states what it then produces.

## Model

| member | source | states |
|---|---|---|
| Missing.Sub | app.py:60 | A difference of cells is known exactly when both operands are, and then adding back the subtrahend gives the minuend |
| Missing.Mul | app.py:61-62 | A product of cells is known exactly when both factors are, and is then their product |
| Missing.FillZero | app.py:83 | `fillna(0)` on a cell: a known value passes through unchanged, a missing one becomes 0 |
| Calendar.DayOfYear | app.py:70-73 | pandas' `dayofyear` is the cumulative-days table for the month plus the day of the month; it lies in 1..366, is 366 only in a leap year, and equals the day in January |
| Calendar.DaysBeforeMatchesTable | app.py:70-73 | Summing month lengths gives the cumulative-days table of a common year, plus one after February in a leap year |
| Calendar.FirstOfMonth | app.py:47 | For the months 1..12, building the first of (year, month) succeeds iff that day lies after 1677-09-21 and no later than 2262-04-11 (pandas' timestamp bounds), and then gives day 1 of that year and month; every other month is rejected |
| Calendar.FirstOfMonthDayOfYear | app.py:70-73 | The first of a month has day of year `table + 1`, which is 1 for January and never more than 336 |
| Calendar.FirstOfMonthIncreasing | app.py:70-73 | A later month starts on a strictly later day of the year |
| Stats.Sort | app.py:15 | Sorting for the median gives an ascending permutation of the known values |
| Stats.SortCounts | app.py:15 | Sorting keeps how many values lie strictly below and strictly above any threshold |
| Stats.Median | app.py:15 | The precipitation median is missing iff no value is known; otherwise it meets the counting definition `IsMedian` of the known values: for an odd count a known value with at most half on either side, for an even count the mean of the lower and upper middle values |
| Stats.MedianIsTheMedian | app.py:15 | `IsMedian` allows one value only: any value meeting it for the known values is the median |
| Stats.MedianOfOneAndThree | app.py:15 | For an even count the median is the mean of the two middle values: the median of 1.0 and 3.0 is 2.0 |
| Frame.Shift1 | app.py:59 | `shift(1)` keeps the length, puts NaN in the first row, and moves every other cell down one row |
| Frame.Window | app.py:68-69 | A `rolling(w)` window exists iff `w` rows end at row `i` and all are known; it then holds those `w` values in order |
| Frame.WindowOfPrefix | app.py:68-69 | A trailing window never reads rows below its own, so extending the column leaves it unchanged |
| Frame.Rolling3 | app.py:68-69 | The 3-row mean and max are missing for rows 0 and 1 and whenever a window cell is NaN; otherwise the mean is the average of the three, the max is one of them and at least each, and max >= mean |
| Features.Engineer | app.py:59-75 | One engineered row per frame row, each carrying its original row unchanged |
| Features.EngineerLags | app.py:59-64 | Every `_lag1` column, including `ModalPrice_lag1` and `temp_range_lag1`, holds the previous row's value, and is NaN in row 0 |
| Features.EngineerRowLocal | app.py:60-66 | `temp_range`, `humidity_precip`, `humid_uv`, rain and holiday flags and the cyclic encodings of a row depend on that row alone; `temp_range` is tempmax − tempmin when both are known |
| Features.EngineerRainFlag | app.py:67 | The rain flag is 0 or 1, and it is 1 iff the row's precipitation and the median are both known and the precipitation is strictly greater |
| Features.EngineerHolidayFlag | app.py:75 | The holiday flag is 1 iff the row's date is a holiday and 0 otherwise |
| Features.EngineerArrivalsWindow | app.py:68-69 | `arr_3mo_mean` and `arr_3mo_max` of row `i` in terms of `Arrivals[i-2..i]`: presence, mean, max, and max >= mean |
| Features.EngineerMomentum | app.py:74 | `price_momentum` is the price minus the previous row's price with NaN propagation, and is missing in row 0 |
| Features.EngineerKeepsEarlierRows | app.py:59-75 | Appending a row below the frame changes no feature of any earlier row |
| Selection.FeatureColumnsNamed | app.py:78-82 | The selected columns are sixteen distinct columns named, in order, as the list in the source |
| Selection.SelectFeatures | app.py:83 | The vector has sixteen entries; entry k is column k of the last row, with a missing value replaced by 0 |
| Selection.SelectionReadsLastRowOnly | app.py:83 | Two frames that end in the same row give the same vector |
| Selection.SelectionFillsMissingWithZero | app.py:83 | Each entry is 0 when its cell is missing and is the cell's value when the cell is known |
| Pipeline.MinYear | app.py:16 | The earliest history year: no row is earlier, and some row has it |
| Pipeline.MaxYear | app.py:16 | The latest history year: no row is later, and some row has it |
| Pipeline.LoadContext | app.py:14-17 | Loading fails iff the history is empty; otherwise it keeps the history, takes the median of its precipitation, and spans holidays from the earliest year through the latest year + 1 |
| Pipeline.Append | app.py:55-56 | The concat has one more row: the history rows, unchanged and in their places, then the new row last |
| Pipeline.WorkingFrame | app.py:47-56 | A successful request frame has one row more than the history; its contents are stated by `Pipeline.WorkingFrameShape` |
| Pipeline.EngineeredFrame | app.py:56-75 | The engineered frame of a successful request has one row per working-frame row |
| Pipeline.WorkingFrameShape | app.py:47-56 | A request fails iff `Calendar.FirstOfMonth` rejects its year and month; otherwise the frame is the history, then a new row dated the first of the month, holding all seven inputs (arrivals, tempmax, tempmin, humidity, precip, solarenergy, uvindex) and no price |
| Pipeline.HistoryFeaturesUnchanged | app.py:56-75 | Every engineered history row is the same with or without the new row |
| Pipeline.NewRowFeatures | app.py:59-74 | The new row's nine lags are the last history row's values (NaN with no history), its momentum is always missing, and its arrivals mean is over the last two history months and itself |
| Pipeline.NewRowLocal | app.py:48-75 | A new row's `temp_range`, `humid_uv`, all six sine and cosine encodings, rain flag and holiday flag, from its inputs and the day of year of the first of its month |
| Pipeline.NewRowLocalFeatures | app.py:60-75 | In the engineered working frame, the last row has the local features `Pipeline.NewRowLocal` gives, including `month_cos`, `cos365_1` and `cos365_2` |
| Pipeline.FeatureVectorContents | app.py:47-83 | End to end, a request fails iff `Calendar.FirstOfMonth` rejects its year and month; otherwise all sixteen vector entries in terms of the inputs and the last history row, including `price_momentum` = 0 |
| Pipeline.EmptyHistoryVector | app.py:59-83 | With no history, all lag, window and momentum features are missing, and their vector entries are 0 |
| Pipeline.ExampleRequest | app.py:47-83 | A worked request for February 2024 after January 2024 gives the expected vector: price lag 3000, temp range 15, humidity lag 55, temp range lag 15, momentum 0 |

## Left out

- The Streamlit page (title, sidebar widgets, button and price display): presentation only. The sidebar bounds (year 1990..2030, month 1..12, arrivals ≥ 0) are therefore not preconditions.
- Caching, `joblib.load` of the three models and `pd.read_csv` of the history: I/O and process lifetime. The history is a parameter of `LoadContext`.
- The three `predict` calls: the regressors are opaque. Nothing orders the lower, median and upper predictions.
- The `holidays` calendar's contents: a foreign library. Membership is the parameter `isHoliday`.
- `np.sin` and `np.cos`: floating-point trigonometry. They are the parameter `Circle`, where `sin(k, n)` stands for sin(2πk/n). No identity such as sin² + cos² = 1 is claimed.
- Floating-point rounding: values are Dafny `real`s.
- History rows with an unparseable date (NaT) or a missing `Year`/`Month`: every history row has a valid date and integer year and month. A missing `Year` makes `range()` raise at load time anyway.
- Pandas' general `rolling(w)` mean-below-max fact is proved only for the window of 3 rows the app uses (`Frame.Rolling3`).
- Frame.Window: only the three-row window is used; the general window's contract says which cells it holds, not how `mean`/`max` relate for every `w`.
- Calendar.FirstOfMonth: rejects every month outside 1..12, whereas pandas assembles `year * 10000 + month * 100 + day` and parses it, so for example month 112 of 2024 becomes 2025-12-01 and only some bad months raise. The month picker at app.py:31-33 offers only 1..12, so the app never passes such a month.
- Features.EngineerMomentum: states the momentum's value through `Missing.Sub` rather than as an explicit difference. `Missing.Sub`'s own contract gives the difference.
