# Duckies & Fishes production planning — a verified Dafny model

The repository turns a spreadsheet of monthly production counts for two
products (rubber ducks and fish) into a normalised history table, extends that
table with forecast months, and computes for every month the profit-maximising
integer production plan under capacity and pellet (raw material) limits. This
project models the deterministic logic of its three programs:

- `calendar.dfy` (`Calendar`): Python `datetime.date` values in years
  1..9999, the Gregorian month lengths, `__last_day_of_month`,
  `__calculate_date`, and `dateutil.relativedelta(months=k)` addition with its
  year carry and day clamp.
- `records.dfy` (`Records`): the history row (Month, Year, Date, Ducks, Fish,
  Total, Predicted) and the two product columns.
- `normalize.dfy` (`Normalize`): `process_data` of the spreadsheet
  normaliser — rows lacking Year or Month are dropped but the survivors keep
  their index labels, the Date is the last day of month `(label mod 12) + 1`
  of the row's year, Total is Ducks + Fish and Predicted is false.
- `sales.dfy` (`Sales`): `solve_amount_problem` — maximise
  `5·ducks + 4·fish` subject to the required minimums, the factory maximums
  (400 ducks, 300 fish) and `100·ducks + 125·fish ≤ 50000`, over non-negative
  integers — as an exhaustive search over the bounded integer box, proved
  feasible and globally optimal, with a lexicographic tie-break that makes the
  answer unique; and the per-row `process_data`.
- `prediction.dfy` (`Prediction`): method dispatch by name, the forecast
  dates (each computed from the last real date), the clamp at zero, the
  ceiling, the forecast rows (`Predicted = True`, Month = initial of the
  English month name) appended after the history, and the recomputed Total.
- `common.dfy` (`Common`): `Option` and `Result`.

Behaviour that differs from the program on purpose, or where the program and
its own documentation disagree:

- The program never reads the solver's status: on an infeasible period it
  writes whatever values the solver left in its variables. The model returns
  `Infeasible` exactly when no integer point meets the constraints
  (`Sales.IsSolution`, `Sales.FeasibilityCriterion`).
- The docstring of `solve_amount_problem` names the profit key
  `Total_Profit` and its annotation promises a tuple; the code returns a dict
  whose profit key is `Optimal_Profit`. The model follows the code
  (`Allocation.optimalProfit`).
- Forecast dates are not month ends in general: `relativedelta(months=i+1)`
  keeps the day of the last real date, clamped to the length of the target
  month, so 28 February plus one month is 28 March
  (`Calendar.EndOfFebruaryPlusOneMonth`).
- The solver is a method, so the row-wise `apply` of the allocation
  `process_data` is written as a loop over the rows.

## Model

| member | source | states |
|---|---|---|
| `Calendar.DaysInMonth` | src/convert_xls_to_csv_and_normalize.py:32-34 | a month has 28 to 31 days; February has 29 exactly in Gregorian leap years; the other 30-day months are April, June, September and November |
| `Calendar.PreviousDay` | src/convert_xls_to_csv_and_normalize.py:34 | subtracting one day yields a valid date whose calendar successor is the original date |
| `Calendar.LastDayOfMonth` | src/convert_xls_to_csv_and_normalize.py:29-34 | the result is a valid date in the same year and month, its day is the month's length, and the next day starts a new month |
| `Calendar.FebruaryEnd` | src/convert_xls_to_csv_and_normalize.py:32-34 | the last day of February is the 29th in leap years and the 28th otherwise |
| `Calendar.CalculateDate` | src/convert_xls_to_csv_and_normalize.py:37-44 | a date exists exactly when the year is in 1..9999; it is then valid, in that year, in month `(index mod 12) + 1` (always 1..12, never the Month text) and on that month's last day |
| `Calendar.CalculateDatePeriodic` | src/convert_xls_to_csv_and_normalize.py:40 | rows whose index labels differ by 12 get the same date |
| `Calendar.AddMonthsLaw` | src/calculate_prediction.py:56 | `relativedelta(months=k)` succeeds exactly while the target year is at most 9999; the result is valid, exactly k months later with the year carried, and its day is the original day clamped to the target month's length |
| `Calendar.AddMonthsIncreasing` | src/calculate_prediction.py:56 | advancing by more months gives a strictly later date; advancing by zero months is the identity, so any positive advance is later than the start |
| `Calendar.EndOfJanuaryPlusOneMonth` | src/calculate_prediction.py:56 | 31 January plus one month is 28 or 29 February by the leap-year rule |
| `Calendar.EndOfFebruaryPlusOneMonth` | src/calculate_prediction.py:56 | 28 February (a month end in a common year) plus one month is 28 March, which is not a month end |
| `Calendar.ChainingDiffers` | src/calculate_prediction.py:56 | two chained one-month steps from 31 January reach 28/29 March, one two-month step reaches 31 March |
| `Normalize.LabelRows` | src/convert_xls_to_csv_and_normalize.py:48 | the sheet as read has one row per sheet row, labelled by its position |
| `Normalize.DropIncomplete` | src/convert_xls_to_csv_and_normalize.py:49 | the filter keeps exactly the rows with both Year and Month, with their labels, never adds rows, and keeps increasing labels increasing |
| `Normalize.CompleteRows` | src/convert_xls_to_csv_and_normalize.py:48-49 | the surviving rows are, in increasing label order, exactly the sheet rows that have Year and Month, each with its original position as label |
| `Normalize.ProcessData` | src/convert_xls_to_csv_and_normalize.py:47-58 | fails when no row has both Year and Month (the Date assignment receives an empty frame), and otherwise exactly when a complete row has a year `datetime.date` refuses; on success one output row per surviving row, keeping Month, Year, Ducks and Fish, with the month-end Date of month `(label mod 12) + 1`, Total = Ducks + Fish and Predicted = false |
| `Normalize.BlankRowDoesNotShiftMonths` | src/convert_xls_to_csv_and_normalize.py:49-51 | emptying one row's Year or Month removes exactly that row: every other complete row survives with its label, hence its month, and no row is added |
| `Sales.SolveAmountProblem` | src/calculate_sales.py:31-72 | Infeasible exactly when no non-negative integer point meets the five constraints; otherwise a point meeting all of them, Optimal_Total = ducks + fish, Optimal_Profit = its objective, and its profit is at least that of every feasible point (lexicographically least among equal ones) |
| `Sales.SolutionUnique` | src/calculate_sales.py:48-65 | two answers that both meet the specification are equal: the result for a period is reproducible |
| `Sales.LowerBound` | src/calculate_sales.py:50-59 | the effective lower bound of a variable is at least the required minimum and equals it when that is non-negative |
| `Sales.FeasibilityCriterion` | src/calculate_sales.py:58-62 | with non-negative pellet costs, a feasible point exists exactly when each minimum (or 0) is within its maximum and the minimums alone fit the pellet budget |
| `Sales.DefaultTooManyDucks` | src/calculate_sales.py:31-60 | requiring 500 ducks against the default capacity of 400 is reported as infeasible |
| `Sales.DefaultScenario` | src/calculate_sales.py:31-62 | with the default parameters and required 50 ducks and 40 fish the answer is 400 ducks, 80 fish, total 480, profit 2320 |
| `Sales.VisitExtends` | src/calculate_sales.py:54-65 | visiting one more point of the search box keeps the best plan correct for all points visited so far |
| `Sales.ProcessData` | src/calculate_sales.py:75-79 | one output row per input row, in order, each the input row unchanged with an allocation that answers the problem for (its Ducks, its Fish) as the required minimums |
| `Prediction.ParseMethod` | src/calculate_prediction.py:82-87 | a method is selected exactly for the names "exponential" and "prophet" |
| `Prediction.DefaultMethodUnsupported` | src/calculate_prediction.py:111 | the command line's default name "linear" selects no method |
| `Prediction.ForecastDates` | src/calculate_prediction.py:56 | the dates exist exactly when the last one is representable; there are `count` of them and the i-th is the last real date advanced by i + 1 months |
| `Prediction.ForecastDatesOrdered` | src/calculate_prediction.py:56 | the forecast dates are valid, strictly increasing and all after the last real date |
| `Prediction.Clamp` | src/calculate_prediction.py:69 | the clamped value is non-negative, not below the prediction, equal to it when it is non-negative and 0 otherwise |
| `Prediction.ClampColumn` | src/calculate_prediction.py:69 | the clamp applies to every value of a column and keeps its length |
| `Prediction.Ceil` | src/calculate_prediction.py:93-94 | the result is the least integer not below the value (value ≤ n < value + 1), non-negative for a non-negative value |
| `Prediction.MonthInitial` | src/calculate_prediction.py:96 | the Month of a forecast row is the initial J,F,M,A,M,J,J,A,S,O,N,D of the English month name |
| `Prediction.CalculatePredictionDarts` | src/calculate_prediction.py:36-71 | fails on an empty history and on a date past year 9999; otherwise the frame holds the forecast dates from the last row's date and, for exactly the requested columns, the model's predictions clamped at zero |
| `Prediction.WithTotals` | src/calculate_prediction.py:102 | every row gets Total = Fish + Ducks and nothing else in any row changes |
| `Prediction.ProcessData` | src/calculate_prediction.py:74-102 | an unsupported name stops with no output; otherwise, when the history is non-empty and the dates representable, the output is the history rows (only Total recomputed) followed by exactly `count` rows built by `ForecastRow`, each Predicted, dated the last real date plus i + 1 months, with that date's year, the month initial, the ceiling of the clamped Fish and Ducks predictions, and every row's Total equal to Fish + Ducks |

## Left out

- Fitting and predicting with the Darts `Prophet` and `ExponentialSmoothing` models (floating-point statistics in foreign libraries): `forecast(m, c)` is a parameter standing for the values model m predicts for column c, required to have `count` entries; the models' own failures (too little history, an irregular date index) are not modelled.
- The Prophet hyper-parameters `changepoint_prior_scale` and `seasonality_prior_scale`, and `np.random.seed(0)`: they only affect the foreign models.
- The pulp/CBC solver: replaced by the verified search; what the program writes for an infeasible period (the solver's leftover variable values) is deliberately not reproduced.
- Floating point: profits and predictions are exact `real`s; NaN values, float rounding and the float type of the solver's `varValue` are not modelled (quantities are integers).
- File and table plumbing: `read_excel`, `to_csv`, the removal of `Unnamed` columns, the column selection's `KeyError` on a sheet without the five columns, and `pd.concat` mechanics. `utils.read_history_sales_data_csv` is not part of this model: the history is given as a sequence of rows with valid dates, whose last element is the row the program finds under the label `len(data) - 1`.
- Spreadsheet cell types: Year is an integer after `int(...)`; fractional or non-numeric Year cells and empty Ducks or Fish cells are not modelled.
- The `main` functions: option parsing, usage messages and exit codes. The forecast count is a natural number; a negative `-c` value is not modelled.
- `strftime('%B')` is taken in an English locale.
- `Calendar.PreviousDay`: requires a date after 1 January of year 1, where Python raises `OverflowError`; `__last_day_of_month` never steps back from that date.
- Dates are Python `datetime.date` values (years 1..9999, as `__calculate_date` and `relativedelta` produce them); if the Date column were held as pandas `Timestamp`s, dates after 11 April 2262 would fail earlier, which is not modelled.
