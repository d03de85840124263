// The forecast (calculate_prediction.py): choose a model by name, produce
// one date per future month after the last real date, clamp the model's
// values at zero, round them up, and append the forecast rows to the history.
module Prediction {
  import opened Common
  import opened Calendar
  import opened Records

  /** The two entries of the program's table of supported models. */
  datatype ForecastMethod = Exponential | Prophet

  datatype PredictionError =
    | UnsupportedMethod  // "Prediction method is not supported." and exit
    | EmptyHistory       // the history has no last row to take the date from
    | DateOutOfRange     // a forecast date falls after Python's last year

  /** The command line's default method name. */
  const DefaultMethodName: string := "linear"

  /** The membership test `method in ['exponential', 'prophet']`. */
  function ParseMethod(name: string): (m: Option<ForecastMethod>)
    ensures m.Some? <==> name == "exponential" || name == "prophet"
  {
    if name == "exponential" then Some(Exponential)
    else if name == "prophet" then Some(Prophet)
    else None
  }

  /** The default method name of the command line is not a supported one, so
      a run without `-m` stops without output. */
  lemma DefaultMethodUnsupported()
    ensures ParseMethod(DefaultMethodName) == None
  {
  }

  lemma {:induction false} AddMonthsDefinedBelow(d: Date, k: nat)
    requires ValidDate(d) && AddMonths(d, k).Some?
    ensures forall i: nat :: i <= k ==> AddMonths(d, i).Some?
  {
    forall i: nat | i <= k
      ensures AddMonths(d, i).Some?
    {
      AddMonthsLaw(d, i);
      AddMonthsLaw(d, k);
    }
  }

  /** The list `[last + relativedelta(months=x+1) for x in range(count)]`:
      every date is computed from the last real date, not from its
      predecessor. The comprehension stops with an error at the first date
      past MaxYear, which happens exactly when the last one is. */
  function ForecastDates(last: Date, count: nat): (dates: Option<seq<Date>>)
    requires ValidDate(last)
    ensures dates.Some? <==> AddMonths(last, count).Some?
    ensures dates.Some? ==> |dates.value| == count
    ensures dates.Some? ==> forall i :: 0 <= i < count ==> AddMonths(last, i + 1) == Some(dates.value[i])
  {
    if AddMonths(last, count).None? then None
    else
      AddMonthsDefinedBelow(last, count);
      Some(seq(count, i requires 0 <= i < count => AddMonths(last, i + 1).value))
  }

  /** Forecast dates are valid, strictly increasing and all later than the
      last real date. */
  lemma {:induction false} ForecastDatesOrdered(last: Date, count: nat)
    requires ValidDate(last) && ForecastDates(last, count).Some?
    ensures var dates := ForecastDates(last, count).value;
      && (forall i :: 0 <= i < count ==> ValidDate(dates[i]) && Before(last, dates[i]))
      && (forall i, j :: 0 <= i < j < count ==> Before(dates[i], dates[j]))
  {
    var dates := ForecastDates(last, count).value;
    forall i | 0 <= i < count
      ensures ValidDate(dates[i]) && Before(last, dates[i])
    {
      AddMonthsLaw(last, i + 1);
      AddMonthsIncreasing(last, 0, i + 1);
    }
    forall i, j | 0 <= i < j < count
      ensures Before(dates[i], dates[j])
    {
      AddMonthsIncreasing(last, i + 1, j + 1);
    }
  }

  /** `max(0, value)`: a forecast is never below zero. */
  function Clamp(value: real): (c: real)
    ensures c >= 0.0 && c >= value
    ensures value >= 0.0 ==> c == value
    ensures value < 0.0 ==> c == 0.0
  {
    if value < 0.0 then 0.0 else value
  }

  /** The clamp applied down one forecast column. */
  function ClampColumn(values: seq<real>): (clamped: seq<real>)
    ensures |clamped| == |values|
    ensures forall i :: 0 <= i < |values| ==> clamped[i] == Clamp(values[i])
  {
    seq(|values|, i requires 0 <= i < |values| => Clamp(values[i]))
  }

  /** `math.ceil`: the least integer not below the value. */
  function Ceil(value: real): (n: int)
    ensures value <= n as real < value + 1.0
    ensures value >= 0.0 ==> n >= 0
  {
    var f := value.Floor;
    if f as real == value then f else f + 1
  }

  /** English month names, as `strftime('%B')` writes them. */
  function MonthName(month: int): (name: string)
    requires 1 <= month <= 12
    ensures |name| >= 3
  {
    ["January", "February", "March", "April", "May", "June", "July",
     "August", "September", "October", "November", "December"][month - 1]
  }

  /** `strftime('%B')[0:1]`: the month's initial, the form the history's
      Month column uses. */
  function MonthInitial(month: int): (initial: string)
    requires 1 <= month <= 12
    ensures initial == ["JFMAMJJASOND"[month - 1]]
  {
    MonthName(month)[..1]
  }

  /** The table `calculate_prediction_darts` returns: the Date column and one
      clamped column per forecast product. */
  datatype PredictionFrame = PredictionFrame(dates: seq<Date>, columns: map<Column, seq<real>>)

  /** `calculate_prediction_darts`. `forecast(m, c)` stands for fitting model
      m to the history of column c and predicting `count` values; the models
      themselves are outside this model. The last real date is that of the
      last row, which an empty history does not have. */
  method CalculatePredictionDarts(data: seq<Record>, yColumns: seq<Column>, m: ForecastMethod, count: nat,
                                  forecast: (ForecastMethod, Column) -> seq<real>)
    returns (out: Result<PredictionFrame, PredictionError>)
    requires forall i :: 0 <= i < |data| ==> ValidDate(data[i].date)
    requires forall c :: |forecast(m, c)| == count
    ensures out == Err(EmptyHistory) <==> |data| == 0
    ensures out == Err(DateOutOfRange) <==> |data| > 0 && AddMonths(data[|data| - 1].date, count).None?
    ensures out.Err? ==> out.error != UnsupportedMethod
    ensures out.Ok? ==>
      && ForecastDates(data[|data| - 1].date, count) == Some(out.value.dates)
      && (forall c :: c in out.value.columns ==> c in yColumns)
      && forall k :: 0 <= k < |yColumns| ==>
           && yColumns[k] in out.value.columns
           && out.value.columns[yColumns[k]] == ClampColumn(forecast(m, yColumns[k]))
  {
    if |data| == 0 {
      return Err(EmptyHistory);
    }
    var lastRealDate := data[|data| - 1].date;
    var dates := ForecastDates(lastRealDate, count);
    if dates.None? {
      return Err(DateOutOfRange);
    }
    var columns: map<Column, seq<real>> := map[];
    for k := 0 to |yColumns|
      invariant forall c :: c in columns ==> c in yColumns[..k] && columns[c] == ClampColumn(forecast(m, c))
      invariant forall j :: 0 <= j < k ==> yColumns[j] in columns
    {
      var prediction := forecast(m, yColumns[k]);
      columns := columns[yColumns[k] := prediction];
      columns := columns[yColumns[k] := ClampColumn(columns[yColumns[k]])];
    }
    assert yColumns[..|yColumns|] == yColumns;
    out := Ok(PredictionFrame(dates.value, columns));
  }

  /** A forecast row as the program's loop builds it. The row carries no
      Total until the table's Total column is recomputed; 0 stands in for
      the empty cell. */
  function ForecastRow(date: Date, fish: real, ducks: real): Record
    requires 1 <= date.month <= 12
  {
    Record(MonthInitial(date.month), date.year, date, Ceil(ducks), Ceil(fish), 0, true)
  }

  /** The Total column recomputed row by row; nothing else changes. */
  function WithTotals(rows: seq<Record>): (out: seq<Record>)
    ensures |out| == |rows|
    ensures forall i :: 0 <= i < |rows| ==> TotalConsistent(out[i]) && out[i].(total := rows[i].total) == rows[i]
  {
    seq(|rows|, i requires 0 <= i < |rows| => rows[i].(total := rows[i].ducks + rows[i].fish))
  }

  /** `process_data`: check the method name, forecast Fish and Ducks, build
      one row per forecast month, append the rows to the history and
      recompute Total. */
  method ProcessData(methodName: string, history: seq<Record>, count: nat,
                     forecast: (ForecastMethod, Column) -> seq<real>)
    returns (out: Result<seq<Record>, PredictionError>)
    requires forall i :: 0 <= i < |history| ==> ValidDate(history[i].date)
    requires forall m, c :: |forecast(m, c)| == count
    ensures out == Err(UnsupportedMethod) <==> ParseMethod(methodName).None?
    ensures out.Ok? <==>
      ParseMethod(methodName).Some? && |history| > 0 && AddMonths(history[|history| - 1].date, count).Some?
    ensures out.Ok? ==> |out.value| == |history| + count
    ensures out.Ok? ==> forall r :: r in out.value ==> TotalConsistent(r)
    ensures out.Ok? ==> forall i :: 0 <= i < |history| ==> out.value[i].(total := history[i].total) == history[i]
    ensures out.Ok? ==> forall i :: 0 <= i < count ==>
      var r, m := out.value[|history| + i], ParseMethod(methodName).value;
      && r.predicted
      && AddMonths(history[|history| - 1].date, i + 1) == Some(r.date)
      && r.year == r.date.year
      && 1 <= r.date.month <= 12
      && r.month == MonthInitial(r.date.month)
      && r.fish == Ceil(Clamp(forecast(m, Fish)[i]))
      && r.ducks == Ceil(Clamp(forecast(m, Ducks)[i]))
  {
    var m := ParseMethod(methodName);
    if m.None? {
      return Err(UnsupportedMethod);
    }
    var yColumns := [Fish, Ducks];
    var predictionResults := CalculatePredictionDarts(history, yColumns, m.value, count, forecast);
    if predictionResults.Err? {
      return Err(predictionResults.error);
    }
    var frame := predictionResults.value;
    assert yColumns[0] == Fish && yColumns[1] == Ducks;
    assert Fish in frame.columns && Ducks in frame.columns;
    ForecastDatesOrdered(history[|history| - 1].date, count);
    var rows: seq<Record> := [];
    for i := 0 to count
      invariant |rows| == i
      invariant forall k :: 0 <= k < i ==>
        rows[k] == ForecastRow(frame.dates[k], frame.columns[Fish][k], frame.columns[Ducks][k])
    {
      rows := rows + [ForecastRow(frame.dates[i], frame.columns[Fish][i], frame.columns[Ducks][i])];
    }
    var output := history + rows;
    output := WithTotals(output);
    out := Ok(output);
    forall r | r in out.value
      ensures TotalConsistent(r)
    {
      var j :| 0 <= j < |output| && output[j] == r;
    }
  }
}
