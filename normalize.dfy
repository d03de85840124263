// The spreadsheet normaliser (convert_xls_to_csv_and_normalize.py): drop the
// rows without Year or Month, rebuild each row's month-end Date from its
// position, and add the Total and Predicted columns.
module Normalize {
  import opened Common
  import opened Calendar
  import opened Records

  /** A spreadsheet row as read: Year and Month may be empty cells. */
  datatype RawRow = RawRow(month: Option<string>, year: Option<int>, ducks: int, fish: int)

  /** A row together with its index label. The label is the row's position
      in the sheet and survives filtering, as a pandas index does. */
  datatype Labelled = Labelled(index: nat, row: RawRow)

  datatype NormalizeError =
    | EmptyFrame      // no row survives the filter: pandas' apply on an empty frame
                      // returns a frame, which cannot be assigned to the Date column
    | YearOutOfRange  // `datetime.date` refuses a surviving row's year

  predicate HasYearAndMonth(r: RawRow) {
    r.year.Some? && r.month.Some?
  }

  predicate IncreasingLabels(rows: seq<Labelled>) {
    forall i, j :: 0 <= i < j < |rows| ==> rows[i].index < rows[j].index
  }

  /** The frame `read_excel` produces: every row labelled by its position. */
  function LabelRows(raw: seq<RawRow>): (rows: seq<Labelled>)
    ensures |rows| == |raw|
    ensures forall i :: 0 <= i < |raw| ==> rows[i] == Labelled(i, raw[i])
  {
    seq(|raw|, i requires 0 <= i < |raw| => Labelled(i, raw[i]))
  }

  /** The boolean filter `Year.notna() & Month.notna()`: keeps exactly the
      complete rows, with their labels and in their order. */
  function DropIncomplete(rows: seq<Labelled>): (kept: seq<Labelled>)
    ensures |kept| <= |rows|
    ensures forall x :: x in kept <==> x in rows && HasYearAndMonth(x.row)
    ensures IncreasingLabels(rows) ==> IncreasingLabels(kept)
  {
    if rows == [] then []
    else
      var rest := DropIncomplete(rows[1..]);
      if HasYearAndMonth(rows[0].row) then [rows[0]] + rest else rest
  }

  /** The rows that reach the Date computation. */
  function CompleteRows(raw: seq<RawRow>): (kept: seq<Labelled>)
    ensures IncreasingLabels(kept)
    ensures forall j :: 0 <= j < |kept| ==>
      && kept[j].index < |raw|
      && kept[j].row == raw[kept[j].index]
      && HasYearAndMonth(kept[j].row)
    ensures forall i :: 0 <= i < |raw| && HasYearAndMonth(raw[i]) ==> Labelled(i, raw[i]) in kept
  {
    var rows := LabelRows(raw);
    var kept := DropIncomplete(rows);
    assert forall j :: 0 <= j < |kept| ==> kept[j] in rows;
    kept
  }

  /** Whether `datetime.date` accepts the Year of a complete row. */
  predicate YearInRange(x: Labelled)
    requires HasYearAndMonth(x.row)
  {
    MinYear <= x.row.year.value <= MaxYear
  }

  /** `process_data`: reassigns the frame step by step as the program does:
      filter, add Date (which raises when no row is left, and on a year
      `datetime.date` refuses), select the five columns, add Total, add
      Predicted = False. */
  method ProcessData(raw: seq<RawRow>) returns (out: Result<seq<Record>, NormalizeError>)
    ensures out == Err(EmptyFrame) <==> forall i :: 0 <= i < |raw| ==> !HasYearAndMonth(raw[i])
    ensures out == Err(YearOutOfRange) <==>
      && (exists i :: 0 <= i < |raw| && HasYearAndMonth(raw[i]))
      && exists i :: 0 <= i < |raw| && HasYearAndMonth(raw[i]) && !(MinYear <= raw[i].year.value <= MaxYear)
    ensures out.Ok? ==> |out.value| == |CompleteRows(raw)|
    ensures out.Ok? ==> forall j :: 0 <= j < |out.value| ==>
      var x, r := CompleteRows(raw)[j], out.value[j];
      && r.month == x.row.month.value
      && r.year == x.row.year.value
      && ValidDate(r.date)
      && r.date.year == r.year
      && r.date.month == x.index % 12 + 1
      && r.date.day == DaysInMonth(r.year, r.date.month)
      && r.ducks == x.row.ducks
      && r.fish == x.row.fish
      && TotalConsistent(r)
      && !r.predicted
  {
    var frame := LabelRows(raw);
    frame := DropIncomplete(frame);
    assert frame == CompleteRows(raw);
    if |frame| == 0 {
      forall i | 0 <= i < |raw|
        ensures !HasYearAndMonth(raw[i])
      {
        assert Labelled(i, raw[i]) !in frame;
      }
      return Err(EmptyFrame);
    }
    assert frame[0].row == raw[frame[0].index];
    if exists j :: 0 <= j < |frame| && !YearInRange(frame[j]) {
      var j :| 0 <= j < |frame| && !YearInRange(frame[j]);
      assert frame[j].row == raw[frame[j].index];
      return Err(YearOutOfRange);
    }
    forall i | 0 <= i < |raw| && HasYearAndMonth(raw[i])
      ensures MinYear <= raw[i].year.value <= MaxYear
    {
      assert Labelled(i, raw[i]) in frame;
    }
    var dates := seq(|frame|, j requires 0 <= j < |frame| => CalculateDate(frame[j].index, frame[j].row.year.value).value);
    var records := seq(|frame|, j requires 0 <= j < |frame| =>
      Record(frame[j].row.month.value, frame[j].row.year.value, dates[j], frame[j].row.ducks, frame[j].row.fish, 0, false));
    records := seq(|records|, j requires 0 <= j < |records| => records[j].(total := records[j].ducks + records[j].fish));
    out := Ok(records);
  }

  /** Blanking the Year or Month of one row removes that row and nothing
      else: every other complete row keeps its label, hence its month. */
  lemma {:induction false} BlankRowDoesNotShiftMonths(raw: seq<RawRow>, i: nat, blank: RawRow)
    requires i < |raw| && !HasYearAndMonth(blank)
    ensures forall x :: x in CompleteRows(raw[i := blank]) <==> x in CompleteRows(raw) && x.index != i
  {
    var blanked := raw[i := blank];
    forall x | x in CompleteRows(blanked)
      ensures x in CompleteRows(raw) && x.index != i
    {
      var j :| 0 <= j < |CompleteRows(blanked)| && CompleteRows(blanked)[j] == x;
      assert x.row == blanked[x.index];
      assert x.index != i;
      assert Labelled(x.index, raw[x.index]) in CompleteRows(raw);
    }
    forall x | x in CompleteRows(raw) && x.index != i
      ensures x in CompleteRows(blanked)
    {
      var j :| 0 <= j < |CompleteRows(raw)| && CompleteRows(raw)[j] == x;
      assert x.row == raw[x.index] == blanked[x.index];
      assert Labelled(x.index, blanked[x.index]) in CompleteRows(blanked);
    }
  }
}
