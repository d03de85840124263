// The sales history table that flows between the three programs.
module Records {
  import opened Calendar

  /** One row of the history table. The fields are the table's columns in
      the order the normaliser writes them: Month, Year, Date, Ducks, Fish,
      Total, Predicted. `month` is the spreadsheet's month text (an initial
      letter such as "J"); `predicted` marks rows produced by the forecast. */
  datatype Record = Record(
    month: string,
    year: int,
    date: Date,
    ducks: int,
    fish: int,
    total: int,
    predicted: bool)

  /** The two product columns that are forecast and allocated. */
  datatype Column = Fish | Ducks

  /** A row whose Total column agrees with its product columns. */
  predicate TotalConsistent(r: Record) {
    r.total == r.ducks + r.fish
  }
}
