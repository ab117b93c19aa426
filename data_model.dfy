/**
 * The values the loader works on: a workbook as the spreadsheet library
 * exposes it, and the ways a run can abort.
 */
module DataModel {
  import opened Wrappers
  import opened OrderedMaps

  /**
   * A cell value. Str is a text value; Num stands for every other scalar the
   * spreadsheet library returns (numbers, dates, booleans), identified by an
   * opaque token. None of the loader's steps looks inside a Num.
   */
  datatype Value = Str(text: string) | Num(token: int)

  /** A cell: its fill colour (an ARGB hex string such as "FFFF0000") and its value, if any. */
  datatype Cell = Cell(fill: string, value: Option<Value>)

  /** A spreadsheet row; a missing cell object is None. */
  type Row = seq<Option<Cell>>

  /** A named sheet; a missing row object is None. */
  datatype Sheet = Sheet(name: string, rows: seq<Option<Row>>)

  /** The workbook, sheets in workbook order. */
  type Workbook = seq<Sheet>

  /** The values of one retained row, in column order. */
  type Values = seq<Option<Value>>

  /** The parsed tables by name, in the order their names were first stored. */
  type Tables = OrderedMap<string, seq<Values>>

  /** Why a run stops. Each constructor is one place where the script raises. */
  datatype Error =
    | WrongArgumentCount        // `Loader.new(*ARGV)` with no argument or more than three
    | MissingGamesOrVersion     // the "Please specify the competition and version." raise
    | VersionRowMissing         // `@data['Version'][1][0]` on a Version table with fewer than two rows
    | NoVersion                 // the "No version specified" raise: version nil or ""
    | VersionNotText            // `@version.length` on a non-string version
    | EmptyTable(name: string)  // `csv << nil` for a table that retained no row
}
