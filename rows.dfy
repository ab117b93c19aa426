/**
 * Which rows of a sheet are kept, and what is kept of them: the per-row body
 * of the parse loop, with its `rescue` turning a failing row into a dropped
 * one.
 */
module Rows {
  import opened Wrappers
  import opened DataModel

  /** ASCII lower-casing of one character. */
  function ToLowerChar(c: char): char {
    if 'A' <= c <= 'Z' then (c as int + 32) as char else c
  }

  function ToLower(s: string): string {
    seq(|s|, i requires 0 <= i < |s| => ToLowerChar(s[i]))
  }

  /** The fill colour of rows to drop, compared after lower-casing. */
  const REMOVED_FILL: string := "ffff0000"

  predicate IsRemovedFill(fill: string) {
    ToLower(fill) == REMOVED_FILL
  }

  /** Every spelling of opaque red in either case, and nothing else, marks a row as removed. */
  lemma {:induction false} RemovedFillSpellings(fill: string)
    ensures IsRemovedFill(fill) <==>
              && |fill| == 8
              && (forall i :: 0 <= i < 4 ==> fill[i] == 'f' || fill[i] == 'F')
              && (forall i :: 4 <= i < 8 ==> fill[i] == '0')
  {
    if IsRemovedFill(fill) {
      forall i | 0 <= i < 8
        ensures ToLowerChar(fill[i]) == REMOVED_FILL[i]
      {
        assert ToLower(fill)[i] == ToLowerChar(fill[i]);
      }
    }
  }

  /** `cell ? cell.value : nil` */
  function CellValue(cell: Option<Cell>): Option<Value> {
    if cell.Some? then cell.value.value else None
  }

  function CellValues(cells: Row): Values {
    seq(|cells|, j requires 0 <= j < |cells| => CellValue(cells[j]))
  }

  /** `values.compact.size > 0`: some value is not nil. */
  predicate HasValue(values: Values) {
    exists j :: 0 <= j < |values| && values[j].Some?
  }

  /**
   * `gsub!(/^@/, '')`: removes every '@' that starts a line, that is at the
   * start of the text or right after a newline. atLineStart says whether
   * position 0 of s starts a line.
   */
  function StripLeadingAt(s: string, atLineStart: bool): (r: string)
    ensures |r| <= |s|
  {
    if s == [] then []
    else if atLineStart && s[0] == '@' then StripLeadingAt(s[1..], false)
    else [s[0]] + StripLeadingAt(s[1..], s[0] == '\n')
  }

  /** Only '@' characters are removed. */
  lemma {:induction false} StripKeepsOtherChars(s: string, atLineStart: bool)
    ensures multiset(StripLeadingAt(s, atLineStart)) <= multiset(s)
    ensures forall c :: c != '@' ==> multiset(StripLeadingAt(s, atLineStart))[c] == multiset(s)[c]
    decreases |s|
  {
    if s != [] {
      assert s == [s[0]] + s[1..];
      if atLineStart && s[0] == '@' {
        StripKeepsOtherChars(s[1..], false);
      } else {
        StripKeepsOtherChars(s[1..], s[0] == '\n');
      }
    }
  }

  /** Within a single line nothing but a leading '@' is touched. */
  lemma {:induction false} StripInsideLine(s: string)
    requires '\n' !in s
    ensures StripLeadingAt(s, false) == s
    decreases |s|
  {
    if s != [] {
      StripInsideLine(s[1..]);
    }
  }

  /** On a one-line text, exactly one leading '@' is removed: "@@1" becomes "@1". */
  lemma {:induction false} StripOneLine(s: string)
    requires '\n' !in s
    ensures StripLeadingAt(s, true) == if |s| > 0 && s[0] == '@' then s[1..] else s
  {
    if s != [] {
      StripInsideLine(s[1..]);
    }
  }

  /** "@@1" loses one '@'; a '@' after a newline is removed too. */
  lemma {:induction false} StripExamples()
    ensures StripLeadingAt("@@1", true) == "@1"
    ensures StripLeadingAt("A\n@B", true) == "A\nB"
  {
  }

  /** What happens to one row of the sheet. */
  datatype RowOutcome =
    | Skipped                // one of the `next` guards
    | Raised                 // an exception, caught by the `rescue`; the row is dropped
    | Kept(values: Values)   // appended to the table

  /** Column 1 of a sport codes row: its '@' at line starts removed; raises unless it is text. */
  function SportCodesColumn(values: Values): RowOutcome {
    if |values| < 2 || values[1].None? || values[1].value.Num? then Raised
    else Kept(values[1 := Some(Str(StripLeadingAt(values[1].value.text, true)))])
  }

  function ProcessRow(sportCodes: bool, row: Option<Row>): (r: RowOutcome)
    ensures r.Raised? ==> sportCodes
  {
    if row.None? || |row.value| == 0 || row.value[0].None? then Skipped
    else if IsRemovedFill(row.value[0].value.fill) then Skipped
    else
      var values := CellValues(row.value);
      if !HasValue(values) then Skipped
      else if sportCodes then SportCodesColumn(values)
      else Kept(values)
  }

  /** The conditions under which a row is kept, stated on its cells. */
  predicate Retained(sportCodes: bool, row: Option<Row>) {
    && row.Some?
    && |row.value| > 0
    && row.value[0].Some?
    && !IsRemovedFill(row.value[0].value.fill)
    && (exists j :: 0 <= j < |row.value| && CellValue(row.value[j]).Some?)
    && (sportCodes ==> |row.value| >= 2 && CellValue(row.value[1]).Some? && CellValue(row.value[1]).value.Str?)
  }

  /**
   * A row is kept exactly when it is present, its first cell exists and is
   * not red, some cell has a value and, in the sport codes table, column 1
   * holds text. Its kept values are its cells' values, except that column 1
   * of a sport codes row loses its '@' at line starts.
   */
  lemma {:induction false} ProcessRowKept(sportCodes: bool, row: Option<Row>)
    ensures ProcessRow(sportCodes, row).Kept? <==> Retained(sportCodes, row)
    ensures ProcessRow(sportCodes, row).Kept? ==>
              var v := ProcessRow(sportCodes, row).values;
              && |v| == |row.value|
              && (forall j :: 0 <= j < |v| && (j != 1 || !sportCodes) ==> v[j] == CellValue(row.value[j]))
              && (sportCodes ==> v[1] == Some(Str(StripLeadingAt(CellValue(row.value[1]).value.text, true))))
  {
    if row.Some? && |row.value| > 0 {
      var values := CellValues(row.value);
      assert forall j :: 0 <= j < |row.value| ==> values[j] == CellValue(row.value[j]);
      assert HasValue(values) <==> exists j :: 0 <= j < |row.value| && CellValue(row.value[j]).Some?;
    }
  }

  /** A sport codes row raises exactly when it would be kept but for column 1. */
  lemma {:induction false} ProcessRowRaised(row: Option<Row>)
    ensures ProcessRow(true, row).Raised? <==> Retained(false, row) && !Retained(true, row)
  {
    ProcessRowKept(true, row);
    ProcessRowKept(false, row);
  }

  /** The rows kept from a sheet, in sheet order. */
  function FilterRows(sportCodes: bool, rows: seq<Option<Row>>): (r: seq<Values>)
    ensures |r| <= |rows|
    decreases |rows|
  {
    if rows == [] then []
    else
      var prefix := FilterRows(sportCodes, rows[..|rows| - 1]);
      match ProcessRow(sportCodes, rows[|rows| - 1])
      case Kept(v) => prefix + [v]
      case _ => prefix
  }

  /** Filtering works row by row: filtering a concatenation concatenates the results. */
  lemma {:induction false} FilterRowsAppend(sportCodes: bool, a: seq<Option<Row>>, b: seq<Option<Row>>)
    ensures FilterRows(sportCodes, a + b) == FilterRows(sportCodes, a) + FilterRows(sportCodes, b)
    decreases |b|
  {
    if b == [] {
      assert a + b == a;
    } else {
      assert (a + b)[..|a + b| - 1] == a + b[..|b| - 1];
      assert (a + b)[|a + b| - 1] == b[|b| - 1];
      FilterRowsAppend(sportCodes, a, b[..|b| - 1]);
    }
  }

  /** Extending a prefix of the sheet by one row adds that row's kept values, if any. */
  lemma {:induction false} FilterRowsStep(sportCodes: bool, rows: seq<Option<Row>>, r: nat)
    requires r < |rows|
    ensures FilterRows(sportCodes, rows[..r + 1]) ==
              match ProcessRow(sportCodes, rows[r])
              case Kept(v) => FilterRows(sportCodes, rows[..r]) + [v]
              case _ => FilterRows(sportCodes, rows[..r])
  {
    assert rows[..r + 1][..r] == rows[..r];
  }

  /** A single row contributes its kept values, or nothing. */
  lemma {:induction false} FilterOneRow(sportCodes: bool, row: Option<Row>)
    ensures FilterRows(sportCodes, [row]) ==
              if ProcessRow(sportCodes, row).Kept? then [ProcessRow(sportCodes, row).values] else []
  {
    assert [row][..0] == [];
  }

  /** A row that raises is dropped and the rows after it are still processed. */
  lemma {:induction false} RaisedRowDropped(a: seq<Option<Row>>, row: Option<Row>, b: seq<Option<Row>>)
    requires ProcessRow(true, row).Raised?
    ensures FilterRows(true, a + [row] + b) == FilterRows(true, a) + FilterRows(true, b)
  {
    FilterRowsAppend(true, a + [row], b);
    FilterRowsAppend(true, a, [row]);
    FilterOneRow(true, row);
  }

  /** Every kept row comes from a row of the sheet, and every kept row of the sheet is there. */
  lemma {:induction false} FilterRowsMembers(sportCodes: bool, rows: seq<Option<Row>>, v: Values)
    ensures v in FilterRows(sportCodes, rows) <==>
              exists i :: 0 <= i < |rows| && ProcessRow(sportCodes, rows[i]) == Kept(v)
    decreases |rows|
  {
    if rows != [] {
      var init := rows[..|rows| - 1];
      FilterRowsMembers(sportCodes, init, v);
      if exists i :: 0 <= i < |init| && ProcessRow(sportCodes, init[i]) == Kept(v) {
        var i :| 0 <= i < |init| && ProcessRow(sportCodes, init[i]) == Kept(v);
        assert rows[i] == init[i];
      }
      if i :| 0 <= i < |rows| && ProcessRow(sportCodes, rows[i]) == Kept(v) {
        if i < |init| {
          assert init[i] == rows[i];
        }
      }
    }
  }
}
