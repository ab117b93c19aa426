/**
 * What one table becomes on disk: its CSV rows, padded to the header's width,
 * and its JSON records, one hash per row keyed by the header.
 */
module Encoding {
  import opened Wrappers
  import opened Seqs
  import opened OrderedMaps
  import opened DataModel

  /**
   * `row.dup.fill(nil, row.length, width - row.length)`: nils appended up to
   * width; a row already that wide, or wider, is unchanged.
   */
  function Pad(row: Values, width: nat): (r: Values)
    ensures |r| == if |row| >= width then |row| else width
    ensures r[..|row|] == row
    ensures forall j :: |row| <= j < |r| ==> r[j] == None
  {
    if |row| >= width then row else row + seq(width - |row|, _ => None)
  }

  /** The CSV of a table: the header row, then every other row padded to the header's width. */
  function CsvRows(header: Values, body: seq<Values>): (r: seq<Values>)
    ensures |r| == |body| + 1 && r[0] == header
    ensures forall i :: 0 <= i < |body| ==> r[i + 1] == Pad(body[i], |header|)
  {
    [header] + seq(|body|, i requires 0 <= i < |body| => Pad(body[i], |header|))
  }

  /** No CSV row is narrower than the header, and each row's own cells come first, unchanged. */
  lemma {:induction false} CsvRowsCoverHeader(header: Values, body: seq<Values>, i: nat)
    requires 0 < i < |body| + 1
    ensures |CsvRows(header, body)[i]| >= |header|
    ensures |CsvRows(header, body)[i]| >= |body[i - 1]|
    ensures CsvRows(header, body)[i][..|body[i - 1]|] == body[i - 1]
  {
  }

  /** A JSON record: a Ruby Hash from header values to row values. */
  type Record = OrderedMap<Option<Value>, Option<Value>>

  /**
   * `Hash[header.zip(row)]`: one pair per header column, with nil past the
   * end of the row; a repeated header keeps its first position and takes the
   * value of its last column.
   */
  function Zip(header: Values, row: Values): (r: Record)
    ensures r.Valid()
    ensures forall k :: k in r.entries <==> k in header
    decreases |header|
  {
    if header == [] then Empty()
    else
      var n := |header| - 1;
      assert forall k :: k in header <==> k in header[..n] || k == header[n];
      PutValid(Zip(header[..n], row), header[n], At(row, n));
      Zip(header[..n], row).Put(header[n], At(row, n))
  }

  /** Each key's value comes from the last column with that header. */
  lemma {:induction false} ZipLastWins(header: Values, row: Values, k: Option<Value>)
    requires k in header
    ensures Zip(header, row).entries[k] == At(row, LastIndexOf(header, k))
    decreases |header|
  {
    var n := |header| - 1;
    if header[n] != k {
      assert k in header[..n];
      ZipLastWins(header[..n], row, k);
    }
  }

  predicate Distinct(header: Values) {
    forall i, j :: 0 <= i < j < |header| ==> header[i] != header[j]
  }

  /** Dropping the last header keeps the rest distinct, and the last one does not occur before it. */
  lemma {:induction false} DistinctInit(header: Values)
    requires Distinct(header) && header != []
    ensures Distinct(header[..|header| - 1])
    ensures header[|header| - 1] !in header[..|header| - 1]
  {
  }

  /** With no repeated header the record's keys are the header, in order. */
  lemma {:induction false} ZipDistinctKeys(header: Values, row: Values)
    requires Distinct(header)
    ensures Zip(header, row).keys == header
    decreases |header|
  {
    if header != [] {
      var n := |header| - 1;
      var prev := Zip(header[..n], row);
      DistinctInit(header);
      ZipDistinctKeys(header[..n], row);
      assert header[n] !in prev.entries;
      InitLast(header);
    }
  }

  /** With no repeated header every column is paired with its own header. */
  lemma {:induction false} ZipDistinctValues(header: Values, row: Values, j: nat)
    requires Distinct(header)
    requires j < |header|
    ensures Zip(header, row).entries[header[j]] == At(row, j)
  {
    assert header == header[..j] + [header[j]] + header[j + 1..];
    assert header[j] !in header[j + 1..];
    LastIndexOfSplit(header[..j], header[j], header[j + 1..]);
    ZipLastWins(header, row, header[j]);
  }

  /** The JSON of a table: one record per row after the header. */
  function Records(header: Values, body: seq<Values>): (r: seq<Record>)
    ensures |r| == |body|
    ensures forall i :: 0 <= i < |body| ==> r[i] == Zip(header, body[i])
  {
    seq(|body|, i requires 0 <= i < |body| => Zip(header, body[i]))
  }
}
