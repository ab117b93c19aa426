/**
 * What writing the parsed tables produces: for each table in order a CSV file
 * and a JSON file, then all.json with every table whose name holds no slash
 * merged into what all.json held before.
 */
module Writing {
  import opened Wrappers
  import opened Seqs
  import opened OrderedMaps
  import opened DataModel
  import opened Encoding
  import opened Paths

  /** A value of all.json: one read from the previous file (never looked into), or a table's records. */
  datatype AggregateEntry = Prior(json: int) | Table(records: seq<Record>)

  /** The all.json document. */
  type Aggregate = OrderedMap<string, AggregateEntry>

  /** A file written: the table it belongs to, or all.json, and the content written to it. */
  datatype Output =
    | CsvFile(table: string, rows: seq<Values>)
    | JsonFile(table: string, records: seq<Record>)
    | AggregateFile(doc: Aggregate)

  /** Where a file is written: `output_path(name, kind)` for a table's file, and all.json's path. */
  function FilePath(games: string, version: string, o: Output): string {
    match o
    case CsvFile(name, _) => OutputPath(games, version, name, "csv")
    case JsonFile(name, _) => OutputPath(games, version, name, "json")
    case AggregateFile(_) => AggregatePath(games, version)
  }

  /** The path of each file, in the order the files are written. */
  function FilePaths(games: string, version: string, outs: seq<Output>): (r: seq<string>)
    ensures |r| == |outs|
    ensures forall j :: 0 <= j < |outs| ==> r[j] == FilePath(games, version, outs[j])
  {
    seq(|outs|, j requires 0 <= j < |outs| => FilePath(games, version, outs[j]))
  }

  /**
   * With a plain competition and version, two table files share a path only
   * when they are the same kind of file of the same table.
   */
  lemma {:induction false} FilePathsApart(games: string, version: string, a: Output, b: Output)
    requires Segment(games) && Segment(version)
    requires !a.AggregateFile? && !b.AggregateFile?
    requires a.table == [] || a.table[0] != '/'
    requires b.table == [] || b.table[0] != '/'
    requires FilePath(games, version, a) == FilePath(games, version, b)
    ensures a.table == b.table && a.CsvFile? == b.CsvFile?
  {
    FixedSegments();
    var ka := if a.CsvFile? then "csv" else "json";
    var kb := if b.CsvFile? then "csv" else "json";
    OutputPathLayout(games, version, a.table, ka);
    OutputPathLayout(games, version, b.table, kb);
    var dir := VersionDirectory(games, version) + "/";
    if ka == kb {
      OutputPathInjective(games, version, a.table, b.table, ka);
    } else if a.CsvFile? {
      KindsApart(dir, a.table, b.table);
    } else {
      KindsApart(dir, b.table, a.table);
    }
  }

  /** A CSV file and a JSON file under one directory differ in the kind directory. */
  lemma {:induction false} KindsApart(dir: string, csvName: string, jsonName: string)
    ensures dir + "csv" + "/" + csvName + "." + "csv" != dir + "json" + "/" + jsonName + "." + "json"
  {
    assert (dir + "csv" + "/" + csvName + "." + "csv")[|dir|] == 'c';
    assert (dir + "json" + "/" + jsonName + "." + "json")[|dir|] == 'j';
  }

  /** The JSON file of a table named "all" is written where all.json is. */
  lemma {:induction false} AllJsonSharesAggregatePath(games: string, version: string, records: seq<Record>, doc: Aggregate)
    ensures FilePath(games, version, JsonFile("all", records)) == FilePath(games, version, AggregateFile(doc))
  {
    AllTableIsAggregate(games, version);
  }

  /** The files written, the error that stopped the run if any, and the tables afterwards. */
  datatype WriteResult = WriteResult(outputs: seq<Output>, error: Option<Error>, tables: Tables)

  /** `raise ... if @version.nil? || @version.length == 0`, where `length` raises on a non-string. */
  function VersionText(version: Option<Value>): (r: Result<string, Error>)
    ensures r.Ok? <==> version.Some? && version.value.Str? && version.value.text != ""
    ensures r.Ok? ==> r.value == version.value.text
    ensures r.Err? ==> (r.error == VersionNotText <==> version.Some? && version.value.Num?)
    ensures version.None? || version == Some(Str("")) ==> r == Err(NoVersion)
  {
    match version
    case None => Err(NoVersion)
    case Some(Num(_)) => Err(VersionNotText)
    case Some(Str(text)) => if text == "" then Err(NoVersion) else Ok(text)
  }

  /** Every name is the name of a table. */
  predicate AllIn(tables: Tables, names: seq<string>) {
    forall i :: 0 <= i < |names| ==> names[i] in tables.entries
  }

  /** The two files of one table whose first row is its header. */
  function TableFiles(name: string, rows: seq<Values>): (r: seq<Output>)
    requires rows != []
    ensures |r| == 2 && r[0].CsvFile? && r[1].JsonFile?
  {
    [CsvFile(name, CsvRows(rows[0], rows[1..])),
     JsonFile(name, Records(rows[0], rows[1..]))]
  }

  /** The names are pairwise different, as the keys of a Ruby Hash are. */
  predicate DistinctNames(names: seq<string>) {
    forall i, j :: 0 <= i < j < |names| ==> names[i] != names[j]
  }

  /** all.json after one table: the table's records under its name, unless the name holds a slash. */
  function Merged(agg: Aggregate, name: string, rows: seq<Values>): Aggregate
    requires rows != []
  {
    if '/' in name then agg else agg.Put(name, Table(Records(rows[0], rows[1..])))
  }

  /** The files written by the loop, and the error that stopped it, if any. */
  datatype LoopResult = LoopResult(outputs: seq<Output>, error: Option<Error>)

  /**
   * The files written by the loop from the i-th table on, given all.json so
   * far. The names are the tables' keys, each listed once, so the i-th table
   * still holds the rows it was parsed with. An empty table has no header:
   * its CSV file is opened (and so emptied) and writing the header raises.
   */
  function WriteFrom(tables: Tables, names: seq<string>, i: nat, agg: Aggregate): LoopResult
    requires AllIn(tables, names) && i <= |names|
    decreases |names| - i
  {
    if i == |names| then
      LoopResult([AggregateFile(agg)], None)
    else
      var rows := tables.entries[names[i]];
      if rows == [] then
        LoopResult([CsvFile(names[i], [])], Some(EmptyTable(names[i])))
      else
        var rest := WriteFrom(tables, names, i + 1, Merged(agg, names[i], rows));
        LoopResult(TableFiles(names[i], rows) + rest.outputs, rest.error)
  }

  /** `values.shift` as it changes the table: the first row goes; an empty table stays empty. */
  function Shift(rows: seq<Values>): (r: seq<Values>)
    ensures rows != [] ==> r == rows[1..]
    ensures rows == [] ==> r == []
  {
    if rows == [] then [] else rows[1..]
  }

  /** The tables after the loop has shifted the first n of them. */
  function Shifted(tables: Tables, names: seq<string>, n: nat): (r: Tables)
    requires AllIn(tables, names) && n <= |names|
    ensures r.keys == tables.keys && r.entries.Keys == tables.entries.Keys
  {
    if n == 0 then tables
    else Shifted(tables, names, n - 1).Put(names[n - 1], Shift(tables.entries[names[n - 1]]))
  }

  /** The position of the first empty table from the i-th on, or |names| when there is none. */
  function FirstEmpty(tables: Tables, names: seq<string>, i: nat): (k: nat)
    requires AllIn(tables, names) && i <= |names|
    ensures i <= k <= |names|
    ensures forall j :: i <= j < k ==> tables.entries[names[j]] != []
    ensures k < |names| ==> tables.entries[names[k]] == []
    decreases |names| - i
  {
    if i == |names| || tables.entries[names[i]] == [] then i
    else FirstEmpty(tables, names, i + 1)
  }

  /** The document all.json starts from: the previous file's, or `{}`. */
  function StartAggregate(existing: Option<Aggregate>): Aggregate {
    if existing.Some? then existing.value else Empty()
  }

  /**
   * `write!`: the version check, then the loop over the tables in insertion
   * order, which shifts each table it reaches.
   */
  function WriteOutputs(version: Option<Value>, tables: Tables,
                        existing: Option<Aggregate>): WriteResult
    requires tables.Valid()
  {
    match VersionText(version)
    case Err(e) => WriteResult([], Some(e), tables)
    case Ok(v) =>
      var r := WriteFrom(tables, tables.keys, 0, StartAggregate(existing));
      WriteResult(r.outputs, r.error, Shifted(tables, tables.keys, FirstEmpty(tables, tables.keys, 0)))
  }

  /** The loop stops at a table without a header row, with its CSV file emptied. */
  lemma {:induction false} WriteFromEmpty(tables: Tables, names: seq<string>, i: nat, agg: Aggregate)
    requires AllIn(tables, names) && i < |names| && tables.entries[names[i]] == []
    ensures WriteFrom(tables, names, i, agg)
         == LoopResult([CsvFile(names[i], [])], Some(EmptyTable(names[i])))
    ensures FirstEmpty(tables, names, i) == i
  {
  }

  /** One step of the loop over a table that has a header row. */
  lemma {:induction false} WriteFromCons(tables: Tables, names: seq<string>, i: nat, agg: Aggregate)
    requires AllIn(tables, names) && i < |names| && tables.entries[names[i]] != []
    ensures var rows := tables.entries[names[i]];
            var rest := WriteFrom(tables, names, i + 1, Merged(agg, names[i], rows));
            WriteFrom(tables, names, i, agg)
            == LoopResult(TableFiles(names[i], rows) + rest.outputs, rest.error)
    ensures FirstEmpty(tables, names, i) == FirstEmpty(tables, names, i + 1)
  {
  }

  /** The loop writes two files per table up to the first empty one, and one more; it fails exactly on an empty table. */
  lemma {:induction false} WriteFromError(tables: Tables, names: seq<string>, i: nat,
                                          agg: Aggregate)
    requires AllIn(tables, names) && i <= |names|
    ensures var r := WriteFrom(tables, names, i, agg);
            var k := FirstEmpty(tables, names, i);
            && |r.outputs| == 2 * (k - i) + 1
            && (r.error.None? <==> k == |names|)
            && (k < |names| ==> r.error == Some(EmptyTable(names[k])))
    decreases |names| - i
  {
    if i < |names| && tables.entries[names[i]] != [] {
      var rows := tables.entries[names[i]];
      WriteFromCons(tables, names, i, agg);
      WriteFromError(tables, names, i + 1, Merged(agg, names[i], rows));
    }
  }

  /** The outputs at 2m and 2m + 1 after a table's two files. */
  lemma {:induction false} PairAt(files: seq<Output>, rest: seq<Output>, m: nat)
    requires |files| == 2 && 2 * m <= |rest|
    ensures m == 0 ==> (files + rest)[0] == files[0] && (files + rest)[1] == files[1]
    ensures 0 < m ==> (files + rest)[2 * m] == rest[2 * (m - 1)] && (files + rest)[2 * m + 1] == rest[2 * (m - 1) + 1]
  {
  }

  /**
   * Before the first empty table, the j-th table writes its CSV file and
   * then its JSON file, two places per table after the i-th.
   */
  lemma {:induction false} WriteFromTableFiles(tables: Tables, names: seq<string>,
                                               i: nat, j: nat, agg: Aggregate)
    requires AllIn(tables, names) && i <= |names| && i <= j < FirstEmpty(tables, names, i)
    ensures var r := WriteFrom(tables, names, i, agg);
            var files := TableFiles(names[j], tables.entries[names[j]]);
            && 2 * (j - i) + 2 <= |r.outputs|
            && r.outputs[2 * (j - i)] == files[0]
            && r.outputs[2 * (j - i) + 1] == files[1]
    decreases j - i
  {
    var rows := tables.entries[names[i]];
    var agg' := Merged(agg, names[i], rows);
    var rest := WriteFrom(tables, names, i + 1, agg');
    WriteFromCons(tables, names, i, agg);
    WriteFromError(tables, names, i + 1, agg');
    if j > i {
      WriteFromTableFiles(tables, names, i + 1, j, agg');
    }
    PairAt(TableFiles(names[i], rows), rest.outputs, j - i);
  }

  /** Before the first empty table, the next table either is the first empty one or moves that one no nearer. */
  lemma {:induction false} FirstEmptyNext(tables: Tables, names: seq<string>, i: nat)
    requires AllIn(tables, names) && i < |names| && i <= FirstEmpty(tables, names, 0)
    ensures tables.entries[names[i]] == [] ==> FirstEmpty(tables, names, 0) == i
    ensures tables.entries[names[i]] != [] ==> i + 1 <= FirstEmpty(tables, names, 0)
  {
  }

  /** The files the loop writes for the first n tables, none of which is empty. */
  function FilesBefore(tables: Tables, names: seq<string>, n: nat): seq<Output>
    requires AllIn(tables, names) && n <= FirstEmpty(tables, names, 0)
    decreases n
  {
    if n == 0 then []
    else FilesBefore(tables, names, n - 1) + TableFiles(names[n - 1], tables.entries[names[n - 1]])
  }

  /** all.json after the first n tables, none of which is empty, starting from agg. */
  function MergedBefore(tables: Tables, names: seq<string>, n: nat, agg: Aggregate): Aggregate
    requires AllIn(tables, names) && n <= FirstEmpty(tables, names, 0)
    decreases n
  {
    if n == 0 then agg
    else Merged(MergedBefore(tables, names, n - 1, agg), names[n - 1], tables.entries[names[n - 1]])
  }

  /**
   * The loop from the first table is the files of the first n tables
   * followed by the loop from the n-th table, with all.json as the first n
   * tables left it.
   */
  lemma {:induction false} WriteFromSplit(tables: Tables, names: seq<string>, n: nat,
                                          agg: Aggregate)
    requires AllIn(tables, names) && n <= FirstEmpty(tables, names, 0)
    ensures var rest := WriteFrom(tables, names, n, MergedBefore(tables, names, n, agg));
            WriteFrom(tables, names, 0, agg)
            == LoopResult(FilesBefore(tables, names, n) + rest.outputs, rest.error)
    decreases n
  {
    if n > 0 {
      var doc := MergedBefore(tables, names, n - 1, agg);
      var rows := tables.entries[names[n - 1]];
      WriteFromSplit(tables, names, n - 1, agg);
      WriteFromCons(tables, names, n - 1, doc);
      AppendAssoc(FilesBefore(tables, names, n - 1), TableFiles(names[n - 1], rows),
                  WriteFrom(tables, names, n, Merged(doc, names[n - 1], rows)).outputs);
    }
  }

  /** No file except possibly the last one is all.json. */
  predicate AggregateOnlyLast(outputs: seq<Output>) {
    forall j :: 0 <= j < |outputs| - 1 ==> !outputs[j].AggregateFile?
  }

  /** A table's two files put in front keep all.json out of every place but the last. */
  lemma {:induction false} AggregateOnlyLastAfter(files: seq<Output>, rest: seq<Output>)
    requires forall j :: 0 <= j < |files| ==> !files[j].AggregateFile?
    requires |rest| > 0 && AggregateOnlyLast(rest)
    ensures AggregateOnlyLast(files + rest)
    ensures (files + rest)[|files + rest| - 1] == rest[|rest| - 1]
  {
    var outs := files + rest;
    forall j | 0 <= j < |outs| - 1
      ensures !outs[j].AggregateFile?
    {
      if j >= |files| {
        assert outs[j] == rest[j - |files|];
      }
    }
  }

  /**
   * The last file written is all.json when every table was written, and the
   * emptied CSV file of the first empty table otherwise; all.json is written
   * nowhere else.
   */
  lemma {:induction false} WriteFromLast(tables: Tables, names: seq<string>, i: nat,
                                         agg: Aggregate)
    requires AllIn(tables, names) && i <= |names|
    ensures var r := WriteFrom(tables, names, i, agg);
            var k := FirstEmpty(tables, names, i);
            && |r.outputs| > 0
            && (k < |names| ==> r.outputs[|r.outputs| - 1] == CsvFile(names[k], []))
            && (k == |names| ==> r.outputs[|r.outputs| - 1].AggregateFile?)
            && AggregateOnlyLast(r.outputs)
    decreases |names| - i
  {
    if i < |names| && tables.entries[names[i]] != [] {
      var rows := tables.entries[names[i]];
      var agg' := Merged(agg, names[i], rows);
      WriteFromCons(tables, names, i, agg);
      WriteFromLast(tables, names, i + 1, agg');
      AggregateOnlyLastAfter(TableFiles(names[i], rows), WriteFrom(tables, names, i + 1, agg').outputs);
    }
  }

  /** The content of all.json, when it is written. */
  function WrittenAggregate(outputs: seq<Output>): Aggregate {
    if |outputs| > 0 && outputs[|outputs| - 1].AggregateFile? then outputs[|outputs| - 1].doc else Empty()
  }

  /** A table with a header row hands all.json, with its records merged in, to the rest of the loop. */
  lemma {:induction false} WrittenAggregateCons(tables: Tables, names: seq<string>, i: nat, agg: Aggregate)
    requires AllIn(tables, names) && i < |names| && tables.entries[names[i]] != []
    ensures WrittenAggregate(WriteFrom(tables, names, i, agg).outputs)
         == WrittenAggregate(WriteFrom(tables, names, i + 1, Merged(agg, names[i], tables.entries[names[i]])).outputs)
    ensures FirstEmpty(tables, names, i) == FirstEmpty(tables, names, i + 1)
  {
    var rows := tables.entries[names[i]];
    var rest := WriteFrom(tables, names, i + 1, Merged(agg, names[i], rows));
    WriteFromCons(tables, names, i, agg);
    WriteFromError(tables, names, i + 1, Merged(agg, names[i], rows));
    LastOfAppend(TableFiles(names[i], rows), rest.outputs);
  }

  /** A name occurs from position i on when it is the i-th or occurs after it. */
  lemma {:induction false} InFrom(names: seq<string>, i: nat, n: string)
    requires i < |names|
    ensures n in names[i..] <==> n == names[i] || n in names[i + 1..]
  {
    assert names[i..] == [names[i]] + names[i + 1..];
  }

  /**
   * After a loop that reaches its end, every other key of all.json keeps its
   * previous value.
   */
  lemma {:induction false} WriteFromAggregateOthers(tables: Tables, names: seq<string>,
                                                    i: nat, agg: Aggregate)
    requires AllIn(tables, names) && i <= |names| && FirstEmpty(tables, names, i) == |names|
    ensures var doc := WrittenAggregate(WriteFrom(tables, names, i, agg).outputs);
            forall n :: n in agg.entries && (n !in names[i..] || '/' in n) ==> n in doc.entries && doc.entries[n] == agg.entries[n]
    decreases |names| - i
  {
    if i < |names| {
      var rows := tables.entries[names[i]];
      var agg' := Merged(agg, names[i], rows);
      WrittenAggregateCons(tables, names, i, agg);
      WriteFromAggregateOthers(tables, names, i + 1, agg');
      forall n | n in agg.entries && (n !in names[i..] || '/' in n)
        ensures n in agg'.entries && agg'.entries[n] == agg.entries[n] && (n !in names[i + 1..] || '/' in n)
      {
        InFrom(names, i, n);
      }
    }
  }

  /** With no repeated name, the i-th name does not occur after position i. */
  lemma {:induction false} NotLater(names: seq<string>, i: nat)
    requires DistinctNames(names) && i < |names|
    ensures names[i] !in names[i + 1..]
  {
    assert forall m :: i < m < |names| ==> names[m] != names[i];
  }

  /**
   * After a loop that reaches its end, all.json holds, for every table from
   * the i-th on whose name has no slash, that table's records.
   */
  lemma {:induction false} WriteFromAggregateTables(tables: Tables, names: seq<string>,
                                                    i: nat, agg: Aggregate)
    requires AllIn(tables, names) && DistinctNames(names)
    requires i <= |names| && FirstEmpty(tables, names, i) == |names|
    ensures var doc := WrittenAggregate(WriteFrom(tables, names, i, agg).outputs);
            forall j :: i <= j < |names| && '/' !in names[j] ==>
              names[j] in doc.entries
              && doc.entries[names[j]] == Table(Records(tables.entries[names[j]][0], tables.entries[names[j]][1..]))
    decreases |names| - i
  {
    if i < |names| {
      var rows := tables.entries[names[i]];
      var agg' := Merged(agg, names[i], rows);
      WrittenAggregateCons(tables, names, i, agg);
      WriteFromAggregateTables(tables, names, i + 1, agg');
      WriteFromAggregateOthers(tables, names, i + 1, agg');
      NotLater(names, i);
    }
  }

  /**
   * After a loop that reaches its end, all.json holds no key but those it
   * held and the names without a slash of the tables from the i-th on, each
   * listed once.
   */
  lemma {:induction false} WriteFromAggregateKeys(tables: Tables, names: seq<string>,
                                                  i: nat, agg: Aggregate)
    requires AllIn(tables, names) && i <= |names| && FirstEmpty(tables, names, i) == |names|
    ensures var doc := WrittenAggregate(WriteFrom(tables, names, i, agg).outputs);
            && (forall n :: n in doc.entries ==> n in agg.entries || (n in names[i..] && '/' !in n))
            && (agg.Valid() ==> doc.Valid())
    decreases |names| - i
  {
    if i < |names| {
      var rows := tables.entries[names[i]];
      var agg' := Merged(agg, names[i], rows);
      WrittenAggregateCons(tables, names, i, agg);
      WriteFromAggregateKeys(tables, names, i + 1, agg');
      if agg.Valid() && '/' !in names[i] {
        PutValid(agg, names[i], Table(Records(rows[0], rows[1..])));
      }
      var doc := WrittenAggregate(WriteFrom(tables, names, i + 1, agg').outputs);
      forall n | n in doc.entries
        ensures n in agg.entries || (n in names[i..] && '/' !in n)
      {
        InFrom(names, i, n);
      }
    }
  }

  /** The j-th table after n shifts: shifted when j < n, untouched otherwise. */
  lemma {:induction false} ShiftedAt(tables: Tables, names: seq<string>, n: nat, j: nat)
    requires AllIn(tables, names) && DistinctNames(names)
    requires n <= |names| && j < |names|
    ensures j < n ==> Shifted(tables, names, n).entries[names[j]] == Shift(tables.entries[names[j]])
    ensures n <= j ==> Shifted(tables, names, n).entries[names[j]] == tables.entries[names[j]]
    decreases n
  {
    if n > 0 && j != n - 1 {
      ShiftedAt(tables, names, n - 1, j);
    }
  }

  /** Shifting tables keeps the store well formed: the same keys, each listed once. */
  lemma {:induction false} ShiftedValid(tables: Tables, names: seq<string>, n: nat)
    requires AllIn(tables, names) && n <= |names| && tables.Valid()
    ensures Shifted(tables, names, n).Valid()
    decreases n
  {
    if n > 0 {
      ShiftedValid(tables, names, n - 1);
      PutValid(Shifted(tables, names, n - 1), names[n - 1], Shift(tables.entries[names[n - 1]]));
    }
  }

  /** A parsed table store lists each of its tables once. */
  lemma {:induction false} ValidNames(tables: Tables)
    requires tables.Valid()
    ensures AllIn(tables, tables.keys) && DistinctNames(tables.keys)
  {
  }

  /** A missing, empty or non-text version stops `write!` before any file is written. */
  lemma {:induction false} WriteOutputsBadVersion(version: Option<Value>, tables: Tables, existing: Option<Aggregate>)
    requires tables.Valid()
    requires VersionText(version).Err?
    ensures var r := WriteOutputs(version, tables, existing);
            && r.outputs == []
            && r.error == Some(VersionText(version).error)
            && r.tables == tables
  {
  }

  /**
   * With a usable version, `write!` writes two files for each table in
   * insertion order up to the first empty one, plus one more file; it fails
   * exactly when some table is empty, naming the first.
   */
  lemma {:induction false} WriteOutputsCount(version: Option<Value>, tables: Tables, existing: Option<Aggregate>)
    requires tables.Valid()
    requires VersionText(version).Ok?
    ensures var r := WriteOutputs(version, tables, existing);
            var k := FirstEmpty(tables, tables.keys, 0);
            && |r.outputs| == 2 * k + 1
            && (r.error.None? <==> k == |tables.keys|)
            && (k < |tables.keys| ==> r.error == Some(EmptyTable(tables.keys[k])))
  {
    WriteFromError(tables, tables.keys, 0, StartAggregate(existing));
  }

  /**
   * Each table before the first empty one is written as its CSV file, the
   * header then every other row padded, followed by its JSON file, one record
   * per row after the header.
   */
  lemma {:induction false} WriteOutputsTableFiles(version: Option<Value>, tables: Tables, existing: Option<Aggregate>, i: nat)
    requires tables.Valid()
    requires VersionText(version).Ok?
    requires i < FirstEmpty(tables, tables.keys, 0)
    ensures var r := WriteOutputs(version, tables, existing);
            var name := tables.keys[i];
            var rows := tables.entries[name];
            && 2 * i + 2 <= |r.outputs|
            && r.outputs[2 * i] == CsvFile(name, CsvRows(rows[0], rows[1..]))
            && r.outputs[2 * i + 1] == JsonFile(name, Records(rows[0], rows[1..]))
  {
    WriteFromTableFiles(tables, tables.keys, 0, i, StartAggregate(existing));
  }

  /**
   * The last file `write!` writes is all.json when no table is empty, and the
   * emptied CSV file of the first empty table otherwise; all.json is written
   * nowhere else.
   */
  lemma {:induction false} WriteOutputsLast(version: Option<Value>, tables: Tables, existing: Option<Aggregate>)
    requires tables.Valid()
    requires VersionText(version).Ok?
    ensures var r := WriteOutputs(version, tables, existing);
            var k := FirstEmpty(tables, tables.keys, 0);
            && |r.outputs| > 0
            && (k < |tables.keys| ==> r.outputs[|r.outputs| - 1] == CsvFile(tables.keys[k], []))
            && (k == |tables.keys| ==> r.outputs[|r.outputs| - 1].AggregateFile?)
            && AggregateOnlyLast(r.outputs)
  {
    WriteFromLast(tables, tables.keys, 0, StartAggregate(existing));
  }

  /** `write!` succeeds only when the version is usable and every table has a header row. */
  lemma {:induction false} WriteOutputsNoEmptyTable(version: Option<Value>, tables: Tables, existing: Option<Aggregate>)
    requires tables.Valid()
    requires WriteOutputs(version, tables, existing).error.None?
    ensures VersionText(version).Ok?
    ensures FirstEmpty(tables, tables.keys, 0) == |tables.keys|
    ensures forall n :: n in tables.entries ==> tables.entries[n] != []
  {
    WriteFromError(tables, tables.keys, 0, StartAggregate(existing));
    AllNonEmpty(tables);
  }

  /** When the first empty table is past the last one, no table is empty. */
  lemma {:induction false} AllNonEmpty(tables: Tables)
    requires tables.Valid() && FirstEmpty(tables, tables.keys, 0) == |tables.keys|
    ensures forall n :: n in tables.entries ==> tables.entries[n] != []
  {
    forall n | n in tables.entries
      ensures tables.entries[n] != []
    {
      assert n in tables.keys;
    }
  }

  /**
   * A successful `write!` leaves all.json holding every table whose name has
   * no slash, with its records, and every other key of the previous all.json
   * unchanged; each key is listed once.
   */
  lemma {:induction false} WriteOutputsAggregate(version: Option<Value>, tables: Tables, existing: Option<Aggregate>)
    requires tables.Valid()
    requires existing.Some? ==> existing.value.Valid()
    requires WriteOutputs(version, tables, existing).error.None?
    ensures forall n :: n in tables.entries ==> tables.entries[n] != []
    ensures var doc := WrittenAggregate(WriteOutputs(version, tables, existing).outputs);
            var prior := StartAggregate(existing);
            && doc.Valid()
            && (forall n :: n in tables.entries && '/' !in n ==>
                  n in doc.entries && doc.entries[n] == Table(Records(tables.entries[n][0], tables.entries[n][1..])))
            && (forall n :: n in prior.entries && (n !in tables.entries || '/' in n) ==>
                  n in doc.entries && doc.entries[n] == prior.entries[n])
            && (forall n :: n in doc.entries ==> n in prior.entries || (n in tables.entries && '/' !in n))
  {
    WriteOutputsNoEmptyTable(version, tables, existing);
    ValidNames(tables);
    var agg := StartAggregate(existing);
    WriteFromAggregateTables(tables, tables.keys, 0, agg);
    WriteFromAggregateOthers(tables, tables.keys, 0, agg);
    WriteFromAggregateKeys(tables, tables.keys, 0, agg);
    assert tables.keys[0..] == tables.keys;
    var doc := WrittenAggregate(WriteOutputs(version, tables, existing).outputs);
    forall n | n in tables.entries && '/' !in n
      ensures n in doc.entries && doc.entries[n] == Table(Records(tables.entries[n][0], tables.entries[n][1..]))
    {
      var i :| 0 <= i < |tables.keys| && tables.keys[i] == n;
    }
  }

  /** A successful `write!` has shifted the header row out of every table, and kept the tables and their order. */
  lemma {:induction false} WriteOutputsShifts(version: Option<Value>, tables: Tables, existing: Option<Aggregate>)
    requires tables.Valid()
    requires WriteOutputs(version, tables, existing).error.None?
    ensures forall n :: n in tables.entries ==> tables.entries[n] != []
    ensures var r := WriteOutputs(version, tables, existing);
            && r.tables.keys == tables.keys
            && (forall n :: n in tables.entries ==> n in r.tables.entries && r.tables.entries[n] == tables.entries[n][1..])
  {
    WriteOutputsNoEmptyTable(version, tables, existing);
    ValidNames(tables);
    var r := WriteOutputs(version, tables, existing);
    forall n | n in tables.entries
      ensures n in r.tables.entries && r.tables.entries[n] == tables.entries[n][1..]
    {
      var i :| 0 <= i < |tables.keys| && tables.keys[i] == n;
      ShiftedAt(tables, tables.keys, |tables.keys|, i);
    }
  }
}
