/**
 * The `Loader` object and the script around it: build a loader from the
 * arguments, parse the workbook into it, write its tables.
 */
module Codes {
  import opened Wrappers
  import opened Seqs
  import opened OrderedMaps
  import opened DataModel
  import opened Names
  import opened Rows
  import opened Filenames
  import opened Parsing
  import opened Encoding
  import opened Writing

  class Loader {
    const file: string
    const games: string
    var version: Option<Value>
    var data: Tables

    ghost predicate Valid()
      reads this
    {
      data.Valid()
    }

    /** `initialize` once the competition and version are known: no tables yet. */
    constructor(file: string, id: Identity)
      ensures Valid()
      ensures this.file == file && games == id.games && version == Some(Str(id.version))
      ensures data == Empty()
    {
      this.file := file;
      games := id.games;
      version := Some(Str(id.version));
      data := Empty();
    }

    /** The row loop of one sheet, after `@data[name] = []`. */
    method LoadRows(name: string, sportCodes: bool, rows: seq<Option<Row>>)
      requires Valid()
      modifies this`data
      ensures Valid()
      ensures data == old(data).Put(name, FilterRows(sportCodes, rows))
    {
      data := data.Put(name, []);
      assert rows[..0] == [];
      var r := 0;
      while r < |rows|
        invariant 0 <= r <= |rows|
        invariant data == old(data).Put(name, FilterRows(sportCodes, rows[..r]))
      {
        FilterRowsStep(sportCodes, rows, r);
        var outcome := ProcessRow(sportCodes, rows[r]);
        if outcome.Kept? {
          PutPut(old(data), name, FilterRows(sportCodes, rows[..r]), FilterRows(sportCodes, rows[..r + 1]));
          data := data.Put(name, data.entries[name] + [outcome.values]);
        }
        r := r + 1;
      }
      WholePrefix(rows);
      PutValid(old(data), name, FilterRows(sportCodes, rows));
    }

    /** One sheet of the sheets loop. */
    method LoadSheet(sheet: Sheet)
      requires Valid()
      modifies this`data
      ensures Valid()
      ensures data == ParseSheet(old(data), sheet)
    {
      if !IsExcluded(sheet.name) {
        var name := TableName(sheet.name);
        LoadRows(name, name == "SportCodes", sheet.rows);
      }
    }

    /** `if @data['Version']` ... : the Version table's override. */
    method OverrideVersion() returns (err: Option<Error>)
      modifies this`version
      ensures match ResolveVersion(data, old(version))
              case Ok(v) => err == None && version == v
              case Err(e) => err == Some(e) && version == old(version)
    {
      if VERSION_TABLE in data.entries {
        var rows := data.entries[VERSION_TABLE];
        if |rows| < 2 {
          return Some(VersionRowMissing);
        }
        version := if |rows[1]| > 0 then rows[1][0] else None;
      }
      return None;
    }

    /**
     * `parse!`: reads the sheets in order into the tables, then lets a
     * Version table override the version.
     */
    method Parse(workbook: Workbook) returns (err: Option<Error>)
      requires Valid()
      modifies this`data, this`version
      ensures Valid()
      ensures data == ParseSheets(old(data), workbook)
      ensures match ResolveVersion(data, old(version))
              case Ok(v) => err == None && version == v
              case Err(e) => err == Some(e) && version == old(version)
    {
      var s := 0;
      while s < |workbook|
        invariant 0 <= s <= |workbook|
        invariant version == old(version)
        invariant data == ParseSheets(old(data), workbook[..s])
        invariant Valid()
      {
        ParseSheetsStep(old(data), workbook, s);
        LoadSheet(workbook[s]);
        s := s + 1;
      }
      WholePrefix(workbook);
      err := OverrideVersion();
    }

    /**
     * One table of the writing loop: `values.shift`, then its CSV and JSON
     * files and its place in all.json; ok is false when the table has no
     * header row and writing the header raises.
     */
    method WriteTable(name: string, all: Aggregate) returns (files: seq<Output>, merged: Aggregate, ok: bool)
      requires name in data.entries
      modifies this`data
      ensures ok <==> old(data).entries[name] != []
      ensures !ok ==> files == [CsvFile(name, [])] && merged == all && data == old(data)
      ensures ok ==>
                && files == TableFiles(name, old(data).entries[name])
                && merged == Merged(all, name, old(data).entries[name])
                && data == old(data).Put(name, old(data).entries[name][1..])
    {
      var rows := data.entries[name];
      if rows == [] {
        return [CsvFile(name, [])], all, false;
      }
      var header := rows[0];
      var body := rows[1..];
      data := data.Put(name, body);
      var records := Records(header, body);
      files := [CsvFile(name, CsvRows(header, body)),
                JsonFile(name, records)];
      merged := if '/' in name then all else all.Put(name, Table(records));
      ok := true;
    }

    /**
     * The loop of `write!` over the tables in insertion order, from all.json
     * as it was: each table's CSV and JSON file with its header row shifted
     * out, and finally all.json.
     */
    method WriteTables(all: Aggregate) returns (outs: seq<Output>, err: Option<Error>)
      requires Valid()
      modifies this`data
      ensures var r := WriteFrom(old(data), old(data.keys), 0, all);
              outs == r.outputs && err == r.error
      ensures data == Shifted(old(data), old(data.keys), FirstEmpty(old(data), old(data.keys), 0))
      ensures Valid()
    {
      ghost var tables := data;
      var names := data.keys;
      ValidNames(tables);
      var doc := all;
      outs := [];
      var i := 0;
      while i < |names|
        invariant i <= FirstEmpty(tables, names, 0)
        invariant data == Shifted(tables, names, i)
        invariant outs == FilesBefore(tables, names, i)
        invariant doc == MergedBefore(tables, names, i, all)
      {
        ShiftedAt(tables, names, i, i);
        FirstEmptyNext(tables, names, i);
        var files, ok;
        files, doc, ok := WriteTable(names[i], doc);
        if !ok {
          WriteFromSplit(tables, names, i, all);
          WriteFromEmpty(tables, names, i, doc);
          ShiftedValid(tables, names, i);
          return outs + files, Some(EmptyTable(names[i]));
        }
        outs := outs + files;
        i := i + 1;
      }
      WriteFromSplit(tables, names, i, all);
      ShiftedValid(tables, names, i);
      return outs + [AggregateFile(doc)], None;
    }

    /**
     * `write!`: checks the version, then writes the tables; paths holds the
     * path each file is written to, under the competition and the version.
     */
    method Write(existing: Option<Aggregate>) returns (outs: seq<Output>, paths: seq<string>, err: Option<Error>)
      requires Valid()
      modifies this`data
      ensures var r := WriteOutputs(old(version), old(data), existing);
              outs == r.outputs && err == r.error && data == r.tables
      ensures paths == if VersionText(old(version)).Ok? then FilePaths(games, VersionText(old(version)).value, outs) else []
      ensures Valid()
    {
      var text := VersionText(version);
      if text.Err? {
        return [], [], Some(text.error);
      }
      outs, err := WriteTables(StartAggregate(existing));
      paths := FilePaths(games, text.value, outs);
    }
  }

  /** `Loader.new(*ARGV)`: a file name, then optionally the competition and the version. */
  function Arguments(args: seq<string>): (r: Result<(string, Option<string>, Option<string>), Error>)
    ensures r.Ok? <==> 1 <= |args| <= 3
    ensures r.Ok? ==> r.value.0 == args[0]
    ensures r.Ok? ==> (r.value.1.Some? <==> |args| >= 2) && (r.value.1.Some? ==> r.value.1.value == args[1])
    ensures r.Ok? ==> (r.value.2.Some? <==> |args| == 3) && (r.value.2.Some? ==> r.value.2.value == args[2])
  {
    if |args| == 0 || |args| > 3 then Err(WrongArgumentCount)
    else Ok((args[0],
             if |args| >= 2 then Some(args[1]) else None,
             if |args| == 3 then Some(args[2]) else None))
  }

  /** The files a whole run writes, their paths, and the error that stops it, if any. */
  function RunOutputs(args: seq<string>, workbook: Workbook, existing: Option<Aggregate>)
    : (seq<Output>, seq<string>, Option<Error>)
  {
    match Arguments(args)
    case Err(e) => ([], [], Some(e))
    case Ok((file, games, version)) =>
      match ResolveIdentity(file, games, version)
      case Err(e) => ([], [], Some(e))
      case Ok(id) =>
        var data := ParseSheets(Empty(), workbook);
        ParseSheetsValid(Empty(), workbook);
        match ResolveVersion(data, Some(Str(id.version)))
        case Err(e) => ([], [], Some(e))
        case Ok(v) =>
          var r := WriteOutputs(v, data, existing);
          (r.outputs, if VersionText(v).Ok? then FilePaths(id.games, VersionText(v).value, r.outputs) else [], r.error)
  }

  /**
   * The script: `Loader.new(*ARGV)`, `parse!`, `write!`. The workbook is the
   * one the file names and existing is the all.json already on disk.
   */
  method Run(args: seq<string>, workbook: Workbook, existing: Option<Aggregate>)
    returns (outs: seq<Output>, paths: seq<string>, err: Option<Error>)
    ensures (outs, paths, err) == RunOutputs(args, workbook, existing)
  {
    var a := Arguments(args);
    if a.Err? {
      return [], [], Some(a.error);
    }
    var (file, games, version) := a.value;
    var id := ResolveIdentity(file, games, version);
    if id.Err? {
      return [], [], Some(id.error);
    }
    var loader := new Loader(file, id.value);
    var parseError := loader.Parse(workbook);
    if parseError.Some? {
      return [], [], parseError;
    }
    outs, paths, err := loader.Write(existing);
  }
}
