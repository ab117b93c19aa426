/**
 * What `parse!` leaves in the loader: one table per sheet name, and the
 * version the Version table overrides.
 */
module Parsing {
  import opened Wrappers
  import opened Seqs
  import opened OrderedMaps
  import opened DataModel
  import opened Names
  import opened Rows

  /** `@data[name] = []` followed by the row loop: a sheet replaces any earlier table of the same name. */
  function ParseSheet(data: Tables, sheet: Sheet): Tables {
    if IsExcluded(sheet.name) then data
    else
      var name := TableName(sheet.name);
      data.Put(name, FilterRows(name == "SportCodes", sheet.rows))
  }

  /** The sheets loop, in workbook order. */
  function ParseSheets(data: Tables, sheets: Workbook): Tables
    decreases |sheets|
  {
    if sheets == [] then data
    else ParseSheet(ParseSheets(data, sheets[..|sheets| - 1]), sheets[|sheets| - 1])
  }

  /** Parsing keeps the tables well formed: each name listed once, in the order it was first stored. */
  lemma {:induction false} ParseSheetsValid(data: Tables, sheets: Workbook)
    requires data.Valid()
    ensures ParseSheets(data, sheets).Valid()
    decreases |sheets|
  {
    if sheets != [] {
      var prev := ParseSheets(data, sheets[..|sheets| - 1]);
      var last := sheets[|sheets| - 1];
      ParseSheetsValid(data, sheets[..|sheets| - 1]);
      if !IsExcluded(last.name) {
        PutValid(prev, TableName(last.name), FilterRows(TableName(last.name) == "SportCodes", last.rows));
      }
    }
  }

  /** A sheet that is read, stored under name. */
  predicate StoresAs(sheet: Sheet, name: string) {
    !IsExcluded(sheet.name) && TableName(sheet.name) == name
  }

  /** Parsing two runs of sheets is parsing one after the other. */
  lemma {:induction false} ParseSheetsAppend(data: Tables, a: Workbook, b: Workbook)
    ensures ParseSheets(data, a + b) == ParseSheets(ParseSheets(data, a), b)
    decreases |b|
  {
    if b == [] {
      assert a + b == a;
    } else {
      assert (a + b)[..|a + b| - 1] == a + b[..|b| - 1];
      assert (a + b)[|a + b| - 1] == b[|b| - 1];
      ParseSheetsAppend(data, a, b[..|b| - 1]);
    }
  }

  /** An excluded sheet changes nothing, wherever it stands. */
  lemma {:induction false} ExcludedSheetIgnored(data: Tables, a: Workbook, sheet: Sheet, b: Workbook)
    requires IsExcluded(sheet.name)
    ensures ParseSheets(data, a + [sheet] + b) == ParseSheets(data, a + b)
  {
    ParseSheetsAppend(data, a + [sheet], b);
    ParseSheetsAppend(data, a, [sheet]);
    ParseSheetsAppend(data, a, b);
    assert [sheet][..0] == [];
  }

  /** The last sheet adds its table, if it is read, to those of the sheets before it. */
  lemma {:induction false} ParseSheetsLastKeys(data: Tables, sheets: Workbook, name: string)
    requires sheets != []
    ensures name in ParseSheets(data, sheets).entries <==>
              name in ParseSheets(data, sheets[..|sheets| - 1]).entries || StoresAs(sheets[|sheets| - 1], name)
  {
  }

  /** Some sheet of init + [last] is stored under name exactly when one of init is, or last is. */
  lemma {:induction false} StoredSplit(init: Workbook, last: Sheet, name: string)
    ensures (exists i :: 0 <= i < |init + [last]| && StoresAs((init + [last])[i], name)) <==>
              (exists i :: 0 <= i < |init| && StoresAs(init[i], name)) || StoresAs(last, name)
  {
    var sheets := init + [last];
    if i :| 0 <= i < |sheets| && StoresAs(sheets[i], name) {
      if i < |init| {
        assert init[i] == sheets[i];
      }
    }
    if i :| 0 <= i < |init| && StoresAs(init[i], name) {
      assert sheets[i] == init[i];
    }
    if StoresAs(last, name) {
      assert sheets[|init|] == last;
    }
  }

  /** A table exists after parsing exactly when it existed before or some sheet is stored under its name. */
  lemma {:induction false} ParseKeys(data: Tables, sheets: Workbook, name: string)
    ensures name in ParseSheets(data, sheets).entries <==>
              name in data.entries || exists i :: 0 <= i < |sheets| && StoresAs(sheets[i], name)
    decreases |sheets|
  {
    if sheets != [] {
      var n := |sheets| - 1;
      ParseKeys(data, sheets[..n], name);
      ParseSheetsLastKeys(data, sheets, name);
      StoredSplit(sheets[..n], sheets[n], name);
      InitLast(sheets);
    }
  }

  /** Extending a prefix of the workbook by one sheet parses that sheet next. */
  lemma {:induction false} ParseSheetsStep(data: Tables, sheets: Workbook, s: nat)
    requires s < |sheets|
    ensures ParseSheets(data, sheets[..s + 1]) == ParseSheet(ParseSheets(data, sheets[..s]), sheets[s])
  {
    assert sheets[..s + 1][..s] == sheets[..s];
  }

  /**
   * A table holds the kept rows of the last sheet stored under its name;
   * earlier sheets of that name are discarded.
   */
  lemma {:induction false} ParseLastSheetWins(data: Tables, sheets: Workbook, j: nat)
    requires j < |sheets| && !IsExcluded(sheets[j].name)
    requires forall i :: j < i < |sheets| ==> !StoresAs(sheets[i], TableName(sheets[j].name))
    ensures var name := TableName(sheets[j].name);
            && name in ParseSheets(data, sheets).entries
            && ParseSheets(data, sheets).entries[name] == FilterRows(name == "SportCodes", sheets[j].rows)
    decreases |sheets|
  {
    if j < |sheets| - 1 {
      var init := sheets[..|sheets| - 1];
      assert init[j] == sheets[j];
      forall i | j < i < |init|
        ensures !StoresAs(init[i], TableName(init[j].name))
      {
        assert init[i] == sheets[i];
      }
      ParseLastSheetWins(data, init, j);
    }
  }

  /** A table no sheet is stored under keeps what it held. */
  lemma {:induction false} ParseUntouched(data: Tables, sheets: Workbook, name: string)
    requires name in data.entries
    requires forall i :: 0 <= i < |sheets| ==> !StoresAs(sheets[i], name)
    ensures name in ParseSheets(data, sheets).entries
    ensures ParseSheets(data, sheets).entries[name] == data.entries[name]
    decreases |sheets|
  {
    if sheets != [] {
      var init := sheets[..|sheets| - 1];
      forall i | 0 <= i < |init|
        ensures !StoresAs(init[i], name)
      {
        assert init[i] == sheets[i];
      }
      ParseUntouched(data, init, name);
    }
  }

  /** Tables are only ever added after those already there: the earlier names stay first, in order. */
  lemma {:induction false} ParseKeepsOrder(data: Tables, sheets: Workbook)
    ensures |data.keys| <= |ParseSheets(data, sheets).keys|
    ensures ParseSheets(data, sheets).keys[..|data.keys|] == data.keys
    decreases |sheets|
  {
    if sheets != [] {
      ParseKeepsOrder(data, sheets[..|sheets| - 1]);
    }
  }

  /** The name of the table whose second row may override the version. */
  const VERSION_TABLE: string := "Version"

  /**
   * `@version = @data['Version'][1][0] if @data['Version']`: the first value
   * of the Version table's second row; a Version table with fewer than two
   * rows raises.
   */
  function ResolveVersion(data: Tables, version: Option<Value>): (r: Result<Option<Value>, Error>)
    ensures VERSION_TABLE !in data.entries ==> r == Ok(version)
    ensures VERSION_TABLE in data.entries ==>
              (r.Err? <==> |data.entries[VERSION_TABLE]| < 2)
    ensures r.Err? ==> r.error == VersionRowMissing
    ensures VERSION_TABLE in data.entries && |data.entries[VERSION_TABLE]| >= 2 ==>
              r == Ok(At(data.entries[VERSION_TABLE][1], 0))
  {
    if VERSION_TABLE in data.entries then
      var rows := data.entries[VERSION_TABLE];
      if |rows| < 2 then Err(VersionRowMissing) else Ok(At(rows[1], 0))
    else Ok(version)
  }

  /** A Version table holds the rows of the last sheet named "Version" (or "ODF_Version", "Version_", ...). */
  lemma {:induction false} VersionFromLastVersionSheet(sheets: Workbook, j: nat, version: Option<Value>)
    requires j < |sheets| && StoresAs(sheets[j], VERSION_TABLE)
    requires forall i :: j < i < |sheets| ==> !StoresAs(sheets[i], VERSION_TABLE)
    requires |FilterRows(false, sheets[j].rows)| >= 2
    ensures ResolveVersion(ParseSheets(Empty(), sheets), version) == Ok(At(FilterRows(false, sheets[j].rows)[1], 0))
  {
    ParseLastSheetWins(Empty(), sheets, j);
  }

  /** Without a sheet stored as "Version" the version is left alone. */
  lemma {:induction false} VersionKeptWithoutVersionSheet(sheets: Workbook, version: Option<Value>)
    requires forall i :: 0 <= i < |sheets| ==> !StoresAs(sheets[i], VERSION_TABLE)
    ensures ResolveVersion(ParseSheets(Empty(), sheets), version) == Ok(version)
  {
    ParseKeys(Empty(), sheets, VERSION_TABLE);
  }
}
