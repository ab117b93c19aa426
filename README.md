# ODF codes loader, modelled in Dafny

The script `scripts/codes.rb` turns an ODF codes workbook into files. It does three things.

- **Construction** (`Loader.new`) chooses the competition ("games") and the code-set version. They come from a workbook file name of the form `.../<games>_<XX>_<major>.<minor>.xlsx`, else from the arguments.
- **Parsing** (`parse!`):
  - reads every sheet except four front-matter sheets into a table;
  - names each table by a fixed normalisation of the sheet name;
  - keeps only the rows that have content and are not shaded red;
  - strips a leading `@` from column 1 of the SportCodes table;
  - lets a `Version` table override the version.
- **Writing** (`write!`) writes each table in insertion order as a CSV file and a JSON file. The table's first row is its header. It then merges every table whose name has no slash into `all.json`.

The model keeps the script's structure.

- `Loader` is a class with the fields `games`, `version` and `data`. `data` is an insertion-ordered map, like a Ruby Hash.
- Its methods `Parse` and `Write` run the same loops as `parse!` and `write!`.
- Each method is proved against a pure specification function: `ParseSheets`, `ResolveVersion` and `WriteOutputs`.
- The lemmas prove the properties the script relies on. These are stated about those functions.

The files that `write!` produces are returned as values of type `Writing.Output`:

- a CSV file with its rows;
- a JSON file with its records;
- `all.json` with its document.

`Writing.FilePath` gives the path each file is written to. `Codes.Run` models the three script lines. Its inputs are:

- the command-line arguments;
- the workbook the file name refers to;
- the `all.json` already on disk, if any.

Modules, one per file:

| module | file | content |
|---|---|---|
| Wrappers | wrappers.dfy | Option and Result. |
| Seqs | seqs.dfy | Last index of an element; Ruby's out-of-range indexing giving nil. |
| OrderedMaps | ordered_map.dfy | Ruby Hash: a key list in insertion order plus a map. |
| DataModel | data_model.dfy | Cells, rows, sheets, tables, and the ways a run aborts. |
| Names | names.dfy | Sheet exclusion and table-name normalisation. |
| Filenames | filename.dfy | The file-name pattern and the choice of competition and version. |
| Rows | rows.dfy | The row filter and the SportCodes `@` rule. |
| Parsing | parsing.dfy | The sheets loop and the Version override, as functions. |
| Paths | paths.dfy | `File.join` and the output path layout. |
| Encoding | encoding.dfy | CSV padding and JSON records. |
| Writing | writing.dfy | The write loop and all.json, as functions. |
| Codes | loader.dfy | The `Loader` class and the script. |

### Behaviour that follows the code closely

- **A later sheet replaces an earlier one.** A later sheet whose name normalises to the same table name replaces that table's rows (`@data[name] = []`). The table keeps its first insertion position.
- **Exclusion uses the raw sheet name.** The check is made before normalisation, so "ODF_Cover" is read and stored as "Cover".
- **The games-code removal is not anchored.** It removes the first `GL_`, `OG_` or `PG_` anywhere in the name, even inside a word.
- **The `^` anchors are line anchors.** This applies to both `sub(/^ODF_/, '')` and `gsub!(/^@/, '')`. They match at the start of the text and after every newline.
- **A short Version table aborts the run.** A Version table with fewer than two retained rows raises (`VersionRowMissing`).
- **A non-text version aborts `write!`.** A version read from the Version table that is not text fails at `@version.length` (`VersionNotText`). A nil or empty version fails with "No version specified" (`NoVersion`).
- **An empty table stops `write!`.** A table that retained no row has no header. Its CSV file is opened, and so emptied, and then `csv << nil` raises: the run stops there (`EmptyTable`). The files already written stay written, and `all.json` is not written.

## Model

| member | source | states |
|---|---|---|
| Names.IsExcluded | scripts/codes.rb:34 | No ensures (a predicate): the raw sheet name is one of the four listed names; characterised by `OdfNameNotExcluded` and `ExcludedNameReachable`. |
| Names.TableName | scripts/codes.rb:36 | No ensures: the four rewriting steps composed in the source's order; characterised by `TableNameHasNoSeparators`, `TableNameIdempotent`, `CodedTwoWords`, `CodedSheetName`, `GamesCodeInsideWord` and `PrefixedPlainName`. |
| Names.TableNameHasNoSeparators | scripts/codes.rb:36 | A table name never contains a space, an underscore or a hyphen. |
| Names.TableNameIdempotent | scripts/codes.rb:36 | Normalising a table name a second time leaves it unchanged. |
| Names.CodedTwoWords | scripts/codes.rb:36 | The sheet name "ODF", a space or `_`, GL/OG/PG, a space or `_`, a word, a space, `-` or `_`, a word becomes the two words run together ("ODF_GL_Sport-Codes" and "ODF GL Sport Codes" both become "SportCodes"). A hyphen is not allowed after "ODF" or after the code, since neither `sub` matches one there. |
| Names.CodedSheetName | scripts/codes.rb:36 | After an "ODF", code head, the rest of the name is stored with its spaces, hyphens and underscores removed. |
| Names.GamesCodeInsideWord | scripts/codes.rb:36 | The code removal is not anchored: a code tag that ends the first word is removed from inside that word. |
| Names.DropGamesCodeLeftmost | scripts/codes.rb:36 | The games-code removal is unanchored and leftmost: when no GL_, OG_ or PG_ starts anywhere in the text before a tag, that tag is the one removed, wherever it stands (so "A_B_GL_x" becomes "A_B_x"). |
| Names.DropGamesCodeNoTag | scripts/codes.rb:36 | A name in which no GL_, OG_ or PG_ starts anywhere is left unchanged by the code removal. |
| Names.DropGamesCodeAfterWord | scripts/codes.rb:36 | The special case where the text before the tag holds no underscore: the tag is removed even when it begins in the middle of a word. |
| Names.PrefixedPlainName | scripts/codes.rb:36 | "ODF_" followed by a plain word is stored under that word. |
| Names.OdfNameNotExcluded | scripts/codes.rb:34 | No sheet whose name starts with "ODF_" is excluded. |
| Names.ExcludedNameReachable | scripts/codes.rb:34-36 | Exclusion uses the raw name: for the one-word excluded names "Cover" and "Contents", "ODF_" plus the name is read and stored under the excluded name. (The two-word names become "DocumentControl" and "ChangeLogDetail", which are not excluded.) |
| Names.TwoWords | scripts/codes.rb:36 | Replacing spaces by underscores and then removing hyphens and underscores joins two plain words separated by a space, `-` or `_`. These are the first and last steps of line 36 only: the `ODF_` and code removals are not applied (so "ODF_Venues" is not an instance; `CodedTwoWords` and `PrefixedPlainName` cover the whole chain). |
| Filenames.MatchFilename | scripts/codes.rb:14 | Any groups it returns rebuild the file name under the pattern `/(\w+)_(\w{2})_(\d+\.\d+)\.xlsx`. |
| Filenames.MatchFilenameComplete | scripts/codes.rb:14 | Whenever the name matches the pattern with some groups, MatchFilename returns exactly those groups, so the match is unique. |
| Filenames.MatchFilenameExact | scripts/codes.rb:14 | MatchFilename succeeds if and only if the file name matches the pattern. |
| Filenames.ResolveIdentity | scripts/codes.rb:14-24 | A matching file name fixes games and version (group 1, group 3) and the arguments are ignored. Otherwise both arguments are used, and a missing one is the MissingGamesOrVersion error. |
| Codes.Arguments | scripts/codes.rb:11 | Between one and three arguments are accepted: the file, then optionally games, then optionally version. Any other count is WrongArgumentCount. |
| Rows.IsRemovedFill | scripts/codes.rb:47 | No ensures (a predicate): the ASCII lower-cased fill equals "ffff0000"; characterised by `RemovedFillSpellings`. |
| Rows.RemovedFillSpellings | scripts/codes.rb:47 | A fill marks a row as removed exactly when, lower-cased, it is "ffff0000": four f's in either case, then four zeros. |
| Rows.ProcessRow | scripts/codes.rb:44-63 | Only a SportCodes row can raise; what is kept and when is characterised by `ProcessRowKept` and `ProcessRowRaised`. |
| Rows.SportCodesColumn | scripts/codes.rb:54-56 | No ensures: raises unless column 1 holds text, else column 1 loses its line-start '@'; characterised through `ProcessRowKept` and `ProcessRowRaised`. |
| Rows.ProcessRowKept | scripts/codes.rb:43-58 | A row is kept if and only if it is present, has a cell, has a first cell that is not red, has some non-nil value, and (in SportCodes) has text in column 1. The kept values are the cell values, except that column 1 of a SportCodes row has its line-start '@' removed. |
| Rows.ProcessRowRaised | scripts/codes.rb:54-63 | A SportCodes row raises exactly when it would be kept apart from column 1 being missing, nil or not text. |
| Rows.RaisedRowDropped | scripts/codes.rb:54-63 | A raising row is dropped by the rescue, and the rows before and after it are filtered as if it were absent. |
| Rows.FilterRows | scripts/codes.rb:43-64 | The table never holds more rows than the sheet. |
| Rows.FilterRowsMembers | scripts/codes.rb:43-64 | A row is in the table if and only if some row of the sheet is kept with exactly those values. |
| Rows.FilterRowsAppend | scripts/codes.rb:43-64 | Filtering goes row by row in sheet order: filtering a concatenation concatenates the filtered parts. |
| Rows.StripLeadingAt | scripts/codes.rb:55 | The result is never longer than the text; characterised by `StripOneLine`, `StripKeepsOtherChars` and `StripExamples`. |
| Rows.StripOneLine | scripts/codes.rb:55 | On a one-line text exactly one leading '@' is removed ("@@1" becomes "@1"), and text without one is unchanged. |
| Rows.StripKeepsOtherChars | scripts/codes.rb:55 | The '@' strip removes only '@' characters; every other character keeps its count. |
| Rows.StripExamples | scripts/codes.rb:55 | "@@1" becomes "@1", and an '@' after a newline is removed too. |
| Parsing.ParseSheet | scripts/codes.rb:34-64 | No ensures: an excluded sheet leaves the tables alone, any other sheet puts its filtered rows under its table name; `Codes.Loader.LoadSheet` is proved equal to it. |
| Parsing.ParseSheets | scripts/codes.rb:33-67 | No ensures: `ParseSheet` applied to the sheets in workbook order; characterised by `ParseKeys`, `ParseLastSheetWins`, `ParseUntouched`, `ParseKeepsOrder`, `ParseSheetsAppend`, `ExcludedSheetIgnored` and `ParseSheetsValid`. |
| Parsing.ExcludedSheetIgnored | scripts/codes.rb:34 | An excluded sheet changes nothing wherever it stands in the workbook. |
| Parsing.ParseKeys | scripts/codes.rb:33-40 | A table exists after parsing if and only if it existed before, or some non-excluded sheet normalises to its name. |
| Parsing.ParseLastSheetWins | scripts/codes.rb:40-58 | A table holds exactly the filtered rows of the last sheet stored under its name; earlier sheets with that name are discarded. |
| Parsing.ParseUntouched | scripts/codes.rb:33-40 | A table that no sheet is stored under keeps its rows. |
| Parsing.ParseKeepsOrder | scripts/codes.rb:40 | Parsing only adds tables after the existing ones, whose order is unchanged. |
| Parsing.ParseSheetsAppend | scripts/codes.rb:33 | Sheets are processed one after another: parsing a + b is parsing a, then b. |
| Parsing.ParseSheetsValid | scripts/codes.rb:40 | After parsing, every table name is listed once, and the list and the map hold the same names. |
| Parsing.ResolveVersion | scripts/codes.rb:69-70 | Without a Version table the version is unchanged. With one, the version becomes the first value of its second row, and a table with fewer than two rows is the VersionRowMissing error. |
| Parsing.VersionFromLastVersionSheet | scripts/codes.rb:40-70 | The version comes from the second kept row of the last sheet stored as "Version". |
| Parsing.VersionKeptWithoutVersionSheet | scripts/codes.rb:69 | With no sheet stored as "Version" the version is kept. |
| OrderedMaps.OrderedMap.Put | scripts/codes.rb:40 | Assigning a key sets its value and changes no other key. An existing key keeps its position; a new key goes last. |
| OrderedMaps.PutPut | scripts/codes.rb:40 | Assigning one key twice is the same as the last assignment alone, so a later sheet replaces an earlier one in place. |
| Encoding.Pad | scripts/codes.rb:87 | A padded row has length max(row, width). It starts with the row unchanged and continues with nils. |
| Encoding.CsvRowsCoverHeader | scripts/codes.rb:85-88 | Every CSV data row is at least as wide as the header and as its source row, and it starts with the source row. |
| Encoding.CsvRows | scripts/codes.rb:85-88 | The CSV holds the header first, then each data row padded to the header's width, in order. |
| Encoding.Zip | scripts/codes.rb:94 | A record's keys are exactly the header entries, each listed once. |
| Encoding.ZipLastWins | scripts/codes.rb:94 | A key's value is the row value at the last column with that header, or nil when the row is shorter than that. |
| Encoding.ZipDistinctKeys | scripts/codes.rb:94 | Without a repeated header, the record's keys are the header in order. |
| Encoding.ZipDistinctValues | scripts/codes.rb:94 | Without a repeated header, every column's value sits under its own header. |
| Encoding.Records | scripts/codes.rb:93-95 | There is one record per data row, in row order, each zipped with the header. |
| Paths.JoinPath | scripts/codes.rb:112 | No ensures: Ruby's `File.join` folded over the parts; characterised by `JoinSegments` and `JoinEndsInSegment`. |
| Paths.OutputPath | scripts/codes.rb:112 | No ensures: `File.join` of the six parts of line 112; characterised by `OutputPathLayout`, `OutputPathInjective` and `AllTableIsAggregate`. |
| Paths.AggregatePath | scripts/codes.rb:77 | No ensures: `File.join` of the six parts of line 77; characterised by `AggregatePathLayout` and `AllTableIsAggregate`. |
| Paths.OutputPathLayout | scripts/codes.rb:112 | With a non-empty, slash-free games, version and kind, and a table name that does not start with '/', a table file is `competitions/<games>/codes/<version>/<kind>/<name>.<kind>`. |
| Paths.AggregatePathLayout | scripts/codes.rb:77 | With a non-empty, slash-free games and version, all.json is `competitions/<games>/codes/<version>/json/all.json`. |
| Paths.OutputPathInjective | scripts/codes.rb:112 | With a non-empty, slash-free games, version and kind, two table names that do not start with '/' and differ get different files of that kind ("/x" and "x" do collide, in Ruby too). |
| Paths.AllTableIsAggregate | scripts/codes.rb:112 | The JSON file of a table named "all" is all.json itself. |
| Paths.JoinSegments | scripts/codes.rb:112 | `File.join` of non-empty, slash-free parts, followed by a last part that does not start with '/', puts exactly one slash between neighbours (empty parts would collapse). |
| Writing.FilePaths | scripts/codes.rb:84-105 | Each file written gets its path, in writing order. |
| Writing.FilePathsApart | scripts/codes.rb:112 | With a non-empty, slash-free games and version, two table files whose table names do not start with '/' share a path only when they are the same kind of file of the same table. |
| Writing.AllJsonSharesAggregatePath | scripts/codes.rb:77 | The JSON file of a table named "all" is written where all.json is. |
| Writing.Merged | scripts/codes.rb:99-102 | No ensures: the table's records put under its name unless the name holds '/'; characterised by `WriteOutputsAggregate`. |
| Writing.WriteFrom | scripts/codes.rb:80-105 | No ensures: the write loop from the i-th table on, stopping at an empty table; characterised by `WriteOutputsCount`, `WriteOutputsTableFiles`, `WriteOutputsLast` and `WriteOutputsAggregate`, and `Codes.Loader.WriteTables` is proved equal to it. |
| Writing.WriteOutputs | scripts/codes.rb:74-107 | No ensures: the version check, then the loop; characterised by `WriteOutputsBadVersion`, `WriteOutputsCount`, `WriteOutputsTableFiles`, `WriteOutputsLast`, `WriteOutputsNoEmptyTable`, `WriteOutputsAggregate` and `WriteOutputsShifts`, and `Codes.Loader.Write` is proved equal to it. |
| Writing.VersionText | scripts/codes.rb:75 | The version is usable if and only if it is non-empty text. A number is VersionNotText; nil or "" is NoVersion. |
| Writing.WriteOutputsBadVersion | scripts/codes.rb:75 | An unusable version stops `write!` before any file is written, and the tables are left alone. |
| Writing.WriteOutputsCount | scripts/codes.rb:80-105 | With a usable version, two files are written per table up to the first empty table, plus one more file. The run fails if and only if some table is empty, and the error names the first one. |
| Writing.WriteOutputsTableFiles | scripts/codes.rb:80-96 | Table i (before the first empty one) is written as files 2i and 2i+1. They are its CSV (header, then padded rows) and its JSON records, for the rows after the header. |
| Writing.WriteOutputsLast | scripts/codes.rb:85-105 | The last file is all.json when no table is empty; otherwise it is the emptied CSV file of the first empty table. The aggregate document is written at no other position (a table named "all" still has its JSON file at all.json's path, see `AllJsonSharesAggregatePath`). |
| Writing.WriteOutputsNoEmptyTable | scripts/codes.rb:75-105 | A successful `write!` means the version was usable and every table had a header row. |
| Writing.WriteOutputsAggregate | scripts/codes.rb:78-105 | After a successful `write!`: every table without '/' in its name appears in all.json with its records; every other previous key keeps its value; there are no other keys, each listed once. |
| Writing.WriteOutputsShifts | scripts/codes.rb:81 | After a successful `write!`, every table has lost its header row, and the tables and their order are unchanged. |
| Writing.ShiftedValid | scripts/codes.rb:81 | Shifting tables keeps every name listed once. |
| Writing.ShiftedAt | scripts/codes.rb:80-81 | After the loop has passed n tables, those n are shifted and the others untouched. |
| Writing.FirstEmpty | scripts/codes.rb:80-86 | Gives the first table from position i that has no rows. Every table before it has rows. |
| Seqs.LastIndexOf | scripts/codes.rb:94 | Gives the last position of x, or -1 exactly when x is absent. No later position holds x. |
| Codes.Loader.constructor | scripts/codes.rb:11-27 | A new loader holds the file, the chosen games and version, and no table. |
| Codes.Loader.LoadRows | scripts/codes.rb:40-64 | The row loop leaves the table named `name` holding exactly the filtered rows of the sheet, and changes no other table. |
| Codes.Loader.LoadSheet | scripts/codes.rb:34-64 | One pass of the sheets loop is `ParseSheet`: an excluded sheet changes nothing, and any other sheet replaces its table. |
| Codes.Loader.OverrideVersion | scripts/codes.rb:69-70 | The version becomes what ResolveVersion gives; on the error the version is unchanged. |
| Codes.Loader.Parse | scripts/codes.rb:29-72 | `parse!` leaves the tables equal to `ParseSheets` of the workbook and the version equal to `ResolveVersion`, and keeps the store well formed. |
| Codes.Loader.WriteTable | scripts/codes.rb:80-102 | One table's step: it fails if and only if the table is empty, leaving the emptied CSV file. Otherwise it gives the table's two files and the merged all.json, and shifts the table. |
| Codes.Loader.WriteTables | scripts/codes.rb:80-105 | The loop writes exactly the files `WriteFrom` describes and shifts the tables up to the first empty one. |
| Codes.Loader.Write | scripts/codes.rb:74-107 | `write!` produces exactly the files, error and tables of `WriteOutputs`, and the path of each file. |
| Codes.RunOutputs | scripts/codes.rb:118-120 | No ensures: `Arguments`, `ResolveIdentity`, `ParseSheets` with `ResolveVersion`, then `WriteOutputs` with `FilePaths`, the first error stopping the run; `Codes.Run` is proved equal to it. |
| Codes.Run | scripts/codes.rb:118-120 | The script produces the files, paths and error of `RunOutputs`: the argument check, construction, parse and write, each of whose errors stops the run. |

## Left out

- Workbook decoding (`RubyXL::Parser.parse`, line 30): the workbook is an input value of sheets, rows and cells.
- File I/O (lines 78, 85, 96, 105): outputs are values, and each one's path is given by `Writing.FilePath`. This also covers `File.exist?`, reading and writing files, CSV quoting and JSON text. Serialisation to text is not modelled.
- Reading all.json (line 78): the previous document is an input. Its values are opaque (`Prior`), and a previous file that is not a JSON object is not modelled.
- `FileUtils.mkdir_p ... rescue nil` (line 113): it only creates directories and swallows its errors, so it has no modelled effect.
- Logging (`puts`/`print`, lines 26, 38, 61-62, 66, 89, 97, 106) and exception messages and backtraces: each raise becomes one `Error` constructor.
- `ARGV` (line 118): the arguments are a sequence of strings. Ruby's ArgumentError for a wrong count is `WrongArgumentCount`.
- Cell values other than text: numbers, dates and booleans are all the opaque `Num`. Ruby numerics and JSON number formatting are not modelled. (A numeric version is not converted to text by Ruby either: `@version.length` raises, which is the `VersionNotText` error.)
- Filenames.MatchFilename: `$` in the line 14 pattern is Ruby's end-of-line anchor and matches before any newline (so "x/OLY_AB_1.0.xlsx\n/y" matches in Ruby); the model anchors at the very end of the name and does not match file names holding a newline after the pattern.
- Paths.JoinPath: models `File.join` on POSIX only. Parts are not checked for NUL bytes, and Windows separators are not modelled.
- JSON keys: nil and non-string header values are kept as record keys. Their conversion to JSON object keys is not modelled.
- Rows.SportCodesColumn: line 55's `gsub!` changes the cell's String object in place; the model builds a new value for column 1 instead. Sharing of one String object between cells by the workbook library (for example through shared strings) is not modelled, so the '@' strip reaches only the row being read.
- Writing.WriteFrom: writing all.json (line 105) uses a path that `output_path`'s `mkdir_p` never created when there is no table and no earlier run's `json/` directory; the write then fails in Ruby, while the model writes all.json. File-system state is not an input of the model.
- Rows.ToLower: lower-cases ASCII letters only. The fill colours it is applied to are hexadecimal strings.
- Concurrency and partially written files are out of scope. The model stops at the raise with the files written so far.
