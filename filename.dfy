/**
 * The workbook file name pattern `/(\w+)_(\w{2})_(\d+\.\d+)\.xlsx$` and how the
 * loader's competition and version are chosen from it or from the arguments.
 */
module Filenames {
  import opened Wrappers
  import opened Seqs
  import opened DataModel

  /** `\w`: an ASCII letter, digit or underscore. */
  predicate IsWordChar(c: char) {
    ('a' <= c <= 'z') || ('A' <= c <= 'Z') || ('0' <= c <= '9') || c == '_'
  }

  /** `\d`: an ASCII digit. */
  predicate IsDigit(c: char) {
    '0' <= c <= '9'
  }

  predicate AllWord(s: string) {
    forall i :: 0 <= i < |s| ==> IsWordChar(s[i])
  }

  predicate AllDigits(s: string) {
    forall i :: 0 <= i < |s| ==> IsDigit(s[i])
  }

  /** The pieces of a matching file name; games, code and major.minor are the three groups. */
  datatype FileMatch = FileMatch(dir: string, games: string, code: string, major: string, minor: string)

  /** The pieces have the pattern's character classes. */
  predicate WellFormed(m: FileMatch) {
    && |m.games| > 0 && AllWord(m.games)
    && |m.code| == 2 && AllWord(m.code)
    && |m.major| > 0 && AllDigits(m.major)
    && |m.minor| > 0 && AllDigits(m.minor)
  }

  /** The text matched from the slash to the end. */
  function MatchedText(m: FileMatch): string {
    "/" + m.games + "_" + m.code + "_" + m.major + "." + m.minor + ".xlsx"
  }

  /** file matches the pattern with these groups. */
  predicate IsMatch(file: string, m: FileMatch) {
    WellFormed(m) && file == m.dir + MatchedText(m)
  }

  /** The version group `\d+\.\d+`. */
  function VersionOf(m: FileMatch): string {
    m.major + "." + m.minor
  }

  /** s split around its last c: the text before it and the text after it. */
  function SplitAtLast(s: string, c: char): (r: Option<(string, string)>)
    ensures r.Some? ==> s == r.value.0 + [c] + r.value.1 && c !in r.value.1
    ensures r.None? <==> c !in s
  {
    var i := LastIndexOf(s, c);
    if i < 0 then None
    else
      assert s == s[..i] + [c] + s[i + 1..];
      Some((s[..i], s[i + 1..]))
  }

  lemma {:induction false} SplitAtLastOf(a: string, c: char, b: string)
    requires c !in b
    ensures SplitAtLast(a + [c] + b, c) == Some((a, b))
  {
    var s := a + [c] + b;
    LastIndexOfSplit(a, c, b);
    assert s[..|a|] == a && s[|a| + 1..] == b;
  }

  /** s without the suffix ".xlsx", when it has it. */
  function DropXlsx(s: string): (r: Option<string>)
    ensures r.Some? ==> s == r.value + ".xlsx"
  {
    if |s| >= 5 && s[|s| - 5..] == ".xlsx" then
      assert s == s[..|s| - 5] + s[|s| - 5..];
      Some(s[..|s| - 5])
    else None
  }

  lemma {:induction false} DropXlsxOf(s: string)
    ensures DropXlsx(s + ".xlsx") == Some(s)
  {
    var t := s + ".xlsx";
    assert t[|t| - 5..] == ".xlsx" && t[..|t| - 5] == s;
  }

  /** "games_code" split into games and the two-character code. */
  function SplitCode(s: string): (r: Option<(string, string)>)
    ensures r.Some? ==> s == r.value.0 + "_" + r.value.1 && |r.value.1| == 2
  {
    if |s| >= 3 && s[|s| - 3] == '_' then
      assert s == s[..|s| - 3] + "_" + s[|s| - 2..];
      Some((s[..|s| - 3], s[|s| - 2..]))
    else None
  }

  lemma {:induction false} SplitCodeOf(games: string, code: string)
    requires |code| == 2
    ensures SplitCode(games + "_" + code) == Some((games, code))
  {
    var s := games + "_" + code;
    assert s[|s| - 3] == '_' && s[..|s| - 3] == games && s[|s| - 2..] == code;
  }

  /** The pieces found from the right put back together give the file name. */
  lemma {:induction false} Reassemble(file: string, base: string, stem: string, head: string, front: string, m: FileMatch)
    requires file == m.dir + ['/'] + base
    requires base == stem + ".xlsx"
    requires stem == head + ['.'] + m.minor
    requires head == front + ['_'] + m.major
    requires front == m.games + "_" + m.code
    ensures file == m.dir + MatchedText(m)
  {
  }

  /**
   * Matches the pattern by taking the file name apart from the right: the last
   * slash, the ".xlsx" suffix, the last dot, the last underscore, and the
   * underscore three places before the end of what is left.
   */
  function MatchFilename(file: string): (r: Option<FileMatch>)
    ensures r.Some? ==> IsMatch(file, r.value)
  {
    match SplitAtLast(file, '/')
    case None => None
    case Some((dir, base)) =>
      match DropXlsx(base)
      case None => None
      case Some(stem) =>
        match SplitAtLast(stem, '.')
        case None => None
        case Some((head, minor)) =>
          match SplitAtLast(head, '_')
          case None => None
          case Some((front, major)) =>
            match SplitCode(front)
            case None => None
            case Some((games, code)) =>
              var m := FileMatch(dir, games, code, major, minor);
              Reassemble(file, base, stem, head, front, m);
              if WellFormed(m) then Some(m) else None
  }

  /** A character outside a class does not occur in a string of that class. */
  lemma {:induction false} NotWord(s: string, c: char)
    requires AllWord(s) && !IsWordChar(c)
    ensures c !in s
  {
  }

  lemma {:induction false} NotDigits(s: string, c: char)
    requires AllDigits(s) && !IsDigit(c)
    ensures c !in s
  {
  }

  /** The slash the match starts at is the last slash of the file name. */
  lemma {:induction false} SlashOfMatch(file: string, m: FileMatch)
    requires IsMatch(file, m)
    ensures SplitAtLast(file, '/') == Some((m.dir, m.games + "_" + m.code + "_" + m.major + "." + m.minor + ".xlsx"))
  {
    var base := m.games + "_" + m.code + "_" + m.major + "." + m.minor + ".xlsx";
    NotWord(m.games, '/');
    NotWord(m.code, '/');
    NotDigits(m.major, '/');
    NotDigits(m.minor, '/');
    assert '/' !in base;
    assert file == m.dir + ['/'] + base;
    SplitAtLastOf(m.dir, '/', base);
  }

  lemma {:induction false} DotOfMatch(m: FileMatch)
    requires WellFormed(m)
    ensures SplitAtLast(m.games + "_" + m.code + "_" + m.major + "." + m.minor, '.')
         == Some((m.games + "_" + m.code + "_" + m.major, m.minor))
  {
    NotDigits(m.minor, '.');
    var head := m.games + "_" + m.code + "_" + m.major;
    assert head + "." + m.minor == head + ['.'] + m.minor;
    SplitAtLastOf(head, '.', m.minor);
  }

  lemma {:induction false} UnderscoreOfMatch(m: FileMatch)
    requires WellFormed(m)
    ensures SplitAtLast(m.games + "_" + m.code + "_" + m.major, '_') == Some((m.games + "_" + m.code, m.major))
  {
    NotDigits(m.major, '_');
    var front := m.games + "_" + m.code;
    assert front + "_" + m.major == front + ['_'] + m.major;
    SplitAtLastOf(front, '_', m.major);
  }

  /** The match is unique and MatchFilename finds it. */
  lemma {:induction false} MatchFilenameComplete(file: string, m: FileMatch)
    requires IsMatch(file, m)
    ensures MatchFilename(file) == Some(m)
  {
    var front := m.games + "_" + m.code;
    var head := front + "_" + m.major;
    var stem := head + "." + m.minor;
    SlashOfMatch(file, m);
    assert stem + ".xlsx" == m.games + "_" + m.code + "_" + m.major + "." + m.minor + ".xlsx";
    DropXlsxOf(stem);
    DotOfMatch(m);
    UnderscoreOfMatch(m);
    SplitCodeOf(m.games, m.code);
  }

  /** MatchFilename succeeds exactly on the names the pattern matches. */
  lemma {:induction false} MatchFilenameExact(file: string)
    ensures MatchFilename(file).Some? <==> exists m :: IsMatch(file, m)
  {
    if m :| IsMatch(file, m) {
      MatchFilenameComplete(file, m);
    }
  }

  /** The competition and version a loader starts with. */
  datatype Identity = Identity(games: string, version: string)

  /**
   * A matching file name decides the competition and the version, and the
   * arguments are ignored; otherwise both arguments must be given.
   */
  function ResolveIdentity(file: string, games: Option<string>, version: Option<string>): (r: Result<Identity, Error>)
    ensures forall m :: IsMatch(file, m) ==> r == Ok(Identity(m.games, VersionOf(m)))
    ensures (forall m :: !IsMatch(file, m)) ==>
              r == (if games.None? || version.None? then Err(MissingGamesOrVersion)
                    else Ok(Identity(games.value, version.value)))
    ensures r.Err? ==> r.error == MissingGamesOrVersion
  {
    match MatchFilename(file)
    case Some(m) =>
      assert forall m' :: IsMatch(file, m') ==> m' == m by {
        forall m' | IsMatch(file, m') {
          MatchFilenameComplete(file, m');
        }
      }
      Ok(Identity(m.games, VersionOf(m)))
    case None =>
      MatchFilenameExact(file);
      if games.None? || version.None? then Err(MissingGamesOrVersion)
      else Ok(Identity(games.value, version.value))
  }
}
