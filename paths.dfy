/**
 * Ruby's `File.join` on a POSIX system and the output paths built with it.
 */
module Paths {

  /** Where the trailing run of slashes of s starts; |s| when s does not end with a slash. */
  function TrailingSlashes(s: string): (r: nat)
    ensures r <= |s|
    ensures forall j :: r <= j < |s| ==> s[j] == '/'
    ensures r == 0 || s[r - 1] != '/'
    decreases |s|
  {
    if s == [] || s[|s| - 1] != '/' then |s| else TrailingSlashes(s[..|s| - 1])
  }

  /**
   * Appending one more part: a part starting with a slash replaces the
   * trailing slashes of what came before; otherwise one slash is put between
   * them, unless what came before already ends with one.
   */
  function JoinTwo(acc: string, part: string): string {
    var tail := TrailingSlashes(acc);
    if |part| > 0 && part[0] == '/' then acc[..tail] + part
    else if tail < |acc| then acc + part
    else acc + "/" + part
  }

  /** `File.join(parts...)` */
  function JoinPath(parts: seq<string>): string
    decreases |parts|
  {
    if parts == [] then ""
    else if |parts| == 1 then parts[0]
    else JoinTwo(JoinPath(parts[..|parts| - 1]), parts[|parts| - 1])
  }

  /** A path component with no slash in it. */
  predicate Segment(s: string) {
    |s| > 0 && '/' !in s
  }

  /** Slashes at the joints are never doubled and never lost. */
  lemma {:induction false} JoinTwoSlashes(a: string, n: nat, b: string)
    requires a == [] || a[|a| - 1] != '/'
    requires b == [] || b[0] != '/'
    ensures JoinTwo(a, b) == a + "/" + b
    ensures n > 0 ==> JoinTwo(a + seq(n, _ => '/'), b) == a + seq(n, _ => '/') + b
    ensures n > 0 ==> JoinTwo(a + seq(n, _ => '/'), "/" + b) == a + "/" + b
  {
    if n > 0 {
      var s := a + seq(n, _ => '/');
      TrailingOf(a, n);
      assert s[..|a|] == a;
      assert ("/" + b)[0] == '/';
    }
  }

  lemma {:induction false} TrailingOf(a: string, n: nat)
    requires a == [] || a[|a| - 1] != '/'
    ensures TrailingSlashes(a + seq(n, _ => '/')) == |a|
    decreases n
  {
    var s := a + seq(n, _ => '/');
    if n == 0 {
      assert s == a;
    } else {
      assert s[..|s| - 1] == a + seq(n - 1, _ => '/');
      TrailingOf(a, n - 1);
    }
  }

  /** Joining plain segments puts exactly one slash between neighbours. */
  lemma {:induction false} JoinSegments(parts: seq<string>, p: string)
    requires |parts| > 0
    requires forall i :: 0 <= i < |parts| ==> Segment(parts[i])
    requires p == [] || p[0] != '/'
    ensures JoinPath(parts + [p]) == JoinPath(parts) + "/" + p
  {
    var all := parts + [p];
    assert all[..|all| - 1] == parts;
    JoinEndsInSegment(parts);
    JoinTwoSlashes(JoinPath(parts), 0, p);
  }

  lemma {:induction false} JoinEndsInSegment(parts: seq<string>)
    requires |parts| > 0
    requires forall i :: 0 <= i < |parts| ==> Segment(parts[i])
    ensures |JoinPath(parts)| > 0 && JoinPath(parts)[|JoinPath(parts)| - 1] != '/'
    decreases |parts|
  {
    var last := parts[|parts| - 1];
    assert last[|last| - 1] in last;
    if |parts| > 1 {
      var init := parts[..|parts| - 1];
      JoinEndsInSegment(init);
      assert last[0] in last;
      JoinTwoSlashes(JoinPath(init), 0, last);
    }
  }

  /** `File.join('competitions', games, 'codes', version, kind, "#{name}.#{kind}")` */
  function OutputPath(games: string, version: string, name: string, kind: string): string {
    JoinPath(["competitions", games, "codes", version, kind, name + "." + kind])
  }

  /** `File.join('competitions', games, 'codes', version, 'json', 'all.json')` */
  function AggregatePath(games: string, version: string): string {
    JoinPath(["competitions", games, "codes", version, "json", "all.json"])
  }

  lemma {:induction false} FixedSegments()
    ensures Segment("competitions") && Segment("codes") && Segment("csv") && Segment("json")
  {
  }

  /** The directory the files of one version are written to. */
  function VersionDirectory(games: string, version: string): string {
    "competitions/" + games + "/codes/" + version
  }

  lemma {:induction false} VersionDirectoryJoined(games: string, version: string)
    requires Segment(games) && Segment(version)
    ensures JoinPath(["competitions", games, "codes", version]) == VersionDirectory(games, version)
  {
    FixedSegments();
    JoinSegments(["competitions"], games);
    assert ["competitions"] + [games] == ["competitions", games];
    JoinSegments(["competitions", games], "codes");
    assert ["competitions", games] + ["codes"] == ["competitions", games, "codes"];
    JoinSegments(["competitions", games, "codes"], version);
    assert ["competitions", games, "codes"] + [version] == ["competitions", games, "codes", version];
  }

  /**
   * With a plain competition, version and kind, a table's file is
   * `<version directory>/<kind>/<name>.<kind>`; a name holding slashes goes
   * into subdirectories below the kind directory.
   */
  lemma {:induction false} OutputPathLayout(games: string, version: string, name: string, kind: string)
    requires Segment(games) && Segment(version) && Segment(kind)
    requires name == [] || name[0] != '/'
    ensures OutputPath(games, version, name, kind)
         == VersionDirectory(games, version) + "/" + kind + "/" + name + "." + kind
  {
    var four := ["competitions", games, "codes", version];
    VersionDirectoryJoined(games, version);
    FixedSegments();
    assert forall i :: 0 <= i < 4 ==> Segment(four[i]);
    JoinSegments(four, kind);
    assert four + [kind] == ["competitions", games, "codes", version, kind];
    var file := name + "." + kind;
    assert file == [] || file[0] != '/';
    JoinSegments(four + [kind], file);
    assert four + [kind] + [file] == ["competitions", games, "codes", version, kind, file];
  }

  /** The same holds of all.json. */
  lemma {:induction false} AggregatePathLayout(games: string, version: string)
    requires Segment(games) && Segment(version)
    ensures AggregatePath(games, version) == VersionDirectory(games, version) + "/json/all.json"
  {
    OutputPathLayout(games, version, "all", "json");
    assert "all" + "." + "json" == "all.json";
  }

  /** Different tables of one kind get different files. */
  lemma {:induction false} OutputPathInjective(games: string, version: string, a: string, b: string, kind: string)
    requires Segment(games) && Segment(version) && Segment(kind)
    requires a == [] || a[0] != '/'
    requires b == [] || b[0] != '/'
    requires OutputPath(games, version, a, kind) == OutputPath(games, version, b, kind)
    ensures a == b
  {
    OutputPathLayout(games, version, a, kind);
    OutputPathLayout(games, version, b, kind);
    var pre := VersionDirectory(games, version) + "/" + kind + "/";
    var sa := pre + a + "." + kind;
    assert sa[|pre|..|sa| - |kind| - 1] == a;
    var sb := pre + b + "." + kind;
    assert sb[|pre|..|sb| - |kind| - 1] == b;
  }

  /** The JSON file of a table named "all" is all.json itself. */
  lemma {:induction false} AllTableIsAggregate(games: string, version: string)
    ensures OutputPath(games, version, "all", "json") == AggregatePath(games, version)
  {
    assert "all" + "." + "json" == "all.json";
  }
}
