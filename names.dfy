/**
 * Which sheets are read, and the table name each one is stored under:
 * `gsub(' ', '_').sub(/^ODF_/, '').sub(/(GL|OG|PG)_/, '').gsub(/[-_]/, '')`.
 */
module Names {

  /** Sheets skipped by their exact, raw name. */
  const EXCLUDED_SHEETS: seq<string> := ["Cover", "Document Control", "Change Log Detail", "Contents"]

  predicate IsExcluded(sheetName: string) {
    sheetName in EXCLUDED_SHEETS
  }

  /** `gsub(' ', '_')`: every space becomes an underscore. */
  function SpacesToUnderscores(s: string): (r: string)
    ensures |r| == |s|
  {
    if s == [] then [] else [if s[0] == ' ' then '_' else s[0]] + SpacesToUnderscores(s[1..])
  }

  /** s starts with "ODF_". */
  predicate StartsWithOdf(s: string) {
    |s| >= 4 && s[0] == 'O' && s[1] == 'D' && s[2] == 'F' && s[3] == '_'
  }

  /**
   * `sub(/^ODF_/, '')`: removes the first "ODF_" that starts a line (at the
   * start of the string or right after a newline). atLineStart says whether
   * position 0 of s is a line start.
   */
  function DropOdfPrefix(s: string, atLineStart: bool): (r: string)
    ensures |r| == |s| || |r| == |s| - 4
  {
    if atLineStart && StartsWithOdf(s) then s[4..]
    else if s == [] then []
    else [s[0]] + DropOdfPrefix(s[1..], s[0] == '\n')
  }

  /** s starts with "GL_", "OG_" or "PG_". */
  predicate StartsWithGamesCode(s: string) {
    && |s| >= 3
    && s[2] == '_'
    && ((s[0] == 'G' && s[1] == 'L') || (s[0] == 'O' && s[1] == 'G') || (s[0] == 'P' && s[1] == 'G'))
  }

  /** `sub(/(GL|OG|PG)_/, '')`: removes the leftmost "GL_", "OG_" or "PG_", wherever it stands. */
  function DropGamesCode(s: string): (r: string)
    ensures |r| == |s| || |r| == |s| - 3
  {
    if StartsWithGamesCode(s) then s[3..]
    else if s == [] then []
    else [s[0]] + DropGamesCode(s[1..])
  }

  predicate IsSeparator(c: char) {
    c == '-' || c == '_'
  }

  /** `gsub(/[-_]/, '')`: removes every hyphen and underscore. */
  function DropSeparators(s: string): (r: string)
    ensures |r| <= |s|
  {
    if s == [] then []
    else (if IsSeparator(s[0]) then [] else [s[0]]) + DropSeparators(s[1..])
  }

  /** The table name a sheet's rows are stored under. */
  function TableName(sheetName: string): string {
    DropSeparators(DropGamesCode(DropOdfPrefix(SpacesToUnderscores(sheetName), true)))
  }

  // What each step can leave behind.

  lemma {:induction false} UnderscoredChars(s: string, c: char)
    requires c in SpacesToUnderscores(s)
    ensures c != ' ' && (c in s || c == '_')
    decreases |s|
  {
    if s[0] != ' ' && c == s[0] {
    } else if c != '_' {
      UnderscoredChars(s[1..], c);
    }
  }

  lemma {:induction false} DropOdfPrefixChars(s: string, atLineStart: bool, c: char)
    requires c in DropOdfPrefix(s, atLineStart)
    ensures c in s
    decreases |s|
  {
    if !(atLineStart && StartsWithOdf(s)) && c != s[0] {
      DropOdfPrefixChars(s[1..], s[0] == '\n', c);
    }
  }

  lemma {:induction false} DropGamesCodeChars(s: string, c: char)
    requires c in DropGamesCode(s)
    ensures c in s
    decreases |s|
  {
    if !StartsWithGamesCode(s) && c != s[0] {
      DropGamesCodeChars(s[1..], c);
    }
  }

  lemma {:induction false} DropSeparatorsChars(s: string, c: char)
    requires c in DropSeparators(s)
    ensures c in s && !IsSeparator(c)
    decreases |s|
  {
    if IsSeparator(s[0]) || c != s[0] {
      DropSeparatorsChars(s[1..], c);
    }
  }

  // When a step changes nothing.

  lemma {:induction false} UnderscoredWithoutSpaces(s: string)
    requires ' ' !in s
    ensures SpacesToUnderscores(s) == s
    decreases |s|
  {
    if s != [] {
      UnderscoredWithoutSpaces(s[1..]);
    }
  }

  lemma {:induction false} DropOdfPrefixWithoutUnderscore(s: string, atLineStart: bool)
    requires '_' !in s
    ensures DropOdfPrefix(s, atLineStart) == s
    decreases |s|
  {
    if s != [] {
      assert !StartsWithOdf(s) by {
        if |s| >= 4 { assert s[3] in s; }
      }
      DropOdfPrefixWithoutUnderscore(s[1..], s[0] == '\n');
    }
  }

  lemma {:induction false} DropGamesCodeWithoutUnderscore(s: string)
    requires '_' !in s
    ensures DropGamesCode(s) == s
    decreases |s|
  {
    if s != [] {
      assert !StartsWithGamesCode(s) by {
        if |s| >= 3 { assert s[2] in s; }
      }
      DropGamesCodeWithoutUnderscore(s[1..]);
    }
  }

  lemma {:induction false} DropSeparatorsWithoutSeparators(s: string)
    requires '-' !in s && '_' !in s
    ensures DropSeparators(s) == s
    decreases |s|
  {
    if s != [] {
      assert s[0] in s;
      DropSeparatorsWithoutSeparators(s[1..]);
    }
  }

  /** A table name holds no space, underscore or hyphen. */
  lemma {:induction false} TableNameHasNoSeparators(sheetName: string)
    ensures ' ' !in TableName(sheetName)
    ensures '_' !in TableName(sheetName)
    ensures '-' !in TableName(sheetName)
  {
    var u := SpacesToUnderscores(sheetName);
    var o := DropOdfPrefix(u, true);
    var g := DropGamesCode(o);
    if ' ' in TableName(sheetName) {
      DropSeparatorsChars(g, ' ');
      DropGamesCodeChars(o, ' ');
      DropOdfPrefixChars(u, true, ' ');
      UnderscoredChars(sheetName, ' ');
    }
    if '_' in TableName(sheetName) {
      DropSeparatorsChars(g, '_');
    }
    if '-' in TableName(sheetName) {
      DropSeparatorsChars(g, '-');
    }
  }

  /** Normalising a table name again changes nothing. */
  lemma {:induction false} TableNameIdempotent(sheetName: string)
    ensures TableName(TableName(sheetName)) == TableName(sheetName)
  {
    var n := TableName(sheetName);
    TableNameHasNoSeparators(sheetName);
    UnderscoredWithoutSpaces(n);
    DropOdfPrefixWithoutUnderscore(n, true);
    DropGamesCodeWithoutUnderscore(n);
    DropSeparatorsWithoutSeparators(n);
  }

  // Names built from known pieces.

  /** Underscoring two pieces is underscoring each. */
  lemma {:induction false} SpacesToUnderscoresAppend(a: string, b: string)
    ensures SpacesToUnderscores(a + b) == SpacesToUnderscores(a) + SpacesToUnderscores(b)
    decreases |a|
  {
    if a != [] {
      assert (a + b)[1..] == a[1..] + b;
      SpacesToUnderscoresAppend(a[1..], b);
    } else {
      assert a + b == b;
    }
  }

  /** Removing separators from two pieces is removing them from each. */
  lemma {:induction false} DropSeparatorsAppend(a: string, b: string)
    ensures DropSeparators(a + b) == DropSeparators(a) + DropSeparators(b)
    decreases |a|
  {
    if a != [] {
      assert (a + b)[1..] == a[1..] + b;
      DropSeparatorsAppend(a[1..], b);
    } else {
      assert a + b == b;
    }
  }

  lemma {:induction false} UnderscoredAfterClean(x: string, b: string)
    requires ' ' !in x
    ensures SpacesToUnderscores(x + b) == x + SpacesToUnderscores(b)
  {
    SpacesToUnderscoresAppend(x, b);
    UnderscoredWithoutSpaces(x);
  }

  lemma {:induction false} DropSeparatorsAfterClean(a: string, b: string)
    requires '-' !in a && '_' !in a
    ensures DropSeparators(a + b) == a + DropSeparators(b)
  {
    DropSeparatorsAppend(a, b);
    DropSeparatorsWithoutSeparators(a);
  }

  lemma {:induction false} DropOdfPrefixOf(w: string)
    ensures DropOdfPrefix("ODF_" + w, true) == w
  {
    var s := "ODF_" + w;
    assert StartsWithOdf(s) && s[4..] == w;
  }

  /**
   * The removal is unanchored and leftmost: when no code tag starts anywhere
   * in a, the tag t starts right after a is the one removed.
   */
  lemma {:induction false} DropGamesCodeLeftmost(a: string, t: string)
    requires forall p :: 0 <= p < |a| ==> !StartsWithGamesCode((a + t)[p..])
    requires StartsWithGamesCode(t)
    ensures DropGamesCode(a + t) == a + t[3..]
    decreases |a|
  {
    var s := a + t;
    if a == [] {
      assert s == t;
    } else {
      NoTagRest(a, t);
      DropGamesCodeLeftmost(a[1..], t);
      DropGamesCodeCons(s);
      assert [a[0]] + (a[1..] + t[3..]) == a + t[3..];
    }
  }

  /** No code tag at the front of a, nor anywhere else in a, once its first character is gone. */
  lemma {:induction false} NoTagRest(a: string, t: string)
    requires a != []
    requires forall p :: 0 <= p < |a| ==> !StartsWithGamesCode((a + t)[p..])
    ensures a + t != [] && !StartsWithGamesCode(a + t)
    ensures (a + t)[1..] == a[1..] + t
    ensures forall p :: 0 <= p < |a[1..]| ==> !StartsWithGamesCode((a[1..] + t)[p..])
  {
    var s := a + t;
    assert !StartsWithGamesCode(s[0..]);
    assert s[0..] == s;
    assert s[1..] == a[1..] + t;
    forall p | 0 <= p < |a[1..]|
      ensures !StartsWithGamesCode((a[1..] + t)[p..])
    {
      assert (a[1..] + t)[p..] == s[p + 1..];
    }
  }

  /** A string that does not start with a code tag keeps its first character. */
  lemma {:induction false} DropGamesCodeCons(s: string)
    requires s != [] && !StartsWithGamesCode(s)
    ensures DropGamesCode(s) == [s[0]] + DropGamesCode(s[1..])
  {
  }

  /** A string in which no code tag starts anywhere is left unchanged. */
  lemma {:induction false} DropGamesCodeNoTag(s: string)
    requires forall p :: 0 <= p < |s| ==> !StartsWithGamesCode(s[p..])
    ensures DropGamesCode(s) == s
    decreases |s|
  {
    if s != [] {
      assert !StartsWithGamesCode(s[0..]);
      assert s[0..] == s;
      forall p | 0 <= p < |s[1..]|
        ensures !StartsWithGamesCode(s[1..][p..])
      {
        assert s[1..][p..] == s[p + 1..];
      }
      DropGamesCodeNoTag(s[1..]);
    }
  }

  /**
   * In a string whose first underscore ends a competition code, that code is
   * the one removed, even when it is the tail of a longer word.
   */
  lemma {:induction false} DropGamesCodeAfterWord(a: string, t: string)
    requires '_' !in a
    requires StartsWithGamesCode(t)
    ensures DropGamesCode(a + t) == a + t[3..]
  {
    var s := a + t;
    forall p | 0 <= p < |a|
      ensures !StartsWithGamesCode(s[p..])
    {
      if p + 2 < |a| {
        assert s[p..][2] == a[p + 2];
      } else {
        assert s[p..][2] == t[p + 2 - |a|];
      }
    }
    DropGamesCodeLeftmost(a, t);
  }

  /** A word holding no space, hyphen or underscore. */
  predicate PlainWord(w: string) {
    ' ' !in w && '-' !in w && '_' !in w
  }

  /** A competition code followed by an underscore. */
  predicate IsCodeTag(t: string) {
    t == "GL_" || t == "OG_" || t == "PG_"
  }

  lemma {:induction false} InsideWordUnderscored(a: string, tag: string, b: string)
    requires PlainWord(a)
    requires IsCodeTag(tag)
    ensures SpacesToUnderscores("ODF_" + a + tag + b) == "ODF_" + a + tag + SpacesToUnderscores(b)
  {
    assert "ODF_" + a + tag + b == ("ODF_" + a + tag) + b;
    UnderscoredAfterClean("ODF_" + a + tag, b);
  }

  lemma {:induction false} InsideWordPrefixDropped(a: string, tag: string, w: string)
    ensures DropOdfPrefix("ODF_" + a + tag + w, true) == a + tag + w
  {
    assert "ODF_" + a + tag + w == "ODF_" + (a + tag + w);
    DropOdfPrefixOf(a + tag + w);
  }

  lemma {:induction false} InsideWordCodeDropped(a: string, tag: string, w: string)
    requires PlainWord(a)
    requires IsCodeTag(tag)
    ensures DropGamesCode(a + tag + w) == a + w
  {
    assert a + tag + w == a + (tag + w);
    assert StartsWithGamesCode(tag + w) && (tag + w)[3..] == w;
    DropGamesCodeAfterWord(a, tag + w);
  }

  /**
   * The code removal is not anchored: "ODF_BLOG_Entries" (word "BL", tag
   * "OG_") is stored as "BLEntries".
   */
  lemma {:induction false} GamesCodeInsideWord(a: string, tag: string, b: string)
    requires PlainWord(a)
    requires IsCodeTag(tag)
    ensures TableName("ODF_" + a + tag + b) == a + DropSeparators(SpacesToUnderscores(b))
  {
    var w := SpacesToUnderscores(b);
    InsideWordUnderscored(a, tag, b);
    InsideWordPrefixDropped(a, tag, w);
    InsideWordCodeDropped(a, tag, w);
    DropSeparatorsAfterClean(a, w);
  }

  /** The head "ODF", separator, code, separator of a coded sheet name. */
  function CodedHead(sep1: char, code: string, sep2: char): string {
    "ODF" + [sep1] + code + [sep2]
  }

  lemma {:induction false} CodedHeadUnderscored(sep1: char, code: string, sep2: char)
    requires sep1 == ' ' || sep1 == '_'
    requires sep2 == ' ' || sep2 == '_'
    requires IsCode(code)
    ensures SpacesToUnderscores(CodedHead(sep1, code, sep2)) == "ODF_" + code + "_"
  {
    SpacesToUnderscoresAppend("ODF" + [sep1] + code, [sep2]);
    SpacesToUnderscoresAppend("ODF" + [sep1], code);
    SpacesToUnderscoresAppend("ODF", [sep1]);
    UnderscoredWithoutSpaces("ODF");
    UnderscoredWithoutSpaces(code);
    UnderscoredChar(sep1);
    UnderscoredChar(sep2);
  }

  lemma {:induction false} CodedPrefixDropped(code: string, w: string)
    ensures DropOdfPrefix("ODF_" + code + "_" + w, true) == code + "_" + w
  {
    assert "ODF_" + code + "_" + w == "ODF_" + (code + "_" + w);
    DropOdfPrefixOf(code + "_" + w);
  }

  lemma {:induction false} CodedCodeDropped(code: string, w: string)
    requires IsCode(code)
    ensures DropGamesCode(code + "_" + w) == w
  {
    var t := code + "_" + w;
    assert StartsWithGamesCode(t) && t[3..] == w;
  }

  /**
   * A sheet named "ODF", a space or underscore, a competition code, a space or
   * underscore, then words, is stored under the words with every space,
   * hyphen and underscore removed.
   */
  lemma {:induction false} CodedSheetName(sep1: char, code: string, sep2: char, words: string)
    requires sep1 == ' ' || sep1 == '_'
    requires sep2 == ' ' || sep2 == '_'
    requires IsCode(code)
    ensures TableName(CodedHead(sep1, code, sep2) + words) == DropSeparators(SpacesToUnderscores(words))
  {
    var w := SpacesToUnderscores(words);
    SpacesToUnderscoresAppend(CodedHead(sep1, code, sep2), words);
    CodedHeadUnderscored(sep1, code, sep2);
    CodedPrefixDropped(code, w);
    CodedCodeDropped(code, w);
  }

  lemma {:induction false} UnderscoredTwoWords(a: string, sep: char, b: string)
    requires PlainWord(a) && PlainWord(b)
    ensures SpacesToUnderscores(a + [sep] + b) == a + [if sep == ' ' then '_' else sep] + b
  {
    SpacesToUnderscoresAppend(a + [sep], b);
    SpacesToUnderscoresAppend(a, [sep]);
    UnderscoredWithoutSpaces(a);
    UnderscoredWithoutSpaces(b);
    UnderscoredChar(sep);
  }

  lemma {:induction false} DropSeparatorBetween(a: string, sep: char, b: string)
    requires IsSeparator(sep)
    requires PlainWord(a) && PlainWord(b)
    ensures DropSeparators(a + [sep] + b) == a + b
  {
    DropSeparatorsAppend(a, [sep]);
    DropOneSeparator(sep);
    DropSeparatorsWithoutSeparators(a);
    assert DropSeparators(a + [sep]) == a;
    DropSeparatorsAppend(a + [sep], b);
    DropSeparatorsWithoutSeparators(b);
  }

  /** A lone separator is removed. */
  lemma {:induction false} DropOneSeparator(sep: char)
    requires IsSeparator(sep)
    ensures DropSeparators([sep]) == []
  {
    assert [sep][1..] == [];
  }

  /** Two words joined by a space, a hyphen or an underscore become one. */
  lemma {:induction false} TwoWords(a: string, sep: char, b: string)
    requires sep == ' ' || sep == '-' || sep == '_'
    requires PlainWord(a) && PlainWord(b)
    ensures DropSeparators(SpacesToUnderscores(a + [sep] + b)) == a + b
  {
    UnderscoredTwoWords(a, sep, b);
    DropSeparatorBetween(a, if sep == ' ' then '_' else sep, b);
  }

  /**
   * The separators do not matter: "ODF_GL_Sport-Codes", "ODF GL Sport Codes"
   * and "ODF_GL_Sport_Codes" are all stored as "SportCodes".
   */
  lemma {:induction false} CodedTwoWords(sep1: char, code: string, sep2: char, a: string, sep: char, b: string)
    requires sep1 == ' ' || sep1 == '_'
    requires sep2 == ' ' || sep2 == '_'
    requires IsCode(code)
    requires sep == ' ' || sep == '-' || sep == '_'
    requires PlainWord(a) && PlainWord(b)
    ensures TableName(CodedHead(sep1, code, sep2) + a + [sep] + b) == a + b
  {
    var head := CodedHead(sep1, code, sep2);
    assert head + a + [sep] + b == head + (a + [sep] + b);
    CodedSheetName(sep1, code, sep2, a + [sep] + b);
    TwoWords(a, sep, b);
  }

  predicate IsCode(code: string) {
    code == "GL" || code == "OG" || code == "PG"
  }

  /** Underscoring a single character. */
  lemma {:induction false} UnderscoredChar(c: char)
    ensures SpacesToUnderscores([c]) == [if c == ' ' then '_' else c]
  {
  }

  /** "ODF_" followed by a plain word is stored under that word. */
  lemma {:induction false} PrefixedPlainName(w: string)
    requires PlainWord(w)
    ensures TableName("ODF_" + w) == w
  {
    UnderscoredAfterClean("ODF_", w);
    UnderscoredWithoutSpaces(w);
    DropOdfPrefixOf(w);
    DropGamesCodeWithoutUnderscore(w);
    DropSeparatorsWithoutSeparators(w);
  }

  /** No excluded name starts with "ODF_". */
  lemma {:induction false} OdfNameNotExcluded(s: string)
    requires StartsWithOdf(s)
    ensures !IsExcluded(s)
  {
    assert s[0] == 'O';
  }

  /**
   * Exclusion looks at the raw sheet name only: "ODF_Cover" is read and
   * stored under the excluded name "Cover".
   */
  lemma {:induction false} ExcludedNameReachable(w: string)
    requires w in EXCLUDED_SHEETS && PlainWord(w)
    ensures !IsExcluded("ODF_" + w)
    ensures IsExcluded(TableName("ODF_" + w))
  {
    PrefixedPlainName(w);
    OdfNameNotExcluded("ODF_" + w);
  }
}
