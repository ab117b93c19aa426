/** Small sequence utilities shared by the filename matcher and the record builder. */
module Seqs {
  import opened Wrappers

  /** The index of the last occurrence of x in s, or -1 when x does not occur. */
  function LastIndexOf<T(==)>(s: seq<T>, x: T): (r: int)
    ensures -1 <= r < |s|
    ensures r >= 0 ==> s[r] == x
    ensures r == -1 <==> x !in s
    ensures forall j :: r < j < |s| ==> s[j] != x
    decreases |s|
  {
    if |s| == 0 then -1
    else if s[|s| - 1] == x then |s| - 1
    else LastIndexOf(s[..|s| - 1], x)
  }

  /** An occurrence of x followed only by elements other than x is the last one. */
  lemma {:induction false} LastIndexOfSplit<T>(a: seq<T>, x: T, b: seq<T>)
    requires x !in b
    ensures LastIndexOf(a + [x] + b, x) == |a|
    decreases |b|
  {
    var s := a + [x] + b;
    if |b| > 0 {
      assert s[|s| - 1] == b[|b| - 1];
      assert s[..|s| - 1] == a + [x] + b[..|b| - 1];
      LastIndexOfSplit(a, x, b[..|b| - 1]);
    } else {
      assert s == a + [x];
    }
  }

  /** A non-empty sequence is its front followed by its last element. */
  lemma {:induction false} InitLast<T>(s: seq<T>)
    requires s != []
    ensures s == s[..|s| - 1] + [s[|s| - 1]]
  {
  }

  /** The prefix of a sequence up to its length is the whole sequence. */
  lemma {:induction false} WholePrefix<T>(s: seq<T>)
    ensures s[..|s|] == s
  {
  }

  /** Appending to a non-empty sequence keeps its last element last. */
  lemma {:induction false} LastOfAppend<T>(a: seq<T>, b: seq<T>)
    requires b != []
    ensures (a + b)[|a + b| - 1] == b[|b| - 1]
  {
  }

  /** Concatenation is associative. */
  lemma {:induction false} AppendAssoc<T>(a: seq<T>, b: seq<T>, c: seq<T>)
    ensures a + b + c == a + (b + c)
  {
  }

  /** Ruby's `a[j]` for j >= 0: the element at j, or nil past the end. */
  function At<T>(s: seq<Option<T>>, j: nat): (r: Option<T>)
    ensures j < |s| ==> r == s[j]
    ensures j >= |s| ==> r == None
  {
    if j < |s| then s[j] else None
  }
}
