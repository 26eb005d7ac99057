/**
 * The byte-string helpers of Go's `strings` package that the core uses with a
 * one-byte separator: `Index`, `LastIndexByte`, `Split`, `Join` and `Cut`.
 */
module GoStrings {
  import opened GoTypes

  /** Position of the first `sep` in `s`, or `|s|` when `s` holds none. */
  function IndexOrEnd(s: GoString, sep: Byte): (i: nat)
    ensures i <= |s|
    ensures sep !in s[..i]
    ensures i < |s| ==> s[i] == sep
    decreases |s|
  {
    if |s| == 0 then 0
    else if s[0] == sep then 0
    else
      var j := IndexOrEnd(s[1..], sep);
      assert s[..1 + j] == [s[0]] + s[1..][..j];
      1 + j
  }

  /** The first `sep` in `a + [sep] + b` is the one right after `a` when `a` holds none. */
  lemma IndexAfterPrefix(a: GoString, sep: Byte, b: GoString)
    requires sep !in a
    ensures IndexOrEnd(a + [sep] + b, sep) == |a|
  {
    var s := a + [sep] + b;
    assert s[|a|] == sep;
    assert s[..|a|] == a;
  }

  /** A string that holds no `sep` is its own first field. */
  lemma IndexAbsent(s: GoString, sep: Byte)
    requires sep !in s
    ensures IndexOrEnd(s, sep) == |s|
  {
  }

  /** Position of the last `sep` in `s`, if any (`strings.LastIndexByte`). */
  function LastIndex(s: GoString, sep: Byte): (r: Option<nat>)
    ensures r.None? ==> sep !in s
    ensures r.Some? ==> r.value < |s| && s[r.value] == sep && sep !in s[r.value + 1..]
    decreases |s|
  {
    if |s| == 0 then None
    else if s[|s| - 1] == sep then Some(|s| - 1)
    else
      var r := LastIndex(s[..|s| - 1], sep);
      assert s[..|s| - 1] + [s[|s| - 1]] == s;
      if r.Some? then
        assert s[r.value + 1..] == s[..|s| - 1][r.value + 1..] + [s[|s| - 1]];
        r
      else r
  }

  /** The last `sep` in `a + [sep] + b` is the one right after `a` when `b` holds none. */
  lemma {:induction false} LastIndexBeforeSuffix(a: GoString, sep: Byte, b: GoString)
    requires sep !in b
    ensures LastIndex(a + [sep] + b, sep) == Some(|a|)
    decreases |b|
  {
    var s := a + [sep] + b;
    if |b| > 0 {
      var b' := b[..|b| - 1];
      assert s[|s| - 1] == b[|b| - 1] && b[|b| - 1] in b;
      assert s[..|s| - 1] == a + [sep] + b';
      assert sep !in b' by {
        forall i | 0 <= i < |b'| ensures b'[i] != sep {
          assert b'[i] == b[i] && b[i] in b;
        }
      }
      LastIndexBeforeSuffix(a, sep, b');
    } else {
      assert s[|s| - 1] == sep;
    }
  }

  /** `strings.Join(parts, sep)`. */
  function Join(parts: seq<GoString>, sep: Byte): GoString
    decreases |parts|
  {
    if |parts| == 0 then []
    else if |parts| == 1 then parts[0]
    else parts[0] + [sep] + Join(parts[1..], sep)
  }

  /**
   * `strings.Split(s, sep)` for a one-byte separator: the fields between the
   * separators, so that joining them again gives `s` back.
   */
  function Split(s: GoString, sep: Byte): (parts: seq<GoString>)
    ensures |parts| >= 1
    ensures parts[0] == s[..IndexOrEnd(s, sep)]
    ensures forall k :: 0 <= k < |parts| ==> sep !in parts[k]
    ensures Join(parts, sep) == s
    decreases |s|
  {
    var i := IndexOrEnd(s, sep);
    if i == |s| then [s]
    else
      var rest := Split(s[i + 1..], sep);
      assert s == s[..i] + [sep] + s[i + 1..];
      [s[..i]] + rest
  }

  /** Splitting a join of separator-free fields gives the fields back. */
  lemma {:induction false} SplitJoin(parts: seq<GoString>, sep: Byte)
    requires |parts| >= 1
    requires forall k :: 0 <= k < |parts| ==> sep !in parts[k]
    ensures Split(Join(parts, sep), sep) == parts
    decreases |parts|
  {
    if |parts| == 1 {
      IndexAbsent(parts[0], sep);
    } else {
      var s := Join(parts, sep);
      assert s == parts[0] + [sep] + Join(parts[1..], sep);
      IndexAfterPrefix(parts[0], sep, Join(parts[1..], sep));
      assert s[..|parts[0]|] == parts[0];
      assert s[|parts[0]| + 1..] == Join(parts[1..], sep);
      SplitJoin(parts[1..], sep);
    }
  }

  /**
   * `strings.Cut(s, sep)`: the text before the first `sep`, the text after it,
   * and whether there was one.
   */
  function Cut(s: GoString, sep: Byte): (r: (GoString, GoString, bool))
    ensures r.2 <==> sep in s
    ensures sep !in r.0
    ensures r.2 ==> s == r.0 + [sep] + r.1
    ensures !r.2 ==> r.0 == s && r.1 == []
  {
    var i := IndexOrEnd(s, sep);
    if i == |s| then (s, [], false)
    else
      assert s == s[..i] + [sep] + s[i + 1..];
      (s[..i], s[i + 1..], true)
  }

  /** Cutting `a + [sep] + b` at its first `sep` gives `a` and `b` when `a` holds none. */
  lemma CutAfterPrefix(a: GoString, sep: Byte, b: GoString)
    requires sep !in a
    ensures Cut(a + [sep] + b, sep) == (a, b, true)
  {
    IndexAfterPrefix(a, sep, b);
    var s := a + [sep] + b;
    assert s[..|a|] == a;
    assert s[|a| + 1..] == b;
  }
}
