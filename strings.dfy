/**
 * The JavaScript string operations the core relies on: `indexOf`, `split`
 * with a string separator, `join`, `trim`, `startsWith`, and a string order
 * standing in for the UTF-16 code-unit order that `Array.prototype.sort`
 * uses by default.
 */
module JsStrings {
  import opened Wrappers

  /** The characters `String.prototype.trim` removes (WhiteSpace and LineTerminator). */
  predicate IsWhitespace(c: char) {
    || c == ' ' || c == '\t' || c == '\n' || c == '\r' || c == '\U{B}' || c == '\U{C}'
    || c == '\U{A0}' || c == '\U{1680}' || ('\U{2000}' <= c <= '\U{200A}')
    || c == '\U{2028}' || c == '\U{2029}' || c == '\U{202F}' || c == '\U{205F}'
    || c == '\U{3000}' || c == '\U{FEFF}'
  }

  predicate StartsWith(s: string, prefix: string) {
    |prefix| <= |s| && s[..|prefix|] == prefix
  }

  predicate OccursAt(s: string, sep: string, i: nat) {
    i + |sep| <= |s| && s[i..i + |sep|] == sep
  }

  predicate Contains(s: string, sep: string) {
    exists i: nat | i <= |s| :: OccursAt(s, sep, i)
  }

  /** `s.indexOf(sep, from)`, with `None` standing for -1. */
  function IndexOfFrom(s: string, sep: string, from: nat): (r: Option<nat>)
    requires |sep| > 0 && from <= |s|
    ensures r.Some? ==> from <= r.value && OccursAt(s, sep, r.value)
    ensures r.Some? ==> forall j: nat :: from <= j < r.value ==> !OccursAt(s, sep, j)
    ensures r.None? ==> forall j: nat :: from <= j ==> !OccursAt(s, sep, j)
    decreases |s| - from
  {
    if from + |sep| > |s| then None
    else if s[from..from + |sep|] == sep then Some(from)
    else IndexOfFrom(s, sep, from + 1)
  }

  function IndexOf(s: string, sep: string): (r: Option<nat>)
    requires |sep| > 0
    ensures r.None? <==> !Contains(s, sep)
    ensures r.Some? ==> OccursAt(s, sep, r.value) && forall j: nat :: j < r.value ==> !OccursAt(s, sep, j)
  {
    IndexOfFrom(s, sep, 0)
  }

  /** `parts.join(sep)`; the empty array joins to the empty string. */
  function Join(parts: seq<string>, sep: string): string {
    if |parts| == 0 then ""
    else if |parts| == 1 then parts[0]
    else parts[0] + sep + Join(parts[1..], sep)
  }

  /** A prefix of `s` that ends before index `i` holds no occurrence that `s` lacks before `i`. */
  lemma PrefixHasNoOccurrence(s: string, sep: string, i: nat)
    requires |sep| > 0 && i <= |s|
    requires forall j: nat :: j < i ==> !OccursAt(s, sep, j)
    ensures !Contains(s[..i], sep)
  {
    forall j: nat | OccursAt(s[..i], sep, j)
      ensures false
    {
      assert s[..i][j..j + |sep|] == s[j..j + |sep|];
      assert OccursAt(s, sep, j);
    }
  }

  /** `s.split(sep)` for a non-empty string separator. */
  function Split(s: string, sep: string): (parts: seq<string>)
    requires |sep| > 0
    ensures |parts| >= 1
    ensures Join(parts, sep) == s
    ensures forall k :: 0 <= k < |parts| ==> !Contains(parts[k], sep)
    decreases |s|
  {
    match IndexOf(s, sep)
    case None => [s]
    case Some(i) =>
      PrefixHasNoOccurrence(s, sep, i);
      var rest := Split(s[i + |sep|..], sep);
      assert s == s[..i] + sep + s[i + |sep|..];
      [s[..i]] + rest
  }

  /**
   * `s.split(sep)[0]` is the text before the first occurrence of `sep`, or
   * all of `s` when there is none.
   */
  lemma SplitHead(s: string, sep: string)
    requires |sep| > 0
    ensures var head := Split(s, sep)[0];
      && StartsWith(s, head)
      && !Contains(head, sep)
      && (forall j: nat :: j < |head| ==> !OccursAt(s, sep, j))
      && (Contains(s, sep) ==> OccursAt(s, sep, |head|) && |Split(s, sep)| >= 2)
      && (!Contains(s, sep) ==> head == s)
  {
    match IndexOf(s, sep)
    case None =>
    case Some(i) =>
      assert Split(s, sep)[0] == s[..i];
  }

  /** A one-character separator occurs exactly where that character does. */
  lemma ContainsChar(s: string, c: char)
    ensures Contains(s, [c]) <==> c in s
  {
    if c in s {
      var i :| 0 <= i < |s| && s[i] == c;
      assert OccursAt(s, [c], i);
    }
    forall i: nat | i <= |s| && OccursAt(s, [c], i) ensures c in s {
      assert s[i] == s[i..i + 1][0];
    }
  }

  /** Splitting the join of pieces that do not hold the one-character separator gives the pieces back. */
  lemma {:induction false} SplitJoin(parts: seq<string>, c: char)
    requires |parts| >= 1
    requires forall k :: 0 <= k < |parts| ==> c !in parts[k]
    ensures Split(Join(parts, [c]), [c]) == parts
  {
    var sep := [c];
    if |parts| == 1 {
      ContainsChar(parts[0], c);
    } else {
      var x, rest := parts[0], Join(parts[1..], sep);
      var s := x + sep + rest;
      assert OccursAt(s, sep, |x|) by {
        assert s[|x|..|x| + 1] == sep;
      }
      forall j: nat | j < |x| ensures !OccursAt(s, sep, j) {
        assert s[j] == x[j];
        assert s[j..j + 1] == [s[j]];
      }
      assert IndexOf(s, sep) == Some(|x|);
      assert s[..|x|] == x && s[|x| + 1..] == rest;
      SplitJoin(parts[1..], c);
    }
  }

  /** The text after the longest whitespace prefix (`trimStart`). */
  function TrimStart(s: string): (r: string)
    ensures |r| <= |s| && r == s[|s| - |r|..]
    ensures r != "" ==> !IsWhitespace(r[0])
    ensures forall k :: 0 <= k < |s| - |r| ==> IsWhitespace(s[k])
  {
    if s != "" && IsWhitespace(s[0]) then TrimStart(s[1..]) else s
  }

  /** The text before the longest whitespace suffix (`trimEnd`). */
  function TrimEnd(s: string): (r: string)
    ensures |r| <= |s| && r == s[..|r|]
    ensures r != "" ==> !IsWhitespace(r[|r| - 1])
    ensures forall k :: |r| <= k < |s| ==> IsWhitespace(s[k])
  {
    if s != "" && IsWhitespace(s[|s| - 1]) then TrimEnd(s[..|s| - 1]) else s
  }

  predicate IsTrimmed(s: string) {
    s != "" ==> !IsWhitespace(s[0]) && !IsWhitespace(s[|s| - 1])
  }

  /** `s.trim()`. */
  function Trim(s: string): (r: string)
    ensures IsTrimmed(r) && |r| <= |s|
    ensures forall c :: c in r ==> c in s
    ensures IsTrimmed(s) ==> r == s
    ensures r == "" <==> forall k :: 0 <= k < |s| ==> IsWhitespace(s[k])
  {
    var t := TrimStart(s);
    var r := TrimEnd(t);
    assert r != "" ==> r[0] == t[0];
    assert forall k :: 0 <= k < |t| ==> t[k] == s[|s| - |t| + k];
    r
  }

  /**
   * Lexicographic order of Unicode code points. It agrees with the UTF-16
   * code-unit order of the default `sort()` except where a character above
   * U+FFFF meets one in U+E000..U+FFFF; this model also uses it for
   * `localeCompare`.
   */
  predicate StrLess(a: string, b: string) {
    if a == "" then b != ""
    else if b == "" then false
    else a[0] < b[0] || (a[0] == b[0] && StrLess(a[1..], b[1..]))
  }

  lemma {:induction false} StrLessIrreflexive(a: string)
    ensures !StrLess(a, a)
  {
    if a != "" {
      StrLessIrreflexive(a[1..]);
    }
  }

  lemma {:induction false} StrLessAsymmetric(a: string, b: string)
    ensures !(StrLess(a, b) && StrLess(b, a))
  {
    if a != "" && b != "" && a[0] == b[0] {
      StrLessAsymmetric(a[1..], b[1..]);
    }
  }

  lemma {:induction false} StrLessTotal(a: string, b: string)
    ensures a == b || StrLess(a, b) || StrLess(b, a)
  {
    if a != "" && b != "" && a[0] == b[0] {
      StrLessTotal(a[1..], b[1..]);
      if a[1..] == b[1..] {
        assert a == [a[0]] + a[1..] && b == [b[0]] + b[1..];
      }
    }
  }

  lemma {:induction false} StrLessTransitive(a: string, b: string, c: string)
    requires StrLess(a, b) && StrLess(b, c)
    ensures StrLess(a, c)
  {
    if a != "" && a[0] == b[0] && b[0] == c[0] {
      StrLessTransitive(a[1..], b[1..], c[1..]);
    }
  }
}
