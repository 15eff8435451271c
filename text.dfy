/**
 * The string operations the pipeline relies on: .NET's `char.IsWhiteSpace`,
 * `string.IsNullOrWhiteSpace`, `Trim`, ASCII case folding (`ToLowerInvariant` and
 * `OrdinalIgnoreCase` restricted to ASCII letters), case-insensitive substring search,
 * and binary (code-point) string order.
 */
module Text {
  import opened Wrappers
  import opened Sorting

  /** `char.IsWhiteSpace`: the Unicode space separators, line/paragraph separators and the C0/C1 blanks. */
  predicate IsWhiteSpace(c: char) {
    var n := c as int;
    || 9 <= n <= 13 || n == 0x20 || n == 0x85 || n == 0xA0 || n == 0x1680
    || 0x2000 <= n <= 0x200A || n == 0x2028 || n == 0x2029 || n == 0x202F
    || n == 0x205F || n == 0x3000
  }

  predicate IsBlank(s: string) {
    forall k :: 0 <= k < |s| ==> IsWhiteSpace(s[k])
  }

  /** `string.IsNullOrWhiteSpace`. */
  predicate IsNullOrWhiteSpace(s: Option<string>) {
    s.None? || IsBlank(s.value)
  }

  /** The index of the first non-white-space character of `s` at or after `i` (or `|s|`). */
  function SkipBlanks(s: string, i: nat): (j: nat)
    requires i <= |s|
    ensures i <= j <= |s|
    ensures forall k :: i <= k < j ==> IsWhiteSpace(s[k])
    ensures j < |s| ==> !IsWhiteSpace(s[j])
    decreases |s| - i
  {
    if i < |s| && IsWhiteSpace(s[i]) then SkipBlanks(s, i + 1) else i
  }

  /** Moves `j` left over white space, but not past `lo`. */
  function SkipBlanksBack(s: string, lo: nat, j: nat): (i: nat)
    requires lo <= j <= |s|
    ensures lo <= i <= j
    ensures forall k :: i <= k < j ==> IsWhiteSpace(s[k])
    ensures lo < i ==> !IsWhiteSpace(s[i - 1])
    decreases j
  {
    if lo < j && IsWhiteSpace(s[j - 1]) then SkipBlanksBack(s, lo, j - 1) else j
  }

  /** Where the trimmed text starts in `s`. */
  function TrimFrom(s: string): nat
    ensures TrimFrom(s) <= |s|
  {
    SkipBlanks(s, 0)
  }

  /** Where the trimmed text ends in `s`. */
  function TrimTo(s: string): nat
    ensures TrimFrom(s) <= TrimTo(s) <= |s|
  {
    SkipBlanksBack(s, TrimFrom(s), |s|)
  }

  /**
   * `string.Trim`: the slice of `s` left after removing white space from both ends.
   * Only white space is removed, the result neither starts nor ends with white
   * space, and it is empty exactly for blank input.
   */
  function Trim(s: string): (r: string)
    ensures r == s[TrimFrom(s)..TrimTo(s)]
    ensures forall k :: 0 <= k < |s| && !(TrimFrom(s) <= k < TrimTo(s)) ==> IsWhiteSpace(s[k])
    ensures r != [] ==> !IsWhiteSpace(r[0]) && !IsWhiteSpace(r[|r| - 1])
    ensures r == [] <==> IsBlank(s)
  {
    var i, j := TrimFrom(s), TrimTo(s);
    assert i < j ==> s[i..j][0] == s[i] && s[i..j][j - i - 1] == s[j - 1];
    s[i..j]
  }

  /** A trimmed string is its own trim. */
  lemma TrimTrimmed(s: string)
    requires s == [] || (!IsWhiteSpace(s[0]) && !IsWhiteSpace(s[|s| - 1]))
    ensures Trim(s) == s
  {
  }

  /** Invariant culture lower case, restricted to ASCII letters. */
  function LowerChar(c: char): char {
    if 'A' <= c <= 'Z' then (c as int + 32) as char else c
  }

  function Lower(s: string): string {
    seq(|s|, k requires 0 <= k < |s| => LowerChar(s[k]))
  }

  /** `needle` occurs in `hay` at position `i`, ignoring case. */
  predicate MatchAt(hay: string, needle: string, i: int) {
    0 <= i && i + |needle| <= |hay| && Lower(hay[i..i + |needle|]) == Lower(needle)
  }

  /** Ordinal case-insensitive `Contains`, searching from the left. */
  function ContainsIgnoreCase(hay: string, needle: string): (r: bool)
    ensures r <==> exists i :: MatchAt(hay, needle, i)
    decreases |hay|
  {
    if MatchAt(hay, needle, 0) then true
    else if |hay| <= |needle| then false
    else
      var r := ContainsIgnoreCase(hay[1..], needle);
      assert r ==> exists i :: MatchAt(hay, needle, i) by {
        if r {
          var i :| MatchAt(hay[1..], needle, i);
          assert hay[1..][i..i + |needle|] == hay[i + 1..i + 1 + |needle|];
          assert MatchAt(hay, needle, i + 1);
        }
      }
      assert (exists i :: MatchAt(hay, needle, i)) ==> r by {
        if exists i :: MatchAt(hay, needle, i) {
          var i :| MatchAt(hay, needle, i);
          assert i != 0;
          assert hay[1..][i - 1..i - 1 + |needle|] == hay[i..i + |needle|];
          assert MatchAt(hay[1..], needle, i - 1);
        }
      }
      r
  }

  /** JavaScript `String.prototype.startsWith`. */
  predicate StartsWith(s: string, prefix: string) {
    |prefix| <= |s| && s[..|prefix|] == prefix
  }

  /**
   * Binary string order: lexicographic on code points, a proper prefix first. This is
   * the order of Mongo's default (binary) collation on UTF-8 strings. .NET's `Ordinal`
   * comparison orders UTF-16 code units instead, which differs from this order only for
   * characters outside the Basic Multilingual Plane.
   */
  predicate CodePointLe(a: string, b: string)
    decreases |a|
  {
    a == [] || (b != [] && (a[0] < b[0] || (a[0] == b[0] && CodePointLe(a[1..], b[1..]))))
  }

  lemma {:induction false} CodePointTotal(a: string, b: string)
    ensures CodePointLe(a, b) || CodePointLe(b, a)
    decreases |a|
  {
    if a != [] && b != [] && a[0] == b[0] {
      CodePointTotal(a[1..], b[1..]);
    }
  }

  lemma {:induction false} CodePointTransitive(a: string, b: string, c: string)
    requires CodePointLe(a, b) && CodePointLe(b, c)
    ensures CodePointLe(a, c)
    decreases |a|
  {
    if a != [] && a[0] == b[0] && b[0] == c[0] {
      CodePointTransitive(a[1..], b[1..], c[1..]);
    }
  }

  lemma {:induction false} CodePointAntisymmetric(a: string, b: string)
    requires CodePointLe(a, b) && CodePointLe(b, a)
    ensures a == b
    decreases |a|
  {
    if a != [] {
      CodePointAntisymmetric(a[1..], b[1..]);
      assert a == [a[0]] + a[1..] && b == [b[0]] + b[1..];
    }
  }

  /**
   * Code-point order is a total order, in particular a total preorder usable for
   * sorting: it is one admissible string order for name and address sorts.
   */
  lemma CodePointIsTotalOrder()
    ensures TotalPreorder(CodePointLe)
    ensures forall a, b :: CodePointLe(a, b) && CodePointLe(b, a) ==> a == b
  {
    forall a, b ensures CodePointLe(a, b) || CodePointLe(b, a) {
      CodePointTotal(a, b);
    }
    forall a, b, c | CodePointLe(a, b) && CodePointLe(b, c) ensures CodePointLe(a, c) {
      CodePointTransitive(a, b, c);
    }
    forall a, b | CodePointLe(a, b) && CodePointLe(b, a) ensures a == b {
      CodePointAntisymmetric(a, b);
    }
  }
}
