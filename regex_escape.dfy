/**
 * Escaping of user text into a regular-expression pattern that matches it literally,
 * as .NET's `Regex.Escape` does: the metacharacters `\ * + ? | { [ ( ) ^ $ . #` and
 * white space (space, tab, line feed, form feed, carriage return) get a backslash in
 * front; tab, line feed, form feed and carriage return are written as the escape
 * codes `\t`, `\n`, `\f`, `\r`.
 */
module RegexEscape {

  const FormFeed: char := '\U{000C}'

  /** The characters `Regex.Escape` rewrites. */
  predicate IsMeta(c: char) {
    || c == '\\' || c == '*' || c == '+' || c == '?' || c == '|' || c == '{' || c == '['
    || c == '(' || c == ')' || c == '^' || c == '$' || c == '.' || c == '#'
    || c == ' ' || c == '\t' || c == '\n' || c == FormFeed || c == '\r'
  }

  /** What follows the backslash when `c` is escaped. */
  function EscapeCode(c: char): char {
    if c == '\t' then 't'
    else if c == '\n' then 'n'
    else if c == FormFeed then 'f'
    else if c == '\r' then 'r'
    else c
  }

  /** The character a regular expression reads for the escape `\c`. */
  function UnescapeCode(c: char): char {
    if c == 't' then '\t'
    else if c == 'n' then '\n'
    else if c == 'f' then FormFeed
    else if c == 'r' then '\r'
    else c
  }

  /** The characters that may legitimately follow a backslash in an escaped pattern. */
  predicate IsEscapeCode(c: char) {
    IsMeta(c) || c == 't' || c == 'n' || c == 'f' || c == 'r'
  }

  function EscapeChar(c: char): (r: string)
    ensures IsMeta(c) ==> r == ['\\', EscapeCode(c)] && IsEscapeCode(EscapeCode(c)) && UnescapeCode(EscapeCode(c)) == c
    ensures !IsMeta(c) ==> r == [c]
  {
    if IsMeta(c) then ['\\', EscapeCode(c)] else [c]
  }

  function Escape(s: string): string
    decreases |s|
  {
    if s == [] then [] else EscapeChar(s[0]) + Escape(s[1..])
  }

  /** Reads a pattern as the literal text it stands for: `\c` is the character `UnescapeCode(c)`. */
  function Unescape(p: string): string
    decreases |p|
  {
    if p == [] then []
    else if p[0] == '\\' && |p| >= 2 then [UnescapeCode(p[1])] + Unescape(p[2..])
    else [p[0]] + Unescape(p[1..])
  }

  /**
   * A pattern with no bare metacharacter: every metacharacter is escaped, and every
   * backslash starts one of the escapes `Escape` writes, so the pattern matches one
   * fixed text.
   */
  predicate IsLiteralPattern(p: string)
    decreases |p|
  {
    if p == [] then true
    else if p[0] == '\\' then |p| >= 2 && IsEscapeCode(p[1]) && IsLiteralPattern(p[2..])
    else !IsMeta(p[0]) && IsLiteralPattern(p[1..])
  }

  /** Escaping can be undone: the pattern matches exactly the text it came from. */
  lemma {:induction false} UnescapeEscape(s: string)
    ensures Unescape(Escape(s)) == s
    decreases |s|
  {
    if s != [] {
      UnescapeEscape(s[1..]);
      var e := EscapeChar(s[0]);
      var rest := Escape(s[1..]);
      if IsMeta(s[0]) {
        assert (e + rest)[2..] == rest;
      } else {
        assert (e + rest)[1..] == rest;
      }
      assert s == [s[0]] + s[1..];
    }
  }

  /** Escaping leaves no bare metacharacter. */
  lemma {:induction false} EscapeIsLiteral(s: string)
    ensures IsLiteralPattern(Escape(s))
    decreases |s|
  {
    if s != [] {
      EscapeIsLiteral(s[1..]);
      var e := EscapeChar(s[0]);
      var rest := Escape(s[1..]);
      if IsMeta(s[0]) {
        assert (e + rest)[2..] == rest;
      } else {
        assert (e + rest)[1..] == rest;
      }
    }
  }

  /** Escaping changes the text exactly when it holds a metacharacter. */
  lemma {:induction false} EscapeUnchanged(s: string)
    ensures Escape(s) == s <==> forall k :: 0 <= k < |s| ==> !IsMeta(s[k])
    decreases |s|
  {
    if s != [] {
      EscapeUnchanged(s[1..]);
      var rest := Escape(s[1..]);
      EscapeLength(s[1..]);
      if IsMeta(s[0]) {
        assert |Escape(s)| == |rest| + 2;
      } else {
        assert Escape(s) == [s[0]] + rest;
        assert s == [s[0]] + s[1..];
        assert (forall k :: 0 <= k < |s| ==> !IsMeta(s[k]))
           <==> (forall k :: 0 <= k < |s[1..]| ==> !IsMeta(s[1..][k]));
      }
    }
  }

  lemma {:induction false} EscapeLength(s: string)
    ensures |Escape(s)| >= |s|
    decreases |s|
  {
    if s != [] {
      EscapeLength(s[1..]);
    }
  }

  /** An escape starts with a backslash or with the character itself. */
  lemma EscapeHead(s: string)
    requires s != []
    ensures Escape(s) != [] && (Escape(s)[0] == '\\' || Escape(s)[0] == s[0])
    ensures Escape(s)[0] == '\\' <==> IsMeta(s[0])
  {
  }
}
