/**
 * The JavaScript string operations the client relies on: `String.prototype.trim`,
 * the anchored trailing-slash removal `url.replace(/\/+$/, '')` and `startsWith`.
 * Strings are sequences of Unicode code points.
 */
module Text {

  /** The characters `trim` removes: ECMAScript WhiteSpace and LineTerminator code points. */
  predicate IsWhitespace(c: char) {
    || c == '\t' || c == '\n' || c == '\U{000B}' || c == '\U{000C}' || c == '\r' || c == ' '
    || c == '\U{00A0}' || c == '\U{1680}' || ('\U{2000}' <= c <= '\U{200A}')
    || c == '\U{2028}' || c == '\U{2029}' || c == '\U{202F}' || c == '\U{205F}'
    || c == '\U{3000}' || c == '\U{FEFF}'
  }

  predicate StartsWith(s: string, prefix: string) {
    |prefix| <= |s| && s[..|prefix|] == prefix
  }

  /** Removes leading whitespace: the result is the suffix of `s` after its whitespace run. */
  function TrimStart(s: string): (r: string)
    ensures |r| <= |s| && r == s[|s| - |r|..]
    ensures r == [] || !IsWhitespace(r[0])
    ensures forall i :: 0 <= i < |s| - |r| ==> IsWhitespace(s[i])
  {
    if s != [] && IsWhitespace(s[0]) then TrimStart(s[1..]) else s
  }

  /** Removes trailing whitespace: the result is the prefix of `s` before its whitespace run. */
  function TrimEnd(s: string): (r: string)
    ensures |r| <= |s| && r == s[..|r|]
    ensures r == [] || !IsWhitespace(r[|r| - 1])
    ensures forall i :: |r| <= i < |s| ==> IsWhitespace(s[i])
  {
    if s != [] && IsWhitespace(s[|s| - 1]) then TrimEnd(s[..|s| - 1]) else s
  }

  /** `r` is the slice of `s` at `a`, and everything of `s` around it is whitespace. */
  predicate WhitespaceAround(s: string, a: int, r: string) {
    && 0 <= a && a + |r| <= |s| && r == s[a..a + |r|]
    && (forall i :: 0 <= i < a ==> IsWhitespace(s[i]))
    && (forall i :: a + |r| <= i < |s| ==> IsWhitespace(s[i]))
  }

  /** Trimming the end of the suffix that trimming the start leaves gives a slice with whitespace around it. */
  lemma TrimSlice(s: string, a: nat)
    requires a == |s| - |TrimStart(s)|
    ensures WhitespaceAround(s, a, TrimEnd(TrimStart(s)))
  {
    var t := TrimStart(s);
    assert t == s[a..];
    TrailingWhitespace(s, a, t);
  }

  /** What trimming the end of a suffix of `s` removes is whitespace of `s`. */
  lemma TrailingWhitespace(s: string, a: nat, t: string)
    requires a <= |s| && t == s[a..]
    ensures var r := TrimEnd(t);
            r == s[a..a + |r|] && forall i :: a + |r| <= i < |s| ==> IsWhitespace(s[i])
  {
    var r := TrimEnd(t);
    assert r == t[..|r|];
    forall i | a + |r| <= i < |s| ensures IsWhitespace(s[i]) {
      assert s[i] == t[i - a];
    }
  }

  /**
   * `s.trim()`: the slice of `s` left once its leading and trailing whitespace runs are
   * removed; empty exactly when `s` is all whitespace, otherwise it starts and ends with
   * a non-blank.
   */
  function Trim(s: string): (r: string)
    ensures |r| <= |s|
    ensures exists a :: WhitespaceAround(s, a, r)
    ensures r == [] <==> forall i :: 0 <= i < |s| ==> IsWhitespace(s[i])
    ensures r != [] ==> !IsWhitespace(r[0]) && !IsWhitespace(r[|r| - 1])
  {
    var t := TrimStart(s);
    TrimSlice(s, |s| - |t|);
    var r := TrimEnd(t);
    assert r != [] ==> r[0] == t[0];
    r
  }

  /**
   * `s.replace(/\/+$/, '')`: the longest prefix of `s` that does not end in '/',
   * everything removed being '/'.
   */
  function StripTrailingSlashes(s: string): (r: string)
    ensures |r| <= |s| && r == s[..|r|]
    ensures r == [] || r[|r| - 1] != '/'
    ensures forall i :: |r| <= i < |s| ==> s[i] == '/'
  {
    if s != [] && s[|s| - 1] == '/' then StripTrailingSlashes(s[..|s| - 1]) else s
  }

  /** Stripping twice is stripping once. */
  lemma StripIdempotent(s: string)
    ensures StripTrailingSlashes(StripTrailingSlashes(s)) == StripTrailingSlashes(s)
  {
  }

  /** A string with and without extra trailing slashes strips to the same string. */
  lemma {:induction false} StripIgnoresTrailingSlashes(u: string, n: nat)
    ensures StripTrailingSlashes(u + seq(n, _ => '/')) == StripTrailingSlashes(u)
  {
    if n > 0 {
      var v := u + seq(n, _ => '/');
      assert v[..|v| - 1] == u + seq(n - 1, _ => '/');
      StripIgnoresTrailingSlashes(u, n - 1);
    } else {
      assert u + seq(n, _ => '/') == u;
    }
  }
}
