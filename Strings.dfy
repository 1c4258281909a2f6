/** The three string operations of Rust's standard library the parser relies
    on: `str::trim().is_empty()`, `str::contains` and `[String]::join`. */
module Strings {

  /** Rust's `char::is_whitespace`: the characters with the Unicode
      White_Space property. */
  predicate IsWhitespace(c: char) {
    var n := c as int;
    (0x9 <= n <= 0xD) || n == 0x20 || n == 0x85 || n == 0xA0 || n == 0x1680 ||
    (0x2000 <= n <= 0x200A) || n == 0x2028 || n == 0x2029 || n == 0x202F ||
    n == 0x205F || n == 0x3000
  }

  /** `line.trim().is_empty()`: trimming removes every character exactly when
      every character is whitespace. */
  predicate Blank(s: string) {
    forall i :: 0 <= i < |s| ==> IsWhitespace(s[i])
  }

  /** `s.contains(pattern)`: `pattern` occurs in `s` at some offset. */
  predicate Contains(s: string, pattern: string)
    decreases |s|
  {
    pattern <= s || (|s| > 0 && Contains(s[1..], pattern))
  }

  /** `parts.join(sep)`: the parts in order with `sep` between neighbours. */
  function Join(parts: seq<string>, sep: string): string
  {
    if |parts| == 0 then ""
    else if |parts| == 1 then parts[0]
    else parts[0] + sep + Join(parts[1..], sep)
  }

  /** An occurrence survives putting text in front. */
  lemma {:induction false} ContainsUnderPrefix(x: string, s: string, pattern: string)
    requires Contains(s, pattern)
    ensures Contains(x + s, pattern)
    decreases |x|
  {
    if |x| > 0 {
      assert (x + s)[1..] == x[1..] + s;
      ContainsUnderPrefix(x[1..], s, pattern);
    } else {
      assert x + s == s;
    }
  }

  /** A string contains every infix it is built around. */
  lemma ContainsInfix(a: string, pattern: string, b: string)
    ensures Contains(a + pattern + b, pattern)
  {
    assert pattern <= pattern + b;
    ContainsUnderPrefix(a, pattern + b, pattern);
    assert a + pattern + b == a + (pattern + b);
  }

  /** Whoever contains `q + t` contains `t`. */
  lemma {:induction false} ContainsSuffixOfPattern(s: string, q: string, t: string)
    requires Contains(s, q + t)
    ensures Contains(s, t)
    decreases |s|
  {
    if q + t <= s {
      var rest := s[|q + t|..];
      assert s == q + t + rest;
      ContainsInfix(q, t, rest);
    } else {
      ContainsSuffixOfPattern(s[1..], q, t);
    }
  }

  /** Every part occurs in the joined string. */
  lemma {:induction false} JoinContainsPart(parts: seq<string>, sep: string, k: nat)
    requires k < |parts|
    ensures Contains(Join(parts, sep), parts[k])
    decreases |parts|
  {
    if |parts| == 1 {
      ContainsInfix("", parts[0], "");
      assert "" + parts[0] + "" == parts[0];
    } else if k == 0 {
      ContainsInfix("", parts[0], sep + Join(parts[1..], sep));
      assert "" + parts[0] + (sep + Join(parts[1..], sep)) == Join(parts, sep);
    } else {
      JoinContainsPart(parts[1..], sep, k - 1);
      ContainsUnderPrefix(parts[0] + sep, Join(parts[1..], sep), parts[k]);
      assert (parts[0] + sep) + Join(parts[1..], sep) == Join(parts, sep);
    }
  }

  /** Joining two non-empty lists is joining their joins. */
  lemma {:induction false} JoinAppend(a: seq<string>, b: seq<string>, sep: string)
    requires |a| > 0 && |b| > 0
    ensures Join(a + b, sep) == Join(a, sep) + sep + Join(b, sep)
    decreases |a|
  {
    if |a| == 1 {
      assert (a + b)[1..] == b;
    } else {
      assert (a + b)[1..] == a[1..] + b;
      JoinAppend(a[1..], b, sep);
    }
  }
}
