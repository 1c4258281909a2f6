/** The preview of a rejected line that `parse_claude_session` reports: the
    line cut to at most 100 bytes of its UTF-8 encoding. The cut as written
    (`&line[..line.len().min(100)]`) panics when byte 100 falls inside a
    multi-byte character; `Preview` cuts at the last character boundary at or
    before byte 100 instead, and is what the transcript model assumes. */
module Diagnostics {
  import opened Wrappers

  /** The most bytes of a rejected line the preview shows. */
  const PreviewBytes: nat := 100

  /** The number of bytes the UTF-8 encoding of `c` takes. */
  function Utf8Len(c: char): (r: nat)
    ensures 1 <= r <= 4
  {
    var n := c as int;
    if n < 0x80 then 1 else if n < 0x800 then 2 else if n < 0x10000 then 3 else 4
  }

  /** `str::len`: the length of the UTF-8 encoding of `s` in bytes. */
  function ByteLen(s: string): (r: nat)
    ensures r >= |s|
  {
    if |s| == 0 then 0 else Utf8Len(s[0]) + ByteLen(s[1..])
  }

  /** `str::is_char_boundary`: byte offset `b` starts a character of `s` or
      is the end of `s`. */
  predicate CharBoundary(s: string, b: nat)
    decreases |s|
  {
    b == 0 || (|s| > 0 && b >= Utf8Len(s[0]) && CharBoundary(s[1..], b - Utf8Len(s[0])))
  }

  /** The longest prefix of `s` whose encoding fits in `n` bytes. */
  function TakeBytes(s: string, n: nat): (r: string)
    ensures |r| <= |s|
  {
    if |s| == 0 || Utf8Len(s[0]) > n then [] else [s[0]] + TakeBytes(s[1..], n - Utf8Len(s[0]))
  }

  /** The preview as the source writes it: `None` stands for the panic of
      slicing a `String` off a character boundary. */
  function PreviewAsWritten(line: string): Option<string>
  {
    var n := if ByteLen(line) < PreviewBytes then ByteLen(line) else PreviewBytes;
    if CharBoundary(line, n) then Some(TakeBytes(line, n)) else None
  }

  /** The preview the diagnostics evidently intend: at most 100 bytes, cut at
      a character boundary (`str::floor_char_boundary`). */
  function Preview(line: string): string
  {
    TakeBytes(line, PreviewBytes)
  }

  /** `TakeBytes` gives a prefix that fits, and the longest one: the next
      character would not fit. */
  lemma {:induction false} TakeBytesLongestPrefix(s: string, n: nat)
    ensures TakeBytes(s, n) <= s
    ensures ByteLen(TakeBytes(s, n)) <= n
    ensures |TakeBytes(s, n)| < |s| ==>
              ByteLen(TakeBytes(s, n)) + Utf8Len(s[|TakeBytes(s, n)|]) > n
    decreases |s|
  {
    if |s| > 0 && Utf8Len(s[0]) <= n {
      var rest := TakeBytes(s[1..], n - Utf8Len(s[0]));
      TakeBytesLongestPrefix(s[1..], n - Utf8Len(s[0]));
      assert TakeBytes(s, n) == [s[0]] + rest;
      assert ([s[0]] + rest)[1..] == rest;
      if |rest| < |s[1..]| {
        assert s[|rest| + 1] == s[1..][|rest|];
      }
    }
  }

  /** Cutting at a character boundary keeps exactly the bytes before it. */
  lemma {:induction false} TakeBytesAtBoundary(s: string, b: nat)
    requires CharBoundary(s, b)
    ensures ByteLen(TakeBytes(s, b)) == b
    decreases |s|
  {
    if b > 0 {
      var rest := TakeBytes(s[1..], b - Utf8Len(s[0]));
      TakeBytesAtBoundary(s[1..], b - Utf8Len(s[0]));
      assert ([s[0]] + rest)[1..] == rest;
    }
  }

  /** The corrected preview is a prefix of the line of at most 100 bytes,
      the longest such prefix, and equal to the preview as written whenever
      that one does not panic. */
  lemma PreviewMeans(line: string)
    ensures Preview(line) <= line && ByteLen(Preview(line)) <= PreviewBytes
    ensures |Preview(line)| < |line| ==>
              ByteLen(Preview(line)) + Utf8Len(line[|Preview(line)|]) > PreviewBytes
    ensures PreviewAsWritten(line).Some? ==> PreviewAsWritten(line) == Some(Preview(line))
  {
    TakeBytesLongestPrefix(line, PreviewBytes);
    if ByteLen(line) < PreviewBytes && CharBoundary(line, ByteLen(line)) {
      TakeBytesLongestPrefix(line, ByteLen(line));
      TakeBytesFits(line, ByteLen(line), PreviewBytes);
    }
  }

  /** A line whose encoding fits in `n` bytes is taken whole. */
  lemma {:induction false} TakeBytesWhole(s: string, n: nat)
    requires ByteLen(s) <= n
    ensures TakeBytes(s, n) == s
    decreases |s|
  {
    if |s| > 0 {
      TakeBytesWhole(s[1..], n - Utf8Len(s[0]));
      assert [s[0]] + s[1..] == s;
    }
  }

  /** Raising the byte budget past the whole line changes nothing. */
  lemma TakeBytesFits(s: string, m: nat, n: nat)
    requires ByteLen(s) <= m <= n
    ensures TakeBytes(s, m) == TakeBytes(s, n) == s
  {
    TakeBytesWhole(s, m);
    TakeBytesWhole(s, n);
  }

  /** A character that starts before byte `b` and ends after it leaves no
      boundary at `b`. */
  lemma {:induction false} NoBoundaryInsideChar(a: string, c: char, rest: string, b: nat)
    requires ByteLen(a) < b < ByteLen(a) + Utf8Len(c)
    ensures !CharBoundary(a + [c] + rest, b)
    decreases |a|
  {
    var s := a + [c] + rest;
    if |a| == 0 {
      assert s[0] == c && s[1..] == rest;
      assert !CharBoundary(s, b);
    } else {
      assert s[0] == a[0];
      assert s[1..] == a[1..] + [c] + rest;
      NoBoundaryInsideChar(a[1..], c, rest, b - Utf8Len(a[0]));
    }
  }

  /** The byte length of a concatenation. */
  lemma {:induction false} ByteLenAppend(a: string, b: string)
    ensures ByteLen(a + b) == ByteLen(a) + ByteLen(b)
    decreases |a|
  {
    if |a| > 0 {
      assert (a + b)[0] == a[0] && (a + b)[1..] == a[1..] + b;
      ByteLenAppend(a[1..], b);
    } else {
      assert a + b == b;
    }
  }

  /** The preview as written panics on every line in which a multi-byte
      character straddles byte 100. */
  lemma PreviewAsWrittenPanics(a: string, c: char, rest: string)
    requires ByteLen(a) < PreviewBytes < ByteLen(a) + Utf8Len(c)
    ensures PreviewAsWritten(a + [c] + rest).None?
  {
    ByteLenAppend(a + [c], rest);
    ByteLenAppend(a, [c]);
    assert ByteLen([c]) == Utf8Len(c) by { assert [c][1..] == []; }
    NoBoundaryInsideChar(a, c, rest, PreviewBytes);
  }

  /** `n` ASCII letters take `n` bytes. */
  lemma {:induction false} AsciiByteLen(n: nat)
    ensures ByteLen(seq(n, _ => 'a')) == n
  {
    if n > 0 {
      var s := seq(n, _ => 'a');
      assert s[1..] == seq(n - 1, _ => 'a');
      AsciiByteLen(n - 1);
    }
  }

  /** A concrete panicking line: 99 ASCII letters followed by the euro sign,
      whose three bytes occupy bytes 99 to 101. A decoder rejecting such a
      line makes the transcript call panic instead of skipping it. */
  lemma EuroAtByte99Panics()
    ensures PreviewAsWritten(seq(99, _ => 'a') + ['€']).None?
  {
    AsciiByteLen(99);
    assert seq(99, _ => 'a') + ['€'] == seq(99, _ => 'a') + ['€'] + [];
    PreviewAsWrittenPanics(seq(99, _ => 'a'), '€', []);
  }
}
