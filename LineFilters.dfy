/** `read_lines` and `read_lines_with_pattern`: order-preserving filters
    over the lines of a file. Lines the reader fails on are dropped before
    either filter looks at the text. */
module LineFilters {
  import opened LogTypes
  import opened Strings

  /** The text of every line the reader could read, in file order. */
  function Readable(lines: seq<LineRead>): (r: seq<string>)
    ensures |r| <= |lines|
  {
    if |lines| == 0 then []
    else (if lines[0].Read? then [lines[0].text] else []) + Readable(lines[1..])
  }

  /** The texts `keep` accepts, in their original order. */
  function Filter(texts: seq<string>, keep: string -> bool): (r: seq<string>)
    ensures |r| <= |texts|
  {
    if |texts| == 0 then []
    else (if keep(texts[0]) then [texts[0]] else []) + Filter(texts[1..], keep)
  }

  /** `read_lines`: the readable lines that are not blank. */
  function ReadLines(lines: seq<LineRead>): seq<string> {
    Filter(Readable(lines), (s: string) => !Blank(s))
  }

  /** `read_lines_with_pattern`: the readable lines that contain `pattern`
      as a substring. Blank lines are not dropped here. */
  function ReadLinesWithPattern(lines: seq<LineRead>, pattern: string): seq<string> {
    Filter(Readable(lines), (s: string) => Contains(s, pattern))
  }

  // ---------------------------------------------------------------------
  // Membership
  // ---------------------------------------------------------------------

  /** A text is readable exactly when some line was read with that text. */
  lemma {:induction false} ReadableMembers(lines: seq<LineRead>)
    ensures forall s :: s in Readable(lines) <==> exists i :: 0 <= i < |lines| && lines[i] == Read(s)
  {
    if |lines| > 0 {
      ReadableMembers(lines[1..]);
      assert forall i :: 1 <= i < |lines| ==> lines[1..][i - 1] == lines[i];
      forall s | exists i :: 0 <= i < |lines| && lines[i] == Read(s)
        ensures s in Readable(lines)
      {
        var i :| 0 <= i < |lines| && lines[i] == Read(s);
        if i > 0 {
          assert lines[1..][i - 1] == Read(s);
        }
      }
    }
  }

  /** The filter keeps exactly the texts `keep` accepts. */
  lemma {:induction false} FilterMembers(texts: seq<string>, keep: string -> bool)
    ensures forall s :: s in Filter(texts, keep) <==> s in texts && keep(s)
  {
    if |texts| > 0 {
      FilterMembers(texts[1..], keep);
      assert texts == [texts[0]] + texts[1..];
    }
  }

  /** `read_lines` keeps exactly the lines that were read and are not blank. */
  lemma ReadLinesMembers(lines: seq<LineRead>, s: string)
    ensures s in ReadLines(lines) <==>
              !Blank(s) && exists i :: 0 <= i < |lines| && lines[i] == Read(s)
  {
    ReadableMembers(lines);
    FilterMembers(Readable(lines), (s: string) => !Blank(s));
  }

  /** `read_lines_with_pattern` keeps exactly the lines that were read and
      contain the pattern. */
  lemma ReadLinesWithPatternMembers(lines: seq<LineRead>, pattern: string, s: string)
    ensures s in ReadLinesWithPattern(lines, pattern) <==>
              Contains(s, pattern) && exists i :: 0 <= i < |lines| && lines[i] == Read(s)
  {
    ReadableMembers(lines);
    FilterMembers(Readable(lines), (s: string) => Contains(s, pattern));
  }

  // ---------------------------------------------------------------------
  // Order
  // ---------------------------------------------------------------------

  /** Reading two files' worth of lines reads each in turn. */
  lemma {:induction false} ReadableAppend(a: seq<LineRead>, b: seq<LineRead>)
    ensures Readable(a + b) == Readable(a) + Readable(b)
  {
    if |a| == 0 {
      assert a + b == b;
    } else {
      var ab := a + b;
      assert ab[0] == a[0] && ab[1..] == a[1..] + b;
      var head := if a[0].Read? then [a[0].text] else [];
      ReadableAppend(a[1..], b);
      calc {
        Readable(ab);
        head + Readable(a[1..] + b);
        head + (Readable(a[1..]) + Readable(b));
        (head + Readable(a[1..])) + Readable(b);
      }
    }
  }

  /** Filtering commutes with concatenation, so kept lines stay in file
      order. */
  lemma {:induction false} FilterAppend(a: seq<string>, b: seq<string>, keep: string -> bool)
    ensures Filter(a + b, keep) == Filter(a, keep) + Filter(b, keep)
  {
    if |a| == 0 {
      assert a + b == b;
    } else {
      var ab := a + b;
      assert ab[0] == a[0] && ab[1..] == a[1..] + b;
      var head := if keep(a[0]) then [a[0]] else [];
      FilterAppend(a[1..], b, keep);
      calc {
        Filter(ab, keep);
        head + Filter(a[1..] + b, keep);
        head + (Filter(a[1..], keep) + Filter(b, keep));
        (head + Filter(a[1..], keep)) + Filter(b, keep);
      }
    }
  }

  /** The lines `read_lines` keeps from a file are those it keeps from each
      part, in order. */
  lemma ReadLinesAppend(a: seq<LineRead>, b: seq<LineRead>)
    ensures ReadLines(a + b) == ReadLines(a) + ReadLines(b)
  {
    ReadableAppend(a, b);
    FilterAppend(Readable(a), Readable(b), (s: string) => !Blank(s));
  }

  /** The same for `read_lines_with_pattern`. */
  lemma ReadLinesWithPatternAppend(a: seq<LineRead>, b: seq<LineRead>, pattern: string)
    ensures ReadLinesWithPattern(a + b, pattern) == ReadLinesWithPattern(a, pattern) + ReadLinesWithPattern(b, pattern)
  {
    ReadableAppend(a, b);
    FilterAppend(Readable(a), Readable(b), (s: string) => Contains(s, pattern));
  }

  // ---------------------------------------------------------------------
  // The empty pattern
  // ---------------------------------------------------------------------

  /** A filter that accepts every text keeps them all. */
  lemma {:induction false} FilterAll(texts: seq<string>, keep: string -> bool)
    requires forall s :: keep(s)
    ensures Filter(texts, keep) == texts
  {
    if |texts| > 0 {
      FilterAll(texts[1..], keep);
      assert texts == [texts[0]] + texts[1..];
    }
  }

  /** Every string contains the empty pattern, so it keeps every readable
      line, blank ones included. */
  lemma EmptyPatternKeepsAll(lines: seq<LineRead>)
    ensures ReadLinesWithPattern(lines, "") == Readable(lines)
  {
    forall s: string ensures Contains(s, "") {
      assert "" <= s;
    }
    FilterAll(Readable(lines), (s: string) => Contains(s, ""));
  }
}
