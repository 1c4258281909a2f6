/** A session file as the two readers see it: a sequence of lines, each
    either read or failed, and the log entries carried by the lines that are
    read, not blank, and accepted by the JSON decoder. The decoder itself is
    a parameter (`parse`), returning None for a line it rejects. */
module SessionLines {
  import opened Wrappers
  import opened LogTypes
  import opened Strings

  /** The entry a line carries: blank lines are skipped before decoding. */
  function ParsedEntry(line: LineRead, parse: string -> Option<RawLogEntry>): Option<RawLogEntry>
  {
    if line.Read? && !Blank(line.text) then parse(line.text) else None
  }

  /** The number of lines that are read and not blank. */
  function ContentLineCount(lines: seq<LineRead>): (r: nat)
    ensures r <= |lines|
  {
    if |lines| == 0 then 0
    else
      var last := lines[|lines| - 1];
      ContentLineCount(lines[..|lines| - 1]) + (if last.Read? && !Blank(last.text) then 1 else 0)
  }

  /** The decoded entries of a file, in line order. Unreadable, blank and
      undecodable lines contribute nothing. */
  function Entries(lines: seq<LineRead>, parse: string -> Option<RawLogEntry>): (r: seq<RawLogEntry>)
    ensures |r| <= ContentLineCount(lines)
  {
    if |lines| == 0 then []
    else
      Entries(lines[..|lines| - 1], parse) +
        match ParsedEntry(lines[|lines| - 1], parse)
        case Some(e) => [e]
        case None => []
  }

  /** A line that carries no entry adds nothing to the entries. */
  lemma EntriesSkip(lines: seq<LineRead>, i: nat, parse: string -> Option<RawLogEntry>)
    requires i < |lines| && ParsedEntry(lines[i], parse).None?
    ensures Entries(lines[..i + 1], parse) == Entries(lines[..i], parse)
  {
    assert lines[..i + 1][..i] == lines[..i];
  }

  /** A line that carries an entry adds it at the end. */
  lemma EntriesTake(lines: seq<LineRead>, i: nat, parse: string -> Option<RawLogEntry>, e: RawLogEntry)
    requires i < |lines| && ParsedEntry(lines[i], parse) == Some(e)
    ensures Entries(lines[..i + 1], parse) == Entries(lines[..i], parse) + [e]
  {
    assert lines[..i + 1][..i] == lines[..i];
  }

  /** Every entry comes from a line, and every line that carries an entry
      contributes it. */
  lemma {:induction false} EntriesMembers(lines: seq<LineRead>, parse: string -> Option<RawLogEntry>)
    ensures forall e :: e in Entries(lines, parse) ==>
              exists i :: 0 <= i < |lines| && ParsedEntry(lines[i], parse) == Some(e)
    ensures forall i :: 0 <= i < |lines| && ParsedEntry(lines[i], parse).Some? ==>
              ParsedEntry(lines[i], parse).value in Entries(lines, parse)
    decreases |lines|
  {
    if |lines| > 0 {
      var n := |lines| - 1;
      EntriesMembers(lines[..n], parse);
      assert lines[..n + 1] == lines;
      if ParsedEntry(lines[n], parse).Some? {
        EntriesTake(lines, n, parse, ParsedEntry(lines[n], parse).value);
      } else {
        EntriesSkip(lines, n, parse);
      }
      assert forall j :: 0 <= j < n ==> lines[..n][j] == lines[j];
    }
  }

  /** The entries of a file split in two are the entries of the first part
      followed by those of the second: decoding preserves line order. */
  lemma {:induction false} EntriesAppend(a: seq<LineRead>, b: seq<LineRead>, parse: string -> Option<RawLogEntry>)
    ensures Entries(a + b, parse) == Entries(a, parse) + Entries(b, parse)
    decreases |b|
  {
    if |b| == 0 {
      assert a + b == a;
    } else {
      var ab, init := a + b, b[..|b| - 1];
      var tail := match ParsedEntry(b[|b| - 1], parse) case Some(e) => [e] case None => [];
      assert ab[..|ab| - 1] == a + init;
      assert ab[|ab| - 1] == b[|b| - 1];
      assert Entries(ab, parse) == Entries(a + init, parse) + tail;
      assert Entries(b, parse) == Entries(init, parse) + tail;
      EntriesAppend(a, init, parse);
    }
  }
}
