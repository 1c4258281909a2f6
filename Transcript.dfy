/** `parse_claude_session`: the full transcript of a session file. */
module Transcript {
  import opened Wrappers
  import opened LogTypes
  import opened Strings
  import opened Messages
  import opened SessionLines
  import opened Diagnostics

  /** A line the reader could not deliver aborts the transcript; the line
      number counts from 1. */
  datatype SessionError = LineReadError(lineNumber: nat, reason: string)

  /** The warning reported for a line the decoder rejects: its number,
      counting from 1, and a preview of its text. */
  datatype ParseWarning = ParseWarning(lineNumber: nat, preview: string)

  /** What one entry contributes to the transcript under `convert`: its
      message if it converts to one, nothing otherwise. */
  function MessagesOf(e: RawLogEntry, convert: RawLogEntry -> Option<ClaudeMessage>): (r: seq<ClaudeMessage>)
    ensures |r| <= 1
  {
    match convert(e)
    case Some(m) => [m]
    case None => []
  }

  /** The messages of a list of entries under `convert`, in entry order;
      entries that do not convert are dropped. */
  function Collect(entries: seq<RawLogEntry>, convert: RawLogEntry -> Option<ClaudeMessage>): (r: seq<ClaudeMessage>)
    ensures |r| <= |entries|
  {
    if |entries| == 0 then []
    else Collect(entries[..|entries| - 1], convert) + MessagesOf(entries[|entries| - 1], convert)
  }

  /** The transcript of a list of entries. */
  function Converted(entries: seq<RawLogEntry>): seq<ClaudeMessage>
  {
    Collect(entries, EntryToMessage)
  }

  /** Collecting preserves entry order. */
  lemma {:induction false} CollectAppend(a: seq<RawLogEntry>, b: seq<RawLogEntry>,
                                         convert: RawLogEntry -> Option<ClaudeMessage>)
    ensures Collect(a + b, convert) == Collect(a, convert) + Collect(b, convert)
    decreases |b|
  {
    if |b| == 0 {
      assert a + b == a;
    } else {
      var ab, init, last := a + b, b[..|b| - 1], b[|b| - 1];
      assert ab[..|ab| - 1] == a + init;
      assert ab[|ab| - 1] == last;
      CollectAppend(a, init, convert);
      calc {
        Collect(ab, convert);
        Collect(a + init, convert) + MessagesOf(last, convert);
        (Collect(a, convert) + Collect(init, convert)) + MessagesOf(last, convert);
        Collect(a, convert) + (Collect(init, convert) + MessagesOf(last, convert));
        Collect(a, convert) + Collect(b, convert);
      }
    }
  }

  /** Collecting one more entry appends its message, if it has one. */
  lemma CollectSnoc(entries: seq<RawLogEntry>, e: RawLogEntry, convert: RawLogEntry -> Option<ClaudeMessage>)
    ensures Collect(entries + [e], convert) == Collect(entries, convert) + MessagesOf(e, convert)
  {
    assert (entries + [e])[..|entries|] == entries;
  }

  /** Every collected message is the conversion of one of the entries. */
  lemma {:induction false} CollectFrom(entries: seq<RawLogEntry>, convert: RawLogEntry -> Option<ClaudeMessage>)
    ensures forall m :: m in Collect(entries, convert) ==>
              exists i :: 0 <= i < |entries| && convert(entries[i]) == Some(m)
  {
    if |entries| > 0 {
      var init, last := entries[..|entries| - 1], entries[|entries| - 1];
      CollectFrom(init, convert);
      forall m | m in Collect(entries, convert)
        ensures exists i :: 0 <= i < |entries| && convert(entries[i]) == Some(m)
      {
        if m in Collect(init, convert) {
          var i :| 0 <= i < |init| && convert(init[i]) == Some(m);
          assert entries[i] == init[i];
        } else {
          assert convert(entries[|entries| - 1]) == Some(m);
        }
      }
    }
  }

  /** Every entry that converts has its message collected. */
  lemma {:induction false} CollectKeeps(entries: seq<RawLogEntry>, i: nat, convert: RawLogEntry -> Option<ClaudeMessage>)
    requires i < |entries| && convert(entries[i]).Some?
    ensures convert(entries[i]).value in Collect(entries, convert)
  {
    var init := entries[..|entries| - 1];
    if i < |init| {
      CollectKeeps(init, i, convert);
      assert init[i] == entries[i];
    }
  }

  /** The transcript holds exactly the messages of the user and assistant
      entries that carry a message body. */
  lemma TranscriptMembers(entries: seq<RawLogEntry>, m: ClaudeMessage)
    ensures m in Converted(entries) <==>
              exists i :: 0 <= i < |entries| && IsTurn(entries[i].entryType) && entries[i].message.Some?
                       && EntryToMessage(entries[i]) == Some(m)
  {
    CollectFrom(entries, EntryToMessage);
    if exists i :: 0 <= i < |entries| && EntryToMessage(entries[i]) == Some(m) {
      var i :| 0 <= i < |entries| && EntryToMessage(entries[i]) == Some(m);
      CollectKeeps(entries, i, EntryToMessage);
    }
  }

  /** The index of the first line the reader failed on, if any. */
  function FirstUnreadable(lines: seq<LineRead>): Option<nat>
  {
    if |lines| == 0 then None
    else
      var earlier := FirstUnreadable(lines[..|lines| - 1]);
      if earlier.Some? then earlier
      else if lines[|lines| - 1].Unreadable? then Some(|lines| - 1)
      else None
  }

  /** `FirstUnreadable` finds a line the reader failed on, with every line
      before it read, and finds none exactly when every line was read. */
  lemma {:induction false} FirstUnreadableMeans(lines: seq<LineRead>)
    ensures FirstUnreadable(lines).None? <==> forall i :: 0 <= i < |lines| ==> lines[i].Read?
    ensures FirstUnreadable(lines).Some? ==>
              var k := FirstUnreadable(lines).value;
              k < |lines| && lines[k].Unreadable? && forall j :: 0 <= j < k ==> lines[j].Read?
  {
    if |lines| > 0 {
      var init := lines[..|lines| - 1];
      FirstUnreadableMeans(init);
      assert forall j :: 0 <= j < |init| ==> init[j] == lines[j];
    }
  }

  /** Once a prefix of the lines holds an unreadable one, the lines that
      follow do not change which one is first. */
  lemma {:induction false} FirstUnreadableExtend(lines: seq<LineRead>, n: nat)
    requires n <= |lines| && FirstUnreadable(lines[..n]).Some?
    ensures FirstUnreadable(lines) == FirstUnreadable(lines[..n])
    decreases |lines| - n
  {
    if n < |lines| {
      var init := lines[..|lines| - 1];
      assert init[..n] == lines[..n];
      FirstUnreadableExtend(init, n);
    } else {
      assert lines[..n] == lines;
    }
  }

  /** The search over a prefix, advanced by one line. */
  lemma FirstUnreadableSnoc(lines: seq<LineRead>, i: nat)
    requires i < |lines|
    ensures FirstUnreadable(lines[..i + 1]) ==
              if FirstUnreadable(lines[..i]).Some? then FirstUnreadable(lines[..i])
              else if lines[i].Unreadable? then Some(i)
              else None
  {
    assert lines[..i + 1][..i] == lines[..i];
  }

  /** The warnings reported for the lines the decoder rejects, in line
      order. */
  function Rejected(lines: seq<LineRead>, parse: string -> Option<RawLogEntry>): (r: seq<ParseWarning>)
    ensures |r| <= ContentLineCount(lines)
  {
    if |lines| == 0 then []
    else
      var last := lines[|lines| - 1];
      Rejected(lines[..|lines| - 1], parse) +
        if last.Read? && !Blank(last.text) && parse(last.text).None?
        then [ParseWarning(|lines|, Preview(last.text))] else []
  }

  /** A line the decoder does not reject adds no warning. */
  lemma RejectedSkip(lines: seq<LineRead>, i: nat, parse: string -> Option<RawLogEntry>)
    requires i < |lines|
    requires lines[i].Read? ==> Blank(lines[i].text) || parse(lines[i].text).Some?
    ensures Rejected(lines[..i + 1], parse) == Rejected(lines[..i], parse)
  {
    assert lines[..i + 1][..i] == lines[..i];
  }

  /** A line the decoder rejects adds its warning at the end. */
  lemma RejectedTake(lines: seq<LineRead>, i: nat, parse: string -> Option<RawLogEntry>)
    requires i < |lines| && lines[i].Read? && !Blank(lines[i].text) && parse(lines[i].text).None?
    ensures Rejected(lines[..i + 1], parse) ==
              Rejected(lines[..i], parse) + [ParseWarning(i + 1, Preview(lines[i].text))]
  {
    assert lines[..i + 1][..i] == lines[..i];
  }

  /** Whether the decoder rejects line `i`: it is read, not blank, and
      does not decode. */
  predicate RejectedLine(lines: seq<LineRead>, i: nat, parse: string -> Option<RawLogEntry>)
    requires i < |lines|
  {
    lines[i].Read? && !Blank(lines[i].text) && parse(lines[i].text).None?
  }

  /** Every warning names a line the decoder rejected, with that line's
      preview. */
  lemma {:induction false} RejectedFrom(lines: seq<LineRead>, parse: string -> Option<RawLogEntry>, w: ParseWarning)
    requires w in Rejected(lines, parse)
    ensures 1 <= w.lineNumber <= |lines| && RejectedLine(lines, w.lineNumber - 1, parse)
    ensures w.preview == Preview(lines[w.lineNumber - 1].text)
    decreases |lines|
  {
    var n := |lines| - 1;
    var init := lines[..n];
    if w in Rejected(init, parse) {
      RejectedFrom(init, parse, w);
      assert init[w.lineNumber - 1] == lines[w.lineNumber - 1];
    }
  }

  /** Every line the decoder rejects is warned about. */
  lemma {:induction false} RejectedKeeps(lines: seq<LineRead>, i: nat, parse: string -> Option<RawLogEntry>)
    requires i < |lines| && RejectedLine(lines, i, parse)
    ensures ParseWarning(i + 1, Preview(lines[i].text)) in Rejected(lines, parse)
    decreases |lines|
  {
    var init := lines[..|lines| - 1];
    if i < |init| {
      assert init[i] == lines[i];
      RejectedKeeps(init, i, parse);
    }
  }

  /** `parse_claude_session`: reads the lines in order, skipping blank
      lines and lines the decoder rejects, and collects the message of every
      entry that converts. The first line the reader fails on aborts the
      whole call with that line's error. `warnings` are the diagnostics
      printed for the rejected lines before the call returns. */
  method ParseClaudeSession(lines: seq<LineRead>, parse: string -> Option<RawLogEntry>)
    returns (r: Result<seq<ClaudeMessage>, SessionError>, warnings: seq<ParseWarning>)
    ensures FirstUnreadable(lines).None? ==>
              r == Ok(Converted(Entries(lines, parse))) && warnings == Rejected(lines, parse)
    ensures FirstUnreadable(lines).Some? ==>
              var k := FirstUnreadable(lines).value;
              k < |lines| && lines[k].Unreadable? && r == Err(LineReadError(k + 1, lines[k].reason)) &&
              warnings == Rejected(lines[..k], parse)
  {
    var messages: seq<ClaudeMessage> := [];
    warnings := [];
    ghost var seen: seq<RawLogEntry> := [];
    var i := 0;
    while i < |lines|
      invariant 0 <= i <= |lines|
      invariant FirstUnreadable(lines[..i]).None?
      invariant seen == Entries(lines[..i], parse)
      invariant messages == Converted(seen)
      invariant warnings == Rejected(lines[..i], parse)
    {
      FirstUnreadableSnoc(lines, i);
      if lines[i].Unreadable? {
        FirstUnreadableExtend(lines, i + 1);
        return Err(LineReadError(i + 1, lines[i].reason)), warnings;
      }
      var line := lines[i].text;
      if !Blank(line) {
        var parsed := parse(line);
        if parsed.Some? {
          EntriesTake(lines, i, parse, parsed.value);
          RejectedSkip(lines, i, parse);
          CollectSnoc(seen, parsed.value, EntryToMessage);
          var msg := EntryToMessage(parsed.value);
          if msg.Some? {
            messages := messages + [msg.value];
          }
          seen := seen + [parsed.value];
        } else {
          // the decoder rejected the line: it is reported and skipped
          EntriesSkip(lines, i, parse);
          RejectedTake(lines, i, parse);
          warnings := warnings + [ParseWarning(i + 1, Preview(line))];
        }
      } else {
        EntriesSkip(lines, i, parse);
        RejectedSkip(lines, i, parse);
      }
      i := i + 1;
    }
    assert lines[..|lines|] == lines;
    r := Ok(messages);
  }

  /** A transcript has at most one message per line that is read and not
      blank. */
  lemma TranscriptLength(lines: seq<LineRead>, parse: string -> Option<RawLogEntry>)
    ensures |Converted(Entries(lines, parse))| <= ContentLineCount(lines)
  {
  }

  /** The transcript of a file split in two is the transcript of the first
      part followed by that of the second. */
  lemma TranscriptAppend(a: seq<LineRead>, b: seq<LineRead>, parse: string -> Option<RawLogEntry>)
    ensures Converted(Entries(a + b, parse)) == Converted(Entries(a, parse)) + Converted(Entries(b, parse))
  {
    EntriesAppend(a, b, parse);
    CollectAppend(Entries(a, parse), Entries(b, parse), EntryToMessage);
  }
}
