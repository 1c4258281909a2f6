/** `get_session_summary`: the statistics of a session file, gathered in one
    pass over its lines. Each statistic is specified by a function of the
    decoded entries; the method is proved to compute all of them. */
module Summary {
  import opened Wrappers
  import opened LogTypes
  import opened Strings
  import opened Content
  import opened Messages
  import opened SessionLines
  import opened Transcript

  // ---------------------------------------------------------------------
  // Reference definitions, one per statistic
  // ---------------------------------------------------------------------

  /** The number of entries of the given type. */
  function CountType(entries: seq<RawLogEntry>, entryType: string): (r: nat)
    ensures r <= |entries|
  {
    if |entries| == 0 then 0
    else CountType(entries[..|entries| - 1], entryType) +
         (if entries[|entries| - 1].entryType == entryType then 1 else 0)
  }

  /** The number of conversation turns (user or assistant entries). */
  function CountTurns(entries: seq<RawLogEntry>): (r: nat)
    ensures r <= |entries|
  {
    if |entries| == 0 then 0
    else CountTurns(entries[..|entries| - 1]) +
         (if IsTurn(entries[|entries| - 1].entryType) then 1 else 0)
  }

  /** The first value `f` finds in the entries, scanning forwards. */
  function FirstOf(entries: seq<RawLogEntry>, f: RawLogEntry -> Option<string>): Option<string>
  {
    if |entries| == 0 then None
    else
      var earlier := FirstOf(entries[..|entries| - 1], f);
      if earlier.Some? then earlier else f(entries[|entries| - 1])
  }

  /** The last value `f` finds in the entries. */
  function LastOf(entries: seq<RawLogEntry>, f: RawLogEntry -> Option<string>): Option<string>
  {
    if |entries| == 0 then None
    else
      var last := f(entries[|entries| - 1]);
      if last.Some? then last else LastOf(entries[..|entries| - 1], f)
  }

  function TimestampOf(e: RawLogEntry): Option<string> { e.timestamp }
  function CwdOf(e: RawLogEntry): Option<string> { e.cwd }
  function SessionIdOf(e: RawLogEntry): Option<string> { e.sessionId }

  /** An assistant entry that carries a message: the only kind whose usage
      and content the summary looks at. */
  predicate IsAssistantMessage(e: RawLogEntry) {
    e.entryType == "assistant" && e.message.Some?
  }

  function InputOf(u: TokenUsage): int { u.inputTokens }
  function OutputOf(u: TokenUsage): int { u.outputTokens }

  /** The sum of one usage count over the assistant entries that report
      usage. */
  function SumTokens(entries: seq<RawLogEntry>, f: TokenUsage -> int): int
  {
    if |entries| == 0 then 0
    else
      var e := entries[|entries| - 1];
      SumTokens(entries[..|entries| - 1], f) +
        (if IsAssistantMessage(e) && e.message.value.usage.Some? then f(e.message.value.usage.value) else 0)
  }

  /** Whether some assistant entry's content satisfies `p`. */
  function AssistantHas(entries: seq<RawLogEntry>, p: seq<ContentItem> -> bool): bool
  {
    if |entries| == 0 then false
    else
      var e := entries[|entries| - 1];
      AssistantHas(entries[..|entries| - 1], p) || (IsAssistantMessage(e) && p(e.message.value.content))
  }

  /** A token total is reported only when it is positive. */
  function Positive(n: int): (r: Option<int>)
    ensures r.Some? <==> n > 0
    ensures r.Some? ==> r.value == n
  {
    if n > 0 then Some(n) else None
  }

  // ---------------------------------------------------------------------
  // What the reference definitions mean
  // ---------------------------------------------------------------------

  /** `FirstOf` is empty exactly when `f` finds nothing in any entry. */
  lemma {:induction false} FirstOfNone(entries: seq<RawLogEntry>, f: RawLogEntry -> Option<string>)
    ensures FirstOf(entries, f).None? <==> forall i :: 0 <= i < |entries| ==> f(entries[i]).None?
  {
    if |entries| > 0 {
      var init := entries[..|entries| - 1];
      FirstOfNone(init, f);
      assert forall i :: 0 <= i < |init| ==> init[i] == entries[i];
    }
  }

  /** `FirstOf` is what `f` finds in the earliest entry where it finds
      anything. */
  lemma {:induction false} FirstOfIsFirst(entries: seq<RawLogEntry>, f: RawLogEntry -> Option<string>, k: nat)
    requires k < |entries| && f(entries[k]).Some?
    requires forall j :: 0 <= j < k ==> f(entries[j]).None?
    ensures FirstOf(entries, f) == f(entries[k])
  {
    var init := entries[..|entries| - 1];
    assert forall i :: 0 <= i < |init| ==> init[i] == entries[i];
    if k < |entries| - 1 {
      FirstOfIsFirst(init, f, k);
    } else {
      FirstOfNone(init, f);
    }
  }

  /** `LastOf` is empty exactly when `f` finds nothing in any entry. */
  lemma {:induction false} LastOfNone(entries: seq<RawLogEntry>, f: RawLogEntry -> Option<string>)
    ensures LastOf(entries, f).None? <==> forall i :: 0 <= i < |entries| ==> f(entries[i]).None?
  {
    if |entries| > 0 {
      var init := entries[..|entries| - 1];
      LastOfNone(init, f);
      assert forall i :: 0 <= i < |init| ==> init[i] == entries[i];
    }
  }

  /** `LastOf` is what `f` finds in the latest entry where it finds
      anything: a later value overwrites an earlier one. */
  lemma {:induction false} LastOfIsLast(entries: seq<RawLogEntry>, f: RawLogEntry -> Option<string>, k: nat)
    requires k < |entries| && f(entries[k]).Some?
    requires forall j :: k < j < |entries| ==> f(entries[j]).None?
    ensures LastOf(entries, f) == f(entries[k])
  {
    var init := entries[..|entries| - 1];
    if k < |entries| - 1 {
      assert forall i :: 0 <= i < |init| ==> init[i] == entries[i];
      LastOfIsLast(init, f, k);
    }
  }

  /** Every turn is a user turn or an assistant turn. */
  lemma {:induction false} TurnsAreUsersPlusAssistants(entries: seq<RawLogEntry>)
    ensures CountTurns(entries) == CountType(entries, "user") + CountType(entries, "assistant")
  {
    if |entries| > 0 {
      TurnsAreUsersPlusAssistants(entries[..|entries| - 1]);
    }
  }

  /** Counting splits over a concatenation of entry lists. */
  lemma {:induction false} CountTypeAppend(a: seq<RawLogEntry>, b: seq<RawLogEntry>, entryType: string)
    ensures CountType(a + b, entryType) == CountType(a, entryType) + CountType(b, entryType)
  {
    if |b| > 0 {
      var init := b[..|b| - 1];
      assert (a + b)[..|a + b| - 1] == a + init;
      CountTypeAppend(a, init, entryType);
    } else {
      assert a + b == a;
    }
  }

  /** Token totals split over a concatenation of entry lists. */
  lemma {:induction false} SumTokensAppend(a: seq<RawLogEntry>, b: seq<RawLogEntry>, f: TokenUsage -> int)
    ensures SumTokens(a + b, f) == SumTokens(a, f) + SumTokens(b, f)
  {
    if |b| > 0 {
      var init := b[..|b| - 1];
      assert (a + b)[..|a + b| - 1] == a + init;
      SumTokensAppend(a, init, f);
    } else {
      assert a + b == a;
    }
  }

  /** A content flag is set exactly when some assistant entry with a message
      has content satisfying it; once set it stays set. */
  lemma {:induction false} AssistantHasMeans(entries: seq<RawLogEntry>, p: seq<ContentItem> -> bool)
    ensures AssistantHas(entries, p) <==>
              exists i :: 0 <= i < |entries| && IsAssistantMessage(entries[i]) && p(entries[i].message.value.content)
  {
    if |entries| > 0 {
      var init := entries[..|entries| - 1];
      AssistantHasMeans(init, p);
      assert forall i :: 0 <= i < |init| ==> init[i] == entries[i];
      if AssistantHas(init, p) {
        var i :| 0 <= i < |init| && IsAssistantMessage(init[i]) && p(init[i].message.value.content);
        assert entries[i] == init[i];
      }
    }
  }

  /** The transcript of a file never has more messages than the summary of
      the same file counts: only turns convert to messages, and turns
      without a message body are counted but not converted. */
  lemma {:induction false} TranscriptWithinSummary(entries: seq<RawLogEntry>)
    ensures |Converted(entries)| <= CountTurns(entries)
  {
    if |entries| > 0 {
      var init := entries[..|entries| - 1];
      TranscriptWithinSummary(init);
      assert init + [entries[|entries| - 1]] == entries;
      CollectSnoc(init, entries[|entries| - 1], EntryToMessage);
    }
  }

  /** What a summary states about the session it describes. */
  lemma SummaryOfMeans(filePath: string, entries: seq<RawLogEntry>)
    ensures var s := SummaryOf(filePath, entries);
      && s.messageCount == s.userMessageCount + s.assistantMessageCount
      && (s.firstTimestamp.None? <==> s.lastTimestamp.None?)
      && (s.firstTimestamp.None? <==> forall i :: 0 <= i < |entries| ==> entries[i].timestamp.None?)
      && (s.cwd.None? <==> forall i :: 0 <= i < |entries| ==> entries[i].cwd.None?)
      && ((forall i :: 0 <= i < |entries| ==> entries[i].sessionId.None?) ==> s.sessionId == Unknown)
      && (s.totalInputTokens.Some? ==> s.totalInputTokens.value > 0)
      && (s.totalOutputTokens.Some? ==> s.totalOutputTokens.value > 0)
      && (s.hasThinking <==> exists i :: 0 <= i < |entries| && IsAssistantMessage(entries[i]) &&
                                        HasThinking(entries[i].message.value.content))
      && (s.hasToolUse <==> exists i :: 0 <= i < |entries| && IsAssistantMessage(entries[i]) &&
                                       HasToolUse(entries[i].message.value.content))
      && |Converted(entries)| <= s.messageCount
  {
    TurnsAreUsersPlusAssistants(entries);
    FirstOfNone(entries, TimestampOf);
    LastOfNone(entries, TimestampOf);
    FirstOfNone(entries, CwdOf);
    LastOfNone(entries, SessionIdOf);
    AssistantHasMeans(entries, HasThinking);
    AssistantHasMeans(entries, HasToolUse);
    TranscriptWithinSummary(entries);
  }

  // ---------------------------------------------------------------------
  // The accumulator
  // ---------------------------------------------------------------------

  /** The running totals the scan keeps, one field per local variable of
      the scan. */
  datatype Tally = Tally(
    sessionId: string,
    messageCount: int,
    userCount: int,
    assistantCount: int,
    firstTimestamp: Option<string>,
    lastTimestamp: Option<string>,
    totalInputTokens: int,
    totalOutputTokens: int,
    hasThinking: bool,
    hasToolUse: bool,
    cwd: Option<string>)

  /** The totals after scanning the given entries: each field is the
      statistic's reference definition. */
  function TallyOf(entries: seq<RawLogEntry>): Tally {
    Tally(
      sessionId := LastOf(entries, SessionIdOf).GetOr(Unknown),
      messageCount := CountTurns(entries),
      userCount := CountType(entries, "user"),
      assistantCount := CountType(entries, "assistant"),
      firstTimestamp := FirstOf(entries, TimestampOf),
      lastTimestamp := LastOf(entries, TimestampOf),
      totalInputTokens := SumTokens(entries, InputOf),
      totalOutputTokens := SumTokens(entries, OutputOf),
      hasThinking := AssistantHas(entries, HasThinking),
      hasToolUse := AssistantHas(entries, HasToolUse),
      cwd := FirstOf(entries, CwdOf))
  }


  /** The summary of a session file whose decoded entries are `entries`:
      the totals of the scan, with a token total reported only when it is
      positive. That is: the last session id seen (or "unknown"), the turn
      counts, the first and last timestamps, whether any assistant message
      thinks or calls a tool, and the first working directory seen. */
  function SummaryOf(filePath: string, entries: seq<RawLogEntry>): ClaudeSession {
    var t := TallyOf(entries);
    ClaudeSession(
      sessionId := t.sessionId,
      filePath := filePath,
      messageCount := t.messageCount,
      userMessageCount := t.userCount,
      assistantMessageCount := t.assistantCount,
      firstTimestamp := t.firstTimestamp,
      lastTimestamp := t.lastTimestamp,
      totalInputTokens := Positive(t.totalInputTokens),
      totalOutputTokens := Positive(t.totalOutputTokens),
      hasThinking := t.hasThinking,
      hasToolUse := t.hasToolUse,
      cwd := t.cwd)
  }

  /** How one more decoded entry changes the message counters, the token
      totals and the content flags: the totals that depend on the entry's
      type. */
  function Counted(t: Tally, e: RawLogEntry): Tally {
    var usage := IsAssistantMessage(e) && e.message.value.usage.Some?;
    t.(
      messageCount := t.messageCount + (if IsTurn(e.entryType) then 1 else 0),
      userCount := t.userCount + (if e.entryType == "user" then 1 else 0),
      assistantCount := t.assistantCount + (if e.entryType == "assistant" then 1 else 0),
      totalInputTokens := t.totalInputTokens + (if usage then e.message.value.usage.value.inputTokens else 0),
      totalOutputTokens := t.totalOutputTokens + (if usage then e.message.value.usage.value.outputTokens else 0),
      hasThinking := t.hasThinking || (IsAssistantMessage(e) && HasThinking(e.message.value.content)),
      hasToolUse := t.hasToolUse || (IsAssistantMessage(e) && HasToolUse(e.message.value.content)))
  }

  /** How one more decoded entry changes each total. */
  function Step(t: Tally, e: RawLogEntry): Tally {
    Counted(t, e).(
      sessionId := if e.sessionId.Some? then e.sessionId.value else t.sessionId,
      firstTimestamp := if t.firstTimestamp.Some? then t.firstTimestamp else e.timestamp,
      lastTimestamp := if e.timestamp.Some? then e.timestamp else t.lastTimestamp,
      cwd := if t.cwd.Some? then t.cwd else e.cwd)
  }

  /** The totals of the entries decoded so far, followed by one more entry,
      are the totals so far advanced by `Step`. */
  lemma TallyOfSnoc(seen: seq<RawLogEntry>, e: RawLogEntry)
    ensures TallyOf(seen + [e]) == Step(TallyOf(seen), e)
  {
    assert (seen + [e])[..|seen|] == seen;
  }

  /** The message count of the scan: the counters by entry type, and for an
      assistant entry with a message its token usage and content flags. */
  method CountMessage(t: Tally, entry: RawLogEntry) returns (u: Tally)
    ensures u == Counted(t, entry)
  {
    var messageCount, userCount, assistantCount := t.messageCount, t.userCount, t.assistantCount;
    var totalInputTokens, totalOutputTokens := t.totalInputTokens, t.totalOutputTokens;
    var hasThinkingFlag, hasToolUseFlag := t.hasThinking, t.hasToolUse;
    if entry.entryType == "user" {
      userCount := userCount + 1;
      messageCount := messageCount + 1;
    } else if entry.entryType == "assistant" {
      assistantCount := assistantCount + 1;
      messageCount := messageCount + 1;
      if entry.message.Some? {
        var message := entry.message.value;
        if message.usage.Some? {
          totalInputTokens := totalInputTokens + message.usage.value.inputTokens;
          totalOutputTokens := totalOutputTokens + message.usage.value.outputTokens;
        }
        if HasThinking(message.content) {
          hasThinkingFlag := true;
        }
        if HasToolUse(message.content) {
          hasToolUseFlag := true;
        }
      }
    }
    u := t.(messageCount := messageCount, userCount := userCount, assistantCount := assistantCount,
            totalInputTokens := totalInputTokens, totalOutputTokens := totalOutputTokens,
            hasThinking := hasThinkingFlag, hasToolUse := hasToolUseFlag);
  }

  /** Folds one decoded entry into the totals, in the order the scan does:
      session id, working directory, the message count, timestamps. */
  method Absorb(t: Tally, entry: RawLogEntry) returns (u: Tally)
    ensures u == Step(t, entry)
  {
    var sessionId, cwd := t.sessionId, t.cwd;
    if entry.sessionId.Some? {
      sessionId := entry.sessionId.value;
    }
    if cwd.None? && entry.cwd.Some? {
      cwd := entry.cwd;
    }
    u := CountMessage(t, entry);
    var firstTimestamp, lastTimestamp := t.firstTimestamp, t.lastTimestamp;
    if entry.timestamp.Some? {
      if firstTimestamp.None? {
        firstTimestamp := entry.timestamp;
      }
      lastTimestamp := entry.timestamp;
    }
    u := u.(sessionId := sessionId, firstTimestamp := firstTimestamp, lastTimestamp := lastTimestamp, cwd := cwd);
  }

  /** Scans the lines once. Lines the reader fails on, blank lines and lines
      the decoder rejects are skipped; nothing aborts the scan. */
  method GetSessionSummary(filePath: string, lines: seq<LineRead>, parse: string -> Option<RawLogEntry>)
    returns (s: ClaudeSession)
    ensures s == SummaryOf(filePath, Entries(lines, parse))
  {
    var t := Tally(Unknown, 0, 0, 0, None, None, 0, 0, false, false, None);
    ghost var seen: seq<RawLogEntry> := [];

    var i := 0;
    while i < |lines|
      invariant 0 <= i <= |lines|
      invariant seen == Entries(lines[..i], parse)
      invariant t == TallyOf(seen)
    {
      if lines[i].Read? && !Blank(lines[i].text) {
        var parsed := parse(lines[i].text);
        if parsed.Some? {
          EntriesTake(lines, i, parse, parsed.value);
          TallyOfSnoc(seen, parsed.value);
          t := Absorb(t, parsed.value);
          seen := seen + [parsed.value];
        } else {
          EntriesSkip(lines, i, parse);
        }
      } else {
        EntriesSkip(lines, i, parse);
      }
      i := i + 1;
    }
    assert lines[..|lines|] == lines;
    assert t == TallyOf(Entries(lines, parse));

    s := ClaudeSession(
      sessionId := t.sessionId,
      filePath := filePath,
      messageCount := t.messageCount,
      userMessageCount := t.userCount,
      assistantMessageCount := t.assistantCount,
      firstTimestamp := t.firstTimestamp,
      lastTimestamp := t.lastTimestamp,
      totalInputTokens := Positive(t.totalInputTokens),
      totalOutputTokens := Positive(t.totalOutputTokens),
      hasThinking := t.hasThinking,
      hasToolUse := t.hasToolUse,
      cwd := t.cwd);
  }
}
