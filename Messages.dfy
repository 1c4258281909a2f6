/** Converting one log entry to a transcript message. */
module Messages {
  import opened Wrappers
  import opened LogTypes
  import opened Strings
  import opened Content

  /** The placeholder for a missing identifier or timestamp. */
  const Unknown: string := "unknown"

  /** Entries of these two types are conversation turns; every other type
      (summaries, snapshots, ...) is bookkeeping. */
  predicate IsTurn(entryType: string) {
    entryType == "user" || entryType == "assistant"
  }

  /** `entry_to_message`: a user or assistant entry that carries a message
      becomes a transcript message; every other entry is dropped. What the
      message holds is stated by EntryToMessageFields. */
  function EntryToMessage(e: RawLogEntry): (r: Option<ClaudeMessage>)
    ensures r.Some? <==> IsTurn(e.entryType) && e.message.Some?
  {
    if !IsTurn(e.entryType) then None
    else
      var m :- e.message;
      var tokens :=
        if m.usage.Some? then
          (Some(m.usage.value.inputTokens), Some(m.usage.value.outputTokens),
           m.usage.value.cacheCreationInputTokens, m.usage.value.cacheReadInputTokens)
        else (None, None, None, None);
      Some(ClaudeMessage(
        messageId := e.uuid.GetOr(Unknown),
        sessionId := e.sessionId.GetOr(Unknown),
        role := m.role,
        content := ExtractTextContent(m.content),
        timestamp := e.timestamp.GetOr(Unknown),
        rawContent := m.content,
        hasThinking := HasThinking(m.content),
        hasToolUse := HasToolUse(m.content),
        hasImages := HasImages(m.content),
        parentId := e.parentUuid,
        model := m.model,
        stopReason := m.stopReason,
        inputTokens := tokens.0,
        outputTokens := tokens.1,
        cacheCreationTokens := tokens.2,
        cacheReadTokens := tokens.3,
        isSidechain := e.isSidechain,
        userType := e.userType))
  }

  /** The message of a converted entry: missing identifiers and timestamp
      read "unknown", the merged text and the feature flags come from the
      content blocks, the full block list is kept as JSON that decodes back
      to the same blocks, and the token counts are all absent exactly when
      the message reports no usage. */
  lemma EntryToMessageFields(e: RawLogEntry)
    requires IsTurn(e.entryType) && e.message.Some?
    ensures
      var m := e.message.value;
      var msg := EntryToMessage(e).value;
      // identifiers and timestamp, defaulted when missing
      && (e.uuid.Some? ==> msg.messageId == e.uuid.value)
      && (e.uuid.None? ==> msg.messageId == Unknown)
      && (e.sessionId.Some? ==> msg.sessionId == e.sessionId.value)
      && (e.sessionId.None? ==> msg.sessionId == Unknown)
      && (e.timestamp.Some? ==> msg.timestamp == e.timestamp.value)
      && (e.timestamp.None? ==> msg.timestamp == Unknown)
      // content: merged text, the full block list, and its features
      && msg.role == m.role
      && msg.content == ExtractTextContent(m.content)
      && msg.rawContent == m.content
      && DeserializeContent(EncodeContent(msg.rawContent)) == Ok(m.content)
      && (msg.hasThinking <==> exists i :: 0 <= i < |m.content| && m.content[i].Thinking?)
      && (msg.hasToolUse <==> exists i :: 0 <= i < |m.content| && m.content[i].ToolUse?)
      && (msg.hasImages <==> exists i :: 0 <= i < |m.content| && m.content[i].Image?)
      // fields passed through
      && msg.parentId == e.parentUuid && msg.model == m.model && msg.stopReason == m.stopReason
      && msg.isSidechain == e.isSidechain && msg.userType == e.userType
      // token counts: all absent exactly when usage is absent
      && (msg.inputTokens.None? <==> m.usage.None?)
      && (msg.outputTokens.None? <==> m.usage.None?)
      && (m.usage.None? ==> msg.cacheCreationTokens.None? && msg.cacheReadTokens.None?)
      && (m.usage.Some? ==>
            && msg.inputTokens == Some(m.usage.value.inputTokens)
            && msg.outputTokens == Some(m.usage.value.outputTokens)
            && msg.cacheCreationTokens == m.usage.value.cacheCreationInputTokens
            && msg.cacheReadTokens == m.usage.value.cacheReadInputTokens)
  {
    ContentRoundTrip(e.message.value.content);
    FlagsMean(e.message.value.content);
  }

  /** The thinking object of the test's content array. */
  lemma ThinkingObjectDecodes()
    ensures DecodeItem(JObject(map["type" := JString("thinking"), "thinking" := JString("Let me think...")]))
            == Ok(Thinking("Let me think...", None))
  {
    var f := map["type" := JString("thinking"), "thinking" := JString("Let me think...")];
    assert StringField(f, "type") == Ok("thinking");
    assert StringField(f, "thinking") == Ok("Let me think...");
    assert OptionalStringField(f, "signature") == Ok(None);
  }

  /** The text object of the test's content array. */
  lemma TextObjectDecodes()
    ensures DecodeItem(JObject(map["type" := JString("text"), "text" := JString("Here's my response")]))
            == Ok(Text("Here's my response"))
  {
    var f := map["type" := JString("text"), "text" := JString("Here's my response")];
    assert "type" != "text" by { assert "type"[1] != "text"[1]; }
    assert StringField(f, "type") == Ok("text");
    assert StringField(f, "text") == Ok("Here's my response");
  }

  /** The content array of the assistant entry with a thinking block and a
      text block decodes to exactly those two blocks. */
  lemma ThinkingContentDecodes()
    ensures DeserializeContent(JArray([
              JObject(map["type" := JString("thinking"), "thinking" := JString("Let me think...")]),
              JObject(map["type" := JString("text"), "text" := JString("Here's my response")])]))
            == Ok([Thinking("Let me think...", None), Text("Here's my response")])
  {
    var o0 := JObject(map["type" := JString("thinking"), "thinking" := JString("Let me think...")]);
    var o1 := JObject(map["type" := JString("text"), "text" := JString("Here's my response")]);
    var c0, c1 := Thinking("Let me think...", None), Text("Here's my response");
    ThinkingObjectDecodes();
    TextObjectDecodes();
    var tail := [o1];
    assert tail[1..] == [];
    assert DecodeElements(tail[1..]) == Ok([]);
    assert [c1] + [] == [c1];
    assert DecodeElements(tail) == Ok([c1]);
    var elems := [o0] + tail;
    assert elems[0] == o0 && elems[1..] == tail;
    assert DecodeElements(elems) == Ok([c0] + [c1]);
    assert elems == [o0, o1];
    assert [c0] + [c1] == [c0, c1];
  }

  /** The assistant entry with a thinking block and a text block, its
      content decoded by ThinkingContentDecodes: the message is produced,
      flags the thinking, and its merged text holds the thinking text. */
  lemma AssistantWithThinkingExample()
    ensures
      var items := [Thinking("Let me think...", None), Text("Here's my response")];
      var m := MessageObject("assistant", items, None, None, None, None);
      var e := RawLogEntry("assistant", Some("456"), None, Some("abc"), Some("2024-01-01T10:00:01Z"),
                           Some(m), None, None, None, None, None, None);
      var r := EntryToMessage(e);
      r.Some? && r.value.hasThinking && Contains(r.value.content, "Let me think...")
  {
    var items := [Thinking("Let me think...", None), Text("Here's my response")];
    ExtractTextContentContains(items, 0);
  }
}
