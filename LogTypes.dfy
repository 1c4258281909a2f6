/** The records of a session log (one JSON object per line) and the two
    records the parser hands to its caller: one message of a transcript and
    the summary of a whole session. Counters and token counts are `int`; the
    32-bit width of the original is not modelled. */
module LogTypes {
  import opened Wrappers

  /** A decoded JSON value. Objects are maps, as in serde_json's `Value`.
      Numbers are unbounded integers: the token counts the core reads are
      `i32`, and the numbers inside tool inputs and tool results (serde_json's
      64-bit integers and floats) are carried along without being read. */
  datatype Json =
    | JNull
    | JBool(b: bool)
    | JNumber(n: int)
    | JString(s: string)
    | JArray(elems: seq<Json>)
    | JObject(fields: map<string, Json>)

  /** Where an image block's data comes from. */
  datatype ImageSource = ImageSource(sourceType: string, mediaType: string, data: string)

  /** One block of a message's content, tagged on the JSON field "type". */
  datatype ContentItem =
    | Text(text: string)
    | Thinking(thinking: string, signature: Option<string>)
    | ToolUse(id: string, name: string, input: Json)
    | ToolResult(toolUseId: string, resultContent: Json, isError: Option<bool>)
    | Image(source: ImageSource)

  /** Token accounting reported with an assistant message. */
  datatype TokenUsage = TokenUsage(
    inputTokens: int,
    outputTokens: int,
    cacheCreationInputTokens: Option<int>,
    cacheReadInputTokens: Option<int>)

  /** The "message" object of a log entry; its content has already been
      normalised to a list of blocks. */
  datatype MessageObject = MessageObject(
    role: string,
    content: seq<ContentItem>,
    model: Option<string>,
    id: Option<string>,
    stopReason: Option<string>,
    usage: Option<TokenUsage>)

  /** One line of a session log, as decoded from JSON. */
  datatype RawLogEntry = RawLogEntry(
    entryType: string,
    uuid: Option<string>,
    parentUuid: Option<string>,
    sessionId: Option<string>,
    timestamp: Option<string>,
    message: Option<MessageObject>,
    summary: Option<string>,
    leafUuid: Option<string>,
    isSidechain: Option<bool>,
    userType: Option<string>,
    cwd: Option<string>,
    version: Option<string>)

  /** A transcript message as shown by the viewer. `rawContent` is the full
      block list the viewer receives serialised as JSON (the serialisation is
      `Content.EncodeContent`). */
  datatype ClaudeMessage = ClaudeMessage(
    messageId: string,
    sessionId: string,
    role: string,
    content: string,
    timestamp: string,
    rawContent: seq<ContentItem>,
    hasThinking: bool,
    hasToolUse: bool,
    hasImages: bool,
    parentId: Option<string>,
    model: Option<string>,
    stopReason: Option<string>,
    inputTokens: Option<int>,
    outputTokens: Option<int>,
    cacheCreationTokens: Option<int>,
    cacheReadTokens: Option<int>,
    isSidechain: Option<bool>,
    userType: Option<string>)

  /** Lightweight statistics of one session file. */
  datatype ClaudeSession = ClaudeSession(
    sessionId: string,
    filePath: string,
    messageCount: int,
    userMessageCount: int,
    assistantMessageCount: int,
    firstTimestamp: Option<string>,
    lastTimestamp: Option<string>,
    totalInputTokens: Option<int>,
    totalOutputTokens: Option<int>,
    hasThinking: bool,
    hasToolUse: bool,
    cwd: Option<string>)

  /** One line delivered by the buffered reader: its text (without the line
      terminator) or the I/O error reading it produced. */
  datatype LineRead = Read(text: string) | Unreadable(reason: string)
}
