# Session-log parser of the Claude Code history viewer, in Dafny

The native half of the history viewer reads Claude Code session files. A
session file is a JSON Lines log with one entry per line: user and assistant
turns, summaries, snapshots and so on. From it the parser builds two views:

- the **transcript** (`parse_claude_session`): one message per user or
  assistant entry that carries a message body, in file order;
- the **summary** (`get_session_summary`): turn counts, first and last
  timestamps, token totals, whether the assistant thought or called tools,
  the session id and the working directory.

It also exports two plain line readers (`read_lines`,
`read_lines_with_pattern`).

This project models that parser and proves what each view says about the
file. A file is a sequence of lines. The reader either delivered each line
(`Read(text)`) or failed on it (`Unreadable(reason)`). Decoding one line of
JSON into a log entry is a parameter `parse: string -> Option<RawLogEntry>`,
which returns `None` for a line the decoder rejects. Once those are fixed,
every statement below holds for every file and every decoder.

Modules, in dependency order:

- `Wrappers`: `Option` and `Result`.
- `LogTypes`: the records of the log (`ContentItem`, `ImageSource`,
  `TokenUsage`, `MessageObject`, `RawLogEntry`), the two records handed to
  the viewer (`ClaudeMessage`, `ClaudeSession`), JSON values (`Json`) and
  delivered lines (`LineRead`).
- `Strings`: `trim().is_empty()` as `Blank` (every character has the
  Unicode White_Space property), `contains` and `join`.
- `Content`:
  - the `content` field of a message: a string is one text block, an array
    is decoded block by block through the tagged-enum decoder, and anything
    else is an error;
  - the serialiser of blocks, with its round trip;
  - the merged text and the three content flags.
- `Messages`: `entry_to_message`.
- `SessionLines`: the decoded entries of a file (`Entries`). Lines that
  were not read, blank lines and lines the decoder rejects contribute
  nothing.
- `Diagnostics`: the 100-byte preview of a line the decoder rejects, as
  written (it can panic) and as intended (cut at a character boundary).
- `Transcript`:
  - `parse_claude_session` as a loop proved against `Converted(Entries(..))`;
  - the warnings it prints for rejected lines;
  - the first unreadable line, which aborts the call.
- `Summary`:
  - one reference function per statistic;
  - `get_session_summary` as a loop over a record of running totals
    (`Tally`), proved to produce `SummaryOf(Entries(..))`.
- `LineFilters`: `read_lines` and `read_lines_with_pattern`.

## Model

| member | source | states |
|---|---|---|
| Content.DecodeEncodeItem | native/src/lib.rs:18-53 | Decoding the JSON object that a block serialises to gives back the same block. This holds for all five variants: the tag is read from "type", and absent optional fields (`signature`, `is_error`) are skipped on output. |
| Content.ImageSourceArrayForm | native/src/lib.rs:55-62 | An image source written as an array of its three strings decodes to the same source as the object form; an array of any other length than three is an error. |
| Content.DecodeElements | native/src/lib.rs:112-118 | An array decodes exactly when every element decodes. The result has one block per element, in order. On failure, the error is that of the first element that fails. |
| Content.DeserializeContent | native/src/lib.rs:99-122 | A string becomes exactly one text block carrying that string. An array decodes element by element, as above. Any other JSON kind is the error "Content must be string or array". |
| Content.ContentRoundTrip | native/src/lib.rs:274 | Deserialising the JSON array that a block list serialises to gives back the same list, so the raw content kept with a message loses nothing. |
| Content.TextPartsMembers | native/src/lib.rs:234-242 | Every text block and every thinking block contributes its rendering to the merged parts. A thinking block is rendered with the "[Thinking]\n" prefix. Every part comes from such a block; tool use, tool results and images contribute nothing. |
| Content.TextPartsAppend | native/src/lib.rs:234-242 | The parts of a concatenation of block lists are the parts of each half, in block order. |
| Content.ExtractTextContentAppend | native/src/lib.rs:234-244 | The merged text of a concatenation is the merged text of the half that has any text, or both halves joined by exactly one "\n\n". |
| Content.ExtractTextContentContains | native/src/lib.rs:234-244 | The text of every text block occurs in the merged text. For every thinking block, both its prefixed text and its bare text occur in the merged text. |
| Content.AnyItemMeans | native/src/lib.rs:247-259 | The block scan holds exactly when some block is of the given kind. |
| Content.FlagsMean | native/src/lib.rs:247-259 | `has_thinking`, `has_tool_use` and `has_images` each hold exactly when some block is a thinking block, a tool call, or an image, respectively. |
| Messages.EntryToMessage | native/src/lib.rs:262-268 | A message is produced exactly when the entry type is "user" or "assistant" and the entry carries a message body. |
| Messages.EntryToMessageFields | native/src/lib.rs:268-312 | For a produced message:<br>- a missing uuid, session id or timestamp reads "unknown", and a present one is copied;<br>- the merged text and the three flags come from the content blocks, and each flag holds exactly when a block of its kind exists;<br>- the raw content is the full block list, and its JSON decodes back to it;<br>- role, parent id, model, stop reason, sidechain and user type are passed through;<br>- the four token fields are all absent when usage is absent, and otherwise carry the usage counts. |
| Messages.ThinkingContentDecodes | native/src/lib.rs:549-558 | The content array of the test's assistant entry, a thinking object and a text object, decodes to a thinking block without signature followed by a text block. |
| Messages.AssistantWithThinkingExample | native/src/lib.rs:543-561 | The assistant entry with a thinking block and a text block converts to a message that is flagged as thinking and whose merged text contains "Let me think...". |
| SessionLines.EntriesMembers | native/src/lib.rs:328-339 | Every decoded entry comes from a line that was read, is not blank and decodes. Every such line contributes its entry. |
| SessionLines.EntriesAppend | native/src/lib.rs:328-339 | The entries of two consecutive stretches of lines are the entries of each stretch, in line order. |
| Transcript.CollectAppend | native/src/lib.rs:338-343 | Collecting the messages of a concatenation of entry lists gives the messages of each part, in order. |
| Transcript.CollectFrom | native/src/lib.rs:338-343 | Every collected message is the conversion of one of the entries. |
| Transcript.CollectKeeps | native/src/lib.rs:338-343 | Every entry that converts has its message collected. |
| Transcript.TranscriptMembers | native/src/lib.rs:338-343 | A message is in the transcript exactly when some user or assistant entry with a message body converts to it. |
| Transcript.FirstUnreadableMeans | native/src/lib.rs:328-331 | The search for the first unreadable line finds nothing exactly when every line was read. When it finds a line, that line failed and every line before it was read. |
| Transcript.FirstUnreadableExtend | native/src/lib.rs:328-331 | Once a stretch of lines holds a failed line, lines appended after it do not change which failed line is first. |
| Transcript.RejectedFrom | native/src/lib.rs:344-347 | Every printed warning names, counting from 1, a line that was read, is not blank and was rejected by the decoder, and carries the preview of that line. |
| Transcript.RejectedKeeps | native/src/lib.rs:344-347 | Every line that was read, is not blank and was rejected by the decoder gets a warning with its number and preview. |
| Transcript.ParseClaudeSession | native/src/lib.rs:321-353 | If every line is read, the result is the in-order conversion of the decoded entries. Blank lines and lines the decoder rejects are skipped without failing, and a warning is printed for each rejected line. If some line fails, the result is that line's error, numbered from 1, after the warnings for the rejected lines before it. |
| Transcript.TranscriptLength | native/src/lib.rs:333-343 | The transcript has at most one message per line that was read and is not blank. |
| Transcript.TranscriptAppend | native/src/lib.rs:326-352 | The transcript of a file made of two stretches of lines is the transcript of the first stretch followed by that of the second. |
| Summary.FirstOfNone | native/src/lib.rs:424-427 | A first-seen slot (first timestamp, working directory) stays empty exactly when no entry has a value for it. |
| Summary.FirstOfIsFirst | native/src/lib.rs:388-392 | A first-seen slot holds the value of the earliest entry that has one. |
| Summary.LastOfNone | native/src/lib.rs:424-428 | A last-seen slot (session id, last timestamp) stays empty exactly when no entry has a value for it. |
| Summary.LastOfIsLast | native/src/lib.rs:383-386 | A last-seen slot holds the value of the latest entry that has one. |
| Summary.TurnsAreUsersPlusAssistants | native/src/lib.rs:395-421 | The message count equals the user count plus the assistant count. |
| Summary.CountTypeAppend | native/src/lib.rs:395-421 | The count of entries of one type splits over two stretches of entries. |
| Summary.SumTokensAppend | native/src/lib.rs:405-409 | A token total splits over two stretches of entries. |
| Summary.AssistantHasMeans | native/src/lib.rs:405-418 | The thinking and tool-use flags hold exactly when some assistant entry with a message has content of that kind, so a flag set by one entry stays set for the rest of the scan. |
| Summary.TranscriptWithinSummary | native/src/lib.rs:395-421 | The transcript of a file never has more messages than the summary's message count for the same file. |
| Summary.Positive | native/src/lib.rs:442-443 | A token total is reported exactly when it is greater than zero, and then with its value. |
| Summary.SummaryOfMeans | native/src/lib.rs:363-447 | The summary of a file states:<br>- the message count is users plus assistants;<br>- the first and last timestamps are both present or both absent, and absent exactly when no entry has a timestamp;<br>- the working directory is absent exactly when no entry has one;<br>- the session id is "unknown" when no entry has one;<br>- any reported token total is positive;<br>- each flag holds exactly when an assistant entry has content of that kind;<br>- the transcript is no longer than the message count. |
| Summary.TallyOfSnoc | native/src/lib.rs:381-429 | The running totals after one more decoded entry are the totals so far, advanced by one step of the scan. |
| Summary.CountMessage | native/src/lib.rs:395-421 | The per-type branch of the scan adds exactly that step's change to the counters, the token totals and the flags. |
| Summary.Absorb | native/src/lib.rs:382-429 | Folding one entry into the totals performs exactly one step of the scan:<br>- session id: last seen;<br>- working directory: first seen;<br>- counts, totals and flags: as in the per-type branch;<br>- timestamps: first and last seen. |
| Summary.GetSessionSummary | native/src/lib.rs:357-448 | The summary the scan returns is the summary of the file's decoded entries. Lines that fail, blank lines and lines the decoder rejects are skipped, and nothing aborts the scan. |
| Diagnostics.PreviewMeans | native/src/lib.rs:347 | The corrected preview is the longest prefix of the line whose UTF-8 encoding fits in 100 bytes, and it equals the preview as written whenever that one does not panic. |
| Diagnostics.TakeBytesLongestPrefix | native/src/lib.rs:347 | Cutting a line to a byte budget gives a prefix that fits, and the next character would not fit. |
| Diagnostics.PreviewAsWrittenPanics | native/src/lib.rs:347 | The preview as written panics on every line in which a multi-byte character starts before byte 100 and ends after it. |
| Diagnostics.EuroAtByte99Panics | native/src/lib.rs:347 | The preview as written panics on 99 ASCII letters followed by the euro sign. |
| LineFilters.ReadLinesMembers | native/src/lib.rs:466-478 | A text is returned exactly when it is not blank and some line delivered it. |
| LineFilters.ReadLinesWithPatternMembers | native/src/lib.rs:481-493 | A text is returned exactly when it contains the pattern and some line delivered it. |
| LineFilters.ReadLinesAppend | native/src/lib.rs:466-478 | Filtering preserves line order: the result for two stretches of lines is the result for each, concatenated. |
| LineFilters.ReadLinesWithPatternAppend | native/src/lib.rs:481-493 | The same holds for the pattern filter. |
| LineFilters.EmptyPatternKeepsAll | native/src/lib.rs:481-493 | With the empty pattern, every delivered line is returned, blank lines included. |

## Left out

- Opening the file (`File::open`) and its "Cannot open file" error: operating-system I/O. A file is given as its sequence of delivered lines.
- JSON text parsing (`parse_jsonl_line`, `serde_json::from_str`): a foreign library. It is the parameter `parse`. The JSON form of a block list is modelled as `Json` values (`Content.EncodeContent`), not as text.
- The wording of the decoder's error messages: the model's messages are close to serde's but not identical. Blocks written as JSON arrays instead of objects (tag first, then the variant's fields) are not modelled; an image source written as an array is.
- `ClaudeMessage.raw_content`: kept as the block list itself, not as its JSON text. Its serialisation is `Content.EncodeContent`, and `Content.ContentRoundTrip` shows that nothing is lost. The `unwrap_or_default` fallback cannot fire for these blocks and is not modelled.
- JSON numbers are unbounded integers. The only numbers the parser reads are the token counts, which are `i32`. The numbers inside tool inputs and tool results are serde_json's 64-bit integers or floats; they are carried along unread, and floats among them are not represented.
- Summary.SumTokens: the token totals and the counters are unbounded `int`. The 32-bit wrap-around (release builds) or panic (debug builds) of the `i32` sums is not modelled.
- Summary.GetSessionSummary: inherits the unbounded counters of `Summary.SumTokens`.
- Transcript.ParseClaudeSession: the preview of a rejected line (`&line[..line.len().min(100)]`) panics when byte 100 falls inside a multi-byte UTF-8 character, so such a line aborts the call instead of being skipped. The model treats every rejected line as skipped and reports it with the corrected preview `Diagnostics.Preview`; the panic is shown by `Diagnostics.PreviewAsWrittenPanics` (see Findings).
- Transcript.ParseClaudeSession: the warnings carry the line number and preview but not the text of serde's error.
- Summary.GetSessionSummary: a file is a finite sequence of lines, so the model assumes the reader reaches end of file. A reader that keeps failing (on Linux, a directory opens and then every read fails) makes the source loop forever, because the scan skips a failed line and reads again. Only `parse_claude_session` stops at a failed line.
- LineFilters.ReadLines: assumes the reader reaches end of file, as for `Summary.GetSessionSummary`. A reader that keeps failing makes `read_lines` loop forever.
- LineFilters.ReadLinesWithPattern: assumes the reader reaches end of file. A reader that keeps failing makes `read_lines_with_pattern` loop forever.
- `count_lines` and `get_file_info`: filesystem metadata and string formatting.
- The napi export layer: foreign-function plumbing.
- The TypeScript project scanner, the project-name decoder and the session sort are not part of this model.

## Findings

| source | as written | input that shows it | evidently intended | confidence | as-written member | corrected member |
|---|---|---|---|---|---|---|
| native/src/lib.rs:347 | the preview slices the rejected line at byte `min(len, 100)`, which panics off a character boundary | a line the decoder rejects made of 99 ASCII characters followed by `€` | cut at the last character boundary at or before byte 100, so the line is skipped | high; not executed | Diagnostics.EuroAtByte99Panics | Diagnostics.PreviewMeans |
