/** Message content: normalising the JSON "content" field to a list of
    blocks, serialising blocks back to JSON, and the queries the transcript
    and the summary ask of a block list (merged text, thinking, tool use,
    images). */
module Content {
  import opened Wrappers
  import opened LogTypes
  import opened Strings

  /** The error a content field of any other JSON kind produces. */
  const ContentShapeError: string := "Content must be string or array"

  /** The separator the merged text puts between two blocks. */
  const BlockSeparator: string := "\n\n"

  /** The marker put in front of a thinking block's text. */
  const ThinkingPrefix: string := "[Thinking]\n"

  // ---------------------------------------------------------------------
  // Decoding one block (the derived deserializer of the tagged enum)
  // ---------------------------------------------------------------------

  /** A required string field of a block object. */
  function StringField(fields: map<string, Json>, key: string): Result<string, string>
  {
    if key !in fields then Err("missing field `" + key + "`")
    else match fields[key]
      case JString(s) => Ok(s)
      case _ => Err("invalid type for field `" + key + "`, expected a string")
  }

  /** A required field holding any JSON value. */
  function ValueField(fields: map<string, Json>, key: string): Result<Json, string>
  {
    if key !in fields then Err("missing field `" + key + "`") else Ok(fields[key])
  }

  /** An optional string field: absent and null both read as None. */
  function OptionalStringField(fields: map<string, Json>, key: string): Result<Option<string>, string>
  {
    if key !in fields then Ok(None)
    else match fields[key]
      case JNull => Ok(None)
      case JString(s) => Ok(Some(s))
      case _ => Err("invalid type for field `" + key + "`, expected a string")
  }

  /** An optional boolean field: absent and null both read as None. */
  function OptionalBoolField(fields: map<string, Json>, key: string): Result<Option<bool>, string>
  {
    if key !in fields then Ok(None)
    else match fields[key]
      case JNull => Ok(None)
      case JBool(b) => Ok(Some(b))
      case _ => Err("invalid type for field `" + key + "`, expected a boolean")
  }

  /** One element of a struct written as an array: it must be a string. */
  function StringElement(v: Json): Result<string, string>
  {
    match v
    case JString(s) => Ok(s)
    case _ => Err("invalid type: expected a string")
  }

  /** The "source" of an image block. A derived struct decodes from an
      object by field name, or from an array holding exactly its fields in
      declaration order. */
  function DecodeImageSource(v: Json): Result<ImageSource, string>
  {
    match v
    case JObject(f) =>
      var sourceType :- StringField(f, "type");
      var mediaType :- StringField(f, "media_type");
      var data :- StringField(f, "data");
      Ok(ImageSource(sourceType, mediaType, data))
    case JArray(elems) =>
      if |elems| != 3 then Err("invalid length, expected struct ImageSource with 3 elements")
      else
        var sourceType :- StringElement(elems[0]);
        var mediaType :- StringElement(elems[1]);
        var data :- StringElement(elems[2]);
        Ok(ImageSource(sourceType, mediaType, data))
    case _ => Err("invalid type: expected struct ImageSource")
  }

  /** An image source written as an array of its three strings decodes to
      the same source as the object form, and an array of any other length
      is an error. */
  lemma ImageSourceArrayForm(src: ImageSource, elems: seq<Json>)
    ensures DecodeImageSource(JArray([JString(src.sourceType), JString(src.mediaType), JString(src.data)]))
            == Ok(src)
    ensures |elems| != 3 ==> DecodeImageSource(JArray(elems)).Err?
  {
  }

  /** One block, chosen by its "type" tag; unknown fields are ignored. */
  function DecodeItem(v: Json): Result<ContentItem, string>
  {
    match v
    case JObject(f) =>
      var tag :- StringField(f, "type");
      if tag == "text" then
        var text :- StringField(f, "text");
        Ok(Text(text))
      else if tag == "thinking" then
        var thinking :- StringField(f, "thinking");
        var signature :- OptionalStringField(f, "signature");
        Ok(Thinking(thinking, signature))
      else if tag == "tool_use" then
        var id :- StringField(f, "id");
        var name :- StringField(f, "name");
        var input :- ValueField(f, "input");
        Ok(ToolUse(id, name, input))
      else if tag == "tool_result" then
        var toolUseId :- StringField(f, "tool_use_id");
        var content :- ValueField(f, "content");
        var isError :- OptionalBoolField(f, "is_error");
        Ok(ToolResult(toolUseId, content, isError))
      else if tag == "image" then
        var source :- ValueField(f, "source");
        var src :- DecodeImageSource(source);
        Ok(Image(src))
      else
        Err("unknown variant `" + tag + "`")
    case _ => Err("invalid type: expected internally tagged enum ContentItem")
  }

  // ---------------------------------------------------------------------
  // Encoding one block (the derived serializer); None fields are skipped
  // ---------------------------------------------------------------------

  function OptionalString(key: string, o: Option<string>): map<string, Json>
  {
    if o.Some? then map[key := JString(o.value)] else map[]
  }

  function OptionalBool(key: string, o: Option<bool>): map<string, Json>
  {
    if o.Some? then map[key := JBool(o.value)] else map[]
  }

  function EncodeItem(c: ContentItem): Json
  {
    match c
    case Text(text) =>
      JObject(map["type" := JString("text"), "text" := JString(text)])
    case Thinking(thinking, signature) =>
      JObject(map["type" := JString("thinking"), "thinking" := JString(thinking)]
              + OptionalString("signature", signature))
    case ToolUse(id, name, input) =>
      JObject(map["type" := JString("tool_use"), "id" := JString(id),
                  "name" := JString(name), "input" := input])
    case ToolResult(toolUseId, content, isError) =>
      JObject(map["type" := JString("tool_result"), "tool_use_id" := JString(toolUseId),
                  "content" := content]
              + OptionalBool("is_error", isError))
    case Image(src) =>
      JObject(map["type" := JString("image"),
                  "source" := JObject(map["type" := JString(src.sourceType),
                                          "media_type" := JString(src.mediaType),
                                          "data" := JString(src.data)])])
  }

  /** Decoding undoes encoding, block by block. */
  lemma DecodeEncodeItem(c: ContentItem)
    ensures DecodeItem(EncodeItem(c)) == Ok(c)
  {
    match c
    case Text(_) => DecodeEncodeText(c);
    case Thinking(_, _) => DecodeEncodeThinking(c);
    case ToolUse(_, _, _) => DecodeEncodeToolUse(c);
    case ToolResult(_, _, _) => DecodeEncodeToolResult(c);
    case Image(_) => DecodeEncodeImage(c);
  }

  lemma DecodeEncodeText(c: ContentItem)
    requires c.Text?
    ensures DecodeItem(EncodeItem(c)) == Ok(c)
  {
    var f := map["type" := JString("text"), "text" := JString(c.text)];
    assert "type" != "text" by { assert "type"[1] != "text"[1]; }
    assert f["type"] == JString("text");
    assert StringField(f, "type") == Ok("text");
    assert StringField(f, "text") == Ok(c.text);
  }

  lemma DecodeEncodeThinking(c: ContentItem)
    requires c.Thinking?
    ensures DecodeItem(EncodeItem(c)) == Ok(c)
  {
    var f := map["type" := JString("thinking"), "thinking" := JString(c.thinking)]
             + OptionalString("signature", c.signature);
    assert StringField(f, "type") == Ok("thinking");
    assert StringField(f, "thinking") == Ok(c.thinking);
    assert OptionalStringField(f, "signature") == Ok(c.signature);
  }

  lemma DecodeEncodeToolUse(c: ContentItem)
    requires c.ToolUse?
    ensures DecodeItem(EncodeItem(c)) == Ok(c)
  {
    var f := map["type" := JString("tool_use"), "id" := JString(c.id),
                 "name" := JString(c.name), "input" := c.input];
    assert "type" != "name" by { assert "type"[0] != "name"[0]; }
    assert StringField(f, "type") == Ok("tool_use");
    assert StringField(f, "id") == Ok(c.id);
    assert StringField(f, "name") == Ok(c.name);
    assert ValueField(f, "input") == Ok(c.input);
  }

  lemma DecodeEncodeToolResult(c: ContentItem)
    requires c.ToolResult?
    ensures DecodeItem(EncodeItem(c)) == Ok(c)
  {
    var f := map["type" := JString("tool_result"), "tool_use_id" := JString(c.toolUseId),
                 "content" := c.resultContent]
             + OptionalBool("is_error", c.isError);
    assert StringField(f, "type") == Ok("tool_result");
    assert StringField(f, "tool_use_id") == Ok(c.toolUseId);
    assert ValueField(f, "content") == Ok(c.resultContent);
    assert OptionalBoolField(f, "is_error") == Ok(c.isError);
  }

  lemma DecodeEncodeImage(c: ContentItem)
    requires c.Image?
    ensures DecodeItem(EncodeItem(c)) == Ok(c)
  {
    var src := c.source;
    var inner := map["type" := JString(src.sourceType),
                     "media_type" := JString(src.mediaType),
                     "data" := JString(src.data)];
    var f := map["type" := JString("image"), "source" := JObject(inner)];
    assert "type" != "data" by { assert "type"[0] != "data"[0]; }
    assert StringField(inner, "type") == Ok(src.sourceType);
    assert StringField(inner, "media_type") == Ok(src.mediaType);
    assert StringField(inner, "data") == Ok(src.data);
    assert DecodeImageSource(JObject(inner)) == Ok(src);
    assert StringField(f, "type") == Ok("image");
    assert ValueField(f, "source") == Ok(JObject(inner));
  }

  // ---------------------------------------------------------------------
  // The content field
  // ---------------------------------------------------------------------

  /** Decodes an array element by element; the first element that fails
      fails the whole array, as collecting into a Result does. */
  function DecodeElements(elems: seq<Json>): (r: Result<seq<ContentItem>, string>)
    ensures r.Ok? <==> forall i :: 0 <= i < |elems| ==> DecodeItem(elems[i]).Ok?
    ensures r.Ok? ==> |r.value| == |elems| &&
                      forall i :: 0 <= i < |elems| ==> DecodeItem(elems[i]) == Ok(r.value[i])
    ensures r.Err? ==> exists i :: 0 <= i < |elems| && DecodeItem(elems[i]) == Err(r.error) &&
                                   forall j :: 0 <= j < i ==> DecodeItem(elems[j]).Ok?
  {
    if |elems| == 0 then Ok([])
    else
      match DecodeItem(elems[0])
      case Err(e) => Err(e)
      case Ok(c) =>
        match DecodeElements(elems[1..])
        case Err(e) =>
          assert forall j :: 1 <= j < |elems| ==> elems[1..][j - 1] == elems[j];
          Err(e)
        case Ok(cs) =>
          assert forall j :: 1 <= j < |elems| ==> elems[1..][j - 1] == elems[j];
          Ok([c] + cs)
  }

  /** The content field of a message: a string is one text block, an array
      is a list of blocks, anything else is an error. */
  function DeserializeContent(v: Json): (r: Result<seq<ContentItem>, string>)
    ensures v.JString? ==> r == Ok([Text(v.s)])
    ensures v.JArray? ==> (r.Ok? <==> forall i :: 0 <= i < |v.elems| ==> DecodeItem(v.elems[i]).Ok?)
    ensures v.JArray? && r.Ok? ==>
              |r.value| == |v.elems| &&
              forall i :: 0 <= i < |v.elems| ==> DecodeItem(v.elems[i]) == Ok(r.value[i])
    ensures v.JArray? && r.Err? ==> exists i :: 0 <= i < |v.elems| && DecodeItem(v.elems[i]) == Err(r.error)
    ensures !v.JString? && !v.JArray? ==> r == Err(ContentShapeError)
  {
    match v
    case JString(s) => Ok([Text(s)])
    case JArray(elems) => DecodeElements(elems)
    case _ => Err(ContentShapeError)
  }

  /** The JSON values of a block list, element by element. */
  function EncodeItems(items: seq<ContentItem>): (r: seq<Json>)
    ensures |r| == |items|
  {
    if |items| == 0 then [] else [EncodeItem(items[0])] + EncodeItems(items[1..])
  }

  /** The JSON array a block list serialises to. */
  function EncodeContent(items: seq<ContentItem>): Json
  {
    JArray(EncodeItems(items))
  }

  /** Decoding the encoded elements gives back the blocks. */
  lemma {:induction false} DecodeEncodeItems(items: seq<ContentItem>)
    ensures DecodeElements(EncodeItems(items)) == Ok(items)
    decreases |items|
  {
    if |items| > 0 {
      var elems := EncodeItems(items);
      DecodeEncodeItem(items[0]);
      DecodeEncodeItems(items[1..]);
      assert elems[1..] == EncodeItems(items[1..]);
      assert [items[0]] + items[1..] == items;
    }
  }

  /** Reading back the serialised content gives the same blocks. */
  lemma ContentRoundTrip(items: seq<ContentItem>)
    ensures DeserializeContent(EncodeContent(items)) == Ok(items)
  {
    DecodeEncodeItems(items);
  }

  // ---------------------------------------------------------------------
  // Queries
  // ---------------------------------------------------------------------

  /** The text a block contributes to the merged text, if any. */
  function Rendered(c: ContentItem): Option<string>
  {
    match c
    case Text(text) => Some(text)
    case Thinking(thinking, _) => Some(ThinkingPrefix + thinking)
    case _ => None
  }

  /** The rendered texts of the text and thinking blocks, in block order. */
  function TextParts(items: seq<ContentItem>): (r: seq<string>)
    ensures |r| <= |items|
  {
    if |items| == 0 then []
    else
      var rest := TextParts(items[1..]);
      match Rendered(items[0])
      case Some(p) => [p] + rest
      case None => rest
  }

  /** Every text or thinking block has its rendering among the parts, and
      every part is the rendering of some block. */
  lemma {:induction false} TextPartsMembers(items: seq<ContentItem>)
    ensures forall i :: 0 <= i < |items| && Rendered(items[i]).Some? ==>
              Rendered(items[i]).value in TextParts(items)
    ensures forall p :: p in TextParts(items) ==>
              exists i :: 0 <= i < |items| && Rendered(items[i]) == Some(p)
    decreases |items|
  {
    if |items| > 0 {
      TextPartsMembers(items[1..]);
      assert forall j :: 1 <= j < |items| ==> items[1..][j - 1] == items[j];
    }
  }

  /** `extract_text_content`: the text and thinking blocks joined by a blank
      line, thinking blocks marked with their prefix. */
  function ExtractTextContent(items: seq<ContentItem>): string
  {
    Join(TextParts(items), BlockSeparator)
  }

  /** The parts of a concatenation are the parts of each side, in order. */
  lemma {:induction false} TextPartsAppend(a: seq<ContentItem>, b: seq<ContentItem>)
    ensures TextParts(a + b) == TextParts(a) + TextParts(b)
    decreases |a|
  {
    if |a| > 0 {
      assert (a + b)[0] == a[0];
      assert (a + b)[1..] == a[1..] + b;
      TextPartsAppend(a[1..], b);
    } else {
      assert a + b == b;
    }
  }

  /** Merging the text of a concatenation: blocks that contribute nothing
      (tool use, tool results, images) leave the text unchanged, and two
      contributing halves are joined by one separator. */
  lemma ExtractTextContentAppend(a: seq<ContentItem>, b: seq<ContentItem>)
    ensures TextParts(b) == [] ==> ExtractTextContent(a + b) == ExtractTextContent(a)
    ensures TextParts(a) == [] ==> ExtractTextContent(a + b) == ExtractTextContent(b)
    ensures TextParts(a) != [] && TextParts(b) != [] ==>
              ExtractTextContent(a + b) == ExtractTextContent(a) + BlockSeparator + ExtractTextContent(b)
  {
    TextPartsAppend(a, b);
    if TextParts(b) == [] {
      assert TextParts(a) + TextParts(b) == TextParts(a);
    }
    if TextParts(a) == [] {
      assert TextParts(a) + TextParts(b) == TextParts(b);
    }
    if TextParts(a) != [] && TextParts(b) != [] {
      JoinAppend(TextParts(a), TextParts(b), BlockSeparator);
    }
  }

  /** The text of every text block, and the marked text of every thinking
      block, occurs in the merged text. */
  lemma ExtractTextContentContains(items: seq<ContentItem>, i: nat)
    requires i < |items| && (items[i].Text? || items[i].Thinking?)
    ensures items[i].Text? ==> Contains(ExtractTextContent(items), items[i].text)
    ensures items[i].Thinking? ==>
              Contains(ExtractTextContent(items), ThinkingPrefix + items[i].thinking) &&
              Contains(ExtractTextContent(items), items[i].thinking)
  {
    var parts := TextParts(items);
    var p := Rendered(items[i]).value;
    TextPartsMembers(items);
    assert p in parts;
    var k :| 0 <= k < |parts| && parts[k] == p;
    JoinContainsPart(parts, BlockSeparator, k);
    if items[i].Thinking? {
      ContainsSuffixOfPattern(ExtractTextContent(items), ThinkingPrefix, items[i].thinking);
    }
  }

  /** The block kinds a message is flagged for. */
  datatype Kind = ThinkingBlock | ToolUseBlock | ImageBlock

  predicate IsKind(c: ContentItem, k: Kind) {
    match k
    case ThinkingBlock => c.Thinking?
    case ToolUseBlock => c.ToolUse?
    case ImageBlock => c.Image?
  }

  /** Whether some block is of kind `k`. */
  function AnyItem(items: seq<ContentItem>, k: Kind): bool
  {
    if |items| == 0 then false
    else IsKind(items[0], k) || AnyItem(items[1..], k)
  }

  /** `has_thinking`: some block is a thinking block. */
  function HasThinking(items: seq<ContentItem>): bool {
    AnyItem(items, ThinkingBlock)
  }

  /** `has_tool_use`: some block is a tool call. */
  function HasToolUse(items: seq<ContentItem>): bool {
    AnyItem(items, ToolUseBlock)
  }

  /** `has_images`: some block is an image. */
  function HasImages(items: seq<ContentItem>): bool {
    AnyItem(items, ImageBlock)
  }

  /** `AnyItem` holds exactly when some block is of kind `f`. */
  lemma {:induction false} AnyItemMeans(items: seq<ContentItem>, f: Kind)
    ensures AnyItem(items, f) <==> exists i :: 0 <= i < |items| && IsKind(items[i], f)
  {
    if |items| > 0 {
      AnyItemMeans(items[1..], f);
      assert forall j :: 1 <= j < |items| ==> items[1..][j - 1] == items[j];
      if AnyItem(items[1..], f) {
        var j :| 0 <= j < |items[1..]| && IsKind(items[1..][j], f);
        assert IsKind(items[j + 1], f);
      }
    }
  }

  /** Each flag holds exactly when some block is of its kind. */
  lemma FlagsMean(items: seq<ContentItem>)
    ensures HasThinking(items) <==> exists i :: 0 <= i < |items| && items[i].Thinking?
    ensures HasToolUse(items) <==> exists i :: 0 <= i < |items| && items[i].ToolUse?
    ensures HasImages(items) <==> exists i :: 0 <= i < |items| && items[i].Image?
  {
    AnyItemMeans(items, ThinkingBlock);
    AnyItemMeans(items, ToolUseBlock);
    AnyItemMeans(items, ImageBlock);
  }
}
