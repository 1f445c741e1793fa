// How the chat widget turns the typed text and the pending attachments into
// the conversation it sends to OpenRouter, and what `callDeepSeekAPI` makes
// of the answer (src/components/DeepSeekChatInterface.tsx).

module Assembly {
  import opened Wrappers
  import opened Strings
  import opened Ingest
  import opened Http
  import Config

  datatype Role = User | Assistant | System

  /** `{ role, content }` as it goes into the request body. */
  datatype Turn = Turn(role: Role, content: string)

  /** `ChatMessage` as the widget keeps it; the `timestamp` is left out. */
  datatype ChatMessage = ChatMessage(id: string, role: Role, content: string)

  /** The widget's `model` prop. */
  datatype ModelChoice = V3 | R1

  function ModelId(m: ModelChoice): string {
    match m
    case V3 => "deepseek-v3"
    case R1 => "deepseek-r1"
  }

  /** The OpenRouter model name sent for the prop. */
  function OpenRouterModel(m: ModelChoice): string {
    match m
    case V3 => "deepseek/deepseek-chat"
    case R1 => "deepseek/deepseek-r1"
  }

  const LanguageRule :=
    "Always respond in the same language as the user's input. If the user writes in German, respond in German. " +
    "If they write in English, respond in English. If they write in Urdu, Hindi, or any other language, " +
    "respond in that same language. Match the user's language exactly."

  const V3SystemPrompt := "You are DeepSeek V3, a helpful AI assistant. " + LanguageRule
  const R1SystemPrompt := "You are DeepSeek R1, a reasoning-focused AI assistant. " + LanguageRule

  function SystemPrompt(m: ModelChoice): string {
    if m == V3 then V3SystemPrompt else R1SystemPrompt
  }

  const V3Greeting := "Hallo! Ich bin ein KI-Chatbot, der von DeepSeek V3 betrieben wird."
  const R1Greeting := "Hallo! Ich bin ein KI-Chatbot, der von DeepSeek R1 betrieben wird."

  /** The assistant message the conversation starts with. */
  function Greeting(m: ModelChoice): string {
    if m == V3 then V3Greeting else R1Greeting
  }

  const Placeholder := "[Anhang hinzugefügt]"
  const NoReply := "Entschuldigung, ich konnte keine Antwort generieren."
  const KeyMissing := "API key not found for "
  const UpstreamError := "OpenRouter API Error: "
  const ErrorPrefix := "Fehler: "

  // ---------------------------------------------------------------------
  // The user's turn

  /** The guard of `handleSubmit`: there is something to send and no request
      is in flight. */
  predicate ShouldSubmit(input: string, attachmentCount: nat, isLoading: bool): (b: bool)
    ensures b <==> !isLoading && (!IsBlank(input) || attachmentCount > 0)
  {
    !((|Trim(input)| == 0 && attachmentCount == 0) || isLoading)
  }

  /** `input.trim() || (attachments.length ? "[Anhang hinzugefügt]" : "")`:
      the text shown as the user's message. */
  function UserContent(input: string, attachmentCount: nat): (r: string)
    ensures r == "" <==> IsBlank(input) && attachmentCount == 0
    ensures !IsBlank(input) ==> r == Trim(input)
    ensures IsBlank(input) && attachmentCount > 0 ==> r == Placeholder
  {
    var t := Trim(input);
    if t != "" then t else if attachmentCount > 0 then Placeholder else ""
  }

  /** A submission the guard lets through always shows a non-empty user
      message. */
  lemma AcceptedTurnNotEmpty(input: string, attachmentCount: nat, isLoading: bool)
    requires ShouldSubmit(input, attachmentCount, isLoading)
    ensures UserContent(input, attachmentCount) != ""
    ensures !isLoading
  {
  }

  // ---------------------------------------------------------------------
  // Document text and image summary

  /** The filter of `docText`: not an image, and `extractedText` is a
      non-empty string. */
  predicate CarriesText(a: Attachment) {
    a.kind != Image && a.extractedText.Some? && a.extractedText.value != ""
  }

  /** The attachments whose text is sent, in order. */
  function TextAttachments(atts: seq<Attachment>): (r: seq<Attachment>)
    ensures |r| <= |atts|
    ensures forall a :: a in r <==> a in atts && CarriesText(a)
    ensures |atts| == 1 ==> r == if CarriesText(atts[0]) then atts else []
  {
    if |atts| == 0 then []
    else (if CarriesText(atts[0]) then [atts[0]] else []) + TextAttachments(atts[1..])
  }

  /** Filtering works attachment by attachment, so the text attachments
      keep the order of the attachment list. */
  lemma {:induction false} TextAttachmentsAppend(a: seq<Attachment>, b: seq<Attachment>)
    ensures TextAttachments(a + b) == TextAttachments(a) + TextAttachments(b)
  {
    if |a| > 0 {
      var head := if CarriesText(a[0]) then [a[0]] else [];
      TextAttachmentsFirst(a, b);
      TextAttachmentsAppend(a[1..], b);
      ConcatAssoc(head, TextAttachments(a[1..]), TextAttachments(b));
    } else {
      assert a + b == b;
    }
  }

  lemma TextAttachmentsFirst(a: seq<Attachment>, b: seq<Attachment>)
    requires |a| > 0
    ensures TextAttachments(a + b) == (if CarriesText(a[0]) then [a[0]] else []) + TextAttachments(a[1..] + b)
  {
    assert (a + b)[0] == a[0] && (a + b)[1..] == a[1..] + b;
  }


  /** One document's block: a header line naming the file, then its text
      unchanged and complete. */
  function DocBlock(a: Attachment): (r: string)
    requires CarriesText(a)
    ensures StartsWith(r, "\n\n--- Datei: " + a.name + " ---\n")
    ensures EndsWith(r, a.extractedText.value)
    ensures |r| == |"\n\n--- Datei: " + a.name + " ---\n"| + |a.extractedText.value|
  {
    var header := "\n\n--- Datei: " + a.name + " ---\n";
    assert (header + a.extractedText.value)[..|header|] == header;
    assert (header + a.extractedText.value)[|header|..] == a.extractedText.value;
    header + a.extractedText.value
  }

  function DocBlocks(atts: seq<Attachment>): (r: seq<string>)
    ensures |r| == |TextAttachments(atts)|
    ensures forall i | 0 <= i < |r| :: r[i] != ""
    // block i is the block of the i-th text-carrying attachment
    ensures forall i | 0 <= i < |r| :: CarriesText(TextAttachments(atts)[i]) && r[i] == DocBlock(TextAttachments(atts)[i])
  {
    var t := TextAttachments(atts);
    assert forall i | 0 <= i < |t| :: t[i] in t;
    seq(|t|, i requires 0 <= i < |t| => DocBlock(t[i]))
  }

  /** The blocks follow the order of the attachment list. */
  lemma DocBlocksAppend(a: seq<Attachment>, b: seq<Attachment>)
    ensures DocBlocks(a + b) == DocBlocks(a) + DocBlocks(b)
  {
    TextAttachmentsAppend(a, b);
    var ta, tb := TextAttachments(a), TextAttachments(b);
    assert TextAttachments(a + b) == ta + tb;
    var ba, bb := DocBlocks(a), DocBlocks(b);
    forall i | 0 <= i < |ba| + |bb| ensures DocBlocks(a + b)[i] == (ba + bb)[i] {
      if i < |ba| {
        assert (ta + tb)[i] == ta[i];
      } else {
        assert (ta + tb)[i] == tb[i - |ba|];
      }
    }
  }

  /** `docText`: one block per text-carrying attachment, joined by a blank
      line. It is empty exactly when no attachment carries text. */
  function DocText(atts: seq<Attachment>): (r: string)
    ensures r == "" <==> forall a | a in atts :: !CarriesText(a)
  {
    var blocks := DocBlocks(atts);
    JoinEmptyIff("\n\n", blocks);
    var t := TextAttachments(atts);
    assert t != [] ==> t[0] in t;
    Join("\n\n", blocks)
  }

  /** The document text of two attachment lists is theirs in order, with a
      blank line between them when both are non-empty. */
  lemma DocTextAppend(a: seq<Attachment>, b: seq<Attachment>)
    ensures DocText(a + b) ==
            DocText(a) + (if DocText(a) == "" || DocText(b) == "" then "" else "\n\n") + DocText(b)
  {
    DocBlocksAppend(a, b);
    JoinAppend("\n\n", DocBlocks(a), DocBlocks(b));
    JoinEmptyIff("\n\n", DocBlocks(a));
    JoinEmptyIff("\n\n", DocBlocks(b));
  }

  /** One attachment contributes its block exactly when it carries text. */
  lemma DocTextOne(x: Attachment)
    ensures DocText([x]) == if CarriesText(x) then DocBlock(x) else ""
  {
    if CarriesText(x) {
      assert DocBlocks([x]) == [DocBlock(x)];
    } else {
      assert DocBlocks([x]) == [];
    }
  }

  /** `imageFiles`: the image attachments, in order. */
  function ImageAttachments(atts: seq<Attachment>): (r: seq<Attachment>)
    ensures |r| <= |atts|
    ensures forall a :: a in r <==> a in atts && a.kind == Image
    ensures |atts| == 1 ==> r == if atts[0].kind == Image then atts else []
  {
    if |atts| == 0 then []
    else (if atts[0].kind == Image then [atts[0]] else []) + ImageAttachments(atts[1..])
  }

  /** The image attachments keep the order of the attachment list. */
  lemma {:induction false} ImageAttachmentsAppend(a: seq<Attachment>, b: seq<Attachment>)
    ensures ImageAttachments(a + b) == ImageAttachments(a) + ImageAttachments(b)
  {
    if |a| > 0 {
      var head := if a[0].kind == Image then [a[0]] else [];
      ImageAttachmentsFirst(a, b);
      ImageAttachmentsAppend(a[1..], b);
      ConcatAssoc(head, ImageAttachments(a[1..]), ImageAttachments(b));
    } else {
      assert a + b == b;
    }
  }

  lemma ImageAttachmentsFirst(a: seq<Attachment>, b: seq<Attachment>)
    requires |a| > 0
    ensures ImageAttachments(a + b) == (if a[0].kind == Image then [a[0]] else []) + ImageAttachments(a[1..] + b)
  {
    assert (a + b)[0] == a[0] && (a + b)[1..] == a[1..] + b;
  }


  function Names(atts: seq<Attachment>): (r: seq<string>)
    ensures |r| == |atts| && forall i | 0 <= i < |atts| :: r[i] == atts[i].name
  {
    seq(|atts|, i requires 0 <= i < |atts| => atts[i].name)
  }

  /** The note appended for images: their number and their names. It is
      empty exactly when there is no image. */
  function ImageSummary(atts: seq<Attachment>): (r: string)
    ensures r == "" <==> forall a | a in atts :: a.kind != Image
    // the note gives the number of images, then their names in order
    ensures ImageAttachments(atts) != [] ==>
            StartsWith(r, "\n\n[" + NatToString(|ImageAttachments(atts)|) + " Bild(er) angehängt: ")
    ensures ImageAttachments(atts) != [] ==> EndsWith(r, Join(", ", Names(ImageAttachments(atts))) + "]")
    // and nothing lies between the two
    ensures ImageAttachments(atts) != [] ==>
            |r| == |"\n\n[" + NatToString(|ImageAttachments(atts)|) + " Bild(er) angehängt: "|
                   + |Join(", ", Names(ImageAttachments(atts)))| + 1
  {
    var images := ImageAttachments(atts);
    if |images| > 0 then
      var head := "\n\n[" + NatToString(|images|) + " Bild(er) angehängt: ";
      var tail := Join(", ", Names(images)) + "]";
      assert head + Join(", ", Names(images)) + "]" == head + tail;
      assert (head + tail)[..|head|] == head;
      assert (head + tail)[|head|..] == tail;
      head + Join(", ", Names(images)) + "]"
    else
      assert forall a | a in atts :: a !in images;
      ""
  }

  /** `finalContent`: the user's message, then the document text, then the
      image note. The user's words always come first, and attachments that
      carry neither text nor an image add nothing. */
  function FinalContent(content: string, atts: seq<Attachment>): (r: string)
    ensures StartsWith(r, content)
    ensures (forall a | a in atts :: !CarriesText(a) && a.kind != Image) ==> r == content
    // the document text comes right after the message, the image note last
    ensures StartsWith(r, content + DocText(atts))
    ensures EndsWith(r, ImageSummary(atts))
    ensures |r| == |content| + |DocText(atts)| + |ImageSummary(atts)|
  {
    var doc := DocText(atts);
    var note := ImageSummary(atts);
    ConcatParts(content, doc, note);
    content + doc + note
  }

  /** A document's block holds its file name and its full text. */
  lemma DocBlockParts(a: Attachment)
    requires CarriesText(a)
    ensures Contains(DocBlock(a), a.extractedText.value)
    ensures Contains(DocBlock(a), a.name)
  {
    var head := "\n\n--- Datei: " + a.name + " ---\n";
    OccursInConcat(head, a.extractedText.value, "");
    assert DocBlock(a) == head + a.extractedText.value + "";
    OccursInConcat("\n\n--- Datei: ", a.name, " ---\n" + a.extractedText.value);
    assert DocBlock(a) == "\n\n--- Datei: " + a.name + (" ---\n" + a.extractedText.value);
  }

  lemma DocTextHasBlock(atts: seq<Attachment>, a: Attachment)
    requires a in atts && CarriesText(a)
    ensures Contains(DocText(atts), DocBlock(a))
  {
    var t := TextAttachments(atts);
    var k :| 0 <= k < |t| && t[k] == a;
    assert DocBlocks(atts)[k] == DocBlock(a);
    JoinContainsPart("\n\n", DocBlocks(atts), k);
  }

  /** No document is cut short: the full text of every text-carrying
      attachment and its file name reach the model. */
  lemma {:induction false} FinalContentCarriesDocument(content: string, atts: seq<Attachment>, a: Attachment)
    requires a in atts && CarriesText(a)
    ensures Contains(FinalContent(content, atts), a.extractedText.value)
    ensures Contains(FinalContent(content, atts), a.name)
  {
    var final := FinalContent(content, atts);
    var doc := DocText(atts);
    OccursInConcat(content, doc, ImageSummary(atts));
    assert Contains(final, doc);
    DocTextHasBlock(atts, a);
    ContainsWithin(final, doc, DocBlock(a));
    DocBlockParts(a);
    ContainsWithin(final, DocBlock(a), a.extractedText.value);
    ContainsWithin(final, DocBlock(a), a.name);
  }

  /** Every image is named in the message. */
  lemma {:induction false} FinalContentNamesImage(content: string, atts: seq<Attachment>, a: Attachment)
    requires a in atts && a.kind == Image
    ensures Contains(FinalContent(content, atts), a.name)
  {
    var images := ImageAttachments(atts);
    var k :| 0 <= k < |images| && images[k] == a;
    var names := Join(", ", Names(images));
    var head := "\n\n[" + NatToString(|images|) + " Bild(er) angehängt: ";
    JoinContainsPart(", ", Names(images), k);
    OccursInConcat(head, names, "]");
    OccursInConcat(content + DocText(atts), ImageSummary(atts), "");
    assert FinalContent(content, atts) == content + DocText(atts) + ImageSummary(atts) + "";
    ContainsWithin(ImageSummary(atts), names, a.name);
    ContainsWithin(FinalContent(content, atts), ImageSummary(atts), a.name);
  }

  // ---------------------------------------------------------------------
  // The request

  /** `messages.map((m) => ({ role: m.role, content: m.content }))`. */
  function History(messages: seq<ChatMessage>): (r: seq<Turn>)
    ensures |r| == |messages|
    ensures forall i | 0 <= i < |messages| :: r[i].role == messages[i].role && r[i].content == messages[i].content
  {
    seq(|messages|, i requires 0 <= i < |messages| => Turn(messages[i].role, messages[i].content))
  }

  /** `outgoing`: the conversation as it was when the user submitted, then
      the user's turn with the full final content. */
  function Outgoing(messages: seq<ChatMessage>, finalContent: string): (r: seq<Turn>)
    ensures |r| == |messages| + 1
    ensures r[..|messages|] == History(messages)
    ensures r[|messages|] == Turn(User, finalContent)
  {
    History(messages) + [Turn(User, finalContent)]
  }

  /** The request body and bearer key of the OpenRouter call
      (`temperature` is left out). */
  datatype ChatRequest = ChatRequest(model: string, messages: seq<Turn>, maxTokens: nat, stream: bool, bearer: string)

  /** The key `callDeepSeekAPI` reads, `None` when it is missing or empty. */
  function ApiKey(m: ModelChoice, env: Config.KeyVars): (r: Option<string>)
    ensures r.Some? ==> r.value != ""
    ensures m == V3 ==> r.Some? == (env.v3Key.Some? && env.v3Key.value != "")
    ensures m == R1 ==> r.Some? == (env.r1Key.Some? && env.r1Key.value != "")
    // the key sent is the chosen model's own key
    ensures r.Some? ==> r == (if m == V3 then env.v3Key else env.r1Key)
  {
    var key := if m == V3 then env.v3Key else env.r1Key;
    if key.Some? && key.value != "" then key else None
  }

  /** What `callDeepSeekAPI` did: the request it sent, if any, and the reply
      text or the message of the error it threw. */
  datatype CallOutcome = CallOutcome(sent: Option<ChatRequest>, reply: Result<string, string>)

  /** `callDeepSeekAPI(messages, model)`: what it sends and what it returns
      or throws, for every key and every upstream outcome. */
  function CallDeepSeekAPI(messages: seq<Turn>, m: ModelChoice, env: Config.KeyVars, upstream: Upstream): (r: CallOutcome)
    // without a key nothing is sent
    ensures r.sent.None? <==> ApiKey(m, env).None?
    ensures r.sent.None? ==> r.reply == Err(KeyMissing + ModelId(m))
    // the request: the model's system prompt, then the conversation
    ensures r.sent.Some? ==>
      r.sent.value == ChatRequest(OpenRouterModel(m), [Turn(System, SystemPrompt(m))] + messages, 4096, false, ApiKey(m, env).value)
    // a reply is never empty, and there is one exactly when the body parsed
    ensures r.reply.Ok? ==> r.reply.value != ""
    ensures r.reply.Ok? <==> r.sent.Some? && upstream.Answered? && upstream.body.Parsed?
    ensures r.reply.Ok? && upstream.body.content.Some? && upstream.body.content.value != "" ==>
      r.reply.value == upstream.body.content.value
    ensures r.reply.Ok? && (upstream.body.content.None? || upstream.body.content.value == "") ==>
      r.reply.value == NoReply
    // the errors it throws
    ensures r.sent.Some? && upstream.NotOk? ==>
      r.reply == Err(UpstreamError + NatToString(upstream.status) + " - " + upstream.text)
    ensures r.sent.Some? && upstream.FetchFailed? ==> r.reply == Err(upstream.message)
    ensures r.sent.Some? && upstream.Answered? && upstream.body.Malformed? ==> r.reply == Err(upstream.body.message)
    ensures r.sent.Some? && upstream.Answered? && upstream.body.NullData? ==> r.reply == Err(upstream.body.usageError)
  {
    var key := ApiKey(m, env);
    if key.None? then
      CallOutcome(None, Err(KeyMissing + ModelId(m)))
    else
      var request := ChatRequest(OpenRouterModel(m), [Turn(System, SystemPrompt(m))] + messages, 4096, false, key.value);
      var reply :=
        match upstream
        case FetchFailed(message) => Err(message)
        case NotOk(status, text) => Err(UpstreamError + NatToString(status) + " - " + text)
        case Answered(Malformed(message)) => Err(message)
        case Answered(NullData(usageError)) => Err(usageError)
        case Answered(Parsed(content)) =>
          Ok(if content.Some? && content.value != "" then content.value else NoReply);
      CallOutcome(Some(request), reply)
  }

  /** The text of the assistant message that ends a submission: the reply,
      or `Fehler: ` and the error's message. */
  function ReplyContent(reply: Result<string, string>): (r: string)
    ensures reply.Ok? ==> r == reply.value
    ensures reply.Err? ==> StartsWith(r, ErrorPrefix) && r[|ErrorPrefix|..] == reply.error
  {
    match reply
    case Ok(text) => text
    case Err(message) => ErrorPrefix + message
  }

  /** The upstream sees the widget's conversation exactly: after the system
      prompt come the earlier messages in order, and the user's final
      content last. */
  lemma SentConversation(messages: seq<ChatMessage>, finalContent: string, m: ModelChoice,
                         env: Config.KeyVars, upstream: Upstream)
    requires ApiKey(m, env).Some?
    ensures var r := CallDeepSeekAPI(Outgoing(messages, finalContent), m, env, upstream);
      r.sent.Some? &&
      |r.sent.value.messages| == |messages| + 2 &&
      r.sent.value.messages[0] == Turn(System, SystemPrompt(m)) &&
      (forall i | 0 <= i < |messages| ::
         r.sent.value.messages[i + 1] == Turn(messages[i].role, messages[i].content)) &&
      r.sent.value.messages[|messages| + 1] == Turn(User, finalContent)
  {
    var out := Outgoing(messages, finalContent);
    var sent := CallDeepSeekAPI(out, m, env, upstream).sent.value.messages;
    assert sent == [Turn(System, SystemPrompt(m))] + out;
    forall i | 0 <= i < |messages| ensures sent[i + 1] == Turn(messages[i].role, messages[i].content) {
      assert sent[i + 1] == out[i] == out[..|messages|][i] == History(messages)[i];
    }
  }

  /** An upstream that answers 402 with its body text ends the turn with that
      status, in decimal, and that text in the error message. */
  lemma PaymentRequiredMessage(messages: seq<Turn>, env: Config.KeyVars)
    requires env.v3Key == Some("sk-or-1")
    ensures CallDeepSeekAPI(messages, V3, env, NotOk(402, "Insufficient credits")).reply ==
            Err(UpstreamError + "402 - Insufficient credits")
  {
    assert 402 / 10 == 40 && 402 % 10 == 2 && 40 / 10 == 4 && 40 % 10 == 0;
    assert NatToString(402) == NatToString(40) + [DigitChar(2)] == NatToString(4) + [DigitChar(0)] + [DigitChar(2)];
    assert NatToString(402) + " - " + "Insufficient credits" == "402 - Insufficient credits";
    assert UpstreamError + NatToString(402) + " - " + "Insufficient credits" ==
           UpstreamError + (NatToString(402) + " - " + "Insufficient credits");
  }
}
