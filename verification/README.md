# DeepSeek chat widget — a Dafny model

This project models the decision logic of a German-language chat widget
for two DeepSeek models, and proves properties of it. The model covers
three parts of the repository.

- The widget, `src/components/DeepSeekChatInterface.tsx`:
  - how a selected file is classified and turned into an attachment (image preview, or text extracted from a PDF, DOCX or plain-text file);
  - how the PDF page texts are joined;
  - how the typed text, the attachments and the conversation become the request sent to OpenRouter;
  - what `callDeepSeekAPI` returns or throws;
  - how `handleSubmit` changes the widget's state: the transcript, the input box, the loading flag and the attachment list.
- Credential resolution, `src/config.ts`: `getEnvConfig` chooses between the build-time and the runtime-injected keys.
- The Supabase edge function `chat-with-deepseek`,
  `supabase/functions/chat-with-deepseek/index.ts`:
  - request validation, model configuration, key selection and the request forwarded to DeepSeek;
  - the keyword-driven simulated reply it gives when DeepSeek cannot answer.

Everything the code only waits for is an input to the model. This covers the decoders' output per file, `Date.now()`, the HTTP exchange with the provider (`Http.Upstream`), the two environments and the index `Math.random()` picks.

The modules are:

- `Wrappers`: `Option` and `Result`.
- `Strings`: the JavaScript string operations the code uses (`trim`, `toLowerCase`, `startsWith`, `endsWith`, `includes`, `join`, number rendering).
- `Http`: the outcome of one provider call.
- `Config`: `getEnvConfig`.
- `Ingest`:
  - `detectKind`, the page loop of `extractPdfText` (a method proved against a specification function) and `extractDocxText`;
  - the file loop of `onFilesSelected` (a method) and `removeAttachment`.
- `Assembly`: the user's message, the document and image text, the outgoing conversation and `callDeepSeekAPI`.
- `Chat`: the class `ChatSession`, whose fields are the widget's React state and whose methods are its handlers.
- `Patterns`: the arithmetic pattern and the blank test of the simulated reply.
- `Edge`: the edge function. Its request handler is a method, and `getModelConfig` and `generateIntelligentResponse` are functions.

`callDeepSeekAPI` reads `import.meta.env` itself. It does not read the configuration `src/config.ts` resolves, so the widget's key check takes the build-time variables (`Config.KeyVars`) as its input.

Three behaviours of the code are easy to overlook, and the model keeps them as the code has them:

- A `.pdf` file name alone does not make a PDF: `detectKind` accepts a PDF only by its MIME type `application/pdf` (src/components/DeepSeekChatInterface.tsx:64).
- A successful OpenRouter response is not always reduced to the fixed apology. If the body is not JSON, or is the JSON value `null`, reading it throws and the turn ends with a `Fehler: ` message (src/components/DeepSeekChatInterface.tsx:245-246).
- Both the widget and the edge function send their requests with `stream: false`, so each reply arrives in one piece (src/components/DeepSeekChatInterface.tsx:221, supabase/functions/chat-with-deepseek/index.ts:78).

## Model

| member | source | states |
|---|---|---|
| Strings.Trim | src/components/DeepSeekChatInterface.tsx:253-258 | `trim()` never lengthens a string and gives the empty string exactly when the input is all whitespace |
| Strings.TrimIsSlice | src/components/DeepSeekChatInterface.tsx:253-258 | the trimmed text is a slice of the input with only whitespace on either side and no whitespace at its ends |
| Strings.ToLower | src/components/DeepSeekChatInterface.tsx:68-71 | lower-casing keeps the length and maps every character on its own |
| Strings.LowerEndsWith | src/components/DeepSeekChatInterface.tsx:68-71 | `name.toLowerCase().endsWith(ext)` holds exactly when the name ends with the extension in any mixture of cases |
| Strings.NatToString | src/components/DeepSeekChatInterface.tsx:114 | a number renders as a non-empty string of decimal digits with no leading zero (only 0 starts with `0`) |
| Strings.NatToStringValue | src/components/DeepSeekChatInterface.tsx:114 | reading the rendered digits back gives the number, so distinct pages get distinct markers |
| Strings.Join | src/components/DeepSeekChatInterface.tsx:271-274 | `join` gives a string that begins with the first part and ends with the last, and a single part unchanged |
| Strings.JoinAppend | src/components/DeepSeekChatInterface.tsx:285-288 | joining two lists is joining each, with exactly one separator between them when both are non-empty: the parts stay in order with a separator between neighbours |
| Strings.JoinEmptyIff | src/components/DeepSeekChatInterface.tsx:271-279 | a join of non-empty parts is empty exactly when there are no parts |
| Strings.JoinContainsEveryPart | src/components/DeepSeekChatInterface.tsx:103-111 | every part occurs in the joined string |
| Strings.Contains | supabase/functions/chat-with-deepseek/index.ts:133-161 | `includes` holds of every prefix and suffix, and never of a string longer than the text |
| Strings.ContainsWithin | supabase/functions/chat-with-deepseek/index.ts:133-161 | `includes` is transitive: a part of a part of the text is a part of the text |
| Config.OrEmpty | src/config.ts:21-22 | a set value is kept and an unset one becomes `''` |
| Config.GetEnvConfig | src/config.ts:11-42 | both keys come from one source (build time, runtime or the empty defaults); complete build-time keys are used as they are, whatever `__ENV__` holds; otherwise `__ENV__`, when it exists, decides both keys |
| Config.BuildTimeKeysOnlyWhenComplete | src/config.ts:19-29 | build-time keys are used exactly when both are non-empty; otherwise the runtime keys, or empty keys, are |
| Config.LoneBuildKeyDiscarded | src/config.ts:26-37 | a lone build-time key is discarded in favour of the runtime source, whose missing key reads as `''` |
| Config.NoSourceGivesEmptyKeys | src/config.ts:13-16 | with no usable build-time keys and no `__ENV__`, both keys are `''` |
| Ingest.DetectKind | src/components/DeepSeekChatInterface.tsx:61-73 | the kind, in both directions for each kind: an image MIME type first, then exactly `application/pdf`, then the DOCX MIME type or a `.docx` name in any case, then `text/plain` or a `.txt` name in any case, otherwise unsupported |
| Ingest.DocxByExtensionInAnyCase | src/components/DeepSeekChatInterface.tsx:65-70 | `Bericht.DOCX` with no MIME type, and `notes.docx` sent as `text/plain`, are DOCX |
| Ingest.TxtByExtensionInAnyCase | src/components/DeepSeekChatInterface.tsx:71 | `Notes.TxT` with no MIME type is a text file |
| Ingest.PdfNeedsMimeType | src/components/DeepSeekChatInterface.tsx:64 | `scan.pdf` with no MIME type is unsupported |
| Ingest.ImageMimeWins | src/components/DeepSeekChatInterface.tsx:63 | an image MIME type wins over a `.txt` name |
| Ingest.KeptStrings | src/components/DeepSeekChatInterface.tsx:103-110 | the kept item strings are none blank, and none are kept exactly when every item string is blank |
| Ingest.KeptStringsAppend | src/components/DeepSeekChatInterface.tsx:103-110 | the filter works item by item, so the kept strings stay in item order |
| Ingest.KeptStringsOne | src/components/DeepSeekChatInterface.tsx:104-110 | a single item is kept, as its string, exactly when that string is not blank |
| Ingest.PageText | src/components/DeepSeekChatInterface.tsx:103-111 | every kept string appears in the page text, and the text is empty when nothing is kept |
| Ingest.PageTextAppend | src/components/DeepSeekChatInterface.tsx:103-111 | the page text of two runs of items is theirs in order, one space apart when both are non-empty |
| Ingest.PageTextOne | src/components/DeepSeekChatInterface.tsx:103-111 | one item's page text is its string, or nothing when the string is blank |
| Ingest.PageTextBlankIff | src/components/DeepSeekChatInterface.tsx:103-113 | a page's joined text trims to empty exactly when all its item strings are blank |
| Ingest.PageMarker | src/components/DeepSeekChatInterface.tsx:114 | the marker starts with a blank line exactly after page 1; then come `=== Seite `, the page number and the closing ` ===` line break, and nothing else |
| Ingest.PageContribution | src/components/DeepSeekChatInterface.tsx:113-115 | a page adds nothing exactly when it failed or its text trims to empty; otherwise it adds its marker followed directly by its text |
| Ingest.PdfText | src/components/DeepSeekChatInterface.tsx:83-128 | the fallback sentence when loading or any page fails; otherwise the joined text of all pages |
| Ingest.ExtractPdfText | src/components/DeepSeekChatInterface.tsx:83-128 | the page loop yields the page blocks of all pages in order, or the fallback sentence as soon as loading or any page fails |
| Ingest.JoinPagesPrefix | src/components/DeepSeekChatInterface.tsx:97-116 | the text after m pages is a prefix of the text after any later page: pages are only appended |
| Ingest.PageBlockAppears | src/components/DeepSeekChatInterface.tsx:113-115 | every page with text appears as its marker and text, right after the text of the pages before it |
| Ingest.JoinPagesEmptyIff | src/components/DeepSeekChatInterface.tsx:113-115 | the text of the first n pages is empty exactly when none of them adds anything |
| Ingest.FirstTextOnLaterPage | src/components/DeepSeekChatInterface.tsx:114 | when the first page with text is page i > 1, the text starts with a blank line before its marker |
| Ingest.PdfFailureFallback | src/components/DeepSeekChatInterface.tsx:121-127 | a PDF that fails to load, or with a page that fails, gives the fallback sentence, which names the file |
| Ingest.DocxText | src/components/DeepSeekChatInterface.tsx:130-140 | the decoded raw text, or `""` when decoding fails or yields nothing |
| Ingest.AttachmentId | src/components/DeepSeekChatInterface.tsx:156 | the id starts with the file name and a dash, and ends with a dash and the time |
| Ingest.IngestFile | src/components/DeepSeekChatInterface.tsx:149-183 | a file gives a well-formed attachment of its detected kind, named after it and with its id; it gives nothing exactly when its kind is unsupported or its reading throws. An image carries the object URL as preview and the data URL read; a PDF, DOCX or text file carries exactly the text its decoder gave |
| Ingest.IngestAll | src/components/DeepSeekChatInterface.tsx:149-184 | at most one item per file, all well-formed; a single file gives exactly the item it is ingested as, so with the append lemma every supported, readable file's item is in the result, in selection order |
| Ingest.IngestAllAppend | src/components/DeepSeekChatInterface.tsx:149-187 | items keep selection order: ingesting a + b is ingesting a, then b |
| Ingest.IngestAllSkipsUnsupported | src/components/DeepSeekChatInterface.tsx:151-155 | an unsupported file leaves the result as if it had not been selected |
| Ingest.ProcessFiles | src/components/DeepSeekChatInterface.tsx:142-184 | the file loop collects exactly the items of the selection |
| Ingest.RemoveById | src/components/DeepSeekChatInterface.tsx:191-193 | the result holds exactly the attachments with a different id |
| Ingest.RemoveByIdAppend | src/components/DeepSeekChatInterface.tsx:191-193 | the filter keeps the survivors in their original order |
| Ingest.RemoveByIdAbsent | src/components/DeepSeekChatInterface.tsx:191-193 | removing an id nobody has changes nothing, so removing twice is removing once |
| Assembly.ShouldSubmit | src/components/DeepSeekChatInterface.tsx:253 | a submission goes ahead exactly when nothing is loading and there is non-blank input or an attachment |
| Assembly.UserContent | src/components/DeepSeekChatInterface.tsx:258 | the shown text is the trimmed input, or the placeholder when the input is blank and there are attachments, and empty exactly when both are missing |
| Assembly.AcceptedTurnNotEmpty | src/components/DeepSeekChatInterface.tsx:253-258 | a submission the guard lets through never shows an empty user message |
| Assembly.TextAttachments | src/components/DeepSeekChatInterface.tsx:272 | exactly the non-image attachments with non-empty text; a single attachment is kept exactly when it carries text |
| Assembly.TextAttachmentsAppend | src/components/DeepSeekChatInterface.tsx:272 | the filter keeps the text attachments in the order of the attachment list |
| Assembly.DocBlocks | src/components/DeepSeekChatInterface.tsx:271-273 | block i is the block of the i-th text-carrying attachment, and no block is empty |
| Assembly.DocBlocksAppend | src/components/DeepSeekChatInterface.tsx:271-273 | the blocks follow the order of the attachment list |
| Assembly.DocBlock | src/components/DeepSeekChatInterface.tsx:273 | a document block is the `\n\n--- Datei: <name> ---\n` header followed directly by the complete extracted text |
| Assembly.DocText | src/components/DeepSeekChatInterface.tsx:271-274 | the document text is empty exactly when no attachment carries text |
| Assembly.DocTextAppend | src/components/DeepSeekChatInterface.tsx:271-274 | the document text of two attachment lists is theirs in order, joined by a blank line when both are non-empty |
| Assembly.DocTextOne | src/components/DeepSeekChatInterface.tsx:271-274 | one attachment contributes its `--- Datei:` block exactly when it carries text |
| Assembly.ImageAttachments | src/components/DeepSeekChatInterface.tsx:285 | exactly the image attachments; a single attachment is kept exactly when it is an image |
| Assembly.ImageAttachmentsAppend | src/components/DeepSeekChatInterface.tsx:285 | the filter keeps the images in the order of the attachment list |
| Assembly.ImageSummary | src/components/DeepSeekChatInterface.tsx:285-288 | the image note is empty exactly when there is no image; otherwise it starts with `\n\n[`, the number of images and ` Bild(er) angehängt: `, ends with their names joined by `, ` and a closing bracket, and nothing lies between the two |
| Assembly.FinalContent | src/components/DeepSeekChatInterface.tsx:268-288 | the final content is the user's message, then the document text, then the image note, and nothing else; it equals the message when no attachment carries text or an image |
| Assembly.FinalContentCarriesDocument | src/components/DeepSeekChatInterface.tsx:271-282 | the full text and the file name of every text-carrying attachment reach the model |
| Assembly.FinalContentNamesImage | src/components/DeepSeekChatInterface.tsx:285-288 | every image is named in the message |
| Assembly.History | src/components/DeepSeekChatInterface.tsx:266 | one turn per message with its role and content |
| Assembly.Outgoing | src/components/DeepSeekChatInterface.tsx:266-291 | the earlier conversation, then exactly one user turn with the final content |
| Assembly.ApiKey | src/components/DeepSeekChatInterface.tsx:196-200 | the key of the selected model and never the other one, present exactly when it is set and not empty |
| Assembly.CallDeepSeekAPI | src/components/DeepSeekChatInterface.tsx:195-249 | nothing is sent without a key, and the call throws `API key not found for <model>`; otherwise the request is the model's system prompt then the messages unchanged. The reply is never empty and exists exactly when the body parsed; it is the content or the apology. Each failure throws its own message |
| Assembly.ReplyContent | src/components/DeepSeekChatInterface.tsx:296-311 | a reply is shown as is, and an error as `Fehler: ` followed by its message |
| Assembly.SentConversation | src/components/DeepSeekChatInterface.tsx:213-218 | the provider receives the system prompt, every earlier message in order, then the final content |
| Assembly.PaymentRequiredMessage | src/components/DeepSeekChatInterface.tsx:239-243 | a 402 answer with body `Insufficient credits` throws `OpenRouter API Error: 402 - Insufficient credits` |
| Chat.ChatSession.constructor | src/components/DeepSeekChatInterface.tsx:33-45 | the transcript is the model's greeting alone; the input is empty, nothing is loading and there are no attachments |
| Chat.ChatSession.SetInput | src/components/DeepSeekChatInterface.tsx:418 | typing replaces the input and changes nothing else |
| Chat.ChatSession.OnFilesSelected | src/components/DeepSeekChatInterface.tsx:142-189 | with no file list nothing changes; otherwise the selection's items are appended after the existing attachments |
| Chat.ChatSession.RemoveAttachment | src/components/DeepSeekChatInterface.tsx:191-193 | the attachments become the filtered list, and none has the id any more |
| Chat.ChatSession.HandleSubmit | src/components/DeepSeekChatInterface.tsx:251-316 | a rejected submission changes nothing and sends nothing. An accepted one appends the user's message and then one assistant message (the reply or the error), clears the input, ends loading and empties the attachments whatever the outcome. It sends exactly what `callDeepSeekAPI` sends, and the transcript keeps alternating |
| Chat.ChatSession.ShowQuestion | src/components/DeepSeekChatInterface.tsx:253-263 | the user's message is appended, the input cleared and loading set, before the call |
| Chat.ChatSession.AwaitAnswer | src/components/DeepSeekChatInterface.tsx:265-315 | the reply or error is appended, loading ends and the attachments are cleared |
| Chat.ChatSession.ShowAnswer | src/components/DeepSeekChatInterface.tsx:296-315 | the answer is appended, loading ends and the attachments are cleared; the input is left alone |
| Chat.ComposeFinalContent | src/components/DeepSeekChatInterface.tsx:268-288 | the step-by-step `finalContent` equals the assembled final content |
| Chat.AnsweredTurns | src/components/DeepSeekChatInterface.tsx:251-316 | in a transcript the handlers build, every user message is followed by the assistant's answer |
| Chat.AlternatingExtend | src/components/DeepSeekChatInterface.tsx:261-311 | appending a user message and its answer keeps the transcript alternating, with the greeting first |
| Edge.GetModelConfig | supabase/functions/chat-with-deepseek/index.ts:32-56 | 4096 tokens always; `deepseek-reasoner` exactly for `deepseek-r1`, and `deepseek-chat` otherwise; each known name gets its own prompt |
| Edge.UnknownModelIsDefault | supabase/functions/chat-with-deepseek/index.ts:48-54 | every other name, the default `deepseek-chat` included, gets the default configuration and prompt |
| Edge.RequestedModel | supabase/functions/chat-with-deepseek/index.ts:27 | the body's model name, or `deepseek-chat` with the generic prompt when the body has none |
| Edge.SelectApiKey | supabase/functions/chat-with-deepseek/index.ts:92 | the V3 key exactly for `deepseek-v3` and the R1 key for every other name; never empty |
| Patterns.ArithmeticWindowIsRegex | supabase/functions/chat-with-deepseek/index.ts:147 | a digit, an operator and a digit side by side occur exactly when `/\d+[+\-*\/]\d+/` matches |
| Patterns.ArithmeticIgnoresCase | supabase/functions/chat-with-deepseek/index.ts:122-147 | lower-casing a message neither creates nor destroys an arithmetic expression |
| Patterns.BlankIgnoresCase | supabase/functions/chat-with-deepseek/index.ts:122-133 | lower-casing a message keeps it blank or non-blank |
| Edge.LastUserMessage | supabase/functions/chat-with-deepseek/index.ts:121 | empty for an empty history; a non-empty result is the content of the last message, whatever its role |
| Edge.Matches | supabase/functions/chat-with-deepseek/index.ts:133-161 | the general topic always matches, a blank message passes the greeting test and an arithmetic expression passes the mathematics test |
| Edge.MatchesIgnoresCase | supabase/functions/chat-with-deepseek/index.ts:122-161 | every topic test gives the same answer on a message and on its lower-cased form |
| Edge.Classify | supabase/functions/chat-with-deepseek/index.ts:133-165 | the chosen topic's test passes on the message |
| Edge.ClassifyIsFirstMatch | supabase/functions/chat-with-deepseek/index.ts:133-165 | no topic tested before the chosen one passes: the branches have a fixed priority |
| Edge.Render | supabase/functions/chat-with-deepseek/index.ts:134-136 | filling a reply template puts the persona name once, right after the template head and right before its tail |
| Edge.TopicReply | supabase/functions/chat-with-deepseek/index.ts:134-165 | every recognised topic has a fixed reply per persona in which the name stands mid-sentence, with text before and after it |
| Edge.TopicRepliesDistinct | supabase/functions/chat-with-deepseek/index.ts:134-165 | two different topics, or the two personas on one topic, never get the same reply template |
| Edge.GenerateIntelligentResponse | supabase/functions/chat-with-deepseek/index.ts:120-188 | every simulated reply names the persona of the requested model. A recognised topic decides the reply whatever the random pick. A general reply is exactly the picked text, followed by the follow-up question exactly when the message exceeds 100 characters |
| Edge.GeneralReply | supabase/functions/chat-with-deepseek/index.ts:168-187 | the picked general text names the persona and starts the reply, and the follow-up question is appended exactly when the message exceeds 100 characters |
| Edge.BlankMessageIsGreeted | supabase/functions/chat-with-deepseek/index.ts:121-137 | an empty history, a message without content or a blank message gets the greeting |
| Edge.GreetingShadowsMath | supabase/functions/chat-with-deepseek/index.ts:133-151 | `Hilfe bei Mathe` passes the mathematics test but is answered with the greeting, because `hi` is found inside `Hilfe` |
| Edge.EdgeReply | supabase/functions/chat-with-deepseek/index.ts:104-118 | a parsed answer gives its content, or `""` without one; any other outcome gives the simulated reply, which names the requested persona |
| Edge.FallbackNamesPersona | supabase/functions/chat-with-deepseek/index.ts:104-118 | when DeepSeek gives no parsed answer, the reply is the simulation in the requested persona |
| Edge.HandleRequest | supabase/functions/chat-with-deepseek/index.ts:9-203 | OPTIONS gets an empty 200. Missing keys get a 500 before the body is read; an unreadable body gets a 500 with its error; a missing or non-array `messages` gets a 400. Otherwise the system message and the messages go to DeepSeek with the selected key and `stream: false`, and the answer is 200 whatever DeepSeek does. An error status comes with an error body and nothing sent |
| Edge.DefaultModelUsesR1Key | supabase/functions/chat-with-deepseek/index.ts:27-92 | a body without `model` runs `deepseek-chat` with the generic prompt, yet is sent with the R1 key and simulated as DeepSeek R1 |

## Left out

- Strings.ToLower: lower-cases ASCII letters only. `toLowerCase` also folds other scripts, which the file-name and keyword tests never need for their ASCII literals, but which could make a non-ASCII name match.
- Edge.GenerateIntelligentResponse: counts the message length in characters, whereas JavaScript counts UTF-16 code units. A message with characters outside the Basic Multilingual Plane reaches the 100-unit threshold earlier in the source.
- The decoders are inputs of the model, not modelled: pdf.js, mammoth, `FileReader`, `URL.createObjectURL` and `file.text()`. A file is described by what each of them returns or whether it throws.
- `fetch`, `serve` and the HTTP headers are not modelled: the CORS headers, `Content-Type`, `HTTP-Referer` and `X-Title`. The provider's answer is an input (`Http.Upstream`).
- Failures of `response.text()` on an error status are not modelled. They would reach the widget's `catch`, or the edge function's inner `catch`.
- `temperature: 0.7` is not modelled; it is a floating-point constant passed through unchanged.
- Message timestamps are left out. `Date.now()` appears only as the message ids it produces, given as inputs.
- Errors thrown with a non-`Error` value (the `Anfrage fehlgeschlagen` text) are left out. Every failure in the model carries an error message.
- The `stack` field of the edge function's 500 body is left out; the model keeps only its `error` message.
- In the edge function, `messages` items are objects whose `content` is a string or absent. Three cases are not modelled:
  - a non-string content, which makes `toLowerCase` throw;
  - a `null` item, which makes the unused `isFollowUp` scan throw;
  - a non-string `model`, which behaves like an unknown name.
- Assembly.CallDeepSeekAPI, Edge.EdgeReply: a provider answer whose content is not a string is not modelled (the content is `Option<string>`). The widget's `callDeepSeekAPI` would pass a truthy non-string value through as the reply (src/components/DeepSeekChatInterface.tsx:248), and the edge function would pass any non-null one through.
- React rendering, scrolling, the markdown view, the Enter-key shortcut, the file input reset, `alert` and `console` output are not modelled. `src/components/ModelNavigation.tsx` and `src/App.tsx` are not part of this model.
- The asynchronous interleaving of `handleSubmit` is not modelled. Each handler runs to completion. The disabled controls and the `isLoading` guard are what keep a second submission out while a call is in flight, and the model states that guard but has no in-flight window.
