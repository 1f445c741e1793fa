// The state of the chat widget and the handlers that change it
// (src/components/DeepSeekChatInterface.tsx). Each handler runs to
// completion: the awaited file decoding and the OpenRouter call are given
// as their outcomes.

module Chat {
  import opened Wrappers
  import opened Strings
  import opened Ingest
  import opened Http
  import opened Assembly
  import Config

  /** The widget's first message. */
  function Welcome(model: ModelChoice): ChatMessage {
    ChatMessage("1", Assistant, Greeting(model))
  }

  /** The roles alternate, starting with the assistant's greeting: every
      user turn is answered by exactly one assistant turn. */
  predicate Alternating(messages: seq<ChatMessage>) {
    |messages| % 2 == 1 &&
    forall i | 0 <= i < |messages| :: messages[i].role == (if i % 2 == 0 then Assistant else User)
  }

  /** One instance of `DeepSeekChatInterface` and its React state. */
  class ChatSession {
    const model: ModelChoice
    var messages: seq<ChatMessage>
    var input: string
    var isLoading: bool
    var attachments: seq<Attachment>

    ghost predicate Valid()
      reads this
    {
      Alternating(messages) &&
      messages[0] == Welcome(model) &&
      forall a | a in attachments :: WellFormed(a)
    }

    constructor(model: ModelChoice)
      ensures Valid()
      ensures this.model == model
      ensures messages == [Welcome(model)] && input == "" && !isLoading && attachments == []
    {
      this.model := model;
      messages := [Welcome(model)];
      input := "";
      isLoading := false;
      attachments := [];
    }

    /** The textarea's `onChange`. */
    method SetInput(value: string)
      requires Valid()
      modifies this
      ensures Valid()
      ensures input == value
      ensures messages == old(messages) && isLoading == old(isLoading) && attachments == old(attachments)
    {
      input := value;
    }

    /** `onFilesSelected`: with no file list nothing happens; otherwise the
        supported files are appended to the attachments, in selection
        order, after the ones already there. */
    method OnFilesSelected(files: Option<seq<PickedFile>>)
      requires Valid()
      modifies this
      ensures Valid()
      ensures files.None? ==> attachments == old(attachments)
      ensures files.Some? ==> attachments == old(attachments) + IngestAll(files.value)
      ensures messages == old(messages) && input == old(input) && isLoading == old(isLoading)
    {
      if files.None? {
        return;
      }
      var newItems := ProcessFiles(files.value);
      attachments := attachments + newItems;
    }

    /** `removeAttachment`: drops every attachment with that id. */
    method RemoveAttachment(id: string)
      requires Valid()
      modifies this
      ensures Valid()
      ensures attachments == RemoveById(old(attachments), id)
      ensures forall a | a in attachments :: a.id != id
      ensures messages == old(messages) && input == old(input) && isLoading == old(isLoading)
    {
      attachments := RemoveById(attachments, id);
    }

    /** `handleSubmit`, for a submission at time `submittedAt` whose reply
        arrives at time `repliedAt`. When the guard lets it through, the
        user's message and then exactly one assistant message (the reply or
        the error) are appended, the input is cleared and the attachments
        are consumed whatever the outcome. */
    method HandleSubmit(env: Config.KeyVars, upstream: Upstream, submittedAt: nat, repliedAt: nat)
      returns (sent: Option<ChatRequest>)
      requires Valid()
      modifies this
      ensures Valid()
      ensures !ShouldSubmit(old(input), |old(attachments)|, old(isLoading)) ==>
        sent.None? && messages == old(messages) && input == old(input) &&
        isLoading == old(isLoading) && attachments == old(attachments)
      ensures ShouldSubmit(old(input), |old(attachments)|, old(isLoading)) ==>
        var content := UserContent(old(input), |old(attachments)|);
        var call := CallDeepSeekAPI(Outgoing(old(messages), FinalContent(content, old(attachments))), model, env, upstream);
        messages == old(messages) + [ChatMessage(NatToString(submittedAt), User, content),
                                     ChatMessage(NatToString(repliedAt + 1), Assistant, ReplyContent(call.reply))] &&
        input == "" && !isLoading && attachments == [] && sent == call.sent
    {
      if !ShouldSubmit(input, |attachments|, isLoading) {
        return None;
      }
      var history, pending := messages, attachments;
      var content := UserContent(input, |attachments|);
      ghost var question := ChatMessage(NatToString(submittedAt), User, content);
      ShowQuestion(submittedAt);
      ghost var asked := messages;
      sent := AwaitAnswer(history, pending, content, env, upstream, repliedAt);
      ghost var answer := messages[|messages| - 1];
      assert asked == history + [question];
      AppendPair(history, question, answer);
      AlternatingExtend(history, question, answer);
    }

    /** The synchronous part of `handleSubmit`: the user's message is shown,
        the input cleared and the widget marked as loading. This is a step of
        HandleSubmit, not a handler of the widget: between it and AwaitAnswer
        the conversation ends on a user message, so Valid() does not hold
        here and HandleSubmit alone re-establishes it. */
    method ShowQuestion(submittedAt: nat)
      modifies this
      ensures messages == old(messages) + [ChatMessage(NatToString(submittedAt), User, UserContent(old(input), |old(attachments)|))]
      ensures input == "" && isLoading && attachments == old(attachments)
    {
      var userMsg := ChatMessage(NatToString(submittedAt), User, UserContent(input, |attachments|));
      messages := messages + [userMsg];
      input := "";
      isLoading := true;
    }

    /** The `try`/`finally` of `handleSubmit`: the request is built from the
        conversation and attachments the handler saw, and its reply or error
        is appended; loading ends and the attachments are consumed. A step of
        HandleSubmit, called only after ShowQuestion; Valid() is kept by
        HandleSubmit, not by this step. */
    method AwaitAnswer(history: seq<ChatMessage>, pending: seq<Attachment>, content: string,
                       env: Config.KeyVars, upstream: Upstream, repliedAt: nat)
      returns (sent: Option<ChatRequest>)
      modifies this
      ensures var call := CallDeepSeekAPI(Outgoing(history, FinalContent(content, pending)), model, env, upstream);
        messages == old(messages) + [ChatMessage(NatToString(repliedAt + 1), Assistant, ReplyContent(call.reply))] &&
        input == old(input) && !isLoading && attachments == [] && sent == call.sent
    {
      var finalContent := ComposeFinalContent(content, pending);
      var call := CallDeepSeekAPI(Outgoing(history, finalContent), model, env, upstream);
      ShowAnswer(ChatMessage(NatToString(repliedAt + 1), Assistant, ReplyContent(call.reply)));
      sent := call.sent;
    }

    /** The end of `handleSubmit`: the answer is shown, loading ends and the
        attachments are consumed. A step of AwaitAnswer; Valid() is kept by
        HandleSubmit, not by this step. */
    method ShowAnswer(aiMessage: ChatMessage)
      modifies this
      ensures messages == old(messages) + [aiMessage]
      ensures input == old(input) && !isLoading && attachments == []
    {
      messages := messages + [aiMessage];
      isLoading := false;
      attachments := [];
    }
  }

  /** The body of `handleSubmit`'s `try` up to the request: the document
      text and then the image note are appended to the user's message when
      they are not empty. */
  method ComposeFinalContent(content: string, atts: seq<Attachment>) returns (finalContent: string)
    ensures finalContent == FinalContent(content, atts)
  {
    finalContent := content;
    var docText := DocText(atts);
    if docText != "" {
      finalContent := finalContent + docText;
    }
    var imageFiles := ImageAttachments(atts);
    if |imageFiles| > 0 {
      finalContent := finalContent + ImageSummary(atts);
    } else {
      assert ImageSummary(atts) == "";
    }
  }

  /** A conversation of n submissions has 2n + 1 messages; every user
      message sits at an odd index and is followed by the assistant's
      answer. */
  lemma {:induction false} AnsweredTurns(messages: seq<ChatMessage>, i: nat)
    requires Alternating(messages) && i < |messages| && messages[i].role == User
    ensures i % 2 == 1 && i + 1 < |messages| && messages[i + 1].role == Assistant
  {
    assert messages[i].role == (if i % 2 == 0 then Assistant else User);
    assert (i + 1) % 2 == 0;
  }

  /** Appending a user turn and its answer keeps the roles alternating and
      the greeting first. */
  /** Appending one message and then another appends the pair. */
  lemma AppendPair(messages: seq<ChatMessage>, question: ChatMessage, answer: ChatMessage)
    ensures messages + [question] + [answer] == messages + [question, answer]
  {
  }

  lemma AlternatingExtend(messages: seq<ChatMessage>, question: ChatMessage, answer: ChatMessage)
    requires Alternating(messages) && question.role == User && answer.role == Assistant
    ensures Alternating(messages + [question, answer])
    ensures (messages + [question, answer])[0] == messages[0]
  {
    var m := messages + [question, answer];
    forall i | 0 <= i < |m| ensures m[i].role == (if i % 2 == 0 then Assistant else User) {
      if i < |messages| {
        assert m[i] == messages[i];
      }
    }
  }
}
