// The Supabase edge function `chat-with-deepseek`
// (supabase/functions/chat-with-deepseek/index.ts): it checks the method,
// the keys and the payload, forwards the conversation to DeepSeek behind a
// German system prompt and, when DeepSeek cannot answer, makes up a reply
// from canned German texts chosen by keywords. The HTTP exchange with
// DeepSeek is given as its outcome, `Math.random()` as the index it picks.

module Edge {
  import opened Wrappers
  import opened Strings
  import opened Http
  import opened Patterns

  /** One element of the `messages` array as the function reads it; its
      `content` is `None` when missing or `null`. */
  datatype ClientMessage = ClientMessage(role: string, content: Option<string>)

  /** The `messages` field of the JSON body: missing or falsy, present but
      not an array, or an array. */
  datatype MessagesField = Missing | NotAnArray | Messages(items: seq<ClientMessage>)

  /** What `await req.json()` and the destructuring of its result give: an
      exception (the body is not JSON, or is `null`), or the `model` and
      `messages` fields. */
  datatype RequestBody =
    | Unreadable(message: string)
    | Body(model: Option<string>, messages: MessagesField)

  datatype EdgeRequest = EdgeRequest(httpMethod: string, body: RequestBody)

  /** `Deno.env.get` of the two DeepSeek keys. */
  datatype EdgeEnv = EdgeEnv(v3Key: Option<string>, r1Key: Option<string>)

  /** The JSON the function answers with: none (the CORS preflight),
      `{ error }` or `{ reply }`. */
  datatype ResponseBody = NoBody | ErrorJson(error: string) | ReplyJson(reply: string)

  datatype EdgeResponse = EdgeResponse(status: nat, body: ResponseBody)

  /** The body and bearer key of the request to DeepSeek's chat completions
      endpoint (`temperature` is left out). */
  datatype DeepSeekRequest = DeepSeekRequest(model: string, messages: seq<ClientMessage>, maxTokens: nat, stream: bool, bearer: string)

  const DefaultModel := "deepseek-chat"
  const V3Name := "deepseek-v3"
  const R1Name := "deepseek-r1"
  const KeysMissing := "DeepSeek API keys are not set"
  const InvalidPayload := "Invalid payload: 'messages' array is required"

  const V3Prompt := "Du bist ein KI-Chatbot, der von DeepSeek V3 betrieben wird. Du antwortest auf Deutsch und bist hilfsbereit, präzise und freundlich."
  const R1Prompt := "Du bist ein KI-Chatbot, der von DeepSeek R1 betrieben wird. Du antwortest auf Deutsch mit besonderer Betonung auf logisches Denken und Problemlösung."
  const DefaultPrompt := "Du bist ein hilfreicher KI-Assistent und antwortest auf Deutsch."

  /** The entry of `getModelConfig` (its `temperature` is left out). */
  datatype ModelConfig = ModelConfig(actualModel: string, maxTokens: nat, systemPrompt: string)

  /** `getModelConfig(modelName)`: the two known names and a default. */
  function GetModelConfig(name: string): (c: ModelConfig)
    ensures c.maxTokens == 4096
    ensures c.actualModel == (if name == R1Name then "deepseek-reasoner" else "deepseek-chat")
    ensures c.systemPrompt == V3Prompt <==> name == V3Name
    ensures c.systemPrompt == R1Prompt <==> name == R1Name
  {
    if name == V3Name then ModelConfig("deepseek-chat", 4096, V3Prompt)
    else if name == R1Name then ModelConfig("deepseek-reasoner", 4096, R1Prompt)
    else ModelConfig("deepseek-chat", 4096, DefaultPrompt)
  }

  /** Any name other than the two known ones, the default name included,
      gets the default configuration. */
  lemma UnknownModelIsDefault(name: string)
    requires name != V3Name && name != R1Name
    ensures GetModelConfig(name) == GetModelConfig(DefaultModel)
    ensures GetModelConfig(name).systemPrompt == DefaultPrompt
  {
  }

  /** Both keys are set and not empty. */
  predicate KeysSet(env: EdgeEnv) {
    env.v3Key.Some? && env.v3Key.value != "" && env.r1Key.Some? && env.r1Key.value != ""
  }

  /** The key sent with the request: the V3 key for `deepseek-v3`, the R1
      key for every other name. */
  function SelectApiKey(name: string, env: EdgeEnv): (r: string)
    requires KeysSet(env)
    ensures r != ""
    ensures r == env.v3Key.value || r == env.r1Key.value
    ensures name == V3Name ==> r == env.v3Key.value
    ensures name != V3Name ==> r == env.r1Key.value
  {
    if name == V3Name then env.v3Key.value else env.r1Key.value
  }

  /** The `model` the handler works with: the body's, or `deepseek-chat`
      when the body has none. */
  function RequestedModel(model: Option<string>): (r: string)
    ensures model.Some? ==> r == model.value
    ensures model.None? ==> r == DefaultModel && GetModelConfig(r).systemPrompt == DefaultPrompt
  {
    if model.Some? then model.value else DefaultModel
  }

  // ---------------------------------------------------------------------
  // The simulated reply (`generateIntelligentResponse`)
  // ---------------------------------------------------------------------

  /** The index `Math.floor(Math.random() * 3)` picks among the three
      general replies. */
  type Pick = n: nat | n < 3

  /** The kinds of question the simulation recognises, in the order it
      tests them. */
  datatype Topic = Greeting | Programming | Math | Writing | Data | General

  function Rank(t: Topic): nat {
    match t
    case Greeting => 0
    case Programming => 1
    case Math => 2
    case Writing => 3
    case Data => 4
    case General => 5
  }

  const GreetingWords := ["hallo", "hi", "hey"]
  const ProgrammingWords := ["programm", "code", "python", "javascript", "html", "css"]
  const MathWords := ["mathe", "rechnen", "formel", "berechn"]
  const WritingWords := ["schreib", "text", "artikel", "brief", "email"]
  const DataWords := ["daten", "analyse", "research", "studie"]

  /** One of `words` occurs in `lower`. */
  predicate MentionsAny(lower: string, words: seq<string>) {
    exists w | w in words :: Contains(lower, w)
  }

  /** The keyword test of `topic` on the user's message (the keywords are
      looked for in the lower-cased message, the arithmetic pattern and the
      blank test in the message itself). */
  predicate Matches(msg: string, topic: Topic): (b: bool)
    ensures topic == General ==> b
    ensures topic == Greeting && IsBlank(msg) ==> b
    ensures topic == Math && HasArithmetic(msg) ==> b
  {
    var lower := ToLower(msg);
    match topic
    case Greeting => MentionsAny(lower, GreetingWords) || Trim(msg) == ""
    case Programming => MentionsAny(lower, ProgrammingWords)
    case Math => MentionsAny(lower, MathWords) || HasArithmetic(msg)
    case Writing => MentionsAny(lower, WritingWords)
    case Data => MentionsAny(lower, DataWords)
    case General => true
  }

  /** The tests ignore ASCII case: a message and its lower-cased form pass
      the same tests. */
  lemma MatchesIgnoresCase(msg: string, topic: Topic)
    ensures Matches(ToLower(msg), topic) <==> Matches(msg, topic)
  {
    var lower := ToLower(msg);
    LowerIsIdempotent(msg);
    BlankIgnoresCase(msg);
    ArithmeticIgnoresCase(msg);
    assert Trim(lower) == "" <==> Trim(msg) == "";
  }

  /** The chain of `if`s: the first topic, in the order tested, whose test
      the message passes. */
  function Classify(msg: string): (t: Topic)
    ensures Matches(msg, t)
  {
    if Matches(msg, Greeting) then Greeting
    else if Matches(msg, Programming) then Programming
    else if Matches(msg, Math) then Math
    else if Matches(msg, Writing) then Writing
    else if Matches(msg, Data) then Data
    else General
  }

  /** The topic chosen is the first one, in the order tested, that the
      message passes: it passes that topic's test and none before it. */
  lemma ClassifyIsFirstMatch(msg: string, u: Topic)
    requires Rank(u) < Rank(Classify(msg))
    ensures Matches(msg, Classify(msg)) && !Matches(msg, u)
  {
  }

  /** A reply text around the persona's name. */
  datatype Template = Template(head: string, tail: string)

  /** The template's text with the name filled in once, between head and tail. */
  function Render(t: Template, name: string): (r: string)
    ensures StartsWith(r, t.head) && EndsWith(r, t.tail)
    ensures OccursAt(r, name, |t.head|)
    ensures |r| == |t.head| + |name| + |t.tail|
  {
    assert (t.head + name + t.tail)[..|t.head|] == t.head;
    assert (t.head + name + t.tail)[|t.head|..|t.head| + |name|] == name;
    assert (t.head + name + t.tail)[|t.head| + |name|..] == t.tail;
    t.head + name + t.tail
  }

  /** `modelName`. */
  function PersonaName(isV3: bool): string {
    if isV3 then "DeepSeek V3" else "DeepSeek R1"
  }

  const V3GreetingReply := Template("Hallo! Ich bin ", ", ein fortschrittliches KI-System von DeepSeek. Ich kann Ihnen bei vielfältigen Aufgaben helfen - von komplexen Analysen über kreative Projekte bis hin zu technischen Lösungen. Was kann ich heute für Sie tun?")
  const R1GreetingReply := Template("Hallo! Ich bin ", ", spezialisiert auf systematisches Denken und strukturierte Problemlösung. Ich analysiere Herausforderungen methodisch und entwickle durchdachte Lösungsstrategien. Womit kann ich Ihnen helfen?")
  const V3ProgrammingReply := Template("Programmierung ist eine meiner Stärken! Als ", " beherrsche ich zahlreiche Programmiersprachen und Frameworks:\n\n• **Frontend**: JavaScript, TypeScript, React, Vue, HTML/CSS\n• **Backend**: Python, Java, Node.js, C++, Go\n• **Datenbanken**: SQL, NoSQL, Redis\n• **DevOps**: Docker, Kubernetes, CI/CD\n\nBeschreiben Sie Ihr konkretes Problem - ich helfe gerne bei Code-Review, Debugging oder Architektur-Entscheidungen!")
  const R1ProgrammingReply := Template("Als ", " gehe ich bei Programmierproblemen systematisch vor:\n\n➤ **1. Anforderungsanalyse**: Was soll das System leisten?\n➤ **2. Architektur-Design**: Welche Struktur ist optimal?\n➤ **3. Implementierungsstrategie**: Schrittweise Umsetzung\n➤ **4. Testing & Validierung**: Qualitätssicherung\n\nTeilen Sie Ihren Code oder Ihre Anforderungen - ich analysiere das Problem und schläge Lösungen vor!")
  const V3MathReply := Template("Mathematik und Berechnungen gehören zu meinen Kernkompetenzen! ", " kann Sie unterstützen bei:\n\n• **Grundrechenarten** und komplexe Gleichungen\n• **Algebra** und Analysis\n• **Statistik** und Wahrscheinlichkeitsrechnung\n• **Geometrie** und Trigonometrie\n• **Lineare Algebra** und Differentialgleichungen\n\nStellen Sie Ihre mathematische Frage - ich erkläre jeden Schritt ausführlich!")
  const R1MathReply := Template("Für mathematische Probleme verwende ich als ", " eine strukturierte Herangehensweise:\n\n▶ **Problemidentifikation**: Was ist gegeben, was gesucht?\n▶ **Methodenauswahl**: Welcher Lösungsweg ist effizient?\n▶ **Schrittweise Lösung**: Jeder Rechenschritt wird dokumentiert\n▶ **Verifikation**: Plausibilitätsprüfung des Ergebnisses\n\nZeigen Sie mir Ihr mathematisches Problem!")
  const V3WritingReply := Template("Textproduktion ist eine meiner Stärken! ", " unterstützt Sie bei:\n\n• **Geschäftskommunikation**: E-Mails, Berichte, Präsentationen\n• **Kreatives Schreiben**: Geschichten, Artikel, Blog-Posts\n• **Technische Dokumentation**: Anleitungen, Spezifikationen\n• **Akademisches Schreiben**: Essays, Zusammenfassungen\n\nSagen Sie mir, welche Art von Text Sie benötigen!")
  const R1WritingReply := Template("Beim Schreiben folge ich als ", " einem systematischen Prozess:\n\n1. **Zielsetzung definieren**: Zielgruppe und Zweck klären\n2. **Struktur entwickeln**: Logischen Aufbau planen\n3. **Inhalte ausarbeiten**: Systematische Texterstellung\n4. **Revision & Optimierung**: Klarheit und Kohärenz prüfen\n\nBeschreiben Sie Ihr Schreibprojekt!")
  const V3DataReply := Template("Datenanalyse ist eine meiner Spezialitäten! ", " bietet:\n\n• **Datenvisualisierung** und Muster-Erkennung\n• **Statistische Analysen** und Hypothesen-Tests\n• **Machine Learning** Ansätze\n• **Marktforschung** und Trend-Analyse\n\nWelche Daten möchten Sie analysieren?")
  const R1DataReply := Template("Für Datenanalysen verwende ich als ", " eine methodische Herangehensweise:\n\n▪ **Datenqualität prüfen**: Vollständigkeit und Konsistenz\n▪ **Explorative Analyse**: Muster und Anomalien identifizieren\n▪ **Hypothesen formulieren**: Testbare Annahmen entwickeln\n▪ **Validierung**: Ergebnisse statistisch absichern\n\nTeilen Sie Ihre Daten oder Forschungsfrage!")

  const V3GeneralReplies := [
    Template("Das ist eine spannende Frage! Als ", " kann ich verschiedene Perspektiven dazu anbieten. Lassen Sie mich das für Sie durchdenken..."),
    Template("Interessant! Mit den erweiterten Fähigkeiten von ", " kann ich Ihnen eine umfassende Antwort geben. Hier meine Analyse..."),
    Template("Ausgezeichnete Frage! Als fortschrittliches ", " System erkenne ich mehrere wichtige Aspekte. Lassen Sie mich diese für Sie aufschlüsseln...")
  ]
  const R1GeneralReplies := [
    Template("Lassen Sie mich das systematisch angehen. Als ", " strukturiere ich die Antwort logisch:\n\n▶ Kernproblem identifizieren\n▶ Relevante Faktoren analysieren\n▶ Lösungsoptionen bewerten\n▶ Empfehlung aussprechen"),
    Template("Das erfordert eine durchdachte Betrachtung. Mit ", " analysiere ich:\n\n1. **Kontext**: Was ist der Hintergrund?\n2. **Faktoren**: Welche Elemente sind relevant?\n3. **Zusammenhänge**: Wie beeinflussen sie sich?\n4. **Implikationen**: Was bedeutet das praktisch?"),
    Template("Interessante Fragestellung! Als ", " gehe ich methodisch vor:\n\n• **Problem**: Kern der Fragestellung erfassen\n• **Analyse**: Systematische Untersuchung\n• **Synthese**: Erkenntnisse zusammenfügen\n• **Lösung**: Praktikable Empfehlung geben")
  ]
  const V3FollowUp := "\n\nIhre detaillierte Frage zeigt, dass Sie bereits über das Thema nachgedacht haben. Können Sie spezifizieren, welcher Aspekt Sie besonders interessiert?"
  const R1FollowUp := "\n\nUm eine präzise Analyse zu gewährleisten, können Sie mir weitere Details zu den spezifischen Aspekten geben, die Sie interessieren?"

  /** The fixed reply of a recognised topic. Every one of them names the
      persona in mid-sentence: there is text before and after the name. */
  function TopicReply(topic: Topic, isV3: bool): (r: Template)
    requires topic != General
    ensures r.head != [] && r.tail != []
  {
    match topic
    case Greeting => if isV3 then V3GreetingReply else R1GreetingReply
    case Programming => if isV3 then V3ProgrammingReply else R1ProgrammingReply
    case Math => if isV3 then V3MathReply else R1MathReply
    case Writing => if isV3 then V3WritingReply else R1WritingReply
    case Data => if isV3 then V3DataReply else R1DataReply
  }

  /** Each recognised topic has its own reply, and the two personas never
      give the same reply to the same topic. */
  lemma TopicRepliesDistinct(t: Topic, u: Topic, isV3: bool, isV3b: bool)
    requires t != General && u != General
    requires t != u || isV3 != isV3b
    ensures TopicReply(t, isV3) != TopicReply(u, isV3b)
  {
  }

  function GeneralReplies(isV3: bool): seq<Template> {
    if isV3 then V3GeneralReplies else R1GeneralReplies
  }

  function FollowUp(isV3: bool): string {
    if isV3 then V3FollowUp else R1FollowUp
  }

  /** `messageHistory[messageHistory.length - 1]?.content || ""`. */
  function LastUserMessage(history: seq<ClientMessage>): (r: string)
    ensures history == [] ==> r == ""
    // a non-empty result is the content of the last message, whatever its role
    ensures r != "" ==> history[|history| - 1].content == Some(r)
    ensures history != [] && history[|history| - 1].content.Some? ==> r == history[|history| - 1].content.value
  {
    if history == [] then ""
    else
      var content := history[|history| - 1].content;
      if content.Some? then content.value else ""
  }

  /** `generateIntelligentResponse(modelType, messageHistory)`, with the
      index `Math.random()` picks. Every reply names the persona of the
      requested model; a recognised topic decides the reply whatever the
      pick; a general reply is the picked text, followed by a question
      back exactly when the message is longer than 100 characters. */
  function GenerateIntelligentResponse(modelType: string, history: seq<ClientMessage>, pick: Pick): (r: string)
    ensures Contains(r, PersonaName(modelType == V3Name))
    ensures var msg := LastUserMessage(history);
      var isV3 := modelType == V3Name;
      var topic := Classify(msg);
      (topic != General ==> r == Render(TopicReply(topic, isV3), PersonaName(isV3))) &&
      (topic == General ==>
        StartsWith(r, Render(GeneralReplies(isV3)[pick], PersonaName(isV3))) &&
        (|r| > |Render(GeneralReplies(isV3)[pick], PersonaName(isV3))| <==> |msg| > 100) &&
        r == Render(GeneralReplies(isV3)[pick], PersonaName(isV3)) + (if |msg| > 100 then FollowUp(isV3) else ""))
  {
    var msg := LastUserMessage(history);
    var isV3 := modelType == V3Name;
    var name := PersonaName(isV3);
    var topic := Classify(msg);
    if topic != General then
      var t := TopicReply(topic, isV3);
      OccursInConcat(t.head, name, t.tail);
      Render(t, name)
    else
      GeneralReply(msg, isV3, pick)
  }

  /** The reply to a message no topic recognises: the picked general text,
      followed by a question back when the message is longer than 100
      characters. */
  function GeneralReply(msg: string, isV3: bool, pick: Pick): (r: string)
    ensures Contains(r, PersonaName(isV3))
    ensures StartsWith(r, Render(GeneralReplies(isV3)[pick], PersonaName(isV3)))
    ensures |r| > |Render(GeneralReplies(isV3)[pick], PersonaName(isV3))| <==> |msg| > 100
    ensures r == Render(GeneralReplies(isV3)[pick], PersonaName(isV3)) + (if |msg| > 100 then FollowUp(isV3) else "")
  {
    var name := PersonaName(isV3);
    var t := GeneralReplies(isV3)[pick];
    var selected := Render(t, name);
    if |msg| > 100 then
      OccursInConcat(t.head, name, t.tail + FollowUp(isV3));
      assert t.head + name + (t.tail + FollowUp(isV3)) == selected + FollowUp(isV3);
      assert (selected + FollowUp(isV3))[..|selected|] == selected;
      selected + FollowUp(isV3)
    else
      OccursInConcat(t.head, name, t.tail);
      assert selected + "" == selected;
      selected
  }

  /** A message with no text, blank text or no message at all is greeted. */
  lemma BlankMessageIsGreeted(modelType: string, history: seq<ClientMessage>, pick: Pick)
    requires IsBlank(LastUserMessage(history))
    ensures GenerateIntelligentResponse(modelType, history, pick) ==
            Render(TopicReply(Greeting, modelType == V3Name), PersonaName(modelType == V3Name))
  {
  }

  /** The greeting test comes first and looks for "hi" anywhere: a plea for
      help with mathematics ("Hilfe" starts with "hi") is answered with the
      greeting although it also passes the mathematics test. */
  lemma GreetingShadowsMath()
    ensures Matches("Hilfe bei Mathe", Math)
    ensures Classify("Hilfe bei Mathe") == Greeting
  {
    var msg := "Hilfe bei Mathe";
    var lower := ToLower(msg);
    assert lower[0] == 'h' && lower[1] == 'i';
    assert lower[0..2] == "hi";
    assert OccursAt(lower, "hi", 0) && "hi" in GreetingWords;
    assert lower[10] == 'm' && lower[11] == 'a' && lower[12] == 't' && lower[13] == 'h' && lower[14] == 'e';
    assert lower[10..15] == "mathe";
    assert OccursAt(lower, "mathe", 10) && "mathe" in MathWords;
  }

  /** What the function answers once the request has gone out: DeepSeek's
      content (or "" when it has none) on a parsed success; the simulated
      reply when the request fails, DeepSeek answers with an error status,
      the body is not JSON, or it is `null` (reading its `usage` throws
      inside the same `try`). */
  function EdgeReply(upstream: Upstream, model: string, history: seq<ClientMessage>, pick: Pick): (r: string)
    ensures upstream.Answered? && upstream.body.Parsed? && upstream.body.content.Some? ==>
            r == upstream.body.content.value
    ensures upstream.Answered? && upstream.body.Parsed? && upstream.body.content.None? ==> r == ""
    ensures !(upstream.Answered? && upstream.body.Parsed?) ==>
            r == GenerateIntelligentResponse(model, history, pick) && Contains(r, PersonaName(model == V3Name))
  {
    match upstream
    case Answered(Parsed(content)) => if content.Some? then content.value else ""
    case _ => GenerateIntelligentResponse(model, history, pick)
  }

  /** Whenever DeepSeek does not deliver a parsed answer, the client still
      gets a reply, in the voice of the persona it asked for. */
  lemma FallbackNamesPersona(upstream: Upstream, model: string, history: seq<ClientMessage>, pick: Pick)
    requires !(upstream.Answered? && upstream.body.Parsed?)
    ensures Contains(EdgeReply(upstream, model, history, pick), PersonaName(model == V3Name))
  {
  }

  /** The request handler passed to `serve`, for one request. */
  method HandleRequest(req: EdgeRequest, env: EdgeEnv, upstream: Upstream, pick: Pick)
    returns (resp: EdgeResponse, sent: Option<DeepSeekRequest>)
    // the CORS preflight is answered before anything else
    ensures req.httpMethod == "OPTIONS" ==> resp == EdgeResponse(200, NoBody) && sent.None?
    // the keys are checked before the body is read
    ensures req.httpMethod != "OPTIONS" && !KeysSet(env) ==>
      resp == EdgeResponse(500, ErrorJson(KeysMissing)) && sent.None?
    ensures req.httpMethod != "OPTIONS" && KeysSet(env) && req.body.Unreadable? ==>
      resp == EdgeResponse(500, ErrorJson(req.body.message)) && sent.None?
    ensures req.httpMethod != "OPTIONS" && KeysSet(env) && req.body.Body? && !req.body.messages.Messages? ==>
      resp == EdgeResponse(400, ErrorJson(InvalidPayload)) && sent.None?
    // a valid payload is forwarded behind the system prompt, and answered
    // with 200 whatever DeepSeek does
    ensures req.httpMethod != "OPTIONS" && KeysSet(env) && req.body.Body? && req.body.messages.Messages? ==>
      var model := RequestedModel(req.body.model);
      var config := GetModelConfig(model);
      sent == Some(DeepSeekRequest(config.actualModel,
                                   [ClientMessage("system", Some(config.systemPrompt))] + req.body.messages.items,
                                   4096, false, SelectApiKey(model, env))) &&
      resp == EdgeResponse(200, ReplyJson(EdgeReply(upstream, model, req.body.messages.items, pick)))
    // an error status means nothing was sent upstream
    ensures resp.status != 200 <==> resp.body.ErrorJson?
    ensures sent.Some? ==> resp.status == 200 && resp.body.ReplyJson?
  {
    if req.httpMethod == "OPTIONS" {
      return EdgeResponse(200, NoBody), None;
    }
    if !KeysSet(env) {
      return EdgeResponse(500, ErrorJson(KeysMissing)), None;
    }
    if req.body.Unreadable? {
      return EdgeResponse(500, ErrorJson(req.body.message)), None;
    }
    var model := RequestedModel(req.body.model);
    var config := GetModelConfig(model);
    if !req.body.messages.Messages? {
      return EdgeResponse(400, ErrorJson(InvalidPayload)), None;
    }
    var messages := req.body.messages.items;
    var systemMessage := ClientMessage("system", Some(config.systemPrompt));
    var requestBody := DeepSeekRequest(config.actualModel, [systemMessage] + messages, config.maxTokens, false, SelectApiKey(model, env));
    sent := Some(requestBody);
    var reply := "";
    match upstream {
      case Answered(Parsed(content)) =>
        reply := if content.Some? then content.value else "";
      case _ =>
        reply := GenerateIntelligentResponse(model, messages, pick);
    }
    resp := EdgeResponse(200, ReplyJson(reply));
  }

  /** A body without `model` is served as `deepseek-chat` with the generic
      prompt, yet it is sent with the R1 key and its simulated replies
      speak as DeepSeek R1: only `deepseek-v3` selects the V3 key and
      persona. */
  lemma DefaultModelUsesR1Key(env: EdgeEnv, history: seq<ClientMessage>, pick: Pick)
    requires KeysSet(env)
    ensures GetModelConfig(RequestedModel(None)) == ModelConfig("deepseek-chat", 4096, DefaultPrompt)
    ensures SelectApiKey(RequestedModel(None), env) == env.r1Key.value
    ensures Contains(GenerateIntelligentResponse(RequestedModel(None), history, pick), "DeepSeek R1")
  {
  }
}
