/** `RAGService`: construction, retrieval delegation and the assembly of
    the chat-completion request. The embedding and completion providers are
    parameters of the functions that call them. */
module Rag {
  import opened Common
  import opened Text
  import Settings
  import opened Store

  /** A constructed service; construction needs an API key. */
  datatype Service = Service(apiKey: string)

  const MissingKeyMessage: string := "OPENAI_API_KEY is not configured"

  /** `RAGService()`: fails exactly when the configured API key is empty. */
  function NewService(apiKey: string): (r: Result<Service, string>)
    ensures r.Failure? <==> apiKey == ""
    ensures r.Failure? ==> r.error == MissingKeyMessage
    ensures r.Success? ==> r.value.apiKey == apiKey
  {
    if apiKey == "" then Failure(MissingKeyMessage) else Success(Service(apiKey))
  }

  /** With the default settings (no key in the environment) the service
      cannot be constructed. */
  lemma DefaultSettingsRejectService()
    ensures NewService(Settings.OpenAiApiKey).Failure?
  {
  }

  /** The embedding provider: model name and text to a vector. */
  type Embedder = (string, string) -> seq<real>

  /** `embed_text`: one call to the provider with the configured model. */
  function EmbedText(svc: Service, embed: Embedder, text: string): seq<real> {
    embed(Settings.EmbeddingModel, text)
  }

  /** `find_relevant_chunks`: the store is always asked for the configured
      `rag_top_k` results. */
  function FindRelevantChunks(svc: Service, nearest: NearestQuery, queryEmbedding: seq<real>): (r: seq<RetrievedChunk>)
    ensures r == QueryDocumentChunks(nearest, queryEmbedding, Settings.RagTopK)
  {
    QueryDocumentChunks(nearest, queryEmbedding, Settings.RagTopK)
  }

  /** One role-tagged chat message. */
  datatype ChatTurn = ChatTurn(role: string, content: string)

  /** What is sent to the completion provider. */
  datatype CompletionRequest = CompletionRequest(model: string, messages: seq<ChatTurn>, temperature: real)

  /** The completion provider: the reply content, "" standing for none. */
  type Completion = CompletionRequest -> string

  const Temperature: real := 0.2

  const BaseSystemPrompt: string :=
    "You are a professional call-center support chatbot. "
    + "You must answer strictly and only from the provided PDF context snippets. "
    + "If the answer is missing in context, reply exactly: "
    + "'" + Settings.RefusalText + "'"

  const TemplateHeader: string := "\n\nPrompt template:\n"
  const NoContextText: string := "No relevant context found."
  const ContextHeader: string := "Context:\n"
  const QuestionHeader: string := "\n\nImportant: answer only from context sourced from PDF documents.\n\nCustomer question:\n"
  const GenerationFallback: string := "I could not generate a response."

  /** The block one chunk contributes to the context. */
  function ContextBlock(c: RetrievedChunk): (b: string)
    ensures |b| > 0
  {
    "Source: " + c.source + "\n" + c.chunkText
  }

  function ContextBlocks(chunks: seq<RetrievedChunk>): (bs: seq<string>)
    ensures |bs| == |chunks|
    ensures forall i :: 0 <= i < |chunks| ==> bs[i] == ContextBlock(chunks[i])
  {
    seq(|chunks|, i requires 0 <= i < |chunks| => ContextBlock(chunks[i]))
  }

  /** The context string: the chunk blocks in chunk order separated by a
      blank line. */
  function BuildContext(chunks: seq<RetrievedChunk>): string {
    Join("\n\n", ContextBlocks(chunks))
  }

  /** One more chunk appends a blank line and that chunk's block to a
      non-empty context, so the blocks appear in chunk order. */
  lemma BuildContextAppend(chunks: seq<RetrievedChunk>, c: RetrievedChunk)
    requires |chunks| > 0
    ensures BuildContext(chunks + [c]) == BuildContext(chunks) + "\n\n" + ContextBlock(c)
  {
    assert ContextBlocks(chunks + [c]) == ContextBlocks(chunks) + [ContextBlock(c)];
    JoinAppend("\n\n", ContextBlocks(chunks), ContextBlock(c));
  }

  /** The context is empty exactly when there are no chunks, its length is
      the blocks' lengths plus two characters per separator, and a single
      chunk gives its block alone. */
  lemma BuildContextShape(chunks: seq<RetrievedChunk>)
    ensures BuildContext(chunks) == "" <==> |chunks| == 0
    ensures |chunks| > 0 ==> |BuildContext(chunks)| == TotalLength(ContextBlocks(chunks)) + 2 * (|chunks| - 1)
    ensures |chunks| == 1 ==> BuildContext(chunks) == ContextBlock(chunks[0])
  {
    var bs := ContextBlocks(chunks);
    JoinLength("\n\n", bs);
    PositiveTotalLength(bs);
  }

  lemma PositiveTotalLength(bs: seq<string>)
    ensures |bs| > 0 && |bs[0]| > 0 ==> TotalLength(bs) > 0
  {
  }

  /** The system prompt: the fixed base text, followed by the template under
      a header only when a non-empty template is given. */
  function SystemPrompt(template: Option<string>): string {
    if template.Some? && template.value != "" then BaseSystemPrompt + TemplateHeader + template.value
    else BaseSystemPrompt
  }

  /** The system prompt always starts with the base text; it is the base
      text alone exactly when no non-empty template is given, and otherwise
      carries the header and ends with the template verbatim. */
  lemma SystemPromptShape(template: Option<string>)
    ensures BaseSystemPrompt <= SystemPrompt(template)
    ensures SystemPrompt(template) == BaseSystemPrompt <==> template.None? || template.value == ""
    ensures template.Some? && template.value != "" ==>
      var r := SystemPrompt(template);
      && |r| == |BaseSystemPrompt| + |TemplateHeader| + |template.value|
      && r[|BaseSystemPrompt|..|BaseSystemPrompt| + |TemplateHeader|] == TemplateHeader
      && EndsWith(r, template.value)
  {
    if template.Some? && template.value != "" {
      var r := SystemPrompt(template);
      assert r[|BaseSystemPrompt|..|BaseSystemPrompt| + |TemplateHeader|] == TemplateHeader;
    }
  }

  /** The final user message: the context, or the placeholder when it is
      empty, then the fixed instruction, then the question verbatim. */
  function UserContent(context: string, question: string): string {
    var shown := if context != "" then context else NoContextText;
    ContextHeader + shown + QuestionHeader + question
  }

  /** The user message starts with the context (the placeholder when the
      context is empty) under its header, followed by the instruction, and
      ends with the question verbatim. */
  lemma UserContentShape(context: string, question: string)
    ensures context == "" ==> ContextHeader + NoContextText + QuestionHeader <= UserContent(context, question)
    ensures context != "" ==> ContextHeader + context + QuestionHeader <= UserContent(context, question)
    ensures EndsWith(UserContent(context, question), QuestionHeader + question)
  {
    var shown := if context != "" then context else NoContextText;
    var r := UserContent(context, question);
    assert r == (ContextHeader + shown + QuestionHeader) + question;
    assert r == ContextHeader + shown + (QuestionHeader + question);
  }

  /** The message list: the system message, the history with its roles,
      contents and order, then the user message. */
  function BuildMessages(history: seq<ChatTurn>, system: string, user: string): (r: seq<ChatTurn>)
    ensures |r| == |history| + 2
    ensures r[0] == ChatTurn("system", system)
    ensures r[1..|r| - 1] == history
    ensures r[|r| - 1] == ChatTurn("user", user)
  {
    [ChatTurn("system", system)] + history + [ChatTurn("user", user)]
  }

  /** The request `generate_answer` sends. */
  function AnswerRequest(userMessage: string, contextChunks: seq<RetrievedChunk>, history: seq<ChatTurn>, template: Option<string>): CompletionRequest {
    CompletionRequest(
      Settings.ChatModel,
      BuildMessages(history, SystemPrompt(template), UserContent(BuildContext(contextChunks), userMessage)),
      Temperature)
  }

  /** The request uses the configured chat model at temperature 0.2; it
      holds `|history| + 2` messages, the first one the system prompt, the
      last one a user message ending with the question verbatim, which shows
      the placeholder exactly when there are no chunks. */
  lemma AnswerRequestShape(userMessage: string, contextChunks: seq<RetrievedChunk>, history: seq<ChatTurn>, template: Option<string>)
    ensures var q := AnswerRequest(userMessage, contextChunks, history, template);
      var last := q.messages[|q.messages| - 1];
      && q.model == "gpt-4.1-mini" && q.temperature == 2.0 / 10.0
      && |q.messages| == |history| + 2
      && q.messages[0] == ChatTurn("system", SystemPrompt(template))
      && q.messages[1..|history| + 1] == history
      && last.role == "user"
      && EndsWith(last.content, userMessage)
      && (|contextChunks| == 0 ==> ContextHeader + NoContextText + QuestionHeader <= last.content)
      && (|contextChunks| > 0 ==> ContextHeader + BuildContext(contextChunks) + QuestionHeader <= last.content)
  {
    BuildContextShape(contextChunks);
    UserContentShape(BuildContext(contextChunks), userMessage);
  }

  /** `generate_answer`: the provider's reply, or the fixed fallback when the
      reply is empty, so the answer is never empty. */
  function GenerateAnswer(
    svc: Service, complete: Completion, userMessage: string, contextChunks: seq<RetrievedChunk>,
    history: seq<ChatTurn>, template: Option<string> := None): (r: string)
    ensures r != ""
    ensures var reply := complete(AnswerRequest(userMessage, contextChunks, history, template));
      && (reply != "" ==> r == reply)
      && (reply == "" ==> r == GenerationFallback)
  {
    var reply := complete(AnswerRequest(userMessage, contextChunks, history, template));
    if reply != "" then reply else GenerationFallback
  }
}
