/** The classification layer: it assembles the chat request sent to the
    structured-extraction provider, absorbs every failure of that call into
    one fixed fallback record, and asks the embedding provider for a vector,
    answering an empty vector when that fails.

    The providers are parameters: `Extractor` stands for the chat "parse"
    call (its `Failure` is any exception it raises) and `Embedder` for the
    embeddings call. The wall clock (`datetime.now()`) is the parameter `now`. */
module AgentService {
  import opened Wrappers
  import opened Strings
  import opened DateTimes

  /** The classification record, with the fields the fallback constructor
      fills in; the provider's values are not validated any further. */
  datatype AgentResponse = AgentResponse(
    intent: string,
    content: string,
    category: string,
    dueDate: Option<DateTime>,
    isComplete: bool,
    clarificationQuestion: Option<string>)

  /** One role-tagged chat message (`{"role": ..., "content": ...}`). */
  datatype Message = Message(role: string, content: string)

  datatype ChatRequest = ChatRequest(model: string, messages: seq<Message>)

  /** One entry of `completion.choices`, carrying `message.parsed`. */
  datatype Choice = Choice(parsed: AgentResponse)

  /** The structured-extraction call: the choices it returns, or the message
      of the exception it raises. */
  type Extractor = ChatRequest -> Result<seq<Choice>, string>

  datatype EmbeddingRequest = EmbeddingRequest(model: string, input: string)

  /** The embeddings call: `response.data` as a list of vectors, or the
      message of the exception it raises. */
  type Embedder = EmbeddingRequest -> Result<seq<seq<real>>, string>

  /** The caller's context variables, as key-value pairs in the dictionary's
      iteration order. */
  type Context = seq<(string, string)>

  const ChatModel := "gpt-4o"
  const EmbeddingModel := "text-embedding-3-small"

  const SystemPrompt: string :=
    "You are a helpful assistant that classifies user voice input and extracts structured data.\n" +
    "\n" +
    "Your tasks:\n" +
    "1. Determine the INTENT:\n" +
    "   - 'NOTE': A statement of fact, observation, or information to remember\n" +
    "   - 'REMINDER': A task or action item that needs to be done\n" +
    "   - 'QUERY': A question or request for information\n" +
    "\n" +
    "2. Clean up the CONTENT: Remove filler words, fix grammar, and make it concise\n" +
    "\n" +
    "3. Categorize the content: Assign a category like 'Work', 'Personal', 'Health', 'Finance', 'Data Persistence', etc.\n" +
    "\n" +
    "4. Extract DUE_DATE for reminders:\n" +
    "   - If the user mentions a relative time ('tomorrow', 'next Friday', 'in 3 days'), convert it to an ISO datetime string\n" +
    "   - Use the current datetime provided in the user message as reference\n" +
    "   - If no timeframe is mentioned for a REMINDER, set due_date to null\n" +
    "\n" +
    "5. Check if the instruction IS_COMPLETE:\n" +
    "   - For REMINDERS: If missing critical details (e.g., \"when?\", \"who?\", \"what specifically?\"), set is_complete to False\n" +
    "   - For NOTES: Usually complete unless obviously fragmented\n" +
    "   - For QUERIES: Check if the question is clear\n" +
    "\n" +
    "6. Generate a CLARIFICATION_QUESTION if is_complete is False\n" +
    "\n" +
    "Important date resolution examples:\n" +
    "- \"tomorrow\" \U{2192} Add 1 day to current date\n" +
    "- \"next Friday\" \U{2192} Find the next occurrence of Friday\n" +
    "- \"in 3 days\" \U{2192} Add 3 days to current date\n" +
    "- \"end of month\" \U{2192} Last day of current month\n" +
    "- \"next week\" \U{2192} 7 days from now\n" +
    "\n" +
    "Always be helpful and precise."

  const FallbackQuestion := "I encountered an error processing your request. Could you please rephrase?"

  /** The record returned in place of a failed extraction; the one place
      where it is built, so both classification paths return the same one. */
  function Fallback(text: string): AgentResponse {
    AgentResponse("NOTE", text, "Uncategorized", None, false, Some(FallbackQuestion))
  }

  /** The fallback keeps the input text unmodified, files it as an
      uncategorised note without due date, and is always marked incomplete
      with a non-empty clarification question. */
  lemma FallbackRecord(text: string)
    ensures var r := Fallback(text);
      && r.intent == "NOTE" && r.content == text && r.category == "Uncategorized"
      && r.dueDate == None && !r.isComplete
      && r.clarificationQuestion.Some? && |r.clarificationQuestion.value| > 0
  {
  }

  /** `f"- {key}: {value}"`. */
  function ContextLine(kv: (string, string)): string {
    "- " + kv.0 + ": " + kv.1
  }

  /** The list comprehension over the context items. */
  function ContextLines(vars: Context): seq<string>
  {
    seq(|vars|, i requires 0 <= i < |vars| => ContextLine(vars[i]))
  }

  /** `"\n".join(...)` of the context lines. */
  function RenderContext(vars: Context): string {
    Join(ContextLines(vars), "\n")
  }

  predicate NoNewlines(vars: Context) {
    forall i :: 0 <= i < |vars| ==> Free(vars[i].0, '\n') && Free(vars[i].1, '\n')
  }

  /** Each pair is rendered as `- key: value` on its own line, in iteration
      order: cutting the rendering at its newlines gives back exactly those
      lines, one per pair (for keys and values without newlines); no pair
      renders as nothing. */
  lemma RenderContextLines(vars: Context)
    requires NoNewlines(vars)
    ensures |vars| == 0 ==> RenderContext(vars) == ""
    ensures |vars| > 0 ==> Split(RenderContext(vars), '\n') == ContextLines(vars)
    ensures |vars| > 0 ==> |RenderContext(vars)| > 0
  {
    var lines := ContextLines(vars);
    if |vars| > 0 {
      forall i | 0 <= i < |lines| ensures Free(lines[i], '\n') {
        assert lines[i] == "- " + vars[i].0 + ": " + vars[i].1;
      }
      SplitJoin(lines, '\n');
      assert |lines[0]| > 0;
      if |lines| > 1 {
        assert RenderContext(vars) == lines[0] + "\n" + Join(lines[1..], "\n");
      }
    }
  }

  /** The fixed part of the user turn: the invocation time, a blank line, and
      the input text in double quotes. */
  function Header(now: DateTime, text: string): string {
    "Current datetime: " + IsoFormat(now) + "\n\nUser input: \"" + text + "\"\n"
  }

  /** The user turn: the header, then a "Global context:" section only when
      there are context variables; `None` counts as no variables. */
  function UserMessage(now: DateTime, text: string, contextVars: Option<Context>): string {
    var vars := contextVars.GetOr([]);
    Header(now, text) + (if |vars| > 0 then "\nGlobal context:\n" + RenderContext(vars) + "\n" else "")
  }

  /** The user turn as `classify_input` builds it: a formatted string, grown with
      `+=` when there are context variables. */
  method BuildUserMessage(now: DateTime, text: string, contextVars: Option<Context>)
    returns (userMessage: string)
    ensures userMessage == UserMessage(now, text, contextVars)
    ensures StartsWith(userMessage, "Current datetime: " + IsoFormat(now) + "\n\nUser input: \"" + text + "\"\n")
  {
    var vars: Context;
    if contextVars.None? {
      vars := [];
    } else {
      vars := contextVars.value;
    }
    userMessage := "Current datetime: " + IsoFormat(now) + "\n\nUser input: \"" + text + "\"\n";
    if |vars| > 0 {
      var contextStr := RenderContext(vars);
      userMessage := userMessage + "\nGlobal context:\n" + contextStr + "\n";
    }
  }

  /** The user turn starts with the header, and the context section is
      absent exactly when there are no context variables (`None` and an
      empty dictionary alike); when present it follows the header as
      `\nGlobal context:\n<rendering>\n`. */
  lemma UserMessageSections(now: DateTime, text: string, contextVars: Option<Context>)
    ensures var msg, h := UserMessage(now, text, contextVars), Header(now, text);
      && StartsWith(msg, h)
      && (msg == h <==> contextVars.GetOr([]) == [])
      && (contextVars.GetOr([]) != [] ==>
            msg[|h|..] == "\nGlobal context:\n" + RenderContext(contextVars.GetOr([])) + "\n")
  {
    var msg, h := UserMessage(now, text, contextVars), Header(now, text);
    var vars := contextVars.GetOr([]);
    if vars != [] {
      var tail := "\nGlobal context:\n" + RenderContext(vars) + "\n";
      assert msg == h + tail;
      assert msg[..|h|] == h && msg[|h|..] == tail;
      assert |msg| > |h|;
    } else {
      assert msg == h;
    }
  }

  /** With no context, `None` and `{}` make the same user turn. */
  lemma NoneContextIsEmpty(now: DateTime, text: string)
    ensures UserMessage(now, text, None) == UserMessage(now, text, Some([]))
  {
  }

  function SystemMessage(): Message {
    Message("system", SystemPrompt)
  }

  function UserTurn(userMessage: string): Message {
    Message("user", userMessage)
  }

  /** The request `classify_input` sends. */
  function ClassifyRequest(now: DateTime, text: string, contextVars: Option<Context>): ChatRequest {
    ChatRequest(ChatModel, [SystemMessage(), UserTurn(UserMessage(now, text, contextVars))])
  }

  /** The message list `classify_with_history` sends. */
  function HistoryMessages(history: seq<Message>, userMessage: string): seq<Message> {
    [SystemMessage()] + history + [UserTurn(userMessage)]
  }

  /** The message list built step by step: the system prompt, then
      `extend(conversation_history)`, then `append` of the user turn. */
  method BuildMessages(history: seq<Message>, userMessage: string) returns (messages: seq<Message>)
    ensures messages == HistoryMessages(history, userMessage)
    ensures |messages| == |history| + 2
    ensures messages[0] == Message("system", SystemPrompt)
    ensures forall i :: 0 <= i < |history| ==> messages[i + 1] == history[i]
    ensures messages[|messages| - 1] == Message("user", userMessage)
  {
    messages := [Message("system", SystemPrompt)];
    messages := messages + history;
    messages := messages + [Message("user", userMessage)];
  }

  /** The request `classify_with_history` sends. */
  function HistoryRequest(now: DateTime, text: string, history: seq<Message>,
                          contextVars: Option<Context>): ChatRequest
  {
    ChatRequest(ChatModel, HistoryMessages(history, UserMessage(now, text, contextVars)))
  }

  /** `classify_input` sends exactly two messages, the system prompt first
      and the user turn second. */
  lemma ClassifyRequestShape(now: DateTime, text: string, contextVars: Option<Context>)
    ensures var req := ClassifyRequest(now, text, contextVars);
      && req.model == "gpt-4o"
      && |req.messages| == 2
      && req.messages[0] == Message("system", SystemPrompt)
      && req.messages[1] == Message("user", UserMessage(now, text, contextVars))
  {
  }

  /** `classify_with_history` sends the system prompt, every history entry
      unchanged and in order, then the same user turn `classify_input`
      would send; with an empty history it is the `classify_input` request. */
  lemma HistoryRequestShape(now: DateTime, text: string, history: seq<Message>,
                            contextVars: Option<Context>)
    ensures var req := HistoryRequest(now, text, history, contextVars);
      && req.model == ClassifyRequest(now, text, contextVars).model
      && |req.messages| == |history| + 2
      && req.messages[0] == Message("system", SystemPrompt)
      && req.messages[1..|history| + 1] == history
      && req.messages[|history| + 1] == ClassifyRequest(now, text, contextVars).messages[1]
      && (history == [] ==> req == ClassifyRequest(now, text, contextVars))
  {
    var req := HistoryRequest(now, text, history, contextVars);
    assert req.messages[1..|history| + 1] == history;
  }

  /** The try/except around the extraction call: the first parsed choice on
      success, the fallback when the call raises (including the `IndexError`
      of an empty choice list). */
  function ParsedOrFallback(outcome: Result<seq<Choice>, string>, text: string): AgentResponse {
    match outcome
    case Success(choices) => if |choices| > 0 then choices[0].parsed else Fallback(text)
    case Failure(_) => Fallback(text)
  }

  /** `classify_input`. It never raises: its result type has no error case. */
  function ClassifyInput(now: DateTime, text: string, contextVars: Option<Context>,
                         extract: Extractor): AgentResponse
  {
    ParsedOrFallback(extract(ClassifyRequest(now, text, contextVars)), text)
  }

  /** `classify_with_history`. */
  function ClassifyWithHistory(now: DateTime, text: string, history: seq<Message>,
                               contextVars: Option<Context>, extract: Extractor): AgentResponse
  {
    ParsedOrFallback(extract(HistoryRequest(now, text, history, contextVars)), text)
  }

  /** What a classification returns: the provider's first parsed value
      unchanged when the call succeeds with a choice, otherwise the fallback
      for the original text. */
  lemma ClassificationOutcome(outcome: Result<seq<Choice>, string>, text: string)
    ensures outcome.Success? && |outcome.value| > 0 ==>
              ParsedOrFallback(outcome, text) == outcome.value[0].parsed
    ensures outcome.Failure? || |outcome.value| == 0 ==>
              ParsedOrFallback(outcome, text) == Fallback(text)
  {
  }

  /** When the extraction fails on both requests, both classification paths
      return the same fallback, whatever the history. */
  lemma FallbackAgrees(now: DateTime, text: string, history: seq<Message>,
                       contextVars: Option<Context>, extract: Extractor)
    requires extract(ClassifyRequest(now, text, contextVars)).Failure?
    requires extract(HistoryRequest(now, text, history, contextVars)).Failure?
    ensures ClassifyInput(now, text, contextVars, extract) == Fallback(text)
    ensures ClassifyWithHistory(now, text, history, contextVars, extract) == Fallback(text)
  {
  }

  /** With an empty history, `classify_with_history` is `classify_input`. */
  lemma EmptyHistoryIsClassifyInput(now: DateTime, text: string,
                                    contextVars: Option<Context>, extract: Extractor)
    ensures ClassifyWithHistory(now, text, [], contextVars, extract)
         == ClassifyInput(now, text, contextVars, extract)
  {
    HistoryRequestShape(now, text, [], contextVars);
  }

  /** `get_embedding`: the provider's first vector, or `[]` when the call
      raises (including the `IndexError` of an empty `data` list). */
  function GetEmbedding(text: string, embed: Embedder): seq<real> {
    match embed(EmbeddingRequest(EmbeddingModel, text))
    case Success(data) => if |data| > 0 then data[0] else []
    case Failure(_) => []
  }

  /** The embedding is the provider's vector when it answers, and it is
      empty exactly when the call fails, returns no vector, or returns an
      empty one. */
  lemma GetEmbeddingOutcome(text: string, embed: Embedder)
    ensures var out := embed(EmbeddingRequest("text-embedding-3-small", text));
      && (out.Success? && |out.value| > 0 ==> GetEmbedding(text, embed) == out.value[0])
      && (GetEmbedding(text, embed) == [] <==>
            out.Failure? || |out.value| == 0 || out.value[0] == [])
  {
  }
}
