/**
 * The boundary to the text-generation backend (world/llm.py): the message list
 * `get_response` builds, the `LLMClient` that prepends the system message and
 * turns every failure into `None`, and the lazily created module-wide client.
 * The OpenAI call itself is the `Reply` parameter; `run_async` is a plain call.
 */
module Llm {
  import opened Opt
  import opened Text

  /** One `{"role": ..., "content": ...}` chat entry. */
  datatype Message = Message(role: string, content: string)

  /** The Django settings the client reads (`OPENAI_API_KEY`, `OPENAI_MODEL`); `None` when unset. */
  datatype Settings = Settings(apiKey: Option<string>, model: Option<string>)

  /** What `chat.completions.create` does: raise, or return a first choice whose content may be `None`. */
  datatype Reply = Raises | Returns(content: Option<string>)

  /** The request put to the backend. */
  datatype Request = Request(model: string, messages: seq<Message>, maxTokens: nat)

  /** The arguments of one `get_response(prompt, system_prompt, history)` call. */
  datatype Call = Call(prompt: string, systemPrompt: string, history: seq<Message>)

  const DefaultModel := "gpt-4o-mini"
  const DefaultSystemPrompt := "You are a helpful assistant in a MUD game."
  const MaxTokens := 150

  /**
   * The messages `get_response` sends for `prompt` after `history` (an absent
   * history or prompt is the empty one): the history, untouched, followed by at
   * most one user entry holding the prompt; that entry is left out when the prompt
   * is empty or already is the content of the last history entry, so a non-empty
   * prompt is always the content of the last message sent.
   */
  function Compose(prompt: string, history: seq<Message>): (msgs: seq<Message>)
    ensures |history| <= |msgs| <= |history| + 1 && forall i :: 0 <= i < |history| ==> msgs[i] == history[i]
    ensures |msgs| == |history| + 1 ==> msgs[|history|] == Message("user", prompt)
    ensures |msgs| == |history| + 1 <==>
              prompt != [] && (history == [] || history[|history| - 1].content != prompt)
    ensures prompt != [] ==> msgs != [] && msgs[|msgs| - 1].content == prompt
  {
    if prompt != [] && (history == [] || history[|history| - 1].content != prompt)
    then history + [Message("user", prompt)]
    else history
  }

  /** `LLMClient`: the configuration it was built with and whether an OpenAI client exists. */
  class LLMClient {
    const apiKey: Option<string>
    const model: string
    const hasClient: bool

    /**
     * `LLMClient()`: a client exists only when the key is set and non-empty and
     * building the OpenAI client did not raise; the model defaults to gpt-4o-mini.
     */
    constructor (settings: Settings, openAIRaises: bool)
      ensures apiKey == settings.apiKey
      ensures model == (if settings.model.Some? then settings.model.value else DefaultModel)
      ensures hasClient <==> settings.apiKey.Some? && settings.apiKey.value != [] && !openAIRaises
    {
      apiKey := settings.apiKey;
      model := if settings.model.Some? then settings.model.value else DefaultModel;
      hasClient := settings.apiKey.Some? && settings.apiKey.value != [] && !openAIRaises;
    }

    /**
     * `get_response_sync`: without a client nothing is sent and the result is `None`;
     * otherwise one request goes out, a system message with `systemPrompt` followed by
     * `messages` in order, and the result is the stripped content, or `None` when the
     * call raised or returned no content.
     */
    method GetResponseSync(messages: seq<Message>, systemPrompt: string, reply: Reply)
      returns (sent: Option<Request>, result: Option<string>)
      ensures !hasClient ==> sent == None && result == None
      ensures hasClient ==> sent.Some? && sent.value.model == model && sent.value.maxTokens == MaxTokens
      ensures hasClient ==> sent.value.messages == [Message("system", systemPrompt)] + messages
      ensures result.Some? <==> hasClient && reply.Returns? && reply.content.Some?
      ensures result.Some? ==> result.value == Strip(reply.content.value)
    {
      if !hasClient {
        return None, None;
      }
      var full := [Message("system", systemPrompt)] + messages;
      sent := Some(Request(model, full, MaxTokens));
      match reply {
        case Raises =>
          result := None;
        case Returns(content) =>
          // `None.strip()` raises AttributeError, which the same handler turns into `None`.
          result := if content.Some? then Some(Strip(content.value)) else None;
      }
    }
  }

  /**
   * The message list of `get_response`: a copy of `history`, then the prompt as a
   * user message unless the prompt is empty or already the last entry's content.
   */
  method CopyHistory(prompt: string, history: seq<Message>) returns (toSend: seq<Message>)
    ensures toSend == Compose(prompt, history)
  {
    var messages: seq<Message> := [];
    if history != [] {
      messages := messages + history;
    }
    toSend := messages;
    if prompt != [] {
      if toSend == [] || toSend[|toSend| - 1].content != prompt {
        toSend := toSend + [Message("user", prompt)];
      }
    }
    assert messages == history;
  }

  /** The module-level state of world/llm.py: the `_client` singleton, `None` until first use. */
  class LlmModule {
    var client: LLMClient?

    constructor ()
      ensures client == null
    {
      client := null;
    }

    /**
     * `get_response`: builds the client on first use only and reuses it afterwards,
     * copies `history` and appends the prompt as `Compose` says, and hands that list
     * to the client. The caller's history is a value and stays as it was.
     */
    method GetResponse(prompt: string, systemPrompt: string, history: seq<Message>,
                       settings: Settings, openAIRaises: bool, reply: Reply)
      returns (sent: Option<Request>, result: Option<string>)
      modifies this
      ensures old(client) != null ==> client == old(client)
      ensures old(client) == null ==> fresh(client) && client.apiKey == settings.apiKey
      ensures old(client) == null ==>
                (client.hasClient <==> settings.apiKey.Some? && settings.apiKey.value != [] && !openAIRaises)
      ensures client != null
      ensures !client.hasClient ==> sent == None && result == None
      ensures client.hasClient ==>
                sent == Some(Request(client.model, [Message("system", systemPrompt)] + Compose(prompt, history), MaxTokens))
      ensures result.Some? <==> client.hasClient && reply.Returns? && reply.content.Some?
      ensures result.Some? ==> result.value == Strip(reply.content.value)
    {
      if client == null {
        client := new LLMClient(settings, openAIRaises);
      }
      var toSend := CopyHistory(prompt, history);
      sent, result := client.GetResponseSync(toSend, systemPrompt, reply);
    }
  }
}
