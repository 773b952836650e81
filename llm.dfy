/**
  The chat wrapper (`src/llm/llama_llm.py`): a single-turn request of two
  messages with fixed sampling settings, and the reply read from the first
  choice. The llama.cpp engine is a function value supplied at load time.
 */
module Llm {
  import opened Wrappers
  import opened FileSystem

  /** One chat message, `{"role": role, "content": content}`. */
  datatype Message = Message(role: string, content: string)

  /** The arguments of one `create_chat_completion` call. */
  datatype CompletionRequest = CompletionRequest(messages: seq<Message>, maxTokens: int, temperature: real)

  datatype Choice = Choice(message: Message)

  /** The part of a completion response that is read: its list of choices. */
  datatype CompletionResponse = CompletionResponse(choices: seq<Choice>)

  /** Indexing `response["choices"][0]` fails when there is no choice. */
  datatype ChatError = NoChoices

  /** A single conversational turn: a system prompt and the user's message. */
  datatype ChatTurn = ChatTurn(systemPrompt: string, userMessage: string)

  const DefaultModelPath := "models/Llama-3.2-1B-Instruct-Q4_K_M.gguf"
  const DefaultContextSize := 2048
  /** -1 offloads every layer to the GPU. */
  const DefaultGpuLayers := -1
  const DefaultSystemPrompt := "You are a helpful voice assistant. Keep responses concise and conversational."
  const DefaultMaxTokens := 256
  const Temperature: real := 0.7

  /** The arguments the `Llama` engine is constructed with. */
  datatype LlamaConfig = LlamaConfig(modelPath: string, nCtx: int, nGpuLayers: int, verbose: bool)

  /** A loaded engine: its response to the `n`-th request it serves. */
  type Completer = (CompletionRequest, nat) -> CompletionResponse

  /**
    The request `chat` sends: exactly two messages, the system prompt first
    and the user's message second, both verbatim, with the caller's token
    limit and temperature 0.7.
   */
  function BuildRequest(userMessage: string, systemPrompt: string, maxTokens: int): (r: CompletionRequest)
    ensures |r.messages| == 2
    ensures r.messages[0] == Message("system", systemPrompt)
    ensures r.messages[1] == Message("user", userMessage)
    ensures r.maxTokens == maxTokens && r.temperature == Temperature
  {
    CompletionRequest([Message("system", systemPrompt), Message("user", userMessage)], maxTokens, Temperature)
  }

  /** Reads a request back as a single turn, if it is one: a system message, a user message and nothing else, at temperature 0.7. */
  function TurnOf(r: CompletionRequest): Option<ChatTurn> {
    if |r.messages| == 2 && r.messages[0].role == "system" && r.messages[1].role == "user"
       && r.temperature == Temperature
    then Some(ChatTurn(r.messages[0].content, r.messages[1].content))
    else None
  }

  /**
    A request is the one `chat` builds for a prompt, message and limit exactly
    when it reads back as that single turn with that limit: no history and no
    other message is ever added.
   */
  lemma BuildRequestIff(userMessage: string, systemPrompt: string, maxTokens: int, r: CompletionRequest)
    ensures BuildRequest(userMessage, systemPrompt, maxTokens) == r
        <==> TurnOf(r) == Some(ChatTurn(systemPrompt, userMessage)) && r.maxTokens == maxTokens
  {
    if TurnOf(r) == Some(ChatTurn(systemPrompt, userMessage)) && r.maxTokens == maxTokens {
      assert r.messages == [Message("system", systemPrompt), Message("user", userMessage)];
    }
  }

  /** `response["choices"][0]["message"]["content"]`: the first choice's text, verbatim; an error when there is none. */
  function FirstChoiceContent(response: CompletionResponse): (r: Result<string, ChatError>)
    ensures r.Success? <==> |response.choices| > 0
    ensures r.Success? ==> r.value == response.choices[0].message.content
    ensures r.Failure? ==> r.error == NoChoices
  {
    if |response.choices| == 0 then Failure(NoChoices) else Success(response.choices[0].message.content)
  }

  /** The `LlamaLLM` wrapper: the model path it was loaded from and the engine. */
  class LlamaLlm {
    const modelPath: string
    const config: LlamaConfig
    const complete: Completer
    /** The number of requests served so far. */
    var calls: nat

    constructor(config: LlamaConfig, complete: Completer)
      ensures this.modelPath == config.modelPath && this.config == config && this.complete == complete
      ensures calls == 0
    {
      this.modelPath := config.modelPath;
      this.config := config;
      this.complete := complete;
      calls := 0;
    }

    /**
      `LlamaLLM(model_path, n_ctx, n_gpu_layers)`: a missing model file
      raises before the engine is constructed; otherwise the engine is built
      from the path, context size and layer count, with logging off.
     */
    static method Load(modelPath: string, nCtx: int, nGpuLayers: int, disk: Disk, engine: LlamaConfig -> Completer)
      returns (r: Result<LlamaLlm, LoadError>)
      ensures r.Failure? <==> !disk.Exists(modelPath)
      ensures r.Failure? ==> r.error == ModelNotFound(modelPath)
      ensures r.Success? ==>
        && fresh(r.value)
        && r.value.modelPath == modelPath
        && r.value.config == LlamaConfig(modelPath, nCtx, nGpuLayers, false)
        && r.value.complete == engine(r.value.config)
        && r.value.calls == 0
    {
      if !disk.Exists(modelPath) {
        return Failure(ModelNotFound(modelPath));
      }
      var config := LlamaConfig(modelPath, nCtx, nGpuLayers, false);
      var llm := new LlamaLlm(config, engine(config));
      r := Success(llm);
    }

    /** What the `n`-th request would return for these arguments. */
    function ReplyAt(userMessage: string, systemPrompt: string, maxTokens: int, n: nat): Result<string, ChatError> {
      FirstChoiceContent(complete(BuildRequest(userMessage, systemPrompt, maxTokens), n))
    }

    /** `chat(user_message, system_prompt, max_tokens)`: one completion request, its first choice returned. */
    method Chat(userMessage: string, systemPrompt: string, maxTokens: int) returns (r: Result<string, ChatError>)
      modifies this
      ensures calls == old(calls) + 1
      ensures r == FirstChoiceContent(complete(BuildRequest(userMessage, systemPrompt, maxTokens), old(calls)))
    {
      var response := complete(BuildRequest(userMessage, systemPrompt, maxTokens), calls);
      calls := calls + 1;
      r := FirstChoiceContent(response);
    }
  }
}
