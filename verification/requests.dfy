/** Chat-completion request records, one per line of the JSONL files the batch endpoints and
    the parallel caller consume: `create_jsonl` of perturbations/utils.py, and the record shape
    the evaluator builders share. */
module Requests {
  import opened Wrappers

  /** A Python number as it is written into a request: the builders pass the int literals
      `1000` and `0`, the perturbation scripts whatever their command line held. */
  datatype Number = IntNumber(i: int) | FloatNumber(r: real)

  datatype ChatMessage = ChatMessage(role: string, content: string)

  /** The three sampling controls only `create_jsonl` writes. */
  datatype Sampling = Sampling(topP: Number, frequencyPenalty: Number, presencePenalty: Number)

  datatype Body = Body(
    model: string,
    messages: seq<ChatMessage>,
    maxTokens: Number,
    temperature: Number,
    sampling: Option<Sampling>)

  datatype Request = Request(customId: string, verb: string, url: string, body: Body)

  const Post := "POST"
  const ChatCompletions := "/v1/chat/completions"
  const HelpfulAssistant := "You are a helpful assistant."

  /** A POST to the chat-completions endpoint holding one system message and then one user
      message: the shape every request of the pipeline has. */
  predicate IsChatRequest(r: Request)
  {
    && r.verb == Post
    && r.url == ChatCompletions
    && |r.body.messages| == 2
    && r.body.messages[0].role == "system"
    && r.body.messages[1].role == "user"
  }

  function SystemPrompt(r: Request): string
    requires IsChatRequest(r)
  {
    r.body.messages[0].content
  }

  function UserPrompt(r: Request): string
    requires IsChatRequest(r)
  {
    r.body.messages[1].content
  }

  /** create_jsonl: the request whose id is `cdx`, with the fixed system message, the prompt as
      the user message, and every generation setting copied unchanged. */
  function CreateJsonl(cdx: string, modelName: string, prompt: string, maxTokens: Number,
                       temperature: Number, topP: Number, frequencyPenalty: Number,
                       presencePenalty: Number): (r: Request)
    ensures IsChatRequest(r)
    ensures r.customId == cdx && r.body.model == modelName
    ensures SystemPrompt(r) == HelpfulAssistant && UserPrompt(r) == prompt
    ensures r.body.maxTokens == maxTokens && r.body.temperature == temperature
    ensures r.body.sampling == Some(Sampling(topP, frequencyPenalty, presencePenalty))
  {
    Request(cdx, Post, ChatCompletions,
      Body(modelName,
           [ChatMessage("system", HelpfulAssistant), ChatMessage("user", prompt)],
           maxTokens, temperature, Some(Sampling(topP, frequencyPenalty, presencePenalty))))
  }

  /** No argument of create_jsonl is lost: two records are equal only when they were built
      from the same arguments. */
  lemma CreateJsonlInjective(
    cdx: string, modelName: string, prompt: string, maxTokens: Number, temperature: Number,
    topP: Number, frequencyPenalty: Number, presencePenalty: Number,
    cdx': string, modelName': string, prompt': string, maxTokens': Number, temperature': Number,
    topP': Number, frequencyPenalty': Number, presencePenalty': Number)
    requires CreateJsonl(cdx, modelName, prompt, maxTokens, temperature, topP, frequencyPenalty, presencePenalty)
          == CreateJsonl(cdx', modelName', prompt', maxTokens', temperature', topP', frequencyPenalty', presencePenalty')
    ensures cdx == cdx' && modelName == modelName' && prompt == prompt'
    ensures maxTokens == maxTokens' && temperature == temperature'
    ensures topP == topP' && frequencyPenalty == frequencyPenalty' && presencePenalty == presencePenalty'
  {
  }
}
