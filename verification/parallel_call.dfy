/** scripts/parallel_call.py: send every request of a JSONL file to the provider its first
    record's model belongs to, reshaping the chat messages for the Anthropic and Gemini APIs
    and normalising every reply into the record shape of the OpenAI batch output. */
module ParallelCall {
  import opened Wrappers
  import opened PyValues
  import opened Requests
  import Seqs

  // ---------------------------------------------------------------------------------------
  // Message reshaping

  predicate IsSystem(m: ChatMessage)
  {
    m.role == "system"
  }

  /** `{"type": "text", "text": ...}` */
  datatype TextBlock = TextBlock(kind: string, text: string)

  /** `{"role": ..., "content": [blocks]}` as the Anthropic API takes it. */
  datatype AnthropicMessage = AnthropicMessage(role: string, content: seq<TextBlock>)

  function Wrap(m: ChatMessage): AnthropicMessage
  {
    AnthropicMessage(m.role, [TextBlock("text", m.content)])
  }

  /** The content of the last system message (`system` true) or of the last other message
      (`system` false), if there is one. */
  function LastContent(messages: seq<ChatMessage>, system: bool): Option<string>
  {
    if messages == [] then None
    else if IsSystem(messages[|messages| - 1]) == system then Some(messages[|messages| - 1].content)
    else LastContent(messages[..|messages| - 1], system)
  }

  /** There is a last content exactly when some message is of the kind asked for, and it is
      that of a message of the kind after which no other message is. */
  lemma {:induction false} LastContentIsLast(messages: seq<ChatMessage>, system: bool)
    ensures LastContent(messages, system).Some?
            <==> exists i :: 0 <= i < |messages| && IsSystem(messages[i]) == system
    ensures LastContent(messages, system).Some? ==>
      exists i :: 0 <= i < |messages| && IsSystem(messages[i]) == system
        && messages[i].content == LastContent(messages, system).value
        && forall k :: i < k < |messages| ==> IsSystem(messages[k]) != system
  {
    if messages != [] {
      var n := |messages|;
      var p := messages[..n - 1];
      LastContentIsLast(p, system);
      if IsSystem(messages[n - 1]) != system {
        forall i | 0 <= i < n - 1 ensures messages[i] == p[i] { }
        if LastContent(messages, system).Some? {
          var i :| 0 <= i < |p| && IsSystem(p[i]) == system && p[i].content == LastContent(p, system).value
                   && forall k :: i < k < |p| ==> IsSystem(p[k]) != system;
          assert messages[i] == p[i];
        }
      }
    }
  }

  /** The non-system messages in order, each wrapped as one text block. */
  function Conversation(messages: seq<ChatMessage>): seq<AnthropicMessage>
  {
    if messages == [] then []
    else if IsSystem(messages[|messages| - 1]) then Conversation(messages[..|messages| - 1])
    else Conversation(messages[..|messages| - 1]) + [Wrap(messages[|messages| - 1])]
  }

  /** The messages that are not system messages, in order: a reference definition read from
      the front. */
  function NonSystem(messages: seq<ChatMessage>): (r: seq<ChatMessage>)
    ensures forall i :: 0 <= i < |r| ==> !IsSystem(r[i]) && r[i] in messages
  {
    if messages == [] then []
    else (if IsSystem(messages[0]) then [] else [messages[0]]) + NonSystem(messages[1..])
  }

  lemma {:induction false} NonSystemSnoc(messages: seq<ChatMessage>, m: ChatMessage)
    ensures NonSystem(messages + [m]) == NonSystem(messages) + (if IsSystem(m) then [] else [m])
  {
    if messages == [] {
      assert messages + [m] == [m];
    } else {
      var tail := messages[1..];
      assert messages + [m] == [messages[0]] + (tail + [m]);
      assert messages == [messages[0]] + tail;
      NonSystemSnoc(tail, m);
      NonSystemCons(messages[0], tail + [m]);
      NonSystemCons(messages[0], tail);
      Seqs.ConcatAssociative(if IsSystem(messages[0]) then [] else [messages[0]], NonSystem(tail),
                             if IsSystem(m) then [] else [m]);
    }
  }

  lemma NonSystemCons(m: ChatMessage, tail: seq<ChatMessage>)
    ensures NonSystem([m] + tail) == (if IsSystem(m) then [] else [m]) + NonSystem(tail)
  {
    assert ([m] + tail)[1..] == tail;
  }

  /** The Anthropic conversation is exactly the non-system messages, in their order, each
      wrapped as a single text block. */
  lemma {:induction false} ConversationIsNonSystem(messages: seq<ChatMessage>)
    ensures |Conversation(messages)| == |NonSystem(messages)|
    ensures forall i :: 0 <= i < |Conversation(messages)| ==> Conversation(messages)[i] == Wrap(NonSystem(messages)[i])
  {
    if messages != [] {
      var n := |messages|;
      ConversationIsNonSystem(messages[..n - 1]);
      assert messages == messages[..n - 1] + [messages[n - 1]];
      NonSystemSnoc(messages[..n - 1], messages[n - 1]);
    }
  }

  /** A conversation without system messages is forwarded whole. */
  lemma {:induction false} NoSystemKeepsAll(messages: seq<ChatMessage>)
    requires forall i :: 0 <= i < |messages| ==> !IsSystem(messages[i])
    ensures NonSystem(messages) == messages
  {
    if messages != [] {
      NoSystemKeepsAll(messages[1..]);
    }
  }

  /** format_anthropic_messages: the last system content and the conversation; with no system
      message the return reads an unbound `system_prompt`. */
  function AnthropicFormat(messages: seq<ChatMessage>): Result<(string, seq<AnthropicMessage>), Failure>
  {
    var system := LastContent(messages, true);
    if system.None? then Err(Unbound("system_prompt")) else Ok((system.value, Conversation(messages)))
  }

  method FormatAnthropicMessages(messages: seq<ChatMessage>)
    returns (r: Result<(string, seq<AnthropicMessage>), Failure>)
    ensures r == AnthropicFormat(messages)
  {
    var formatted: seq<AnthropicMessage> := [];
    var systemPrompt: Option<string> := None;
    var i := 0;
    while i < |messages|
      invariant 0 <= i <= |messages|
      invariant systemPrompt == LastContent(messages[..i], true)
      invariant formatted == Conversation(messages[..i])
    {
      assert messages[..i + 1][..i] == messages[..i];
      if messages[i].role == "system" {
        systemPrompt := Some(messages[i].content);
      } else {
        formatted := formatted + [AnthropicMessage(messages[i].role, [TextBlock("text", messages[i].content)])];
      }
      i := i + 1;
    }
    assert messages[..i] == messages;
    if systemPrompt.None? {
      return Err(Unbound("system_prompt"));
    }
    return Ok((systemPrompt.value, formatted));
  }

  /** format_gemini_messages: the last system content and the last other content; the return
      reads `system_prompt` first, so a missing system message is reported before a missing
      prompt. */
  function GeminiFormat(messages: seq<ChatMessage>): Result<(string, string), Failure>
  {
    var system := LastContent(messages, true);
    var prompt := LastContent(messages, false);
    if system.None? then Err(Unbound("system_prompt"))
    else if prompt.None? then Err(Unbound("prompt"))
    else Ok((system.value, prompt.value))
  }

  method FormatGeminiMessages(messages: seq<ChatMessage>) returns (r: Result<(string, string), Failure>)
    ensures r == GeminiFormat(messages)
  {
    var systemPrompt: Option<string> := None;
    var prompt: Option<string> := None;
    var i := 0;
    while i < |messages|
      invariant 0 <= i <= |messages|
      invariant systemPrompt == LastContent(messages[..i], true)
      invariant prompt == LastContent(messages[..i], false)
    {
      assert messages[..i + 1][..i] == messages[..i];
      if messages[i].role == "system" {
        systemPrompt := Some(messages[i].content);
      } else {
        prompt := Some(messages[i].content);
      }
      i := i + 1;
    }
    assert messages[..i] == messages;
    if systemPrompt.None? {
      return Err(Unbound("system_prompt"));
    }
    if prompt.None? {
      return Err(Unbound("prompt"));
    }
    return Ok((systemPrompt.value, prompt.value));
  }

  lemma {:induction false} ConversationEndsWithLastTurn(messages: seq<ChatMessage>)
    ensures LastContent(messages, false).Some? <==> |Conversation(messages)| > 0
    ensures LastContent(messages, false).Some? ==>
      Conversation(messages)[|Conversation(messages)| - 1].content == [TextBlock("text", LastContent(messages, false).value)]
  {
    if messages != [] {
      ConversationEndsWithLastTurn(messages[..|messages| - 1]);
    }
  }

  /** The two reshapings agree: Gemini gets the Anthropic system prompt, and as its prompt the
      text of the last turn of the Anthropic conversation. */
  lemma GeminiAgreesWithAnthropic(messages: seq<ChatMessage>)
    requires GeminiFormat(messages).Ok?
    ensures AnthropicFormat(messages).Ok?
    ensures GeminiFormat(messages).value.0 == AnthropicFormat(messages).value.0
    ensures |AnthropicFormat(messages).value.1| > 0
    ensures [TextBlock("text", GeminiFormat(messages).value.1)]
            == AnthropicFormat(messages).value.1[|AnthropicFormat(messages).value.1| - 1].content
  {
    ConversationEndsWithLastTurn(messages);
  }

  /** Every request this pipeline builds (one system message, then one user message) is
      reshaped without error: the system prompt goes apart and the user prompt is the whole
      conversation. */
  lemma BuiltRequestsReshape(r: Request)
    requires IsChatRequest(r)
    ensures AnthropicFormat(r.body.messages)
            == Ok((SystemPrompt(r), [AnthropicMessage("user", [TextBlock("text", UserPrompt(r))])]))
    ensures GeminiFormat(r.body.messages) == Ok((SystemPrompt(r), UserPrompt(r)))
  {
    var ms := r.body.messages;
    assert ms[..1][..0] == [];
    assert ms[..|ms| - 1] == ms[..1];
    assert Conversation(ms[..1]) == [];
    assert Conversation(ms) == [Wrap(ms[1])];
    assert LastContent(ms[..1], true) == Some(ms[0].content);
    assert LastContent(ms, true) == Some(ms[0].content);
  }

  // ---------------------------------------------------------------------------------------
  // Result records

  /** `choices`: the provider's list as it came (OpenAI), or the single choice built from an
      Anthropic or Gemini reply, with index 0 and `logprobs`, `function_call`, `tools_call` and
      `name` all None. */
  datatype Choices = RawChoices(choices: Value) | SingleChoice(finishReason: Value, content: Value, role: Value)

  datatype ResponseBody = ResponseBody(
    id: Value,
    kind: string,
    created: Value,
    model: Value,
    choices: Choices,
    usage: Value,
    systemFingerprint: Value)

  datatype Response = Response(statusCode: int, requestId: Value, body: ResponseBody)

  /** One output line: a normalised result, or the error record of a failed call. */
  datatype Line =
    | ResultLine(id: string, customId: string, response: Response, error: Value)
    | ErrorLine(message: string, customId: string)

  /** The fields of a chat completion the formatter reads (`res.model_dump()`). */
  datatype OpenAIReply = OpenAIReply(
    id: string, created: Value, model: Value, choices: Value, usage: Value, systemFingerprint: Value)

  /** The fields of an Anthropic message the formatter reads (`res.to_dict()`). */
  datatype AnthropicReply = AnthropicReply(
    id: string, model: Value, stopReason: Value, content: seq<Value>, role: Value, usage: Value)

  datatype GeminiCandidate = GeminiCandidate(finishReason: int, parts: seq<string>, role: string)

  datatype GeminiReply = GeminiReply(candidates: seq<GeminiCandidate>)

  const IdPrefix := "parallel_req_"
  const ChatCompletion := "chat.completion"

  /** The shape every formatter promises: the request's `custom_id`, status 200, no request
      id, no error, a `parallel_req_` id and a chat-completion body. */
  predicate Normalised(line: Line, customId: string)
  {
    && line.ResultLine?
    && line.customId == customId
    && line.response.statusCode == 200
    && line.response.requestId == Null
    && line.error == Null
    && IdPrefix <= line.id
    && line.response.body.kind == ChatCompletion
  }

  /** format_openai_result_dict */
  function FormatOpenAIResult(res: OpenAIReply, customId: string): (r: Line)
    ensures Normalised(r, customId)
    ensures r.id == IdPrefix + res.id && r.response.body.id == Str(res.id)
    ensures r.response.body.choices == RawChoices(res.choices)
    ensures r.response.body.model == res.model && r.response.body.usage == res.usage
  {
    ResultLine(IdPrefix + res.id, customId,
      Response(200, Null,
        ResponseBody(Str(res.id), ChatCompletion, res.created, res.model, RawChoices(res.choices),
                     res.usage, res.systemFingerprint)),
      Null)
  }

  /** format_anthropic_result_dict: the message content is the text of the first content
      block; no block, or a first block without text, raises inside the formatter. */
  function FormatAnthropicResult(res: AnthropicReply, customId: string): (r: Result<Line, Failure>)
    ensures r.Ok? <==> |res.content| > 0 && Get(res.content[0], "text").Ok?
    ensures |res.content| == 0 ==> r == Err(IndexOutOfRange)
    ensures r.Ok? ==> Normalised(r.value, customId)
    ensures r.Ok? ==> r.value.id == IdPrefix + res.id
    ensures r.Ok? ==> r.value.response.body.choices
                      == SingleChoice(res.stopReason, Get(res.content[0], "text").value, res.role)
    ensures r.Ok? ==> r.value.response.body.created == Null && r.value.response.body.systemFingerprint == Null
  {
    if |res.content| == 0 then Err(IndexOutOfRange)
    else
      var text := Get(res.content[0], "text");
      if text.Err? then Err(text.error)
      else
        Ok(ResultLine(IdPrefix + res.id, customId,
          Response(200, Null,
            ResponseBody(Str(res.id), ChatCompletion, Null, res.model,
                         SingleChoice(res.stopReason, text.value, res.role), res.usage, Null)),
          Null))
  }

  /** format_gemini_result_dict: the first part of the first candidate, under the aliased model
      name; the id is the fixed `parallel_req_Gemini_None`. */
  function FormatGeminiResult(res: GeminiReply, customId: string, model: string): (r: Result<Line, Failure>)
    ensures r.Ok? <==> |res.candidates| > 0 && |res.candidates[0].parts| > 0
    ensures r.Err? ==> r.error == IndexOutOfRange
    ensures r.Ok? ==> Normalised(r.value, customId)
    ensures r.Ok? ==> r.value.id == IdPrefix + "Gemini_None" && r.value.response.body.id == Null
    ensures r.Ok? ==> r.value.response.body.model == Str(model)
    ensures r.Ok? ==> (r.value.response.body.choices
      == SingleChoice(Int(res.candidates[0].finishReason), Str(res.candidates[0].parts[0]), Str(res.candidates[0].role)))
  {
    if |res.candidates| == 0 || |res.candidates[0].parts| == 0 then Err(IndexOutOfRange)
    else
      var c := res.candidates[0];
      Ok(ResultLine(IdPrefix + "Gemini_None", customId,
        Response(200, Null,
          ResponseBody(Null, ChatCompletion, Null, Str(model),
                       SingleChoice(Int(c.finishReason), Str(c.parts[0]), Str(c.role)), Null, Null)),
        Null))
  }

  // ---------------------------------------------------------------------------------------
  // Model aliases

  /** The short names each call rewrites before it reaches the provider. */
  const Llama3Aliases := map["llama3-70b" := "meta-llama/Meta-Llama-3-70B-Instruct"]
  const ClaudeAliases := map["claude3-opus" := "claude-3-opus-20240229"]
  const GeminiAliases := map["gemini-1.5-flash" := "gemini-1.5-flash-latest",
                             "gemini-1.5-pro" := "gemini-1.5-pro-latest"]

  /** The model name a call sends: the alias of a short name, any other name unchanged. */
  function Resolve(aliases: map<string, string>, model: string): (r: string)
    ensures model in aliases ==> r == aliases[model]
    ensures model !in aliases ==> r == model
  {
    if model in aliases then aliases[model] else model
  }

  /** No alias is itself aliased: resolving a name twice gives what resolving it once gives. */
  lemma AliasesIdempotent(model: string)
    ensures Resolve(Llama3Aliases, Resolve(Llama3Aliases, model)) == Resolve(Llama3Aliases, model)
    ensures Resolve(ClaudeAliases, Resolve(ClaudeAliases, model)) == Resolve(ClaudeAliases, model)
    ensures Resolve(GeminiAliases, Resolve(GeminiAliases, model)) == Resolve(GeminiAliases, model)
  {
  }

  // ---------------------------------------------------------------------------------------
  // Calls and dispatch

  datatype Provider = OpenAI | Llama3 | Claude | Gemini

  /** What a provider client gives back once its rate-limit retries are over: a reply, or the
      text of the exception it raised. */
  datatype Reply<R> = Replied(reply: R) | Raised(message: string)

  /** The provider clients, as functions of the arguments the script passes them. */
  datatype Clients = Clients(
    openai: (string, seq<ChatMessage>, Number, Number) -> Reply<OpenAIReply>,
    llama3: (string, seq<ChatMessage>, Number, Number) -> Reply<OpenAIReply>,
    claude: (string, Number, Number, string, seq<AnthropicMessage>) -> Reply<AnthropicReply>,
    gemini: (string, Number, Number, string, string) -> Reply<GeminiReply>)

  /** How one call ends: with an output line, with an exception that escapes it, or never (the
      Anthropic call is retried on every exception that escapes it). */
  datatype Completion = Returned(line: Line) | Raises(failure: Failure) | RetriesForever

  /** A formatter's result, or the error record of the exception it raised inside the `try`. */
  function LineOf(formatted: Result<Line, Failure>, customId: string): Line
  {
    if formatted.Err? then ErrorLine(FailureText(formatted.error), customId) else formatted.value
  }

  /** call_openai, call_llama3, call_claude and call_gemini. */
  function Call(provider: Provider, clients: Clients, request: Request): Completion
  {
    var body := request.body;
    var id := request.customId;
    match provider
    case OpenAI =>
      var reply := clients.openai(body.model, body.messages, body.maxTokens, body.temperature);
      if reply.Raised? then Returned(ErrorLine(reply.message, id))
      else Returned(FormatOpenAIResult(reply.reply, id))
    case Llama3 =>
      var reply := clients.llama3(Resolve(Llama3Aliases, body.model), body.messages, body.maxTokens, body.temperature);
      if reply.Raised? then Returned(ErrorLine(reply.message, id))
      else Returned(FormatOpenAIResult(reply.reply, id))
    case Claude =>
      var formatted := AnthropicFormat(body.messages);
      if formatted.Err? then RetriesForever
      else
        var reply := clients.claude(Resolve(ClaudeAliases, body.model), body.maxTokens, body.temperature,
                                    formatted.value.0, formatted.value.1);
        if reply.Raised? then Returned(ErrorLine(reply.message, id))
        else Returned(LineOf(FormatAnthropicResult(reply.reply, id), id))
    case Gemini =>
      var formatted := GeminiFormat(body.messages);
      if formatted.Err? then Raises(formatted.error)
      else
        var model := Resolve(GeminiAliases, body.model);
        var reply := clients.gemini(model, body.maxTokens, body.temperature, formatted.value.0, formatted.value.1);
        if reply.Raised? then Returned(ErrorLine(reply.message, id))
        else Returned(LineOf(FormatGeminiResult(reply.reply, id, model), id))
  }

  /** Every line a call returns, result or error record, carries the request's `custom_id`;
      a call that returns a result line returns a normalised one. */
  lemma CallKeepsId(provider: Provider, clients: Clients, request: Request)
    ensures Call(provider, clients, request).Returned? ==> Call(provider, clients, request).line.customId == request.customId
    ensures Call(provider, clients, request).Returned? && Call(provider, clients, request).line.ResultLine? ==>
      Normalised(Call(provider, clients, request).line, request.customId)
  {
  }

  /** A call ends without a line only when the messages lack what the provider's reshaping
      needs: never for OpenAI or Llama 3, and never for a request this pipeline builds. */
  lemma CallReturns(provider: Provider, clients: Clients, request: Request)
    ensures !Call(provider, clients, request).Returned? <==>
      (provider == Claude && AnthropicFormat(request.body.messages).Err?)
      || (provider == Gemini && GeminiFormat(request.body.messages).Err?)
    ensures IsChatRequest(request) ==> Call(provider, clients, request).Returned?
  {
    if IsChatRequest(request) {
      BuiltRequestsReshape(request);
    }
  }

  const OpenAIModels := ["gpt-4", "gpt-4-turbo", "gpt-3.5-turbo-0125", "gpt-4o"]

  /** The provider `main` picks for a model name, if any. */
  function ProviderFor(model: string): (r: Option<Provider>)
    ensures r == Some(OpenAI) <==> model in OpenAIModels
    ensures r == Some(Gemini) <==> model == "gemini-1.5-flash" || model == "gemini-1.5-pro"
  {
    if model in OpenAIModels then Some(OpenAI)
    else if model == "llama3-70b" then Some(Llama3)
    else if model == "claude3-opus" then Some(Claude)
    else if model == "gemini-1.5-flash" || model == "gemini-1.5-pro" then Some(Gemini)
    else None
  }

  /** The names `main` sends to Llama 3, Claude or Gemini are exactly the short names that
      provider's call rewrites, so none of them reaches its API unresolved. */
  lemma RoutedNamesResolved(model: string)
    ensures ProviderFor(model) == Some(Llama3) <==> model in Llama3Aliases
    ensures ProviderFor(model) == Some(Claude) <==> model in ClaudeAliases
    ensures ProviderFor(model) == Some(Gemini) <==> model in GeminiAliases
  {
  }

  /** What the run leaves when no exception escapes it: the output file with one line per input
      record in input order, the "Still pending" message, or nothing ever, because some call is
      retried forever. */
  datatype Run = Wrote(lines: seq<Line>) | StillPending | NeverEnds

  /** The exception of the first record, in input order, whose call raises, if any. */
  function FirstRaised(provider: Provider, clients: Clients, data: seq<Request>): (r: Option<Failure>)
    ensures r.None? <==> forall i :: 0 <= i < |data| ==> !Call(provider, clients, data[i]).Raises?
    ensures r.Some? ==> exists i :: 0 <= i < |data| && Call(provider, clients, data[i]) == Raises(r.value)
  {
    if data == [] then None
    else if Call(provider, clients, data[0]).Raises? then Some(Call(provider, clients, data[0]).failure)
    else
      var r := FirstRaised(provider, clients, data[1..]);
      assert forall i :: 0 < i < |data| ==> data[i] == data[1..][i - 1];
      r
  }

  /** The parallel fan-out, whose results come back in input order: an exception raised by a
      call escapes `main`; otherwise a call retried forever keeps the run from ending; otherwise
      every line is written. */
  function CallAll(provider: Provider, clients: Clients, data: seq<Request>): (r: Result<Run, Failure>)
    ensures r.Err? <==> exists i :: 0 <= i < |data| && Call(provider, clients, data[i]).Raises?
    ensures r.Ok? ==> !r.value.StillPending?
    ensures r.Ok? && r.value.Wrote? ==> |r.value.lines| == |data|
    ensures r.Ok? && r.value.Wrote? ==>
      forall i :: 0 <= i < |data| ==> Call(provider, clients, data[i]) == Returned(r.value.lines[i])
  {
    match FirstRaised(provider, clients, data)
    case Some(failure) => Err(failure)
    case None =>
      if forall i :: 0 <= i < |data| ==> Call(provider, clients, data[i]).Returned?
      then Ok(Wrote(seq(|data|, i requires 0 <= i < |data| => Call(provider, clients, data[i]).line)))
      else Ok(NeverEnds)
  }

  /** main: the provider is chosen by the model of the first record alone, and an empty input
      fails on `data[0]`. */
  function Dispatch(clients: Clients, data: seq<Request>): (r: Result<Run, Failure>)
    ensures data == [] ==> r == Err(IndexOutOfRange)
    ensures r == Ok(StillPending) <==> data != [] && ProviderFor(data[0].body.model).None?
  {
    if data == [] then Err(IndexOutOfRange)
    else
      var provider := ProviderFor(data[0].body.model);
      if provider.None? then Ok(StillPending) else CallAll(provider.value, clients, data)
  }

  /** Under a known model the three endings are kept apart: the run fails exactly when some
      call raises (only Gemini's reshaping can), it never ends exactly when no call raises and
      some call is retried forever (only Claude's reshaping can), and otherwise it writes. */
  lemma DispatchEndings(clients: Clients, data: seq<Request>)
    requires data != [] && ProviderFor(data[0].body.model).Some?
    ensures var provider := ProviderFor(data[0].body.model).value;
      && (Dispatch(clients, data).Err? <==> exists i :: 0 <= i < |data| && Call(provider, clients, data[i]).Raises?)
      && (Dispatch(clients, data) == Ok(NeverEnds) <==>
            (forall i :: 0 <= i < |data| ==> !Call(provider, clients, data[i]).Raises?)
            && exists i :: 0 <= i < |data| && Call(provider, clients, data[i]).RetriesForever?)
      && (Dispatch(clients, data).Err? ==> provider == Gemini)
      && (Dispatch(clients, data) == Ok(NeverEnds) ==> provider == Claude)
  {
    var provider := ProviderFor(data[0].body.model).value;
    if Dispatch(clients, data).Err? {
      var i :| 0 <= i < |data| && Call(provider, clients, data[i]).Raises?;
      CallReturns(provider, clients, data[i]);
    }
    if Dispatch(clients, data) == Ok(NeverEnds) {
      var i :| 0 <= i < |data| && !Call(provider, clients, data[i]).Returned?;
      CallReturns(provider, clients, data[i]);
    }
  }

  /** The output has one line per input record, in input order, each carrying its record's
      `custom_id`; each line is what the first record's provider made of that record,
      whatever model the record itself names. */
  lemma DispatchKeepsIds(clients: Clients, data: seq<Request>)
    requires Dispatch(clients, data).Ok? && Dispatch(clients, data).value.Wrote?
    ensures |Dispatch(clients, data).value.lines| == |data|
    ensures forall i :: 0 <= i < |data| ==> Dispatch(clients, data).value.lines[i].customId == data[i].customId
    ensures forall i :: 0 <= i < |data| ==>
      Call(ProviderFor(data[0].body.model).value, clients, data[i]) == Returned(Dispatch(clients, data).value.lines[i])
  {
    var provider := ProviderFor(data[0].body.model).value;
    forall i | 0 <= i < |data|
      ensures Dispatch(clients, data).value.lines[i].customId == data[i].customId
    {
      CallKeepsId(provider, clients, data[i]);
    }
  }

  /** A first record naming no known model leaves only the message; records built by this
      pipeline under a known model are always written out. */
  lemma DispatchOutcome(clients: Clients, data: seq<Request>)
    requires data != []
    ensures ProviderFor(data[0].body.model).None? <==> Dispatch(clients, data) == Ok(StillPending)
    ensures ProviderFor(data[0].body.model).Some?
            && (forall i :: 0 <= i < |data| ==> IsChatRequest(data[i]))
            ==> Dispatch(clients, data).Ok? && Dispatch(clients, data).value.Wrote?
  {
    if ProviderFor(data[0].body.model).Some? && (forall i :: 0 <= i < |data| ==> IsChatRequest(data[i])) {
      var provider := ProviderFor(data[0].body.model).value;
      forall i | 0 <= i < |data|
        ensures Call(provider, clients, data[i]).Returned?
      {
        CallReturns(provider, clients, data[i]);
      }
    }
  }
}
