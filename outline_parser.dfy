/** The backend's `OutlineParser` (backend/app/services/parser.py): the
    choice of provider by name, the API key check, the request sent to the
    provider, and the way the reply becomes a `SlideOutline`. The network
    call and `json.loads` are parameters: `send` gives the reply content for
    a request (`None` when the call fails or the reply envelope lacks the
    content), `loads` decodes a payload (`None` when it is not JSON). */
module OutlineParser {
  import opened Wrappers
  import opened PyStr
  import opened Json
  import opened Chat
  import opened Extraction

  /** `SlideOutline`: slide titles and, position by position, their
      bullets. */
  datatype SlideOutline = SlideOutline(titles: seq<string>, bullets: seq<seq<string>>)

  /** A `list[list[str]]` value. */
  function StringListList(v: JsonValue): (r: Option<seq<seq<string>>>)
    ensures r.Some? <==> v.JArray? && forall i :: 0 <= i < |v.items| ==> StringList(v.items[i]).Some?
    ensures r.Some? ==> |r.value| == |v.items| &&
                        forall i :: 0 <= i < |r.value| ==> StringList(v.items[i]) == Some(r.value[i])
  {
    if v.JArray? && forall i :: 0 <= i < |v.items| ==> StringList(v.items[i]).Some?
    then Some(seq(|v.items|, i requires 0 <= i < |v.items| => StringList(v.items[i]).value))
    else None
  }

  /** `SlideOutline(**data)`. */
  function ValidateOutline(v: JsonValue): (r: Result<SlideOutline, ValidationError>)
    ensures r.Ok? <==> v.JObject? && "titles" in v.fields && "bullets" in v.fields
                       && StringList(v.fields["titles"]).Some? && StringListList(v.fields["bullets"]).Some?
    ensures r.Ok? ==> StringList(v.fields["titles"]) == Some(r.value.titles)
                      && StringListList(v.fields["bullets"]) == Some(r.value.bullets)
    ensures !v.JObject? ==> r == Err(NotAnObject)
  {
    if !v.JObject? then Err(NotAnObject)
    else if "titles" !in v.fields then Err(MissingField("titles"))
    else if StringList(v.fields["titles"]).None? then Err(WrongType("titles"))
    else if "bullets" !in v.fields then Err(MissingField("bullets"))
    else if StringListList(v.fields["bullets"]).None? then Err(WrongType("bullets"))
    else Ok(SlideOutline(StringList(v.fields["titles"]).value, StringListList(v.fields["bullets"]).value))
  }

  /** The providers `parse` accepts. */
  datatype Backend = OpenAI | Ollama

  /** The `model` dispatch of `parse`. */
  function SelectBackend(model: string): (r: Option<Backend>)
    ensures r == Some(OpenAI) <==> model == "openai"
    ensures r == Some(Ollama) <==> model == "ollama"
    ensures r.None? <==> model != "openai" && model != "ollama"
  {
    if model == "openai" then Some(OpenAI)
    else if model == "ollama" then Some(Ollama)
    else None
  }

  /** The backend settings `parse` reads. */
  datatype Settings = Settings(openaiApiKey: string, openaiModel: string, ollamaHost: string, ollamaModel: string)

  /** The settings when no environment variable or `.env` entry overrides
      them. */
  const DefaultSettings := Settings("", "gpt-3.5-turbo", "http://localhost:11434", "mistral:instruct")

  const OpenAIEndpoint := "https://api.openai.com/v1/chat/completions"

  datatype ParseError =
    | UnsupportedModel(model: string)
    | MissingApiKey
    | PromptFormat(formatError: FormatError)
    | ProviderFailure
    | MalformedPayload
    | InvalidOutline(validationError: ValidationError)

  /** The request `parse` sends, or the error it raises before sending. */
  function Request(text: string, config: Config, model: string, settings: Settings): (r: Result<ChatRequest, ParseError>)
    ensures SelectBackend(model).None? ==> r == Err(UnsupportedModel(model))
    ensures SelectBackend(model) == Some(OpenAI) && settings.openaiApiKey == "" ==> r == Err(MissingApiKey)
    ensures r.Ok? <==>
              SelectBackend(model).Some? && !(SelectBackend(model) == Some(OpenAI) && settings.openaiApiKey == "")
              && Prompt(Setting(config, "system_prompt", ""),
                        Setting(config, "user_prompt_template", "{input_text}"), text).Ok?
    ensures SelectBackend(model).Some? && !(SelectBackend(model) == Some(OpenAI) && settings.openaiApiKey == "")
            && Prompt(Setting(config, "system_prompt", ""),
                      Setting(config, "user_prompt_template", "{input_text}"), text).Err? ==>
              r == Err(PromptFormat(Prompt(Setting(config, "system_prompt", ""),
                                           Setting(config, "user_prompt_template", "{input_text}"), text).error))
    ensures r.Ok? ==>
              Prompt(Setting(config, "system_prompt", ""),
                     Setting(config, "user_prompt_template", "{input_text}"), text) == Ok(r.value.messages)
    ensures r.Ok? && SelectBackend(model) == Some(OpenAI) ==>
              r.value == ChatRequest(OpenAIEndpoint, Some(settings.openaiApiKey), settings.openaiModel, r.value.messages,
                                     Some(0.7), Some(2000), None, false, 60)
    ensures r.Ok? && SelectBackend(model) == Some(Ollama) ==>
              r.value == ChatRequest(settings.ollamaHost + "/api/chat", None, settings.ollamaModel, r.value.messages,
                                     None, None, Some(false), true, 120)
  {
    match SelectBackend(model)
    case None => Err(UnsupportedModel(model))
    case Some(backend) =>
      if backend == OpenAI && settings.openaiApiKey == "" then Err(MissingApiKey)
      else
        var system := Setting(config, "system_prompt", "");
        var template := Setting(config, "user_prompt_template", "{input_text}");
        match Prompt(system, template, text)
        case Err(e) => Err(PromptFormat(e))
        case Ok(messages) =>
          if backend == OpenAI then
            Ok(ChatRequest(OpenAIEndpoint, Some(settings.openaiApiKey), settings.openaiModel, messages,
                           Some(0.7), Some(2000), None, false, 60))
          else
            Ok(ChatRequest(settings.ollamaHost + "/api/chat", None, settings.ollamaModel, messages,
                           None, None, Some(false), true, 120))
  }

  /** What happens to the reply content: extract, decode, validate. */
  function Interpret(reply: Option<string>, loads: string -> Option<JsonValue>): (r: Result<SlideOutline, ParseError>)
    ensures reply.None? ==> r == Err(ProviderFailure)
    ensures r.Ok? <==> reply.Some? && loads(ExtractJson(reply.value)).Some?
                       && ValidateOutline(loads(ExtractJson(reply.value)).value).Ok?
    ensures r.Ok? ==> r.value == ValidateOutline(loads(ExtractJson(reply.value)).value).value
  {
    match reply
    case None => Err(ProviderFailure)
    case Some(content) =>
      match loads(ExtractJson(content))
      case None => Err(MalformedPayload)
      case Some(v) =>
        match ValidateOutline(v)
        case Err(e) => Err(InvalidOutline(e))
        case Ok(o) => Ok(o)
  }

  /** `OutlineParser.parse`. */
  function Parse(text: string, config: Config, model: string, settings: Settings,
                 send: ChatRequest -> Option<string>, loads: string -> Option<JsonValue>): (r: Result<SlideOutline, ParseError>)
    ensures Request(text, config, model, settings).Err? ==> r == Err(Request(text, config, model, settings).error)
    ensures Request(text, config, model, settings).Ok? ==>
              r == Interpret(send(Request(text, config, model, settings).value), loads)
  {
    var request :- Request(text, config, model, settings);
    Interpret(send(request), loads)
  }

  /** `parse` serves exactly "openai" and "ollama"; every other name,
      "lmstudio" included, is refused whatever the provider would answer. */
  lemma UnsupportedModelRefused(text: string, config: Config, model: string, settings: Settings,
                                send: ChatRequest -> Option<string>, loads: string -> Option<JsonValue>)
    ensures model != "openai" && model != "ollama" ==>
              Parse(text, config, model, settings, send, loads) == Err(UnsupportedModel(model))
    ensures Parse(text, config, "lmstudio", settings, send, loads) == Err(UnsupportedModel("lmstudio"))
    ensures Parse(text, config, model, settings, send, loads) == Err(UnsupportedModel(model)) ==>
              model != "openai" && model != "ollama"
  {
    var r := Request(text, config, model, settings);
    if model == "openai" || model == "ollama" {
      assert r.Ok? || r.error != UnsupportedModel(model);
      if r.Ok? {
        match Interpret(send(r.value), loads)
        case Ok(_) =>
        case Err(e) => assert e != UnsupportedModel(model);
      }
    }
  }

  /** An empty OpenAI key fails before any request: the outcome does not
      depend on what the provider would answer. */
  lemma MissingKeyBeforeRequest(text: string, config: Config, settings: Settings,
                                send: ChatRequest -> Option<string>, loads: string -> Option<JsonValue>)
    requires settings.openaiApiKey == ""
    ensures Parse(text, config, "openai", settings, send, loads) == Err(MissingApiKey)
  {
  }

  /** With the default prompt settings the request carries an empty system
      prompt and the input text itself as the user prompt. */
  lemma DefaultPrompts(text: string, model: string, settings: Settings)
    requires model == "ollama" || (model == "openai" && settings.openaiApiKey != "")
    ensures Request(text, map[], model, settings).Ok?
    ensures Request(text, map[], model, settings).value.messages == [Message(System, ""), Message(User, text)]
  {
    FormatSubstitutes([], [], text);
    assert [] + InputField + [] == InputField;
    assert [] + text + [] == text;
  }

  /** A reply whose content wraps a bare JSON object in a json fence yields
      the outline that object describes. */
  lemma FencedReplyParses(p: string, loads: string -> Option<JsonValue>)
    requires BareObject(p)
    ensures Interpret(Some(JsonFence + ("\n" + p + "\n") + Fence), loads) == Interpret(Some(p), loads)
  {
    WrappingIdempotent(p);
  }
}
