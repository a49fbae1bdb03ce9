/** slidegen/parser.py: the `SlideContent` and `PresentationStructure`
    records, the three provider clients with their key and default-URL
    rules, the request each one sends, the way each one turns the reply into
    a structure, and `create_client`. As in the backend, the network call and
    `json.loads` are parameters. */
module SlidegenParser {
  import opened Wrappers
  import opened PyStr
  import opened Json
  import opened Chat
  import opened Extraction

  /** `SlideContent`. */
  datatype SlideContent = SlideContent(title: string, content: string, notes: Option<string>)

  /** `PresentationStructure`. */
  datatype PresentationStructure = PresentationStructure(title: string, subtitle: Option<string>, slides: seq<SlideContent>)

  /** Python truthiness of an optional text: present and not empty. */
  predicate Truthy(s: Option<string>) {
    s.Some? && s.value != []
  }

  /** `SlideContent(**item)` for one element of `slides`. */
  function ValidateSlide(v: JsonValue): (r: Result<SlideContent, ValidationError>)
    ensures r.Ok? <==> v.JObject? && RequiredString(v.fields, "title").Ok?
                       && RequiredString(v.fields, "content").Ok? && OptionalString(v.fields, "notes").Ok?
    ensures r.Ok? ==> && v.fields["title"] == JString(r.value.title)
                      && v.fields["content"] == JString(r.value.content)
                      && r.value.notes == OptionalString(v.fields, "notes").value
  {
    if !v.JObject? then Err(NotAnObject)
    else
      var title :- RequiredString(v.fields, "title");
      var content :- RequiredString(v.fields, "content");
      var notes :- OptionalString(v.fields, "notes");
      Ok(SlideContent(title, content, notes))
  }

  /** `list[SlideContent]`: every element must validate; the first failure
      is reported. */
  function ValidateSlides(items: seq<JsonValue>): (r: Result<seq<SlideContent>, ValidationError>)
    ensures r.Ok? <==> forall i :: 0 <= i < |items| ==> ValidateSlide(items[i]).Ok?
    ensures r.Ok? ==> |r.value| == |items| && forall i :: 0 <= i < |items| ==> ValidateSlide(items[i]) == Ok(r.value[i])
  {
    if items == [] then Ok([])
    else
      var first :- ValidateSlide(items[0]);
      var rest :- ValidateSlides(items[1..]);
      assert forall i :: 1 <= i < |items| ==> items[i] == items[1..][i - 1];
      Ok([first] + rest)
  }

  /** `PresentationStructure(**data)`. */
  function ValidateStructure(v: JsonValue): (r: Result<PresentationStructure, ValidationError>)
    ensures r.Ok? <==> && v.JObject? && RequiredString(v.fields, "title").Ok?
                       && OptionalString(v.fields, "subtitle").Ok?
                       && "slides" in v.fields && v.fields["slides"].JArray?
                       && ValidateSlides(v.fields["slides"].items).Ok?
    ensures r.Ok? ==> && v.fields["title"] == JString(r.value.title)
                      && r.value.subtitle == OptionalString(v.fields, "subtitle").value
                      && Ok(r.value.slides) == ValidateSlides(v.fields["slides"].items)
    ensures !v.JObject? ==> r == Err(NotAnObject)
  {
    if !v.JObject? then Err(NotAnObject)
    else
      var title :- RequiredString(v.fields, "title");
      var subtitle :- OptionalString(v.fields, "subtitle");
      if "slides" !in v.fields then Err(MissingField("slides"))
      else if !v.fields["slides"].JArray? then Err(WrongType("slides"))
      else
        var slides :- ValidateSlides(v.fields["slides"].items);
        Ok(PresentationStructure(title, subtitle, slides))
  }

  datatype Provider = OpenAI | Ollama | LMStudio

  /** A constructed client: its provider, the base URL it settled on and the
      key it keeps. */
  datatype Client = Client(provider: Provider, baseUrl: string, apiKey: Option<string>)

  const OpenAIDefaultUrl := "https://api.openai.com/v1"
  const OllamaDefaultUrl := "http://localhost:11434"
  const LMStudioDefaultUrl := "http://localhost:1234/v1"

  /** `base_url or default`: an absent or empty URL gives the default. */
  function OrDefault(url: Option<string>, default: string): (r: string)
    ensures Truthy(url) ==> r == url.value
    ensures !Truthy(url) ==> r == default
  {
    if Truthy(url) then url.value else default
  }

  datatype ClientError = MissingApiKey | UnsupportedModelType(name: string)

  /** `OpenAIClient(api_key, base_url)`: refuses an absent or empty key. */
  function NewOpenAIClient(apiKey: Option<string>, baseUrl: Option<string>): (r: Result<Client, ClientError>)
    ensures r.Ok? <==> Truthy(apiKey)
    ensures r.Err? ==> r.error == MissingApiKey
    ensures r.Ok? ==> r.value == Client(OpenAI, OrDefault(baseUrl, OpenAIDefaultUrl), apiKey)
  {
    var client := Client(OpenAI, OrDefault(baseUrl, OpenAIDefaultUrl), apiKey);
    if !Truthy(client.apiKey) then Err(MissingApiKey) else Ok(client)
  }

  /** `OllamaClient(base_url, api_key)`. */
  function NewOllamaClient(baseUrl: Option<string>, apiKey: Option<string>): (c: Client)
    ensures c.provider == Ollama && c.apiKey == apiKey
    ensures c.baseUrl == OrDefault(baseUrl, OllamaDefaultUrl)
  {
    Client(Ollama, OrDefault(baseUrl, OllamaDefaultUrl), apiKey)
  }

  /** `LMStudioClient(base_url, api_key)`. */
  function NewLMStudioClient(baseUrl: Option<string>, apiKey: Option<string>): (c: Client)
    ensures c.provider == LMStudio && c.apiKey == apiKey
    ensures c.baseUrl == OrDefault(baseUrl, LMStudioDefaultUrl)
  {
    Client(LMStudio, OrDefault(baseUrl, LMStudioDefaultUrl), apiKey)
  }

  /** `create_client(model_type, api_key, base_url)`. */
  function CreateClient(modelType: string, apiKey: Option<string>, baseUrl: Option<string>): (r: Result<Client, ClientError>)
    ensures modelType == "openai" ==> r == NewOpenAIClient(apiKey, baseUrl)
    ensures modelType == "ollama" ==> r == Ok(NewOllamaClient(baseUrl, None))
    ensures modelType == "lmstudio" ==> r == Ok(NewLMStudioClient(baseUrl, None))
    ensures modelType != "openai" && modelType != "ollama" && modelType != "lmstudio" ==>
              r == Err(UnsupportedModelType(modelType))
  {
    if modelType == "openai" then NewOpenAIClient(apiKey, baseUrl)
    else if modelType == "ollama" then Ok(NewOllamaClient(baseUrl, None))
    else if modelType == "lmstudio" then Ok(NewLMStudioClient(baseUrl, None))
    else Err(UnsupportedModelType(modelType))
  }

  /** The names `create_client` accepts select their own provider, and only
      an OpenAI client keeps the key it was given. */
  lemma CreateClientProviders(modelType: string, apiKey: Option<string>, baseUrl: Option<string>)
    ensures CreateClient(modelType, apiKey, baseUrl).Ok? <==>
              (modelType == "openai" && Truthy(apiKey)) || modelType == "ollama" || modelType == "lmstudio"
    ensures CreateClient(modelType, apiKey, baseUrl).Ok? ==>
              var c := CreateClient(modelType, apiKey, baseUrl).value;
              && (c.provider == OpenAI <==> modelType == "openai")
              && (c.provider == Ollama <==> modelType == "ollama")
              && (c.provider == LMStudio <==> modelType == "lmstudio")
              && (c.apiKey.Some? <==> c.provider == OpenAI)
  {
  }

  /** Without a base URL every client settles on its fixed default. */
  lemma DefaultUrls(apiKey: string)
    requires apiKey != ""
    ensures CreateClient("openai", Some(apiKey), None) == Ok(Client(OpenAI, OpenAIDefaultUrl, Some(apiKey)))
    ensures CreateClient("ollama", Some(apiKey), None) == Ok(Client(Ollama, OllamaDefaultUrl, None))
    ensures CreateClient("lmstudio", Some(apiKey), None) == Ok(Client(LMStudio, LMStudioDefaultUrl, None))
  {
  }

  const DefaultSystemPrompt := "You are a helpful assistant that creates PowerPoint presentations."
  const DefaultTemplate := "Create a presentation about: {input_text}"

  /** The two messages every client sends: the configured or default
      system prompt, then the configured or default template with the input
      text substituted; a template `format` rejects fails the call. */
  function ClientPrompt(inputText: string, config: Config): (r: Result<seq<Message>, FormatError>)
    ensures r.Ok? <==> Format(Setting(config, "user_prompt_template", DefaultTemplate), inputText).Ok?
    ensures r.Ok? ==> && |r.value| == 2
                      && r.value[0] == Message(System, Setting(config, "system_prompt", DefaultSystemPrompt))
                      && r.value[1] == Message(User, Format(Setting(config, "user_prompt_template", DefaultTemplate), inputText).value)
  {
    Prompt(Setting(config, "system_prompt", DefaultSystemPrompt),
           Setting(config, "user_prompt_template", DefaultTemplate), inputText)
  }

  /** With neither prompt setting, the system message is the fixed
      instruction and the user message asks for a presentation about the
      input text. */
  lemma DefaultClientPrompt(inputText: string)
    ensures ClientPrompt(inputText, map[]) ==
              Ok([Message(System, DefaultSystemPrompt),
                  Message(User, "Create a presentation about: " + inputText)])
  {
    var pre := "Create a presentation about: ";
    assert BraceFree(pre);
    assert DefaultTemplate == pre + InputField + [];
    FormatSubstitutes(pre, [], inputText);
    assert pre + inputText + [] == pre + inputText;
  }

  /** The request a client sends, given its two messages. */
  function ClientRequest(client: Client, messages: seq<Message>): (q: ChatRequest)
    ensures q.messages == messages
    ensures client.provider == OpenAI ==>
              q == ChatRequest(client.baseUrl + "/chat/completions", client.apiKey, "gpt-3.5-turbo", messages,
                               Some(0.7), Some(2000), None, false, 60)
    ensures client.provider == Ollama ==>
              q == ChatRequest(client.baseUrl + "/api/chat", None, "llama2", messages,
                               None, None, Some(false), true, 120)
    ensures client.provider == LMStudio ==>
              q == ChatRequest(client.baseUrl + "/chat/completions", None, "local-model", messages,
                               Some(0.7), Some(2000), None, false, 120)
  {
    match client.provider
    case OpenAI => ChatRequest(client.baseUrl + "/chat/completions", client.apiKey, "gpt-3.5-turbo", messages,
                               Some(0.7), Some(2000), None, false, 60)
    case Ollama => ChatRequest(client.baseUrl + "/api/chat", None, "llama2", messages,
                               None, None, Some(false), true, 120)
    case LMStudio => ChatRequest(client.baseUrl + "/chat/completions", None, "local-model", messages,
                                 Some(0.7), Some(2000), None, false, 120)
  }

  /** The text a client hands to `json.loads`: the Ollama client parses the
      reply content as it is, the other two run the fence extraction. */
  function Payload(provider: Provider, content: string): (p: string)
    ensures provider == Ollama ==> p == content
    ensures provider != Ollama ==> p == ExtractFenced(content)
  {
    if provider == Ollama then content else ExtractFenced(content)
  }

  datatype GenerateError =
    | PromptFormat(formatError: FormatError)
    | ProviderFailure
    | MalformedPayload
    | InvalidStructure(validationError: ValidationError)

  /** `generate_presentation(input_text, template_config)`. */
  function Generate(client: Client, inputText: string, config: Config,
                    send: ChatRequest -> Option<string>, loads: string -> Option<JsonValue>): (r: Result<PresentationStructure, GenerateError>)
    ensures ClientPrompt(inputText, config).Err? ==> r == Err(PromptFormat(ClientPrompt(inputText, config).error))
    ensures r.Ok? <==> && ClientPrompt(inputText, config).Ok?
                       && var content := send(ClientRequest(client, ClientPrompt(inputText, config).value));
                       && content.Some?
                       && loads(Payload(client.provider, content.value)).Some?
                       && ValidateStructure(loads(Payload(client.provider, content.value)).value).Ok?
    ensures r.Ok? ==>
              var content := send(ClientRequest(client, ClientPrompt(inputText, config).value));
              Ok(r.value) == ValidateStructure(loads(Payload(client.provider, content.value)).value)
  {
    match ClientPrompt(inputText, config)
    case Err(e) => Err(PromptFormat(e))
    case Ok(messages) =>
      match send(ClientRequest(client, messages))
      case None => Err(ProviderFailure)
      case Some(content) =>
        match loads(Payload(client.provider, content))
        case None => Err(MalformedPayload)
        case Some(v) =>
          match ValidateStructure(v)
          case Err(e) => Err(InvalidStructure(e))
          case Ok(s) => Ok(s)
  }

  /** An OpenAI or LM Studio reply that wraps a bare JSON object in a fence
      yields what the object alone would; an Ollama reply is decoded as it
      came, fence and all. */
  lemma FencedReplies(p: string)
    requires BareObject(p)
    ensures Payload(OpenAI, JsonFence + ("\n" + p + "\n") + Fence) == p
    ensures Payload(LMStudio, Fence + ("\n" + p + "\n") + Fence) == p
    ensures Payload(Ollama, JsonFence + ("\n" + p + "\n") + Fence) != p
  {
    FencedWrappingIdempotent(p);
    var w := JsonFence + ("\n" + p + "\n") + Fence;
    assert w[0] == '`' && p[0] == '{';
  }
}
