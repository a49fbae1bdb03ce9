/** What both parsers share before a model is called: reading a prompt
    setting from the template configuration with a default, substituting the
    input text into the user prompt template with `str.format`, and the
    two-message chat request sent to a provider. */
module Chat {
  import opened Wrappers
  import opened PyStr

  /** The template configuration: setting name to text. */
  type Config = map<string, string>

  /** `template_config.get(key, default)`. */
  function Setting(config: Config, key: string, default: string): (r: string)
    ensures key in config ==> r == config[key]
    ensures key !in config ==> r == default
  {
    if key in config then config[key] else default
  }

  /** How `str.format(input_text=...)` fails: a brace that does not open or
      close a field (`ValueError`), or a field other than `{input_text}`
      (`KeyError`, `IndexError`). */
  datatype FormatError = UnmatchedBrace | UnknownField

  const InputField: string := "{input_text}"

  predicate BraceFree(s: string) {
    '{' !in s && '}' !in s
  }

  function Prepend(prefix: string, r: Result<string, FormatError>): (q: Result<string, FormatError>)
    ensures q.Ok? <==> r.Ok?
    ensures q.Ok? ==> q.value == prefix + r.value
    ensures q.Err? ==> q.error == r.error
  {
    match r
    case Ok(v) => Ok(prefix + v)
    case Err(e) => Err(e)
  }

  /** `template.format(input_text=x)`: "{{" and "}}" stand for one brace,
      every `{input_text}` is replaced by `x`, other text is kept. */
  function Format(template: string, x: string): (r: Result<string, FormatError>)
    decreases |template|
  {
    if template == [] then Ok([])
    else if |template| >= 2 && template[..2] == "{{" then Prepend("{", Format(template[2..], x))
    else if |template| >= 2 && template[..2] == "}}" then Prepend("}", Format(template[2..], x))
    else if template[0] == '}' then Err(UnmatchedBrace)
    else if template[0] == '{' then
      if |template| >= |InputField| && template[..|InputField|] == InputField
      then Prepend(x, Format(template[|InputField|..], x))
      else if '}' !in template then Err(UnmatchedBrace)
      else Err(UnknownField)
    else Prepend([template[0]], Format(template[1..], x))
  }

  /** Text without braces passes through `format` in front of whatever
      follows it. */
  lemma {:induction false} FormatBraceFreePrefix(pre: string, rest: string, x: string)
    requires BraceFree(pre)
    ensures Format(pre + rest, x) == Prepend(pre, Format(rest, x))
  {
    if pre != [] {
      var t := pre + rest;
      assert t[0] == pre[0] && t[1..] == pre[1..] + rest;
      assert pre[0] in pre;
      if |t| >= 2 {
        assert t[..2][0] == pre[0];
      }
      assert Format(t, x) == Prepend([pre[0]], Format(t[1..], x));
      FormatBraceFreePrefix(pre[1..], rest, x);
      match Format(rest, x)
      case Ok(v) => assert [pre[0]] + (pre[1..] + v) == pre + v;
      case Err(_) =>
    } else {
      assert pre + rest == rest;
      match Format(rest, x)
      case Ok(v) => assert [] + v == v;
      case Err(_) =>
    }
  }

  /** A template without braces is returned unchanged. */
  lemma FormatBraceFree(t: string, x: string)
    requires BraceFree(t)
    ensures Format(t, x) == Ok(t)
  {
    FormatBraceFreePrefix(t, [], x);
    assert t + [] == t;
  }

  /** A template with one `{input_text}` between brace-free texts is the
      input text between those texts. */
  lemma {:induction false} FormatSubstitutes(pre: string, post: string, x: string)
    requires BraceFree(pre) && BraceFree(post)
    ensures Format(pre + InputField + post, x) == Ok(pre + x + post)
  {
    var t := InputField + post;
    assert pre + InputField + post == pre + t;
    FormatBraceFreePrefix(pre, t, x);
    assert t[..|InputField|] == InputField && t[|InputField|..] == post;
    assert t[..2] == "{i";
    FormatBraceFree(post, x);
    assert pre + (x + post) == pre + x + post;
  }

  /** A lone closing brace makes `format` fail. */
  lemma FormatRejectsLoneClose(pre: string, post: string, x: string)
    requires BraceFree(pre) && BraceFree(post)
    ensures Format(pre + "}" + post, x) == Err(UnmatchedBrace)
  {
    var t := "}" + post;
    assert pre + "}" + post == pre + t;
    FormatBraceFreePrefix(pre, t, x);
    if |t| >= 2 {
      assert t[..2][1] == post[0] && post[0] in post;
    }
  }

  /** So does an opening brace that nothing closes. */
  lemma FormatRejectsUnclosed(pre: string, post: string, x: string)
    requires BraceFree(pre) && BraceFree(post)
    ensures Format(pre + "{" + post, x) == Err(UnmatchedBrace)
  {
    var t := "{" + post;
    assert pre + "{" + post == pre + t;
    FormatBraceFreePrefix(pre, t, x);
    assert forall k :: 0 < k < |t| ==> t[k] == post[k - 1];
    assert '}' !in t;
    if |t| >= 2 {
      assert t[..2][1] == post[0] && post[0] in post;
    }
    if |t| >= |InputField| {
      assert t[..|InputField|][11] == t[11];
    }
  }

  datatype Role = System | User

  datatype Message = Message(role: Role, content: string)

  /** The system and user messages, in that order; the user message is the
      formatted template. */
  function Prompt(system: string, template: string, x: string): (r: Result<seq<Message>, FormatError>)
    ensures r.Ok? <==> Format(template, x).Ok?
    ensures r.Ok? ==> |r.value| == 2 && r.value[0] == Message(System, system)
                      && r.value[1] == Message(User, Format(template, x).value)
    ensures r.Err? ==> r.error == Format(template, x).error
  {
    var user :- Format(template, x);
    Ok([Message(System, system), Message(User, user)])
  }

  /** The provider call, as far as the code decides it: where it goes, the
      bearer token, the payload fields and the timeout in seconds. `None`
      means the field is not sent. */
  datatype ChatRequest = ChatRequest(
    url: string,
    bearer: Option<string>,
    model: string,
    messages: seq<Message>,
    temperature: Option<real>,
    maxTokens: Option<nat>,
    stream: Option<bool>,
    jsonFormat: bool,
    timeoutSeconds: nat)
}
