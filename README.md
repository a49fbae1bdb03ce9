# ai-template-slides, modelled in Dafny

ai-template-slides turns free text into a PowerPoint deck in two steps.
First a language model is asked for an outline. Then a renderer builds
slides from that outline with python-pptx. The repository does this twice:

- **backend**: a web service. `OutlineParser` asks OpenAI or Ollama for a flat
  `SlideOutline` (titles and, position by position, bullet lists).
  `PresentationRenderer.render` fills a template deck with it.
- **slidegen**: a library. A client for OpenAI, Ollama or LM Studio asks for a rich
  `PresentationStructure` (title, optional subtitle, slides with content and
  optional notes). A stateful `PresentationRenderer` builds a fresh deck
  from it.

This project models the logic between the model's reply and the slides:

- the string scanning that pulls a JSON payload out of a reply. The backend
  has four branches: json fence, plain fence, brace span, whole text.
  slidegen's inline copy has two fence branches on the unstripped reply.
- the provider selection and the key and default-URL rules.
- the two-message prompt, and the request each provider is sent.
- the validation of the decoded payload.
- the deck-building rules of both renderers.

The Python `str` operations the core uses are modelled (module `PyStr`):

- `find` and `rfind`;
- `strip()` with Python's 29 whitespace characters;
- `lstrip(chars)`;
- slicing with negative bounds;
- `split` and `join` on a one-character separator.

The python-pptx presentation is modelled abstractly (module `Pptx`). A deck
is its layouts, its ordered slides and two core properties. A slide has its
layout index, its title frame, its placeholder-1 frame and its notes. A
frame is a non-empty sequence of paragraphs, each paragraph with its
formatting. The assumptions about python-pptx are listed in the `Pptx`
module comment. The one that matters most is that `TextFrame.clear()` keeps
one empty first paragraph. Because of it, both renderers' title formatting
reads the shape back as the empty text after clearing it, so every
formatted title and subtitle ends up empty. The model keeps this behaviour.
`Typography.FormattedTitleLosesText` and `DeckRenderer.RenderedTitlesEmpty`
state it.

The renderers are imperative:

- slidegen's renderer is a class whose `presentation` field the methods
  replace. The slides are added in a loop, and the body text frame is filled
  line by line in a second loop.
- the backend renderer uses loops over a deck value:
  - a descending loop that deletes the template's slides;
  - a loop that adds the content slides;
  - a bullet loop.

Each method is proved against a function that describes its result, and the
properties are proved about that function.

The network call, `json.loads`, uuid generation, base64 and file I/O are
parameters of the model:

- `send` gives the reply content for a request, or `None` on failure;
- `loads` decodes a payload, or gives `None`;
- `fileId` is the generated uuid;
- `encode` and `decode` stand for serialisation and the base64 codec.

Two details of the code that the model keeps:

- a template whose layout 1 has no title placeholder gets content slides
  without a title. The code checks `if title_shape:` and does not raise.
  The model does the same.
- the backend handles only the flat `SlideOutline`, and slidegen handles
  only the rich `PresentationStructure`. The model keeps them apart.

## Model

| member | source | states |
|---|---|---|
| PyStr.Strip | backend/app/services/parser.py:127 | `str.strip()`: the result is no longer than the input and neither starts nor ends with Python whitespace |
| PyStr.StripPadded | backend/app/services/parser.py:127 | stripping whitespace padding off a text without outer whitespace gives that text back |
| PyStr.StripIdempotent | backend/app/services/parser.py:133 | stripping twice is stripping once |
| PyStr.LeadCountUnique | slidegen/renderer.py:80 | the length of the leading run of given characters is unique: any n with that run property is it |
| PyStr.TrailStartUnique | backend/app/services/parser.py:127 | the start of the trailing whitespace run is uniquely determined |
| PyStr.LStripChars | slidegen/renderer.py:80 | `lstrip(chars)`: the result is a suffix of the input, everything removed before it is in `chars`, and it does not start with one of the characters |
| PyStr.Find | backend/app/services/parser.py:131-132 | `find(sub, start)`: -1 or an occurrence at or after start, with no occurrence between start and it |
| PyStr.Contains | backend/app/services/parser.py:130 | definition of `sub in s`: an occurrence at some position; characterised by FindFromStartIffContains |
| PyStr.FindFromStartIffContains | backend/app/services/parser.py:130-131 | `find` from 0 is non-negative exactly when `sub in s` |
| PyStr.RFind | backend/app/services/parser.py:141 | `rfind(sub)`: -1 or an occurrence with no occurrence after it |
| PyStr.Slice | backend/app/services/parser.py:133 | `s[i:j]` with Python's bounds: plain slice for in-range bounds, a negative end counted from the end, empty when the end falls before the start (for a non-negative end, or a negative one counted from the end) |
| PyStr.Split | slidegen/renderer.py:70 | `split(sep)`: at least one piece, no piece holds the separator |
| PyStr.Join | slidegen/renderer.py:106 | definition of `sep.join(parts)`, which the frame text getter uses; characterised by JoinSplit and SplitJoin |
| PyStr.JoinSplit | slidegen/renderer.py:98 | joining the pieces of a split with the separator gives the text back |
| PyStr.SplitJoin | slidegen/renderer.py:98 | splitting a join of separator-free pieces gives the pieces back |
| Json.RequiredString | slidegen/parser.py:11-12 | a required `str` field is accepted exactly when present and a JSON string, and yields that string |
| Json.OptionalString | slidegen/parser.py:13 | an `Optional[str]` field is accepted when missing, null or a string; missing and null give `None` |
| Json.StringList | backend/app/services/parser.py:12 | `list[str]` accepts exactly arrays of strings and yields them in order |
| Chat.Setting | backend/app/services/parser.py:43-44 | `dict.get(key, default)`: the configured value when present, the default otherwise |
| Chat.Format | backend/app/services/parser.py:45 | definition of `template.format(input_text=...)`: doubled braces, the one field, and the errors; characterised by FormatBraceFree, FormatSubstitutes, FormatRejectsLoneClose and FormatRejectsUnclosed |
| Chat.FormatBraceFree | backend/app/services/parser.py:45 | `format` leaves a brace-free template unchanged |
| Chat.FormatSubstitutes | backend/app/services/parser.py:45 | a template with one `{input_text}` between brace-free texts gives those texts with the input between them |
| Chat.FormatRejectsLoneClose | backend/app/services/parser.py:45 | a lone `}` makes `format` fail |
| Chat.FormatRejectsUnclosed | backend/app/services/parser.py:45 | an opening `{` that is never closed makes `format` fail |
| Chat.Prompt | backend/app/services/parser.py:52-57 | exactly two messages, system then user, the user one the formatted template; fails exactly when `format` fails |
| Extraction.ExtractJson | backend/app/services/parser.py:125-145 | definition of `_extract_json`; characterised by JsonFenceWins, JsonFenceUnclosed, PlainFenceBranch, PlainFenceUnclosed, NoFenceTail, BraceSpan and NothingFound |
| Extraction.FencedBody | backend/app/services/parser.py:130-137 | definition of the shared fence step (find the opener, then the next fence, slice, strip); characterised by the fence lemmas of both extractions |
| Extraction.BraceSpanOrWhole | backend/app/services/parser.py:139-145 | definition of the brace step; characterised by BraceSpan and NothingFound |
| Extraction.ExtractFenced | slidegen/parser.py:81-90 | definition of slidegen's inline extraction; characterised by FencedJsonWins, FencedJsonUnclosed, FencedPlainBranch, FencedPlainUnclosed and FencedNoFence |
| Extraction.JsonFenceWins | backend/app/services/parser.py:127-133 | with a json fence in the trimmed reply, the payload is the stripped text from 7 past its first occurrence to the next fence, whatever else the reply holds |
| Extraction.JsonFenceUnclosed | backend/app/services/parser.py:131-133 | an unclosed json fence drops the trimmed reply's last character: the slice ends at -1 |
| Extraction.PlainFenceBranch | backend/app/services/parser.py:134-137 | with no json fence but a plain one, the payload is the stripped text between the first fence's end and the next fence |
| Extraction.PlainFenceUnclosed | backend/app/services/parser.py:135-137 | an unclosed plain fence also drops the last character |
| Extraction.NoFenceTail | backend/app/services/parser.py:139-145 | without any fence the brace step runs on the trimmed reply |
| Extraction.BraceSpan | backend/app/services/parser.py:140-143 | with no fence and a `{` before the last `}`, the payload is exactly the span from the first `{` through the last `}`, unstripped |
| Extraction.NothingFound | backend/app/services/parser.py:139-145 | with no fence and no brace pair, the payload is the trimmed reply |
| Extraction.WrappingIdempotent | backend/app/services/parser.py:125-145 | a bare JSON object without backticks comes back unchanged from a json fence, from a plain fence, and alone |
| Extraction.FencedJsonWins | slidegen/parser.py:81-84 | slidegen: a json fence in the reply as it came wins, and the payload is the stripped text up to the next fence |
| Extraction.FencedJsonUnclosed | slidegen/parser.py:82-84 | slidegen: an unclosed json fence drops the reply's own last character before stripping |
| Extraction.FencedPlainBranch | slidegen/parser.py:85-88 | slidegen: with only a plain fence, the stripped text between the fences |
| Extraction.FencedPlainUnclosed | slidegen/parser.py:86-88 | slidegen: an unclosed plain fence drops the last character before stripping |
| Extraction.FencedNoFence | slidegen/parser.py:89-90 | slidegen: no fence gives the stripped reply, with no brace scan |
| Extraction.FencedWrappingIdempotent | slidegen/parser.py:81-90 | slidegen: wrapping a bare object in either fence, or not at all, gives it back |
| Extraction.ProseAroundBraces | slidegen/parser.py:182-191 | prose around a brace span is kept whole by slidegen and cut to the span by the backend |
| Extraction.UnclosedAfterNewline | slidegen/parser.py:182-191 | an unclosed json fence followed by a final newline loses nothing in slidegen (the newline goes) but cuts into the payload in the backend |
| OutlineParser.StringListList | backend/app/services/parser.py:13 | `list[list[str]]` accepts exactly arrays of string arrays, element by element |
| OutlineParser.ValidateOutline | backend/app/services/parser.py:10-13 | `SlideOutline(**data)` succeeds exactly when both fields are present with their types, and holds their values |
| OutlineParser.SelectBackend | backend/app/services/parser.py:31-36 | "openai" and "ollama" select their provider and every other name selects none |
| OutlineParser.Request | backend/app/services/parser.py:38-108 | a request is built exactly when the model is supported, an OpenAI key is present and the template formats; an unsupported name or an empty OpenAI key fails first, a template that does not format fails with that format error; otherwise the request carries the two-message prompt and each provider's endpoint, model, key, parameters and timeout |
| OutlineParser.Interpret | backend/app/services/parser.py:72-84 | a reply yields an outline exactly when its extracted payload decodes and validates, and then that outline |
| OutlineParser.Parse | backend/app/services/parser.py:19-36 | `parse` fails with the request's error, or interprets the reply to the request |
| OutlineParser.UnsupportedModelRefused | backend/app/services/parser.py:31-36 | exactly the names other than "openai" and "ollama", "lmstudio" included, are refused, whatever the provider would answer |
| OutlineParser.MissingKeyBeforeRequest | backend/app/services/parser.py:40-41 | an empty OpenAI key fails whatever the provider would answer |
| OutlineParser.DefaultPrompts | backend/app/services/parser.py:43-45 | with no prompt settings the messages are an empty system prompt and the input text itself |
| OutlineParser.FencedReplyParses | backend/app/services/parser.py:75-79 | a json-fenced bare object parses as the object alone would |
| SlidegenParser.ValidateSlide | slidegen/parser.py:9-13 | `SlideContent(**item)` succeeds exactly when title and content are strings and notes is missing, null or a string, and holds them |
| SlidegenParser.ValidateSlides | slidegen/parser.py:20 | `list[SlideContent]` succeeds exactly when every element does, and keeps their order |
| SlidegenParser.ValidateStructure | slidegen/parser.py:16-20 | `PresentationStructure(**data)` succeeds exactly when title, subtitle and slides validate, and holds them |
| SlidegenParser.OrDefault | slidegen/parser.py:40 | `base_url or default`: a missing or empty URL gives the default |
| SlidegenParser.NewOpenAIClient | slidegen/parser.py:39-42 | construction fails exactly when the key is missing or empty; otherwise the client keeps the key and the URL or its default |
| SlidegenParser.NewOllamaClient | slidegen/parser.py:104-105 | an Ollama client with the URL or its default |
| SlidegenParser.NewLMStudioClient | slidegen/parser.py:148-149 | an LM Studio client with the URL or its default |
| SlidegenParser.CreateClient | slidegen/parser.py:202-211 | each supported name builds its client, the local ones without the key; any other name is refused |
| SlidegenParser.CreateClientProviders | slidegen/parser.py:202-211 | success exactly for "openai" with a key, "ollama" and "lmstudio"; the provider matches the name; only OpenAI keeps a key |
| SlidegenParser.DefaultUrls | slidegen/parser.py:39-149 | without a base URL the three clients settle on their fixed default URLs |
| SlidegenParser.ClientPrompt | slidegen/parser.py:46-49 | two messages, the configured or default system prompt and the formatted configured or default template; fails exactly when `format` fails |
| SlidegenParser.DefaultClientPrompt | slidegen/parser.py:46-49 | with no settings the messages are the fixed instruction and "Create a presentation about: " followed by the input |
| SlidegenParser.ClientRequest | slidegen/parser.py:51-72 | per provider the URL, bearer key, model, parameters and timeout of the request, which carries the given messages |
| SlidegenParser.Payload | slidegen/parser.py:79-137 | the Ollama client loads the reply content as it is, the other two clients load the fenced extraction of it |
| SlidegenParser.Generate | slidegen/parser.py:44-95 | a structure comes back exactly when the prompt formats, the provider answers, the payload decodes and validates; and it is that structure |
| SlidegenParser.FencedReplies | slidegen/parser.py:133-137 | OpenAI and LM Studio payloads lose the fence around a bare object; Ollama's payload is the reply as it came |
| Pptx.FrameText | slidegen/renderer.py:106 | definition of reading `text_frame.text`: the paragraph texts joined with newlines; characterised by SetThenRead and ClearedReadsEmpty |
| Pptx.Clear | slidegen/renderer.py:72 | definition of `text_frame.clear()`: one paragraph left, paragraph 0 with empty text; characterised by ClearedReadsEmpty |
| Pptx.AddParagraph | slidegen/renderer.py:85 | definition of `add_paragraph()`: one empty paragraph at the end; used by WriteNext |
| Pptx.SetText | slidegen/renderer.py:98 | setting a frame's text gives one paragraph per `\n`-piece |
| Pptx.SetThenRead | slidegen/renderer.py:98 | a frame reads back the text it was set to |
| Pptx.ClearedReadsEmpty | slidegen/renderer.py:103 | after `clear()` a frame reads back empty, and clearing again changes nothing |
| Pptx.NewSlide | slidegen/renderer.py:39-40 | a new slide has the placeholders its layout has, each holding one empty paragraph, and no notes |
| Typography.FormatTitle | slidegen/renderer.py:100-111 | a formatted title is one paragraph with empty text, 44pt bold black Calibri, left-aligned |
| Typography.FormatSubtitle | slidegen/renderer.py:113-123 | a formatted subtitle is one paragraph with empty text, 28pt dark gray (89,89,89) Calibri, left-aligned |
| Typography.BodyParagraph | slidegen/renderer.py:87-92 | a body paragraph gets its text, level 0, 18pt Calibri and 6pt spacing before and after, and keeps its other properties |
| Typography.FilledBody | slidegen/renderer.py:74-92 | definition of the body a fill loop leaves; characterised by FilledBodyContents and FilledBodySnoc |
| Typography.FilledBodyContents | slidegen/renderer.py:82-92 | a filled body holds the lines one per paragraph in order, paragraph 0 the cleared one, each with the body settings |
| Typography.FilledBodySnoc | slidegen/renderer.py:84-85 | one more line adds one paragraph at the end |
| Typography.FormattedTitleLosesText | slidegen/renderer.py:100-106 | whatever title was set, it reads back before formatting and reads back empty after |
| SlidegenRenderer.BodyLines | slidegen/renderer.py:70 | the content gives at least one line |
| SlidegenRenderer.CleanLine | slidegen/renderer.py:80 | a cleaned line is no longer and has no outer whitespace |
| SlidegenRenderer.KeptLines | slidegen/renderer.py:74-80 | definition of the paragraph texts the line loop writes; characterised by KeptLinesAppend, KeptLinesNoBlank, KeptLinesAllBlank, KeptLinesCount and MarkerOnlyLine |
| SlidegenRenderer.LineParagraphs | slidegen/renderer.py:75-80 | definition of what one line contributes; characterised by MarkerOnlyLine and the KeptLines lemmas |
| SlidegenRenderer.KeptLinesCount | slidegen/renderer.py:74-85 | there are as many body paragraphs as non-blank lines |
| SlidegenRenderer.KeptLinesAppend | slidegen/renderer.py:74-80 | the kept lines of a concatenation are the concatenation of the kept lines |
| SlidegenRenderer.KeptLinesNoBlank | slidegen/renderer.py:74-80 | with no blank line, the paragraphs are the lines, each cleaned, in order |
| SlidegenRenderer.KeptLinesAllBlank | slidegen/renderer.py:76-77 | blank lines write nothing |
| SlidegenRenderer.MarkerOnlyLine | slidegen/renderer.py:75-80 | a line of markers only is not blank and writes one empty paragraph |
| SlidegenRenderer.OnlyLeadingMarkersGo | slidegen/renderer.py:80 | only the leading run of markers goes; markers after whitespace stay |
| SlidegenRenderer.LeadingMarkersGo | slidegen/renderer.py:80 | a line made of a marker run and a rest that does not start with a marker cleans to the stripped rest; with no marker it is only stripped |
| SlidegenRenderer.FirstLineKept | slidegen/renderer.py:70-83 | the first line of non-blank content is non-blank, so the first kept line always reuses paragraph 0 |
| SlidegenRenderer.FillBody | slidegen/renderer.py:70-92 | the frame after the loop is the cleared frame filled with the kept lines |
| SlidegenRenderer.WriteLine | slidegen/renderer.py:75-92 | one turn writes the line's paragraphs after those already written |
| SlidegenRenderer.WriteFirst | slidegen/renderer.py:82-83 | line 0 becomes the only paragraph, the cleared one with the body settings |
| SlidegenRenderer.WriteNext | slidegen/renderer.py:84-85 | a later line adds one paragraph after those written, the others unchanged |
| SlidegenRenderer.FillStep | slidegen/renderer.py:74-85 | before line i the kept lines are those of the earlier lines; none before line 0, some before any later line |
| SlidegenRenderer.TitleSlide | slidegen/renderer.py:37-53 | definition of the slide `_add_title_slide` appends; characterised by TitleSlideShape |
| SlidegenRenderer.ContentSlide | slidegen/renderer.py:55-98 | definition of the slide `_add_content_slide` appends; characterised by ContentSlideShape |
| SlidegenRenderer.TitleSlideShape | slidegen/renderer.py:37-53 | layout 0, a formatted title reading back empty, the subtitle placeholder formatted only for a truthy subtitle and untouched otherwise |
| SlidegenRenderer.ContentSlideShape | slidegen/renderer.py:55-98 | layout 1, a title reading back empty, one body paragraph per kept line or the single cleared one, notes only when truthy and reading back as them |
| SlidegenRenderer.MapSlides | slidegen/renderer.py:32-33 | definition of the slides the `for slide_content in structure.slides` loop appends; characterised by MapSlidesInOrder and MapSlidesSnoc, and AddContentSlides is proved to append it |
| SlidegenRenderer.MapSlidesInOrder | slidegen/renderer.py:32-33 | one slide per entry, in input order |
| SlidegenRenderer.PresentationRenderer.constructor | slidegen/renderer.py:16-17 | a new renderer has no deck |
| SlidegenRenderer.PresentationRenderer.RenderPresentation | slidegen/renderer.py:19-35 | the current deck is replaced by a fresh one on the default layouts, with the title as core title, the subtitle as comments only when truthy, and the title slide followed by one content slide per entry |
| SlidegenRenderer.PresentationRenderer.AddContentSlides | slidegen/renderer.py:32-33 | the loop appends the entries' content slides in order and changes nothing else |
| SlidegenRenderer.PresentationRenderer.AddTitleSlide | slidegen/renderer.py:37-53 | appends the title slide and changes nothing else |
| SlidegenRenderer.PresentationRenderer.AddContentSlide | slidegen/renderer.py:55-98 | appends the entry's content slide and changes nothing else |
| SlidegenRenderer.PresentationRenderer.SaveToFile | slidegen/renderer.py:125-130 | refused while there is no deck; otherwise saves the current deck to the path |
| SlidegenRenderer.PresentationRenderer.ToBase64 | slidegen/renderer.py:132-141 | refused while there is no deck; otherwise the encoding of the current deck |
| SlidegenRenderer.PresentationRenderer.FromBase64 | slidegen/renderer.py:143-147 | a deck that loads becomes the current deck and is returned; an undecodable one leaves the state as it was |
| DeckRenderer.PresentationTitle | backend/app/api/routes.py:71 | the first outline title, or "Presentation" for an outline without titles |
| DeckRenderer.BulletsFor | backend/app/services/renderer.py:46 | content slide i takes the i-th bullet list, or none past the end |
| DeckRenderer.FirstWithBullets | backend/app/services/renderer.py:78-79 | the first content slide with bullets, with none before it |
| DeckRenderer.TitleSlideOf | backend/app/services/renderer.py:56-64 | definition of the title slide; characterised by TitleSlideOfShape |
| DeckRenderer.ContentSlideOf | backend/app/services/renderer.py:66-95 | definition of a content slide; characterised by ContentSlideOfShape, ContentSlideBullets and ContentSlideNoBullets |
| DeckRenderer.ContentSlidesOf | backend/app/services/renderer.py:45-47 | definition of the content slides in order; characterised by ContentSlidesInOrder |
| DeckRenderer.Rendered | backend/app/services/renderer.py:20-54 | definition of what `render` produces; characterised by RenderFailsIff, RenderedSlides, RenderedLayouts and RenderedTitlesEmpty |
| DeckRenderer.TitleSlideOfShape | backend/app/services/renderer.py:56-64 | the title slide is on layout 0, sets only its title and leaves placeholder 1 and the notes as the layout gives them |
| DeckRenderer.ContentSlideOfShape | backend/app/services/renderer.py:66-95 | every content slide is on layout 1 without notes, its title set when the layout has one, its placeholder 1 holding the bullets or left empty |
| DeckRenderer.ContentSlidesInOrder | backend/app/services/renderer.py:45-47 | content slide k pairs title k with bullet list k, in order |
| DeckRenderer.RenderFailsIff | backend/app/services/renderer.py:56-79 | rendering fails exactly for a template without layouts, without layout 1 when there are titles, or whose layout 1 lacks placeholder 1 when some slide has bullets |
| DeckRenderer.RenderedSlides | backend/app/services/renderer.py:33-47 | a render keeps layouts and core properties, drops every template slide, and holds 1 + the number of titles slides: the title slide, then one content slide per title in order |
| DeckRenderer.RenderedLayouts | backend/app/services/renderer.py:45-66 | in a rendered deck slide 0 is on layout 0, every later slide on layout 1, and no slide has notes |
| DeckRenderer.RenderedTitlesEmpty | backend/app/services/renderer.py:97-103 | every title a render writes reads back empty |
| DeckRenderer.ContentSlideBullets | backend/app/services/renderer.py:78-95 | a non-empty bullet list becomes one paragraph per bullet, verbatim and in order, each 18pt Calibri |
| DeckRenderer.ContentSlideNoBullets | backend/app/services/renderer.py:78 | an empty bullet list leaves the body placeholder untouched |
| DeckRenderer.RemoveSlides | backend/app/services/renderer.py:36-39 | the descending deletion loop leaves no slide and changes nothing else |
| DeckRenderer.AddTitleSlide | backend/app/services/renderer.py:56-64 | fails exactly when there is no layout 0; otherwise appends the title slide, which sets only the title |
| DeckRenderer.AddContentSlide | backend/app/services/renderer.py:66-95 | fails without layout 1, or with bullets when layout 1 lacks placeholder 1; otherwise appends the content slide |
| DeckRenderer.FillBullets | backend/app/services/renderer.py:81-95 | the frame after the bullet loop is the cleared frame filled with the bullets |
| DeckRenderer.Render | backend/app/services/renderer.py:20-54 | the artifact is the rendered deck saved as `<fileId>.pptx`, or the first error python-pptx would raise |

## Left out

- The HTTP calls, a call timing out (the configured timeout value is modelled, in `ChatRequest.timeoutSeconds`), `raise_for_status`, async, and indexing the response envelope (`choices[0].message.content`, `message.content`) are left out. The reply content is an input; a failed call or a missing envelope key is `None`.
- `json.loads` is a parameter. Only what happens to the decoded value is modelled.
- Chat.Format: only literal text, `{{`, `}}` and `{input_text}` are accepted. Every other replacement field is an error, although Python's `str.format` also accepts forms such as `{input_text!r}` or `{input_text:>10}`.
- pydantic's error reports are left out. The model reports the first failing field, while pydantic collects them all. Success and the validated values are modelled exactly.
- Template configuration values other than strings are left out, since `Config` maps names to strings. Reply content that is not a string is left out too.
- python-pptx file loading, `save`, `BytesIO`, the base64 codec and deck serialisation are left out. They are foreign code; `encode` and `decode` stand for them, so no round trip through a real file is proved.
- Relationship parts dropped by `drop_rel` during slide removal are left out. Only the slide list is modelled.
- The uuid file name is an input (`fileId`), and the output directory is left out: `__init__`'s `mkdir` and joining paths are file-system effects.
- Line breaks that python-pptx writes for `\n` or `\v` inside one paragraph's text are left out. A bullet's text is kept as the raw string.
- Of python-pptx's default template, only the layouts 0 and 1 the slidegen renderer uses are modelled. The other nine layouts are left out.
- SlidegenRenderer.PresentationRenderer.RenderPresentation: core-property strings are assumed to be at most 255 characters. python-pptx refuses a longer title or comments string by raising; `render_presentation` would then leave a fresh, empty deck in `presentation` (slidegen/renderer.py:21-26), and the model renders the full deck instead. The backend renderer writes no core property.
- Object identity and aliasing of python-pptx objects are left out. A deck, a slide and a frame are values.
- The settings loading from the environment and `.env` is left out. `Settings` is a parameter, and `DefaultSettings` holds its defaults.
- The KimiCLI entry point, the HTTP routes other than the default deck title, the template-creation script and package metadata are not part of this model.
