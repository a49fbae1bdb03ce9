/** slidegen/renderer.py: `PresentationRenderer` keeps the current deck in
    `presentation`; `render_presentation` replaces it by a fresh deck built
    from a `PresentationStructure`, `from_base64` by a decoded one, and
    `save_to_file` and `to_base64` refuse to run while there is none. */
module SlidegenRenderer {
  import opened Wrappers
  import opened PyStr
  import opened Pptx
  import opened Typography
  import opened SlidegenParser

  /** The two layouts of python-pptx's default template that the renderer
      uses: 0 "Title Slide" and 1 "Title and Content", each with a title and
      a placeholder with index 1. */
  const DefaultLayouts: seq<Layout> := [Layout(true, true), Layout(true, true)]

  /** The deck `Presentation()` opens: no slides, core properties not yet
      written by the renderer. */
  const FreshDeck: Deck := Deck(DefaultLayouts, [], None, None)

  /** The bullet markers `lstrip('•-*')` removes. */
  const Markers: set<char> := {'•', '-', '*'}

  /** The lines of a slide's content: `content.strip().split('\n')`. */
  function BodyLines(content: string): (lines: seq<string>)
    ensures |lines| >= 1
  {
    Split(Strip(content), '\n')
  }

  /** A stripped, non-blank line loses its leading markers and is stripped
      again. */
  function CleanLine(line: string): (r: string)
    ensures |r| <= |line|
    ensures r == [] || (!IsSpace(r[0]) && !IsSpace(r[|r| - 1]))
  {
    Strip(LStripChars(line, Markers))
  }

  /** The texts `f` gives for the lines, in order, one after the other. */
  function FlatMap(f: string -> seq<string>, lines: seq<string>): seq<string> {
    if lines == [] then [] else f(lines[0]) + FlatMap(f, lines[1..])
  }

  lemma {:induction false} FlatMapAppend(f: string -> seq<string>, a: seq<string>, b: seq<string>)
    ensures FlatMap(f, a + b) == FlatMap(f, a) + FlatMap(f, b)
  {
    if a == [] {
      assert a + b == b;
    } else {
      assert (a + b)[0] == a[0] && (a + b)[1..] == a[1..] + b;
      FlatMapAppend(f, a[1..], b);
    }
  }

  /** The text of each paragraph the loop writes, in order: blank lines are
      skipped, the others cleaned. */
  function KeptLines(lines: seq<string>): seq<string> {
    FlatMap(LineParagraphs, lines)
  }

  /** What one line contributes: nothing when blank, its cleaned text
      otherwise. */
  function LineParagraphs(line: string): seq<string> {
    if Strip(line) == [] then [] else [CleanLine(Strip(line))]
  }

  /** Filling splits over concatenation of line lists. */
  lemma KeptLinesAppend(a: seq<string>, b: seq<string>)
    ensures KeptLines(a + b) == KeptLines(a) + KeptLines(b)
  {
    FlatMapAppend(LineParagraphs, a, b);
  }

  /** A list of one line keeps what that line contributes. */
  lemma KeptLinesSingle(line: string)
    ensures KeptLines([line]) == LineParagraphs(line)
  {
    assert [line][1..] == [];
    assert FlatMap(LineParagraphs, [line]) == LineParagraphs(line) + FlatMap(LineParagraphs, []);
    assert LineParagraphs(line) + [] == LineParagraphs(line);
  }

  /** With no blank line, every line is kept, cleaned, in its place. */
  lemma KeptLinesNoBlank(lines: seq<string>)
    requires forall i :: 0 <= i < |lines| ==> Strip(lines[i]) != []
    ensures |KeptLines(lines)| == |lines|
    ensures forall i :: 0 <= i < |lines| ==> KeptLines(lines)[i] == CleanLine(Strip(lines[i]))
  {
    FlatMapSingles(LineParagraphs, lines);
  }

  /** When `f` gives exactly one text for each line, the texts are those,
      line by line. */
  lemma {:induction false} FlatMapSingles(f: string -> seq<string>, lines: seq<string>)
    requires forall i :: 0 <= i < |lines| ==> |f(lines[i])| == 1
    ensures |FlatMap(f, lines)| == |lines|
    ensures forall i :: 0 <= i < |lines| ==> FlatMap(f, lines)[i] == f(lines[i])[0]
  {
    if lines != [] {
      assert forall i :: 1 <= i < |lines| ==> lines[1..][i - 1] == lines[i];
      FlatMapSingles(f, lines[1..]);
    }
  }

  /** Blank lines produce nothing. */
  lemma {:induction false} KeptLinesAllBlank(lines: seq<string>)
    requires forall i :: 0 <= i < |lines| ==> Strip(lines[i]) == []
    ensures KeptLines(lines) == []
  {
    if lines != [] {
      KeptLinesAllBlank(lines[1..]);
    }
  }

  /** The blank check comes before marker removal: a line made of markers
      only is not blank, and it yields one paragraph with empty text. */
  lemma MarkerOnlyLine(line: string)
    requires Strip(line) != [] && AllIn(Strip(line), Markers)
    ensures KeptLines([line]) == [""]
  {
    var s := Strip(line);
    LeadCountUnique(s, Markers, |s|);
    StripPadded([], [], []);
    KeptLinesSingle(line);
  }

  /** A line that starts with a run of markers loses that run and is
      stripped; with no marker in front (`m` empty) the line is only
      stripped. So "-item" becomes "item" and "item" stays "item". */
  lemma {:induction false} LeadingMarkersGo(m: string, t: string)
    requires AllIn(m, Markers) && (t == [] || t[0] !in Markers)
    ensures CleanLine(m + t) == Strip(t)
  {
    var s := m + t;
    assert forall k :: 0 <= k < |m| ==> s[k] == m[k];
    assert |m| == |s| || s[|m|] == t[0];
    LeadCountUnique(s, Markers, |m|);
    assert s[|m|..] == t;
  }

  /** Only the leading run of markers goes: once whitespace follows it,
      markers further on stay (so "- * item" becomes "* item"). */
  lemma {:induction false} OnlyLeadingMarkersGo(m: string, lead: string, t: string)
    requires AllIn(m, Markers) && AllIn(lead, Whitespace) && |lead| >= 1
    requires t == [] || (!IsSpace(t[0]) && !IsSpace(t[|t| - 1]))
    ensures CleanLine(m + lead + t) == t
  {
    var s := m + lead + t;
    assert s[|m|] == lead[0] && lead[0] in Whitespace;
    assert s[|m|] !in Markers;
    assert forall k :: 0 <= k < |m| ==> s[k] == m[k];
    LeadCountUnique(s, Markers, |m|);
    assert s[|m|..] == lead + t + [];
    StripPadded(lead, t, []);
  }

  /** The first line of a non-blank content is itself non-blank; a blank
      content has a single, blank line. */
  lemma FirstLineKept(content: string)
    ensures Strip(BodyLines(content)[0]) != [] || BodyLines(content) == [[]]
  {
    var s := Strip(content);
    if s != [] {
      assert s[0] != '\n';
      var lines := Split(s, '\n');
      assert lines[0][0] == s[0];
      StripKeepsNonSpaceHead(lines[0]);
    }
  }

  /** One line of the walk: the kept lines of a longer prefix. */
  lemma {:induction false} KeptLinesStep(lines: seq<string>, i: nat)
    requires i < |lines|
    ensures KeptLines(lines[..i + 1]) == KeptLines(lines[..i]) + LineParagraphs(lines[i])
  {
    assert lines[..i + 1] == lines[..i] + [lines[i]];
    KeptLinesAppend(lines[..i], [lines[i]]);
    KeptLinesSingle(lines[i]);
  }

  /** One paragraph per non-blank line: the number of kept lines is the
      number of lines that are not blank. */
  lemma KeptLinesCount(lines: seq<string>)
    ensures |KeptLines(lines)| == |set i | 0 <= i < |lines| && Strip(lines[i]) != []|
  {
    var keep := (x: string) => Strip(x) != [];
    forall x: string ensures |LineParagraphs(x)| == if keep(x) then 1 else 0 { }
    FlatMapCount(LineParagraphs, keep, lines, |lines|);
    assert lines[..|lines|] == lines;
    assert (set i | 0 <= i < |lines| && keep(lines[i])) == (set i | 0 <= i < |lines| && Strip(lines[i]) != []);
  }

  /** When `f` gives one text for the lines `keep` accepts and none for the
      others, the first `n` lines give as many texts as they hold accepted
      lines. */
  lemma {:induction false} FlatMapCount(f: string -> seq<string>, keep: string -> bool, lines: seq<string>, n: nat)
    requires n <= |lines|
    requires forall x :: |f(x)| == if keep(x) then 1 else 0
    ensures |FlatMap(f, lines[..n])| == |set i | 0 <= i < n && keep(lines[i])|
  {
    var b := set i | 0 <= i < n && keep(lines[i]);
    if n == 0 {
      assert lines[..0] == [];
      assert b == {};
    } else {
      FlatMapCount(f, keep, lines, n - 1);
      assert lines[..n] == lines[..n - 1] + [lines[n - 1]];
      FlatMapAppend(f, lines[..n - 1], [lines[n - 1]]);
      assert [lines[n - 1]][1..] == [];
      assert FlatMap(f, [lines[n - 1]]) == f(lines[n - 1]) + FlatMap(f, []);
      var a := set i | 0 <= i < n - 1 && keep(lines[i]);
      assert n - 1 !in a;
      if keep(lines[n - 1]) {
        assert b == a + {n - 1};
      } else {
        assert b == a;
      }
    }
  }

  /** Past line 0 something has been kept already, when line 0 is not blank. */
  lemma KeptSoFar(lines: seq<string>, i: nat)
    requires 0 < i <= |lines| && Strip(lines[0]) != []
    ensures KeptLines(lines[..i]) != []
  {
    assert lines[..i] == [lines[0]] + lines[1..i];
    KeptLinesAppend([lines[0]], lines[1..i]);
    KeptLinesSingle(lines[0]);
  }

  /** What the walk knows before writing line `i`: the kept lines grow by
      what that line contributes, nothing is kept before line 0, and
      something is kept before any later line. */
  lemma FillStep(content: string, lines: seq<string>, i: nat)
    requires lines == BodyLines(content) && i < |lines|
    ensures KeptLines(lines[..i + 1]) == KeptLines(lines[..i]) + LineParagraphs(lines[i])
    ensures i == 0 ==> KeptLines(lines[..i]) == []
    ensures i > 0 ==> KeptLines(lines[..i]) != []
  {
    KeptLinesStep(lines, i);
    FirstLineKept(content);
    if i > 0 {
      KeptSoFar(lines, i);
    } else {
      assert lines[..0] == [];
    }
  }

  /** The body fill of `_add_content_slide`: clear the frame, then walk the
      lines with their index. */
  method FillBody(frame: TextFrame, content: string) returns (r: TextFrame)
    ensures r == FilledBody(Clear(frame)[0], KeptLines(BodyLines(content)))
  {
    var lines := BodyLines(content);
    r := Clear(frame);
    ghost var cleared := r[0];
    ghost var kept: seq<string> := [];
    assert lines[..0] == [];
    for i := 0 to |lines|
      invariant kept == KeptLines(lines[..i])
      invariant r == FilledBody(cleared, kept)
    {
      FillStep(content, lines, i);
      r := WriteLine(r, cleared, kept, i, lines[i]);
      kept := kept + LineParagraphs(lines[i]);
    }
    assert lines[..|lines|] == lines;
  }

  /** One turn of the walk, on line `i` of the content: a blank line is
      skipped; any other is cleaned and written to paragraph 0 when it is
      line 0, to a new paragraph otherwise. */
  method WriteLine(frame: TextFrame, ghost cleared: Paragraph, ghost kept: seq<string>, i: nat, raw: string)
      returns (r: TextFrame)
    requires frame == FilledBody(cleared, kept)
    requires i == 0 ==> kept == []
    requires i > 0 ==> kept != []
    ensures r == FilledBody(cleared, kept + LineParagraphs(raw))
  {
    r := frame;
    var line := Strip(raw);
    if line == [] {
      assert kept + [] == kept;
      return;
    }
    line := CleanLine(line);
    assert LineParagraphs(raw) == [line];
    if i == 0 {
      assert kept + [line] == [line];
      r := WriteFirst(r, cleared, line);
    } else {
      r := WriteNext(r, cleared, kept, line);
    }
  }

  /** Line 0 goes to the cleared paragraph 0. */
  method WriteFirst(frame: TextFrame, ghost cleared: Paragraph, line: string) returns (r: TextFrame)
    requires frame == [cleared]
    ensures r == FilledBody(cleared, [line])
  {
    r := frame[0 := BodyParagraph(frame[0], line)];
    assert r == [BodyParagraph(cleared, line)];
  }

  /** A later line goes to a new paragraph at the end. */
  method WriteNext(frame: TextFrame, ghost cleared: Paragraph, ghost kept: seq<string>, line: string)
      returns (r: TextFrame)
    requires kept != [] && frame == FilledBody(cleared, kept)
    ensures r == FilledBody(cleared, kept + [line])
  {
    r := AddParagraph(frame);
    r := r[|r| - 1 := BodyParagraph(r[|r| - 1], line)];
    assert r == frame + [BodyParagraph(EmptyParagraph, line)];
    FilledBodySnoc(cleared, kept, line);
  }

  /** The slide `_add_title_slide` appends to a fresh deck. */
  function TitleSlide(structure: PresentationStructure): Slide {
    var slide := NewSlide(DefaultLayouts, 0);
    var title := FormatTitle(SetText(structure.title));
    var body := if Truthy(structure.subtitle) then FormatSubtitle(SetText(structure.subtitle.value)) else EmptyFrame;
    slide.(title := Some(title), body := Some(body))
  }

  /** The title slide: layout 0, the formatted title (which reads back
      empty, whatever the title was), and the subtitle placeholder written
      only for a truthy subtitle. */
  lemma TitleSlideShape(structure: PresentationStructure)
    ensures var s := TitleSlide(structure);
            && s.layout == 0 && s.notes == None && s.title.Some? && s.body.Some?
            && FrameText(s.title.value) == ""
            && s.title.value[0].size == Some(44) && s.title.value[0].bold == Some(true)
            && s.title.value[0].color == Some(Black) && s.title.value[0].alignment == Some(Left)
            && (Truthy(structure.subtitle) ==>
                  FrameText(s.body.value) == "" && s.body.value[0].size == Some(28)
                  && s.body.value[0].color == Some(DarkGray) && s.body.value[0].alignment == Some(Left))
            && (!Truthy(structure.subtitle) ==> s.body.value == EmptyFrame)
  {
  }

  /** The slide `_add_content_slide` appends. */
  function ContentSlide(content: SlideContent): Slide {
    var slide := NewSlide(DefaultLayouts, 1);
    slide.(title := Some(FormatTitle(SetText(content.title))),
           body := Some(FilledBody(EmptyParagraph, KeptLines(BodyLines(content.content)))),
           notes := if Truthy(content.notes) then Some(SetText(content.notes.value)) else None)
  }

  /** A content slide: layout 1, the formatted title reading back empty,
      one body paragraph per non-blank line of the content (or the single
      cleared one), and for truthy notes a notes frame that reads back as
      the notes. */
  lemma ContentSlideShape(content: SlideContent)
    ensures var s := ContentSlide(content);
            var kept := KeptLines(BodyLines(content.content));
            && s.layout == 1 && s.title.Some? && FrameText(s.title.value) == ""
            && s.body.Some? && |s.body.value| == (if kept == [] then 1 else |kept|)
            && (kept == [] ==> s.body.value == EmptyFrame)
            && (kept != [] ==> Texts(s.body.value) == kept)
            && (Truthy(content.notes) ==> s.notes.Some? && FrameText(s.notes.value) == content.notes.value)
            && (!Truthy(content.notes) ==> s.notes == None)
  {
    var kept := KeptLines(BodyLines(content.content));
    if kept != [] {
      FilledBodyContents(EmptyParagraph, kept);
    }
    if content.notes.Some? {
      SetThenRead(content.notes.value);
    }
  }

  /** The slides `make` gives for the entries, in order. */
  function MapSlides(make: SlideContent -> Slide, entries: seq<SlideContent>): seq<Slide> {
    if entries == [] then [] else MapSlides(make, entries[..|entries| - 1]) + [make(entries[|entries| - 1])]
  }

  /** One slide per entry, entry k's at position k. */
  lemma {:induction false} MapSlidesInOrder(make: SlideContent -> Slide, entries: seq<SlideContent>)
    ensures |MapSlides(make, entries)| == |entries|
    ensures forall k :: 0 <= k < |entries| ==> MapSlides(make, entries)[k] == make(entries[k])
  {
    if entries != [] {
      var init := entries[..|entries| - 1];
      MapSlidesInOrder(make, init);
      assert forall k :: 0 <= k < |init| ==> init[k] == entries[k];
    }
  }

  /** One more entry, one more slide behind those already there. */
  lemma MapSlidesSnoc(make: SlideContent -> Slide, prefix: seq<Slide>, entries: seq<SlideContent>, k: nat)
    requires k <= |entries|
    ensures prefix + MapSlides(make, entries[..0]) == prefix
    ensures k < |entries| ==>
              prefix + MapSlides(make, entries[..k + 1]) == prefix + MapSlides(make, entries[..k]) + [make(entries[k])]
  {
    assert entries[..0] == [];
    if k < |entries| {
      assert entries[..k + 1][..k] == entries[..k];
    }
  }

  /** `save_to_file` hands the current deck and the path to python-pptx. */
  datatype SavedFile = SavedFile(path: string, deck: Deck)

  datatype RendererError = NoPresentation | UndecodableDeck

  class PresentationRenderer {
    /** The current deck; `None` until one is rendered or loaded. */
    var presentation: Option<Deck>

    constructor()
      ensures presentation == None
    {
      presentation := None;
    }

    /** `render_presentation`: a fresh deck replaces the current one; its
        title is the structure's title, its comments the subtitle when that
        is truthy; then the title slide and one content slide per entry, in
        order. */
    method RenderPresentation(structure: PresentationStructure) returns (deck: Deck)
      modifies this
      ensures presentation == Some(deck)
      ensures deck == Deck(DefaultLayouts, [TitleSlide(structure)] + MapSlides(ContentSlide, structure.slides),
                           Some(structure.title), if Truthy(structure.subtitle) then structure.subtitle else None)
    {
      var blank := FreshDeck.(coreTitle := Some(structure.title));
      if Truthy(structure.subtitle) {
        blank := blank.(coreComments := structure.subtitle);
      }
      assert blank == Deck(DefaultLayouts, [], Some(structure.title),
                           if Truthy(structure.subtitle) then structure.subtitle else None);
      presentation := Some(blank);
      AddTitleSlide(structure);
      assert [] + [TitleSlide(structure)] == [TitleSlide(structure)];
      assert presentation.value == blank.(slides := [TitleSlide(structure)]);
      AddContentSlides(structure.slides);
      deck := presentation.value;
    }

    /** The loop of `render_presentation`: one content slide per entry,
        appended in order behind the slides already there. */
    method AddContentSlides(entries: seq<SlideContent>)
      requires presentation.Some? && presentation.value.layouts == DefaultLayouts
      modifies this
      ensures presentation == Some(old(presentation.value).(slides := old(presentation.value.slides) + MapSlides(ContentSlide, entries)))
    {
      ghost var before := presentation.value;
      MapSlidesSnoc(ContentSlide, before.slides, entries, 0);
      for k := 0 to |entries|
        invariant presentation == Some(before.(slides := before.slides + MapSlides(ContentSlide, entries[..k])))
      {
        MapSlidesSnoc(ContentSlide, before.slides, entries, k);
        AddContentSlide(entries[k]);
      }
      assert entries[..|entries|] == entries;
    }

    /** `_add_title_slide`. */
    method AddTitleSlide(structure: PresentationStructure)
      requires presentation.Some? && presentation.value.layouts == DefaultLayouts
      modifies this
      ensures presentation == Some(old(presentation.value).(slides := old(presentation.value.slides) + [TitleSlide(structure)]))
    {
      var deck := presentation.value;
      var slide := NewSlide(deck.layouts, 0);
      if slide.title.Some? {
        var title := SetText(structure.title);
        title := FormatTitle(title);
        slide := slide.(title := Some(title));
      }
      if Truthy(structure.subtitle) {
        var subtitle := SetText(structure.subtitle.value);
        subtitle := FormatSubtitle(subtitle);
        slide := slide.(body := Some(subtitle));
      }
      presentation := Some(deck.(slides := deck.slides + [slide]));
    }

    /** `_add_content_slide`. */
    method AddContentSlide(content: SlideContent)
      requires presentation.Some? && presentation.value.layouts == DefaultLayouts
      modifies this
      ensures presentation == Some(old(presentation.value).(slides := old(presentation.value.slides) + [ContentSlide(content)]))
    {
      var deck := presentation.value;
      var slide := NewSlide(deck.layouts, 1);
      if slide.title.Some? {
        var title := SetText(content.title);
        title := FormatTitle(title);
        slide := slide.(title := Some(title));
      }
      var body := FillBody(slide.body.value, content.content);
      slide := slide.(body := Some(body));
      if Truthy(content.notes) {
        slide := slide.(notes := Some(SetText(content.notes.value)));
      }
      presentation := Some(deck.(slides := deck.slides + [slide]));
    }

    /** `save_to_file`: refused while there is no deck. */
    method SaveToFile(path: string) returns (r: Result<SavedFile, RendererError>)
      ensures presentation.None? ==> r == Err(NoPresentation)
      ensures presentation.Some? ==> r == Ok(SavedFile(path, presentation.value))
    {
      if presentation.None? {
        return Err(NoPresentation);
      }
      return Ok(SavedFile(path, presentation.value));
    }

    /** `to_base64`, with the serialisation and the base64 codec as the
        parameter `encode`: refused while there is no deck. */
    method ToBase64(encode: Deck -> string) returns (r: Result<string, RendererError>)
      ensures presentation.None? ==> r == Err(NoPresentation)
      ensures presentation.Some? ==> r == Ok(encode(presentation.value))
    {
      if presentation.None? {
        return Err(NoPresentation);
      }
      return Ok(encode(presentation.value));
    }

    /** `from_base64`, with decoding and loading as the parameter `decode`:
        a deck that loads becomes the current one; otherwise the error
        leaves the current deck as it was. */
    method FromBase64(b64: string, decode: string -> Option<Deck>) returns (r: Result<Deck, RendererError>)
      modifies this
      ensures decode(b64).Some? ==> presentation == decode(b64) && r == Ok(decode(b64).value)
      ensures decode(b64).None? ==> presentation == old(presentation) && r == Err(UndecodableDeck)
    {
      var loaded := decode(b64);
      if loaded.None? {
        return Err(UndecodableDeck);
      }
      presentation := loaded;
      return Ok(loaded.value);
    }
  }
}
