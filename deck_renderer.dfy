/** backend/app/services/renderer.py: `PresentationRenderer.render` opens a
    template deck, removes its slides, appends a title slide and one content
    slide per outline title, and saves the deck under a fresh file name.
    The renderer holds no state that `render` changes, so the operations are
    methods on the deck value being built. A missing layout or placeholder
    makes python-pptx raise; the model returns the error instead. */
module DeckRenderer {
  import opened Wrappers
  import opened Pptx
  import opened Typography
  import opened OutlineParser

  /** Why `render` raises: `prs.slide_layouts[index]` past the end, or
      `slide.placeholders[1]` on content slide `slide` (counted from 0) whose
      layout has no placeholder 1. */
  datatype RenderError = MissingLayout(index: nat) | MissingPlaceholder(slide: nat)

  /** The saved presentation: the file name the deck is saved under, inside
      the output directory, and the deck. */
  datatype Artifact = Artifact(fileName: string, deck: Deck)

  /** The title `generate_presentation` passes to `render`: the first
      outline title, or "Presentation" when there is none. */
  function PresentationTitle(outline: SlideOutline): (r: string)
    ensures outline.titles != [] ==> r == outline.titles[0]
    ensures outline.titles == [] ==> r == "Presentation"
  {
    if outline.titles != [] then outline.titles[0] else "Presentation"
  }

  /** The bullets of content slide `i`: the outline's list at that position,
      or none when the outline has fewer lists than titles. */
  function BulletsFor(outline: SlideOutline, i: nat): (r: seq<string>)
    ensures i < |outline.bullets| ==> r == outline.bullets[i]
    ensures i >= |outline.bullets| ==> r == []
  {
    if i < |outline.bullets| then outline.bullets[i] else []
  }

  /** The first content slide at or after `from` that has bullets
      (`|outline.titles|` when there is none). */
  function FirstWithBullets(outline: SlideOutline, from: nat): (r: nat)
    requires from <= |outline.titles|
    ensures from <= r <= |outline.titles|
    ensures r < |outline.titles| ==> BulletsFor(outline, r) != []
    ensures forall j :: from <= j < r ==> BulletsFor(outline, j) == []
    decreases |outline.titles| - from
  {
    if from == |outline.titles| then from
    else if BulletsFor(outline, from) != [] then from
    else FirstWithBullets(outline, from + 1)
  }

  /** The title slide on layout 0: the title placeholder, when the layout
      has one, set to the title and then formatted (so it reads back empty);
      placeholder 1 left as the layout gives it. */
  function TitleSlideOf(layouts: seq<Layout>, title: string): Slide
    requires |layouts| >= 1
  {
    var slide := NewSlide(layouts, 0);
    if slide.title.Some? then slide.(title := Some(FormatTitle(SetText(title)))) else slide
  }

  /** Content slide on layout 1: the title as on the title slide; with
      bullets and a placeholder 1, one body paragraph per bullet, verbatim. */
  function ContentSlideOf(layouts: seq<Layout>, title: string, bullets: seq<string>): Slide
    requires |layouts| >= 2
  {
    var slide := NewSlide(layouts, 1);
    var slide := if slide.title.Some? then slide.(title := Some(FormatTitle(SetText(title)))) else slide;
    if bullets != [] && slide.body.Some? then slide.(body := Some(FilledBody(EmptyParagraph, bullets))) else slide
  }

  /** The content slides for the first `n` outline titles, in order. */
  function ContentSlidesOf(layouts: seq<Layout>, outline: SlideOutline, n: nat): seq<Slide>
    requires |layouts| >= 2 && n <= |outline.titles|
  {
    if n == 0 then []
    else ContentSlidesOf(layouts, outline, n - 1) + [ContentSlideOf(layouts, outline.titles[n - 1], BulletsFor(outline, n - 1))]
  }

  /** The title slide is on layout 0 and sets only its title: the
      placeholder 1 (a subtitle in the default template) stays as the layout
      gives it, and no notes are written. */
  lemma TitleSlideOfShape(layouts: seq<Layout>, title: string)
    requires |layouts| >= 1
    ensures var s := TitleSlideOf(layouts, title);
            && s.layout == 0 && s.notes == None && s.body == NewSlide(layouts, 0).body
            && (s.title.Some? <==> layouts[0].hasTitle)
            && (s.title.Some? ==> s.title.value == FormatTitle(SetText(title)))
  {
  }

  /** Every content slide is on layout 1, without notes; its title is set
      when layout 1 has one, and its placeholder 1 holds the bullets, or
      stays empty when there are none. */
  lemma ContentSlideOfShape(layouts: seq<Layout>, title: string, bullets: seq<string>)
    requires |layouts| >= 2
    ensures var s := ContentSlideOf(layouts, title, bullets);
            && s.layout == 1 && s.notes == None
            && (s.title.Some? <==> layouts[1].hasTitle)
            && (s.title.Some? ==> s.title.value == FormatTitle(SetText(title)))
            && (s.body.Some? <==> layouts[1].hasPlaceholder1)
            && (s.body.Some? ==> s.body.value == if bullets == [] then EmptyFrame else FilledBody(EmptyParagraph, bullets))
  {
  }

  /** What `render` produces from a template: the error python-pptx raises
      first, or the template's layouts and core properties with the slides
      replaced by the title slide and the content slides. */
  function Rendered(template: Deck, outline: SlideOutline, title: string): Result<Deck, RenderError> {
    var layouts := template.layouts;
    if |layouts| == 0 then Err(MissingLayout(0))
    else if outline.titles != [] && |layouts| < 2 then Err(MissingLayout(1))
    else if outline.titles == [] then Ok(template.(slides := [TitleSlideOf(layouts, title)]))
    else if !layouts[1].hasPlaceholder1 && FirstWithBullets(outline, 0) < |outline.titles|
    then Err(MissingPlaceholder(FirstWithBullets(outline, 0)))
    else Ok(template.(slides := [TitleSlideOf(layouts, title)] + ContentSlidesOf(layouts, outline, |outline.titles|)))
  }

  /** One content slide per title, slide k made from title k and the
      bullets at position k. */
  lemma {:induction false} ContentSlidesInOrder(layouts: seq<Layout>, outline: SlideOutline, n: nat)
    requires |layouts| >= 2 && n <= |outline.titles|
    ensures |ContentSlidesOf(layouts, outline, n)| == n
    ensures forall k :: 0 <= k < n ==>
              ContentSlidesOf(layouts, outline, n)[k] == ContentSlideOf(layouts, outline.titles[k], BulletsFor(outline, k))
  {
    if n > 0 {
      ContentSlidesInOrder(layouts, outline, n - 1);
    }
  }

  /** `render` fails exactly when the template has no layout, when there is
      a content slide and no layout 1, or when layout 1 has no placeholder 1
      and some content slide has bullets. */
  lemma RenderFailsIff(template: Deck, outline: SlideOutline, title: string)
    ensures Rendered(template, outline, title).Err? <==>
              |template.layouts| == 0
              || (outline.titles != [] && |template.layouts| < 2)
              || (|template.layouts| >= 2 && !template.layouts[1].hasPlaceholder1
                  && exists j :: 0 <= j < |outline.titles| && BulletsFor(outline, j) != [])
  {
    if |template.layouts| >= 2 && !template.layouts[1].hasPlaceholder1 {
      var f := FirstWithBullets(outline, 0);
      if f < |outline.titles| {
        assert BulletsFor(outline, f) != [];
      }
    }
  }

  /** A successful render keeps the template's layouts and core properties,
      drops all its slides, and holds the title slide followed by one
      content slide per outline title, in order; surplus bullet lists are
      ignored and titles without a list get an untouched body. */
  lemma RenderedSlides(template: Deck, outline: SlideOutline, title: string)
    requires Rendered(template, outline, title).Ok?
    ensures var d := Rendered(template, outline, title).value;
            && d.layouts == template.layouts && d.coreTitle == template.coreTitle
            && d.coreComments == template.coreComments
            && |d.slides| == 1 + |outline.titles|
            && d.slides[0] == TitleSlideOf(template.layouts, title)
            && forall k :: 0 <= k < |outline.titles| ==>
                 d.slides[k + 1] == ContentSlideOf(template.layouts, outline.titles[k], BulletsFor(outline, k))
  {
    if outline.titles != [] {
      ContentSlidesInOrder(template.layouts, outline, |outline.titles|);
    }
  }

  /** In a rendered deck slide 0 is on layout 0 and every other slide on
      layout 1, and no slide has notes. */
  lemma RenderedLayouts(template: Deck, outline: SlideOutline, title: string)
    requires Rendered(template, outline, title).Ok?
    ensures var d := Rendered(template, outline, title).value;
            && d.slides[0].layout == 0
            && forall k :: 0 <= k < |d.slides| ==>
                 d.slides[k].layout == (if k == 0 then 0 else 1) && d.slides[k].notes == None
  {
    RenderedSlides(template, outline, title);
    var d := Rendered(template, outline, title).value;
    TitleSlideOfShape(template.layouts, title);
    forall k | 0 < k < |d.slides|
      ensures d.slides[k].layout == 1 && d.slides[k].notes == None
    {
      ContentSlideOfShape(template.layouts, outline.titles[k - 1], BulletsFor(outline, k - 1));
    }
  }

  /** Every title a render writes reads back as the empty text, whatever the
      titles were, since `_format_title_shape` reads the shape after
      clearing it. */
  lemma RenderedTitlesEmpty(template: Deck, outline: SlideOutline, title: string)
    requires Rendered(template, outline, title).Ok?
    ensures var d := Rendered(template, outline, title).value;
            forall k :: 0 <= k < |d.slides| && d.slides[k].title.Some? ==> FrameText(d.slides[k].title.value) == ""
  {
    RenderedSlides(template, outline, title);
    var d := Rendered(template, outline, title).value;
    forall k | 0 <= k < |d.slides| && d.slides[k].title.Some?
      ensures FrameText(d.slides[k].title.value) == ""
    {
      if k == 0 {
        assert d.slides[0] == TitleSlideOf(template.layouts, title);
      } else {
        assert d.slides[k] == ContentSlideOf(template.layouts, outline.titles[k - 1], BulletsFor(outline, k - 1));
      }
      assert |d.slides[k].title.value| == 1 && d.slides[k].title.value[0].text == "";
    }
  }

  /** A content slide's bullets are written verbatim, one paragraph each,
      order kept, each with the body settings. */
  lemma ContentSlideBullets(layouts: seq<Layout>, title: string, bullets: seq<string>)
    requires |layouts| >= 2 && layouts[1].hasPlaceholder1 && bullets != []
    ensures var s := ContentSlideOf(layouts, title, bullets);
            && s.layout == 1 && s.body.Some? && Texts(s.body.value) == bullets
            && forall j :: 0 <= j < |bullets| ==>
                 s.body.value[j].size == Some(18) && s.body.value[j].font == Some(FontFamily)
  {
    FilledBodyContents(EmptyParagraph, bullets);
  }

  /** With a layout 1 that has placeholder 1 an empty bullet list leaves
      the body placeholder as the layout gives it. */
  lemma ContentSlideNoBullets(layouts: seq<Layout>, title: string)
    requires |layouts| >= 2 && layouts[1].hasPlaceholder1
    ensures ContentSlideOf(layouts, title, []).body == Some(EmptyFrame)
  {
  }

  /** The slide-removal loop: the template's slides are deleted from the
      last to the first; nothing else about the deck changes. */
  method RemoveSlides(template: Deck) returns (prs: Deck)
    ensures prs == template.(slides := [])
  {
    prs := template;
    var i := |prs.slides| - 1;
    while i >= 0
      invariant -1 <= i < |template.slides|
      invariant prs == template.(slides := template.slides[..i + 1])
      decreases i
    {
      prs := prs.(slides := prs.slides[..i] + prs.slides[i + 1..]);
      assert prs.slides == template.slides[..i];
      i := i - 1;
    }
  }

  /** `_add_title_slide`. */
  method AddTitleSlide(prs: Deck, title: string) returns (r: Result<Deck, RenderError>)
    ensures |prs.layouts| == 0 <==> r.Err?
    ensures r.Err? ==> r.error == MissingLayout(0)
    ensures r.Ok? ==> r.value == prs.(slides := prs.slides + [TitleSlideOf(prs.layouts, title)])
  {
    if |prs.layouts| == 0 {
      return Err(MissingLayout(0));
    }
    var slide := NewSlide(prs.layouts, 0);
    if slide.title.Some? {
      var frame := SetText(title);
      frame := FormatTitle(frame);
      slide := slide.(title := Some(frame));
    }
    return Ok(prs.(slides := prs.slides + [slide]));
  }

  /** `_add_content_slide` for content slide `index`. */
  method AddContentSlide(prs: Deck, title: string, bullets: seq<string>, index: nat) returns (r: Result<Deck, RenderError>)
    ensures |prs.layouts| < 2 ==> r == Err(MissingLayout(1))
    ensures |prs.layouts| >= 2 && bullets != [] && !prs.layouts[1].hasPlaceholder1 ==> r == Err(MissingPlaceholder(index))
    ensures |prs.layouts| >= 2 && (bullets == [] || prs.layouts[1].hasPlaceholder1) ==>
              r == Ok(prs.(slides := prs.slides + [ContentSlideOf(prs.layouts, title, bullets)]))
  {
    if |prs.layouts| < 2 {
      return Err(MissingLayout(1));
    }
    var slide := NewSlide(prs.layouts, 1);
    if slide.title.Some? {
      var frame := SetText(title);
      frame := FormatTitle(frame);
      slide := slide.(title := Some(frame));
    }
    if bullets != [] {
      if slide.body.None? {
        return Err(MissingPlaceholder(index));
      }
      var body := FillBullets(slide.body.value, bullets);
      slide := slide.(body := Some(body));
    }
    return Ok(prs.(slides := prs.slides + [slide]));
  }

  /** The bullet loop of `_add_content_slide`: clear the frame, then write
      bullet 0 into the paragraph `clear()` left and every later bullet into
      a paragraph of its own. */
  method FillBullets(frame: TextFrame, bullets: seq<string>) returns (r: TextFrame)
    ensures r == FilledBody(Clear(frame)[0], bullets)
  {
    r := Clear(frame);
    ghost var cleared := r[0];
    for i := 0 to |bullets|
      invariant r == FilledBody(cleared, bullets[..i])
    {
      assert bullets[..i + 1] == bullets[..i] + [bullets[i]];
      if i == 0 {
        r := r[0 := BodyParagraph(r[0], bullets[i])];
        assert r == [BodyParagraph(cleared, bullets[0])];
      } else {
        r := AddParagraph(r);
        r := r[|r| - 1 := BodyParagraph(r[|r| - 1], bullets[i])];
        assert r == FilledBody(cleared, bullets[..i]) + [BodyParagraph(EmptyParagraph, bullets[i])];
        FilledBodySnoc(cleared, bullets[..i], bullets[i]);
      }
    }
    assert bullets[..|bullets|] == bullets;
  }

  /** `render`, with the opened template as `template` and the fresh uuid as
      `fileId`: the artifact is the deck `Rendered` describes, saved as
      `<fileId>.pptx`, or the error that stopped it. */
  method Render(template: Deck, outline: SlideOutline, title: string, fileId: string) returns (r: Result<Artifact, RenderError>)
    ensures Rendered(template, outline, title).Err? ==> r == Err(Rendered(template, outline, title).error)
    ensures Rendered(template, outline, title).Ok? ==>
              r == Ok(Artifact(fileId + ".pptx", Rendered(template, outline, title).value))
  {
    var prs := RemoveSlides(template);
    var added := AddTitleSlide(prs, title);
    if added.Err? {
      return Err(added.error);
    }
    prs := added.value;
    for i := 0 to |outline.titles|
      invariant |template.layouts| >= 1
      invariant i > 0 ==> |template.layouts| >= 2
      invariant i > 0 && !template.layouts[1].hasPlaceholder1 ==> forall j :: 0 <= j < i ==> BulletsFor(outline, j) == []
      invariant i > 0 ==> prs == template.(slides := [TitleSlideOf(template.layouts, title)] + ContentSlidesOf(template.layouts, outline, i))
      invariant i == 0 ==> prs == template.(slides := [TitleSlideOf(template.layouts, title)])
    {
      var next := AddContentSlide(prs, outline.titles[i], BulletsFor(outline, i), i);
      if next.Err? {
        if |template.layouts| >= 2 {
          assert FirstWithBullets(outline, 0) == i;
        }
        return Err(next.error);
      }
      prs := next.value;
    }
    if outline.titles != [] && !template.layouts[1].hasPlaceholder1 {
      assert FirstWithBullets(outline, 0) == |outline.titles|;
    }
    return Ok(Artifact(fileId + ".pptx", prs));
  }
}
