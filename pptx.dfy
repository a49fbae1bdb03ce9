/** An abstract model of the parts of a python-pptx presentation that the
    renderers touch. A deck is its layouts, its ordered slides and two core
    properties; a slide has the layout it was made from, the text frame of
    its title placeholder, the text frame of placeholder 1 (the subtitle on
    a title layout, the body on a title-and-content layout) and its notes.

    Assumptions about python-pptx that this model states explicitly:
    - a text frame always holds at least one paragraph;
    - a placeholder on a slide just added holds one empty paragraph with no
      paragraph properties;
    - setting a frame's text (`shape.text = s`, `text_frame.text = s`)
      replaces all paragraphs by one fresh paragraph per piece of
      `s.split("\n")`;
    - reading a frame's text gives its paragraph texts joined with "\n";
    - `TextFrame.clear()` keeps only the first paragraph, removes its text and
      keeps its paragraph properties;
    - `add_paragraph()` appends a fresh empty paragraph;
    - the core-property strings written (`title`, `comments`) are at most
      255 characters, the longest python-pptx accepts without raising. */
module Pptx {
  import opened Wrappers
  import opened PyStr

  datatype Rgb = Rgb(red: nat, green: nat, blue: nat)

  datatype Align = Left | Center | Right | Justify

  /** A paragraph: its text and the properties the renderers set. `None`
      means the property is not set on the paragraph (it is inherited). */
  datatype Paragraph = Paragraph(
    text: string,
    level: nat,
    size: Option<nat>,          // font size in points
    font: Option<string>,       // font family
    bold: Option<bool>,
    color: Option<Rgb>,
    alignment: Option<Align>,
    spaceBefore: Option<nat>,   // points
    spaceAfter: Option<nat>)    // points

  const EmptyParagraph: Paragraph := Paragraph("", 0, None, None, None, None, None, None, None)

  type TextFrame = f: seq<Paragraph> | |f| >= 1 witness [EmptyParagraph]

  /** The frame of a placeholder on a slide just added. */
  const EmptyFrame: TextFrame := [EmptyParagraph]

  function Texts(ps: seq<Paragraph>): (r: seq<string>)
    ensures |r| == |ps| && forall i :: 0 <= i < |ps| ==> r[i] == ps[i].text
  {
    if ps == [] then [] else [ps[0].text] + Texts(ps[1..])
  }

  /** Reading `text_frame.text` (and `shape.text`). */
  function FrameText(f: TextFrame): string {
    Join(Texts(f), '\n')
  }

  /** Assigning `text_frame.text = s` (and `shape.text = s`). */
  function SetText(s: string): (r: TextFrame)
    ensures Texts(r) == Split(s, '\n')
  {
    var pieces := Split(s, '\n');
    seq(|pieces|, i requires 0 <= i < |pieces| => EmptyParagraph.(text := pieces[i]))
  }

  /** `TextFrame.clear()`. */
  function Clear(f: TextFrame): (r: TextFrame) {
    [f[0].(text := "")]
  }

  /** `TextFrame.add_paragraph()`. */
  function AddParagraph(f: TextFrame): (r: TextFrame) {
    f + [EmptyParagraph]
  }

  /** What a frame's text was set to is what reading it gives back. */
  lemma SetThenRead(s: string)
    ensures FrameText(SetText(s)) == s
  {
    JoinSplit(s, '\n');
  }

  /** After `clear()` a frame reads back as the empty text, whatever it held. */
  lemma ClearedReadsEmpty(f: TextFrame)
    ensures FrameText(Clear(f)) == ""
    ensures Clear(Clear(f)) == Clear(f)
  {
  }

  /** A slide layout: whether it has a title placeholder and whether it has a
      placeholder with index 1. */
  datatype Layout = Layout(hasTitle: bool, hasPlaceholder1: bool)

  /** A slide. `title` and `body` are `None` when the layout lacks that
      placeholder; `notes` is `None` until the notes slide is written. */
  datatype Slide = Slide(layout: nat, title: Option<TextFrame>, body: Option<TextFrame>, notes: Option<TextFrame>)

  /** The slide `prs.slides.add_slide(prs.slide_layouts[index])` appends. */
  function NewSlide(layouts: seq<Layout>, index: nat): (s: Slide)
    requires index < |layouts|
    ensures s.layout == index && s.notes == None
    ensures s.title.Some? <==> layouts[index].hasTitle
    ensures s.body.Some? <==> layouts[index].hasPlaceholder1
    ensures s.title.Some? ==> s.title.value == EmptyFrame
    ensures s.body.Some? ==> s.body.value == EmptyFrame
  {
    Slide(index,
          if layouts[index].hasTitle then Some(EmptyFrame) else None,
          if layouts[index].hasPlaceholder1 then Some(EmptyFrame) else None,
          None)
  }

  /** A presentation: layouts, slides in order, and the core properties
      `title` and `comments` (`None`: not written by the renderer). */
  datatype Deck = Deck(layouts: seq<Layout>, slides: seq<Slide>, coreTitle: Option<string>, coreComments: Option<string>)
}
