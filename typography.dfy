/** The formatting helpers of both renderers (`_format_title_shape`,
    `_format_subtitle_shape` and the per-paragraph body settings), which are
    written identically in the two renderer files. */
module Typography {
  import opened Wrappers
  import opened Pptx

  const FontFamily := "Calibri"
  const Black := Rgb(0, 0, 0)
  const DarkGray := Rgb(89, 89, 89)

  /** `_format_title_shape`: clear the frame, then give its first paragraph
      the text the shape reads back at that moment, 44pt bold black Calibri,
      left-aligned. Because the shape is read after `clear()`, that text is
      empty. */
  function FormatTitle(f: TextFrame): (r: TextFrame)
    ensures |r| == 1
    ensures r[0].text == ""
    ensures r[0].size == Some(44) && r[0].font == Some(FontFamily) && r[0].bold == Some(true)
    ensures r[0].color == Some(Black) && r[0].alignment == Some(Left)
    ensures r[0].level == f[0].level && r[0].spaceBefore == f[0].spaceBefore && r[0].spaceAfter == f[0].spaceAfter
  {
    var cleared := Clear(f);
    [cleared[0].(text := FrameText(cleared), size := Some(44), font := Some(FontFamily),
                 bold := Some(true), color := Some(Black), alignment := Some(Left))]
  }

  /** `_format_subtitle_shape`: as for the title, with 28pt dark gray
      (RGB 89,89,89) Calibri, left-aligned, and boldness left as it was. */
  function FormatSubtitle(f: TextFrame): (r: TextFrame)
    ensures |r| == 1
    ensures r[0].text == ""
    ensures r[0].size == Some(28) && r[0].font == Some(FontFamily)
    ensures r[0].color == Some(DarkGray) && r[0].alignment == Some(Left)
    ensures r[0].bold == f[0].bold && r[0].level == f[0].level
  {
    var cleared := Clear(f);
    [cleared[0].(text := FrameText(cleared), size := Some(28), font := Some(FontFamily),
                 color := Some(DarkGray), alignment := Some(Left))]
  }

  /** The settings every body paragraph receives after its text: level 0,
      18pt Calibri, 6pt before and after. Properties the loop does not set
      (boldness, colour, alignment) stay as the paragraph had them. */
  function BodyParagraph(p: Paragraph, text: string): (r: Paragraph)
    ensures r.text == text && r.level == 0
    ensures r.size == Some(18) && r.font == Some(FontFamily)
    ensures r.spaceBefore == Some(6) && r.spaceAfter == Some(6)
    ensures r.bold == p.bold && r.color == p.color && r.alignment == p.alignment
  {
    p.(text := text, level := 0, size := Some(18), font := Some(FontFamily), spaceBefore := Some(6), spaceAfter := Some(6))
  }

  /** A body frame filled with the lines `kept`, from the paragraph
      `clear()` left: that paragraph carries the first line, every further
      line gets a paragraph of its own from `add_paragraph()`, each with the
      body settings. With no line the cleared paragraph stays as it is. */
  function FilledBody(cleared: Paragraph, kept: seq<string>): (r: TextFrame)
    ensures |r| == if kept == [] then 1 else |kept|
    ensures kept == [] ==> r == [cleared]
  {
    if kept == [] then [cleared]
    else [BodyParagraph(cleared, kept[0])] +
         seq(|kept| - 1, j requires 0 <= j < |kept| - 1 => BodyParagraph(EmptyParagraph, kept[j + 1]))
  }

  /** The filled body holds the kept lines, one per paragraph, each with
      the body settings; paragraph 0 keeps the cleared paragraph's other
      properties. */
  lemma FilledBodyContents(cleared: Paragraph, kept: seq<string>)
    requires kept != []
    ensures var r := FilledBody(cleared, kept);
            && Texts(r) == kept
            && r[0] == BodyParagraph(cleared, kept[0])
            && (forall j :: 0 < j < |r| ==> r[j] == BodyParagraph(EmptyParagraph, kept[j]))
            && (forall j :: 0 <= j < |r| ==>
                  (r[j].level == 0 && r[j].size == Some(18) && r[j].font == Some(FontFamily)
                   && r[j].spaceBefore == Some(6) && r[j].spaceAfter == Some(6)))
  {
    var r := FilledBody(cleared, kept);
    forall j | 0 < j < |r| ensures r[j] == BodyParagraph(EmptyParagraph, kept[j]) {
      assert r[j] == ([BodyParagraph(cleared, kept[0])] +
        seq(|kept| - 1, i requires 0 <= i < |kept| - 1 => BodyParagraph(EmptyParagraph, kept[i + 1])))[j];
    }
    forall j | 0 <= j < |r| ensures r[j].text == kept[j] {
    }
    assert Texts(r) == kept;
  }

  /** Writing one more line adds one paragraph at the end. */
  lemma FilledBodySnoc(cleared: Paragraph, kept: seq<string>, line: string)
    requires kept != []
    ensures FilledBody(cleared, kept + [line]) == FilledBody(cleared, kept) + [BodyParagraph(EmptyParagraph, line)]
  {
    var a := FilledBody(cleared, kept + [line]);
    var b := FilledBody(cleared, kept) + [BodyParagraph(EmptyParagraph, line)];
    assert |a| == |b|;
    forall j | 0 <= j < |a| ensures a[j] == b[j] {
      if j == 0 {
        assert (kept + [line])[0] == kept[0];
      } else if j < |kept| {
        assert (kept + [line])[j] == kept[j];
      }
    }
  }

  /** The hazard both renderers share: whatever text was assigned to a title
      or subtitle placeholder just before formatting, the formatted frame
      reads back as the empty text. */
  lemma {:induction false} FormattedTitleLosesText(title: string)
    ensures FrameText(SetText(title)) == title
    ensures FrameText(FormatTitle(SetText(title))) == ""
    ensures FrameText(FormatSubtitle(SetText(title))) == ""
  {
    SetThenRead(title);
  }
}
