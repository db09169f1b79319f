/**
 * The closed set of text-element categories (`Text` and its seven
 * subclasses), each with its `category` tag and its markdown rendering.
 */
module Categories {
  import opened Wrappers

  datatype Category =
    | UncategorizedText   // class Text
    | FigureCaption
    | NarrativeText
    | ListItem
    | Title
    | Address
    | Image
    | PageBreak

  /** The class attribute `category`, used as the `type` of the dictionary form. */
  function Tag(c: Category): (tag: string)
    ensures tag != "BulletedText" && tag != "CheckBox"
  {
    match c
    case UncategorizedText => "UncategorizedText"
    case FigureCaption => "FigureCaption"
    case NarrativeText => "NarrativeText"
    case ListItem => "ListItem"
    case Title => "Title"
    case Address => "Address"
    case Image => "Image"
    case PageBreak => "PageBreak"
  }

  /** Distinct categories have distinct tags. */
  lemma TagInjective(a: Category, b: Category)
    ensures Tag(a) == Tag(b) <==> a == b
  {
  }

  /** `to_markdown` of each class, applied to the element's current text. */
  function Markdown(c: Category, text: string): (md: string)
    ensures RendersText(c) ==> md == Opening(c) + text + Closing(c)
    ensures c.Image? ==> md == ""
    ensures c.PageBreak? ==> md == ['\n', '\n']
  {
    match c
    case UncategorizedText => "![](" + text + ")"
    case FigureCaption => "![](" + text + ")"
    case NarrativeText => text
    case ListItem => "- " + text
    case Title => "# " + text
    case Address => text
    case Image => ""
    case PageBreak => "\n\n"
  }

  /** The categories whose markdown carries the text. */
  predicate RendersText(c: Category) {
    !c.Image? && !c.PageBreak?
  }

  /** What each text-carrying rendering puts before and after the text. */
  function Opening(c: Category): string {
    match c
    case UncategorizedText | FigureCaption => "![]("
    case ListItem => "- "
    case Title => "# "
    case _ => ""
  }

  function Closing(c: Category): string {
    if c.UncategorizedText? || c.FigureCaption? then ")" else ""
  }

  /** Reads the text back out of a rendering, if `md` is one for category `c`. */
  function TextOfMarkdown(c: Category, md: string): (r: Option<string>)
    requires RendersText(c)
  {
    var pre, post := Opening(c), Closing(c);
    if |pre| + |post| <= |md| && md[..|pre|] == pre && md[|md| - |post|..] == post
    then Some(md[|pre|..|md| - |post|])
    else None
  }

  /** A text-carrying rendering keeps the whole text: it can be read back. */
  lemma {:induction false} MarkdownRoundTrip(c: Category, text: string)
    requires RendersText(c)
    ensures TextOfMarkdown(c, Markdown(c, text)) == Some(text)
  {
    var pre, post := Opening(c), Closing(c);
    var md := Markdown(c, text);
    assert md[..|pre|] == pre;
    assert md[|md| - |post|..] == post;
    assert md[|pre|..|md| - |post|] == text;
  }

  /** Conversely, whatever reads back as `text` is exactly the rendering of `text`. */
  lemma {:induction false} MarkdownReadBack(c: Category, md: string, text: string)
    requires RendersText(c) && TextOfMarkdown(c, md) == Some(text)
    ensures Markdown(c, text) == md
  {
    var pre, post := Opening(c), Closing(c);
    assert md == md[..|pre|] + md[|pre|..|md| - |post|] + md[|md| - |post|..];
  }

  /** `Image` and `PageBreak` render the same whatever their text. */
  lemma MarkdownIgnoresText(c: Category, a: string, b: string)
    requires !RendersText(c)
    ensures Markdown(c, a) == Markdown(c, b)
    ensures |Markdown(c, a)| == if c.Image? then 0 else 2
  {
  }

  /** The renderings spelled out for sample texts. */
  lemma MarkdownSamples()
    ensures Markdown(Title, "Intro") == "# Intro"
    ensures Markdown(ListItem, "x") == "- x"
    ensures Markdown(Image, "x") == ""
    ensures Markdown(PageBreak, "<PAGE BREAK>") == ['\n', '\n']
    ensures Markdown(FigureCaption, "x") == Markdown(UncategorizedText, "x") == "![](x)"
    ensures Markdown(NarrativeText, "x") == Markdown(Address, "x") == "x"
  {
  }
}
