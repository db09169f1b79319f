/**
 * The element taxonomy: the dictionary form shared by every element, the
 * checkbox element, and the text elements with their equality, dictionary
 * form, markdown and cleaning pipeline.
 */
module Elements {
  import opened Wrappers
  import opened Values
  import opened Metadata
  import opened Identity
  import opened Categories
  import opened Registry
  import opened Cleaning

  /** Optional bounding-box coordinates, compared only for equality. */
  type Coordinates = Option<seq<real>>

  function CoordinatesValue(c: Coordinates): Value {
    match c
    case None => Null
    case Some(xs) => FloatList(xs)
  }

  function IdValue(id: ElementId): Value {
    match id
    case Explicit(s) => Str(s)
    case NoID => NoIdMarker
  }

  const BaseKeys: set<string> := {"type", "coordinates", "element_id", "metadata"}

  /** `Element.to_dict`: the base class has no type tag. */
  function BaseToDict(id: ElementId, coordinates: Coordinates, metadata: ElementMetadata): (d: map<string, Value>)
    ensures d.Keys == BaseKeys
    ensures d["type"] == Null
    ensures d["element_id"] == IdValue(id) && d["coordinates"] == CoordinatesValue(coordinates)
    ensures d["metadata"] == Dict(Metadata.ToDict(metadata))
  {
    map["type" := Null, "coordinates" := CoordinatesValue(coordinates),
        "element_id" := IdValue(id), "metadata" := Dict(Metadata.ToDict(metadata))]
  }

  // ---------------------------------------------------------------- CheckBox

  /** A form checkbox; its identifier is never derived from content. */
  datatype CheckBox = CheckBox(
    id: ElementId,
    coordinates: Coordinates,
    checked: bool,
    metadata: ElementMetadata)

  /** `CheckBox(...)` with its defaults: no id, no coordinates, unchecked, empty metadata. */
  function DefaultCheckBox(): (b: CheckBox)
    ensures b.id.NoID? && !b.checked && b.coordinates.None? && b.metadata == Empty
  {
    CheckBox(NoID, None, false, Empty)
  }

  /** `CheckBox.__eq__`: compares `checked` and `coordinates` only. */
  predicate CheckBoxEqual(a: CheckBox, b: CheckBox)
    ensures a.(id := b.id, metadata := b.metadata) == b ==> CheckBoxEqual(a, b)
    ensures CheckBoxEqual(a, b) ==> CheckBoxToDict(a)["checked"] == CheckBoxToDict(b)["checked"]
  {
    a.checked == b.checked && a.coordinates == b.coordinates
  }

  /** `CheckBox.to_dict`: the base dictionary with the tag "CheckBox" and the `checked` flag. */
  function CheckBoxToDict(b: CheckBox): (d: map<string, Value>)
    ensures d.Keys == BaseKeys + {"checked"}
    ensures d["type"] == Str("CheckBox") && d["checked"] == Bool(b.checked)
    ensures forall k :: k in BaseKeys - {"type"} ==> d[k] == BaseToDict(b.id, b.coordinates, b.metadata)[k]
  {
    BaseToDict(b.id, b.coordinates, b.metadata)["type" := Str("CheckBox")]["checked" := Bool(b.checked)]
  }

  /** Checkbox equality is exactly agreement of the serialised `checked` and `coordinates`. */
  lemma CheckBoxEqualIffDictsAgree(a: CheckBox, b: CheckBox)
    ensures CheckBoxEqual(a, b) <==>
      CheckBoxToDict(a)["checked"] == CheckBoxToDict(b)["checked"] &&
      CheckBoxToDict(a)["coordinates"] == CheckBoxToDict(b)["coordinates"]
  {
  }

  /** Identifier and metadata never affect checkbox equality. */
  lemma CheckBoxEqualIgnoresIdAndMetadata(b: CheckBox, id: ElementId, metadata: ElementMetadata)
    ensures CheckBoxEqual(b, b.(id := id, metadata := metadata))
  {
  }

  // ------------------------------------------------------------ text elements

  /** The observable state of a text element at one moment. */
  datatype TextState = TextState(
    category: Category,
    text: string,
    id: ElementId,
    coordinates: Coordinates,
    metadata: ElementMetadata)

  /** `Text.__eq__`: compares text, coordinates and category; id and metadata are ignored. */
  predicate TextEqual(a: TextState, b: TextState)
    ensures a.(id := b.id, metadata := b.metadata) == b ==> TextEqual(a, b)
    ensures TextEqual(a, b) ==> TextToMarkdown(a) == TextToMarkdown(b)
  {
    a.text == b.text && a.coordinates == b.coordinates && a.category == b.category
  }

  const TextKeys: set<string> := {"element_id", "coordinates", "text", "type", "metadata"}

  /** The keys `Text.__eq__` looks at, as named in the dictionary form. */
  const ComparedKeys: set<string> := {"text", "coordinates", "type"}

  /** `Text.to_dict`: the base dictionary with the category tag and the current text. */
  function TextToDict(t: TextState): (d: map<string, Value>)
    ensures d.Keys == TextKeys
    ensures d["type"] == Str(Tag(t.category)) && d["text"] == Str(t.text)
    ensures forall k :: k in BaseKeys - {"type"} ==> d[k] == BaseToDict(t.id, t.coordinates, t.metadata)[k]
  {
    BaseToDict(t.id, t.coordinates, t.metadata)["type" := Str(Tag(t.category))]["text" := Str(t.text)]
  }

  /** `to_markdown` of the element's class, on its current text. */
  function TextToMarkdown(t: TextState): (md: string)
    ensures RendersText(t.category) ==> TextOfMarkdown(t.category, md) == Some(t.text)
    ensures t.category.Image? ==> md == ""
    ensures t.category.PageBreak? ==> md == "\n\n"
  {
    if RendersText(t.category) then MarkdownRoundTrip(t.category, t.text); Markdown(t.category, t.text)
    else Markdown(t.category, t.text)
  }

  /**
   * Text equality is exactly agreement of the dictionary forms on the text,
   * coordinates and type; the `element_id` and `metadata` entries play no part.
   */
  lemma TextEqualIffDictsAgree(a: TextState, b: TextState)
    ensures TextEqual(a, b) <==> forall k :: k in ComparedKeys ==> TextToDict(a)[k] == TextToDict(b)[k]
  {
    TagInjective(a.category, b.category);
    if forall k :: k in ComparedKeys ==> TextToDict(a)[k] == TextToDict(b)[k] {
      assert TextToDict(a)["text"] == TextToDict(b)["text"];
      assert TextToDict(a)["type"] == TextToDict(b)["type"];
      assert TextToDict(a)["coordinates"] == TextToDict(b)["coordinates"];
    }
  }

  /** The registry reconstructs the right class from a text element's `type` entry. */
  lemma ResolveSerialisedType(t: TextState)
    ensures TextToDict(t)["type"].Str? && Resolve(TextToDict(t)["type"].s) == Some(t.category)
  {
    ResolveOwnTag(t.category);
  }

  /** The fixed text of every page break. */
  const PageBreakText := "<PAGE BREAK>"

  datatype ApplyError = NonStringOutput

  /** A text element (`Text` or one of its subclasses), whose text `apply` overwrites. */
  class TextElement {
    const category: Category
    var text: string
    var id: ElementId
    var coordinates: Coordinates
    var metadata: ElementMetadata

    function State(): TextState
      reads this
    {
      TextState(category, text, id, coordinates, metadata)
    }

    /**
     * `Text.__init__`, as inherited by every subclass but `PageBreak`: the id
     * is the explicit one or is derived from the initial text.
     */
    constructor (category: Category, text: string, elementId: ElementId, coordinates: Coordinates,
                 metadata: ElementMetadata, sha256Hex: string -> string)
      requires category != Category.PageBreak
      ensures this.category == category && this.text == text
      ensures id == TextId(elementId, text, sha256Hex)
      ensures this.coordinates == coordinates && this.metadata == metadata
    {
      this.category := category;
      this.text := text;
      id := TextId(elementId, text, sha256Hex);
      this.coordinates := coordinates;
      this.metadata := metadata;
    }

    /**
     * `PageBreak.__init__`: every argument is discarded; the element is built
     * as `Text("<PAGE BREAK>")` with the page-break category.
     */
    constructor PageBreak(text: Option<string>, elementId: ElementId, coordinates: Coordinates,
                          metadata: ElementMetadata, sha256Hex: string -> string)
      ensures category == Category.PageBreak && this.text == PageBreakText
      ensures id == Explicit(DeriveId(sha256Hex, PageBreakText))
      ensures this.coordinates == None && this.metadata == Empty
    {
      category := Category.PageBreak;
      this.text := PageBreakText;
      id := TextId(NoID, PageBreakText, sha256Hex);
      this.coordinates := None;
      this.metadata := Empty;
    }

    /**
     * `apply`: runs the cleaners left to right from the current text; only the
     * final value is checked, and only a string replaces the text. On a
     * non-string result the text is left as it was. Nothing but the text changes.
     */
    method Apply(cleaners: seq<Cleaner>) returns (outcome: Outcome<ApplyError>)
      modifies this`text
      ensures var result := Pipeline(cleaners, Str(old(text)));
        && (outcome.Pass? <==> result.Str?)
        && (outcome.Fail? ==> outcome.error == NonStringOutput && text == old(text))
        && (outcome.Pass? ==> text == result.s)
      ensures id == old(id) && coordinates == old(coordinates) && metadata == old(metadata)
    {
      var cleaned := Str(text);
      var i := 0;
      while i < |cleaners|
        invariant 0 <= i <= |cleaners|
        invariant cleaned == Pipeline(cleaners[..i], Str(text))
      {
        assert cleaners[..i + 1][..i] == cleaners[..i];
        cleaned := cleaners[i](cleaned);
        i := i + 1;
      }
      assert cleaners[..i] == cleaners;
      if !cleaned.Str? {
        return Fail(NonStringOutput);
      }
      text := cleaned.s;
      outcome := Pass;
    }
  }

  /**
   * The identifier reflects the original text: building an element without an
   * id and then cleaning it leaves the id derived from the initial text.
   */
  method IdSurvivesCleaning(category: Category, text: string, coordinates: Coordinates,
                            metadata: ElementMetadata, cleaners: seq<Cleaner>,
                            sha256Hex: string -> string)
    returns (before: ElementId, after: ElementId, cleanedText: string)
    requires category != Category.PageBreak
    ensures before == after == Explicit(DeriveId(sha256Hex, text))
    ensures Pipeline(cleaners, Str(text)).Str? ==> cleanedText == Pipeline(cleaners, Str(text)).s
  {
    var e := new TextElement(category, text, NoID, coordinates, metadata, sha256Hex);
    before := e.id;
    var _ := e.Apply(cleaners);
    after := e.id;
    cleanedText := e.text;
  }

  /**
   * Determinism of derived ids: two elements built without ids from the same
   * text get the same id, whatever their classes, coordinates and metadata.
   */
  method EqualTextsEqualIds(text: string, c1: Category, k1: Coordinates, m1: ElementMetadata,
                            c2: Category, k2: Coordinates, m2: ElementMetadata,
                            sha256Hex: string -> string)
    returns (id1: ElementId, id2: ElementId)
    requires c1 != Category.PageBreak && c2 != Category.PageBreak
    ensures id1 == id2 == Explicit(DeriveId(sha256Hex, text))
  {
    var x := new TextElement(c1, text, NoID, k1, m1, sha256Hex);
    var y := new TextElement(c2, text, NoID, k2, m2, sha256Hex);
    id1, id2 := x.id, y.id;
  }

  /** All page breaks are equal and share one identifier, whatever they were given. */
  method PageBreaksAgree(t1: Option<string>, id1: ElementId, c1: Coordinates, m1: ElementMetadata,
                         t2: Option<string>, id2: ElementId, c2: Coordinates, m2: ElementMetadata,
                         sha256Hex: string -> string)
    returns (a: TextState, b: TextState)
    ensures a == b && TextEqual(a, b)
    ensures a.id == Explicit(DeriveId(sha256Hex, PageBreakText))
    ensures TextToMarkdown(a) == "\n\n"
  {
    var x := new TextElement.PageBreak(t1, id1, c1, m1, sha256Hex);
    var y := new TextElement.PageBreak(t2, id2, c2, m2, sha256Hex);
    a, b := x.State(), y.State();
  }

  /** A registry lookup followed by the class's constructor. */
  method Instantiate(tag: string, text: string, elementId: ElementId, coordinates: Coordinates,
                     metadata: ElementMetadata, sha256Hex: string -> string)
    returns (r: Option<TextState>)
    ensures r.None? <==> tag !in TypeToTextElement()
    ensures r.Some? ==> r.value.category == TypeToTextElement()[tag]
    ensures r.Some? && r.value.category != Category.PageBreak ==>
      r.value == TextState(r.value.category, text, TextId(elementId, text, sha256Hex), coordinates, metadata)
    ensures r.Some? && r.value.category == Category.PageBreak ==>
      r.value == TextState(Category.PageBreak, PageBreakText, Explicit(DeriveId(sha256Hex, PageBreakText)), None, Empty)
  {
    var cls := Resolve(tag);
    if cls.None? {
      return None;
    }
    var e: TextElement;
    if cls.value == Category.PageBreak {
      e := new TextElement.PageBreak(Some(text), elementId, coordinates, metadata, sha256Hex);
    } else {
      e := new TextElement(cls.value, text, elementId, coordinates, metadata, sha256Hex);
    }
    r := Some(e.State());
  }
}
