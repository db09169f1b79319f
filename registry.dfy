/**
 * `TYPE_TO_TEXT_ELEMENT_MAP`: the fixed table from a `type` tag to the text
 * element class that reconstructs it. A class is represented by its category,
 * which determines the constructor `Elements.TextElement` runs.
 */
module Registry {
  import opened Wrappers
  import opened Categories

  /** Each class is registered under its own tag; the only other key is the legacy alias. */
  function TypeToTextElement(): (m: map<string, Category>)
    ensures forall c :: Tag(c) in m && m[Tag(c)] == c
    ensures "BulletedText" in m && m["BulletedText"] == ListItem
    ensures forall tag :: tag in m ==> Tag(m[tag]) == tag || (tag == "BulletedText" && m[tag] == ListItem)
  {
    map[
    "UncategorizedText" := UncategorizedText,
    "FigureCaption" := FigureCaption,
    "NarrativeText" := NarrativeText,
    "ListItem" := ListItem,
    "BulletedText" := ListItem,   // legacy name of ListItem
    "Title" := Title,
    "Address" := Address,
    "Image" := Image,
    "PageBreak" := PageBreak
    ]
  }

  /** The legacy tag kept for the list-item class. */
  const LegacyListItemTag := "BulletedText"

  /**
   * Looks a tag up in the table. The class found has the tag as its own
   * `category`, except for the legacy alias; an unregistered tag finds nothing.
   */
  function Resolve(tag: string): (r: Option<Category>)
    ensures r.Some? <==> (tag == LegacyListItemTag || exists c :: Tag(c) == tag)
    ensures r.Some? ==> Tag(r.value) == tag || (tag == LegacyListItemTag && r.value == ListItem)
  {
    var table := TypeToTextElement();
    if tag in table then Some(table[tag]) else None
  }

  /** Every category is found under its own tag. */
  lemma ResolveOwnTag(c: Category)
    ensures Resolve(Tag(c)) == Some(c)
  {
  }

  /** The legacy alias and the current tag give the same class. */
  lemma LegacyAlias()
    ensures Resolve(LegacyListItemTag) == Resolve(Tag(ListItem)) == Some(ListItem)
  {
  }
}
