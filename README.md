# Document element taxonomy, in Dafny

This project models `unstructured/documents/elements.py`, the element
taxonomy of a document-extraction library: the units of extracted content
(titles, list items, narrative text, checkboxes, page breaks, ...), how each
gets its identifier, how it serialises to a dictionary and renders to
markdown, how its text is run through a cleaning pipeline, and the registry
that maps a serialised `type` tag back to an element class.

Modules, one per component of the source file:

- `Wrappers` (`wrappers.dfy`): `Option`, `Result`, `Outcome`, standing for `None` and raised exceptions.
- `Values` (`values.dfy`): the Python values found in dictionary forms and passed between cleaners.
- `Metadata` (`metadata.dfy`): `ElementMetadata` with its compacting `to_dict` and `from_dict`.
- `Identity` (`identity.dfy`): the explicit-or-`NoID` identifier and the content-derived id.
- `Categories` (`categories.dfy`): the eight text categories, their tags and markdown rules.
- `Registry` (`registry.dfy`): `TYPE_TO_TEXT_ELEMENT_MAP`, with the legacy `BulletedText` alias.
- `Cleaning` (`cleaning.dfy`): the left-to-right fold of cleaners used by `Text.apply`.
- `Elements` (`elements.dfy`): the base dictionary form, `CheckBox` (a datatype: nothing
  mutates it), and `TextElement`, a class whose `Apply` method overwrites `text` in place.

The class hierarchy `Text` / `FigureCaption` / ... / `PageBreak` becomes the
closed datatype `Category`; a `TextElement` carries its category as a
constant. `Text.__init__` (inherited by all subclasses but `PageBreak`) is the
anonymous constructor, and `PageBreak.__init__` is the named constructor
`PageBreak`. The pure view of an element, `TextState`, is what the
dictionary form, markdown and equality are defined on.

The SHA-256 digest is a foreign call (`hashlib`): members that derive an id
take it as a parameter `sha256Hex`, standing for
`hashlib.sha256(t.encode()).hexdigest()`. Lemmas about the id's shape assume
only the format of that output: FIPS 180-4 gives a 256-bit digest, which
`hexdigest()` writes as 64 lowercase hex characters.

## Model

| member | source | states |
|---|---|---|
| `Metadata.DropNulls` | unstructured/documents/elements.py:25 | the comprehension keeps exactly the entries whose value is not `None`, unchanged |
| `Metadata.ToDict` | unstructured/documents/elements.py:24-25 | the dictionary has a key for a field if and only if that field is present, holding its value, and no other keys |
| `Metadata.FromDict` | unstructured/documents/elements.py:27-29 | fails exactly when some key names no field (Python's `TypeError` on an unexpected keyword); otherwise each field is present if and only if its key is present with a non-`None` value, and then holds that value |
| `Metadata.FromDictToDict` | unstructured/documents/elements.py:24-29 | round trip: `from_dict(to_dict(m)) == m` for every record |
| `Metadata.ToDictFromDict` | unstructured/documents/elements.py:24-29 | reverse round trip: a dictionary of known keys comes back from `to_dict(from_dict(d))` minus its `None` entries |
| `Metadata.PageNumberOnly` | unstructured/documents/elements.py:24-25 | a record with only `page_number` set serialises to the one-key dictionary `{"page_number": n}` |
| `Metadata.EmptyToDict` | unstructured/documents/elements.py:14-25 | the default record serialises to the empty dictionary |
| `Identity.Truncate` | unstructured/documents/elements.py:102 | the slice `[:32]` is a prefix of length `min(len, 32)` |
| `Identity.DeriveId` | unstructured/documents/elements.py:101-102 | the derived id is a prefix of the hex digest and, for a genuine SHA-256 hex digest, 32 lowercase hex characters (128 bits) |
| `Identity.TextId` | unstructured/documents/elements.py:100-104 | an explicit id is kept unchanged; `NoID` is replaced by the id derived from the initial text; a text element never keeps `NoID` |
| `Identity.DerivedIdShape` | unstructured/documents/elements.py:101-102 | a derived id has 32 characters, all lowercase hex |
| `Categories.Tag` | unstructured/documents/elements.py:89-203 | the `category` attribute of each class; no class uses the checkbox tag `CheckBox` or the legacy alias `BulletedText` as its own tag |
| `Categories.Markdown` | unstructured/documents/elements.py:139-215 | `to_markdown` of each class: `Text` and `FigureCaption` wrap the text as `![](text)`, `NarrativeText` and `Address` give the text, `ListItem` prefixes `- `, `Title` prefixes `# `, `Image` gives `""` and `PageBreak` two newlines |
| `Categories.TagInjective` | unstructured/documents/elements.py:89-203 | the class `category` tags are pairwise distinct |
| `Categories.MarkdownRoundTrip` | unstructured/documents/elements.py:139-188 | for `Text`, `FigureCaption`, `NarrativeText`, `ListItem`, `Title` and `Address` the markdown keeps the whole text: it reads back exactly |
| `Categories.MarkdownReadBack` | unstructured/documents/elements.py:139-188 | conversely, a string that reads back as a text is exactly that text's rendering, so the rendering is a bijection onto its image |
| `Categories.MarkdownIgnoresText` | unstructured/documents/elements.py:191-215 | `Image` renders as `""` and `PageBreak` as two newlines, whatever the text |
| `Categories.MarkdownSamples` | unstructured/documents/elements.py:139-215 | `# Intro` for a title, `- x` for a list item, `![](x)` for `Text` and `FigureCaption`, the bare text for `NarrativeText` and `Address` |
| `Registry.TypeToTextElement` | unstructured/documents/elements.py:218-228 | the table registers every class under its own `category` tag and the legacy key `BulletedText`, mapped to `ListItem`, which is its only other key |
| `Registry.Resolve` | unstructured/documents/elements.py:218-228 | a tag is found exactly when it is some category's tag or `BulletedText`; the class found has that tag, except the alias, which gives `ListItem` |
| `Registry.ResolveOwnTag` | unstructured/documents/elements.py:218-228 | every category is registered under its own tag |
| `Registry.LegacyAlias` | unstructured/documents/elements.py:222-223 | `BulletedText` and `ListItem` resolve to the same class, `ListItem` |
| `Cleaning.Pipeline` | unstructured/documents/elements.py:130-132 | the loop's final value: each cleaner is applied to its predecessor's output, unchecked in between; cleaners that map strings to strings, as `apply`'s docstring asks, always yield a string |
| `Cleaning.PipelineConcat` | unstructured/documents/elements.py:130-132 | running cleaners `a` then `b` equals running `a + b`: the fold composes strictly left to right |
| `Cleaning.FirstCleanerFirst` | unstructured/documents/elements.py:130-132 | the first cleaner receives the starting text and the rest run on its output |
| `Cleaning.OrderSensitive` | unstructured/documents/elements.py:127-137 | swapping two cleaners changes the result (`"h!"` against `"h"` from `"hi"`) |
| `Elements.BaseToDict` | unstructured/documents/elements.py:45-51 | the base dictionary has exactly the keys `type`, `coordinates`, `element_id` and `metadata`; `type` is null, `element_id` holds the id (or the `NoID` marker), `coordinates` the coordinates, and `metadata` the nested `metadata.to_dict()` |
| `Elements.DefaultCheckBox` | unstructured/documents/elements.py:61-71 | a checkbox built with defaults has `NoID`, no coordinates, is unchecked and has empty metadata |
| `Elements.CheckBoxEqual` | unstructured/documents/elements.py:73-74 | `CheckBox.__eq__`: two checkboxes that differ only in id and metadata are equal, and equal checkboxes serialise the same `checked` |
| `Elements.CheckBoxToDict` | unstructured/documents/elements.py:76-83 | the base dictionary with `type` "CheckBox" and `checked` added, every other entry as in the base form |
| `Elements.CheckBoxEqualIffDictsAgree` | unstructured/documents/elements.py:73-83 | two checkboxes are equal if and only if their dictionaries agree on `checked` and `coordinates` |
| `Elements.CheckBoxEqualIgnoresIdAndMetadata` | unstructured/documents/elements.py:73-74 | changing a checkbox's id and metadata never makes it unequal |
| `Elements.TextEqual` | unstructured/documents/elements.py:109-116 | `Text.__eq__`: two text elements that differ only in id and metadata are equal, and equal text elements render the same markdown |
| `Elements.TextToDict` | unstructured/documents/elements.py:118-125 | the base dictionary with `type` the category tag and `text` the current text, every other entry as in the base form |
| `Elements.TextEqualIffDictsAgree` | unstructured/documents/elements.py:109-125 | two text elements are equal if and only if their dictionaries agree on `text`, `coordinates` and `type`; id and metadata play no part |
| `Elements.TextToMarkdown` | unstructured/documents/elements.py:139-215 | an element's markdown by its class: for the six text-carrying classes the current text reads back from it; `Image` gives `""` and `PageBreak` two newlines |
| `Elements.ResolveSerialisedType` | unstructured/documents/elements.py:218-228 | the registry entry for a text element's serialised `type` is that element's own class |
| `Elements.TextElement.constructor` | unstructured/documents/elements.py:91-104 | stores category, text, coordinates and metadata as given, and the id chosen by `TextId` |
| `Elements.TextElement.PageBreak` | unstructured/documents/elements.py:205-212 | every argument is discarded: text `<PAGE BREAK>`, no coordinates, empty metadata, the id derived from `<PAGE BREAK>` |
| `Elements.TextElement.Apply` | unstructured/documents/elements.py:127-137 | the text becomes the left-to-right fold of the cleaners over the old text when that result is a string; otherwise it fails with `NonStringOutput` and the text is unchanged; id, coordinates and metadata never change |
| `Elements.IdSurvivesCleaning` | unstructured/documents/elements.py:100-137 | an element built without an id keeps the id of its initial text after any cleaning, while its text becomes the cleaned text |
| `Elements.EqualTextsEqualIds` | unstructured/documents/elements.py:100-104 | two elements built without ids from the same text get the same derived id, whatever their classes, coordinates and metadata |
| `Elements.PageBreaksAgree` | unstructured/documents/elements.py:205-215 | any two page breaks have equal state, hence equal ids, are equal, and render as two newlines |
| `Elements.Instantiate` | unstructured/documents/elements.py:218-228 | constructing through the registry fails exactly for unregistered tags and otherwise runs the registered class's constructor |

## Left out

- The SHA-256 computation and UTF-8 encoding: a foreign call (`hashlib`), taken as the parameter `sha256Hex`.
- Normalising a `pathlib.Path` filename to `str` (`__post_init__`): a Python runtime type check with no string-level behaviour.
- Coordinates are sequences of `real` compared by plain equality; IEEE floating-point behaviour (NaN, signed zero) is not modelled.
- `Element.to_markdown`: declared without `self`, it can only raise. `CheckBox` does not override it, so a checkbox's `to_markdown()` raises `TypeError`; checkbox markdown is that error path and is not modelled.
- Instances of the bare `Element` base class are not a variant of the model; only its dictionary form (`BaseToDict`) is, as the part every variant extends.
- Equality between a text element and a checkbox (an `AttributeError` in Python): the types of the model keep the two apart.
- The single shared default `ElementMetadata()` object (aliasing between elements): the model treats metadata as a value.
- The order of keys in dictionaries: dictionaries are Dafny maps.
- Metadata.FromDict: requires each known key's value to be `None` or of the field's declared type; Python accepts other types unchecked, which the typed record cannot hold.
- Cleaners are total, side-effect-free functions on values; a cleaner that raises, or that is not callable, is not modelled.
- `Text.__str__` (returns the text): a one-line accessor, the `text` field itself.
- Assignments to element attributes from outside the class: only `apply` mutates an element here.
