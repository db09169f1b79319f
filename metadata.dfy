/**
 * ElementMetadata: three optional provenance fields and their compacting
 * dictionary form.
 */
module Metadata {
  import opened Wrappers
  import opened Values

  datatype ElementMetadata = ElementMetadata(
    filename: Option<string>,
    pageNumber: Option<int>,
    url: Option<string>)

  /** `ElementMetadata()`: every field `None`. */
  const Empty := ElementMetadata(None, None, None)

  /** The names of the dataclass fields, as they appear as dictionary keys. */
  const FieldNames: set<string> := {"filename", "page_number", "url"}

  datatype MetadataError = UnexpectedKeyword

  function StrValue(o: Option<string>): Value {
    match o
    case None => Null
    case Some(s) => Str(s)
  }

  function IntValue(o: Option<int>): Value {
    match o
    case None => Null
    case Some(n) => Int(n)
  }

  /** The instance's `__dict__`: every field, `None` included. */
  function Fields(m: ElementMetadata): map<string, Value> {
    map["filename" := StrValue(m.filename), "page_number" := IntValue(m.pageNumber), "url" := StrValue(m.url)]
  }

  /** The entries of `d` whose value is not `None`. */
  function DropNulls(d: map<string, Value>): (r: map<string, Value>)
    ensures r.Keys <= d.Keys
    ensures forall k :: k in r ==> r[k] == d[k] && r[k] != Null
    ensures forall k :: k in d && d[k] != Null ==> k in r
  {
    map k | k in d && d[k] != Null :: d[k]
  }

  /** `to_dict`: the fields whose value is present, and only those. */
  function ToDict(m: ElementMetadata): (d: map<string, Value>)
    ensures d.Keys <= FieldNames
    ensures "filename" in d <==> m.filename.Some?
    ensures "page_number" in d <==> m.pageNumber.Some?
    ensures "url" in d <==> m.url.Some?
    ensures m.filename.Some? ==> d["filename"] == Str(m.filename.value)
    ensures m.pageNumber.Some? ==> d["page_number"] == Int(m.pageNumber.value)
    ensures m.url.Some? ==> d["url"] == Str(m.url.value)
  {
    DropNulls(Fields(m))
  }

  /**
   * The keyword types `from_dict` is called with: each known key, if present,
   * holds `None` or a value of the field's declared type.
   */
  predicate WellTyped(d: map<string, Value>) {
    && ("filename" in d ==> d["filename"].Null? || d["filename"].Str?)
    && ("page_number" in d ==> d["page_number"].Null? || d["page_number"].Int?)
    && ("url" in d ==> d["url"].Null? || d["url"].Str?)
  }

  function StrField(d: map<string, Value>, key: string): Option<string>
    requires key in d ==> d[key].Null? || d[key].Str?
  {
    if key in d && d[key].Str? then Some(d[key].s) else None
  }

  function IntField(d: map<string, Value>, key: string): Option<int>
    requires key in d ==> d[key].Null? || d[key].Int?
  {
    if key in d && d[key].Int? then Some(d[key].i) else None
  }

  /**
   * `from_dict`: the dictionary's entries become keyword arguments of the
   * constructor; a missing key leaves its field `None`, and a key that names
   * no field is rejected.
   */
  function FromDict(d: map<string, Value>): (r: Result<ElementMetadata, MetadataError>)
    requires WellTyped(d)
    ensures r.Err? <==> exists k :: k in d && k !in FieldNames
    ensures r.Ok? ==> (r.value.filename.Some? <==> "filename" in d && d["filename"] != Null)
    ensures r.Ok? ==> (r.value.pageNumber.Some? <==> "page_number" in d && d["page_number"] != Null)
    ensures r.Ok? ==> (r.value.url.Some? <==> "url" in d && d["url"] != Null)
    ensures r.Ok? && "filename" in d && d["filename"].Str? ==> r.value.filename == Some(d["filename"].s)
    ensures r.Ok? && "page_number" in d && d["page_number"].Int? ==> r.value.pageNumber == Some(d["page_number"].i)
    ensures r.Ok? && "url" in d && d["url"].Str? ==> r.value.url == Some(d["url"].s)
  {
    if !(d.Keys <= FieldNames) then
      Err(UnexpectedKeyword)
    else
      Ok(ElementMetadata(StrField(d, "filename"), IntField(d, "page_number"), StrField(d, "url")))
  }

  /** Round trip: rebuilding a record from its dictionary form gives the record back. */
  lemma FromDictToDict(m: ElementMetadata)
    ensures WellTyped(ToDict(m))
    ensures FromDict(ToDict(m)) == Ok(m)
  {
    var d := ToDict(m);
    assert d.Keys <= FieldNames;
  }

  /** The other direction: a dictionary of known keys comes back without its `None` entries. */
  lemma {:induction false} ToDictFromDict(d: map<string, Value>)
    requires WellTyped(d) && d.Keys <= FieldNames
    ensures FromDict(d).Ok? && ToDict(FromDict(d).value) == DropNulls(d)
  {
    var m := FromDict(d).value;
    var l, r := ToDict(m), DropNulls(d);
    forall k | k in l ensures k in r && l[k] == r[k] {
    }
    forall k | k in r ensures k in l {
      assert k in FieldNames;
    }
    assert l.Keys == r.Keys;
  }

  /** A record carrying only a page number serialises to a single key. */
  lemma PageNumberOnly(n: int)
    ensures ToDict(ElementMetadata(None, Some(n), None)) == map["page_number" := Int(n)]
  {
    var d := ToDict(ElementMetadata(None, Some(n), None));
    assert d.Keys == {"page_number"};
  }

  /** The default record serialises to the empty dictionary. */
  lemma EmptyToDict()
    ensures ToDict(Empty) == map[]
  {
    assert ToDict(Empty).Keys == {};
  }
}
