/** The per-source dispatch table: the two listing sources and, for each,
    the record classes, the AI classes, the search-URL table and the
    record column whose text is sent to the AI. Classes are named by tags;
    the table of each tag is its `TABLE_NAME`. */
module Services {
  import opened Wrappers
  import opened Records
  import PyJson

  datatype Service = Otodom | Olx
  {
    /** The enum member's value. */
    function Value(): (v: string)
      ensures v == "otodom" || v == "olx"
    {
      match this
      case Otodom => "otodom"
      case Olx => "olx"
    }
  }

  /** `Service(v)`: the member with value `v`; any other text is rejected. */
  function Parse(v: string): (r: Option<Service>)
    ensures r.Some? <==> v == "otodom" || v == "olx"
  {
    if v == "otodom" then Some(Otodom)
    else if v == "olx" then Some(Olx)
    else None
  }

  /** Values identify members: parsing a member's value gives the member
      back, and a parsed value is the member's own. */
  lemma ParseValue(s: Service, v: string)
    ensures Parse(s.Value()) == Some(s)
    ensures Parse(v) == Some(s) <==> v == s.Value()
  {
  }

  /** The record and AI classes the dispatch table names. */
  datatype ModelClass =
    | ListingItemOtodom
    | ListingItemOlx
    | ListingAdditionalInfoOtodom
    | ListingAdditionalInfoOlx
    | ListingAiInfoOtodom
    | ListingAiInfoOlx
    | ListingAiMetadataOtodom
    | ListingAiMetadataOlx

  /** The search-URL tables, one per source module. */
  datatype SearchDict = OtodomSearch | OlxSearch

  /** The table each persisted class writes to; the AI schema classes are
      not persisted. */
  function TableOf(c: ModelClass): Option<string> {
    match c
    case ListingItemOtodom => Some(ItemsTable)
    case ListingItemOlx => Some(OlxItemsTable)
    case ListingAdditionalInfoOtodom => Some(MetadataTable)
    case ListingAdditionalInfoOlx => Some(OlxMetadataTable)
    case ListingAiInfoOtodom => Some(AiTable)
    case ListingAiInfoOlx => Some(AiTable)
    case ListingAiMetadataOtodom => None
    case ListingAiMetadataOlx => None
  }

  /** Whether the source module of `s` defines the attribute the table
      reads. The OLX module defines its item and detail classes, but no
      `SEARCH_DICT`, `ListingAIInfoOLX` or `ListingAIMetadataOLX`. */
  predicate Defined(s: Service, attribute: string) {
    match s
    case Otodom => true
    case Olx => attribute in {"ListingItemOLX", "ListingAdditionalInfoOLX"}
  }

  function ItemModelClass(s: Service): (c: ModelClass)
    ensures s == Otodom ==> c == ListingItemOtodom
    ensures s == Olx ==> c == ListingItemOlx
  {
    match s
    case Otodom => ListingItemOtodom
    case Olx => ListingItemOlx
  }

  function MetadataModelClass(s: Service): (c: ModelClass)
    ensures s == Otodom ==> c == ListingAdditionalInfoOtodom
    ensures s == Olx ==> c == ListingAdditionalInfoOlx
  {
    match s
    case Otodom => ListingAdditionalInfoOtodom
    case Olx => ListingAdditionalInfoOlx
  }

  /** The record column whose text the AI pass reads. */
  function InfoForAi(s: Service): (column: string)
    ensures s == Otodom ==> column == "raw_info"
    ensures s == Olx ==> column == "description_long"
  {
    match s
    case Otodom => "raw_info"
    case Olx => "description_long"
  }

  // ---------------------------------------------------------------------
  // The three properties whose dictionaries name attributes the OLX
  // module lacks. Python builds the whole dictionary before looking the
  // member up, so the missing OLX entry raises for both members.

  /** `search_url_dict`, `listing_ai_metadata_model_class` and
      `listing_ai_metadata_schema_class` as written: building the
      dictionary reads an attribute of the OLX module that does not exist,
      so every lookup raises `AttributeError`. */
  function EagerLookup<T>(otodom: T, olxAttribute: string, olx: T, s: Service): (r: Result<T, PyJson.Error>)
    ensures r.Ok? <==> Defined(Olx, olxAttribute)
    ensures r.Ok? ==> r.value == (if s == Otodom then otodom else olx)
  {
    if !Defined(Olx, olxAttribute) then Err(PyJson.AttributeError)
    else Ok(if s == Otodom then otodom else olx)
  }

  function SearchUrlDictAsWritten(s: Service): Result<SearchDict, PyJson.Error> {
    EagerLookup(OtodomSearch, "SEARCH_DICT", OlxSearch, s)
  }

  function AiInfoClassAsWritten(s: Service): Result<ModelClass, PyJson.Error> {
    EagerLookup(ListingAiInfoOtodom, "ListingAIInfoOLX", ListingAiInfoOlx, s)
  }

  function AiSchemaClassAsWritten(s: Service): Result<ModelClass, PyJson.Error> {
    EagerLookup(ListingAiMetadataOtodom, "ListingAIMetadataOLX", ListingAiMetadataOlx, s)
  }

  /** The eager dictionaries fail for the Otodom member too, although
      every Otodom entry exists. */
  lemma EagerLookupFailsForOtodom()
    ensures SearchUrlDictAsWritten(Otodom) == Err(PyJson.AttributeError)
    ensures AiInfoClassAsWritten(Otodom) == Err(PyJson.AttributeError)
    ensures AiSchemaClassAsWritten(Otodom) == Err(PyJson.AttributeError)
  {
  }

  /** The intended lookup: only the member whose own entry is missing
      raises. */
  function Lookup<T>(otodom: T, olxAttribute: string, olx: T, s: Service): (r: Result<T, PyJson.Error>)
    ensures r.Ok? <==> Defined(s, olxAttribute)
    ensures r.Ok? ==> r.value == (if s == Otodom then otodom else olx)
  {
    match s
    case Otodom => Ok(otodom)
    case Olx => if Defined(Olx, olxAttribute) then Ok(olx) else Err(PyJson.AttributeError)
  }

  function SearchUrlDict(s: Service): Result<SearchDict, PyJson.Error> {
    Lookup(OtodomSearch, "SEARCH_DICT", OlxSearch, s)
  }

  /** The OLX module defines its AI classes under the base names
      `ListingAIInfo` and `ListingAIMetadata`; the intended table points
      there. */
  function AiInfoClass(s: Service): Result<ModelClass, PyJson.Error> {
    Lookup(ListingAiInfoOtodom, "ListingAIInfoOLX", ListingAiInfoOlx, s)
  }

  function AiSchemaClass(s: Service): Result<ModelClass, PyJson.Error> {
    Lookup(ListingAiMetadataOtodom, "ListingAIMetadataOLX", ListingAiMetadataOlx, s)
  }

  /** The corrected dictionaries answer for Otodom, with its own classes
      and search table; and whatever answers the eager form gives agree
      with the corrected one. */
  lemma LookupServesOtodom(s: Service)
    ensures SearchUrlDict(Otodom) == Ok(OtodomSearch)
    ensures AiInfoClass(Otodom) == Ok(ListingAiInfoOtodom)
    ensures AiSchemaClass(Otodom) == Ok(ListingAiMetadataOtodom)
    ensures SearchUrlDictAsWritten(s).Ok? ==> SearchUrlDictAsWritten(s) == SearchUrlDict(s)
  {
  }

  /** The dispatch table is total and keeps the sources apart: each
      property answers for both members, the two members never share an
      item or detail class, and every persisted class a member selects
      writes to that member's own table, the key column being the same. */
  lemma DispatchTotalAndSeparate()
    ensures ItemModelClass(Otodom) != ItemModelClass(Olx)
    ensures MetadataModelClass(Otodom) != MetadataModelClass(Olx)
    ensures InfoForAi(Otodom) != InfoForAi(Olx)
    ensures TableOf(ItemModelClass(Otodom)) == Some(ItemsTable)
    ensures TableOf(ItemModelClass(Olx)) == Some(OlxItemsTable)
    ensures TableOf(MetadataModelClass(Otodom)) == Some(MetadataTable)
    ensures TableOf(MetadataModelClass(Olx)) == Some(OlxMetadataTable)
  {
  }
}
