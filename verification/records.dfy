/** The normalised record model: one datatype per pydantic model of the
    pipeline (listing summary, listing detail, AI facts, gone marker) and
    the generic `Saveable` view of a record that the persistence contract
    works on: the record's table and its declared fields, each either set
    or `None`. */
module Records {
  import opened Wrappers

  /** A column value as it is bound into an SQL statement. Timestamps are
      opaque: `VTime` carries the text they were parsed from or stamped as. */
  datatype Value = VInt(i: int) | VNum(r: real) | VStr(s: string) | VBool(b: bool) | VTime(t: string)

  /** One declared field of a model and its value (`None` when unset). */
  datatype Field = Field(name: string, value: Option<Value>)

  /** A model instance as the store sees it. */
  datatype Saveable = Saveable(table: string, fields: seq<Field>)

  /** Every table is keyed by this column. */
  const KeyColumn: string := "listing_id"

  const ItemsTable: string := "listing_items"
  const OlxItemsTable: string := "listing_items_olx"
  const MetadataTable: string := "listing_metadata"
  const OlxMetadataTable: string := "listing_metadata_olx"
  const AiTable: string := "listing_ai_metadata"
  const GoneTable: string := "irrelevant_listings"

  function Names(fields: seq<Field>): (names: seq<string>)
    ensures |names| == |fields|
    ensures forall i | 0 <= i < |fields| :: names[i] == fields[i].name
  {
    seq(|fields|, i requires 0 <= i < |fields| => fields[i].name)
  }

  predicate Distinct(names: seq<string>) {
    forall i, j | 0 <= i < j < |names| :: names[i] != names[j]
  }

  /** What pydantic guarantees of every model: field names are distinct and
      the required key field `listing_id` is set. */
  predicate WellFormed(s: Saveable) {
    && Distinct(Names(s.fields))
    && exists i | 0 <= i < |s.fields| :: s.fields[i] == Field(KeyColumn, s.fields[i].value) && s.fields[i].value.Some?
  }

  /** The value of the key field. */
  function KeyOf(s: Saveable): (k: Value)
    requires WellFormed(s)
    ensures Field(KeyColumn, Some(k)) in s.fields
  {
    var i :| 0 <= i < |s.fields| && s.fields[i] == Field(KeyColumn, s.fields[i].value) && s.fields[i].value.Some?;
    s.fields[i].value.value
  }

  function OptNum(x: Option<real>): Option<Value> {
    match x
    case Some(r) => Some(VNum(r))
    case None => None
  }

  function OptInt(x: Option<int>): Option<Value> {
    match x
    case Some(i) => Some(VInt(i))
    case None => None
  }

  function OptStr(x: Option<string>): Option<Value> {
    match x
    case Some(s) => Some(VStr(s))
    case None => None
  }

  function OptBool(x: Option<bool>): Option<Value> {
    match x
    case Some(b) => Some(VBool(b))
    case None => None
  }

  function OptTime(x: Option<string>): Option<Value> {
    match x
    case Some(t) => Some(VTime(t))
    case None => None
  }

  /** A search-results summary (`ListingItem` and its per-source
      subclasses). `table` is the table of the concrete class. */
  datatype ListingItem = ListingItem(
    table: string,
    listingId: Value,
    title: string,
    slug: string,
    rentPrice: Option<real>,
    administrativePrice: Option<real>,
    areaM2: Option<real>,
    nRooms: Option<int>,
    street: Option<string>,
    streetNumber: Option<string>,
    district: Option<string>,
    districtSpecific: Option<string>,
    createdOn: Option<string>)
  {
    function ToSaveable(): (s: Saveable)
      ensures WellFormed(s) && KeyOf(s) == listingId && s.table == table
    {
      var s := Saveable(table, [
        Field("listing_id", Some(listingId)),
        Field("title", Some(VStr(title))),
        Field("slug", Some(VStr(slug))),
        Field("rent_price", OptNum(rentPrice)),
        Field("administrative_price", OptNum(administrativePrice)),
        Field("area_m2", OptNum(areaM2)),
        Field("n_rooms", OptInt(nRooms)),
        Field("street", OptStr(street)),
        Field("street_number", OptStr(streetNumber)),
        Field("district", OptStr(district)),
        Field("district_specific", OptStr(districtSpecific)),
        Field("created_on", OptTime(createdOn))]);
      assert s.fields[0] == Field(KeyColumn, s.fields[0].value);
      s
    }
  }

  /** The detail record of one listing (`ListingAdditionalInfo`). */
  datatype ListingAdditionalInfo = ListingAdditionalInfo(
    listingId: Value,
    floor: Option<int>,
    floorsTotal: Option<int>,
    deposit: Option<int>,
    hasAc: bool,
    hasLift: bool,
    windows: Option<string>,
    availableFrom: Option<string>,
    latitude: string,
    longitude: string,
    descriptionLong: string,
    rawInfo: string)
  {
    function ToSaveable(): (s: Saveable)
      ensures WellFormed(s) && KeyOf(s) == listingId && s.table == MetadataTable
    {
      var s := Saveable(MetadataTable, [
        Field("listing_id", Some(listingId)),
        Field("floor", OptInt(floor)),
        Field("floors_total", OptInt(floorsTotal)),
        Field("deposit", OptInt(deposit)),
        Field("has_ac", Some(VBool(hasAc))),
        Field("has_lift", Some(VBool(hasLift))),
        Field("windows", OptStr(windows)),
        Field("available_from", OptStr(availableFrom)),
        Field("latitude", Some(VStr(latitude))),
        Field("longitude", Some(VStr(longitude))),
        Field("description_long", Some(VStr(descriptionLong))),
        Field("raw_info", Some(VStr(rawInfo)))]);
      assert s.fields[0] == Field(KeyColumn, s.fields[0].value);
      s
    }
  }

  /** The structured facts the AI call returns (`ListingAIMetadata`). */
  datatype AIMetadata = AIMetadata(
    allowedWithPets: Option<bool>,
    availabilityDate: Option<string>,
    bedroomNumber: Option<int>,
    kitchenCombined: Option<bool>,
    occasionalLease: Option<bool>)

  /** The persisted AI facts of one listing (`ListingAIInfo`). */
  datatype AIInfo = AIInfo(
    listingId: Value,
    allowedWithPets: Option<bool>,
    availabilityDate: Option<string>,
    bedroomNumber: Option<int>,
    kitchenCombined: Option<bool>,
    occasionalLease: Option<bool>,
    updatedAt: Option<string>)
  {
    /** The AI-derived part of the record. */
    function Metadata(): AIMetadata {
      AIMetadata(allowedWithPets, availabilityDate, bedroomNumber, kitchenCombined, occasionalLease)
    }

    function ToSaveable(): (s: Saveable)
      ensures WellFormed(s) && KeyOf(s) == listingId && s.table == AiTable
    {
      var s := Saveable(AiTable, [
        Field("listing_id", Some(listingId)),
        Field("allowed_with_pets", OptBool(allowedWithPets)),
        Field("availability_date", OptStr(availabilityDate)),
        Field("bedroom_number", OptInt(bedroomNumber)),
        Field("kitchen_combined_with_living_room", OptBool(kitchenCombined)),
        Field("occasional_lease", OptBool(occasionalLease)),
        Field("updated_at", OptTime(updatedAt))]);
      assert s.fields[0] == Field(KeyColumn, s.fields[0].value);
      s
    }
  }

  /** The base class's `augment` hook: it changes nothing. */
  function Augment(info: AIInfo, city: string): AIInfo {
    info
  }

  /** `ListingAIInfo.from_ai_metadata`: every AI field is copied, the key
      is the given id, `updated_at` is stamped with `now` (so it is never
      null), and the `augment` hook leaves the result as it was. */
  function FromAiMetadata(m: AIMetadata, listingId: Value, city: string, now: string): (r: AIInfo)
    ensures r.Metadata() == m
    ensures r.listingId == listingId
    ensures r.updatedAt == Some(now)
    ensures Augment(r, city) == r
  {
    Augment(AIInfo(listingId, m.allowedWithPets, m.availabilityDate, m.bedroomNumber,
                   m.kitchenCombined, m.occasionalLease, Some(now)), city)
  }

  /** A listing that no longer exists (`ListingGone`). The base-class
      marker carries the source tag; the older marker of `models.py` has no
      such field, modelled as `service == None`. */
  datatype ListingGone = ListingGone(listingId: Value, service: Option<string>)
  {
    function ToSaveable(): (s: Saveable)
      ensures WellFormed(s) && KeyOf(s) == listingId && s.table == GoneTable
    {
      var s := Saveable(GoneTable, [
        Field("listing_id", Some(listingId)),
        Field("service", OptStr(service))]);
      assert s.fields[0] == Field(KeyColumn, s.fields[0].value);
      s
    }
  }

  /** What a detail parser returns: the detail record or a gone marker. */
  datatype Detail = Found(info: ListingAdditionalInfo) | Gone(marker: ListingGone)
  {
    function ToSaveable(): (s: Saveable)
      ensures WellFormed(s)
    {
      match this
      case Found(info) => info.ToSaveable()
      case Gone(marker) => marker.ToSaveable()
    }
  }
}
