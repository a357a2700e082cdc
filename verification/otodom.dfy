/** The Otodom adapter: the normalisers that turn an Otodom search-results
    payload into listing summaries and an Otodom ad payload into the
    listing's detail record or a gone marker. The payload is the parsed
    JSON of the page's last `<script>`; `json.loads` and the HTML search
    are outside the model. The room-count and district helpers, the field
    mapping of `from_otodom_data` and the detail parser are the same code
    in `helpers/models.py`, `listing.py`, `helpers/models_otodom.py` and
    `helpers/extractor.py`, and are defined once here. */
module Otodom {
  import opened Wrappers
  import opened Text
  import opened PyJson
  import opened Records
  import Services
  import Timestamp

  // ---------------------------------------------------------------------
  // get_rooms_number

  /** The room-count enum names the mapping knows, in order: the name at
      index `n - 1` stands for `n` rooms. */
  const RoomNames: seq<string> := ["ONE", "TWO", "THREE", "FOUR", "FIVE", "SIX"]

  /** `get_rooms_number`: `None` stays `None`, the six known names give
      1..6 and every other hashable value (`"SIX_OR_MORE"` included) gives
      `None`; a list or dict cannot be looked up in the dictionary. */
  function RoomsNumber(txt: Json): (r: Result<Option<int>, Error>)
    ensures r.Err? <==> txt.JArr? || txt.JObj?
    ensures r.Err? ==> r.error == TypeError
    ensures txt.JNull? ==> r == Ok(None)
    ensures r.Ok? && r.value.Some? ==> 1 <= r.value.value <= 6 && txt == JStr(RoomNames[r.value.value - 1])
  {
    match txt
    case JNull => Ok(None)
    case JStr(s) =>
      Ok(if s == "ONE" then Some(1)
         else if s == "TWO" then Some(2)
         else if s == "THREE" then Some(3)
         else if s == "FOUR" then Some(4)
         else if s == "FIVE" then Some(5)
         else if s == "SIX" then Some(6)
         else None)
    case JArr(_) => Err(TypeError)
    case JObj(_) => Err(TypeError)
    case _ => Ok(None)
  }

  /** Exactly the known names give a room count, each its own. */
  lemma RoomsNumberNames(txt: Json, n: int)
    ensures RoomsNumber(txt) == Ok(Some(n)) <==> 1 <= n <= 6 && txt == JStr(RoomNames[n - 1])
    ensures RoomsNumber(JStr("SIX_OR_MORE")) == Ok(None)
  {
  }

  // ---------------------------------------------------------------------
  // get_district_info

  /** `(j.get(key) or {})`. */
  function GetOrEmpty(j: Json, key: string): (r: Result<Json, Error>)
    ensures r.Ok? <==> j.JObj?
    ensures r.Ok? && key in j.fields && Truthy(j.fields[key]) ==> r.value == j.fields[key]
    ensures r.Ok? && (key !in j.fields || !Truthy(j.fields[key])) ==> r.value == EmptyObj
  {
    var v :- Get(j, key);
    Ok(Or(v, EmptyObj))
  }

  /** `((item.get("location") or {}).get("reverseGeocoding") or {}).get("locations") or []`. */
  function Locations(item: Json): (r: Result<Json, Error>)
    ensures r.Ok? ==> item.JObj?
  {
    var location :- GetOrEmpty(item, "location");
    var geocoding :- GetOrEmpty(location, "reverseGeocoding");
    var locations :- Get(geocoding, "locations");
    Ok(Or(locations, EmptyArr))
  }

  /** `entry.get("fullName", "").split(",")[0]`: the name up to its first
      comma, `""` when the entry has no name. */
  function FullNamePrefix(entry: Json): (r: Result<string, Error>)
    ensures r.Err? <==> !entry.JObj? || ("fullName" in entry.fields && !entry.fields["fullName"].JStr?)
    ensures entry.JObj? && "fullName" !in entry.fields ==> r == Ok("")
    ensures r.Ok? && entry.JObj? && "fullName" in entry.fields ==>
      && ',' !in r.value
      && |r.value| <= |entry.fields["fullName"].s|
      && entry.fields["fullName"].s[..|r.value|] == r.value
      && (|r.value| < |entry.fields["fullName"].s| ==> entry.fields["fullName"].s[|r.value|] == ',')
  {
    var name :- GetOr(entry, "fullName", JStr(""));
    match name
    case JStr(s) => Ok(BeforeFirst(s, ','))
    case _ => Err(AttributeError)
  }

  /** `get_district_info`: `(None, None)` when the locations list is
      missing or empty; otherwise the comma-prefixes of the last (finer)
      and the second-to-last entry, so a one-entry list fails at index
      -2. */
  function DistrictInfo(item: Json): (r: Result<(Option<string>, Option<string>), Error>)
    ensures r.Ok? ==> Locations(item).Ok?
    ensures Locations(item).Ok? && !Truthy(Locations(item).value) ==> r == Ok((None, None))
    ensures r.Ok? && Truthy(Locations(item).value) ==>
      var a := Locations(item).value;
      && a.JArr? && |a.items| >= 2
      && r.value.0.Some? && FullNamePrefix(a.items[|a.items| - 1]) == Ok(r.value.0.value)
      && r.value.1.Some? && FullNamePrefix(a.items[|a.items| - 2]) == Ok(r.value.1.value)
    ensures (Locations(item).Ok? && Locations(item).value.JArr? && |Locations(item).value.items| == 1 &&
             FullNamePrefix(Locations(item).value.items[0]).Ok?) ==> r == Err(IndexError)
  {
    var locations :- Locations(item);
    if !Truthy(locations) then Ok((None, None))
    else
      var last :- At(locations, -1);
      var fine :- FullNamePrefix(last);
      var second :- At(locations, -2);
      var coarse :- FullNamePrefix(second);
      Ok((Some(fine), Some(coarse)))
  }

  // ---------------------------------------------------------------------
  // from_otodom_data

  /** pydantic's reading of an optional timestamp. A truthy string has
      been parsed by `strptime` already and is kept as its text; the empty
      string is not a timestamp. */
  function OptTimeField(name: string, j: Json): (r: Result<Option<string>, Error>)
    ensures r.Ok? <==> j.JNull? || (j.JStr? && |j.s| > 0)
    ensures r.Ok? && j.JStr? ==> r.value == Some(j.s)
    ensures j.JNull? ==> r == Ok(None)
  {
    match j
    case JNull => Ok(None)
    case JStr(s) => if |s| > 0 then Ok(Some(s)) else Err(ValidationError(name))
    case _ => Err(ValidationError(name))
  }

  /** `created_on` before validation: `dateCreatedFirst`, run through
      `strptime(created_on, "%Y-%m-%d %H:%M:%S")` when truthy. That needs
      a string in the format naming a real moment; the text it parsed is
      what is kept. */
  function CreatedOnInput(item: Json): (r: Result<Json, Error>)
    ensures item.JObj? && "dateCreatedFirst" !in item.fields ==> r == Ok(JNull)
    ensures r.Ok? ==> item.JObj? && "dateCreatedFirst" in item.fields ==> r.value == item.fields["dateCreatedFirst"]
    ensures r.Ok? && Truthy(r.value) ==> r.value.JStr? && Timestamp.Strptime(r.value.s).Ok?
    ensures item.JObj? && "dateCreatedFirst" in item.fields && item.fields["dateCreatedFirst"].JStr? &&
            |item.fields["dateCreatedFirst"].s| > 0 && Timestamp.Strptime(item.fields["dateCreatedFirst"].s).Err? ==>
      r == Err(ValueError)
  {
    var created :- Get(item, "dateCreatedFirst");
    if !Truthy(created) then Ok(created)
    else if !created.JStr? then Err(TypeError)
    else
      var moment :- Timestamp.Strptime(created.s);
      Ok(created)
  }

  /** `(item.get(key) or {}).get("value")`: the amount of a price object,
      `None` when the object is missing or empty. */
  function AmountOf(item: Json, key: string): (r: Result<Json, Error>)
    ensures item.JObj? && (key !in item.fields || !Truthy(item.fields[key])) ==> r == Ok(JNull)
    ensures item.JObj? && key in item.fields && item.fields[key].JObj? && "value" in item.fields[key].fields ==>
      r == Ok(item.fields[key].fields["value"])
  {
    var price :- GetOrEmpty(item, key);
    Get(price, "value")
  }

  /** The values `from_otodom_data` passes to the model, before pydantic
      validates them. */
  datatype ItemInputs = ItemInputs(
    id: Json,
    title: Json,
    slug: Json,
    rentPrice: Json,
    administrativePrice: Json,
    areaM2: Json,
    nRooms: Option<int>,
    street: Json,
    streetNumber: Json,
    district: Option<string>,
    districtSpecific: Option<string>,
    createdOn: Json)

  /** `((item.get("location") or {}).get("address") or {}).get("street") or {}`. */
  function StreetInfo(fields: map<string, Json>): (r: Result<Json, Error>)
    ensures r.Ok? ==> Truthy(r.value) || r.value == EmptyObj
  {
    var location := Or(DictGet(fields, "location"), EmptyObj);
    var address :- GetOrEmpty(location, "address");
    var street :- Get(address, "street");
    Ok(Or(street, EmptyObj))
  }

  /** The Python half of `from_otodom_data`: every lookup it makes, in
      order. The id, title and slug are required keys; the total price is
      read as the rent and the rent as the administrative price. */
  function ReadItem(item: Json): (r: Result<ItemInputs, Error>)
    ensures r.Ok? ==> item.JObj? && "id" in item.fields && "title" in item.fields && "slug" in item.fields
    ensures r.Ok? ==>
      && r.value.id == item.fields["id"]
      && r.value.title == item.fields["title"]
      && r.value.slug == item.fields["slug"]
      && r.value.areaM2 == DictGet(item.fields, "areaInSquareMeters")
      && DistrictInfo(item) == Ok((r.value.district, r.value.districtSpecific))
      && AmountOf(item, "totalPrice") == Ok(r.value.rentPrice)
      && AmountOf(item, "rentPrice") == Ok(r.value.administrativePrice)
      && RoomsNumber(Get(item, "roomsNumber").value) == Ok(r.value.nRooms)
      && CreatedOnInput(item) == Ok(r.value.createdOn)
    ensures r.Ok? && Truthy(r.value.createdOn) ==>
      r.value.createdOn.JStr? && Timestamp.Strptime(r.value.createdOn.s).Ok?
    ensures item.JObj? && "dateCreatedFirst" in item.fields && item.fields["dateCreatedFirst"].JStr? &&
            |item.fields["dateCreatedFirst"].s| > 0 && Timestamp.Strptime(item.fields["dateCreatedFirst"].s).Err? ==>
      r.Err?
  {
    var fields :- AsDict(item);
    var street :- StreetInfo(fields);
    var district :- DistrictInfo(item);
    var created :- CreatedOnInput(item);
    var id :- Subscript(item, "id");
    var title :- Subscript(item, "title");
    var slug :- Subscript(item, "slug");
    var rent :- AmountOf(item, "totalPrice");
    var admin :- AmountOf(item, "rentPrice");
    var area := DictGet(fields, "areaInSquareMeters");
    var rooms :- RoomsNumber(DictGet(fields, "roomsNumber"));
    var streetFields :- AsDict(street);
    Ok(ItemInputs(id, title, slug, rent, admin, area, rooms, DictGet(streetFields, "name"),
                  DictGet(streetFields, "number"), district.0, district.1, created))
  }

  /** The pydantic half: each input validated against its field's type,
      in field declaration order. */
  function ValidateItem(x: ItemInputs): (r: Result<ListingItem, Error>)
    ensures r.Ok? ==> r.value.table == ItemsTable
    ensures r.Ok? ==>
      && KeyField(IntKey, "listing_id", x.id) == Ok(r.value.listingId)
      && x.title == JStr(r.value.title) && x.slug == JStr(r.value.slug)
      && OptFloatField("rent_price", x.rentPrice) == Ok(r.value.rentPrice)
      && OptFloatField("administrative_price", x.administrativePrice) == Ok(r.value.administrativePrice)
      && OptFloatField("area_m2", x.areaM2) == Ok(r.value.areaM2)
      && OptStrField("street", x.street) == Ok(r.value.street)
      && OptStrField("street_number", x.streetNumber) == Ok(r.value.streetNumber)
      && OptTimeField("created_on", x.createdOn) == Ok(r.value.createdOn)
      && r.value.nRooms == x.nRooms
      && r.value.district == x.district && r.value.districtSpecific == x.districtSpecific
    ensures r.Err? ==> r.error.ValidationError?
  {
    var listingId :- KeyField(IntKey, "listing_id", x.id);
    var title :- StrField("title", x.title);
    var slug :- StrField("slug", x.slug);
    var rentPrice :- OptFloatField("rent_price", x.rentPrice);
    var adminPrice :- OptFloatField("administrative_price", x.administrativePrice);
    var areaM2 :- OptFloatField("area_m2", x.areaM2);
    var street :- OptStrField("street", x.street);
    var streetNumber :- OptStrField("street_number", x.streetNumber);
    var createdOn :- OptTimeField("created_on", x.createdOn);
    Ok(ListingItem(ItemsTable, listingId, title, slug, rentPrice, adminPrice, areaM2, x.nRooms,
                   street, streetNumber, x.district, x.districtSpecific, createdOn))
  }

  /** `ListingItem.from_otodom_data` (and the identical
      `ListingItemOtodom.from_otodom_data`): the summary of one search item.
      The finer location is the district and the coarser one the specific
      district. The id, title and slug are required; the rent is the
      `totalPrice` amount and the administrative price the `rentPrice`
      amount; a failure of the lookups propagates and a failure after them
      is a validation error. */
  function FromOtodomData(item: Json): (r: Result<ListingItem, Error>)
    ensures r.Ok? ==> ReadItem(item).Ok? && ValidateItem(ReadItem(item).value) == r
    ensures ReadItem(item).Err? ==> r == Err(ReadItem(item).error)
    ensures r.Ok? ==>
      && item.JObj? && "id" in item.fields && "title" in item.fields && "slug" in item.fields
      && r.value.table == ItemsTable
      && KeyField(IntKey, "listing_id", item.fields["id"]) == Ok(r.value.listingId)
      && item.fields["title"] == JStr(r.value.title)
      && item.fields["slug"] == JStr(r.value.slug)
      && AmountOf(item, "totalPrice").Ok?
      && OptFloatField("rent_price", AmountOf(item, "totalPrice").value) == Ok(r.value.rentPrice)
      && AmountOf(item, "rentPrice").Ok?
      && OptFloatField("administrative_price", AmountOf(item, "rentPrice").value) == Ok(r.value.administrativePrice)
      && OptFloatField("area_m2", DictGet(item.fields, "areaInSquareMeters")) == Ok(r.value.areaM2)
      && RoomsNumber(Get(item, "roomsNumber").value) == Ok(r.value.nRooms)
      && DistrictInfo(item) == Ok((r.value.district, r.value.districtSpecific))
      && CreatedOnInput(item).Ok?
      && OptTimeField("created_on", CreatedOnInput(item).value) == Ok(r.value.createdOn)
      && (r.value.createdOn.Some? ==> Timestamp.Strptime(r.value.createdOn.value).Ok?)
    ensures item.JObj? && "dateCreatedFirst" in item.fields && item.fields["dateCreatedFirst"].JStr? &&
            |item.fields["dateCreatedFirst"].s| > 0 && Timestamp.Strptime(item.fields["dateCreatedFirst"].s).Err? ==>
      r.Err?
    ensures r.Err? && ReadItem(item).Ok? ==> r.error.ValidationError?
  {
    var inputs :- ReadItem(item);
    ValidateItem(inputs)
  }

  // ---------------------------------------------------------------------
  // The payload a summary comes from

  /** The summaries a search item can carry: an id of either kind, a
      known room count, districts that either both exist, without commas,
      or both do not, and a creation date `strptime` reads. */
  predicate Encodable(li: ListingItem) {
    && li.table == ItemsTable
    && li.listingId.VInt?
    && (li.nRooms.Some? ==> 1 <= li.nRooms.value <= 6)
    && (li.district.Some? <==> li.districtSpecific.Some?)
    && (li.district.Some? ==> ',' !in li.district.value && ',' !in li.districtSpecific.value)
    && (li.createdOn.Some? ==> Timestamp.Strptime(li.createdOn.value).Ok?)
  }

  function OptStrJson(x: Option<string>): Json {
    match x
    case Some(s) => JStr(s)
    case None => JNull
  }

  function OptRealJson(x: Option<real>): Json {
    match x
    case Some(r) => JFloat(r)
    case None => JNull
  }

  function PriceJson(x: Option<real>): Json {
    match x
    case Some(r) => JObj(map["value" := JFloat(r)])
    case None => JNull
  }

  function KeyJson(v: Value): Json {
    match v
    case VInt(i) => JInt(i)
    case _ => JNull
  }

  function LocationsJson(district: Option<string>, specific: Option<string>): Json {
    if district.Some? && specific.Some? then
      JArr([JObj(map["fullName" := JStr(specific.value)]), JObj(map["fullName" := JStr(district.value)])])
    else EmptyArr
  }

  /** A search item as Otodom sends it, carrying the fields of `li`. */
  function OtodomItem(li: ListingItem): Json {
    var street := JObj(map["name" := OptStrJson(li.street), "number" := OptStrJson(li.streetNumber)]);
    var geocoding := JObj(map["locations" := LocationsJson(li.district, li.districtSpecific)]);
    JObj(map[
      "id" := KeyJson(li.listingId),
      "title" := JStr(li.title),
      "slug" := JStr(li.slug),
      "totalPrice" := PriceJson(li.rentPrice),
      "rentPrice" := PriceJson(li.administrativePrice),
      "areaInSquareMeters" := OptRealJson(li.areaM2),
      "roomsNumber" := (if li.nRooms.Some? && 1 <= li.nRooms.value <= 6 then JStr(RoomNames[li.nRooms.value - 1]) else JNull),
      "location" := JObj(map["address" := JObj(map["street" := street]), "reverseGeocoding" := geocoding]),
      "dateCreatedFirst" := OptStrJson(li.createdOn)])
  }

  /** A comma-free name is its own comma-prefix. */
  lemma BeforeFirstCommaFree(s: string)
    requires ',' !in s
    ensures BeforeFirst(s, ',') == s
  {
    var r := BeforeFirst(s, ',');
  }

  lemma LocationsOfOtodomItem(li: ListingItem)
    ensures Locations(OtodomItem(li)) == Ok(LocationsJson(li.district, li.districtSpecific))
  {
    var location := OtodomItem(li).fields["location"];
    assert Truthy(location) by { assert "address" in location.fields; }
    var geocoding := location.fields["reverseGeocoding"];
    assert Truthy(geocoding) by { assert "locations" in geocoding.fields; }
  }

  /** A two-entry locations list gives the names of its second and first
      entry, in that order. */
  lemma DistrictOfTwoEntries(item: Json, coarseEntry: Json, fineEntry: Json, fine: string, coarse: string)
    requires Locations(item) == Ok(JArr([coarseEntry, fineEntry]))
    requires FullNamePrefix(fineEntry) == Ok(fine) && FullNamePrefix(coarseEntry) == Ok(coarse)
    ensures DistrictInfo(item) == Ok((Some(fine), Some(coarse)))
  {
    var locations := JArr([coarseEntry, fineEntry]);
    assert At(locations, -1) == Ok(fineEntry);
    assert At(locations, -2) == Ok(coarseEntry);
  }

  lemma DistrictsRoundTrip(li: ListingItem)
    requires Encodable(li)
    ensures DistrictInfo(OtodomItem(li)) == Ok((li.district, li.districtSpecific))
  {
    LocationsOfOtodomItem(li);
    if li.district.Some? {
      var fineEntry := JObj(map["fullName" := JStr(li.district.value)]);
      var coarseEntry := JObj(map["fullName" := JStr(li.districtSpecific.value)]);
      BeforeFirstCommaFree(li.district.value);
      BeforeFirstCommaFree(li.districtSpecific.value);
      assert FullNamePrefix(fineEntry) == Ok(li.district.value);
      assert FullNamePrefix(coarseEntry) == Ok(li.districtSpecific.value);
      DistrictOfTwoEntries(OtodomItem(li), coarseEntry, fineEntry, li.district.value, li.districtSpecific.value);
    }
  }

  /** The inputs `from_otodom_data` reads from the item carrying `li`. */
  function InputsOf(li: ListingItem): ItemInputs {
    ItemInputs(KeyJson(li.listingId), JStr(li.title), JStr(li.slug), OptRealJson(li.rentPrice),
               OptRealJson(li.administrativePrice), OptRealJson(li.areaM2), li.nRooms,
               OptStrJson(li.street), OptStrJson(li.streetNumber), li.district, li.districtSpecific,
               OptStrJson(li.createdOn))
  }

  lemma StreetInfoOfOtodomItem(li: ListingItem)
    ensures StreetInfo(OtodomItem(li).fields) ==
      Ok(JObj(map["name" := OptStrJson(li.street), "number" := OptStrJson(li.streetNumber)]))
  {
    var fields := OtodomItem(li).fields;
    var location := fields["location"];
    assert Truthy(location) by { assert "address" in location.fields; }
    var address := location.fields["address"];
    assert Truthy(address) by { assert "street" in address.fields; }
    var street := address.fields["street"];
    assert Truthy(street) by { assert "name" in street.fields; }
  }

  lemma RoomsOfOtodomItem(li: ListingItem)
    requires li.nRooms.Some? ==> 1 <= li.nRooms.value <= 6
    ensures RoomsNumber(DictGet(OtodomItem(li).fields, "roomsNumber")) == Ok(li.nRooms)
  {
    var fields := OtodomItem(li).fields;
    assert DictGet(fields, "roomsNumber") == fields["roomsNumber"];
    if li.nRooms.Some? {
      RoomsNumberNames(fields["roomsNumber"], li.nRooms.value);
    }
  }

  lemma CreatedOnOfOtodomItem(li: ListingItem)
    requires li.createdOn.Some? ==> Timestamp.Strptime(li.createdOn.value).Ok?
    ensures CreatedOnInput(OtodomItem(li)) == Ok(OptStrJson(li.createdOn))
  {
    assert "dateCreatedFirst" in OtodomItem(li).fields;
  }

  lemma ScalarsOfOtodomItem(li: ListingItem)
    requires Encodable(li)
    ensures RoomsNumber(DictGet(OtodomItem(li).fields, "roomsNumber")) == Ok(li.nRooms)
    ensures CreatedOnInput(OtodomItem(li)) == Ok(OptStrJson(li.createdOn))
    ensures DictGet(OtodomItem(li).fields, "areaInSquareMeters") == OptRealJson(li.areaM2)
  {
    RoomsOfOtodomItem(li);
    CreatedOnOfOtodomItem(li);
    assert "areaInSquareMeters" in OtodomItem(li).fields;
  }

  lemma AmountsOfOtodomItem(li: ListingItem)
    requires Encodable(li)
    ensures AmountOf(OtodomItem(li), "totalPrice") == Ok(OptRealJson(li.rentPrice))
    ensures AmountOf(OtodomItem(li), "rentPrice") == Ok(OptRealJson(li.administrativePrice))
  {
  }

  lemma KeysOfOtodomItem(li: ListingItem)
    ensures Subscript(OtodomItem(li), "id") == Ok(KeyJson(li.listingId))
    ensures Subscript(OtodomItem(li), "title") == Ok(JStr(li.title))
    ensures Subscript(OtodomItem(li), "slug") == Ok(JStr(li.slug))
  {
  }

  /** `ReadItem` assembled from the results of its lookups. */
  lemma ReadItemOfParts(item: Json, street: map<string, Json>, district: (Option<string>, Option<string>),
                        created: Json, id: Json, title: Json, slug: Json, rent: Json, admin: Json,
                        rooms: Option<int>)
    requires item.JObj?
    requires StreetInfo(item.fields) == Ok(JObj(street))
    requires DistrictInfo(item) == Ok(district)
    requires CreatedOnInput(item) == Ok(created)
    requires Subscript(item, "id") == Ok(id)
    requires Subscript(item, "title") == Ok(title)
    requires Subscript(item, "slug") == Ok(slug)
    requires AmountOf(item, "totalPrice") == Ok(rent)
    requires AmountOf(item, "rentPrice") == Ok(admin)
    requires RoomsNumber(DictGet(item.fields, "roomsNumber")) == Ok(rooms)
    ensures ReadItem(item) == Ok(ItemInputs(id, title, slug, rent, admin, DictGet(item.fields, "areaInSquareMeters"),
                                            rooms, DictGet(street, "name"), DictGet(street, "number"),
                                            district.0, district.1, created))
  {
  }

  lemma {:induction false} ReadItemOfOtodomItem(li: ListingItem)
    requires Encodable(li)
    ensures ReadItem(OtodomItem(li)) == Ok(InputsOf(li))
  {
    var item := OtodomItem(li);
    var street := map["name" := OptStrJson(li.street), "number" := OptStrJson(li.streetNumber)];
    DistrictsRoundTrip(li);
    StreetInfoOfOtodomItem(li);
    ScalarsOfOtodomItem(li);
    AmountsOfOtodomItem(li);
    KeysOfOtodomItem(li);
    ReadItemOfParts(item, street, (li.district, li.districtSpecific), OptStrJson(li.createdOn),
                    KeyJson(li.listingId), JStr(li.title), JStr(li.slug), OptRealJson(li.rentPrice),
                    OptRealJson(li.administrativePrice), li.nRooms);
    assert DictGet(street, "name") == OptStrJson(li.street);
    assert DictGet(street, "number") == OptStrJson(li.streetNumber);
  }

  /** The validation of a summary's inputs needs of it only an integer
      key, the items table and a non-empty creation date. */
  lemma ValidateInputsOfParts(li: ListingItem)
    requires li.table == ItemsTable && li.listingId.VInt?
    requires li.createdOn.Some? ==> |li.createdOn.value| > 0
    ensures ValidateItem(InputsOf(li)) == Ok(li)
  {
  }

  lemma {:induction false} ValidateInputsOf(li: ListingItem)
    requires Encodable(li)
    ensures ValidateItem(InputsOf(li)) == Ok(li)
  {
    ValidateInputsOfParts(li);
  }

  /** `from_otodom_data` reads back every field of a summary from the item
      that carries it: the field mapping loses nothing. */
  lemma {:induction false} FromOtodomDataRoundTrip(li: ListingItem)
    requires Encodable(li)
    ensures FromOtodomData(OtodomItem(li)) == Ok(li)
  {
    ReadItemOfOtodomItem(li);
    ValidateInputsOf(li);
  }

  // ---------------------------------------------------------------------
  // Search pages: get_listings and from_text

  /** `get_listings`: `body["props"]["pageProps"]["data"]["searchAds"]["items"]`. */
  function GetListings(body: Json): Result<Json, Error> {
    var props :- Subscript(body, "props");
    var pageProps :- Subscript(props, "pageProps");
    var data :- Subscript(pageProps, "data");
    var searchAds :- Subscript(data, "searchAds");
    Subscript(searchAds, "items")
  }

  /** A search page carrying `items` where `get_listings` looks. */
  function SearchPage(items: Json): Json {
    JObj(map["props" := JObj(map["pageProps" := JObj(map["data" := JObj(map["searchAds" := JObj(map["items" := items])])])])])
  }

  /** `get_listings` finds what the page carries, and a page it reads is
      one that carries the items on that path. */
  lemma GetListingsOfSearchPage(items: Json, body: Json)
    ensures GetListings(SearchPage(items)) == Ok(items)
    ensures GetListings(body).Ok? ==>
      && body.JObj? && "props" in body.fields
      && Subscript(Subscript(Subscript(Subscript(body.fields["props"], "pageProps").value, "data").value, "searchAds").value, "items")
         == GetListings(body)
  {
  }

  /** `listings[:-1]`: every item but the last, in order. */
  function AllButLast<T>(items: seq<T>): (r: seq<T>)
    ensures |r| == if |items| == 0 then 0 else |items| - 1
    ensures forall i | 0 <= i < |r| :: r[i] == items[i]
  {
    if |items| == 0 then [] else items[..|items| - 1]
  }

  /** `listings[:-1]` on a payload value: a list or a string loses its
      last element; slicing a dict or a scalar raises `TypeError`. */
  function SliceAllButLast(j: Json): (r: Result<Json, Error>)
    ensures r.Ok? <==> j.JArr? || j.JStr?
    ensures j.JArr? ==> r == Ok(JArr(AllButLast(j.items)))
    ensures j.JStr? ==> r == Ok(JStr(AllButLast(j.s)))
    ensures r.Err? ==> r.error == TypeError
  {
    match j
    case JArr(a) => Ok(JArr(AllButLast(a)))
    case JStr(t) => Ok(JStr(AllButLast(t)))
    case _ => Err(TypeError)
  }

  /** `ListingItemOtodom.from_text` as written: the loop calls
      `from_otodom_data` on the base class, which has no such attribute,
      so any page that keeps at least one item raises. */
  function FromTextAsWritten(body: Json): (r: Result<seq<ListingItem>, Error>)
    ensures r.Ok? ==> r.value == []
  {
    var listings :- GetListings(body);
    var kept :- SliceAllButLast(listings);
    var items := Items(kept).value;
    if |items| == 0 then Ok([]) else Err(AttributeError)
  }

  /** `ListingItemOtodom.from_text` as intended: the summaries of every
      search item but the last, in order; the first item that cannot be
      read aborts the page. A string where the list belongs is sliced and
      iterated too: one of at most one character yields nothing, and a
      longer one fails on its first character. */
  function FromText(body: Json): (r: Result<seq<ListingItem>, Error>)
    ensures r.Ok? ==> GetListings(body).Ok? && (GetListings(body).value.JArr? || GetListings(body).value.JStr?)
    ensures r.Ok? && GetListings(body).value.JArr? ==>
      var items := GetListings(body).value.items;
      && |r.value| == (if |items| == 0 then 0 else |items| - 1)
      && forall i | 0 <= i < |r.value| :: FromOtodomData(items[i]) == Ok(r.value[i])
    ensures GetListings(body).Ok? && GetListings(body).value.JArr? ==>
      var items := GetListings(body).value.items;
      (r.Ok? <==> forall i | 0 <= i < |items| - 1 :: FromOtodomData(items[i]).Ok?)
    ensures GetListings(body).Ok? && GetListings(body).value.JStr? ==>
      (r.Ok? <==> |GetListings(body).value.s| <= 1) && (r.Ok? ==> r.value == [])
  {
    var listings :- GetListings(body);
    var kept :- SliceAllButLast(listings);
    var items := Items(kept).value;
    MapAll(FromOtodomData, items)
  }

  /** The as-written loop loses every page of two or more items, even one
      whose items all read: two copies of any item give one summary when
      the intended class method is called, and `AttributeError` as
      written. */
  lemma FromTextAsWrittenLosesPages(li: ListingItem)
    requires Encodable(li)
    ensures FromText(SearchPage(JArr([OtodomItem(li), OtodomItem(li)]))) == Ok([li])
    ensures FromTextAsWritten(SearchPage(JArr([OtodomItem(li), OtodomItem(li)]))) == Err(AttributeError)
  {
    var x := OtodomItem(li);
    FromOtodomDataRoundTrip(li);
    var body := SearchPage(JArr([x, x]));
    GetListingsOfSearchPage(JArr([x, x]), body);
    assert AllButLast([x, x]) == [x];
    assert Items(JArr(AllButLast([x, x]))) == Ok([x]);
    MapAllSingle(FromOtodomData, x);
    assert FromText(body) == MapAll(FromOtodomData, [x]);
  }

  // ---------------------------------------------------------------------
  // The detail parser

  /** The `page` an Otodom ad URL reports when the ad is gone and the site
      answers with its search results. */
  const SearchPageMarker: string := "/pl/wyniki/[[...searchingCriteria]]"

  /** `info.get("page") == marker`. */
  function IsSearchPage(info: Json): (r: Result<bool, Error>)
    ensures r.Ok? <==> info.JObj?
    ensures r.Ok? ==> (r.value <==> "page" in info.fields && info.fields["page"] == JStr(SearchPageMarker))
  {
    var page :- Get(info, "page");
    Ok(page == JStr(SearchPageMarker))
  }

  /** Floor decoding of `target["Floor_no"]`: a missing or empty value
      gives `None`; otherwise its first entry decides: `"ground_floor"` is
      0, `"cellar"` is -1, and any other label is the integer after its
      last `_`. */
  function DecodeFloor(floorNo: Json): (r: Result<Option<int>, Error>)
    ensures !Truthy(floorNo) <==> r == Ok(None)
    ensures floorNo.JArr? && |floorNo.items| > 0 && floorNo.items[0] == JStr("ground_floor") ==> r == Ok(Some(0))
    ensures floorNo.JArr? && |floorNo.items| > 0 && floorNo.items[0] == JStr("cellar") ==> r == Ok(Some(-1))
  {
    if !Truthy(floorNo) then Ok(None)
    else
      var first :- At(floorNo, 0);
      if first == JStr("ground_floor") then Ok(Some(0))
      else if first == JStr("cellar") then Ok(Some(-1))
      else
        match first
        case JStr(s) =>
          (match ParseInt(AfterLast(s, '_'))
           case Some(n) => Ok(Some(n))
           case None => Err(ValueError))
        case _ => Err(AttributeError)
  }

  /** A label ending in `_` and a decimal number is neither special label,
      and the text after its last `_` parses to that number. */
  lemma NumberedLabel(prefix: string, n: int)
    requires |prefix| >= 1 && prefix[|prefix| - 1] == '_'
    ensures prefix + IntText(n) != "ground_floor" && prefix + IntText(n) != "cellar"
    ensures ParseInt(AfterLast(prefix + IntText(n), '_')) == Some(n)
  {
    var t := IntText(n);
    assert '_' !in t;
    AfterLastOfSuffix(prefix, t, '_');
    ParseIntText(n);
    var s := prefix + t;
    assert IsDigit(s[|s| - 1]);
    assert s != "ground_floor" by { assert "ground_floor"[11] == 'r'; }
    assert s != "cellar" by { assert "cellar"[5] == 'r'; }
  }

  /** Any label that ends in `_` and a decimal number gives that number. */
  lemma DecodeFloorNumbered(prefix: string, n: int, rest: seq<Json>)
    requires |prefix| >= 1 && prefix[|prefix| - 1] == '_'
    ensures DecodeFloor(JArr([JStr(prefix + IntText(n))] + rest)) == Ok(Some(n))
  {
    var s := prefix + IntText(n);
    NumberedLabel(prefix, n);
    var floorNo := JArr([JStr(s)] + rest);
    assert At(floorNo, 0) == Ok(JStr(s));
  }

  /** The `Floor_no` value Otodom sends for a floor. */
  function EncodeFloor(floor: Option<int>): Json {
    match floor
    case None => JNull
    case Some(n) =>
      if n == 0 then JArr([JStr("ground_floor")])
      else if n == -1 then JArr([JStr("cellar")])
      else JArr([JStr("floor_" + IntText(n))])
  }

  /** Decoding undoes encoding for every floor, the cellar and the ground
      floor included. */
  lemma DecodeEncodeFloor(floor: Option<int>)
    ensures DecodeFloor(EncodeFloor(floor)) == Ok(floor)
  {
    if floor.Some? && floor.value != 0 && floor.value != -1 {
      DecodeFloorNumbered("floor_", floor.value, []);
      assert [JStr("floor_" + IntText(floor.value))] + [] == [JStr("floor_" + IntText(floor.value))];
    }
  }

  /** `name in (target.get("Extras_types") or [])`. */
  function HasExtra(tg: Json, name: string): (r: Result<bool, Error>)
    ensures tg.JObj? && ("Extras_types" !in tg.fields || !Truthy(tg.fields["Extras_types"])) ==> r == Ok(false)
    ensures tg.JObj? && "Extras_types" in tg.fields && tg.fields["Extras_types"].JArr? ==>
      r == Ok(JStr(name) in tg.fields["Extras_types"].items)
  {
    var extras :- Get(tg, "Extras_types");
    Contains(Or(extras, EmptyArr), name)
  }

  /** The two amenity flags: air conditioning and a lift. */
  function ExtraFlags(tg: Json): (r: Result<(bool, bool), Error>)
    ensures r.Ok? <==> HasExtra(tg, "air_conditioning").Ok?
    ensures r.Ok? ==> HasExtra(tg, "air_conditioning") == Ok(r.value.0) && HasExtra(tg, "lift") == Ok(r.value.1)
  {
    match HasExtra(tg, "air_conditioning")
    case Err(e) => Err(e)
    case Ok(ac) =>
      match HasExtra(tg, "lift")
      case Ok(lift) => Ok((ac, lift))
      case Err(e) => Err(e)
  }

  /** The window type before validation: the first entry of
      `Windows_type`, `None` when it is missing or empty. */
  function WindowsInput(tg: Json): (r: Result<Json, Error>)
    ensures tg.JObj? && ("Windows_type" !in tg.fields || !Truthy(tg.fields["Windows_type"])) ==> r == Ok(JNull)
    ensures (tg.JObj? && "Windows_type" in tg.fields && tg.fields["Windows_type"].JArr? &&
             |tg.fields["Windows_type"].items| > 0) ==> r == Ok(tg.fields["Windows_type"].items[0])
  {
    var info :- Get(tg, "Windows_type");
    var windowInfo := Or(info, EmptyArr);
    if Truthy(windowInfo) then At(windowInfo, 0) else Ok(JNull)
  }

  predicate IsFreeFrom(x: Json) {
    x.JObj? && "label" in x.fields && x.fields["label"] == JStr("free_from")
  }

  /** The first `topInformation` entry labelled `free_from`. The label of
      every entry is read, so an entry that is not a dict raises. */
  function FirstFreeFrom(entries: seq<Json>): (r: Result<Option<Json>, Error>)
    ensures r.Ok? <==> forall i | 0 <= i < |entries| :: entries[i].JObj?
    ensures r.Err? ==> r.error == AttributeError
    ensures r.Ok? && r.value.None? ==> forall i | 0 <= i < |entries| :: !IsFreeFrom(entries[i])
    ensures r.Ok? && r.value.Some? ==> exists k | 0 <= k < |entries| ::
      entries[k] == r.value.value && IsFreeFrom(entries[k]) && forall j | 0 <= j < k :: !IsFreeFrom(entries[j])
  {
    if |entries| == 0 then Ok(None)
    else
      var entryLabel :- Get(entries[0], "label");
      var rest :- FirstFreeFrom(entries[1..]);
      assert forall j | 1 <= j < |entries| :: entries[j] == entries[1..][j - 1];
      Ok(if entryLabel == JStr("free_from") then Some(entries[0]) else rest)
  }

  /** The availability date before validation: the first of the `values`
      of the first `free_from` entry; `None` when there is no such entry,
      or its values are missing or empty. A string where the entries
      belong has characters for entries, whose labels cannot be read. */
  function AvailableFromInput(ad: Json): (r: Result<Json, Error>)
    ensures ad.JObj? && "topInformation" in ad.fields && ad.fields["topInformation"].JArr? ==>
      var entries := ad.fields["topInformation"].items;
      && (FirstFreeFrom(entries) == Ok(None) ==> r == Ok(JNull))
      && (FirstFreeFrom(entries).Ok? && FirstFreeFrom(entries).value.Some? ==>
            var e := FirstFreeFrom(entries).value.value;
            && ("values" !in e.fields ==> r == Ok(JNull))
            && ("values" in e.fields && e.fields["values"].JArr? ==>
                  r == Ok(if |e.fields["values"].items| == 0 then JNull else e.fields["values"].items[0])))
    ensures ad.JObj? && "topInformation" !in ad.fields ==> r == Ok(JNull)
    ensures ad.JObj? && "topInformation" in ad.fields && ad.fields["topInformation"].JStr? ==>
      if |ad.fields["topInformation"].s| == 0 then r == Ok(JNull) else r == Err(AttributeError)
  {
    var top :- GetOr(ad, "topInformation", EmptyArr);
    var entries :- Items(top);
    var entry :- FirstFreeFrom(entries);
    match entry
    case None => Ok(JNull)
    case Some(e) =>
      var values := if e.JObj? && "values" in e.fields then e.fields["values"] else JArr([JNull]);
      if Truthy(values) then At(values, 0) else Ok(JNull)
  }

  /** `info["props"]["pageProps"]["ad"]`. */
  function AdOf(info: Json): (r: Result<Json, Error>)
    ensures r.Ok? ==> info.JObj?
  {
    var props :- Subscript(info, "props");
    var pageProps :- Subscript(props, "pageProps");
    Subscript(pageProps, "ad")
  }

  /** The text of a value handed to BeautifulSoup. */
  function MarkupText(j: Json): (r: Result<string, Error>)
    ensures r.Ok? <==> j.JStr?
    ensures r.Ok? ==> r.value == j.s
  {
    match j
    case JStr(s) => Ok(s)
    case _ => Err(TypeError)
  }

  /** The cities `dist_from_root` measures from (the keys of `ROOT_DICT`). */
  const RootCities: set<string> := {"Warsaw", "Krakow"}

  /** A value `haversine` accepts as a coordinate: `math.radians` and the
      subtraction before it take numbers (a boolean counts as an integer);
      any other value raises `TypeError`. */
  predicate IsCoordinate(j: Json) {
    j.JInt? || j.JFloat? || j.JBool?
  }

  /** The detail record of an ad page that is not the search-results
      marker (the common body of `ListingAdditionalInfoOtodom.from_text`
      and `extract_info`). The key is the ad's own id, not the one the
      caller looked up; coordinates are stored as their `str` forms and the
      whole ad as its JSON text. After the coordinates are read, the
      distance from the city centre is computed: `city` is the city looked
      up in `ROOT_DICT` (a `KeyError` outside it), or `None` when the
      caller measures from its own fixed centre; a coordinate that is not
      a number makes `haversine` raise `TypeError`. */
  function ParseAd(info: Json, kind: KeyKind, city: Option<string>, libs: Libs): (r: Result<ListingAdditionalInfo, Error>)
    ensures city.Some? && city.value !in RootCities ==> r.Err?
    ensures r.Ok? ==> AdOf(info).Ok? && AdOf(info).value.JObj?
    ensures r.Ok? ==>
      var ad := AdOf(info).value;
      && "id" in ad.fields && "target" in ad.fields && "location" in ad.fields
      && KeyField(kind, "listing_id", ad.fields["id"]) == Ok(r.value.listingId)
      && r.value.rawInfo == libs.dumps(ad)
      && Subscript(ad.fields["location"], "coordinates").Ok?
      && var coordinates := Subscript(ad.fields["location"], "coordinates").value;
         && coordinates.JObj? && "latitude" in coordinates.fields && "longitude" in coordinates.fields
         && IsCoordinate(coordinates.fields["latitude"]) && IsCoordinate(coordinates.fields["longitude"])
         && r.value.latitude == libs.pyStr(coordinates.fields["latitude"])
         && r.value.longitude == libs.pyStr(coordinates.fields["longitude"])
    ensures r.Ok? ==>
      var tg := AdOf(info).value.fields["target"];
      && tg.JObj?
      && DecodeFloor(Get(tg, "Floor_no").value) == Ok(r.value.floor)
      && HasExtra(tg, "air_conditioning") == Ok(r.value.hasAc)
      && HasExtra(tg, "lift") == Ok(r.value.hasLift)
      && WindowsInput(tg).Ok? && OptStrField("windows", WindowsInput(tg).value) == Ok(r.value.windows)
      && OptIntField("floors_total", Get(tg, "Building_floors_num").value) == Ok(r.value.floorsTotal)
      && OptIntField("deposit", Get(tg, "Deposit").value) == Ok(r.value.deposit)
    ensures r.Ok? ==>
      AvailableFromInput(AdOf(info).value).Ok? &&
      OptStrField("available_from", AvailableFromInput(AdOf(info).value).value) == Ok(r.value.availableFrom)
  {
    var ad :- AdOf(info);
    var tg :- Subscript(ad, "target");
    var target :- AsDict(tg);
    var floor :- DecodeFloor(DictGet(target, "Floor_no"));
    var floorsTotal := DictGet(target, "Building_floors_num");
    var windows :- WindowsInput(tg);
    var description :- Subscript(ad, "description");
    var descriptionText :- MarkupText(description);
    var availableFrom :- AvailableFromInput(ad);
    var location :- Subscript(ad, "location");
    var coordinates :- Subscript(location, "coordinates");
    var lat :- Subscript(coordinates, "latitude");
    var lon :- Subscript(coordinates, "longitude");
    if city.Some? && city.value !in RootCities then Err(KeyError(JStr(city.value)))
    else if !IsCoordinate(lat) || !IsCoordinate(lon) then Err(TypeError)
    else
    var id :- Subscript(ad, "id");
    var deposit := DictGet(target, "Deposit");
    var flags :- ExtraFlags(tg);
    // pydantic validation, in field declaration order
    var listingId :- KeyField(kind, "listing_id", id);
    var floorsTotalValue :- OptIntField("floors_total", floorsTotal);
    var depositValue :- OptIntField("deposit", deposit);
    var windowsText :- OptStrField("windows", windows);
    var availableText :- OptStrField("available_from", availableFrom);
    Ok(ListingAdditionalInfo(listingId, floor, floorsTotalValue, depositValue, flags.0, flags.1,
                             windowsText, availableText, libs.pyStr(lat), libs.pyStr(lon),
                             libs.stripHtml(descriptionText), libs.dumps(ad)))
  }

  /** `ListingAdditionalInfoOtodom.from_text`: the search-results marker
      yields a gone marker for the looked-up id tagged with the Otodom
      service, whatever the city; any other page yields the ad's detail
      record, measured from `city`'s centre. */
  function DetailFromText(info: Json, listingId: Value, city: string, libs: Libs): (r: Result<Detail, Error>)
    ensures IsSearchPage(info) == Ok(true) ==>
      r == Ok(Gone(ListingGone(listingId, Some(Services.Service.Otodom.Value()))))
    ensures IsSearchPage(info) == Ok(false) ==>
      (r.Ok? <==> ParseAd(info, StrKey, Some(city), libs).Ok?)
      && (r.Ok? ==> r.value == Found(ParseAd(info, StrKey, Some(city), libs).value))
    ensures IsSearchPage(info) == Ok(false) && city !in RootCities ==> r.Err?
    ensures r.Ok? && r.value.Gone? ==> IsSearchPage(info) == Ok(true) && r.value.marker.service == Some("otodom")
  {
    var gone :- IsSearchPage(info);
    if gone then Ok(Gone(ListingGone(listingId, Some(Services.Service.Otodom.Value()))))
    else
      var detail :- ParseAd(info, StrKey, Some(city), libs);
      Ok(Found(detail))
  }
}
