# Rental-listing pipeline: a Dafny model

This project models the core of a small pipeline that collects rental-flat
listings from the Polish portals Otodom and OLX and keeps them in a MySQL
database. The pipeline works in four stages.

- **Crawl.** Two Otodom crawlers, the daily updater and the older getter,
  walk the search result pages and store one *listing item* (a summary)
  per search hit.
- **Enrich.** An enrichment pass fetches each listing's own page. It stores
  either a *detail record* or a *gone marker* for it. It then asks an AI
  model for derived facts: pets, bedrooms, availability, kitchen, lease.
- **Live check.** A pass fetches every stored listing and marks the ones
  that have disappeared.
- **Notify.** A notifier selects new flats that meet a fixed set of
  criteria and formats the messages about them.

Every record, whatever its kind, reaches the database through one generic
*saveable* protocol:

- `to_db` is an `INSERT … ON DUPLICATE KEY UPDATE`;
- `is_present_in_db` is a key lookup;
- `to_db_patch` is an `UPDATE` of the non-null fields.

The model is written over parsed JSON values (`PyJson.Json`). Python's
accessor semantics are spelled out: `.get`, `or`, `[]`, `in`, truthiness,
and the exception each raises. Errors are values of `Result`. The modules
are as follows.

- `Wrappers`: `Option`, `Result`, and `MapAll`, a loop that appends `f(x)`
  and stops at the first exception.
- `PyJson`: JSON values, Python accessors, and pydantic's reading of
  scalar fields.
- `Text`: `split`, `join`, `int()` on a sign and ASCII digits, and decimal
  rendering.
- `Timestamp`: `datetime.strptime(s, "%Y-%m-%d %H:%M:%S")`, the parse of a
  listing's creation date.
- `Records`: the typed records (summary, detail, AI facts, gone marker) and
  the generic `Saveable` each one dumps to (`model_dump(exclude_none=True)`).
- `Store`: the database as a map from table to key to row; the three
  saveable operations and the statements they build.
- `Services`: the `Service` enum and its dispatch tables.
- `Otodom`, `Olx`: the per-portal parsers of search pages and ad pages.
- `Crawl`: the `scrape` loop shared by both crawlers.
- `PageSave`, `DailySave`, `DailyUpdater`: the daily crawler, which stops
  early.
- `GetterSave`, `Getter`: the older crawler, which always upserts.
- `Extractor`: the enrichment, AI back-fill and live-check passes, and what
  their writes do to the store.
- `Notifier`: the notification filter under SQL three-valued logic, and
  the status messages.

The daily crawler reads 36 pages; the older crawler reads 17. The
notification filter keeps flats with a rent under 6700 that have more than
3 rooms or a separate kitchen. The AI pass calls `gemini-2.0-flash`. When
that call fails, it retries once:

- after a `RESOURCE_EXHAUSTED` status, with the same model after 60 seconds;
- after any other status, with `gemini-2.0-flash-lite` after 1 second.

## Model

| member | source | states |
|---|---|---|
| `Store.BuildInsert` | helpers/models_base.py:32-49 | The insert names every non-null field once, with one `%s` placeholder and its value per column, in dump order. The `ON DUPLICATE KEY UPDATE` list is exactly the non-key columns. |
| `Store.UpdateClauseIffNonKeyField` | helpers/models_base.py:44-52 | The update clause is non-empty iff the record sets a field besides `listing_id`. |
| `Store.WrittenIsExactlySetFields` | helpers/models_base.py:33-38 | The written row holds exactly the fields that are not `None`, each with its value, and the key column holds the record's key. |
| `Store.ExecuteInsertOfRecord` | helpers/models_base.py:53-69 | Running the built insert stores the written row for a new key. For an existing key it overwrites exactly the written non-key columns. |
| `Store.ToDb` | helpers/models.py:14-50 | `to_db` succeeds iff the cursor does not fail, the table exists, and the key is new or the record has a non-key field. A key-only record hits an existing key and fails. On success only that row changes. On failure nothing changes. |
| `Store.ToDbNothingElseChanges` | listing.py:58-94 | A successful upsert keeps the table set, leaves other tables and other rows untouched, and adds exactly the record's key. |
| `Store.UpsertedRowFields` | helpers/models_base.py:53-69 | After an upsert, every set non-key field holds its value. A field left `None` keeps what the stored row held. |
| `Store.ToDbIdempotent` | helpers/models_base.py:32-69 | Upserting the same record twice leaves the store as one upsert did. |
| `Store.MergeIdempotent` | helpers/models_base.py:44-52 | The `VALUES(col)` merge absorbs a repeat, and a row merged into itself is unchanged. |
| `Store.OnlyKeyFailsOnExisting` | helpers/models_base.py:50-52 | A record with no non-key field builds an empty update list. On an existing key its upsert fails and writes nothing. |
| `Store.IsPresentInDb` | helpers/models_base.py:71-87 | The answer is true iff the cursor does not fail, the table exists, and the key is stored. |
| `Store.SelectKey` | helpers/models.py:52-68 | The `SELECT listing_id … WHERE listing_id = %(listing_id)s` query returns at most one id, the searched key, exactly when it is stored. |
| `Store.BuildPatch` | helpers/models_base.py:89-104 | The patch statement targets the record's table. Its `SET` list is exactly the written non-key columns, and its parameters are the written row. |
| `Store.ToDbPatch` | listing.py:114-140 | `to_db_patch` succeeds iff the cursor does not fail, the table exists, and the record has a non-key field. A missing key matches no row and changes nothing. An existing row is merged with the set fields. |
| `Store.ExecuteUpdateOfRecord` | helpers/models_base.py:105-117 | Running the built update merges exactly the set non-key columns into the stored row and never inserts. |
| `Store.WritesKeepKeysConsistent` | helpers/models_base.py:32-117 | Both writes keep every stored row's `listing_id` column equal to its key. |
| `Store.PatchNeverInsertsUpsertMakesPresent` | helpers/models.py:14-96 | A patch never adds a key. After a successful upsert, `is_present_in_db` answers true. |
| `Records.FromAiMetadata` | helpers/models_base.py:170-186 | `from_ai_metadata` copies every AI field, takes the given id, and stamps `updated_at` with the current time. The `augment` hook leaves the result unchanged. |
| `Services.Parse` | helpers/services.py:17-19 | `Service(v)` accepts exactly `"otodom"` and `"olx"`. |
| `Services.ParseValue` | helpers/services.py:17-19 | Parsing a member's value gives the member back, and only its own value parses to it. |
| `Services.ItemModelClass` | helpers/services.py:21-27 | Otodom dispatches to `ListingItemOtodom` and OLX to `ListingItemOLX`. |
| `Services.MetadataModelClass` | helpers/services.py:29-35 | Otodom dispatches to `ListingAdditionalInfoOtodom` and OLX to `ListingAdditionalInfoOLX`. |
| `Services.InfoForAi` | helpers/services.py:61-67 | The AI pass reads `raw_info` for Otodom and `description_long` for OLX. |
| `Services.EagerLookup` | helpers/services.py:37-59 | A dictionary built eagerly raises `AttributeError` for every member as soon as one entry names an attribute the OLX module lacks. |
| `Services.EagerLookupFailsForOtodom` | helpers/services.py:37-59 | As written, `search_url_dict` and both AI-class properties raise `AttributeError` even for Otodom. |
| `Services.Lookup` | helpers/services.py:37-59 | With the corrected lookup, only the member whose own entry is missing raises. |
| `Services.LookupServesOtodom` | helpers/services.py:37-59 | The corrected dispatch answers for Otodom with its own classes and search table, and agrees with the eager form wherever that form answers. |
| `Services.DispatchTotalAndSeparate` | helpers/services.py:21-35 | The two services never share an item or detail class or an AI column, and each persisted class writes to its own service's table. |
| `Otodom.RoomsNumber` | helpers/models_otodom.py:188-201 | `None` maps to `None` and the six known names map to 1..6. Any other value, `SIX_OR_MORE` included, maps to `None`. A list or dict raises `TypeError`. |
| `Otodom.RoomsNumberNames` | helpers/models.py:195-208 | A room count comes out exactly for the known names, each giving its own number. |
| `Otodom.DistrictInfo` | helpers/models_otodom.py:204-212 | A missing or empty location list gives `(None, None)`. Otherwise the result is the comma-prefixes of the last and second-to-last entries. A one-entry list raises `IndexError`. |
| `Otodom.DistrictOfTwoEntries` | listing.py:45-51 | A two-entry location list gives the finer name, then the coarser one. |
| `Otodom.DistrictsRoundTrip` | helpers/models.py:211-217 | The districts of a summary are read back from the location list Otodom sends for it. |
| `Otodom.CreatedOnInput` | helpers/models_otodom.py:52-54 | A missing or falsy `dateCreatedFirst` passes through. A truthy one must be a string (else `TypeError`) that `strptime` reads in the format `%Y-%m-%d %H:%M:%S`: a non-empty string it rejects raises `ValueError`. |
| `Otodom.ReadItem` | helpers/models_otodom.py:47-65 | `from_otodom_data` makes every lookup the source makes: the required keys, the price objects (total price as rent, rent as administrative price), the rooms, the districts and the creation date. A creation date it keeps is empty or one `strptime` reads, and a non-empty one `strptime` rejects makes it raise. |
| `Otodom.ValidateItem` | helpers/models_otodom.py:60-71 | Each input is validated against its field's type, and any failure is a `ValidationError`. |
| `Otodom.FromOtodomData` | helpers/models.py:120-142 | A summary has an id, title and slug from required keys, with the id validated as an integer key and the title and slug as strings. Its rent is the `totalPrice` amount and its administrative price the `rentPrice` amount. Its rooms come from `roomsNumber`, its area from `areaInSquareMeters`, and its district pair from the reverse-geocoding list. Its creation date is one `strptime` reads, and an item whose non-empty `dateCreatedFirst` `strptime` rejects raises. A failed lookup propagates its error; a failure after the lookups is a validation error. |
| `Otodom.FromOtodomDataRoundTrip` | listing.py:164-186 | `from_otodom_data` recovers every field of a summary from the search item that carries it, for every summary whose creation date is absent or a timestamp `strptime` reads. |
| `Timestamp.MatchFormat` | helpers/models_otodom.py:54 | The pattern `strptime` builds from `%Y-%m-%d %H:%M:%S` matches the whole text. Four digits give the year, and the other fields lie in the ranges their directives admit (month 1-12, day 1-31, hour 0-23, minute 0-59, second 0-61). |
| `Timestamp.Strptime` | helpers/models_otodom.py:54 | The parse succeeds iff the text matches the format and names a real `datetime`: a year from 1, a day its month has, no leap second. Every failure is `ValueError`. |
| `Timestamp.MatchFormatOfFormat` | helpers/models.py:125 | The canonical `%Y-%m-%d %H:%M:%S` text of any fields the pattern admits matches, giving those fields back. |
| `Timestamp.StrptimeOfFormat` | listing.py:169 | Parsing the canonical text gives the timestamp back exactly when it is a valid `datetime`; otherwise it raises `ValueError`. |
| `Timestamp.StrptimeRejectsWords` | helpers/models_otodom.py:54 | Text that is not a timestamp (`yesterday`) raises `ValueError`. |
| `Timestamp.StrptimeRejectsMissingDay` | helpers/models_otodom.py:54 | `2023-02-29 10:00:00` matches the pattern but raises `ValueError`, since 2023 is not a leap year. |
| `Otodom.GetListingsOfSearchPage` | helpers/models_otodom.py:215-217 | `get_listings` returns what a page carries at `props.pageProps.data.searchAds.items`, and reads nothing else. |
| `Otodom.AllButLast` | helpers/models_otodom.py:78-79 | `listings[:-1]` keeps every item but the last, in order. |
| `Otodom.FromTextAsWritten` | helpers/models_otodom.py:74-83 | As written, the page loop calls a method the base class lacks, so it can only succeed on a page it keeps nothing from. |
| `Otodom.FromTextAsWrittenLosesPages` | helpers/models_otodom.py:81 | A page of two readable items raises `AttributeError` as written. The intended method returns one summary for it. |
| `Otodom.FromText` | helpers/models_otodom.py:74-83 | The corrected loop returns the summaries of every search item but the last, in order. It succeeds iff each of those items reads. A string where the list belongs yields nothing when it has at most one character, and raises otherwise. |
| `Otodom.IsSearchPage` | helpers/models_otodom.py:110 | The marker test is true iff the page's `page` key holds the search-results path. A payload that is not a dict raises. |
| `Otodom.DecodeFloor` | helpers/models_otodom.py:117-127 | A missing or empty floor value gives `None`, `ground_floor` gives 0 and `cellar` gives -1. |
| `Otodom.DecodeFloorNumbered` | helpers/models_otodom.py:126-127 | A label ending in `_` and a number gives that number. |
| `Otodom.DecodeEncodeFloor` | helpers/models_otodom.py:117-127 | Decoding undoes Otodom's encoding for every floor. |
| `Otodom.HasExtra` | helpers/models_otodom.py:130 | An amenity flag is membership in `Extras_types`; a missing or empty list gives false. |
| `Otodom.ExtraFlags` | helpers/models_otodom.py:160-161 | The AC and lift flags are the two memberships. |
| `Otodom.WindowsInput` | helpers/models_otodom.py:132-133 | The window type is the first entry of `Windows_type`, or `None` when that is missing or empty. |
| `Otodom.FirstFreeFrom` | helpers/models_otodom.py:138-139 | The result is the first `topInformation` entry labelled `free_from`. An entry that is not a dict raises `AttributeError`. |
| `Otodom.AvailableFromInput` | helpers/models_otodom.py:138-147 | The availability date is the first value of that entry. It is `None` when there is no entry, or when the values are missing or empty. |
| `Otodom.ParseAd` | helpers/models_otodom.py:113-169 | The detail record takes the ad's own id, floor, amenity flags, windows, floor count, deposit and availability. Coordinates are kept as their `str` forms and the ad as its JSON text. It succeeds only if both coordinates are numbers, because `haversine` raises `TypeError` on anything else. A city outside `ROOT_DICT` always fails. |
| `Otodom.DetailFromText` | helpers/models_otodom.py:102-170 | The search-results marker gives a gone marker for the looked-up id, tagged `otodom`, whatever the city. Any other page gives the ad's detail record, measured from the given city, or the error parsing it raised. For a city outside `ROOT_DICT`, such a page always fails. |
| `Olx.OfferId` | helpers/models_olx.py:27 | The offer id holds no `.`. |
| `Olx.OfferIdOfUrl` | helpers/models_olx.py:27 | For a URL ending in `name-a-b.ext`, the id is `a-b`. |
| `Olx.Slug` | helpers/models_olx.py:28 | The slug holds no `/` and no `.`. |
| `Olx.SlugOfUrl` | helpers/models_olx.py:28 | For such a URL, the slug is the final segment without its extension. |
| `Olx.ParseSiteData` | helpers/models_olx.py:26-40 | Id and slug come from the URL, the title from `name`, the rent from `price`, and the district from `areaServed.name`. `district_specific` is dropped. A missing `url` raises `KeyError`. |
| `Olx.ParseSiteDataOfOffer` | helpers/models_olx.py:26-40 | `parse_site_data` reads a published offer back field by field. |
| `Olx.FromText` | helpers/models_olx.py:43-56 | A page without a `Product` script yields nothing. Every summary belongs to the OLX items table. |
| `Olx.FromTextParsesProductOffers` | helpers/models_olx.py:47-55 | When every `Product` script holds JSON whose `offers.offers` a `for` loop can visit (a list, a string, or an empty dict), `from_text` is `parse_site_data` mapped over those offers in page order. It stops at the first offer that raises. `Olx.FromTextFailsWithProductOffers` covers the other pages. |
| `Olx.FromTextFailsWithProductOffers` | helpers/models_olx.py:47-55 | A page where some `Product` script is not JSON, or has no `offers.offers` a `for` loop can visit, makes `from_text` raise. |
| `Olx.CaptureIsLeftmost` | helpers/models_olx.py:94 | `re.findall(...)[0]` is the letter run after the leftmost match, and is absent iff nothing matches. |
| `Olx.CaptureOfLabelledWord` | helpers/models_olx.py:91-94 | A parameter that starts with the label and a word captures that word. |
| `Olx.LastMatchBeforeIsLast` | helpers/models_olx.py:93-96 | The reference search finds the last matching parameter. |
| `Olx.PetsLoopIsLastMatch` | helpers/models_olx.py:92-96 | The loop leaves the verdict of the last match, or its initial value when nothing matches. |
| `Olx.PetsFlagIsLastMatch` | helpers/models_olx.py:91-96 | The intended pets flag is `None` iff no parameter matches. Otherwise the last match decides, and the flag is true iff its word is `Tak`. The code as written raises instead (see Findings). |
| `Olx.PetsFlagAsWritten` | helpers/models_olx.py:91-96 | The pets loop as written succeeds iff the container holds no parameter, and then agrees with the intended flag. Any parameter raises `NameError`, because `re` is never imported. |
| `Olx.PetsFlagAsWrittenRaises` | helpers/models_olx.py:94 | A single `Zwierzęta: <word>` parameter raises `NameError` as written, where the intended loop reads the word. |
| `Olx.FirstProduct` | helpers/models_olx.py:77-86 | The `for`/`else` finds the first `Product` script and raises `ValueError` without one. |
| `Olx.DetailPrelude` | helpers/models_olx.py:76-96 | The intended detail parser needs a `Product` script and a parameters container. A missing container raises `AttributeError`. The result is the first `Product` data and the intended pets flag. |
| `Olx.DetailPreludeAsWritten` | helpers/models_olx.py:76-96 | As written, the detail parser gets past the pets loop only for a container with no parameter, and then agrees with the intended one. With a `Product` script and any parameter, it raises `NameError`. |
| `Crawl.ScrapeConcatenatesPages` | helpers/daily_updater.py:108-113 | `scrape` succeeds iff every page reads, and then returns the pages' summaries concatenated in page order. |
| `Crawl.ScrapeStopsAtFirstError` | getter.py:99-104 | A failed `scrape` reports the first failing page's error, and every earlier page read. |
| `Crawl.ScrapeErrorPersists` | helpers/daily_updater.py:108-113 | Once a page fails, every longer crawl fails. |
| `Crawl.ScrapeReadsOnlyItsPages` | helpers/daily_updater.py:108-113 | `scrape` over n pages reads page indices 0..n-1 and nothing else. |
| `Crawl.ScrapeReadsPagesOneToN` | helpers/daily_updater.py:108-113 | With a page reader that asks for page number i+1 at index i, `scrape` over n pages reads page numbers 1..n and nothing else. |
| `PageSave.SaveOne` | helpers/daily_updater.py:118-123 | The loop body answers whether the id is stored. It writes the row only when the id is absent and the table exists. |
| `PageSave.IdsBeforeMembers` | helpers/daily_updater.py:118-123 | The ids gained are exactly those of the page's items for that table. |
| `PageSave.CheckStep` | helpers/daily_updater.py:119 | The check of item n answers whether the id was stored before the page or inserted by an earlier item. |
| `PageSave.LoopStep` | helpers/daily_updater.py:118-123 | One loop pass keeps the store invariant and the invariant on the `present` dict. |
| `PageSave.SaveUpToOutcome` | helpers/daily_updater.py:116-125 | After the loop, tables keep their rows and gain exactly the page's ids. `all(present.values())` holds iff the last check of every id found it present. |
| `PageSave.AllPresentIff` | helpers/daily_updater.py:124-125 | `all(present.values())` holds iff the last check of each id found it present. |
| `PageSave.SaveUpToNewRows` | helpers/daily_updater.py:118-123 | After the loop, each id the store gained holds the row of the first item with that id. Each item that first asked for an absent id in an existing table wrote its row there. |
| `PageSave.RepeatedIdIsPresent` | helpers/daily_updater.py:118-123 | An id repeated on a page counts as present from its second check on. |
| `DailySave.SaveOneIsStoreCalls` | helpers/daily_updater.py:119-122 | The loop body is `is_present_in_db` followed, on absence, by `to_db`. |
| `DailySave.SaveItem` | helpers/daily_updater.py:119-122 | One iteration of the `save_to_db` loop writes the item's own `model_dump(exclude_none=True)` row. It answers whether the id is stored, and writes that row under the id only when the id is absent and the table exists. |
| `DailySave.SaveLoop` | helpers/daily_updater.py:118-123 | The `for` loop runs the body on every item in order. Item i writes the row `rowOf` gives it, and each check is recorded in `present`. |
| `DailySave.SaveToDb` | helpers/daily_updater.py:116-125 | `save_to_db` never modifies stored rows and adds exactly the page's ids. Each added id holds the dump of the first item of the page with that id, and every item that first asked for an absent id wrote its dump there. It reports true iff each id's last check found it present, and true on an empty page. |
| `DailyUpdater.ScrapePageKeepsAllButLast` | helpers/daily_updater.py:95-106 | Page index i reads page number i+1 and yields the summaries of every search item but the last. A string of at most one character where the list belongs yields nothing. A failed request raises `AttributeError` at `res.text`. |
| `DailyUpdater.ScrapePageReadsNextPage` | helpers/daily_updater.py:97 | `scrape_page` at index i asks for page number i+1 and nothing else. |
| `DailyUpdater.ScrapeReadsPagesOneToN` | helpers/daily_updater.py:97 | `scrape` reads page numbers 1..n and nothing else. |
| `DailyUpdater.UpdateListingsWith` | helpers/daily_updater.py:128-135 | Pages are examined in order, at most 36 of them. The run stops right after the first all-present page. Running out of pages gives false. A failing page ends the run with its error. Stored rows are never modified, and the tables gain exactly the ids of the pages read. |
| `DailyUpdater.UpdateListings` | helpers/daily_updater.py:128-135 | The same, reading pages with `scrape_page`. |
| `GetterSave.UpsertOne` | getter.py:109-113 | One upsert keeps the table set and does nothing when the item's table is missing. |
| `GetterSave.UpsertOneIsToDb` | getter.py:110 | The loop body is the store's `to_db`, which succeeds exactly when the table exists. |
| `GetterSave.UpsertItem` | getter.py:110 | One iteration of the upsert loop upserts the item's own `model_dump(exclude_none=True)` row under its id, or does nothing when the table is missing. The result is the store's `to_db` of the item. |
| `GetterSave.UpsertLoop` | getter.py:109-113 | The loop upserts every item in order. Item i writes the row `rowOf` gives it. |
| `GetterSave.UpsertUpToHolds` | getter.py:109-113 | After the loop, the row of each id holds every non-key column that the last item with that id wrote. |
| `GetterSave.SaveToDb` | getter.py:107-115 | Every item is upserted, present or not. Tables gain exactly the page's ids, and other rows are untouched. Each id's row holds every non-key column of the dump of the last item with that id. |
| `Getter.GetListingsOfSearchPage` | getter.py:83-85 | The data endpoint's `get_listings` has no `props` level, so a daily-layout payload raises `KeyError`. |
| `Getter.ScrapePage` | getter.py:87-96 | A failed request raises `AttributeError` at `res.json()`. A page that reads holds a list of search items where `get_listings` looks, or an empty string or empty dict, which yields nothing. |
| `Getter.ScrapePageKeepsEveryItem` | getter.py:87-96 | One summary per search item, the last included. The page reads iff every item does. |
| `Getter.ScrapePageKeepsTheLastItem` | getter.py:87-96 | A one-item page yields its summary here, where the daily crawler drops it. |
| `Getter.ScrapePageReadsNextPage` | getter.py:89 | `scrape_page` at index i asks for page number i+1 and nothing else. |
| `Getter.ScrapeReadsPagesOneToN` | getter.py:89 | `scrape` reads page numbers 1..n and nothing else. |
| `Getter.SavePage` | getter.py:118-123 | Saving a page read by `main` grows every table by exactly that page's ids, on top of the ids of the pages before it. |
| `Getter.RunWith` | getter.py:118-123 | All 17 pages are read and saved in order, with no early stop. A failing page ends the run with its error. The tables gain exactly the ids of the pages read. |
| `Getter.Run` | getter.py:118-123 | The same, reading pages with `scrape_page`. |
| `Extractor.ExtractInfo` | helpers/extractor.py:70-139 | A missing body or the search-results page gives a gone marker for the looked-up id. Any other page gives the ad's detail record, keyed by the ad's own id, from the same parser with the fixed centre. It therefore succeeds only with numeric coordinates. |
| `Extractor.ExtractInfoGoneAsOtodomParser` | helpers/extractor.py:79-81 | `extract_info` and the Otodom detail parser agree on which pages mean a removed listing, and on the marker's id. |
| `Extractor.RetryPlan` | helpers/extractor.py:166-175 | A rate limit keeps the model and waits 60 s. Any other status switches to the lite model after 1 s. An error without a `status` raises `AttributeError`. |
| `Extractor.AiInfoOf` | helpers/extractor.py:176-177 | A reply without a parsed answer raises. Otherwise the AI record carries the answer, the id and the time. |
| `Extractor.ExtractAiInfo` | helpers/extractor.py:142-178 | There are one or two calls, the first to `gemini-2.0-flash`, with one delay per retry. A first success is the result. |
| `Extractor.RetriedAtMostOnce` | helpers/extractor.py:158-177 | A retry happens iff the first call failed with a status, and its model and delay follow the plan. A second failure propagates. |
| `Extractor.AiRunResult` | helpers/extractor.py:142-178 | A successful run carries the answer of the call that succeeded, stamped with the id and the time. |
| `Extractor.Sent` | helpers/extractor.py:244-284 | The records sent are the writes' records, in order. |
| `Extractor.RunPassSucceeds` | helpers/extractor.py:244-268 | A pass succeeds iff every entry's step does, and it then makes every step's writes in order. |
| `Extractor.RunPassStopsAtFirstError` | helpers/extractor.py:244-268 | A failed pass reports the first failing entry's error, after the writes of the entries before it and that entry's own. |
| `Extractor.EnrichOne` | helpers/extractor.py:246-255 | The detail or gone marker is written first. AI facts follow only for a detail record. An AI error aborts after the detail write. |
| `Extractor.ProcessMissingMetadata` | helpers/extractor.py:244-257 | On success the backlog itself is returned. |
| `Extractor.ProcessMissingMetadataWrites` | helpers/extractor.py:244-257 | The pass succeeds iff every row's enrichment does, and it then makes every row's writes in order. |
| `Extractor.BackfillOne` | helpers/extractor.py:262-265 | One row writes the AI facts extracted from its stored text, or nothing when extraction fails. |
| `Extractor.Prefixes` | helpers/extractor.py:267 | `[x[:2] for x in urls]` keeps each row's id and URL. |
| `Extractor.ProcessMissingAiMetadata` | helpers/extractor.py:260-268 | On success the rows' (id, URL) prefixes are returned. |
| `Extractor.BackfillWritesOnlyAi` | helpers/extractor.py:260-268 | A successful back-fill writes one AI record per row, in row order, each for that row's id. |
| `Extractor.GoneWrites` | helpers/extractor.py:276-280 | Each dead id gets a gone marker, in order. |
| `Extractor.CheckAlive` | helpers/extractor.py:271-284 | A row whose fetch fails is listed as dead and marked gone. Every other row is listed as alive. |
| `Extractor.AliveDeadPartition` | helpers/extractor.py:271-284 | The alive and dead lists split the backlog. Each id is in the list its fetch decides, and the two sizes add up to the backlog's. |
| `Extractor.CommitKeepsTables` | helpers/extractor.py:244-284 | Committing records keeps the set of tables. |
| `Extractor.CommitKeepsOtherTables` | helpers/extractor.py:271-284 | Records all bound for one table leave every other table alone. |
| `Extractor.CommitAddsKeys` | helpers/extractor.py:271-284 | Records all bound for one existing table add exactly their keys to it. |
| `Extractor.GoneMarkersCommitted` | helpers/extractor.py:276-280 | After `check_alive` commits, every dead id is in the irrelevant-listings table, whether it was there before or not, and no other table changes. |
| `Notifier.OfBool` | helpers/notifier.py:53-60 | A nullable boolean column is TRUE, FALSE or NULL accordingly. |
| `Notifier.Not` | helpers/notifier.py:55 | SQL `NOT` keeps NULL. |
| `Notifier.And` | helpers/notifier.py:53-60 | SQL `AND`: FALSE wins over NULL. |
| `Notifier.Or` | helpers/notifier.py:57-59 | SQL `OR`: TRUE wins over NULL. |
| `Notifier.IsNull` | helpers/notifier.py:59-60 | `IS NULL` is never NULL. |
| `Notifier.Greater` | helpers/notifier.py:57 | A comparison with NULL is NULL. |
| `Notifier.Less` | helpers/notifier.py:58 | A comparison with NULL is NULL. |
| `Notifier.In` | helpers/notifier.py:53 | `IN` over non-null values is membership. |
| `Notifier.SelectedIff` | helpers/notifier.py:52-60 | A row passes iff it is one of the ids, scraped and not irrelevant (both known), has more than 3 rooms or a kitchen known to be separate, has a known rent under 6700, does not refuse pets, and has no decision yet. |
| `Notifier.FilterKeepsSelected` | helpers/notifier.py:61-67 | The query keeps exactly the selected rows, each as often as the view holds it, all with listed ids. |
| `Notifier.GetToNotify` | helpers/notifier.py:45-68 | An empty id list makes the statement end in `in ()`, which the database rejects. Otherwise the rows returned are rows of the view with listed ids. |
| `Notifier.IdsOf` | helpers/notifier.py:102 | The ids are the first components, in order. |
| `Notifier.SendUpdates` | helpers/notifier.py:99-101 | An empty list sends nothing and queries nothing. |
| `Notifier.SendUpdatesOneMessagePerRow` | helpers/notifier.py:99-107 | A non-empty list is queried with its own ids. One message goes out per selected row, in the order the rows come back. |
| `Notifier.Margin` | helpers/notifier.py:124 | The dedent margin is the smallest indentation of the non-blank lines: it bounds them all from below and is the indentation of one of them. There is no margin iff every line is blank. |
| `Notifier.DedentThree` | helpers/notifier.py:124-128 | Dedenting three lines that share an indentation removes exactly that indentation. |
| `Notifier.FormatStatusMsgAliveText` | helpers/notifier.py:123-129 | The alive status message is three lines without the source's indentation. |
| `Notifier.FormatStatusMsgReportsCount` | helpers/notifier.py:110-114 | The update status message reports `len(info)`, which reads back from the text. |
| `Notifier.FormatStatusMsgAliveReportsCounts` | helpers/notifier.py:123-129 | The alive status message reports `len(alive)` and `len(dead)`, which read back from the text. |
| `Wrappers.MapAll` | helpers/models_olx.py:53-55 | A loop appending `f(x)` succeeds iff every element does. It then holds `f(x)` for each element in order; otherwise it fails with the first failure. |
| `Wrappers.MapAllAppend` | helpers/models_olx.py:47-55 | Mapping a concatenation maps each part in turn, and the first failure is the outcome. |
| `Text.SplitIsDecomposition` | helpers/models_otodom.py:127 | `split` pieces hold no separator and join back to the text. |
| `Text.SplitOfJoin` | helpers/models_olx.py:27-28 | `split` inverts `join` of separator-free pieces. |
| `Text.ParseIntText` | helpers/models_otodom.py:127 | `int(str(n)) == n`. |

## Left out

- HTTP requests, user-agent rotation, `sleep`, `tqdm`, database connections, `commit` and the Telegram API are left out. Fetches are parameters: `Crawl.Site` for search pages and `Extractor.Fetch` for ad pages. A failed search-page request is `None`, as `query_url_as_human` returns it (helpers/connection.py:74-79).
- HTML parsing and `json.loads` are left out. BeautifulSoup's script search is assumed done, and each page is the parsed JSON it carries. The OLX `Product` scripts come as a list of `Olx.Script`.
- `json.dumps`, `str()` of a coordinate and `get_text` are left out. They are the functions of `PyJson.Libs`, a parameter.
- The value of `haversine`, `dist_from_root` and `distance_from_center_km` (helpers/helpers.py:19-40, helpers/extractor.py:38-55 and 121) is left out, because it is floating-point geometry. Only the errors are modelled: a city outside `ROOT_DICT` raises `KeyError`, and a coordinate that is not a number raises `TypeError`.
- Otodom.ParseAd: does not model the `OverflowError` that `math.radians` raises for an integer coordinate too large for a float. Such an ad is accepted.
- helpers/models_otodom.py:18 imports `dist_from_root` from `helpers.helper_functions`. That module is not part of this model, so the function is taken to be the one in helpers/helpers.py. `ROOT = ROOT_DICT[CITY]` (helpers/extractor.py:31) is taken to succeed.
- `parse_url_parameters` and `update_and_reconstruct_url` are left out. They are URL rewriting. A page is identified by its number.
- The AI prompt and the Gemini client are left out. The client is a function from (text, model, attempt number) to a reply. The 60 s and 1 s waits are recorded, not slept.
- The backlog queries `get_slugs`, `get_slugs_no_ai` and `get_slugs_alive` (helpers/extractor.py:181-235) are left out. Their SQL is not modelled, and their results are the inputs of the passes.
- The order of the rows of the `listing_info_full` view is left out. The view is an input sequence, and the filter keeps that order.
- `format_msg` (helpers/notifier.py:84-96) is left out. The HTML message template is a `format` parameter of `Notifier.SendUpdates`.
- Notifier.Dedent: handles indentation made of spaces only, not tabs or mixed whitespace; the messages it is used on hold only spaces.
- `send_telegram_message`, `send_status_update` and `send_status_update_alive` are left out. They only post the formatted text.
- Crawls and passes do not model a failing cursor: `DailySave`, `GetterSave` and `Extractor.Commit` call the store with a cursor that does not fail. The store operations themselves take a `fault` flag.
- `PROPERTY_TO_REGEXP` (helpers/models_olx.py:59-61) is left out because it is not valid Python. As written, importing helpers/models_olx.py therefore fails with `SyntaxError`. So does importing helpers/services.py, which imports it at line 10, and with it the `from services import Service` of the Otodom detail parser (helpers/models_otodom.py:105). The model treats each function as if its module loaded.
- Olx.PetsFlagIsLastMatch: states the intended loop. As written, line 94 uses `re`, which the module never imports, so any parameter raises `NameError`. `Olx.PetsFlagAsWritten` and `Olx.DetailPreludeAsWritten` model that behaviour (see Findings).
- PyJson.Items: a non-empty dict is not iterated; it raises `TypeError`. Python visits its keys in insertion order, which a map does not keep. Every loop over such keys in the modelled code then raises too, at `x.get` or at a string subscript, so only the kind of error differs.
- Otodom.AvailableFromInput: a non-empty dict as `topInformation` raises `TypeError` (see `PyJson.Items`), where Python raises `AttributeError` at `x.get` on its first key.
- Otodom.FromText: slicing a dict with `listings[:-1]` raises `TypeError`, which Python 3.12 and later report as `KeyError`.
- Text.ParseInt: only an optional sign followed by ASCII digits is read. Python's `int()` also accepts surrounding whitespace, `_` between digits and non-ASCII decimal digits, which the model reads as not a number.
- Timestamp.Strptime: `\d` and `\s` are read as the ASCII digits and whitespace. Python's patterns also match other Unicode digits and spaces.
- The `otodom.` database qualifier of the `get_to_notify` query (helpers/notifier.py:52) is left out: the rows of the view are a parameter. As written, the Krakow configuration, whose database is `otodom_krakow` (helpers/connection.py:102-106), reads the Warsaw view.
- The construction of `ListingAdditionalInfoOLX` (helpers/models_olx.py:99-113) is left out because it uses names the module does not define. Only the part before it is modelled, as `Olx.DetailPrelude`.
- The OLX AI classes (helpers/models_olx.py:117-142) are left out. They only add an `administrative_price` AI field, and the service dispatch never reaches them as written. The AI record is modelled on the base classes.
- The one-off scripts and runners are left out, apart from the passes they call.
- pydantic's lax coercions are left out. Numeric strings for floats and floats for integer fields are not modelled. An integer is accepted for a float field, and the key field follows pydantic's integer rules.
- `now` is a parameter. `created_on` keeps the text `strptime` parsed rather than the `datetime` it built. The two determine each other for the canonical text (`Timestamp.StrptimeOfFormat`).
- A failed AI extraction is not caught. A second AI failure, or a first one without a `status`, propagates out of `extract_ai_info` and aborts the pass, after the detail write of that row.

## Findings

| source | as written | input that shows it | evidently intended | confidence | as-written member | corrected member |
|---|---|---|---|---|---|---|
| helpers/models_otodom.py:81 | The page loop calls `ListingItem.from_otodom_data`. The base class of helpers/models_base.py has no such method, so every page that keeps an item raises `AttributeError`. | A search page with two readable items | `cls.from_otodom_data(item)`, which gives the summaries of every item but the last | not executed | `Otodom.FromTextAsWrittenLosesPages` | `Otodom.FromText` |
| helpers/models_olx.py:94 | The pets loop calls `re.findall`, but the module never imports `re`, so any parameter raises `NameError`. | An ad whose parameters container holds `Zwierzęta: Tak` | The flag from the last matching parameter, true iff its word is `Tak` | not executed | `Olx.PetsFlagAsWrittenRaises` | `Olx.PetsFlagIsLastMatch` |
| helpers/services.py:37-59 | `search_url_dict`, `listing_ai_metadata_model_class` and `listing_ai_metadata_schema_class` build a dictionary naming `mox.SEARCH_DICT`, `mox.ListingAIInfoOLX` and `mox.ListingAIMetadataOLX`. helpers/models_olx.py defines none of these, so the lookup raises even for Otodom. | `Service.Otodom.search_url_dict` | Only the OLX lookup, whose entry is missing, should fail | not executed | `Services.EagerLookupFailsForOtodom` | `Services.LookupServesOtodom` |
