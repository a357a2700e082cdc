/** `save_to_db` of the daily crawl, apart from the crawl loop that calls
    it: its loop invariants live in `PageSave`. */
module DailySave {
  import opened Records
  import opened Store
  import opened PageSave

  /** The loop body's step, with the row a summary's insert writes, is
      the store's own check followed, when it says absent, by the store's
      own upsert. */
  lemma SaveOneIsStoreCalls(db: Db, li: ListingItem)
    ensures var s := li.ToSaveable();
      && SaveOne(db, li, NewRow(li)).1 == IsPresentInDb(db, s, false)
      && SaveOne(db, li, NewRow(li)).0 == if IsPresentInDb(db, s, false) then db else ToDb(db, s, false).0
  {
  }

  /** The body of the `for` loop of `save_to_db` for one item: ask the
      store whether the id is present and, if not, upsert the item, which
      writes its dump `row`. The cursor does not fail. */
  method SaveItem(db: Db, li: ListingItem) returns (db': Db, isPresent: bool, row: Row)
    ensures row == NewRow(li)
    ensures (db', isPresent) == SaveOne(db, li, row)
  {
    var s := li.ToSaveable();
    isPresent := IsPresentInDb(db, s, false);
    db', row := db, NewRow(li);
    if !isPresent {
      db' := ToDb(db, s, false).0;
    }
  }

  /** The `for` loop of `save_to_db`: check each item in order, insert
      it when its id is absent, and record the check in `present`. An
      item's insert writes `rowOf` of it; the crawler's summaries write
      `NewRow`. */
  method SaveLoop(db: Db, items: seq<ListingItem>, rowOf: ListingItem -> Row) returns (db': Db, present: map<Value, bool>)
    ensures (db', present) == SaveUpTo(db, items, MapSeq(rowOf, items), |items|)
  {
    db', present := db, map[];
    var n := 0;
    while n < |items|
      invariant n <= |items|
      invariant (db', present) == SaveUpTo(db, items, MapSeq(rowOf, items), n)
    {
      MapSeqAt(rowOf, items, n);
      var (next, isPresent) := SaveOne(db', items[n], rowOf(items[n]));
      db', present := next, present[items[n].listingId := isPresent];
      n := n + 1;
    }
  }

  /** `save_to_db`: insert every item whose id is not stored yet and
      report whether every id of the page was present. Rows already
      stored are never modified; the table gains exactly the page's ids,
      each holding the columns of the first item that asked for it; and
      the answer is the conjunction of the last check made for each id.
      An empty page reports `True`. */
  method SaveToDb(db: Db, items: seq<ListingItem>) returns (db': Db, allPresent: bool)
    ensures db'.Keys == db.Keys
    ensures forall t | t in db :: db'[t].Keys == db[t].Keys + IdsBefore(items, |items|, t)
    ensures forall t, k | t in db && k in db[t] :: db'[t][k] == db[t][k]
    ensures forall t, k | t in db && k in db'[t] && k !in db[t] ::
      exists i | 0 <= i < |items| :: items[i].table == t && items[i].listingId == k && FirstBefore(items, i) && db'[t][k] == NewRow(items[i])
    ensures forall i | 0 <= i < |items| && FirstBefore(items, i) && items[i].table in db && items[i].listingId !in db[items[i].table] ::
      items[i].listingId in db'[items[i].table] && db'[items[i].table][items[i].listingId] == NewRow(items[i])
    ensures allPresent <==> forall i | 0 <= i < |items| && LastBefore(items, i, |items|) :: CheckedPresent(db, items, i)
    ensures |items| == 0 ==> allPresent
  {
    var present;
    db', present := SaveLoop(db, items, NewRow);
    SaveUpToOutcome(db, items, MapSeq(NewRow, items));
    SaveUpToNewRows(db, items, NewRow);
    allPresent := forall k | k in present :: present[k];
  }
}

/** The daily Otodom crawl: read the newest search pages one by one, insert
    the summaries whose id the items table does not hold yet, and stop
    after the first page on which every id was already present, or after
    the page budget. Summaries are the `helpers/models.py` records, keyed
    by an integer id. */
module DailyUpdater {
  import opened Wrappers
  import opened PyJson
  import opened Records
  import opened Store
  import opened PageSave
  import opened DailySave
  import Otodom
  import Crawl

  /** The page budget of one run. */
  const Pages: nat := 36

  // ---------------------------------------------------------------------
  // scrape_page and scrape

  /** `scrape_page`: page index `i` asks the site for page number `i + 1`
      and keeps every search item of that page but the last, in order;
      the first item that cannot be read aborts the page, and a failed
      request aborts it with `AttributeError`. */
  function ScrapePage(site: Crawl.Site, i: nat): Result<seq<ListingItem>, Error> {
    var body :- Crawl.Body(site, i + 1);
    Otodom.FromText(body)
  }

  /** A page that reads yields, in order, the summaries of every search
      item of page number `i + 1` but the last, all of the items table; a
      failed request raises `AttributeError`, and a string of at most one
      character where the list belongs yields nothing. */
  lemma ScrapePageKeepsAllButLast(site: Crawl.Site, i: nat)
    ensures site(i + 1).None? ==> ScrapePage(site, i) == Err(AttributeError)
    ensures ScrapePage(site, i).Ok? ==>
      && site(i + 1).Some? && Otodom.GetListings(site(i + 1).value).Ok?
      && (Otodom.GetListings(site(i + 1).value).value.JArr? ||
          (Otodom.GetListings(site(i + 1).value).value.JStr? && ScrapePage(site, i).value == []))
    ensures ScrapePage(site, i).Ok? && Otodom.GetListings(site(i + 1).value).value.JArr? ==>
      var r := ScrapePage(site, i).value;
      var items := Otodom.GetListings(site(i + 1).value).value.items;
      && |r| == (if |items| == 0 then 0 else |items| - 1)
      && forall k | 0 <= k < |r| :: Otodom.FromOtodomData(items[k]) == Ok(r[k]) && r[k].table == ItemsTable
  {
  }

  /** `scrape`: the summaries of page indices `0..n-1`, in order. */
  function Scrape(site: Crawl.Site, n: nat): Result<seq<ListingItem>, Error> {
    Crawl.Scrape(ScrapePage, site, n)
  }

  /** `scrape_page` at index `i` asks for page number `i + 1` only. */
  lemma ScrapePageReadsNextPage()
    ensures Crawl.ReadsNextPage(ScrapePage)
  {
    forall site: Crawl.Site, site': Crawl.Site, i: nat | site(i + 1) == site'(i + 1)
      ensures ScrapePage(site, i) == ScrapePage(site', i)
    {
    }
  }

  /** `scrape` asks for page numbers `1..n` and nothing else: two sites
      that serve the same payloads for those numbers give the same
      result. */
  lemma ScrapeReadsPagesOneToN(site: Crawl.Site, site': Crawl.Site, n: nat)
    requires forall p | 1 <= p <= n :: site(p) == site'(p)
    ensures Scrape(site, n) == Scrape(site', n)
  {
    ScrapePageReadsNextPage();
    Crawl.ScrapeReadsPagesOneToN(ScrapePage, site, site', n);
  }

  // ---------------------------------------------------------------------
  // update_listings

  /** The loop of `update_listings` over any page reader: examine pages
      `0, 1, ...` in order, saving each page's summaries, and stop right
      after the first page on which every id was already present, or
      after `Pages` pages. `trace` holds the answer of `save_to_db` for
      each examined page; the result is the last of them, `False` when
      the budget ran out, or the error of the page that raised (the pages
      before it stay written). Stored rows are never modified, and the
      tables gain exactly the ids of the pages that were read. */
  method UpdateListingsWith(page: Crawl.PageReader, site: Crawl.Site, db: Db)
    returns (db': Db, result: Result<bool, Error>, trace: seq<bool>)
    ensures |trace| <= Pages
    ensures forall k | 0 <= k < |trace| - 1 :: !trace[k]
    ensures result.Ok? ==> 0 < |trace| && result.value == trace[|trace| - 1]
    ensures result == Ok(false) ==> |trace| == Pages
    ensures result.Err? ==> |trace| < Pages && page(site, |trace|) == Err(result.error)
    ensures result.Err? ==> forall k | 0 <= k < |trace| :: !trace[k]
    ensures Crawl.Scrape(page, site, |trace|).Ok?
    ensures db'.Keys == db.Keys
    ensures var seen := Crawl.Scrape(page, site, |trace|).value;
      forall t | t in db :: db'[t].Keys == db[t].Keys + IdsBefore(seen, |seen|, t)
    ensures forall t, k | t in db && k in db[t] :: db'[t][k] == db[t][k]
  {
    db', result, trace := db, Ok(false), [];
    var seen: seq<ListingItem> := [];
    while |trace| < Pages
      invariant |trace| <= Pages
      invariant forall k | 0 <= k < |trace| :: !trace[k]
      invariant Crawl.Scrape(page, site, |trace|) == Ok(seen)
      invariant StoreInvariant(db, seen, |seen|, db')
      invariant result == Ok(false)
    {
      var chunk := page(site, |trace|);
      if chunk.Err? {
        result := Err(chunk.error);
        return;
      }
      var db'', allPresent := SaveToDb(db', chunk.value);
      StoreInvariantAppend(db, db', db'', seen, chunk.value);
      assert Crawl.Scrape(page, site, |trace| + 1) == Ok(seen + chunk.value);
      db', seen, trace := db'', seen + chunk.value, trace + [allPresent];
      if allPresent {
        result := Ok(true);
        return;
      }
    }
  }

  /** `update_listings`: the loop above, reading the daily search pages
      with `scrape_page`. */
  method UpdateListings(site: Crawl.Site, db: Db) returns (db': Db, result: Result<bool, Error>, trace: seq<bool>)
    ensures |trace| <= Pages
    ensures forall k | 0 <= k < |trace| - 1 :: !trace[k]
    ensures result.Ok? ==> 0 < |trace| && result.value == trace[|trace| - 1]
    ensures result == Ok(false) ==> |trace| == Pages
    ensures result.Err? ==> |trace| < Pages && ScrapePage(site, |trace|) == Err(result.error)
    ensures result.Err? ==> forall k | 0 <= k < |trace| :: !trace[k]
    ensures Scrape(site, |trace|).Ok?
    ensures db'.Keys == db.Keys
    ensures var seen := Scrape(site, |trace|).value;
      forall t | t in db :: db'[t].Keys == db[t].Keys + IdsBefore(seen, |seen|, t)
    ensures forall t, k | t in db && k in db[t] :: db'[t][k] == db[t][k]
  {
    db', result, trace := UpdateListingsWith(ScrapePage, site, db);
  }
}
