/** The loop body of the older crawler's `save_to_db`: every item is
    upserted, present or not, so the last item of a page with a given id
    decides that id's written columns. */
module GetterSave {
  import opened Records
  import opened Store
  import opened PageSave

  /** One `item.to_db(cursor)` whose written columns are `row`: the
      upsert of `row` under the item's id, or nothing when the item's
      table does not exist. */
  function UpsertOne(db: Db, li: ListingItem, row: Row): (r: Db)
    ensures li.table !in db ==> r == db
    ensures li.table in db ==> r.Keys == db.Keys && li.table in r
  {
    if li.table in db then db[li.table := db[li.table][li.listingId := UpsertRow(db[li.table], li.listingId, row)]]
    else db
  }

  /** The store after the loop has run on the first `n` items, item `i`
      writing `rows[i]`. */
  function UpsertUpTo(db: Db, items: seq<ListingItem>, rows: seq<Row>, n: nat): Db
    requires n <= |items| && n <= |rows|
  {
    if n == 0 then db
    else UpsertOne(UpsertUpTo(db, items, rows, n - 1), items[n - 1], rows[n - 1])
  }

  /** The stored row holds every written column but the key, with its
      written value. */
  predicate Holds(stored: Row, w: Row) {
    forall c | c in w && c != KeyColumn :: c in stored && stored[c] == w[c]
  }

  /** The loop invariant: the tables are those of the store before the
      page; each table gains the ids seen so far; a row whose id was not
      seen is as it was; and the row of each id holds the columns its
      last item so far wrote. */
  predicate UpsertInvariant(db: Db, items: seq<ListingItem>, rows: seq<Row>, n: nat, db': Db)
    requires n <= |items| && n <= |rows|
  {
    && db'.Keys == db.Keys
    && (forall t | t in db :: db'[t].Keys == db[t].Keys + IdsBefore(items, n, t))
    && (forall t, k | t in db && k in db[t] && k !in IdsBefore(items, n, t) :: db'[t][k] == db[t][k])
    && (forall i | 0 <= i < n && LastBefore(items, i, n) && items[i].table in db ::
          items[i].listingId in db'[items[i].table] && Holds(db'[items[i].table][items[i].listingId], rows[i]))
  }

  /** The keys after item `n`. */
  lemma UpsertKeysStep(db: Db, items: seq<ListingItem>, rows: seq<Row>, n: nat, db': Db)
    requires n < |items| && n < |rows|
    requires db'.Keys == db.Keys
    requires forall t | t in db :: db'[t].Keys == db[t].Keys + IdsBefore(items, n, t)
    ensures var db'' := UpsertOne(db', items[n], rows[n]);
      && db''.Keys == db.Keys
      && forall t | t in db :: db''[t].Keys == db[t].Keys + IdsBefore(items, n + 1, t)
  {
    var t := items[n].table;
    var id := items[n].listingId;
    var db'' := UpsertOne(db', items[n], rows[n]);
    if t in db' {
      PutRowFacts(db', t, id, UpsertRow(db'[t], id, rows[n]));
    }
    forall t' | t' in db
      ensures db''[t'].Keys == db[t'].Keys + IdsBefore(items, n + 1, t')
    {
      if t' == t {
        assert IdsBefore(items, n + 1, t) == IdsBefore(items, n, t) + {id};
      } else {
        assert IdsBefore(items, n + 1, t') == IdsBefore(items, n, t');
      }
    }
  }

  /** Rows of ids not seen after item `n` are as they were. */
  lemma UpsertUntouchedStep(db: Db, items: seq<ListingItem>, rows: seq<Row>, n: nat, db': Db)
    requires n < |items| && n < |rows|
    requires db'.Keys == db.Keys
    requires forall t | t in db :: db'[t].Keys == db[t].Keys + IdsBefore(items, n, t)
    requires forall t, k | t in db && k in db[t] && k !in IdsBefore(items, n, t) :: db'[t][k] == db[t][k]
    ensures var db'' := UpsertOne(db', items[n], rows[n]);
      forall t, k | t in db && k in db[t] && k !in IdsBefore(items, n + 1, t) :: db''[t][k] == db[t][k]
  {
    var t := items[n].table;
    var id := items[n].listingId;
    var db'' := UpsertOne(db', items[n], rows[n]);
    if t in db' {
      PutRowFacts(db', t, id, UpsertRow(db'[t], id, rows[n]));
    }
    forall t', k | t' in db && k in db[t'] && k !in IdsBefore(items, n + 1, t')
      ensures db''[t'][k] == db[t'][k]
    {
      if t' == t {
        assert IdsBefore(items, n + 1, t) == IdsBefore(items, n, t) + {id};
      } else {
        assert IdsBefore(items, n + 1, t') == IdsBefore(items, n, t');
      }
    }
  }

  /** After item `n`, the row of each id holds what its last item wrote:
      item `n` itself for its id, an earlier item for any other id. */
  lemma UpsertHoldsStep(db: Db, items: seq<ListingItem>, rows: seq<Row>, n: nat, db': Db)
    requires n < |items| && n < |rows|
    requires db'.Keys == db.Keys
    requires forall i | 0 <= i < n && LastBefore(items, i, n) && items[i].table in db ::
      items[i].listingId in db'[items[i].table] && Holds(db'[items[i].table][items[i].listingId], rows[i])
    ensures var db'' := UpsertOne(db', items[n], rows[n]);
      forall i | 0 <= i < n + 1 && LastBefore(items, i, n + 1) && items[i].table in db ::
        items[i].listingId in db''[items[i].table] && Holds(db''[items[i].table][items[i].listingId], rows[i])
  {
    var t := items[n].table;
    var id := items[n].listingId;
    var db'' := UpsertOne(db', items[n], rows[n]);
    if t in db' {
      PutRowFacts(db', t, id, UpsertRow(db'[t], id, rows[n]));
      UpsertRowFacts(db'[t], id, rows[n]);
    }
    forall i | 0 <= i < n + 1 && LastBefore(items, i, n + 1) && items[i].table in db
      ensures items[i].listingId in db''[items[i].table] && Holds(db''[items[i].table][items[i].listingId], rows[i])
    {
      if i < n {
        assert LastBefore(items, i, n);
        assert items[i].listingId != id;
      }
    }
  }

  /** One pass of the loop body keeps the invariant. */
  lemma UpsertStep(db: Db, items: seq<ListingItem>, rows: seq<Row>, n: nat, db': Db)
    requires n < |items| && n < |rows| && UpsertInvariant(db, items, rows, n, db')
    ensures UpsertInvariant(db, items, rows, n + 1, UpsertOne(db', items[n], rows[n]))
  {
    UpsertKeysStep(db, items, rows, n, db');
    UpsertUntouchedStep(db, items, rows, n, db');
    UpsertHoldsStep(db, items, rows, n, db');
  }

  /** Whatever prefix of the page the loop has run on, the store meets the
      loop invariant. */
  lemma {:induction false} UpsertUpToInvariant(db: Db, items: seq<ListingItem>, rows: seq<Row>, n: nat)
    requires n <= |items| && n <= |rows|
    ensures UpsertInvariant(db, items, rows, n, UpsertUpTo(db, items, rows, n))
  {
    if n > 0 {
      var m := n - 1;
      UpsertUpToInvariant(db, items, rows, m);
      assert UpsertUpTo(db, items, rows, m + 1) == UpsertOne(UpsertUpTo(db, items, rows, m), items[m], rows[m]);
      UpsertStep(db, items, rows, m, UpsertUpTo(db, items, rows, m));
    }
  }

  /** A summary always sets its title, so its write is never key-only. */
  lemma ItemHasNonKeyField(li: ListingItem)
    ensures HasNonKeyField(li.ToSaveable())
  {
    var s := li.ToSaveable();
    assert s.fields[1].name != KeyColumn && s.fields[1].value.Some?;
  }

  /** The loop body's step, with the columns a summary writes, is the
      store's own `to_db`: it succeeds exactly when the table exists. */
  lemma UpsertOneIsToDb(db: Db, li: ListingItem)
    ensures var s := li.ToSaveable();
      && UpsertOne(db, li, Written(s)) == ToDb(db, s, false).0
      && (ToDb(db, s, false).1 <==> li.table in db)
  {
    ItemHasNonKeyField(li);
  }

  /** `item.to_db(cursor)`: upsert the item whatever the store holds; the
      answer is not used. The cursor does not fail. */
  method UpsertItem(db: Db, li: ListingItem) returns (db': Db)
    ensures db' == UpsertOne(db, li, NewRow(li))
    ensures db' == ToDb(db, li.ToSaveable(), false).0
  {
    var s := li.ToSaveable();
    UpsertOneIsToDb(db, li);
    db' := ToDb(db, s, false).0;
  }

  /** The `for` loop of `save_to_db`: upsert each item in order. An
      item's upsert writes `rowOf` of it; the crawler's summaries write
      `NewRow`. */
  method UpsertLoop(db: Db, items: seq<ListingItem>, rowOf: ListingItem -> Row) returns (db': Db)
    ensures db' == UpsertUpTo(db, items, MapSeq(rowOf, items), |items|)
  {
    db' := db;
    var n := 0;
    while n < |items|
      invariant n <= |items|
      invariant db' == UpsertUpTo(db, items, MapSeq(rowOf, items), n)
    {
      MapSeqAt(rowOf, items, n);
      db' := UpsertOne(db', items[n], rowOf(items[n]));
      n := n + 1;
    }
  }

  /** After the loop, the row of each id holds every column but the key
      that the last item with that id wrote. */
  lemma UpsertUpToHolds(db: Db, items: seq<ListingItem>, rowOf: ListingItem -> Row)
    ensures var db' := UpsertUpTo(db, items, MapSeq(rowOf, items), |items|);
      && db'.Keys == db.Keys
      && forall i | 0 <= i < |items| && LastBefore(items, i, |items|) && items[i].table in db ::
        items[i].listingId in db'[items[i].table] && Holds(db'[items[i].table][items[i].listingId], rowOf(items[i]))
  {
    var rows := MapSeq(rowOf, items);
    forall i | 0 <= i < |items|
      ensures rows[i] == rowOf(items[i])
    {
      MapSeqAt(rowOf, items, i);
    }
    UpsertUpToInvariant(db, items, rows, |items|);
  }

  /** `save_to_db` of the older crawler: every item is upserted, present or
      not. The tables gain exactly the page's ids; rows of other ids are
      untouched; and the row of each id holds every non-key column of
      the dump of the last item with that id. */
  method SaveToDb(db: Db, items: seq<ListingItem>) returns (db': Db)
    ensures db'.Keys == db.Keys
    ensures forall t | t in db :: db'[t].Keys == db[t].Keys + IdsBefore(items, |items|, t)
    ensures forall t, k | t in db && k in db[t] && k !in IdsBefore(items, |items|, t) :: db'[t][k] == db[t][k]
    ensures forall i | 0 <= i < |items| && LastBefore(items, i, |items|) && items[i].table in db ::
      items[i].listingId in db'[items[i].table] && Holds(db'[items[i].table][items[i].listingId], NewRow(items[i]))
  {
    db' := UpsertLoop(db, items, NewRow);
    UpsertUpToInvariant(db, items, MapSeq(NewRow, items), |items|);
    UpsertUpToHolds(db, items, NewRow);
  }
}

/** The older, fixed-budget Otodom crawler: read the first `Pages` search
    pages of the site's JSON data endpoint and upsert every summary of
    each page before reading the next. */
module Getter {
  import opened Wrappers
  import opened PyJson
  import opened Records
  import opened Store
  import opened PageSave
  import opened GetterSave
  import Otodom
  import Crawl

  /** The page budget of one run. */
  const Pages: nat := 17

  // ---------------------------------------------------------------------
  // get_listings, scrape_page and scrape

  /** `get_listings`: `body["pageProps"]["data"]["searchAds"]["items"]`;
      the data endpoint has no `props` level. */
  function GetListings(body: Json): Result<Json, Error> {
    var pageProps :- Subscript(body, "pageProps");
    var data :- Subscript(pageProps, "data");
    var searchAds :- Subscript(data, "searchAds");
    Subscript(searchAds, "items")
  }

  /** A data-endpoint page carrying `items` where `get_listings` looks. */
  function SearchPage(items: Json): Json {
    JObj(map["pageProps" := JObj(map["data" := JObj(map["searchAds" := JObj(map["items" := items])])])])
  }

  /** `get_listings` finds what the page carries; a payload in the daily
      crawler's layout, with the `props` level, has no `pageProps` key
      and raises `KeyError`. */
  lemma GetListingsOfSearchPage(items: Json)
    ensures GetListings(SearchPage(items)) == Ok(items)
    ensures GetListings(Otodom.SearchPage(items)) == Err(KeyError(JStr("pageProps")))
  {
  }

  /** `scrape_page`: page index `i` asks the site for page number `i + 1`
      and keeps the summary of every search item of that page, in order;
      the first item that cannot be read aborts the page, and a failed
      request aborts it with `AttributeError`. An empty string or dict
      where the list belongs is iterated zero times; any other string
      fails on its first character. */
  function ScrapePage(site: Crawl.Site, i: nat): (r: Result<seq<ListingItem>, Error>)
    ensures site(i + 1).None? ==> r == Err(AttributeError)
    ensures r.Ok? ==>
      && site(i + 1).Some? && GetListings(site(i + 1).value).Ok?
      && (GetListings(site(i + 1).value).value.JArr? ||
          ((GetListings(site(i + 1).value).value == JStr([]) || GetListings(site(i + 1).value).value == EmptyObj) &&
           r.value == []))
  {
    var body :- Crawl.Body(site, i + 1);
    var listings :- GetListings(body);
    var items :- Items(listings);
    Wrappers.MapAll(Otodom.FromOtodomData, items)
  }

  /** A page that reads yields one summary per search item, last item
      included, and it reads iff every item does. */
  lemma ScrapePageKeepsEveryItem(site: Crawl.Site, i: nat)
    ensures site(i + 1).Some? && GetListings(site(i + 1).value).Ok? && GetListings(site(i + 1).value).value.JArr? ==>
      var items := GetListings(site(i + 1).value).value.items;
      (ScrapePage(site, i).Ok? <==> forall k | 0 <= k < |items| :: Otodom.FromOtodomData(items[k]).Ok?)
    ensures ScrapePage(site, i).Ok? && GetListings(site(i + 1).value).value.JArr? ==>
      var r := ScrapePage(site, i).value;
      var items := GetListings(site(i + 1).value).value.items;
      && |r| == |items|
      && forall k | 0 <= k < |r| :: Otodom.FromOtodomData(items[k]) == Ok(r[k]) && r[k].table == ItemsTable
  {
  }

  /** A page of one readable search item yields its summary here, where
      the daily crawler's page drops it. */
  lemma ScrapePageKeepsTheLastItem(site: Crawl.Site, i: nat, li: ListingItem)
    requires Otodom.Encodable(li)
    requires site(i + 1) == Some(SearchPage(JArr([Otodom.OtodomItem(li)])))
    ensures ScrapePage(site, i) == Ok([li])
    ensures Otodom.AllButLast([Otodom.OtodomItem(li)]) == []
  {
    var x := Otodom.OtodomItem(li);
    Otodom.FromOtodomDataRoundTrip(li);
    GetListingsOfSearchPage(JArr([x]));
    Wrappers.MapAllSingle(Otodom.FromOtodomData, x);
  }

  /** `scrape`: the summaries of page indices `0..n-1`, in order. */
  function Scrape(site: Crawl.Site, n: nat): Result<seq<ListingItem>, Error> {
    Crawl.Scrape(ScrapePage, site, n)
  }

  /** `scrape_page` at index `i` asks for page number `i + 1` only. */
  lemma ScrapePageReadsNextPage()
    ensures Crawl.ReadsNextPage(ScrapePage)
  {
    forall site: Crawl.Site, site': Crawl.Site, i: nat | site(i + 1) == site'(i + 1)
      ensures ScrapePage(site, i) == ScrapePage(site', i)
    {
    }
  }

  /** `scrape` asks for page numbers `1..n` and nothing else. */
  lemma ScrapeReadsPagesOneToN(site: Crawl.Site, site': Crawl.Site, n: nat)
    requires forall p | 1 <= p <= n :: site(p) == site'(p)
    ensures Scrape(site, n) == Scrape(site', n)
  {
    ScrapePageReadsNextPage();
    Crawl.ScrapeReadsPagesOneToN(ScrapePage, site, site', n);
  }

  // ---------------------------------------------------------------------
  // main

  /** The loop of `main` over any page reader: read pages `0..Pages-1` in
      order and save each before reading the next; there is no early
      stop, and a page that raises ends the run with its error (the pages
      before it stay written). `visited` counts the pages read. */
  method RunWith(page: Crawl.PageReader, site: Crawl.Site, db: Db) returns (db': Db, result: Result<(), Error>, visited: nat)
    ensures result.Ok? <==> visited == Pages
    ensures result.Ok? <==> Crawl.Scrape(page, site, Pages).Ok?
    ensures visited <= Pages && Crawl.Scrape(page, site, visited).Ok?
    ensures result.Err? ==> page(site, visited) == Err(result.error)
    ensures db'.Keys == db.Keys
    ensures var seen := Crawl.Scrape(page, site, visited).value;
      forall t | t in db :: db'[t].Keys == db[t].Keys + IdsBefore(seen, |seen|, t)
  {
    db', result, visited := db, Ok(()), 0;
    var seen: seq<ListingItem> := [];
    while visited < Pages
      invariant visited <= Pages
      invariant Crawl.Scrape(page, site, visited) == Ok(seen)
      invariant db'.Keys == db.Keys
      invariant forall t | t in db :: db'[t].Keys == db[t].Keys + IdsBefore(seen, |seen|, t)
    {
      var chunk := page(site, visited);
      if chunk.Err? {
        result := Err(chunk.error);
        Crawl.ScrapeErrorPersists(page, site, visited + 1, Pages);
        return;
      }
      var db'' := SavePage(db, db', seen, chunk.value);
      assert Crawl.Scrape(page, site, visited + 1) == Ok(seen + chunk.value);
      db', seen, visited := db'', seen + chunk.value, visited + 1;
    }
  }

  /** The loop body's `save_to_db` of the page just read: the tables,
      grown so far by the ids of the pages before it, grow by its ids. */
  method SavePage(db: Db, db': Db, seen: seq<ListingItem>, items: seq<ListingItem>) returns (db'': Db)
    requires db'.Keys == db.Keys
    requires forall t | t in db :: db'[t].Keys == db[t].Keys + IdsBefore(seen, |seen|, t)
    ensures db''.Keys == db.Keys
    ensures forall t | t in db :: db''[t].Keys == db[t].Keys + IdsBefore(seen + items, |seen + items|, t)
  {
    db'' := SaveToDb(db', items);
    KeysAppend(db, db', db'', seen, items);
  }

  /** Saving one page after another grows every table by the ids of both. */
  lemma KeysAppend(db: Db, db1: Db, db2: Db, a: seq<ListingItem>, b: seq<ListingItem>)
    requires db1.Keys == db.Keys && db2.Keys == db1.Keys
    requires forall t | t in db :: db1[t].Keys == db[t].Keys + IdsBefore(a, |a|, t)
    requires forall t | t in db1 :: db2[t].Keys == db1[t].Keys + IdsBefore(b, |b|, t)
    ensures forall t | t in db :: db2[t].Keys == db[t].Keys + IdsBefore(a + b, |a + b|, t)
  {
    forall t | t in db
      ensures db2[t].Keys == db[t].Keys + IdsBefore(a + b, |a + b|, t)
    {
      TableKeysAppend(db[t].Keys, db1[t].Keys, db2[t].Keys, a, b, t);
    }
  }

  /** `main`: the loop above, reading the data-endpoint pages with
      `scrape_page`. */
  method Run(site: Crawl.Site, db: Db) returns (db': Db, result: Result<(), Error>, visited: nat)
    ensures result.Ok? <==> visited == Pages
    ensures result.Ok? <==> Scrape(site, Pages).Ok?
    ensures visited <= Pages && Scrape(site, visited).Ok?
    ensures result.Err? ==> ScrapePage(site, visited) == Err(result.error)
    ensures db'.Keys == db.Keys
    ensures var seen := Scrape(site, visited).value;
      forall t | t in db :: db'[t].Keys == db[t].Keys + IdsBefore(seen, |seen|, t)
  {
    db', result, visited := RunWith(ScrapePage, site, db);
  }
}
