/** What the two Otodom crawlers share: the search site as an input, and
    `scrape`, the loop that visits pages `0..n-1` and concatenates what
    each page yields. HTTP, the URL rewriting and the HTML search are
    outside the model: the site is the parsed payload it serves for each
    1-based page number, or nothing when the request fails. */
module Crawl {
  import opened Wrappers
  import opened PyJson
  import opened Records

  /** The parsed payload the search site serves for each page number;
      `None` when the request fails and `query_url_as_human` returns
      `None`. */
  type Site = nat -> Option<Json>

  /** The body of page number `p`: reading the body of the `None` a failed
      request returns (`res.text`, `res.json()`) raises `AttributeError`. */
  function Body(site: Site, p: nat): (r: Result<Json, Error>)
    ensures r.Ok? <==> site(p).Some?
    ensures r.Ok? ==> r.value == site(p).value
    ensures r.Err? ==> r.error == AttributeError
  {
    match site(p)
    case Some(j) => Ok(j)
    case None => Err(AttributeError)
  }

  /** A page-reading step: the summaries of page index `i` of a site, or
      what reading it raised. */
  type PageReader = (Site, nat) -> Result<seq<ListingItem>, Error>

  /** `[x for chunk in chunks for x in chunk]`. */
  function Concat<T>(chunks: seq<seq<T>>): seq<T> {
    if |chunks| == 0 then [] else Concat(chunks[..|chunks| - 1]) + chunks[|chunks| - 1]
  }

  /** `scrape`: extend the list with pages `0..n-1` in order; the first
      page that raises aborts the crawl. */
  function Scrape(page: PageReader, site: Site, n: nat): Result<seq<ListingItem>, Error>
    decreases n
  {
    if n == 0 then Ok([])
    else
      var before :- Scrape(page, site, n - 1);
      var chunk :- page(site, n - 1);
      Ok(before + chunk)
  }

  /** The chunks of pages `0..n-1`, when every one of them reads. */
  function Chunks(page: PageReader, site: Site, n: nat): (r: seq<seq<ListingItem>>)
    requires forall i | 0 <= i < n :: page(site, i).Ok?
    ensures |r| == n && forall i | 0 <= i < n :: r[i] == page(site, i).value
  {
    seq(n, i requires 0 <= i < n => page(site, i).value)
  }

  /** `scrape` succeeds iff every page reads, and then yields the pages'
      summaries concatenated in page order. */
  lemma {:induction false} ScrapeConcatenatesPages(page: PageReader, site: Site, n: nat)
    ensures Scrape(page, site, n).Ok? <==> forall i | 0 <= i < n :: page(site, i).Ok?
    ensures Scrape(page, site, n).Ok? ==> Scrape(page, site, n).value == Concat(Chunks(page, site, n))
    decreases n
  {
    if n > 0 {
      ScrapeConcatenatesPages(page, site, n - 1);
      if Scrape(page, site, n).Ok? {
        var c := Chunks(page, site, n);
        assert c[..n - 1] == Chunks(page, site, n - 1);
        assert Concat(c) == Concat(c[..n - 1]) + c[n - 1];
        assert Scrape(page, site, n).value == Scrape(page, site, n - 1).value + page(site, n - 1).value;
      }
    }
  }

  /** A failed `scrape` reports the error of the first page that raised;
      every page before it read. */
  lemma {:induction false} ScrapeStopsAtFirstError(page: PageReader, site: Site, n: nat)
    requires Scrape(page, site, n).Err?
    ensures exists i | 0 <= i < n ::
      && page(site, i) == Err(Scrape(page, site, n).error)
      && forall j | 0 <= j < i :: page(site, j).Ok?
    decreases n
  {
    if Scrape(page, site, n - 1).Err? {
      ScrapeStopsAtFirstError(page, site, n - 1);
    } else {
      ScrapeConcatenatesPages(page, site, n - 1);
      assert page(site, n - 1) == Err(Scrape(page, site, n).error);
    }
  }

  /** Once a page has raised, every longer crawl raises too. */
  lemma {:induction false} ScrapeErrorPersists(page: PageReader, site: Site, m: nat, n: nat)
    requires m <= n && Scrape(page, site, m).Err?
    ensures Scrape(page, site, n).Err?
    decreases n - m
  {
    if m < n {
      ScrapeErrorPersists(page, site, m, n - 1);
    }
  }

  /** `scrape` reads nothing but page indices `0..n-1`: two sites on
      which those pages read alike give the same result. */
  lemma {:induction false} ScrapeReadsOnlyItsPages(page: PageReader, site: Site, site': Site, n: nat)
    requires forall i | 0 <= i < n :: page(site, i) == page(site', i)
    ensures Scrape(page, site, n) == Scrape(page, site', n)
    decreases n
  {
    if n > 0 {
      ScrapeReadsOnlyItsPages(page, site, site', n - 1);
    }
  }

  /** The page reader asks for page number `i + 1` of the site at page
      index `i`, and for nothing else. */
  ghost predicate ReadsNextPage(page: PageReader) {
    forall site: Site, site': Site, i: nat | site(i + 1) == site'(i + 1) :: page(site, i) == page(site', i)
  }

  /** With such a reader, `scrape` over `n` pages asks for page numbers
      `1..n` and nothing else: two sites that serve the same payloads for
      those numbers give the same result. */
  lemma ScrapeReadsPagesOneToN(page: PageReader, site: Site, site': Site, n: nat)
    requires ReadsNextPage(page)
    requires forall p | 1 <= p <= n :: site(p) == site'(p)
    ensures Scrape(page, site, n) == Scrape(page, site', n)
  {
    forall i | 0 <= i < n
      ensures page(site, i) == page(site', i)
    {
      assert site(i + 1) == site'(i + 1);
    }
    ScrapeReadsOnlyItsPages(page, site, site', n);
  }
}
