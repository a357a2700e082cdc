/** The enrichment and liveness passes of `helpers/extractor.py`, over the
    records of `helpers/models.py` (integer ids, a gone marker without a
    source tag).

    The network and the AI client are inputs. A `Fetch` gives, for a URL,
    the parsed JSON of the page's last `<script>`, or `None` when the
    request failed; an `AiClient` gives the reply to the prompt built from
    a text, for a model name and an attempt number (0 for the first call
    of `extract_ai_info`, 1 for its retry). A pass does not read the store:
    it emits the records it hands to `to_db`, in order, and `Commit`
    applies them. Sleeping and progress bars are not modelled. */
module Extractor {
  import opened Wrappers
  import opened PyJson
  import opened Records
  import opened Store
  import Otodom

  type Fetch = string -> Option<Json>

  /** What the AI client returns: a response whose `parsed` field holds
      the structured answer (or `None`), or a raised error with its
      `status` attribute, when it has one. */
  datatype AiReply = AiOk(parsed: Option<AIMetadata>) | AiFail(status: Option<string>)

  type AiClient = (string, string, nat) -> AiReply

  const FirstModel: string := "gemini-2.0-flash"
  const LiteModel: string := "gemini-2.0-flash-lite"
  const ResourceExhausted: string := "RESOURCE_EXHAUSTED"

  // ---------------------------------------------------------------------
  // extract_info

  /** `extract_info`: no body means the listing is gone; so does the
      search-results page the site serves for a removed ad; any other page
      is parsed into the detail record. The gone marker carries the
      looked-up id, the detail record the ad's own. */
  function ExtractInfo(listingId: Value, body: Option<Json>, libs: Libs): (r: Result<Detail, Error>)
    ensures body.None? ==> r == Ok(Gone(ListingGone(listingId, None)))
    ensures body.Some? && Otodom.IsSearchPage(body.value) == Ok(true) ==> r == Ok(Gone(ListingGone(listingId, None)))
    ensures r.Ok? && r.value.Gone? <==> body.None? || Otodom.IsSearchPage(body.value) == Ok(true)
    ensures r.Ok? && r.value.Found? ==> Otodom.ParseAd(body.value, IntKey, None, libs) == Ok(r.value.info)
    ensures body.Some? && Otodom.IsSearchPage(body.value) == Ok(false) ==>
      (r.Ok? <==> Otodom.ParseAd(body.value, IntKey, None, libs).Ok?)
  {
    match body
    case None => Ok(Gone(ListingGone(listingId, None)))
    case Some(info) =>
      var gone :- Otodom.IsSearchPage(info);
      if gone then Ok(Gone(ListingGone(listingId, None)))
      else
        var detail :- Otodom.ParseAd(info, IntKey, None, libs);
        Ok(Found(detail))
  }

  /** `extract_info` and the Otodom adapter's detail parser agree on which
      pages mean a removed listing, and on the gone marker's id; only the
      marker's source tag differs. */
  lemma ExtractInfoGoneAsOtodomParser(listingId: Value, info: Json, city: string, libs: Libs)
    ensures ExtractInfo(listingId, Some(info), libs).Ok? && ExtractInfo(listingId, Some(info), libs).value.Gone?
      <==> Otodom.DetailFromText(info, listingId, city, libs).Ok? && Otodom.DetailFromText(info, listingId, city, libs).value.Gone?
    ensures ExtractInfo(listingId, Some(info), libs).Ok? && ExtractInfo(listingId, Some(info), libs).value.Gone? ==>
      && ExtractInfo(listingId, Some(info), libs).value.marker.listingId == listingId
      && Otodom.DetailFromText(info, listingId, city, libs).value.marker.listingId == listingId
  {
  }

  // ---------------------------------------------------------------------
  // extract_ai_info

  /** The handler of a failed first call: wait and pick the model of the
      second call. A rate-limit status keeps the model and waits a
      minute; any other status switches to the lite model after a
      second; an error without a `status` attribute makes `getattr`
      raise. */
  function RetryPlan(status: Option<string>): (r: Result<(string, nat), Error>)
    ensures r.Err? <==> status.None?
    ensures r.Err? ==> r.error == AttributeError
    ensures r.Ok? ==> (r.value.0 == FirstModel <==> status.value == ResourceExhausted)
    ensures r.Ok? ==> (r.value.1 == 60 <==> status.value == ResourceExhausted)
    ensures r.Ok? && status.value != ResourceExhausted ==> r.value == (LiteModel, 1)
  {
    match status
    case None => Err(AttributeError)
    case Some(s) => if s == ResourceExhausted then Ok((FirstModel, 60)) else Ok((LiteModel, 1))
  }

  /** The AI record of a successful reply: `from_ai_metadata` of its
      parsed answer; a reply without one raises. */
  function AiInfoOf(parsed: Option<AIMetadata>, listingId: Value, now: string): (r: Result<AIInfo, Error>)
    ensures r.Ok? <==> parsed.Some?
    ensures r.Err? ==> r.error == AttributeError
    ensures r.Ok? ==> r.value.Metadata() == parsed.value && r.value.listingId == listingId && r.value.updatedAt == Some(now)
  {
    match parsed
    case None => Err(AttributeError)
    case Some(m) => Ok(FromAiMetadata(m, listingId, "", now))
  }

  /** One run of `extract_ai_info`: its result, the models it called in
      order, and the delays it slept between calls. */
  datatype AiRun = AiRun(result: Result<AIInfo, Error>, models: seq<string>, delays: seq<nat>)

  /** `extract_ai_info`: call the first model; on failure, follow the
      retry plan and call once more; a second failure propagates. */
  function ExtractAiInfo(listingId: Value, content: string, ai: AiClient, now: string): (r: AiRun)
    ensures 1 <= |r.models| <= 2 && r.models[0] == FirstModel && |r.delays| == |r.models| - 1
    ensures ai(content, FirstModel, 0).AiOk? ==> r.result == AiInfoOf(ai(content, FirstModel, 0).parsed, listingId, now)
  {
    match ai(content, FirstModel, 0)
    case AiOk(parsed) => AiRun(AiInfoOf(parsed, listingId, now), [FirstModel], [])
    case AiFail(status) =>
      match RetryPlan(status)
      case Err(e) => AiRun(Err(e), [FirstModel], [])
      case Ok(plan) =>
        match ai(content, plan.0, 1)
        case AiOk(parsed) => AiRun(AiInfoOf(parsed, listingId, now), [FirstModel, plan.0], [plan.1])
        case AiFail(again) => AiRun(Err(AiError(again)), [FirstModel, plan.0], [plan.1])
  }

  /** The retry policy: the call is retried at most once, and exactly when
      the first call raised an error carrying a status; a rate limit
      waits 60 seconds and keeps the model, anything else waits one
      second and switches to the lite model; the result is that of the
      last call, and a second failure is reported with its status. */
  lemma RetriedAtMostOnce(listingId: Value, content: string, ai: AiClient, now: string)
    ensures var r := ExtractAiInfo(listingId, content, ai, now);
      var first := ai(content, FirstModel, 0);
      && (|r.models| == 2 <==> first.AiFail? && first.status.Some?)
      && (first.AiFail? && first.status.None? ==> r.result == Err(AttributeError))
      && (|r.models| == 2 && first.status.value == ResourceExhausted ==> r.models[1] == FirstModel && r.delays == [60])
      && (|r.models| == 2 && first.status.value != ResourceExhausted ==> r.models[1] == LiteModel && r.delays == [1])
      && (|r.models| == 2 ==>
            var second := ai(content, r.models[1], 1);
            && (second.AiOk? ==> r.result == AiInfoOf(second.parsed, listingId, now))
            && (second.AiFail? ==> r.result == Err(AiError(second.status))))
  {
  }

  /** A successful run stamps the looked-up id and `now`, and carries the
      answer of the call that succeeded. */
  lemma AiRunResult(listingId: Value, content: string, ai: AiClient, now: string)
    ensures var r := ExtractAiInfo(listingId, content, ai, now);
      r.result.Ok? ==>
        var last := ai(content, r.models[|r.models| - 1], |r.models| - 1);
        && last.AiOk? && last.parsed == Some(r.result.value.Metadata())
        && r.result.value.listingId == listingId && r.result.value.updatedAt == Some(now)
  {
  }

  // ---------------------------------------------------------------------
  // Writes and the passes' common loop

  /** A record handed to `to_db`. */
  datatype Write = WriteDetail(detail: Detail) | WriteAi(info: AIInfo)
  {
    function ToSaveable(): (s: Saveable)
      ensures WellFormed(s)
    {
      match this
      case WriteDetail(d) => d.ToSaveable()
      case WriteAi(info) => info.ToSaveable()
    }
  }

  /** The records the writes send. */
  function Sent(writes: seq<Write>): (r: seq<Saveable>)
    ensures |r| == |writes| && forall i | 0 <= i < |writes| :: r[i] == writes[i].ToSaveable() && WellFormed(r[i])
  {
    seq(|writes|, i requires 0 <= i < |writes| => writes[i].ToSaveable())
  }

  /** The store after the records, each sent with `to_db` on a cursor that
      does not fail; its answer is not used. */
  function CommitAll(db: Db, ss: seq<Saveable>): Db
    requires forall i | 0 <= i < |ss| :: WellFormed(ss[i])
  {
    if |ss| == 0 then db
    else ToDb(CommitAll(db, ss[..|ss| - 1]), ss[|ss| - 1], false).0
  }

  /** The store after the writes. */
  function Commit(db: Db, writes: seq<Write>): Db {
    CommitAll(db, Sent(writes))
  }

  /** What one backlog entry produced: the writes it made, in order, and
      the error that aborted the pass, if any. */
  datatype Outcome = Outcome(error: Option<Error>, writes: seq<Write>)

  /** The writes of the first `n` entries, when none of them fails. */
  function WritesOf<T>(entries: seq<T>, step: T -> Outcome, n: nat): seq<Write>
    requires n <= |entries|
  {
    if n == 0 then [] else WritesOf(entries, step, n - 1) + step(entries[n - 1]).writes
  }

  /** A pass over the first `n` entries: each entry's step in order; an
      error aborts the loop, and the writes before it stay made. */
  function RunPass<T>(entries: seq<T>, step: T -> Outcome, n: nat): Outcome
    requires n <= |entries|
  {
    if n == 0 then Outcome(None, [])
    else
      var prev := RunPass(entries, step, n - 1);
      if prev.error.Some? then prev
      else
        var o := step(entries[n - 1]);
        Outcome(o.error, prev.writes + o.writes)
  }

  /** A pass succeeds iff every step does, and then makes every step's
      writes, in entry order. */
  lemma {:induction false} RunPassSucceeds<T>(entries: seq<T>, step: T -> Outcome, n: nat)
    requires n <= |entries|
    ensures RunPass(entries, step, n).error.None? <==> forall i | 0 <= i < n :: step(entries[i]).error.None?
    ensures RunPass(entries, step, n).error.None? ==> RunPass(entries, step, n).writes == WritesOf(entries, step, n)
  {
    if n > 0 {
      RunPassSucceeds(entries, step, n - 1);
    }
  }

  /** A failed pass reports the error of the first failing entry, after
      the writes of every entry before it and that entry's own. */
  lemma {:induction false} RunPassStopsAtFirstError<T>(entries: seq<T>, step: T -> Outcome, n: nat)
    requires n <= |entries| && RunPass(entries, step, n).error.Some?
    ensures exists k | 0 <= k < n ::
      && (forall j | 0 <= j < k :: step(entries[j]).error.None?)
      && step(entries[k]).error == RunPass(entries, step, n).error
      && RunPass(entries, step, n).writes == WritesOf(entries, step, k) + step(entries[k]).writes
  {
    var m := n - 1;
    if RunPass(entries, step, m).error.Some? {
      RunPassStopsAtFirstError(entries, step, m);
    } else {
      RunPassSucceeds(entries, step, m);
      assert step(entries[m]).error == RunPass(entries, step, n).error;
    }
  }

  // ---------------------------------------------------------------------
  // process_missing_metadata

  /** A backlog row: the listing's id and its URL. */
  type Slug = (Value, string)

  /** One iteration of `process_missing_metadata`: fetch the page, write
      the detail record or the gone marker, and, for a detail record
      only, write the AI facts extracted from its raw JSON. */
  function EnrichOne(entry: Slug, fetch: Fetch, ai: AiClient, now: string, libs: Libs): (o: Outcome)
    ensures ExtractInfo(entry.0, fetch(entry.1), libs).Err? ==>
      o == Outcome(Some(ExtractInfo(entry.0, fetch(entry.1), libs).error), [])
    ensures ExtractInfo(entry.0, fetch(entry.1), libs).Ok? ==>
      var d := ExtractInfo(entry.0, fetch(entry.1), libs).value;
      && 1 <= |o.writes| && o.writes[0] == WriteDetail(d)
      && (d.Gone? ==> o == Outcome(None, [WriteDetail(d)]))
      && (d.Found? ==>
            var a := ExtractAiInfo(entry.0, d.info.rawInfo, ai, now).result;
            && (a.Ok? ==> o == Outcome(None, [WriteDetail(d), WriteAi(a.value)]))
            && (a.Err? ==> o == Outcome(Some(a.error), [WriteDetail(d)])))
  {
    match ExtractInfo(entry.0, fetch(entry.1), libs)
    case Err(e) => Outcome(Some(e), [])
    case Ok(d) =>
      if d.Gone? then Outcome(None, [WriteDetail(d)])
      else
        match ExtractAiInfo(entry.0, d.info.rawInfo, ai, now).result
        case Ok(info) => Outcome(None, [WriteDetail(d), WriteAi(info)])
        case Err(e) => Outcome(Some(e), [WriteDetail(d)])
  }

  /** `process_missing_metadata`: one enrichment per backlog row, in
      order; the backlog itself is returned. */
  function ProcessMissingMetadata(urls: seq<Slug>, fetch: Fetch, ai: AiClient, now: string, libs: Libs)
    : (r: (Result<seq<Slug>, Error>, seq<Write>))
    ensures r.0.Ok? ==> r.0.value == urls
  {
    var o := RunPass(urls, (e: Slug) => EnrichOne(e, fetch, ai, now, libs), |urls|);
    match o.error
    case Some(e) => (Err(e), o.writes)
    case None => (Ok(urls), o.writes)
  }

  /** On success every backlog row made exactly its own writes, in order:
      its detail record or gone marker, followed by AI facts iff it was
      not gone. */
  lemma ProcessMissingMetadataWrites(urls: seq<Slug>, fetch: Fetch, ai: AiClient, now: string, libs: Libs)
    ensures var r := ProcessMissingMetadata(urls, fetch, ai, now, libs);
      var step := (e: Slug) => EnrichOne(e, fetch, ai, now, libs);
      && (r.0.Ok? <==> forall i | 0 <= i < |urls| :: step(urls[i]).error.None?)
      && (r.0.Ok? ==> r.1 == WritesOf(urls, step, |urls|))
  {
    RunPassSucceeds(urls, (e: Slug) => EnrichOne(e, fetch, ai, now, libs), |urls|);
  }

  // ---------------------------------------------------------------------
  // process_missing_ai_metadata

  /** A backlog row of the AI-only pass: id, URL and the stored raw JSON. */
  type RawSlug = (Value, string, string)

  /** One iteration of `process_missing_ai_metadata`: extract the AI facts
      from the stored raw JSON and write them. No page is fetched. */
  function BackfillOne(entry: RawSlug, ai: AiClient, now: string): (o: Outcome)
    ensures var a := ExtractAiInfo(entry.0, entry.2, ai, now).result;
      && (a.Ok? ==> o == Outcome(None, [WriteAi(a.value)]))
      && (a.Err? ==> o == Outcome(Some(a.error), []))
  {
    match ExtractAiInfo(entry.0, entry.2, ai, now).result
    case Ok(info) => Outcome(None, [WriteAi(info)])
    case Err(e) => Outcome(Some(e), [])
  }

  /** `[x[:2] for x in urls]`. */
  function Prefixes(urls: seq<RawSlug>): (r: seq<Slug>)
    ensures |r| == |urls| && forall i | 0 <= i < |urls| :: r[i] == (urls[i].0, urls[i].1)
  {
    seq(|urls|, i requires 0 <= i < |urls| => (urls[i].0, urls[i].1))
  }

  /** `process_missing_ai_metadata`: one AI extraction and write per
      backlog row, in order; the rows' (id, URL) prefixes are returned. */
  function ProcessMissingAiMetadata(urls: seq<RawSlug>, ai: AiClient, now: string)
    : (r: (Result<seq<Slug>, Error>, seq<Write>))
    ensures r.0.Ok? ==> r.0.value == Prefixes(urls)
  {
    var o := RunPass(urls, (e: RawSlug) => BackfillOne(e, ai, now), |urls|);
    match o.error
    case Some(e) => (Err(e), o.writes)
    case None => (Ok(Prefixes(urls)), o.writes)
  }

  /** The AI-only pass writes only AI facts: one per row, in row order,
      each for the row's own id, when it succeeds. */
  lemma {:induction false} BackfillWritesOnlyAi(urls: seq<RawSlug>, ai: AiClient, now: string, n: nat)
    requires n <= |urls|
    ensures var step := (e: RawSlug) => BackfillOne(e, ai, now);
      RunPass(urls, step, n).error.None? ==>
        var w := RunPass(urls, step, n).writes;
        |w| == n && forall i | 0 <= i < n :: w[i].WriteAi? && w[i].info.listingId == urls[i].0
  {
    if n > 0 {
      var step := (e: RawSlug) => BackfillOne(e, ai, now);
      BackfillWritesOnlyAi(urls, ai, now, n - 1);
      if RunPass(urls, step, n).error.None? {
        var a := ExtractAiInfo(urls[n - 1].0, urls[n - 1].2, ai, now).result;
        assert a.Ok?;
        AiRunResult(urls[n - 1].0, urls[n - 1].2, ai, now);
      }
    }
  }

  // ---------------------------------------------------------------------
  // check_alive

  /** The ids whose fetch answered, in backlog order. */
  function AliveIds(urls: seq<Slug>, fetch: Fetch): seq<Value> {
    if |urls| == 0 then []
    else AliveIds(urls[..|urls| - 1], fetch) + (if fetch(urls[|urls| - 1].1).Some? then [urls[|urls| - 1].0] else [])
  }

  /** The ids whose fetch failed, in backlog order. */
  function DeadIds(urls: seq<Slug>, fetch: Fetch): seq<Value> {
    if |urls| == 0 then []
    else DeadIds(urls[..|urls| - 1], fetch) + (if fetch(urls[|urls| - 1].1).None? then [urls[|urls| - 1].0] else [])
  }

  /** The gone markers of `ids`, in order. */
  function GoneWrites(ids: seq<Value>): (w: seq<Write>)
    ensures |w| == |ids| && forall i | 0 <= i < |ids| :: w[i] == WriteDetail(Gone(ListingGone(ids[i], None)))
  {
    seq(|ids|, i requires 0 <= i < |ids| => WriteDetail(Gone(ListingGone(ids[i], None))))
  }

  /** `check_alive`: fetch every backlog row; a row whose fetch fails is
      marked gone and its id listed as dead, any other id is listed as
      alive. */
  method CheckAlive(urls: seq<Slug>, fetch: Fetch) returns (alive: seq<Value>, dead: seq<Value>, writes: seq<Write>)
    ensures alive == AliveIds(urls, fetch) && dead == DeadIds(urls, fetch)
    ensures writes == GoneWrites(dead)
  {
    alive, dead, writes := [], [], [];
    var n := 0;
    while n < |urls|
      invariant n <= |urls|
      invariant alive == AliveIds(urls[..n], fetch) && dead == DeadIds(urls[..n], fetch)
      invariant writes == GoneWrites(dead)
    {
      var (listingId, url) := urls[n];
      assert urls[..n + 1][..n] == urls[..n];
      if fetch(url).None? {
        writes := writes + [WriteDetail(Gone(ListingGone(listingId, None)))];
        dead := dead + [listingId];
      } else {
        alive := alive + [listingId];
      }
      n := n + 1;
    }
    assert urls[..n] == urls;
  }

  /** The alive and dead lists split the backlog's ids: each row's id is
      in exactly the list its fetch decides, and together they hold as
      many ids as the backlog has rows. */
  lemma {:induction false} AliveDeadPartition(urls: seq<Slug>, fetch: Fetch)
    ensures |AliveIds(urls, fetch)| + |DeadIds(urls, fetch)| == |urls|
    ensures forall v :: v in DeadIds(urls, fetch) <==> exists i | 0 <= i < |urls| :: urls[i].0 == v && fetch(urls[i].1).None?
    ensures forall v :: v in AliveIds(urls, fetch) <==> exists i | 0 <= i < |urls| :: urls[i].0 == v && fetch(urls[i].1).Some?
  {
    if |urls| > 0 {
      var m := |urls| - 1;
      var init := urls[..m];
      AliveDeadPartition(init, fetch);
      assert forall i | 0 <= i < m :: init[i] == urls[i];
    }
  }

  /** One write keeps the set of tables. */
  lemma ToDbKeepsTables(db: Db, s: Saveable)
    requires WellFormed(s)
    ensures ToDb(db, s, false).0.Keys == db.Keys
  {
  }

  /** One write that does not fail adds its key to its table, when that
      table exists. */
  lemma ToDbAddsKey(db: Db, s: Saveable)
    requires WellFormed(s) && s.table in db
    ensures ToDb(db, s, false).0[s.table].Keys == db[s.table].Keys + {KeyOf(s)}
  {
  }

  /** One write leaves every table but its own alone. */
  lemma ToDbKeepsOtherTables(db: Db, s: Saveable, u: string)
    requires WellFormed(s) && u in db && u != s.table
    ensures u in ToDb(db, s, false).0 && ToDb(db, s, false).0[u] == db[u]
  {
  }

  /** Committing records keeps the set of tables. */
  lemma {:induction false} CommitKeepsTables(db: Db, ss: seq<Saveable>)
    requires forall i | 0 <= i < |ss| :: WellFormed(ss[i])
    ensures CommitAll(db, ss).Keys == db.Keys
  {
    if |ss| > 0 {
      CommitKeepsTables(db, ss[..|ss| - 1]);
      ToDbKeepsTables(CommitAll(db, ss[..|ss| - 1]), ss[|ss| - 1]);
    }
  }

  /** Committing records that all go to table `t` leaves every other
      table alone. */
  lemma {:induction false} CommitKeepsOtherTables(db: Db, ss: seq<Saveable>, t: string, u: string)
    requires forall i | 0 <= i < |ss| :: WellFormed(ss[i]) && ss[i].table == t
    requires u in db && u != t
    ensures u in CommitAll(db, ss) && CommitAll(db, ss)[u] == db[u]
  {
    if |ss| > 0 {
      CommitKeepsOtherTables(db, ss[..|ss| - 1], t, u);
      ToDbKeepsOtherTables(CommitAll(db, ss[..|ss| - 1]), ss[|ss| - 1], u);
    }
  }

  /** The keys of the records. */
  function KeySet(ss: seq<Saveable>): set<Value>
    requires forall i | 0 <= i < |ss| :: WellFormed(ss[i])
  {
    if |ss| == 0 then {} else KeySet(ss[..|ss| - 1]) + {KeyOf(ss[|ss| - 1])}
  }

  /** `KeySet` holds exactly the records' keys. */
  lemma {:induction false} KeySetMembers(ss: seq<Saveable>)
    requires forall i | 0 <= i < |ss| :: WellFormed(ss[i])
    ensures forall v :: v in KeySet(ss) <==> exists i | 0 <= i < |ss| :: KeyOf(ss[i]) == v
  {
    if |ss| > 0 {
      var m := |ss| - 1;
      KeySetMembers(ss[..m]);
      assert forall i | 0 <= i < m :: ss[..m][i] == ss[i];
    }
  }

  /** Committing records that all go to one existing table adds their
      keys to it, whether each key was there before or not. */
  lemma {:induction false} CommitAddsKeys(db: Db, ss: seq<Saveable>, t: string)
    requires t in db
    requires forall i | 0 <= i < |ss| :: WellFormed(ss[i]) && ss[i].table == t
    ensures t in CommitAll(db, ss) && CommitAll(db, ss)[t].Keys == db[t].Keys + KeySet(ss)
  {
    if |ss| > 0 {
      var m := |ss| - 1;
      CommitAddsKeys(db, ss[..m], t);
      AddsKeyStep(CommitAll(db, ss[..m]), ss[m], db[t].Keys + KeySet(ss[..m]));
    }
  }

  /** The step of `CommitAddsKeys`. */
  lemma AddsKeyStep(prev: Db, s: Saveable, before: set<Value>)
    requires WellFormed(s) && s.table in prev && prev[s.table].Keys == before
    ensures s.table in ToDb(prev, s, false).0 && ToDb(prev, s, false).0[s.table].Keys == before + {KeyOf(s)}
  {
    ToDbAddsKey(prev, s);
    ToDbKeepsTables(prev, s);
  }

  /** The gone markers of `ids` are records of the irrelevant-listings
      table keyed by those ids. */
  lemma GoneMarkerKeys(ids: seq<Value>)
    ensures var ss := Sent(GoneWrites(ids));
      && (forall i | 0 <= i < |ss| :: ss[i].table == GoneTable)
      && KeySet(ss) == set v | v in ids
  {
    var ss := Sent(GoneWrites(ids));
    assert |ss| == |ids|;
    forall i | 0 <= i < |ss|
      ensures ss[i].table == GoneTable && KeyOf(ss[i]) == ids[i]
    {
      assert ss[i] == ListingGone(ids[i], None).ToSaveable();
    }
    KeySetMembers(ss);
  }

  /** Committing gone markers leaves every listed id in the
      irrelevant-listings table, whether it was there before (the
      key-only insert then fails) or not, and touches no other table. */
  lemma GoneMarkersCommitted(db: Db, ids: seq<Value>)
    requires GoneTable in db
    ensures var db' := Commit(db, GoneWrites(ids));
      && db'.Keys == db.Keys
      && db'[GoneTable].Keys == db[GoneTable].Keys + (set v | v in ids)
      && forall t | t in db && t != GoneTable :: db'[t] == db[t]
  {
    var ss := Sent(GoneWrites(ids));
    GoneMarkerKeys(ids);
    CommitAddsKeys(db, ss, GoneTable);
    CommitKeepsTables(db, ss);
    forall t | t in db && t != GoneTable
      ensures Commit(db, GoneWrites(ids))[t] == db[t]
    {
      CommitKeepsOtherTables(db, ss, GoneTable, t);
    }
  }
}
