/** The OLX adapter: the search-results normaliser that turns the offers of
    a page's schema.org `Product` scripts into listing summaries, and the
    opening steps of the OLX detail parser (finding the `Product` data and
    reading the pets parameter). A page is given as its `<script>`
    elements, each with its text and the parsed JSON of its content; the
    HTML search and `json.loads` are outside the model. */
module Olx {
  import opened Wrappers
  import opened Text
  import opened PyJson
  import opened Records

  // ---------------------------------------------------------------------
  // parse_site_data

  /** `"-".join(url.split("-")[-2:]).split(".")[0]`: the last two
      `-`-separated pieces of the URL, cut at the first `.`. */
  function OfferId(url: string): (r: string)
    ensures '.' !in r
  {
    var pieces := Split(url, '-');
    var lastTwo := if |pieces| >= 2 then pieces[|pieces| - 2..] else pieces;
    BeforeFirst(Join(lastTwo, '-'), '.')
  }

  /** `url.split("/")[-1].split(".")[0]`: the last path segment, cut at
      its first `.`. */
  function Slug(url: string): (r: string)
    ensures '.' !in r && '/' !in r
  {
    var last := AfterLast(url, '/');
    var r := BeforeFirst(last, '.');
    assert forall c | c in r :: c in last;
    r
  }

  /** The summary an OLX offer becomes. `ListingItemOLX` declares only the
      base fields, so the `district_specific` it is given is dropped. */
  function Summary(id: string, title: string, slug: string, rent: Option<real>, district: Option<string>): ListingItem {
    ListingItem(OlxItemsTable, VStr(id), title, slug, rent, None, None, None, None, None, district, None, None)
  }

  /** `ListingItemOLX.parse_site_data`: the summary of one schema.org
      offer. The id and slug come from the offer URL, the title from
      `name`, the rent from `price`, and the district from
      `areaServed.name` (`None` when `areaServed` is absent). */
  function ParseSiteData(offer: Json): (r: Result<ListingItem, Error>)
    ensures r.Ok? ==> offer.JObj? && "url" in offer.fields && offer.fields["url"].JStr?
    ensures r.Ok? ==>
      var url := offer.fields["url"].s;
      && r.value.listingId == VStr(OfferId(url))
      && r.value.slug == Slug(url)
      && "name" in offer.fields && offer.fields["name"] == JStr(r.value.title)
      && "price" in offer.fields && OptFloatField("rent_price", offer.fields["price"]) == Ok(r.value.rentPrice)
      && r.value.table == OlxItemsTable
      && r.value.districtSpecific == None
    ensures r.Ok? && "areaServed" !in offer.fields ==> r.value.district == None
    ensures offer.JObj? && "url" !in offer.fields ==> r == Err(KeyError(JStr("url")))
  {
    var urlValue :- Subscript(offer, "url");
    var url :- StrValue(urlValue);
    var name :- Subscript(offer, "name");
    var price :- Subscript(offer, "price");
    var district :- Get(AreaServed(offer.fields), "name");
    // pydantic validation, in field declaration order
    var title :- StrField("title", name);
    var rent :- OptFloatField("rent_price", price);
    var districtText :- OptStrField("district", district);
    Ok(Summary(OfferId(url), title, Slug(url), rent, districtText))
  }

  /** `offer.get("areaServed", {})`. */
  function AreaServed(fields: map<string, Json>): Json {
    if "areaServed" in fields then fields["areaServed"] else EmptyObj
  }

  /** A string's methods on anything else raise `AttributeError`. */
  function StrValue(j: Json): (r: Result<string, Error>)
    ensures r.Ok? <==> j.JStr?
    ensures r.Ok? ==> r.value == j.s
    ensures r.Err? ==> r.error == AttributeError
  {
    match j
    case JStr(s) => Ok(s)
    case _ => Err(AttributeError)
  }

  /** An offer URL: a path ending in a segment `name-a-b.ext`. */
  function OfferUrl(path: string, name: string, a: string, b: string, ext: string): string {
    path + "/" + name + "-" + a + "-" + b + "." + ext
  }

  /** The pieces of an offer URL that its parts may not contain. */
  predicate UrlParts(name: string, a: string, b: string, ext: string) {
    && '/' !in name && '.' !in name
    && '/' !in a && '.' !in a && '-' !in a
    && '/' !in b && '.' !in b && '-' !in b
    && '/' !in ext && '-' !in ext
  }

  /** The offer id is the last two dash-separated pieces of the final path
      segment, without the extension. */
  lemma OfferIdOfUrl(path: string, name: string, a: string, b: string, ext: string)
    requires UrlParts(name, a, b, ext)
    ensures OfferId(OfferUrl(path, name, a, b, ext)) == a + "-" + b
  {
    var url := OfferUrl(path, name, a, b, ext);
    var head := path + "/" + name;
    var c := b + "." + ext;
    assert '-' !in c;
    assert url == head + ['-'] + (a + ['-'] + c);
    SplitOfLastTwo(head, a, c, '-');
    var pieces := Split(url, '-');
    assert pieces[|pieces| - 2..] == [a, c];
    assert Join([a, c], '-') == (a + ['-'] + b) + ['.'] + ext;
    BeforeFirstOfPrefix(a + ['-'] + b, ext, '.');
  }

  /** The slug is the final path segment without the extension. */
  lemma SlugOfUrl(path: string, name: string, a: string, b: string, ext: string)
    requires UrlParts(name, a, b, ext)
    ensures Slug(OfferUrl(path, name, a, b, ext)) == name + "-" + a + "-" + b
  {
    var url := OfferUrl(path, name, a, b, ext);
    var segment := name + "-" + a + "-" + b + "." + ext;
    assert '/' !in segment;
    assert url == (path + "/") + segment;
    AfterLastOfSuffix(path + "/", segment, '/');
    BeforeFirstOfPrefix(name + "-" + a + "-" + b, ext, '.');
    assert segment == (name + "-" + a + "-" + b) + ['.'] + ext;
  }

  function OptRealJson(x: Option<real>): Json {
    match x
    case Some(r) => JFloat(r)
    case None => JNull
  }

  /** The schema.org offer OLX publishes for a listing. */
  function OfferJson(url: string, title: string, rent: Option<real>, district: Option<string>): Json {
    var fields := map["url" := JStr(url), "name" := JStr(title), "price" := OptRealJson(rent)];
    JObj(if district.Some? then fields["areaServed" := JObj(map["name" := JStr(district.value)])] else fields)
  }

  /** The fields of a published offer, as `parse_site_data` looks them
      up. */
  lemma OfferJsonFields(url: string, title: string, rent: Option<real>, district: Option<string>)
    ensures var offer := OfferJson(url, title, rent, district);
      && offer.JObj?
      && Subscript(offer, "url") == Ok(JStr(url))
      && Subscript(offer, "name") == Ok(JStr(title))
      && Subscript(offer, "price") == Ok(OptRealJson(rent))
      && AreaServed(offer.fields) == if district.Some? then JObj(map["name" := JStr(district.value)]) else EmptyObj
  {
  }

  /** The published forms of the rent and the district validate back to
      the values they publish. */
  lemma OfferValuesValidate(rent: Option<real>, district: Option<string>)
    ensures OptFloatField("rent_price", OptRealJson(rent)) == Ok(rent)
    ensures var area := if district.Some? then JObj(map["name" := JStr(district.value)]) else EmptyObj;
      && Get(area, "name").Ok?
      && OptStrField("district", Get(area, "name").value) == Ok(district)
  {
  }

  /** `parse_site_data` of an offer whose fields hold a URL, a title, a
      rent and an area in their published forms. */
  lemma ParseSiteDataOfParts(offer: Json, url: string, title: string, rent: Option<real>, district: Option<string>)
    requires offer.JObj?
    requires Subscript(offer, "url") == Ok(JStr(url))
    requires Subscript(offer, "name") == Ok(JStr(title))
    requires Subscript(offer, "price") == Ok(OptRealJson(rent))
    requires AreaServed(offer.fields) == if district.Some? then JObj(map["name" := JStr(district.value)]) else EmptyObj
    ensures ParseSiteData(offer) == Ok(Summary(OfferId(url), title, Slug(url), rent, district))
  {
    OfferValuesValidate(rent, district);
  }

  /** `parse_site_data` reads a published offer back: the id and slug are
      recovered from the URL and every other field is carried over. */
  lemma ParseSiteDataOfOffer(path: string, name: string, a: string, b: string, ext: string,
                             title: string, rent: Option<real>, district: Option<string>)
    requires UrlParts(name, a, b, ext)
    ensures ParseSiteData(OfferJson(OfferUrl(path, name, a, b, ext), title, rent, district)) ==
      Ok(Summary(a + "-" + b, title, name + "-" + a + "-" + b, rent, district))
  {
    var url := OfferUrl(path, name, a, b, ext);
    OfferIdOfUrl(path, name, a, b, ext);
    SlugOfUrl(path, name, a, b, ext);
    OfferJsonFields(url, title, rent, district);
    ParseSiteDataOfParts(OfferJson(url, title, rent, district), url, title, rent, district);
  }

  // ---------------------------------------------------------------------
  // from_text

  /** A `<script>` element: its text, and the parsed JSON of its content
      (`None` when the content is not JSON). */
  datatype Script = Script(text: string, content: Option<Json>)

  /** The marker of a schema.org `Product` script. */
  const ProductMarker: string := "\"@type\":\"Product\""

  predicate IsProduct(s: Script) {
    IsSubstring(ProductMarker, s.text)
  }

  /** `json.loads(str(elem.next))`: malformed JSON raises `ValueError`. */
  function LoadJson(s: Script): (r: Result<Json, Error>)
    ensures r.Ok? <==> s.content.Some?
    ensures r.Ok? ==> r.value == s.content.value
    ensures r.Err? ==> r.error == ValueError
  {
    match s.content
    case Some(j) => Ok(j)
    case None => Err(ValueError)
  }

  /** The elements `for offer in data["offers"]["offers"]` visits in a
      script. */
  function ScriptOffers(s: Script): (r: Result<seq<Json>, Error>)
    ensures r.Ok? ==> LoadJson(s).Ok?
  {
    var data :- LoadJson(s);
    var offers :- Subscript(data, "offers");
    var inner :- Subscript(offers, "offers");
    Items(inner)
  }

  /** `ListingItemOLX.from_text`: the summaries of the offers of every
      `Product` script, scripts in page order and offers in script order;
      other scripts are never parsed. */
  function FromText(scripts: seq<Script>): (r: Result<seq<ListingItem>, Error>)
    ensures (forall i | 0 <= i < |scripts| :: !IsProduct(scripts[i])) ==> r == Ok([])
    ensures r.Ok? ==> forall i | 0 <= i < |r.value| :: r.value[i].table == OlxItemsTable
  {
    if |scripts| == 0 then Ok([])
    else if !IsProduct(scripts[0]) then
      assert forall i | 1 <= i < |scripts| :: scripts[i] == scripts[1..][i - 1];
      FromText(scripts[1..])
    else
      var offers :- ScriptOffers(scripts[0]);
      var head :- MapAll(ParseSiteData, offers);
      var tail :- FromText(scripts[1..]);
      Ok(head + tail)
  }

  /** Reference reading: the offers of all `Product` scripts, in order. */
  function ProductOffers(scripts: seq<Script>): Result<seq<Json>, Error> {
    if |scripts| == 0 then Ok([])
    else if !IsProduct(scripts[0]) then ProductOffers(scripts[1..])
    else
      var offers :- ScriptOffers(scripts[0]);
      var tail :- ProductOffers(scripts[1..]);
      Ok(offers + tail)
  }

  /** When every `Product` script carries offers a `for` loop can visit,
      `from_text` is `parse_site_data` applied to the offers in page
      order: summary `i` is the summary of offer `i`, and the first offer
      that cannot be read aborts the page. */
  lemma {:induction false} FromTextParsesProductOffers(scripts: seq<Script>)
    requires ProductOffers(scripts).Ok?
    ensures FromText(scripts) == MapAll(ParseSiteData, ProductOffers(scripts).value)
  {
    if |scripts| > 0 {
      FromTextParsesProductOffers(scripts[1..]);
      if IsProduct(scripts[0]) {
        var offers := ScriptOffers(scripts[0]).value;
        MapAllAppend(ParseSiteData, offers, ProductOffers(scripts[1..]).value);
      }
    }
  }

  /** The other half: a page where some `Product` script is not JSON or
      has no `offers.offers` a `for` loop can visit (a list, a string, or
      an empty dict) cannot be read, whatever the offers before it hold. */
  lemma {:induction false} FromTextFailsWithProductOffers(scripts: seq<Script>)
    requires ProductOffers(scripts).Err?
    ensures FromText(scripts).Err?
  {
    if IsProduct(scripts[0]) {
      if ScriptOffers(scripts[0]).Ok? && MapAll(ParseSiteData, ScriptOffers(scripts[0]).value).Ok? {
        FromTextFailsWithProductOffers(scripts[1..]);
      }
    } else {
      FromTextFailsWithProductOffers(scripts[1..]);
    }
  }

  // ---------------------------------------------------------------------
  // The detail parser's opening steps

  /** The label the pets parameter is found by, exactly as the source
      spells it: the UTF-8 bytes of "Zwierzęta" read as Windows-1252
      (cp1252). */
  const PetsLabel: string := "Zwierz\U{00C4}\U{2122}ta: "

  predicate IsAsciiLetter(c: char) {
    ('a' <= c <= 'z') || ('A' <= c <= 'Z')
  }

  /** The longest run of ASCII letters starting at `j` (`[a-zA-Z]+` is
      greedy). */
  function LetterRun(s: string, j: nat): (r: string)
    requires j <= |s|
    ensures j + |r| <= |s| && s[j..j + |r|] == r
    ensures forall k | 0 <= k < |r| :: IsAsciiLetter(r[k])
    ensures j + |r| < |s| ==> !IsAsciiLetter(s[j + |r|])
    decreases |s| - j
  {
    if j < |s| && IsAsciiLetter(s[j]) then [s[j]] + LetterRun(s, j + 1) else []
  }

  /** The pattern `label([a-zA-Z]+)` matches at `i`. */
  predicate MatchAt(s: string, i: nat) {
    OccursAt(s, PetsLabel, i) && i + |PetsLabel| < |s| && IsAsciiLetter(s[i + |PetsLabel|])
  }

  /** The leftmost position at or after `i` where the pattern matches. */
  function FirstMatchFrom(s: string, i: nat): (r: Option<nat>)
    requires i <= |s|
    ensures r.Some? ==> i <= r.value <= |s| && MatchAt(s, r.value)
    decreases |s| - i
  {
    if MatchAt(s, i) then Some(i)
    else if i == |s| then None
    else FirstMatchFrom(s, i + 1)
  }

  /** The search finds nothing iff the pattern matches nowhere from `i` on;
      what it finds is a match with none before it. */
  lemma {:induction false} FirstMatchFromIsLeftmost(s: string, i: nat)
    requires i <= |s|
    ensures FirstMatchFrom(s, i).None? <==> forall k | i <= k <= |s| :: !MatchAt(s, k)
    ensures FirstMatchFrom(s, i).Some? ==> forall m | i <= m < FirstMatchFrom(s, i).value :: !MatchAt(s, m)
    decreases |s| - i
  {
    if !MatchAt(s, i) && i < |s| {
      FirstMatchFromIsLeftmost(s, i + 1);
    }
  }

  /** `re.findall(pattern, s)[0]`: the group of the leftmost match, `None`
      when `findall` returns an empty list. */
  function Capture(s: string): Option<string> {
    match FirstMatchFrom(s, 0)
    case Some(k) => Some(LetterRun(s, k + |PetsLabel|))
    case None => None
  }

  /** The capture is absent iff the pattern matches nowhere; otherwise it
      is the non-empty letter run after the leftmost occurrence of the
      label that is followed by a letter. */
  lemma CaptureIsLeftmost(s: string)
    ensures Capture(s).None? <==> forall k | 0 <= k <= |s| :: !MatchAt(s, k)
    ensures Capture(s).Some? ==> exists k | 0 <= k <= |s| ::
      && MatchAt(s, k)
      && (forall m | 0 <= m < k :: !MatchAt(s, m))
      && Capture(s).value == LetterRun(s, k + |PetsLabel|)
      && |Capture(s).value| > 0
  {
    FirstMatchFromIsLeftmost(s, 0);
  }

  /** The letter run at `j` is exactly a word of letters that is followed
      by a non-letter or the end of the text. */
  lemma {:induction false} LetterRunOfWord(s: string, j: nat, w: string)
    requires j + |w| <= |s| && s[j..j + |w|] == w
    requires forall k | 0 <= k < |w| :: IsAsciiLetter(w[k])
    requires j + |w| < |s| ==> !IsAsciiLetter(s[j + |w|])
    ensures LetterRun(s, j) == w
    decreases |w|
  {
    if |w| > 0 {
      assert s[j] == w[0];
      assert s[j + 1..j + 1 + |w[1..]|] == w[1..];
      LetterRunOfWord(s, j + 1, w[1..]);
      assert [w[0]] + w[1..] == w;
    }
  }

  /** A parameter that starts with the label and a word captures that
      word. */
  lemma CaptureOfLabelledWord(w: string, rest: string)
    requires |w| > 0 && forall k | 0 <= k < |w| :: IsAsciiLetter(w[k])
    requires |rest| > 0 ==> !IsAsciiLetter(rest[0])
    ensures Capture(PetsLabel + w + rest) == Some(w)
  {
    var s := PetsLabel + w + rest;
    assert s[..|PetsLabel|] == PetsLabel;
    assert OccursAt(s, PetsLabel, 0);
    assert s[|PetsLabel|..|PetsLabel| + |w|] == w;
    if |rest| > 0 {
      assert s[|PetsLabel| + |w|] == rest[0];
    }
    LetterRunOfWord(s, |PetsLabel|, w);
    assert MatchAt(s, 0);
    assert FirstMatchFrom(s, 0) == Some(0);
  }

  /** One iteration of the loop over the parameters: a matching parameter
      overwrites the flag with "its word is `Tak`". */
  function Step(flag: Option<bool>, p: string): (r: Option<bool>)
    ensures Capture(p).None? ==> r == flag
    ensures Capture(p).Some? ==> r == Some(Capture(p).value == "Tak")
  {
    match Capture(p)
    case Some(w) => Some(w == "Tak")
    case None => flag
  }

  /** The loop over the parameters, from the flag it starts with. */
  function PetsLoop(params: seq<string>, flag: Option<bool>): Option<bool> {
    if |params| == 0 then flag else PetsLoop(params[1..], Step(flag, params[0]))
  }

  function PetsFlag(params: seq<string>): Option<bool> {
    PetsLoop(params, None)
  }

  /** Reference reading: the position of the last of the first `n`
      parameters that matches. */
  function LastMatchBefore(params: seq<string>, n: nat): (r: Option<nat>)
    requires n <= |params|
    ensures r.Some? ==> r.value < n && Capture(params[r.value]).Some?
  {
    if n == 0 then None
    else if Capture(params[n - 1]).Some? then Some(n - 1)
    else LastMatchBefore(params, n - 1)
  }

  /** The search finds nothing iff none of the first `n` parameters
      matches. */
  lemma {:induction false} LastMatchBeforeNone(params: seq<string>, n: nat)
    requires n <= |params|
    ensures LastMatchBefore(params, n).None? <==> forall i | 0 <= i < n :: Capture(params[i]).None?
  {
    if n > 0 && Capture(params[n - 1]).None? {
      LastMatchBeforeNone(params, n - 1);
    }
  }

  /** What the search finds has no match after it among the first `n`
      parameters. */
  lemma {:induction false} LastMatchBeforeSome(params: seq<string>, n: nat)
    requires n <= |params|
    ensures LastMatchBefore(params, n).Some? ==>
      forall j | LastMatchBefore(params, n).value < j < n :: Capture(params[j]).None?
  {
    if n > 0 && Capture(params[n - 1]).None? {
      LastMatchBeforeSome(params, n - 1);
    }
  }

  /** The search finds nothing iff none of the first `n` parameters
      matches; what it finds has no match after it. */
  lemma LastMatchBeforeIsLast(params: seq<string>, n: nat)
    requires n <= |params|
    ensures LastMatchBefore(params, n).None? <==> forall i | 0 <= i < n :: Capture(params[i]).None?
    ensures LastMatchBefore(params, n).Some? ==>
      forall j | LastMatchBefore(params, n).value < j < n :: Capture(params[j]).None?
  {
    LastMatchBeforeNone(params, n);
    LastMatchBeforeSome(params, n);
  }

  /** The loop run over one more parameter ends with one more step. */
  lemma {:induction false} PetsLoopSnoc(params: seq<string>, p: string, flag: Option<bool>)
    ensures PetsLoop(params + [p], flag) == Step(PetsLoop(params, flag), p)
    decreases |params|
  {
    if |params| == 0 {
      assert ([] + [p])[1..] == [];
    } else {
      assert (params + [p])[1..] == params[1..] + [p];
      PetsLoopSnoc(params[1..], p, Step(flag, params[0]));
    }
  }

  /** Over the first `n` parameters the loop leaves the word of the last
      match, or the flag it started with when nothing matches. */
  lemma {:induction false} PetsLoopIsLastMatch(params: seq<string>, n: nat, flag: Option<bool>)
    requires n <= |params|
    ensures PetsLoop(params[..n], flag) ==
      match LastMatchBefore(params, n)
      case Some(i) => Some(Capture(params[i]).value == "Tak")
      case None => flag
    decreases n
  {
    if n == 0 {
      assert params[..0] == [];
    } else {
      assert params[..n] == params[..n - 1] + [params[n - 1]];
      PetsLoopSnoc(params[..n - 1], params[n - 1], flag);
      PetsLoopIsLastMatch(params, n - 1, flag);
    }
  }

  /** The pets flag is `None` when no parameter matches; otherwise the
      last matching parameter decides, and it is `True` iff its word is
      `Tak`. */
  lemma PetsFlagIsLastMatch(params: seq<string>)
    ensures PetsFlag(params).None? <==> forall i | 0 <= i < |params| :: Capture(params[i]).None?
    ensures PetsFlag(params).Some? ==> exists i | 0 <= i < |params| ::
      && Capture(params[i]).Some?
      && (PetsFlag(params).value <==> Capture(params[i]).value == "Tak")
      && forall j | i < j < |params| :: Capture(params[j]).None?
  {
    PetsLoopIsLastMatch(params, |params|, None);
    LastMatchBeforeIsLast(params, |params|);
    assert params[..|params|] == params;
  }

  /** The loop over the parameters as the module is written: `re` is never
      imported, so the first iteration's `re.findall` raises `NameError`.
      Only an empty container gets through, with no flag, which is also
      what the intended loop gives it. */
  function PetsFlagAsWritten(params: seq<string>): (r: Result<Option<bool>, Error>)
    ensures r.Ok? <==> |params| == 0
    ensures r.Ok? ==> r.value == PetsFlag(params)
    ensures r.Err? ==> r.error == NameError
  {
    if |params| == 0 then Ok(None) else Err(NameError)
  }

  /** A single parameter `Zwierzęta: <word>` shows the gap: as written the
      loop raises, where the intended loop reads the word. */
  lemma PetsFlagAsWrittenRaises(w: string, rest: string)
    requires |w| > 0 && forall k | 0 <= k < |w| :: IsAsciiLetter(w[k])
    requires |rest| > 0 ==> !IsAsciiLetter(rest[0])
    ensures PetsFlagAsWritten([PetsLabel + w + rest]) == Err(NameError)
    ensures PetsFlag([PetsLabel + w + rest]) == Some(w == "Tak")
  {
    var p := PetsLabel + w + rest;
    CaptureOfLabelledWord(w, rest);
    assert [p][1..] == [];
    assert PetsLoop([p], None) == PetsLoop([], Step(None, p));
  }

  /** The first `Product` script, as the detail parser's `for`/`else`
      finds it; without one it raises `ValueError`. */
  function FirstProduct(scripts: seq<Script>): (r: Result<Json, Error>)
    ensures (forall i | 0 <= i < |scripts| :: !IsProduct(scripts[i])) ==> r == Err(ValueError)
    ensures r.Ok? ==> exists i | 0 <= i < |scripts| ::
      && IsProduct(scripts[i]) && scripts[i].content == Some(r.value)
      && forall j | 0 <= j < i :: !IsProduct(scripts[j])
  {
    if |scripts| == 0 then Err(ValueError)
    else if IsProduct(scripts[0]) then LoadJson(scripts[0])
    else
      assert forall i | 1 <= i < |scripts| :: scripts[i] == scripts[1..][i - 1];
      FirstProduct(scripts[1..])
  }

  /** What `ListingAdditionalInfoOLX.from_text` computes before building the
      record: the `Product` data and the pets flag. `parameters` is the
      text of each `<p>` of the ad-parameters container, `None` when the
      page has no such container. */
  function DetailPrelude(scripts: seq<Script>, parameters: Option<seq<string>>): (r: Result<(Json, Option<bool>), Error>)
    ensures (forall i | 0 <= i < |scripts| :: !IsProduct(scripts[i])) ==> r == Err(ValueError)
    ensures FirstProduct(scripts).Ok? && parameters.None? ==> r == Err(AttributeError)
    ensures r.Ok? <==> FirstProduct(scripts).Ok? && parameters.Some?
    ensures r.Ok? ==> r.value.0 == FirstProduct(scripts).value && r.value.1 == PetsFlag(parameters.value)
  {
    var data :- FirstProduct(scripts);
    match parameters
    case None => Err(AttributeError)
    case Some(params) => Ok((data, PetsFlag(params)))
  }

  /** `DetailPrelude` as the module is written: an ad with any parameter
      raises `NameError` in the pets loop; only a page whose container
      holds no `<p>` gets the intended result. */
  function DetailPreludeAsWritten(scripts: seq<Script>, parameters: Option<seq<string>>): (r: Result<(Json, Option<bool>), Error>)
    ensures r.Ok? <==> DetailPrelude(scripts, parameters).Ok? && parameters.value == []
    ensures r.Ok? ==> r == DetailPrelude(scripts, parameters)
    ensures FirstProduct(scripts).Ok? && parameters.Some? && |parameters.value| > 0 ==> r == Err(NameError)
  {
    var data :- FirstProduct(scripts);
    match parameters
    case None => Err(AttributeError)
    case Some(params) =>
      var flag :- PetsFlagAsWritten(params);
      Ok((data, flag))
  }
}
