/**
 * The two paginators: the Eventbrite crawl over numbered result pages
 * (`crawl_event_pages`) and the Yelp Fusion search over offsets
 * (`get_yelp_offset_number`, `get_restaurant_information`). Both fetch every
 * page through the cached gateway.
 */
module Paging {
  import opened Outcomes
  import opened Text
  import opened Keys
  import opened Cache
  import opened Events

  // ---------------------------------------------------------------------
  // Eventbrite pages
  // ---------------------------------------------------------------------

  /** `state_event_crawling_numbers`: how many Michigan result pages the run crawls. */
  const StateEventCrawlingNumbers: nat := 52

  /**
   * The URL fetched at iteration `i` of the crawl: the base URL first, then
   * `?page=` with `i + 1`, since the loop variable is incremented before the
   * URL is built. `?page=1` is never asked for.
   */
  function PageUrl(base: string, i: nat): string
  {
    if i == 0 then base else base + "?page=" + NatToString(i + 1)
  }

  /** The requests of `crawl_event_pages(base, count)`: no parameters, no headers; `range` of a negative count is empty. */
  function PageRequests(base: string, count: int): seq<Request>
  {
    seq(if count < 0 then 0 else count, i requires 0 <= i => Request(PageUrl(base, i), [], map[]))
  }

  /** The page query never names page 1. */
  lemma PageUrlNeverFirst(base: string, i: nat)
    ensures PageUrl(base, i) != base + "?page=1"
  {
    if i > 0 {
      var prefix := base + "?page=";
      var digits := NatToString(i + 1);
      if |digits| == 1 {
        assert digits == [Digit(i + 1)];
      }
      assert digits != "1";
      assert (prefix + digits)[|prefix|..] == digits;
      assert (prefix + "1")[|prefix|..] == "1";
    }
  }

  /** Different iterations of the crawl fetch different URLs. */
  lemma PageUrlsDistinct(base: string, i: nat, j: nat)
    requires i != j
    ensures PageUrl(base, i) != PageUrl(base, j)
  {
    if i > 0 && j > 0 && PageUrl(base, i) == PageUrl(base, j) {
      var prefix := base + "?page=";
      assert PageUrl(base, i)[|prefix|..] == NatToString(i + 1);
      assert PageUrl(base, j)[|prefix|..] == NatToString(j + 1);
      NatToStringInjective(i + 1, j + 1);
    }
  }

  /** A request without parameters is cached under its URL alone. */
  lemma PageKey(base: string, i: nat)
    ensures RequestKey(Request(PageUrl(base, i), [], map[])) == PageUrl(base, i)
  {
    assert UniqueKey(PageUrl(base, i), []) == PageUrl(base, i);
  }

  /** The first three URLs of a crawl. */
  lemma PageUrlsExample()
    ensures [PageUrl("u/", 0), PageUrl("u/", 1), PageUrl("u/", 2)] == ["u/", "u/?page=2", "u/?page=3"]
  {
    assert Digit(2) == '2' && Digit(3) == '3';
    assert NatToString(2) == "2" && NatToString(3) == "3";
    assert PageUrl("u/", 1) == "u/" + "?page=" + "2" == "u/?page=2";
    assert PageUrl("u/", 2) == "u/" + "?page=" + "3" == "u/?page=3";
  }

  /**
   * The run's own crawl of `state_event_crawling_numbers` pages asks for 52
   * pages, the base URL first and `?page=52` last.
   */
  lemma StateCrawlPages(base: string)
    ensures var reqs := PageRequests(base, StateEventCrawlingNumbers);
            && |reqs| == 52
            && reqs[0] == Request(base, [], map[])
            && reqs[51] == Request(base + "?page=52", [], map[])
  {
    assert Digit(5) == '5' && Digit(2) == '2';
    assert NatToString(5) == "5";
    assert NatToString(52) == "5" + "2" == "52";
  }

  /**
   * The pages `reqs` handled one after another by `get_event_information`,
   * from the gateway snapshot `st` and the lists `c`: each page is one cached
   * fetch whose body `parse` turns into cards and calendar texts. The first
   * page that raises ends the crawl with its error.
   */
  function Crawl(network: Request -> Reply, st: Snapshot, c: Columns, reqs: seq<Request>, parse: Json -> Page, now: Clock)
    : (Snapshot, Appended)
    decreases |reqs|
  {
    if reqs == [] then (st, Appended(c, Ok(())))
    else
      var before := Crawl(network, st, c, reqs[..|reqs| - 1], parse, now);
      if before.1.outcome.Err? then before
      else
        var call := Call(network, before.0, reqs[|reqs| - 1]);
        (call.0, AddPage(before.1.table, parse(call.1), now))
  }

  /** One more page after a crawl. */
  lemma CrawlSnoc(network: Request -> Reply, st: Snapshot, c: Columns, reqs: seq<Request>, q: Request,
                  parse: Json -> Page, now: Clock)
    ensures var before := Crawl(network, st, c, reqs, parse, now);
            var call := Call(network, before.0, q);
            Crawl(network, st, c, reqs + [q], parse, now)
            == if before.1.outcome.Err? then before else (call.0, AddPage(before.1.table, parse(call.1), now))
  {
    assert (reqs + [q])[..|reqs|] == reqs;
  }

  /** After a page raises, the crawl fetches nothing more and keeps that error. */
  lemma {:induction false} CrawlStopped(network: Request -> Reply, st: Snapshot, c: Columns, reqs: seq<Request>,
                                        parse: Json -> Page, now: Clock, n: nat)
    requires n <= |reqs| && Crawl(network, st, c, reqs[..n], parse, now).1.outcome.Err?
    ensures Crawl(network, st, c, reqs, parse, now) == Crawl(network, st, c, reqs[..n], parse, now)
    decreases |reqs|
  {
    if n < |reqs| {
      var init := reqs[..|reqs| - 1];
      assert init[..n] == reqs[..n];
      CrawlStopped(network, st, c, init, parse, now, n);
    } else {
      assert reqs[..n] == reqs;
    }
  }

  /**
   * A crawl in which no page raises fetches exactly what the run of its
   * requests fetches, and adds what those bodies add.
   */
  lemma {:induction false} CrawlRunsEveryPage(network: Request -> Reply, st: Snapshot, c: Columns, reqs: seq<Request>,
                                              parse: Json -> Page, now: Clock)
    requires Crawl(network, st, c, reqs, parse, now).1.outcome.Ok?
    ensures var run := Run(network, st, reqs);
            Crawl(network, st, c, reqs, parse, now) == (run.0, AddPages(c, run.1, parse, now))
    decreases |reqs|
  {
    if reqs != [] {
      var init := reqs[..|reqs| - 1];
      CrawlRunsEveryPage(network, st, c, init, parse, now);
      var run := Run(network, st, reqs);
      assert run.1[..|run.1| - 1] == Run(network, st, init).1;
    }
  }

  /**
   * The rest of a crawl: from the gateway snapshot `st` and what the pages so
   * far appended (`app`), the pages `reqs` still to visit, front to back. An
   * exception already raised ends it at once.
   */
  function CrawlFrom(network: Request -> Reply, st: Snapshot, app: Appended, reqs: seq<Request>,
                     parse: Json -> Page, now: Clock): (Snapshot, Appended)
    decreases |reqs|
  {
    if reqs == [] || app.outcome.Err? then (st, app)
    else
      var call := Call(network, st, reqs[0]);
      CrawlFrom(network, call.0, AddPage(app.table, parse(call.1), now), reqs[1..], parse, now)
  }

  /** The rest of a crawl followed by one more page. */
  lemma {:induction false} CrawlFromSnoc(network: Request -> Reply, st: Snapshot, app: Appended, reqs: seq<Request>,
                                         q: Request, parse: Json -> Page, now: Clock)
    ensures var before := CrawlFrom(network, st, app, reqs, parse, now);
            var call := Call(network, before.0, q);
            CrawlFrom(network, st, app, reqs + [q], parse, now)
            == if before.1.outcome.Err? then before else (call.0, AddPage(before.1.table, parse(call.1), now))
    decreases |reqs|
  {
    if reqs != [] && app.outcome.Ok? {
      var call := Call(network, st, reqs[0]);
      assert (reqs + [q])[0] == reqs[0];
      assert (reqs + [q])[1..] == reqs[1..] + [q];
      CrawlFromSnoc(network, call.0, AddPage(app.table, parse(call.1), now), reqs[1..], q, parse, now);
    } else if reqs == [] {
      assert reqs + [q] == [q];
    }
  }

  /** Visiting the pages front to back from the start is the crawl. */
  lemma {:induction false} CrawlFromStart(network: Request -> Reply, st: Snapshot, c: Columns, reqs: seq<Request>,
                                          parse: Json -> Page, now: Clock)
    ensures CrawlFrom(network, st, Appended(c, Ok(())), reqs, parse, now) == Crawl(network, st, c, reqs, parse, now)
    decreases |reqs|
  {
    if reqs != [] {
      var init := reqs[..|reqs| - 1];
      CrawlFromStart(network, st, c, init, parse, now);
      CrawlFromSnoc(network, st, Appended(c, Ok(())), init, reqs[|reqs| - 1], parse, now);
      assert init + [reqs[|reqs| - 1]] == reqs;
    }
  }

  /** With no pages left, the rest of a crawl is where it stands. */
  lemma CrawlFromDone(network: Request -> Reply, st: Snapshot, app: Appended, reqs: seq<Request>,
                      parse: Json -> Page, now: Clock)
    requires reqs == []
    ensures CrawlFrom(network, st, app, reqs, parse, now) == (st, app)
  {
  }

  /** One page of the rest of a crawl. */
  lemma CrawlFromStep(network: Request -> Reply, st: Snapshot, t: Columns, reqs: seq<Request>, i: nat,
                      parse: Json -> Page, now: Clock)
    requires i < |reqs|
    ensures var call := Call(network, st, reqs[i]);
            CrawlFrom(network, st, Appended(t, Ok(())), reqs[i..], parse, now)
            == CrawlFrom(network, call.0, AddPage(t, parse(call.1), now), reqs[i + 1..], parse, now)
  {
    assert reqs[i..][0] == reqs[i];
    assert reqs[i..][1..] == reqs[i + 1..];
  }

  /**
   * `crawl_event_pages(url, count)`: run `get_event_information` on `count`
   * pages in order: the base URL, then `?page=2`, `?page=3`, ... An exception
   * from a page ends the crawl there, with that page's partial rows kept.
   */
  method CrawlEventPages(g: FetchGateway, events: EventLists, url: string, count: int, parse: Json -> Page, now: Clock)
    returns (r: Result<()>)
    requires g.Valid()
    modifies g, events
    ensures g.Valid()
    ensures CrawlFrom(g.network, old(g.State()), Appended(old(events.Table()), Ok(())), PageRequests(url, count), parse, now)
            == (g.State(), Appended(events.Table(), r))
    ensures g.sent == old(g.sent) ==> g.disk == old(g.disk)
  {
    var n := if count < 0 then 0 else count;
    ghost var reqs := PageRequests(url, count);
    ghost var goal := CrawlFrom(g.network, g.State(), Appended(events.Table(), Ok(())), reqs, parse, now);
    ghost var sent, disk := g.sent, g.disk;
    for i := 0 to n
      invariant g.Valid()
      invariant CrawlFrom(g.network, g.State(), Appended(events.Table(), Ok(())), reqs[i..], parse, now) == goal
      invariant |g.sent| >= |sent| && (|g.sent| == |sent| ==> g.sent == sent && g.disk == disk)
    {
      r := CrawlPage(g, events, url, i, reqs, goal, parse, now);
      if r.Err? {
        return;
      }
    }
    CrawlFromDone(g.network, g.State(), Appended(events.Table(), Ok(())), reqs[n..], parse, now);
    r := Ok(());
  }

  /**
   * Iteration `i` of the crawl loop: `get_event_information` on the base URL
   * first; after that the loop variable is incremented and put in the `page`
   * query.
   */
  method CrawlPage(g: FetchGateway, events: EventLists, url: string, i: nat, ghost reqs: seq<Request>,
                   ghost goal: (Snapshot, Appended), parse: Json -> Page, now: Clock)
    returns (r: Result<()>)
    requires g.Valid() && i < |reqs| && reqs[i] == Request(PageUrl(url, i), [], map[])
    requires CrawlFrom(g.network, g.State(), Appended(events.Table(), Ok(())), reqs[i..], parse, now) == goal
    modifies g, events
    ensures g.Valid()
    ensures r.Ok? ==> CrawlFrom(g.network, g.State(), Appended(events.Table(), Ok(())), reqs[i + 1..], parse, now) == goal
    ensures r.Err? ==> goal == (g.State(), Appended(events.Table(), r))
    ensures |g.sent| >= |old(g.sent)| && (|g.sent| == |old(g.sent)| ==> g.sent == old(g.sent) && g.disk == old(g.disk))
  {
    CrawlFromStep(g.network, g.State(), events.Table(), reqs, i, parse, now);
    if i == 0 {
      r := events.GetEventInformation(g, url, parse, now);
    } else {
      var page := i + 1;
      var nextUrl := url + "?page=" + NatToString(page);
      r := events.GetEventInformation(g, nextUrl, parse, now);
    }
  }

  /** A crawl that starts with none of its pages cached fetches every page over the network, in order. */
  lemma CrawlFetchesEveryPage(network: Request -> Reply, cache: map<string, Json>, url: string, count: int)
    requires forall i: nat :: i < count ==> PageUrl(url, i) !in cache
    ensures Run(network, Snapshot(cache, [], []), PageRequests(url, count)).0.sent == PageRequests(url, count)
  {
    var reqs := PageRequests(url, count);
    forall i | 0 <= i < |reqs| ensures RequestKey(reqs[i]) !in cache {
      PageKey(url, i);
    }
    forall i, j | 0 <= i < j < |reqs| ensures RequestKey(reqs[i]) != RequestKey(reqs[j]) {
      PageKey(url, i);
      PageKey(url, j);
      PageUrlsDistinct(url, i, j);
    }
    RunFresh(network, cache, reqs);
  }

  // ---------------------------------------------------------------------
  // Yelp offsets
  // ---------------------------------------------------------------------

  /** `get_yelp_offset_number()`: the offsets 0, 50, ..., 950. */
  method GetYelpOffsetNumber() returns (offsets: seq<int>)
    ensures |offsets| == 20
    ensures forall i :: 0 <= i < |offsets| ==> offsets[i] == 50 * i
  {
    offsets := [];
    var count := 0;
    while count <= 950
      invariant count == 50 * |offsets| && count <= 1000
      invariant forall i :: 0 <= i < |offsets| ==> offsets[i] == 50 * i
      decreases 1000 - count
    {
      offsets := offsets + [count];
      count := count + 50;
    }
  }

  /** The `limit` of every search: fifty businesses per reply. */
  const YelpLimit: int := 50

  /** The `params` of the search at one offset, in the order the dictionary literal lists them. */
  function YelpParams(city: string, offset: int): seq<Param>
  {
    [Param("location", Str(city)), Param("offset", Int(offset)), Param("limit", Int(YelpLimit))]
  }

  /** The `headers` of every search. */
  function YelpHeaders(apiKey: string): map<string, string>
  {
    map["Authorization" := "Bearer " + apiKey]
  }

  /** The twenty searches `get_restaurant_information(city)` makes, one per offset. */
  function YelpRequests(city: string, apiKey: string): seq<Request>
  {
    seq(20, i requires 0 <= i => Request(YelpApiUrl, YelpParams(city, 50 * i), YelpHeaders(apiKey)))
  }

  /** The cache key of a search: its tokens sorted, so `limit` comes before `location` before `offset`. */
  lemma YelpKey(city: string, offset: nat)
    ensures UniqueKey(YelpApiUrl, YelpParams(city, offset))
            == YelpApiUrl + "_" + Join("_", ["limit_50", "location_" + city, "offset_" + NatToString(offset)])
  {
    var ts := Tokens(YelpParams(city, offset));
    var sorted := ["limit_50", "location_" + city, "offset_" + NatToString(offset)];
    YelpTokens(city, offset);
    YelpTokensSorted(city, NatToString(offset));
    assert multiset(sorted) == multiset(ts);
    SortStringsSorts(ts);
    SortedUnique(SortStrings(ts), sorted);
  }

  lemma YelpTokens(city: string, offset: nat)
    ensures Tokens(YelpParams(city, offset)) == ["location_" + city, "offset_" + NatToString(offset), "limit_50"]
  {
    assert Digit(5) == '5' && Digit(0) == '0';
    assert NatToString(50) == "50";
    var ps := YelpParams(city, offset);
    assert Token(ps[0]) == "location" + "_" + city == "location_" + city;
    assert Token(ps[1]) == "offset" + "_" + NatToString(offset) == "offset_" + NatToString(offset);
    assert Token(ps[2]) == "limit" + "_" + "50" == "limit_50";
  }

  lemma YelpTokensSorted(city: string, n: string)
    ensures Sorted(["limit_50", "location_" + city, "offset_" + n])
  {
    var limit, location, off := "limit_50", "location_" + city, "offset_" + n;
    assert LessEq(limit, location) by {
      assert limit[1..] == "imit_50" && location[1..] == "ocation_" + city;
      assert LessEq(limit[1..], location[1..]);
    }
    assert LessEq(limit, off);
    assert LessEq(location, off);
  }

  /** Equal strings with prefixes of the same length have equal suffixes. */
  lemma SuffixCancel(x: string, u: string, y: string, v: string)
    requires x + u == y + v && |x| == |y|
    ensures u == v
  {
    assert (x + u)[|x|..] == u && (y + v)[|y|..] == v;
  }

  /** Different offsets give different cache keys. */
  lemma YelpKeysDistinct(city: string, a: nat, b: nat)
    requires a != b
    ensures UniqueKey(YelpApiUrl, YelpParams(city, a)) != UniqueKey(YelpApiUrl, YelpParams(city, b))
  {
    YelpKey(city, a);
    YelpKey(city, b);
    var na, nb := NatToString(a), NatToString(b);
    var front := "limit_50" + "_" + ("location_" + city) + "_";
    var ja := Join("_", ["limit_50", "location_" + city, "offset_" + na]);
    var jb := Join("_", ["limit_50", "location_" + city, "offset_" + nb]);
    JoinThree("_", "limit_50", "location_" + city, "offset_" + na);
    JoinThree("_", "limit_50", "location_" + city, "offset_" + nb);
    if YelpApiUrl + "_" + ja == YelpApiUrl + "_" + jb {
      SuffixCancel(YelpApiUrl + "_", ja, YelpApiUrl + "_", jb);
      SuffixCancel(front, "offset_" + na, front, "offset_" + nb);
      SuffixCancel("offset_", na, "offset_", nb);
      NatToStringInjective(a, b);
    }
  }

  /**
   * For a city none of whose searches is cached, all twenty go over the
   * network, in order of offset, and none of them is delayed.
   */
  lemma YelpFetchesEveryOffset(network: Request -> Reply, cache: map<string, Json>, city: string, apiKey: string)
    requires forall i :: 0 <= i < 20 ==> UniqueKey(YelpApiUrl, YelpParams(city, 50 * i)) !in cache
    ensures var sent := Run(network, Snapshot(cache, [], []), YelpRequests(city, apiKey)).0.sent;
            sent == YelpRequests(city, apiKey) && Scraped(sent) == 0
  {
    var reqs := YelpRequests(city, apiKey);
    forall i | 0 <= i < |reqs| ensures RequestKey(reqs[i]) !in cache {
      assert RequestKey(reqs[i]) == UniqueKey(YelpApiUrl, YelpParams(city, 50 * i));
    }
    forall i, j | 0 <= i < j < |reqs| ensures RequestKey(reqs[i]) != RequestKey(reqs[j]) {
      YelpKeysDistinct(city, 50 * i, 50 * j);
    }
    RunFresh(network, cache, reqs);
    ApiOnlyNotScraped(reqs);
  }

  /** Requests that all go to the API take no politeness delay. */
  lemma {:induction false} ApiOnlyNotScraped(reqs: seq<Request>)
    requires forall i :: 0 <= i < |reqs| ==> reqs[i].url == YelpApiUrl
    ensures Scraped(reqs) == 0
    decreases |reqs|
  {
    if reqs != [] {
      ApiOnlyNotScraped(reqs[..|reqs| - 1]);
    }
  }

  // ---------------------------------------------------------------------
  // Collecting the businesses
  // ---------------------------------------------------------------------

  /**
   * What one reply adds to the result: nothing when it has no `businesses`
   * key (the error reply for an offset past the last business), the items of
   * the list otherwise. Iterating a string yields its characters. `.keys()`
   * on anything but an object is an AttributeError; iterating `null`, a
   * boolean or a number is a TypeError. An object under `businesses` is
   * taken as a TypeError too, although iterating it would yield its keys.
   */
  function Businesses(response: Json): Result<seq<Json>>
  {
    match response
    case JObject(fields) =>
      if "businesses" !in fields then Ok([])
      else
        (match fields["businesses"]
         case JArray(items) => Ok(items)
         case JString(text) => Ok(seq(|text|, i requires 0 <= i < |text| => JString([text[i]])))
         case _ => Err(TypeError))
    case _ => Err(AttributeError)
  }

  /** The businesses of the replies, in order; the first reply that fails stops the collection. */
  function Gather(responses: seq<Json>): (r: Result<seq<Json>>)
    ensures r.Ok? <==> forall i :: 0 <= i < |responses| ==> Businesses(responses[i]).Ok?
    decreases |responses|
  {
    if responses == [] then Ok([])
    else
      var init := responses[..|responses| - 1];
      var before, here := Gather(init), Businesses(responses[|responses| - 1]);
      assert forall i :: 0 <= i < |init| ==> init[i] == responses[i];
      if before.Err? then before
      else if here.Err? then here
      else Ok(before.value + here.value)
  }

  /** One more reply. */
  lemma GatherSnoc(responses: seq<Json>, x: Json)
    ensures var before, here := Gather(responses), Businesses(x);
            Gather(responses + [x]) == if before.Err? then before else if here.Err? then here else Ok(before.value + here.value)
  {
    assert (responses + [x])[..|responses|] == responses;
  }

  lemma TakeSnoc<T>(s: seq<T>, k: nat)
    requires k < |s|
    ensures s[..k + 1] == s[..k] + [s[k]]
  {
  }

  /** Collecting over two batches of replies is collecting over each and concatenating. */
  lemma {:induction false} GatherAppend(a: seq<Json>, b: seq<Json>)
    requires Gather(a).Ok? && Gather(b).Ok?
    ensures Gather(a + b) == Ok(Gather(a).value + Gather(b).value)
    decreases |b|
  {
    if b == [] {
      assert a + b == a;
      assert Gather(a).value + Gather(b).value == Gather(a).value;
    } else {
      var init := b[..|b| - 1];
      assert Gather(init).Ok? by {
        assert forall i :: 0 <= i < |init| ==> init[i] == b[i];
      }
      GatherAppend(a, init);
      assert (a + b)[..|a + b| - 1] == a + init;
      assert (a + b)[|a + b| - 1] == b[|b| - 1];
      var ga, gi, h := Gather(a).value, Gather(init).value, Businesses(b[|b| - 1]).value;
      assert (ga + gi) + h == ga + (gi + h);
    }
  }

  /** Replies that all lack `businesses` contribute nothing, and collecting them succeeds. */
  lemma {:induction false} GatherNoBusinesses(responses: seq<Json>)
    requires forall i :: 0 <= i < |responses| ==> responses[i].JObject? && "businesses" !in responses[i].fields
    ensures Gather(responses) == Ok([])
    decreases |responses|
  {
    if responses != [] {
      var init := responses[..|responses| - 1];
      assert forall i :: 0 <= i < |init| ==> init[i] == responses[i];
      GatherNoBusinesses(init);
      var last := responses[|responses| - 1];
      assert Businesses(last) == Ok([]);
      assert Gather(init).value + Businesses(last).value == [];
    }
  }

  /** The inner loop `for item in result_business: total_result.append(item)`. */
  method AppendEach(total: seq<Json>, items: seq<Json>) returns (r: seq<Json>)
    ensures r == total + items
  {
    r := total;
    for j := 0 to |items|
      invariant r == total + items[..j]
    {
      assert items[..j + 1] == items[..j] + [items[j]];
      r := r + [items[j]];
    }
    assert items[..|items|] == items;
  }

  /**
   * The Yelp searches `reqs` made one after another from the gateway snapshot
   * `st`, appending the businesses of each reply; the first reply whose
   * businesses cannot be collected ends the search with that error.
   */
  function Search(network: Request -> Reply, st: Snapshot, reqs: seq<Request>): (Snapshot, Result<seq<Json>>)
    decreases |reqs|
  {
    if reqs == [] then (st, Ok([]))
    else
      var before := Search(network, st, reqs[..|reqs| - 1]);
      if before.1.Err? then before
      else
        var call := Call(network, before.0, reqs[|reqs| - 1]);
        var here := Businesses(call.1);
        (call.0, if here.Err? then Err(here.error) else Ok(before.1.value + here.value))
  }

  /** One more search after a sequence of them. */
  lemma SearchSnoc(network: Request -> Reply, st: Snapshot, reqs: seq<Request>, q: Request)
    ensures var before := Search(network, st, reqs);
            var call := Call(network, before.0, q);
            var here := Businesses(call.1);
            Search(network, st, reqs + [q])
            == if before.1.Err? then before
               else (call.0, if here.Err? then Err(here.error) else Ok(before.1.value + here.value))
  {
    assert (reqs + [q])[..|reqs|] == reqs;
  }

  /** After a reply fails, nothing more is searched and the error is kept. */
  lemma {:induction false} SearchStopped(network: Request -> Reply, st: Snapshot, reqs: seq<Request>, n: nat)
    requires n <= |reqs| && Search(network, st, reqs[..n]).1.Err?
    ensures Search(network, st, reqs) == Search(network, st, reqs[..n])
    decreases |reqs|
  {
    if n < |reqs| {
      var init := reqs[..|reqs| - 1];
      assert init[..n] == reqs[..n];
      SearchStopped(network, st, init, n);
    } else {
      assert reqs[..n] == reqs;
    }
  }

  /**
   * A search in which every reply can be collected makes every request, as
   * their run does, and returns the businesses of all the replies.
   */
  lemma {:induction false} SearchRunsEveryRequest(network: Request -> Reply, st: Snapshot, reqs: seq<Request>)
    requires Search(network, st, reqs).1.Ok?
    ensures var run := Run(network, st, reqs);
            Search(network, st, reqs) == (run.0, Gather(run.1))
    decreases |reqs|
  {
    if reqs != [] {
      var init := reqs[..|reqs| - 1];
      SearchRunsEveryRequest(network, st, init);
      var run := Run(network, st, reqs);
      GatherSnoc(Run(network, st, init).1, run.1[|reqs| - 1]);
      assert run.1 == Run(network, st, init).1 + [run.1[|reqs| - 1]];
    }
  }

  /**
   * `get_restaurant_information(city)`: search each offset through the cache
   * and append the businesses of every reply. A reply that makes the
   * collection fail stops the function: no later offset is searched.
   */
  method GetRestaurantInformation(g: FetchGateway, city: string, apiKey: string) returns (r: Result<seq<Json>>)
    requires g.Valid()
    modifies g
    ensures g.Valid()
    ensures Search(g.network, old(g.State()), YelpRequests(city, apiKey))
            == (g.State(), r)
    ensures g.sent == old(g.sent) ==> g.disk == old(g.disk)
  {
    var offsets := GetYelpOffsetNumber();
    var total: seq<Json> := [];
    var headers := map["Authorization" := "Bearer " + apiKey];
    ghost var start := g.State();
    ghost var reqs := YelpRequests(city, apiKey);
    for k := 0 to |offsets|
      invariant g.Valid()
      invariant Search(g.network, start, reqs[..k]) == (g.State(), Ok(total))
      invariant |g.sent| >= |old(g.sent)| && (g.sent == old(g.sent) ==> g.disk == old(g.disk))
    {
      var params := [Param("location", Str(city)), Param("offset", Int(offsets[k])), Param("limit", Int(50))];
      assert reqs[k] == Request(YelpApiUrl, params, headers);
      SearchSnoc(g.network, start, reqs[..k], reqs[k]);
      TakeSnoc(reqs, k);
      var response := g.MakeRequestWithCache(YelpApiUrl, params, headers);
      var found := Businesses(response);
      if found.Err? {
        r := Err(found.error);
        SearchStopped(g.network, start, reqs, k + 1);
        return;
      }
      total := AppendEach(total, found.value);
    }
    assert reqs[..20] == reqs;
    r := Ok(total);
  }
}
