/**
 * The fetch gateway: `make_request_with_cache` over the module-level
 * dictionary `CACHE_DICT` and its copy in the cache file (`open_cache`,
 * `save_cache`), with `make_request` performing the network call.
 */
module Cache {
  import opened Keys

  /** `YELP_API_URL`: the one endpoint whose replies are decoded as JSON. */
  const YelpApiUrl: string := "https://api.yelp.com/v3/businesses/search"

  /** A value decoded from JSON. Numbers keep their literal text. */
  datatype Json =
    | JNull
    | JBool(b: bool)
    | JNumber(literal: string)
    | JString(s: string)
    | JArray(items: seq<Json>)
    | JObject(fields: map<string, Json>)

  /** The arguments of one `requests.get(baseurl, params=params, headers=headers)`. */
  datatype Request = Request(url: string, params: seq<Param>, headers: map<string, string>)

  /** What the server sends back: `response.text`, and `response.json()` decoded from it. */
  datatype Reply = Reply(text: string, json: Json)

  /** The cache file: absent, unreadable or not JSON, or holding a dictionary. */
  datatype Disk = Missing | Corrupt | Stored(entries: map<string, Json>)

  /** The line `make_request_with_cache` prints for one call, naming the key. */
  datatype Notice = UsingCache(key: string) | Fetching(key: string)

  /** What a call reads and changes: `CACHE_DICT`, the requests sent so far, the lines printed so far. */
  datatype Snapshot = Snapshot(cache: map<string, Json>, sent: seq<Request>, log: seq<Notice>)

  function RequestKey(q: Request): string
  {
    UniqueKey(q.url, q.params)
  }

  /** `open_cache()`: the dictionary in the file; any failure to load it gives `{}`. */
  function OpenCache(disk: Disk): map<string, Json>
  {
    if disk.Stored? then disk.entries else map[]
  }

  /** What `make_request` returns for a request: the decoded JSON for the API, the page text otherwise. */
  function Answer(network: Request -> Reply, q: Request): Json
  {
    var reply := network(q);
    if q.url == YelpApiUrl then reply.json else JString(reply.text)
  }

  /** The keys of the `Fetching` lines, in order. */
  function FetchedKeys(log: seq<Notice>): seq<string>
    decreases |log|
  {
    if log == [] then []
    else
      var n := log[|log| - 1];
      FetchedKeys(log[..|log| - 1]) + (if n.Fetching? then [n.key] else [])
  }

  function RequestKeys(reqs: seq<Request>): seq<string>
  {
    seq(|reqs|, i requires 0 <= i < |reqs| => RequestKey(reqs[i]))
  }

  /** How many of the requests went to a scraped page rather than the API. */
  function Scraped(reqs: seq<Request>): nat
    decreases |reqs|
  {
    if reqs == [] then 0
    else Scraped(reqs[..|reqs| - 1]) + (if reqs[|reqs| - 1].url == YelpApiUrl then 0 else 1)
  }

  lemma FetchedKeysSnoc(log: seq<Notice>, n: Notice)
    ensures FetchedKeys(log + [n]) == FetchedKeys(log) + (if n.Fetching? then [n.key] else [])
  {
    assert (log + [n])[..|log|] == log;
  }

  lemma RequestKeysSnoc(reqs: seq<Request>, q: Request)
    ensures RequestKeys(reqs + [q]) == RequestKeys(reqs) + [RequestKey(q)]
  {
  }

  lemma ScrapedSnoc(reqs: seq<Request>, q: Request)
    ensures Scraped(reqs + [q]) == Scraped(reqs) + (if q.url == YelpApiUrl then 0 else 1)
  {
    assert (reqs + [q])[..|reqs|] == reqs;
  }

  /**
   * Every key sent is in the dictionary, and no key was sent twice: there are
   * as many distinct keys as requests.
   */
  ghost predicate SentOnce(sent: seq<Request>, cache: map<string, Json>)
  {
    KeySet(sent) <= cache.Keys && |KeySet(sent)| == |sent|
  }

  /** A request whose key was not cached, once sent and stored, keeps every key sent cached once. */
  lemma SentOnceMore(sent: seq<Request>, cache: map<string, Json>, q: Request, v: Json)
    requires SentOnce(sent, cache) && RequestKey(q) !in cache
    ensures SentOnce(sent + [q], cache[RequestKey(q) := v])
  {
    KeySetSnoc(sent, q);
    assert RequestKey(q) !in KeySet(sent);
  }

  /** The state of one run: `CACHE_DICT`, the cache file, and what went over the network. */
  class FetchGateway {
    /** `CACHE_DICT` */
    var cache: map<string, Json>
    /** The contents of the cache file. */
    var disk: Disk
    /** The `Using cache!` / `Fetching` lines printed so far. */
    var log: seq<Notice>
    /** Every `requests.get` call so far, in order. */
    var sent: seq<Request>
    /** How many `time.sleep(1)` politeness delays have been taken. */
    var delays: nat
    /** The server: its reply to each request. */
    const network: Request -> Reply

    /**
     * Write-through and at most one network call per key: once anything has
     * been fetched the file holds exactly `CACHE_DICT`; every request sent is
     * cached, no two requests sent share a key, each `Fetching` line stands
     * for one request sent, and there was one delay per scraped page fetched.
     */
    ghost predicate Valid()
      reads this
    {
      && (sent != [] ==> disk == Stored(cache))
      && SentOnce(sent, cache)
      && FetchedKeys(log) == RequestKeys(sent)
      && delays == Scraped(sent)
    }

    /** What the next call reads and changes. */
    function State(): Snapshot
      reads this
    {
      Snapshot(cache, sent, log)
    }

    /** The start of a run: `CACHE_DICT = {}`, the file as it is on disk, nothing sent. */
    constructor (disk: Disk, network: Request -> Reply)
      ensures Valid()
      ensures this.disk == disk && this.network == network
      ensures cache == map[] && log == [] && sent == [] && delays == 0
    {
      this.disk := disk;
      this.network := network;
      cache := map[];
      log := [];
      sent := [];
      delays := 0;
    }

    /** `CACHE_DICT = open_cache()`. Once something was fetched, the file already holds `CACHE_DICT`. */
    method LoadCache()
      requires Valid()
      modifies this`cache
      ensures Valid()
      ensures cache == OpenCache(disk)
      ensures old(sent) != [] ==> cache == old(cache)
    {
      cache := OpenCache(disk);
    }

    /** `save_cache(cache_dict)`: overwrite the file; opening it again gives the same dictionary. */
    method SaveCache(m: map<string, Json>)
      modifies this`disk
      ensures disk == Stored(m)
      ensures OpenCache(disk) == m
    {
      disk := Stored(m);
    }

    /**
     * `make_request`: one network call. The API's reply is taken as JSON; a
     * scraped page is taken as text, after a politeness delay.
     */
    method MakeRequest(url: string, params: seq<Param>, headers: map<string, string>) returns (body: Json)
      modifies this`sent, this`delays
      ensures sent == old(sent) + [Request(url, params, headers)]
      ensures delays == old(delays) + (if url == YelpApiUrl then 0 else 1)
      ensures body == Answer(network, Request(url, params, headers))
    {
      var q := Request(url, params, headers);
      var response := network(q);
      sent := sent + [q];
      if url == YelpApiUrl {
        body := response.json;
      } else {
        delays := delays + 1;
        body := JString(response.text);
      }
    }

    /**
     * `make_request_with_cache`: a hit returns the stored value and changes
     * nothing but the log; a miss makes exactly one network call, stores its
     * result under the key, writes the whole dictionary to the file and
     * returns the stored value.
     */
    method MakeRequestWithCache(url: string, params: seq<Param>, headers: map<string, string>)
      returns (r: Json)
      requires Valid()
      modifies this
      ensures Valid()
      ensures UniqueKey(url, params) in cache && r == cache[UniqueKey(url, params)]
      ensures log == old(log) + [if UniqueKey(url, params) in old(cache)
                                 then UsingCache(UniqueKey(url, params))
                                 else Fetching(UniqueKey(url, params))]
      ensures UniqueKey(url, params) in old(cache) ==>
                && r == old(cache)[UniqueKey(url, params)]
                && cache == old(cache) && disk == old(disk)
                && sent == old(sent) && delays == old(delays)
      ensures UniqueKey(url, params) !in old(cache) ==>
                && cache == old(cache)[UniqueKey(url, params) := r] && disk == Stored(cache)
                && sent == old(sent) + [Request(url, params, headers)]
                && delays == old(delays) + (if url == YelpApiUrl then 0 else 1)
      ensures UniqueKey(url, params) !in old(cache) ==> r == Answer(network, Request(url, params, headers))
      ensures (Snapshot(cache, sent, log), r)
              == Call(network, Snapshot(old(cache), old(sent), old(log)), Request(url, params, headers))
    {
      var key := UniqueKey(url, params);
      if key in cache {
        FetchedKeysSnoc(log, UsingCache(key));
        log := log + [UsingCache(key)];
        r := cache[key];
      } else {
        FetchedKeysSnoc(log, Fetching(key));
        RequestKeysSnoc(sent, Request(url, params, headers));
        ScrapedSnoc(sent, Request(url, params, headers));
        log := log + [Fetching(key)];
        var body := MakeRequest(url, params, headers);
        SentOnceMore(old(sent), cache, Request(url, params, headers), body);
        cache := cache[key := body];
        SaveCache(cache);
        r := cache[key];
      }
    }
  }

  /** A request repeated at once is served from the cache: one network call at most for both. */
  method RepeatRequest(g: FetchGateway, url: string, params: seq<Param>, headers: map<string, string>)
    returns (first: Json, second: Json)
    requires g.Valid()
    modifies g
    ensures g.Valid()
    ensures first == second
    ensures g.cache == old(g.cache)[UniqueKey(url, params) := first]
    ensures UniqueKey(url, params) in old(g.cache) ==> g.sent == old(g.sent)
    ensures UniqueKey(url, params) !in old(g.cache) ==>
              g.sent == old(g.sent) + [Request(url, params, headers)] && g.disk == Stored(g.cache)
    ensures |g.log| == |old(g.log)| + 2 && g.log[|g.log| - 1] == UsingCache(UniqueKey(url, params))
  {
    ghost var key := UniqueKey(url, params);
    first := g.MakeRequestWithCache(url, params, headers);
    assert key in g.cache && g.cache[key] == first;
    ghost var afterFirst := g.cache;
    second := g.MakeRequestWithCache(url, params, headers);
    assert g.cache == afterFirst;
    assert g.log[|g.log| - 1] == UsingCache(key);
  }

  // ---------------------------------------------------------------------
  // A run of cached requests
  // ---------------------------------------------------------------------

  /** The keys of a list of requests, as a set. */
  function KeySet(reqs: seq<Request>): set<string>
  {
    set i | 0 <= i < |reqs| :: RequestKey(reqs[i])
  }

  lemma KeySetLast(reqs: seq<Request>)
    requires reqs != []
    ensures KeySet(reqs) == KeySet(reqs[..|reqs| - 1]) + {RequestKey(reqs[|reqs| - 1])}
  {
    var init := reqs[..|reqs| - 1];
    forall k | k in KeySet(init) ensures k in KeySet(reqs) {
      var i :| 0 <= i < |init| && RequestKey(init[i]) == k;
      assert reqs[i] == init[i];
    }
    forall k | k in KeySet(reqs) ensures k in KeySet(init) || k == RequestKey(reqs[|reqs| - 1]) {
      var i :| 0 <= i < |reqs| && RequestKey(reqs[i]) == k;
      if i < |init| {
        assert reqs[i] == init[i];
      }
    }
  }

  lemma KeySetSnoc(reqs: seq<Request>, q: Request)
    ensures KeySet(reqs + [q]) == KeySet(reqs) + {RequestKey(q)}
  {
    KeySetLast(reqs + [q]);
    assert (reqs + [q])[..|reqs|] == reqs;
  }

  /** No two requests share a key. */
  predicate DistinctKeys(reqs: seq<Request>)
  {
    forall i, j :: 0 <= i < j < |reqs| ==> RequestKey(reqs[i]) != RequestKey(reqs[j])
  }

  lemma DistinctKeysLast(reqs: seq<Request>)
    requires reqs != []
    ensures var n := |reqs| - 1;
            DistinctKeys(reqs) <==> DistinctKeys(reqs[..n]) && RequestKey(reqs[n]) !in KeySet(reqs[..n])
  {
    var n := |reqs| - 1;
    var init, k := reqs[..n], RequestKey(reqs[n]);
    assert forall i :: 0 <= i < n ==> init[i] == reqs[i];
    if k in KeySet(init) {
      var i :| 0 <= i < n && RequestKey(init[i]) == k;
      assert RequestKey(reqs[i]) == RequestKey(reqs[n]);
    } else if DistinctKeys(init) {
      forall i, j | 0 <= i < j < |reqs|
        ensures RequestKey(reqs[i]) != RequestKey(reqs[j])
      {
        if j == n {
          assert RequestKey(init[i]) in KeySet(init);
        } else {
          assert RequestKey(init[i]) != RequestKey(init[j]);
        }
      }
    }
  }

  /** There are at most as many keys as requests, and as many exactly when no two requests share a key. */
  lemma {:induction false} KeySetSize(reqs: seq<Request>)
    ensures |KeySet(reqs)| <= |reqs|
    ensures |KeySet(reqs)| == |reqs| <==> DistinctKeys(reqs)
    decreases |reqs|
  {
    if reqs != [] {
      var n := |reqs| - 1;
      var init, k := reqs[..n], RequestKey(reqs[n]);
      KeySetSize(init);
      KeySetLast(reqs);
      DistinctKeysLast(reqs);
      if k in KeySet(init) {
        assert KeySet(reqs) == KeySet(init);
      } else {
        assert |KeySet(reqs)| == |KeySet(init)| + 1;
      }
    }
  }

  /** `SentOnce` says exactly that every request's key is cached and no two requests share a key. */
  lemma SentOnceMeans(sent: seq<Request>, cache: map<string, Json>)
    ensures SentOnce(sent, cache) <==> (forall i :: 0 <= i < |sent| ==> RequestKey(sent[i]) in cache) && DistinctKeys(sent)
  {
    KeySetSize(sent);
    if forall i :: 0 <= i < |sent| ==> RequestKey(sent[i]) in cache {
      forall k | k in KeySet(sent)
        ensures k in cache
      {
        var i :| 0 <= i < |sent| && RequestKey(sent[i]) == k;
      }
    }
    if KeySet(sent) <= cache.Keys {
      forall i | 0 <= i < |sent|
        ensures RequestKey(sent[i]) in cache
      {
        assert RequestKey(sent[i]) in KeySet(sent);
      }
    }
  }

  /**
   * One `make_request_with_cache` call on a snapshot: the snapshot after it
   * and the value it returns.
   */
  function Call(network: Request -> Reply, st: Snapshot, q: Request): (Snapshot, Json)
  {
    var key := RequestKey(q);
    if key in st.cache then
      (Snapshot(st.cache, st.sent, st.log + [UsingCache(key)]), st.cache[key])
    else
      var v := Answer(network, q);
      (Snapshot(st.cache[key := v], st.sent + [q], st.log + [Fetching(key)]), v)
  }

  /** The requests `reqs` made one after another through `make_request_with_cache`: the final snapshot and the values returned. */
  function Run(network: Request -> Reply, st: Snapshot, reqs: seq<Request>): (r: (Snapshot, seq<Json>))
    ensures |r.1| == |reqs| && |r.0.log| == |st.log| + |reqs|
    decreases |reqs|
  {
    if reqs == [] then (st, [])
    else
      var before := Run(network, st, reqs[..|reqs| - 1]);
      var call := Call(network, before.0, reqs[|reqs| - 1]);
      (call.0, before.1 + [call.1])
  }

  /**
   * What was sent and printed before a run does not affect it: the run only
   * appends to both.
   */
  lemma {:induction false} RunShift(network: Request -> Reply, cache: map<string, Json>,
                                    sent: seq<Request>, log: seq<Notice>, reqs: seq<Request>)
    ensures var clean := Run(network, Snapshot(cache, [], []), reqs);
            Run(network, Snapshot(cache, sent, log), reqs)
            == (Snapshot(clean.0.cache, sent + clean.0.sent, log + clean.0.log), clean.1)
    decreases |reqs|
  {
    if reqs != [] {
      var init, q := reqs[..|reqs| - 1], reqs[|reqs| - 1];
      RunShift(network, cache, sent, log, init);
      var mid := Run(network, Snapshot(cache, [], []), init).0;
      var key := RequestKey(q);
      if key in mid.cache {
        assert log + mid.log + [UsingCache(key)] == log + (mid.log + [UsingCache(key)]);
      } else {
        assert sent + mid.sent + [q] == sent + (mid.sent + [q]);
        assert log + mid.log + [Fetching(key)] == log + (mid.log + [Fetching(key)]);
      }
    } else {
      assert sent + [] == sent && log + [] == log;
    }
  }

  /** A run only adds entries: one for each key it meets that was not cached, and no entry changes. */
  lemma {:induction false} RunKeeps(network: Request -> Reply, st: Snapshot, reqs: seq<Request>)
    ensures var after := Run(network, st, reqs).0;
            && after.cache.Keys == st.cache.Keys + KeySet(reqs)
            && forall k :: k in st.cache ==> after.cache[k] == st.cache[k]
    decreases |reqs|
  {
    if reqs != [] {
      RunKeeps(network, st, reqs[..|reqs| - 1]);
      KeySetLast(reqs);
    }
  }

  /** Every call of a run returns what the dictionary holds for its key at the end of the run. */
  lemma {:induction false} RunResultsCached(network: Request -> Reply, st: Snapshot, reqs: seq<Request>)
    ensures var r := Run(network, st, reqs);
            forall i :: 0 <= i < |reqs| ==> RequestKey(reqs[i]) in r.0.cache && r.1[i] == r.0.cache[RequestKey(reqs[i])]
    decreases |reqs|
  {
    if reqs != [] {
      var init := reqs[..|reqs| - 1];
      RunResultsCached(network, st, init);
      var before, r := Run(network, st, init), Run(network, st, reqs);
      forall i | 0 <= i < |reqs| ensures RequestKey(reqs[i]) in r.0.cache && r.1[i] == r.0.cache[RequestKey(reqs[i])] {
        if i < |init| {
          assert reqs[i] == init[i];
          var k := RequestKey(init[i]);
          assert k in before.0.cache && before.1[i] == before.0.cache[k];
          assert r.1[i] == before.1[i];
          assert r.0.cache[k] == before.0.cache[k];
        }
      }
    }
  }

  /**
   * A run goes over the network exactly once for each key that was not cached
   * before it, and for no other key; its `Fetching` lines name those keys.
   */
  lemma {:induction false} RunFetchesNewKeysOnce(network: Request -> Reply, cache: map<string, Json>, reqs: seq<Request>)
    ensures var after := Run(network, Snapshot(cache, [], []), reqs).0;
            && KeySet(after.sent) == after.cache.Keys - cache.Keys
            && SentOnce(after.sent, after.cache)
            && FetchedKeys(after.log) == RequestKeys(after.sent)
    decreases |reqs|
  {
    if reqs != [] {
      var init, q := reqs[..|reqs| - 1], reqs[|reqs| - 1];
      RunFetchesNewKeysOnce(network, cache, init);
      RunKeeps(network, Snapshot(cache, [], []), init);
      var before := Run(network, Snapshot(cache, [], []), init).0;
      var key := RequestKey(q);
      FetchedKeysSnoc(before.log, if key in before.cache then UsingCache(key) else Fetching(key));
      if key !in before.cache {
        KeySetSnoc(before.sent, q);
        RequestKeysSnoc(before.sent, q);
        SentOnceMore(before.sent, before.cache, q, Answer(network, q));
      }
    }
  }

  /** With distinct keys none of which is cached, every request of the run goes over the network, in order. */
  lemma {:induction false} RunFresh(network: Request -> Reply, cache: map<string, Json>, reqs: seq<Request>)
    requires forall i :: 0 <= i < |reqs| ==> RequestKey(reqs[i]) !in cache
    requires forall i, j :: 0 <= i < j < |reqs| ==> RequestKey(reqs[i]) != RequestKey(reqs[j])
    ensures Run(network, Snapshot(cache, [], []), reqs).0.sent == reqs
    decreases |reqs|
  {
    if reqs != [] {
      var n := |reqs| - 1;
      var init, q := reqs[..n], reqs[n];
      FreshPrefix(cache, reqs);
      RunFresh(network, cache, init);
      FreshKey(network, Snapshot(cache, [], []), init, q);
      RunSentLast(network, Snapshot(cache, [], []), reqs);
    }
  }

  /** Dropping the last of distinct uncached requests leaves distinct uncached requests, none with its key. */
  lemma FreshPrefix(cache: map<string, Json>, reqs: seq<Request>)
    requires reqs != []
    requires forall i :: 0 <= i < |reqs| ==> RequestKey(reqs[i]) !in cache
    requires forall i, j :: 0 <= i < j < |reqs| ==> RequestKey(reqs[i]) != RequestKey(reqs[j])
    ensures var init, q := reqs[..|reqs| - 1], reqs[|reqs| - 1];
            && RequestKey(q) !in cache
            && (forall i :: 0 <= i < |init| ==> RequestKey(init[i]) !in cache && RequestKey(init[i]) != RequestKey(q))
            && (forall i, j :: 0 <= i < j < |init| ==> RequestKey(init[i]) != RequestKey(init[j]))
  {
    var init := reqs[..|reqs| - 1];
    assert forall i :: 0 <= i < |init| ==> init[i] == reqs[i];
  }

  /** A key that was not cached and that none of the requests of a run has is still not cached after the run. */
  lemma FreshKey(network: Request -> Reply, st: Snapshot, reqs: seq<Request>, q: Request)
    requires RequestKey(q) !in st.cache
    requires forall i :: 0 <= i < |reqs| ==> RequestKey(reqs[i]) != RequestKey(q)
    ensures RequestKey(q) !in Run(network, st, reqs).0.cache
  {
    RunKeeps(network, st, reqs);
  }

  /** A last request whose key is not cached after the others is sent after theirs. */
  lemma RunSentLast(network: Request -> Reply, st: Snapshot, reqs: seq<Request>)
    requires reqs != []
    requires RequestKey(reqs[|reqs| - 1]) !in Run(network, st, reqs[..|reqs| - 1]).0.cache
    ensures Run(network, st, reqs).0.sent == Run(network, st, reqs[..|reqs| - 1]).0.sent + [reqs[|reqs| - 1]]
  {
  }

  /** A run whose every key is cached changes nothing but the log, sends nothing, and returns the cached values. */
  lemma {:induction false} RunAllCached(network: Request -> Reply, st: Snapshot, reqs: seq<Request>)
    requires forall i :: 0 <= i < |reqs| ==> RequestKey(reqs[i]) in st.cache
    ensures var r := Run(network, st, reqs);
            && r.0.cache == st.cache && r.0.sent == st.sent
            && forall i :: 0 <= i < |reqs| ==> r.1[i] == st.cache[RequestKey(reqs[i])]
    decreases |reqs|
  {
    if reqs != [] {
      var init := reqs[..|reqs| - 1];
      RunAllCached(network, st, init);
      var before, r := Run(network, st, init), Run(network, st, reqs);
      forall i | 0 <= i < |reqs| ensures r.1[i] == st.cache[RequestKey(reqs[i])] {
        if i < |init| {
          assert reqs[i] == init[i];
          assert r.1[i] == before.1[i];
        }
      }
    }
  }

  /** Running the same requests again is served wholly from the cache and returns the same values. */
  lemma RunAgain(network: Request -> Reply, st: Snapshot, reqs: seq<Request>)
    ensures var first := Run(network, st, reqs);
            var second := Run(network, first.0, reqs);
            second.0.cache == first.0.cache && second.0.sent == first.0.sent && second.1 == first.1
  {
    var first := Run(network, st, reqs);
    RunResultsCached(network, st, reqs);
    RunAllCached(network, first.0, reqs);
  }
}
