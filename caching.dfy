/**
 * RobotsCache.java: the key robots.txt documents are cached under, the URL
 * they are fetched from, how long an entry lives, what the loader stores,
 * and a sequential model of the loading cache.
 */
module Caching {
  import opened Wrappers
  import opened Text
  import opened Matching
  import opened Parsing

  /** What java.net.URL reports about a URI; parsing the URI is not modelled. */
  datatype Url = Url(protocol: string, host: string, port: int, defaultPort: int, path: string)

  /** RobotsCache.CacheKey: all seven fields, including those equality ignores. */
  datatype CacheKey = CacheKey(
    protocol: string,
    domain: string,
    port: int,
    ttlSeconds: int,
    executionId: string,
    jobExecutionId: string,
    collectionId: string)

  /** The fields CacheKey.equals compares; the model's cache map is keyed on them. */
  datatype KeyIdentity = KeyIdentity(protocol: string, domain: string, port: int, jobExecutionId: string)

  /** The port java.net.URL reports when the URI has none. */
  const NoPort := -1

  /** The CacheKey constructor: an absent port (-1) becomes the scheme's default port. */
  function NewCacheKey(uri: Url, ttlSeconds: int, executionId: string, jobExecutionId: string, collectionId: string)
    : (k: CacheKey)
    ensures uri.port != NoPort ==> k.port == uri.port
    ensures uri.port == NoPort ==> k.port == uri.defaultPort
    ensures k.protocol == uri.protocol && k.domain == uri.host
    ensures k.ttlSeconds == ttlSeconds && k.executionId == executionId
    ensures k.jobExecutionId == jobExecutionId && k.collectionId == collectionId
  {
    CacheKey(uri.protocol, uri.host, if uri.port == NoPort then uri.defaultPort else uri.port,
             ttlSeconds, executionId, jobExecutionId, collectionId)
  }

  /**
   * CacheKey.equals: port, protocol, domain and job execution id agree, so
   * equal keys are exactly the keys the model's map files under one identity.
   */
  function KeyEquals(a: CacheKey, b: CacheKey): (eq: bool)
    ensures eq <==> Identity(a) == Identity(b)
  {
    a.port == b.port && a.protocol == b.protocol && a.domain == b.domain && a.jobExecutionId == b.jobExecutionId
  }

  function Identity(k: CacheKey): KeyIdentity {
    KeyIdentity(k.protocol, k.domain, k.port, k.jobExecutionId)
  }

  // ---------------------------------------------------------------------
  // hashCode, in Java's 32-bit int arithmetic

  const TwoTo31 := 0x8000_0000
  const TwoTo32 := 0x1_0000_0000

  predicate IsInt32(x: int) { -TwoTo31 <= x < TwoTo31 }

  /** Java int overflow: the value congruent to x modulo 2^32 in the int range. */
  function Wrap32(x: int): (r: int)
    ensures IsInt32(r)
    ensures (x - r) % TwoTo32 == 0
    ensures IsInt32(x) ==> r == x
  {
    (x + TwoTo31) % TwoTo32 - TwoTo31
  }

  /** String.hashCode: s[0]*31^(n-1) + ... + s[n-1], wrapping as int. */
  function StringHash(s: string): (r: int)
    ensures IsInt32(r)
  {
    if s == [] then 0 else Wrap32(31 * StringHash(s[..|s| - 1]) + s[|s| - 1] as int)
  }

  /** CacheKey.hashCode: 7, then 73 * hash + each compared field in turn. */
  function HashCode(k: CacheKey): (r: int)
    ensures IsInt32(r)
  {
    var h0 := 7;
    var h1 := Wrap32(73 * h0 + StringHash(k.protocol));
    var h2 := Wrap32(73 * h1 + StringHash(k.domain));
    var h3 := Wrap32(73 * h2 + k.port);
    Wrap32(73 * h3 + StringHash(k.jobExecutionId))
  }

  // ---------------------------------------------------------------------
  // The robots.txt URL

  const RobotsPath := "/robots.txt"

  /**
   * The URL the loader fetches: protocol://domain:port/robots.txt. It names
   * the key's origin: protocol, domain and port read back from it, for any
   * protocol without a ':' (the domain may hold one, as an IPv6 literal does).
   */
  function RobotsUrl(k: CacheKey): (url: string)
    ensures ':' !in k.protocol ==> SplitRobotsUrl(url) == Some((k.protocol, k.domain, k.port))
  {
    var authority := k.protocol + "://" + k.domain + ":" + IntToString(k.port);
    var url := authority + RobotsPath;
    assert url[|url| - |RobotsPath|..] == RobotsPath && url[..|url| - |RobotsPath|] == authority;
    assert ':' !in k.protocol ==> SplitAuthority(authority) == Some((k.protocol, k.domain, k.port)) by {
      if ':' !in k.protocol {
        AuthorityRoundTrip(k.protocol, k.domain, k.port);
      }
    }
    url
  }

  /** Reads host and port back from "host:port": the port follows the last ':'. */
  function SplitHostPort(hostPort: string): Option<(string, int)> {
    match LastIndexOf(hostPort, ':')
    case None => None
    case Some(j) =>
      var portText := hostPort[j + 1..];
      if IsIntText(portText) then Some((hostPort[..j], ParseInt(portText))) else None
  }

  /** Reads protocol, host and port back from "protocol://host:port": the protocol ends at the first ':'. */
  function SplitAuthority(authority: string): Option<(string, string, int)> {
    match FirstIndexOf(authority, ':')
    case None => None
    case Some(i) =>
      var rest := authority[i + 1..];
      if |rest| < 2 || rest[..2] != "//" then None
      else
        match SplitHostPort(rest[2..])
        case None => None
        case Some(hp) => Some((authority[..i], hp.0, hp.1))
  }

  /** Reads protocol, domain and port back from a robots.txt URL. */
  function SplitRobotsUrl(url: string): Option<(string, string, int)> {
    if |url| < |RobotsPath| || url[|url| - |RobotsPath|..] != RobotsPath then None
    else SplitAuthority(url[..|url| - |RobotsPath|])
  }

  lemma AuthorityRoundTrip(protocol: string, host: string, port: int)
    requires ':' !in protocol
    ensures SplitAuthority(protocol + "://" + host + ":" + IntToString(port)) == Some((protocol, host, port))
  {
    var hostPort := host + ":" + IntToString(port);
    var rest := "//" + hostPort;
    assert protocol + "://" + host + ":" + IntToString(port) == protocol + [':'] + rest;
    FirstIndexAfter(protocol, ':', rest);
    assert rest[..2] == "//" && rest[2..] == hostPort;
    HostPortRoundTrip(host, port);
  }

  lemma HostPortRoundTrip(host: string, port: int)
    ensures SplitHostPort(host + ":" + IntToString(port)) == Some((host, port))
  {
    var n := IntToString(port);
    assert host + ":" + n == host + [':'] + n;
    LastIndexBefore(host, ':', n);
    IntRoundTrip(port);
  }

  // ---------------------------------------------------------------------
  // Expiry

  /** An expiry point in milliseconds, or ExpiryTimeValues.NOW. */
  datatype ExpiryTime = Now | At(millis: int)

  /** The expiry policy: no value expires at once, a loaded one ttlSeconds after its load. */
  function ExpiryFor(key: CacheKey, valuePresent: bool, loadTime: int): (e: ExpiryTime)
    ensures !valuePresent ==> e == Now
    ensures valuePresent ==> e.At? && e.millis - loadTime == 1000 * key.ttlSeconds
  {
    if !valuePresent then Now else At(loadTime + 1000 * key.ttlSeconds)
  }

  /** An entry is served until its expiry point. */
  predicate IsLive(e: ExpiryTime, now: int) {
    e.At? && now < e.millis
  }

  // ---------------------------------------------------------------------
  // The loader

  /** What the HTTP client returns: a response (status code and the body's parse input) or an exception. */
  datatype FetchResult = Response(code: int, body: ParseInput) | FetchFailed

  /** OkHttp's Response.isSuccessful. */
  predicate IsSuccessful(code: int) { 200 <= code < 300 }

  /** The source name of the empty sentinel document. */
  const EmptyRobotsName := "empty"

  /**
   * The loader's document: the parsed body of a successful response, None
   * where the loader returns the EMPTY_ROBOTS sentinel (a failed status, an
   * exception while fetching, or one while parsing).
   */
  function LoadedDocument(key: CacheKey, fetch: FetchResult): (r: Option<Document>)
    ensures fetch.Response? && IsSuccessful(fetch.code) ==> r == ParseResult(fetch.body, RobotsUrl(key))
    ensures r.Some? ==> fetch.Response? && IsSuccessful(fetch.code)
    ensures r.Some? ==> r.value.sourceName == RobotsUrl(key)
  {
    if fetch.Response? && IsSuccessful(fetch.code) then ParseResult(fetch.body, RobotsUrl(key)) else None
  }

  /** What RobotsCache.get hands back, as its callers can tell: the EMPTY_ROBOTS sentinel or another document. */
  datatype CachedDocument = Sentinel | Loaded(doc: Document)

  /** What the cache holds for a key: the loader's document and its expiry. */
  datatype CacheEntry = CacheEntry(doc: RobotsTxt, expiry: ExpiryTime)

  /**
   * The loading cache, sequentially: a map from key identity to entry. The
   * ghost `fetches` records every key the loader ran for.
   */
  class RobotsCache {
    const emptyRobots: RobotsTxt
    var entries: map<KeyIdentity, CacheEntry>
    ghost var fetches: seq<CacheKey>

    predicate Valid()
      reads this, emptyRobots
    {
      emptyRobots.Value() == EmptyDocument(EmptyRobotsName)
    }

    /** The live entry's document for an equal key, if any. */
    function Lookup(key: CacheKey, now: int): Option<RobotsTxt>
      reads this
    {
      var id := Identity(key);
      if id in entries && IsLive(entries[id].expiry, now) then Some(entries[id].doc) else None
    }

    /** What get would return for this key at `now`, with `fetch` as the HTTP outcome on a miss. */
    function Seen(key: CacheKey, now: int, fetch: FetchResult): CachedDocument
      reads this, if Identity(key) in entries then {entries[Identity(key)].doc} else {}
    {
      match Lookup(key, now)
      case Some(d) => if d == emptyRobots then Sentinel else Loaded(d.Value())
      case None =>
        match LoadedDocument(key, fetch)
        case None => Sentinel
        case Some(doc) => Loaded(doc)
    }

    constructor ()
      ensures Valid() && fresh(emptyRobots)
      ensures entries == map[] && fetches == []
    {
      emptyRobots := new RobotsTxt(EmptyRobotsName);
      entries := map[];
      fetches := [];
    }

    /** The loader: fetch the robots.txt URL, parse a successful body, otherwise EMPTY_ROBOTS. */
    method Load(key: CacheKey, fetch: FetchResult) returns (doc: RobotsTxt)
      ensures LoadedDocument(key, fetch).None? ==> doc == emptyRobots
      ensures LoadedDocument(key, fetch).Some? ==> fresh(doc) && doc.Value() == LoadedDocument(key, fetch).value
    {
      var url := RobotsUrl(key);
      if fetch.Response? && IsSuccessful(fetch.code) {
        var parsed := Parse(fetch.body, url);
        if parsed.Returned? {
          return parsed.value;
        }
      }
      return emptyRobots;
    }

    /**
     * RobotsCache.get at time `now`: a live entry for an equal key is
     * returned as is; otherwise the loader runs with `fetch` as the HTTP
     * outcome and its result is stored with an expiry computed from this
     * key's ttl.
     */
    method Get(uri: Url, ttlSeconds: int, executionId: string, jobExecutionId: string, collectionId: string,
               now: int, fetch: FetchResult)
      returns (doc: RobotsTxt)
      requires Valid()
      modifies this
      ensures Valid()
      ensures var key := NewCacheKey(uri, ttlSeconds, executionId, jobExecutionId, collectionId);
        old(Lookup(key, now)).Some? ==>
          doc == old(Lookup(key, now)).value && entries == old(entries) && fetches == old(fetches)
      ensures var key := NewCacheKey(uri, ttlSeconds, executionId, jobExecutionId, collectionId);
        old(Lookup(key, now)).None? ==>
          && fetches == old(fetches) + [key]
          && entries == old(entries)[Identity(key) := CacheEntry(doc, ExpiryFor(key, true, now))]
          && (LoadedDocument(key, fetch).None? ==> doc == emptyRobots)
          && (LoadedDocument(key, fetch).Some? ==> fresh(doc) && doc.Value() == LoadedDocument(key, fetch).value)
      ensures var seen := old(Seen(NewCacheKey(uri, ttlSeconds, executionId, jobExecutionId, collectionId), now, fetch));
        && (doc == emptyRobots <==> seen.Sentinel?)
        && (seen.Loaded? ==> doc.Value() == seen.doc)
    {
      var key := NewCacheKey(uri, ttlSeconds, executionId, jobExecutionId, collectionId);
      var id := Identity(key);
      if id in entries && IsLive(entries[id].expiry, now) {
        return entries[id].doc;
      }
      fetches := fetches + [key];
      doc := Load(key, fetch);
      entries := entries[id := CacheEntry(doc, ExpiryFor(key, true, now))];
    }
  }

  /**
   * Two lookups of the same origin and job execution, the first a miss: the
   * second, made before the entry the first one stored expires, returns the same document and fetches nothing,
   * whatever its ttl, execution id or collection id.
   */
  method RepeatGet(cache: RobotsCache, first: Url, second: Url, ttl1: int, ttl2: int,
                   executionId1: string, executionId2: string, jobExecutionId: string,
                   collection1: string, collection2: string,
                   now1: int, now2: int, fetch1: FetchResult, fetch2: FetchResult)
    returns (doc1: RobotsTxt, doc2: RobotsTxt)
    requires cache.Valid()
    requires KeyEquals(NewCacheKey(first, ttl1, executionId1, jobExecutionId, collection1),
                       NewCacheKey(second, ttl2, executionId2, jobExecutionId, collection2))
    requires cache.Lookup(NewCacheKey(first, ttl1, executionId1, jobExecutionId, collection1), now1).None?
    requires now1 <= now2 < now1 + 1000 * ttl1
    modifies cache
    ensures doc2 == doc1
    ensures |cache.fetches| == |old(cache.fetches)| + 1
  {
    var key1 := NewCacheKey(first, ttl1, executionId1, jobExecutionId, collection1);
    var key2 := NewCacheKey(second, ttl2, executionId2, jobExecutionId, collection2);
    doc1 := cache.Get(first, ttl1, executionId1, jobExecutionId, collection1, now1, fetch1);
    assert cache.Lookup(key1, now2) == Some(doc1);
    assert Identity(key2) == Identity(key1);
    doc2 := cache.Get(second, ttl2, executionId2, jobExecutionId, collection2, now2, fetch2);
  }
}
