/**
 * RobotsService.java: one IsAllowed request, answered according to the
 * crawl's robots policy from the cache, from the request's own robots.txt
 * text, or not at all.
 */
module Service {
  import opened Wrappers
  import opened Matching
  import opened Parsing
  import opened Caching

  /** The robots policies of the politeness configuration. */
  datatype RobotsPolicy =
    | ObeyRobots
    | ObeyRobotsClassic
    | IgnoreRobots
    | CustomRobots
    | CustomRobotsClassic
    | CustomIfMissing
    | CustomIfMissingClassic
    | Unrecognized(number: int)

  /** The fields of IsAllowedRequest the service reads. */
  datatype Request = Request(
    uri: string,
    userAgent: string,
    executionId: string,
    jobExecutionId: string,
    collectionId: string,
    minimumRobotsValiditySeconds: int,
    policy: RobotsPolicy,
    customRobots: ParseInput)

  /** What reaches the response observer: onNext with a reply, or onError with a description. */
  datatype Response = Next(reply: Reply) | Error(description: string)

  const DefaultTtlSeconds := 300

  /** The cache ttl: an unset (zero) validity duration means 300 seconds. */
  function EffectiveTtl(minimumRobotsValiditySeconds: int): (ttl: int)
    ensures minimumRobotsValiditySeconds == 0 ==> ttl == DefaultTtlSeconds
    ensures minimumRobotsValiditySeconds != 0 ==> ttl == minimumRobotsValiditySeconds
  {
    if minimumRobotsValiditySeconds == 0 then DefaultTtlSeconds else minimumRobotsValiditySeconds
  }

  /** The source name the request's own robots.txt text is parsed under. */
  const CustomSourceName := "custom"

  predicate UsesCache(policy: RobotsPolicy) {
    policy.ObeyRobots? || policy.ObeyRobotsClassic? || policy.CustomIfMissing? || policy.CustomIfMissingClassic?
  }

  /** The reply of a document, or the error of a parse that threw. */
  function DocumentResponse(doc: Option<Document>, parsedUserAgent: string, path: string): Response {
    match doc
    case None => Error(NullPointer)
    case Some(d) => Next(IsAllowed(d, parsedUserAgent, path))
  }

  /**
   * The response to a request whose URI parsed, given the user agent as
   * parsed and what the cache returns for the request's key.
   */
  function Evaluate(policy: RobotsPolicy, customRobots: ParseInput, parsedUserAgent: string, path: string,
                    seen: CachedDocument): (r: Response)
    ensures r.Error? ==> r.description == NullPointer
    // OBEY_ROBOTS: the site's own document; a site without one is crawled freely
    ensures (policy.ObeyRobots? || policy.ObeyRobotsClassic?) && seen.Loaded? ==>
      r == Next(IsAllowed(seen.doc, parsedUserAgent, path))
    ensures (policy.ObeyRobots? || policy.ObeyRobotsClassic?) && seen.Sentinel? ==> r == Next(EmptyAllowedReply)
    // IGNORE_ROBOTS and a policy the service does not implement: everything is allowed
    ensures (policy.IgnoreRobots? || policy.Unrecognized?) ==> r == Next(EmptyAllowedReply)
    // CUSTOM_ROBOTS: the request's own text, whatever the cache holds
    ensures (policy.CustomRobots? || policy.CustomRobotsClassic?) ==>
      r == DocumentResponse(ParseResult(customRobots, CustomSourceName), parsedUserAgent, path)
    // CUSTOM_IF_MISSING: the request's own text only when the site has none
    ensures (policy.CustomIfMissing? || policy.CustomIfMissingClassic?) && seen.Sentinel? ==>
      r == DocumentResponse(ParseResult(customRobots, CustomSourceName), parsedUserAgent, path)
    ensures (policy.CustomIfMissing? || policy.CustomIfMissingClassic?) && seen.Loaded? ==>
      r == Next(IsAllowed(seen.doc, parsedUserAgent, path))
  {
    assert FindMatchingDirectives(EmptyDocument(EmptyRobotsName).groups, parsedUserAgent).None? by {
      assert GroupScores([], parsedUserAgent) == [];
    }
    var custom := DocumentResponse(ParseResult(customRobots, CustomSourceName), parsedUserAgent, path);
    var cached := match seen
      case Sentinel => Next(IsAllowed(EmptyDocument(EmptyRobotsName), parsedUserAgent, path))
      case Loaded(doc) => Next(IsAllowed(doc, parsedUserAgent, path));
    match policy
    case ObeyRobots => cached
    case ObeyRobotsClassic => cached
    case IgnoreRobots => Next(EmptyAllowedReply)
    case CustomRobots => custom
    case CustomRobotsClassic => custom
    case CustomIfMissing => if seen.Sentinel? then custom else cached
    case CustomIfMissingClassic => if seen.Sentinel? then custom else cached
    case Unrecognized(_) => Next(EmptyAllowedReply)
  }

  /**
   * The gRPC service. Parsing the request URI (java.net.URL) and the user
   * agent (UserAgentParser) are outside this model and are given as functions.
   */
  class RobotsService {
    const cache: RobotsCache
    const parseUrl: string -> Outcome<Url>
    const parseUserAgent: string -> string

    predicate Valid()
      reads this, cache, cache.emptyRobots
    {
      cache.Valid()
    }

    constructor (cache: RobotsCache, parseUrl: string -> Outcome<Url>, parseUserAgent: string -> string)
      requires cache.Valid()
      ensures Valid()
      ensures this.cache == cache && this.parseUrl == parseUrl && this.parseUserAgent == parseUserAgent
    {
      this.cache := cache;
      this.parseUrl := parseUrl;
      this.parseUserAgent := parseUserAgent;
    }

    /** The cache key of a request whose URI parsed as `url`. */
    function KeyOf(request: Request, url: Url): CacheKey {
      NewCacheKey(url, EffectiveTtl(request.minimumRobotsValiditySeconds),
                  request.executionId, request.jobExecutionId, request.collectionId)
    }

    /**
     * RobotsService.isAllowed at time `now`, with `fetch` as the HTTP outcome
     * should the cache load: a URI that does not parse is an error; otherwise
     * the response is Evaluate's for what the cache held (or loads), and only
     * the cache-backed policies touch the cache.
     */
    method IsAllowed(request: Request, now: int, fetch: FetchResult) returns (r: Response)
      requires Valid()
      modifies cache
      ensures Valid()
      ensures parseUrl(request.uri).Threw? ==>
        r == Error(parseUrl(request.uri).exception) && unchanged(cache)
      ensures parseUrl(request.uri).Returned? ==>
        var url := parseUrl(request.uri).value;
        r == Evaluate(request.policy, request.customRobots, parseUserAgent(request.userAgent), url.path,
                      old(cache.Seen(KeyOf(request, url), now, fetch)))
      ensures parseUrl(request.uri).Returned? && !UsesCache(request.policy) ==> unchanged(cache)
      ensures parseUrl(request.uri).Returned? && UsesCache(request.policy) ==>
        var key := KeyOf(request, parseUrl(request.uri).value);
        old(cache.Lookup(key, now)).Some? ==> cache.entries == old(cache.entries) && cache.fetches == old(cache.fetches)
      ensures parseUrl(request.uri).Returned? && UsesCache(request.policy) ==>
        var key := KeyOf(request, parseUrl(request.uri).value);
        var seen := old(cache.Seen(key, now, fetch));
        old(cache.Lookup(key, now)).None? ==>
          && cache.fetches == old(cache.fetches) + [key]
          && Identity(key) in cache.entries
          && cache.entries == old(cache.entries)[Identity(key) := CacheEntry(cache.entries[Identity(key)].doc, ExpiryFor(key, true, now))]
          && (cache.entries[Identity(key)].doc == cache.emptyRobots <==> seen.Sentinel?)
          && (seen.Loaded? ==> cache.entries[Identity(key)].doc.Value() == seen.doc)
    {
      var parsedUrl := parseUrl(request.uri);
      if parsedUrl.Threw? {
        return Error(parsedUrl.exception);
      }
      var url := parsedUrl.value;
      var ttlSeconds := EffectiveTtl(request.minimumRobotsValiditySeconds);
      var agent := parseUserAgent(request.userAgent);
      var policy := request.policy;
      if policy.ObeyRobots? || policy.ObeyRobotsClassic? {
        var doc := cache.Get(url, ttlSeconds, request.executionId, request.jobExecutionId, request.collectionId, now, fetch);
        r := Next(Matching.IsAllowed(doc.Value(), agent, url.path));
      } else if policy.IgnoreRobots? {
        r := Next(EmptyAllowedReply);
      } else if policy.CustomRobots? || policy.CustomRobotsClassic? {
        r := Custom(request.customRobots, agent, url.path);
      } else if policy.CustomIfMissing? || policy.CustomIfMissingClassic? {
        var doc := cache.Get(url, ttlSeconds, request.executionId, request.jobExecutionId, request.collectionId, now, fetch);
        if doc == cache.emptyRobots {
          r := Custom(request.customRobots, agent, url.path);
        } else {
          r := Next(Matching.IsAllowed(doc.Value(), agent, url.path));
        }
      } else {
        r := Next(EmptyAllowedReply);
      }
    }

    /** Parses the request's own robots.txt text and evaluates it; a parse that throws becomes the error response. */
    method Custom(customRobots: ParseInput, agent: string, path: string) returns (r: Response)
      ensures r == DocumentResponse(ParseResult(customRobots, CustomSourceName), agent, path)
    {
      var parsed := Parse(customRobots, CustomSourceName);
      match parsed {
        case Threw(exception) => r := Error(exception);
        case Returned(doc) => r := Next(Matching.IsAllowed(doc.Value(), agent, path));
      }
    }
  }
}
