/** Properties of the cache key, the robots.txt URL and the expiry rule. */
module CachingProperties {
  import opened Wrappers
  import opened Text
  import opened Caching

  /** hashCode is consistent with equals. */
  lemma EqualKeysHashEqually(a: CacheKey, b: CacheKey)
    requires KeyEquals(a, b)
    ensures HashCode(a) == HashCode(b)
  {
  }

  /** The ttl, execution id and collection id of a request do not select a different entry. */
  lemma KeyIgnoresRequestDetails(uri: Url, ttl1: int, ttl2: int, executionId1: string, executionId2: string,
                                 jobExecutionId: string, collection1: string, collection2: string)
    ensures KeyEquals(NewCacheKey(uri, ttl1, executionId1, jobExecutionId, collection1),
                      NewCacheKey(uri, ttl2, executionId2, jobExecutionId, collection2))
  {
  }

  /** Different job executions never share an entry. */
  lemma JobExecutionsAreSeparate(uri: Url, ttl: int, executionId: string, job1: string, job2: string, collectionId: string)
    requires job1 != job2
    ensures !KeyEquals(NewCacheKey(uri, ttl, executionId, job1, collectionId),
                       NewCacheKey(uri, ttl, executionId, job2, collectionId))
  {
  }

  /** A URI without a port and one naming its scheme's default port share an entry. */
  lemma DefaultPortIsExplicitPort(implicitPort: Url, explicitPort: Url, ttl: int, executionId: string,
                                  jobExecutionId: string, collectionId: string)
    requires implicitPort.port == NoPort && implicitPort.defaultPort != NoPort
    requires explicitPort.port == implicitPort.defaultPort
    requires explicitPort.protocol == implicitPort.protocol && explicitPort.host == implicitPort.host
    ensures KeyEquals(NewCacheKey(implicitPort, ttl, executionId, jobExecutionId, collectionId),
                      NewCacheKey(explicitPort, ttl, executionId, jobExecutionId, collectionId))
  {
  }

  /** A loaded entry is served exactly during the ttl window that starts at its load time. */
  lemma LoadedEntryLiveWindow(key: CacheKey, loadTime: int, now: int)
    ensures IsLive(ExpiryFor(key, true, loadTime), now) <==> now < loadTime + 1000 * key.ttlSeconds
  {
  }

  /** With a ttl of zero or less a loaded entry is never served. */
  lemma NonPositiveTtlNeverServes(key: CacheKey, loadTime: int, now: int)
    requires key.ttlSeconds <= 0 && loadTime <= now
    ensures !IsLive(ExpiryFor(key, true, loadTime), now)
  {
  }

  /** A non-success status or a failed fetch stores the sentinel. */
  lemma UnsuccessfulFetchIsSentinel(key: CacheKey, fetch: FetchResult)
    requires fetch.FetchFailed? || !IsSuccessful(fetch.code)
    ensures LoadedDocument(key, fetch).None?
  {
  }
}
