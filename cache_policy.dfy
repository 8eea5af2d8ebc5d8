/** The freshness rule shared by the dashboard's application directory and the sidebar's
    menu tree: a cached copy younger than one hour is used instead of asking the server. */
module CachePolicy {

  /** `CACHE_EXPIRY = 60 * 60 * 1000` milliseconds. */
  const ExpiryMs: int := 60 * 60 * 1000

  /** `Date.now() - timestamp < CACHE_EXPIRY`. */
  predicate IsFresh(timestamp: int, now: int)
  {
    now - timestamp < ExpiryMs
  }

  /** What reading a cache entry decided. */
  datatype Lookup<T> =
    /** A fresh copy: use it and do not fetch. */
    | Fresh(data: T)
    /** Missing, empty or expired: fetch. */
    | Stale
    /** Present but not a document of the expected shape: `JSON.parse` or the
        destructuring threw, so control went to the component's `catch`. */
    | Unreadable

  /** An entry exactly one hour old is stale; one a millisecond younger is fresh. */
  lemma ExpiryBoundary(timestamp: int)
    ensures !IsFresh(timestamp, timestamp + ExpiryMs)
    ensures IsFresh(timestamp, timestamp + ExpiryMs - 1)
    ensures ExpiryMs == 3600000
  {
  }
}
