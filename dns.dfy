/**
 * The hostname cache of the prober.
 *
 * A hostname that already is an IPv4 literal is used as it is. Any other
 * hostname is looked up in the cache first; an entry counts only while its
 * expiry lies strictly after the current clock reading. Otherwise the system
 * resolver is asked: a failure yields the empty address and leaves the cache
 * alone, a success is stored (over any older entry) with expiry now + TTL.
 *
 * The clock is a reading `now` in milliseconds, the TTL is in seconds. The
 * IPv4-literal test (`inet_pton`) and the resolver (`getaddrinfo` followed by
 * `inet_ntop`) are functions handed in by the caller.
 */
module Dns {
  import opened Wrappers

  /** One cached answer: the dotted address and the clock reading at which it expires. */
  datatype CacheEntry = CacheEntry(resolvedIp: string, expiry: nat)

  type Cache = map<string, CacheEntry>

  /** What the operating system answers about host names. */
  datatype Resolver = Resolver(isIpv4Literal: string -> bool, lookup: string -> Option<string>)

  /** The address handed back, the cache afterwards, and whether the resolver was asked. */
  datatype Resolution = Resolution(ip: string, cache: Cache, queried: bool)

  /** An entry for host that is still valid at `now`. */
  predicate Fresh(cache: Cache, host: string, now: nat)
  {
    host in cache && cache[host].expiry > now
  }

  /** The expiry stamped on an answer obtained at `now`. */
  function ExpiryAt(now: nat, ttlSeconds: nat): nat
  {
    now + ttlSeconds * 1000
  }

  /** Resolving a host name through the cache. */
  function Resolve(cache: Cache, host: string, resolver: Resolver, now: nat, ttlSeconds: nat): (r: Resolution)
    ensures forall h | h != host :: (h in r.cache <==> h in cache)
    ensures forall h | h != host && h in cache :: r.cache[h] == cache[h]
  {
    if resolver.isIpv4Literal(host) then Resolution(host, cache, false)
    else if Fresh(cache, host, now) then Resolution(cache[host].resolvedIp, cache, false)
    else
      match resolver.lookup(host)
      case None => Resolution("", cache, true)
      case Some(ip) => Resolution(ip, cache[host := CacheEntry(ip, ExpiryAt(now, ttlSeconds))], true)
  }

  /** An IPv4 literal comes back unchanged, and neither the cache nor the resolver is used. */
  lemma LiteralBypassesCache(cache: Cache, host: string, resolver: Resolver, now: nat, ttlSeconds: nat)
    requires resolver.isIpv4Literal(host)
    ensures Resolve(cache, host, resolver, now, ttlSeconds) == Resolution(host, cache, false)
  {
  }

  /**
   * For any other host the resolver is skipped exactly when a fresh entry
   * exists; then the cached address is returned and the cache is unchanged.
   */
  lemma CacheHitIffFresh(cache: Cache, host: string, resolver: Resolver, now: nat, ttlSeconds: nat)
    requires !resolver.isIpv4Literal(host)
    ensures var r := Resolve(cache, host, resolver, now, ttlSeconds);
      (!r.queried <==> Fresh(cache, host, now))
      && (!r.queried ==> r.ip == cache[host].resolvedIp && r.cache == cache)
  {
  }

  /** A failed lookup yields the empty address and leaves the cache as it was. */
  lemma FailedLookupKeepsCache(cache: Cache, host: string, resolver: Resolver, now: nat, ttlSeconds: nat)
    requires !resolver.isIpv4Literal(host) && !Fresh(cache, host, now)
    requires resolver.lookup(host).None?
    ensures Resolve(cache, host, resolver, now, ttlSeconds) == Resolution("", cache, true)
  {
  }

  /** A successful lookup is returned and stored with expiry now + TTL, replacing a stale entry. */
  lemma SuccessfulLookupIsStored(cache: Cache, host: string, resolver: Resolver, now: nat, ttlSeconds: nat)
    requires !resolver.isIpv4Literal(host) && !Fresh(cache, host, now)
    requires resolver.lookup(host).Some?
    ensures var r := Resolve(cache, host, resolver, now, ttlSeconds);
      && r.ip == resolver.lookup(host).value
      && host in r.cache && r.cache[host] == CacheEntry(r.ip, now + ttlSeconds * 1000)
  {
  }

  /**
   * Within the TTL a name is resolved only once: after a successful lookup at
   * `now`, any later call before now + TTL returns the same address without
   * asking a resolver (whatever it would answer) and without changing the
   * cache, whatever TTL is configured by then.
   */
  lemma {:induction false} ResolvedOncePerTtl(cache: Cache, host: string, resolver: Resolver, now: nat, ttlSeconds: nat,
                                              later: nat, resolver': Resolver, ttl': nat)
    requires !resolver.isIpv4Literal(host) && !resolver'.isIpv4Literal(host)
    requires Resolve(cache, host, resolver, now, ttlSeconds).queried
    requires resolver.lookup(host).Some?
    requires now <= later < now + ttlSeconds * 1000
    ensures var r1 := Resolve(cache, host, resolver, now, ttlSeconds);
      var r2 := Resolve(r1.cache, host, resolver', later, ttl');
      r2 == Resolution(r1.ip, r1.cache, false)
  {
    var r1 := Resolve(cache, host, resolver, now, ttlSeconds);
    SuccessfulLookupIsStored(cache, host, resolver, now, ttlSeconds);
    assert Fresh(r1.cache, host, later);
  }

  /** Once an entry has expired, the next call asks the resolver again. */
  lemma ExpiredEntryIsRefreshed(cache: Cache, host: string, resolver: Resolver, now: nat, ttlSeconds: nat)
    requires !resolver.isIpv4Literal(host)
    requires host in cache && cache[host].expiry <= now
    ensures Resolve(cache, host, resolver, now, ttlSeconds).queried
  {
  }

  /** After the cache is cleared, every name that is not a literal is looked up afresh. */
  lemma ClearedCacheAsksResolver(host: string, resolver: Resolver, now: nat, ttlSeconds: nat)
    requires !resolver.isIpv4Literal(host)
    ensures Resolve(map[], host, resolver, now, ttlSeconds).queried
  {
  }
}
