/**
 * The prober: how one probe result updates a server, what the default probe
 * does, and how a batch of servers is probed.
 *
 * The default probe parses the address, resolves the host through the
 * cache, and tries a TCP connect with a timeout. The connect attempt itself
 * (socket, non-blocking connect, select, SO_ERROR) is the `connect` function
 * of a `Network` handed in by the caller, as are the resolver functions.
 * The thread pool of the batch is run as one sequential loop in index order.
 */
module Ping {
  import opened Wrappers
  import opened ServerRecord
  import opened Address
  import opened Dns
  import Failover

  /** Consecutive failed probes after which a server is marked not alive. */
  const FAILURE_THRESHOLD: nat := 3

  const DEFAULT_TIMEOUT_MS: nat := 1000
  const DEFAULT_INTERVAL_MS: nat := 5000
  const DEFAULT_THREAD_POOL_SIZE: nat := 4
  const DEFAULT_DNS_CACHE_TTL_S: nat := 300

  /** The operating system as the default probe sees it: name resolution and a TCP connect to (ip, port, timeout in ms). */
  datatype Network = Network(resolver: Resolver, connect: (string, nat, nat) -> bool)

  /** The probe in use: the built-in TCP probe, or a caller-supplied function of (address, timeout in ms). */
  datatype Probe = DefaultProbe | CustomProbe(run: (string, nat) -> bool)

  /** `htons` of an int port: the value is truncated to its low 16 bits. */
  function Port16(port: int): nat
  {
    port % 65536
  }

  /** The result of the default probe and the DNS cache after it. */
  function DefaultOutcome(address: string, timeoutMs: nat, cache: Cache, ttlSeconds: nat, net: Network, now: nat): (r: (bool, Cache))
    ensures ParseServerAddress(address).Err? ==> r == (false, cache)
    ensures r.0 ==> ParseServerAddress(address).Ok?
    ensures cache.Keys <= r.1.Keys
    ensures ParseServerAddress(address).Ok? ==> var host := ParseServerAddress(address).value.host;
      forall h | h != host :: (h in r.1 <==> h in cache) && (h in cache ==> r.1[h] == cache[h])
  {
    match ParseServerAddress(address)
    case Err(_) => (false, cache)
    case Ok(ep) =>
      var res := Resolve(cache, ep.host, net.resolver, now, ttlSeconds);
      if res.ip == [] then (false, res.cache)
      else (net.connect(res.ip, Port16(ep.port), timeoutMs), res.cache)
  }

  /** The result of whichever probe is installed, and the DNS cache after it; a custom probe leaves the cache alone. */
  function ProbeOutcome(probe: Probe, address: string, timeoutMs: nat, cache: Cache, ttlSeconds: nat, net: Network, now: nat): (bool, Cache)
  {
    match probe
    case DefaultProbe => DefaultOutcome(address, timeoutMs, cache, ttlSeconds, net, now)
    case CustomProbe(run) => (run(address, timeoutMs), cache)
  }

  /**
   * The default probe of "host:port" connects to the port reduced modulo
   * 65536: an out-of-range or negative port is not rejected but wraps
   * (65616 reaches port 80, -1 reaches 65535).
   */
  lemma ProbeUsesPortModulo(host: string, port: int, timeoutMs: nat, cache: Cache, ttlSeconds: nat, net: Network, now: nat)
    requires ':' !in host && INT_MIN <= port <= INT_MAX
    ensures var res := Resolve(cache, host, net.resolver, now, ttlSeconds);
      DefaultOutcome(host + ":" + IntToString(port), timeoutMs, cache, ttlSeconds, net, now)
        == (res.ip != [] && net.connect(res.ip, port % 65536, timeoutMs), res.cache)
  {
    ParseRoundTrip(host, port);
  }

  /** A bare host name is probed on port 80. */
  lemma BareHostProbesPort80(host: string, timeoutMs: nat, cache: Cache, ttlSeconds: nat, net: Network, now: nat)
    requires ':' !in host
    ensures var res := Resolve(cache, host, net.resolver, now, ttlSeconds);
      DefaultOutcome(host, timeoutMs, cache, ttlSeconds, net, now)
        == (res.ip != [] && net.connect(res.ip, 80, timeoutMs), res.cache)
  {
    assert ParseServerAddress(host) == Ok(Endpoint(host, DEFAULT_PORT));
  }

  /** An address whose port text does not parse fails the default probe without touching the cache. */
  lemma BadPortFailsProbe(host: string, portText: string, timeoutMs: nat, cache: Cache, ttlSeconds: nat, net: Network, now: nat)
    requires ':' !in host
    requires Stoi(portText).Err?
    ensures DefaultOutcome(host + ":" + portText, timeoutMs, cache, ttlSeconds, net, now) == (false, cache)
  {
    var a := host + ":" + portText;
    assert a[|host|] == ':';
    var k := FirstColon(a);
    assert a[..|host|] == host;
    assert k == |host|;
    assert a[k + 1..] == portText;
  }

  // ---------------------------------------------------------------------------
  // The outcome rule.

  /**
   * One probe result applied to a server's health fields: success marks it
   * healthy and alive with no failures; failure marks it unhealthy, counts the
   * failure (wrapping at 2^32) and marks it not alive once the count reaches
   * the threshold. Either way the probe time is recorded.
   */
  function AfterProbe(h: HealthState, ok: bool, now: nat): (r: HealthState)
    ensures r.healthy == ok && r.lastHealthCheck == now
    ensures ok ==> r.alive && r.failures == 0
    ensures !ok ==> r.failures == Inc32(h.failures)
    ensures !ok ==> (r.alive <==> h.alive && r.failures < FAILURE_THRESHOLD)
  {
    if ok then HealthState(true, true, 0, now)
    else
      var f := Inc32(h.failures);
      HealthState(if f >= FAILURE_THRESHOLD then false else h.alive, false, f, now)
  }

  /** A sequence of probe results applied in order. */
  function AfterProbes(h: HealthState, outcomes: seq<bool>, now: nat): HealthState
  {
    if outcomes == [] then h
    else AfterProbe(AfterProbes(h, outcomes[..|outcomes| - 1], now), outcomes[|outcomes| - 1], now)
  }

  /** The number of failed probes at the end of the sequence, after its last success. */
  function TrailingFailures(outcomes: seq<bool>): (k: nat)
    ensures k <= |outcomes|
  {
    if outcomes == [] || outcomes[|outcomes| - 1] then 0
    else 1 + TrailingFailures(outcomes[..|outcomes| - 1])
  }

  /**
   * The failure count after a history of probe results: the length of the
   * final failure streak, added to the old count when there was no success
   * at all, wrapping at 2^32.
   */
  lemma {:induction false} FailureCount(h: HealthState, outcomes: seq<bool>, now: nat)
    ensures var r := AfterProbes(h, outcomes, now); var k := TrailingFailures(outcomes);
      && (k < |outcomes| ==> r.failures == k % U32_MODULUS)
      && (k == |outcomes| ==> r.failures == (h.failures + k) % U32_MODULUS)
  {
    if outcomes != [] && !outcomes[|outcomes| - 1] {
      var init := outcomes[..|outcomes| - 1];
      FailureCount(h, init, now);
      var k' := TrailingFailures(init);
      if k' < |init| {
        Failover.ModShift(k', 1, U32_MODULUS);
      } else {
        Failover.ModShift(h.failures + k', 1, U32_MODULUS);
      }
    }
  }

  /**
   * Whether a server is alive after a history of probe results: after a
   * success it stays alive exactly while the final failure streak is shorter
   * than the threshold, however long the streak grows, because the server is
   * marked not alive before the count can wrap; with no success at all an
   * alive server stays alive while the old count plus the streak is below the
   * threshold and is not alive once it reaches it (short of wrapping), and a
   * server that was not alive stays so.
   */
  lemma {:induction false} AliveAfterHistory(h: HealthState, outcomes: seq<bool>, now: nat)
    ensures var r := AfterProbes(h, outcomes, now); var k := TrailingFailures(outcomes);
      && (k < |outcomes| ==> (r.alive <==> k < FAILURE_THRESHOLD))
      && (0 < k == |outcomes| && FAILURE_THRESHOLD <= h.failures + k < U32_MODULUS ==> !r.alive)
      && (k == |outcomes| && h.alive && h.failures + k < FAILURE_THRESHOLD ==> r.alive)
      && (k == |outcomes| && !h.alive ==> !r.alive)
  {
    if outcomes != [] && !outcomes[|outcomes| - 1] {
      var init := outcomes[..|outcomes| - 1];
      AliveAfterHistory(h, init, now);
      FailureCount(h, init, now);
      var prev := AfterProbes(h, init, now);
      var k' := TrailingFailures(init);
      if k' < |init| {
        if k' < FAILURE_THRESHOLD {
          assert k' % U32_MODULUS == k';
        } else {
          assert !prev.alive;
        }
      } else if h.failures + k' + 1 < U32_MODULUS {
        assert (h.failures + k') % U32_MODULUS == h.failures + k';
        assert prev.failures == h.failures + k';
      }
    }
  }

  /**
   * What a history of probe results leaves behind: the failure count and
   * aliveness above, and the health flag and probe time of the last result.
   * A server that is not alive becomes alive again only through a success.
   */
  lemma ProbeHistory(h: HealthState, outcomes: seq<bool>, now: nat)
    ensures var r := AfterProbes(h, outcomes, now); var k := TrailingFailures(outcomes);
      && (k < |outcomes| ==> r.failures == k % U32_MODULUS)
      && (k == |outcomes| ==> r.failures == (h.failures + k) % U32_MODULUS)
      && (outcomes != [] ==> r.healthy == outcomes[|outcomes| - 1] && r.lastHealthCheck == now)
      && (k < |outcomes| ==> (r.alive <==> k < FAILURE_THRESHOLD))
      && (0 < k == |outcomes| && FAILURE_THRESHOLD <= h.failures + k < U32_MODULUS ==> !r.alive)
      && (k == |outcomes| && h.alive && h.failures + k < FAILURE_THRESHOLD ==> r.alive)
      && (k == |outcomes| && !h.alive ==> !r.alive)
  {
    FailureCount(h, outcomes, now);
    AliveAfterHistory(h, outcomes, now);
  }

  /** A fresh server (no failures yet) is marked not alive by its third failed probe in a row, not before. */
  lemma ThreeStrikes(h: HealthState, now: nat)
    requires h.alive && h.failures == 0
    ensures AfterProbes(h, [false, false], now).alive
    ensures !AfterProbes(h, [false, false, false], now).alive
  {
    var h1 := AfterProbe(h, false, now);
    var h2 := AfterProbe(h1, false, now);
    assert h1.alive && h1.failures == 1;
    assert h2.alive && h2.failures == 2;
    assert !AfterProbe(h2, false, now).alive;
    AfterProbesSnoc(h, [], false, now);
    AfterProbesSnoc(h, [false], false, now);
    AfterProbesSnoc(h, [false, false], false, now);
    assert [] + [false] == [false];
    assert [false] + [false] == [false, false];
    assert [false, false] + [false] == [false, false, false];
  }

  /** Apply one probe result to a server, through its setters, in the order the prober calls them. */
  method RecordOutcome(server: Server, result: bool, now: nat)
    modifies server
    ensures server.Health() == AfterProbe(old(server.Health()), result, now)
    ensures server.address == old(server.address) && server.weight == old(server.weight)
    ensures server.connections == old(server.connections)
  {
    server.SetHealthy(result);
    server.UpdateLastHealthCheck(now);
    if !result {
      server.IncrementFailures();
      if server.failures >= FAILURE_THRESHOLD {
        server.SetAlive(false);
      }
    } else {
      server.ResetFailures();
      server.SetAlive(true);
    }
  }

  // ---------------------------------------------------------------------------
  // Batches.

  /** The addresses of a list of servers, in order. */
  function Addresses(servers: seq<Server>): (a: seq<string>)
    reads servers
    ensures |a| == |servers| && forall i | 0 <= i < |servers| :: a[i] == servers[i].address
  {
    if servers == [] then [] else Addresses(servers[..|servers| - 1]) + [servers[|servers| - 1].address]
  }

  /** The installed probe with the batch's timeout, TTL, network and clock fixed: an address and a cache to a result and a cache. */
  function Prober(probe: Probe, timeoutMs: nat, ttlSeconds: nat, net: Network, now: nat): (string, Cache) -> (bool, Cache)
  {
    (a, c) => ProbeOutcome(probe, a, timeoutMs, c, ttlSeconds, net, now)
  }

  /** The results of probing the addresses in order with step, and the DNS cache after the last probe. */
  function Batch(step: (string, Cache) -> (bool, Cache), addresses: seq<string>, cache: Cache): (r: (seq<bool>, Cache))
    ensures |r.0| == |addresses|
  {
    if addresses == [] then ([], cache)
    else
      var prev := Batch(step, addresses[..|addresses| - 1], cache);
      var o := step(addresses[|addresses| - 1], prev.1);
      (prev.0 + [o.0], o.1)
  }

  /** With a custom probe, a batch is that probe applied to each address, and the cache is left alone. */
  lemma {:induction false} CustomBatch(run: (string, nat) -> bool, addresses: seq<string>, timeoutMs: nat, cache: Cache, ttlSeconds: nat, net: Network, now: nat)
    ensures var r := Batch(Prober(CustomProbe(run), timeoutMs, ttlSeconds, net, now), addresses, cache);
      r.1 == cache && forall i | 0 <= i < |addresses| :: r.0[i] == run(addresses[i], timeoutMs)
  {
    if addresses != [] {
      CustomBatch(run, addresses[..|addresses| - 1], timeoutMs, cache, ttlSeconds, net, now);
    }
  }

  /** The results that concern candidate x: those at the positions where x occurs, in order. */
  function OutcomesFor<T(==)>(list: seq<T>, outcomes: seq<bool>, x: T): seq<bool>
    requires |outcomes| == |list|
  {
    if list == [] then []
    else
      OutcomesFor(list[..|list| - 1], outcomes[..|outcomes| - 1], x)
        + (if list[|list| - 1] == x then [outcomes[|outcomes| - 1]] else [])
  }

  lemma OutcomesForSnoc<T>(list: seq<T>, outcomes: seq<bool>, y: T, o: bool, x: T)
    requires |outcomes| == |list|
    ensures OutcomesFor(list + [y], outcomes + [o], x) == OutcomesFor(list, outcomes, x) + (if y == x then [o] else [])
  {
    assert (list + [y])[..|list|] == list;
    assert (outcomes + [o])[..|outcomes|] == outcomes;
  }

  /** A candidate that occurs once in the list is probed once: its results are the one at its position. */
  lemma {:induction false} OutcomesForSingle<T>(list: seq<T>, outcomes: seq<bool>, i: nat)
    requires |outcomes| == |list| && i < |list|
    requires forall j | 0 <= j < |list| && j != i :: list[j] != list[i]
    ensures OutcomesFor(list, outcomes, list[i]) == [outcomes[i]]
  {
    var n := |list|;
    var init := list[..n - 1];
    if i == n - 1 {
      OutcomesForAbsent(init, outcomes[..n - 1], list[i]);
    } else {
      OutcomesForSingle(init, outcomes[..n - 1], i);
    }
  }

  lemma {:induction false} OutcomesForAbsent<T>(list: seq<T>, outcomes: seq<bool>, x: T)
    requires |outcomes| == |list| && x !in list
    ensures OutcomesFor(list, outcomes, x) == []
  {
    if list != [] {
      OutcomesForAbsent(list[..|list| - 1], outcomes[..|outcomes| - 1], x);
    }
  }

  lemma AfterProbesSnoc(h: HealthState, outcomes: seq<bool>, o: bool, now: nat)
    ensures AfterProbes(h, outcomes + [o], now) == AfterProbe(AfterProbes(h, outcomes, now), o, now)
  {
    assert (outcomes + [o])[..|outcomes|] == outcomes;
  }

  lemma BatchSnoc(step: (string, Cache) -> (bool, Cache), addresses: seq<string>, k: nat, cache: Cache)
    requires k < |addresses|
    ensures var prev := Batch(step, addresses[..k], cache);
      var o := step(addresses[k], prev.1);
      Batch(step, addresses[..k + 1], cache) == (prev.0 + [o.0], o.1)
  {
    assert addresses[..k + 1][..k] == addresses[..k];
  }

  /**
   * One more probe result extends the batch by one entry, and the overall
   * verdict stays the conjunction of the results so far.
   */
  lemma BatchStep(step: (string, Cache) -> (bool, Cache), addresses: seq<string>, cache0: Cache,
                  outcomes: seq<bool>, allOk: bool, cache: Cache, result: bool, cache': Cache)
    requires |outcomes| < |addresses|
    requires (outcomes, cache) == Batch(step, addresses[..|outcomes|], cache0)
    requires allOk <==> forall i | 0 <= i < |outcomes| :: outcomes[i]
    requires (result, cache') == step(addresses[|outcomes|], cache)
    ensures (outcomes + [result], cache') == Batch(step, addresses[..|outcomes| + 1], cache0)
    ensures allOk && result <==> forall i | 0 <= i < |outcomes| + 1 :: (outcomes + [result])[i]
  {
    BatchSnoc(step, addresses, |outcomes|, cache0);
    var outcomes' := outcomes + [result];
    assert forall i | 0 <= i < |outcomes| :: outcomes'[i] == outcomes[i];
    assert outcomes'[|outcomes|] == result;
  }

  /** Every server of the batch has had the results at its positions among the first |outcomes| applied to its starting state h0. */
  ghost predicate HealthFollows(servers: seq<Server>, h0: map<Server, HealthState>, outcomes: seq<bool>, now: nat)
    reads servers
  {
    && |outcomes| <= |servers|
    && forall s | s in servers ::
      s in h0 && s.Health() == AfterProbes(h0[s], OutcomesFor(servers[..|outcomes|], outcomes, s), now)
  }

  /** What a probe never changes on a server: its address, weight and connection count. */
  datatype Fixed = Fixed(address: string, weight: u32, connections: u32)

  /** Every server of the batch still has the address, weight and connection count recorded in f0. */
  ghost predicate Kept(servers: seq<Server>, f0: map<Server, Fixed>)
    reads servers
  {
    forall s | s in servers :: s in f0 && f0[s] == Fixed(s.address, s.weight, s.connections)
  }

  /**
   * What stays fixed while a batch runs: the servers, the probe step, the
   * clock reading, each server's health and fixed fields at the start, the
   * addresses as they were read, and the DNS cache at the start.
   */
  datatype BatchRun = BatchRun(servers: seq<Server>, step: (string, Cache) -> (bool, Cache), now: nat,
                               h0: map<Server, HealthState>, f0: map<Server, Fixed>, addrs: seq<string>, cache0: Cache)

  /**
   * Where a batch stands after its first |outcomes| entries: the results and
   * the cache are those of the batch of the step over the addresses, allOk
   * says whether every result so far is a success, each server's health has
   * had its results applied, and no address, weight or connection count has changed.
   */
  ghost predicate Progress(run: BatchRun, outcomes: seq<bool>, allOk: bool, cache: Cache)
    reads run.servers
  {
    && |run.addrs| == |run.servers| && |outcomes| <= |run.servers|
    && (forall i | 0 <= i < |run.servers| :: run.servers[i] in run.f0 && run.addrs[i] == run.f0[run.servers[i]].address)
    && (outcomes, cache) == Batch(run.step, run.addrs[..|outcomes|], run.cache0)
    && (allOk <==> forall i | 0 <= i < |outcomes| :: outcomes[i])
    && HealthFollows(run.servers, run.h0, outcomes, run.now)
    && Kept(run.servers, run.f0)
  }

  /** Before any entry is probed, the batch stands at its start. */
  lemma BatchStarts(run: BatchRun)
    requires run.addrs == Addresses(run.servers)
    requires forall s | s in run.servers :: s in run.h0 && run.h0[s] == s.Health()
    requires forall s | s in run.servers :: s in run.f0 && run.f0[s] == Fixed(s.address, s.weight, s.connections)
    ensures Progress(run, [], true, run.cache0)
  {
    assert run.servers[..0] == [];
    assert run.addrs[..0] == [];
  }

  /**
   * Recording on the next server the result of the step on its address,
   * while no other server changes, extends the batch by one entry.
   */
  twostate lemma EntryStep(run: BatchRun, new outcomes: seq<bool>, new allOk: bool, new cache: Cache,
                           new result: bool, new cache': Cache)
    requires |outcomes| < |run.servers|
    requires old(Progress(run, outcomes, allOk, cache))
    requires var s := run.servers[|outcomes|];
      && (result, cache') == run.step(old(s.address), cache)
      && s.Health() == AfterProbe(old(s.Health()), result, run.now)
      && s.address == old(s.address) && s.weight == old(s.weight) && s.connections == old(s.connections)
    requires forall s | s in run.servers && s != run.servers[|outcomes|] ::
      s.Health() == old(s.Health()) && Fixed(s.address, s.weight, s.connections) == old(Fixed(s.address, s.weight, s.connections))
    ensures Progress(run, outcomes + [result], allOk && result, cache')
  {
    HealthStep(run, outcomes, result);
    BatchStep(run.step, run.addrs, run.cache0, outcomes, allOk, cache, result, cache');
  }

  /**
   * Recording result on the next server, while no other server changes,
   * applies it to that server's health and keeps every fixed field.
   */
  twostate lemma HealthStep(run: BatchRun, new outcomes: seq<bool>, new result: bool)
    requires |outcomes| < |run.servers|
    requires old(HealthFollows(run.servers, run.h0, outcomes, run.now)) && old(Kept(run.servers, run.f0))
    requires var s := run.servers[|outcomes|];
      && s.Health() == AfterProbe(old(s.Health()), result, run.now)
      && s.address == old(s.address) && s.weight == old(s.weight) && s.connections == old(s.connections)
    requires forall s | s in run.servers && s != run.servers[|outcomes|] ::
      s.Health() == old(s.Health()) && Fixed(s.address, s.weight, s.connections) == old(Fixed(s.address, s.weight, s.connections))
    ensures HealthFollows(run.servers, run.h0, outcomes + [result], run.now) && Kept(run.servers, run.f0)
  {
    var servers, k := run.servers, |outcomes|;
    var server := servers[k];
    assert servers[..k + 1] == servers[..k] + [server];
    forall s | s in servers
      ensures s in run.h0 && s.Health() == AfterProbes(run.h0[s], OutcomesFor(servers[..k + 1], outcomes + [result], s), run.now)
    {
      var prior := OutcomesFor(servers[..k], outcomes, s);
      OutcomesForSnoc(servers[..k], outcomes, server, result, s);
      if s == server {
        AfterProbesSnoc(run.h0[s], prior, result, run.now);
      } else {
        assert prior + [] == prior;
      }
    }
  }

  /** Once every entry is probed, the batch is the batch of the step over the whole list. */
  lemma BatchFinishes(run: BatchRun, outcomes: seq<bool>, allOk: bool, cache: Cache)
    requires |outcomes| == |run.servers|
    requires Progress(run, outcomes, allOk, cache)
    ensures (outcomes, cache) == Batch(run.step, run.addrs, run.cache0)
    ensures allOk <==> forall i | 0 <= i < |outcomes| :: outcomes[i]
    ensures forall s | s in run.servers ::
      s in run.h0 && s.Health() == AfterProbes(run.h0[s], OutcomesFor(run.servers, outcomes, s), run.now)
    ensures forall s | s in run.servers ::
      s in run.f0 && run.f0[s] == Fixed(s.address, s.weight, s.connections)
  {
    assert run.servers[..|outcomes|] == run.servers;
    assert run.addrs[..|outcomes|] == run.addrs;
  }

  // ---------------------------------------------------------------------------
  // The prober object.

  class PingServer {
    var timeout: nat
    var interval: nat
    var running: bool
    var threadPoolSize: nat
    var dnsCache: Cache
    var dnsCacheTtl: nat
    var probe: Probe

    /** The pool size is never 0: the constructor sets 4 and the setter turns 0 into 1. */
    predicate Valid()
      reads this
    {
      threadPoolSize >= 1
    }

    /** The configuration a prober built with no arguments starts in. */
    predicate InDefaultConfiguration()
      reads this
    {
      && Valid()
      && timeout == DEFAULT_TIMEOUT_MS && interval == DEFAULT_INTERVAL_MS
      && threadPoolSize == DEFAULT_THREAD_POOL_SIZE && !running
      && dnsCache == map[] && dnsCacheTtl == DEFAULT_DNS_CACHE_TTL_S
      && probe == DefaultProbe
    }

    constructor (timeout: nat := DEFAULT_TIMEOUT_MS, interval: nat := DEFAULT_INTERVAL_MS)
      ensures Valid()
      ensures this.timeout == timeout && this.interval == interval
      ensures !running && threadPoolSize == DEFAULT_THREAD_POOL_SIZE
      ensures dnsCache == map[] && dnsCacheTtl == DEFAULT_DNS_CACHE_TTL_S
      ensures probe == DefaultProbe
    {
      this.timeout := timeout;
      this.interval := interval;
      running := false;
      threadPoolSize := DEFAULT_THREAD_POOL_SIZE;
      dnsCache := map[];
      dnsCacheTtl := DEFAULT_DNS_CACHE_TTL_S;
      probe := DefaultProbe;
    }

    /** Resolve a host name through the cache, storing a fresh answer. */
    method ResolveHostname(host: string, resolver: Resolver, now: nat) returns (ip: string)
      modifies this`dnsCache
      ensures var r := Resolve(old(dnsCache), host, resolver, now, dnsCacheTtl);
        ip == r.ip && dnsCache == r.cache
    {
      if resolver.isIpv4Literal(host) {
        return host;
      }
      if host in dnsCache && dnsCache[host].expiry > now {
        return dnsCache[host].resolvedIp;
      }
      match resolver.lookup(host) {
        case None =>
          return "";
        case Some(resolved) =>
          dnsCache := dnsCache[host := CacheEntry(resolved, now + dnsCacheTtl * 1000)];
          return resolved;
      }
    }

    /** The built-in probe: parse, resolve, connect. */
    method DefaultPing(address: string, timeoutMs: nat, net: Network, now: nat) returns (ok: bool)
      modifies this`dnsCache
      ensures (ok, dnsCache) == DefaultOutcome(address, timeoutMs, old(dnsCache), dnsCacheTtl, net, now)
    {
      var parsed := ParseServerAddress(address);
      if parsed.Err? {
        return false;
      }
      var ip := ResolveHostname(parsed.value.host, net.resolver, now);
      if ip == [] {
        return false;
      }
      ok := net.connect(ip, Port16(parsed.value.port), timeoutMs);
    }

    /** Run whichever probe is installed. */
    method RunProbe(address: string, timeoutMs: nat, net: Network, now: nat) returns (ok: bool)
      modifies this`dnsCache
      ensures (ok, dnsCache) == ProbeOutcome(probe, address, timeoutMs, old(dnsCache), dnsCacheTtl, net, now)
    {
      match probe {
        case DefaultProbe =>
          ok := DefaultPing(address, timeoutMs, net, now);
        case CustomProbe(run) =>
          ok := run(address, timeoutMs);
      }
    }

    /** Probe one server with the configured timeout and record the result; a null server is a failure. */
    method PingOne(server: Server?, net: Network, now: nat) returns (ok: bool)
      modifies this`dnsCache, server
      ensures server == null ==> !ok && dnsCache == old(dnsCache)
      ensures server != null ==>
        var o := ProbeOutcome(probe, old(server.address), timeout, old(dnsCache), dnsCacheTtl, net, now);
        && ok == o.0 && dnsCache == o.1
        && server.Health() == AfterProbe(old(server.Health()), ok, now)
        && server.address == old(server.address) && server.weight == old(server.weight)
        && server.connections == old(server.connections)
    {
      if server == null {
        return false;
      }
      ok := RunProbe(server.address, timeout, net, now);
      RecordOutcome(server, ok, now);
    }

    /** Probe the next entry of the batch and record its result on that server. */
    method ProbeEntry(servers: seq<Server>, k: nat, timeoutMs: nat, net: Network, now: nat, ghost run: BatchRun,
                      ghost outcomes: seq<bool>, allOk: bool)
      returns (ghost outcomes': seq<bool>, allOk': bool)
      requires servers == run.servers && now == run.now && run.step == Prober(probe, timeoutMs, dnsCacheTtl, net, now)
      requires k == |outcomes| < |servers|
      requires Progress(run, outcomes, allOk, dnsCache)
      modifies this`dnsCache, servers[k]
      ensures |outcomes'| == k + 1
      ensures outcomes' == outcomes + [outcomes'[k]] && allOk' == (allOk && outcomes'[k])
      ensures Progress(run, outcomes', allOk', dnsCache)
    {
      var server := servers[k];
      var result := RunProbe(server.address, timeoutMs, net, now);
      RecordOutcome(server, result, now);
      EntryStep(run, outcomes, allOk, old(dnsCache), result, dnsCache);
      outcomes' := outcomes + [result];
      allOk' := allOk && result;
    }

    /**
     * One worker of the pool: take the next index from the shared counter,
     * probe that entry, and repeat until the index taken passes the end.
     * The first worker processes every remaining entry; a later one takes an
     * index past the end at once and stops.
     */
    method RunWorker(servers: seq<Server>, nextIndex: nat, timeoutMs: nat, net: Network, now: nat, ghost run: BatchRun,
                     ghost outcomes: seq<bool>, allOk: bool)
      returns (nextIndex': nat, ghost outcomes': seq<bool>, allOk': bool)
      requires servers == run.servers && now == run.now && run.step == Prober(probe, timeoutMs, dnsCacheTtl, net, now)
      requires nextIndex == |outcomes| <= |servers| || (nextIndex > |servers| && |outcomes| == |servers|)
      requires Progress(run, outcomes, allOk, dnsCache)
      modifies this`dnsCache, servers
      ensures nextIndex' == (if nextIndex <= |servers| then |servers| else nextIndex) + 1
      ensures |outcomes'| == |servers|
      ensures Progress(run, outcomes', allOk', dnsCache)
    {
      var n := |servers|;
      outcomes', allOk' := outcomes, allOk;
      var index := nextIndex;
      nextIndex' := nextIndex + 1;
      while index < n
        invariant nextIndex' == index + 1
        invariant index == |outcomes'| <= n || (index > n && |outcomes'| == n)
        invariant nextIndex > n ==> index == nextIndex
        invariant nextIndex <= n ==> index <= n
        invariant Progress(run, outcomes', allOk', dnsCache)
        decreases n - index
      {
        outcomes', allOk' := ProbeEntry(servers, index, timeoutMs, net, now, run, outcomes', allOk');
        index := nextIndex';
        nextIndex' := nextIndex' + 1;
      }
    }

    /** Start poolSize workers one after the other, all sharing one index counter that starts at 0. */
    method RunPool(servers: seq<Server>, poolSize: nat, timeoutMs: nat, net: Network, now: nat, ghost run: BatchRun)
      returns (allOk: bool, ghost outcomes: seq<bool>)
      requires servers == run.servers && now == run.now && run.step == Prober(probe, timeoutMs, dnsCacheTtl, net, now)
      requires poolSize >= 1 || servers == []
      requires Progress(run, [], true, dnsCache)
      modifies this`dnsCache, servers
      ensures |outcomes| == |servers|
      ensures Progress(run, outcomes, allOk, dnsCache)
    {
      var n := |servers|;
      outcomes := [];
      allOk := true;
      var nextIndex := 0;
      var w := 0;
      while w < poolSize
        invariant w == 0 ==> nextIndex == 0 && |outcomes| == 0
        invariant w > 0 ==> nextIndex == n + w && |outcomes| == n
        invariant Progress(run, outcomes, allOk, dnsCache)
      {
        nextIndex, outcomes, allOk := RunWorker(servers, nextIndex, timeoutMs, net, now, run, outcomes, allOk);
        w := w + 1;
      }
    }

    /**
     * The worker pool run sequentially: min(pool size, n) workers share one
     * index counter. Every index is taken exactly once, so every entry is
     * probed once, in index order; the result is whether every probe succeeded.
     */
    method ParallelPing(servers: seq<Server>, timeoutMs: nat, net: Network, now: nat) returns (allOk: bool, ghost outcomes: seq<bool>)
      requires Valid()
      modifies this`dnsCache, servers
      ensures (outcomes, dnsCache) == Batch(Prober(old(probe), timeoutMs, old(dnsCacheTtl), net, now), old(Addresses(servers)), old(dnsCache))
      ensures allOk <==> forall i | 0 <= i < |servers| :: outcomes[i]
      ensures forall s | s in servers ::
        s.Health() == AfterProbes(old(s.Health()), OutcomesFor(servers, outcomes, s), now)
      ensures forall s | s in servers ::
        s.address == old(s.address) && s.weight == old(s.weight) && s.connections == old(s.connections)
    {
      ghost var run := BatchRun(servers, Prober(probe, timeoutMs, dnsCacheTtl, net, now), now,
                                map s | s in servers :: s.Health(),
                                map s | s in servers :: Fixed(s.address, s.weight, s.connections),
                                Addresses(servers), dnsCache);
      BatchStarts(run);
      var poolSize := if threadPoolSize < |servers| then threadPoolSize else |servers|;
      allOk, outcomes := RunPool(servers, poolSize, timeoutMs, net, now, run);
      BatchFinishes(run, outcomes, allOk, dnsCache);
    }

    /** Probe every server of the list once; an empty list succeeds trivially. */
    method PingServers(servers: seq<Server>, net: Network, now: nat) returns (allOk: bool, ghost outcomes: seq<bool>)
      requires Valid()
      modifies this`dnsCache, servers
      ensures (outcomes, dnsCache) == Batch(Prober(probe, timeout, dnsCacheTtl, net, now), old(Addresses(servers)), old(dnsCache))
      ensures allOk <==> forall i | 0 <= i < |servers| :: outcomes[i]
      ensures servers == [] ==> allOk
      ensures forall s | s in servers ::
        s.Health() == AfterProbes(old(s.Health()), OutcomesFor(servers, outcomes, s), now)
      ensures forall s | s in servers ::
        s.address == old(s.address) && s.weight == old(s.weight) && s.connections == old(s.connections)
    {
      if servers == [] {
        return true, [];
      }
      allOk, outcomes := ParallelPing(servers, timeout, net, now);
    }

    method SetTimeout(t: nat)
      modifies this`timeout
      ensures timeout == t
    {
      timeout := t;
    }

    method SetInterval(i: nat)
      modifies this`interval
      ensures interval == i
    {
      interval := i;
    }

    /** A pool size of 0 is stored as 1. */
    method SetThreadPoolSize(size: nat)
      modifies this`threadPoolSize
      ensures threadPoolSize == if size > 0 then size else 1
      ensures Valid()
    {
      threadPoolSize := if size > 0 then size else 1;
    }

    method SetDnsCacheTtl(ttlSeconds: nat)
      modifies this`dnsCacheTtl
      ensures dnsCacheTtl == ttlSeconds
    {
      dnsCacheTtl := ttlSeconds;
    }

    /** Install a custom probe; an empty function (None) leaves the current probe in place. */
    method SetPingImplementation(implementation: Option<(string, nat) -> bool>)
      modifies this`probe
      ensures probe == if implementation.Some? then CustomProbe(implementation.value) else old(probe)
    {
      if implementation.Some? {
        probe := CustomProbe(implementation.value);
      }
    }

    method ResetPingImplementation()
      modifies this`probe
      ensures probe == DefaultProbe
    {
      probe := DefaultProbe;
    }

    method ClearDnsCache()
      modifies this`dnsCache
      ensures dnsCache == map[]
    {
      dnsCache := map[];
    }
  }
}
