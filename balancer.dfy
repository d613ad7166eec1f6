/**
 * The load balancer: a pool of servers with membership, statistics and a
 * health check through the prober, and the two rotating selectors built on it.
 *
 * The original's class hierarchy (an abstract `LoadBalancer` with the
 * round-robin and weighted round-robin balancers deriving from it) becomes
 * composition: each balancer owns a `Pool` and adds its own cursor, and the
 * weighted one its expansion list. Servers are shared references, compared by
 * identity as `shared_ptr ==` compares them; membership is decided by address.
 */
module Balancer {
  import opened Wrappers
  import opened ServerRecord
  import opened Failover
  import opened Expansion
  import opened Ping

  /** The strategy tag of a pool; only the first two have a selector. */
  datatype Strategy = RoundRobin | WeightedRoundRobin | LeastConnections | IpHash

  const DEFAULT_HEALTH_CHECK_INTERVAL_MS: u32 := 5000
  const DEFAULT_MAX_HEALTH_CHECK_FAILURES: u32 := 3

  /** What a selector reads of each server of the list, as one snapshot. */
  ghost function View(list: seq<Server>): (m: map<Server, Status>)
    reads list
    ensures Covers(list, m)
    ensures forall s | s in list :: m[s] == Status(s.alive, s.healthy, s.weight)
  {
    map s | s in list :: Status(s.alive, s.healthy, s.weight)
  }

  // ---------------------------------------------------------------------------
  // Membership by address.

  /** The list with every server of address a taken out, the others kept in order. */
  function WithoutAddress(list: seq<Server>, a: string): (r: seq<Server>)
    reads list
    ensures |r| <= |list|
  {
    if list == [] then []
    else
      var last := list[|list| - 1];
      WithoutAddress(list[..|list| - 1], a) + (if last.address == a then [] else [last])
  }

  /** Exactly the servers of another address remain. */
  lemma {:induction false} WithoutAddressMembers(list: seq<Server>, a: string)
    ensures forall s :: s in WithoutAddress(list, a) <==> s in list && s.address != a
  {
    if list != [] {
      var init, last := list[..|list| - 1], list[|list| - 1];
      WithoutAddressMembers(init, a);
      assert list == init + [last];
    }
  }

  /** Removal works entry by entry: it distributes over concatenation, so the kept entries keep their order. */
  lemma {:induction false} WithoutAddressAppend(x: seq<Server>, y: seq<Server>, a: string)
    ensures WithoutAddress(x + y, a) == WithoutAddress(x, a) + WithoutAddress(y, a)
    decreases |y|
  {
    if y == [] {
      assert x + y == x;
    } else {
      var y', last := y[..|y| - 1], y[|y| - 1];
      var tail := if last.address == a then [] else [last];
      WithoutAddressAppend(x, y', a);
      assert (x + y)[..|x + y| - 1] == x + y';
      assert (x + y)[|x + y| - 1] == last;
      calc {
        WithoutAddress(x + y, a);
        WithoutAddress(x + y', a) + tail;
        WithoutAddress(x, a) + WithoutAddress(y', a) + tail;
        WithoutAddress(x, a) + (WithoutAddress(y', a) + tail);
      }
    }
  }

  /** The list shrinks exactly when some entry has the address; otherwise it is left as it was. */
  lemma {:induction false} WithoutAddressShrinks(list: seq<Server>, a: string)
    ensures |WithoutAddress(list, a)| < |list| <==> a in Addresses(list)
    ensures a !in Addresses(list) ==> WithoutAddress(list, a) == list
  {
    if list != [] {
      var init := list[..|list| - 1];
      WithoutAddressShrinks(init, a);
      assert list == init + [list[|list| - 1]];
      assert Addresses(list) == Addresses(init) + [list[|list| - 1].address];
    }
  }

  /** Adding a server of a new address and then removing that address gives back the original list. */
  lemma AddRemoveRoundTrip(list: seq<Server>, s: Server)
    requires s.address !in Addresses(list)
    ensures WithoutAddress(list + [s], s.address) == list
  {
    WithoutAddressShrinks(list, s.address);
    WithoutAddressAppend(list, [s], s.address);
    assert WithoutAddress([s], s.address) == [] by {
      assert [s][..0] == [];
    }
  }

  /** The duplicate search of `addServer`: is some server of the list at address a? */
  method ContainsAddress(list: seq<Server>, a: string) returns (found: bool)
    ensures found <==> a in Addresses(list)
  {
    var i := 0;
    while i < |list|
      invariant i <= |list|
      invariant forall j | 0 <= j < i :: list[j].address != a
    {
      if list[i].address == a {
        assert Addresses(list)[i] == a;
        return true;
      }
      i := i + 1;
    }
    return false;
  }

  /** The erase/remove_if pass of `removeServer`. */
  method KeepOthers(list: seq<Server>, a: string) returns (kept: seq<Server>)
    ensures kept == WithoutAddress(list, a)
  {
    kept := [];
    var i := 0;
    while i < |list|
      invariant i <= |list|
      invariant kept == WithoutAddress(list[..i], a)
    {
      assert list[..i + 1][..i] == list[..i];
      if list[i].address != a {
        kept := kept + [list[i]];
      }
      i := i + 1;
    }
    assert list[..i] == list;
  }

  // ---------------------------------------------------------------------------
  // The selection loop shared by both balancers.

  /**
   * One `getNextServer` pass over a candidate list from a cursor: the first
   * alive and healthy candidate in cyclic order, else the first alive one
   * with the cursor set past its first occurrence, else null with the cursor
   * kept. The new cursor is returned for the caller to store.
   */
  method FailoverScan(list: seq<Server>, cursor: nat) returns (chosen: Server?, next: nat)
    ensures var p := Select(list, View(list), cursor);
      && (p.NoPick? ==> chosen == null && next == cursor)
      && (p.Pick? ==> chosen == list[p.pos] && next == p.next)
    ensures chosen != null ==> chosen in list && chosen.alive && next < |list|
  {
    var n := |list|;
    if n == 0 {
      return null, cursor;
    }
    ghost var m := View(list);
    var fallback: Server? := null;
    ghost var fk: nat := 0;
    var i := 0;
    while i < n
      invariant i <= n
      invariant forall j | 0 <= j < i :: !Ready(At(list, m, cursor, j))
      invariant fallback == null ==> forall j | 0 <= j < i :: !Up(At(list, m, cursor, j))
      invariant fallback != null ==> fk < i && Up(At(list, m, cursor, fk)) && fallback == list[(cursor + fk) % n]
      invariant fallback != null ==> forall j | 0 <= j < fk :: !Up(At(list, m, cursor, j))
    {
      var index := (cursor + i) % n;
      var server := list[index];
      assert At(list, m, cursor, i) == Status(server.alive, server.healthy, server.weight);
      if server.alive {
        if server.healthy {
          SelectHealthy(list, m, cursor, i);
          return server, (index + 1) % n;
        } else if fallback == null {
          fallback, fk := server, i;
        }
      }
      i := i + 1;
    }
    if fallback == null {
      SelectNone(list, m, cursor);
      return null, cursor;
    }
    SelectFallback(list, m, cursor, fk);
    var j := FirstOccurrence(list, fallback);
    return fallback, (j + 1) % n;
  }

  /** The search for the fallback server's index in the list, by identity. */
  method FirstOccurrence(list: seq<Server>, x: Server) returns (j: nat)
    requires x in list
    ensures j == FirstIndexOf(list, x)
  {
    j := 0;
    while list[j] != x
      invariant j < |list|
      invariant forall t | 0 <= t < j :: list[t] != x
      decreases |list| - j
    {
      j := j + 1;
    }
  }

  // ---------------------------------------------------------------------------
  // The pool.

  class Pool {
    var servers: seq<Server>
    var strategy: Strategy
    var healthCheckInterval: u32
    /** Stored and reported, but nothing reads it: the prober's threshold of 3 applies. */
    var maxHealthCheckFailures: u32
    var healthCheckRunning: bool
    const prober: PingServer

    /** The pool keeps the given list as it is, with a fresh prober in its default configuration. */
    constructor (servers: seq<Server>, strategy: Strategy := RoundRobin,
                 healthCheckInterval: u32 := DEFAULT_HEALTH_CHECK_INTERVAL_MS,
                 maxHealthCheckFailures: u32 := DEFAULT_MAX_HEALTH_CHECK_FAILURES)
      ensures this.servers == servers && this.strategy == strategy
      ensures this.healthCheckInterval == healthCheckInterval && this.maxHealthCheckFailures == maxHealthCheckFailures
      ensures !healthCheckRunning
      ensures fresh(prober) && prober.Valid() && prober.dnsCache == map[] && prober.probe == DefaultProbe
      ensures prober.InDefaultConfiguration()
    {
      this.servers := servers;
      this.strategy := strategy;
      this.healthCheckInterval := healthCheckInterval;
      this.maxHealthCheckFailures := maxHealthCheckFailures;
      healthCheckRunning := false;
      prober := new PingServer();
    }

    /**
     * A server is appended unless it is null or its address is already in
     * the pool; the answer says whether it was.
     */
    method AddServer(server: Server?) returns (added: bool)
      modifies this`servers
      ensures server == null ==> !added
      ensures server != null ==> (added <==> server.address !in Addresses(old(servers)))
      ensures added ==> server != null && servers == old(servers) + [server]
      ensures !added ==> servers == old(servers)
    {
      if server == null {
        return false;
      }
      var present := ContainsAddress(servers, server.address);
      if present {
        return false;
      }
      servers := servers + [server];
      return true;
    }

    /** Every server of that address leaves the pool, the others stay in order; true iff the pool shrank. */
    method RemoveServer(address: string) returns (removed: bool)
      modifies this`servers
      ensures servers == WithoutAddress(old(servers), address)
      ensures removed <==> address in Addresses(old(servers))
    {
      var originalSize := |servers|;
      servers := KeepOthers(servers, address);
      WithoutAddressShrinks(old(servers), address);
      removed := |servers| < originalSize;
    }

    function ServerCount(): nat
      reads this
    {
      |servers|
    }

    /** The servers that are alive and healthy, counted one by one. */
    method HealthyServerCount() returns (count: nat)
      ensures count == CountReady(servers, View(servers))
      ensures count <= ServerCount()
      ensures count > 0 <==> exists i | 0 <= i < |servers| :: servers[i].alive && servers[i].healthy
      ensures count == ServerCount() <==> forall i | 0 <= i < |servers| :: servers[i].alive && servers[i].healthy
    {
      ghost var m := View(servers);
      count := 0;
      var i := 0;
      while i < |servers|
        invariant i <= |servers|
        invariant count == CountReady(servers[..i], m)
      {
        assert servers[..i + 1][..i] == servers[..i];
        if servers[i].alive && servers[i].healthy {
          count := count + 1;
        }
        i := i + 1;
      }
      assert servers[..i] == servers;
      CountReadyMeaning(servers, m);
    }

    /** One health check: the prober's batch over the whole pool. */
    method PerformHealthCheck(net: Network, now: nat) returns (allOk: bool, ghost outcomes: seq<bool>)
      requires prober.Valid()
      modifies prober`dnsCache, servers
      ensures prober.Valid()
      ensures (outcomes, prober.dnsCache) ==
        Batch(Prober(prober.probe, prober.timeout, prober.dnsCacheTtl, net, now), old(Addresses(servers)), old(prober.dnsCache))
      ensures allOk <==> forall i | 0 <= i < |servers| :: outcomes[i]
      ensures forall s | s in servers ::
        s.Health() == AfterProbes(old(s.Health()), OutcomesFor(servers, outcomes, s), now)
      ensures forall s | s in servers ::
        s.address == old(s.address) && s.weight == old(s.weight) && s.connections == old(s.connections)
    {
      allOk, outcomes := prober.PingServers(servers, net, now);
    }

    method SetHealthCheckInterval(milliseconds: u32)
      modifies this`healthCheckInterval
      ensures healthCheckInterval == milliseconds
    {
      healthCheckInterval := milliseconds;
    }

    method SetMaxHealthCheckFailures(failures: u32)
      modifies this`maxHealthCheckFailures
      ensures maxHealthCheckFailures == failures
    {
      maxHealthCheckFailures := failures;
    }

    /** Only the tag changes; a balancer keeps the selector it was built with. */
    method SetStrategy(s: Strategy)
      modifies this`strategy
      ensures strategy == s
    {
      strategy := s;
    }
  }

  // ---------------------------------------------------------------------------
  // Round robin.

  class RoundRobinBalancer {
    const pool: Pool
    var cursor: nat

    /** The list must not be empty; `NewRoundRobin` is the checked entry point. */
    constructor (servers: seq<Server>,
                 healthCheckInterval: u32 := DEFAULT_HEALTH_CHECK_INTERVAL_MS,
                 maxHealthCheckFailures: u32 := DEFAULT_MAX_HEALTH_CHECK_FAILURES)
      requires servers != []
      ensures fresh(pool) && fresh(pool.prober) && pool.prober.InDefaultConfiguration()
      ensures pool.servers == servers && pool.strategy == RoundRobin
      ensures pool.healthCheckInterval == healthCheckInterval && pool.maxHealthCheckFailures == maxHealthCheckFailures
      ensures !pool.healthCheckRunning && cursor == 0
    {
      pool := new Pool(servers, RoundRobin, healthCheckInterval, maxHealthCheckFailures);
      cursor := 0;
    }

    /** The next server by the failover rule over the pool from the cursor; the cursor is advanced as the rule says. */
    method GetNextServer() returns (s: Server?)
      modifies this`cursor
      ensures var p := Select(pool.servers, View(pool.servers), old(cursor));
        && (p.NoPick? ==> s == null && cursor == old(cursor))
        && (p.Pick? ==> s == pool.servers[p.pos] && cursor == p.next)
      ensures s != null ==> s in pool.servers && s.alive && cursor < |pool.servers|
    {
      s, cursor := FailoverScan(pool.servers, cursor);
    }

    /** Advance the cursor by one position, modulo the pool size; an empty pool leaves it. */
    method UpdateCurrentServer()
      modifies this`cursor
      ensures pool.servers == [] ==> cursor == old(cursor)
      ensures pool.servers != [] ==> cursor == (old(cursor) + 1) % |pool.servers| && cursor < |pool.servers|
    {
      if pool.servers == [] {
        return;
      }
      cursor := (cursor + 1) % |pool.servers|;
    }
  }

  /** The constructor's check: an empty list is refused (the original throws `invalid_argument`), shown here as null. */
  method NewRoundRobin(servers: seq<Server>,
                       healthCheckInterval: u32 := DEFAULT_HEALTH_CHECK_INTERVAL_MS,
                       maxHealthCheckFailures: u32 := DEFAULT_MAX_HEALTH_CHECK_FAILURES)
    returns (b: RoundRobinBalancer?)
    ensures b == null <==> servers == []
    ensures b != null ==> fresh(b) && fresh(b.pool) && b.pool.servers == servers && b.cursor == 0
  {
    if servers == [] {
      return null;
    }
    b := new RoundRobinBalancer(servers, healthCheckInterval, maxHealthCheckFailures);
  }

  // ---------------------------------------------------------------------------
  // Weighted round robin.

  class WeightedRoundRobinBalancer {
    const pool: Pool
    var cursor: nat
    /** The expansion list, rebuilt from the pool only when it is empty. */
    var weighted: seq<Server>

    constructor (servers: seq<Server>,
                 healthCheckInterval: u32 := DEFAULT_HEALTH_CHECK_INTERVAL_MS,
                 maxHealthCheckFailures: u32 := DEFAULT_MAX_HEALTH_CHECK_FAILURES)
      requires servers != []
      ensures fresh(pool) && fresh(pool.prober) && pool.prober.InDefaultConfiguration()
      ensures pool.servers == servers && pool.strategy == WeightedRoundRobin
      ensures pool.healthCheckInterval == healthCheckInterval && pool.maxHealthCheckFailures == maxHealthCheckFailures
      ensures !pool.healthCheckRunning && cursor == 0
      ensures weighted == Expand(servers, View(servers))
    {
      pool := new Pool(servers, WeightedRoundRobin, healthCheckInterval, maxHealthCheckFailures);
      cursor := 0;
      weighted := [];
      new;
      UpdateWeightedList();
    }

    /** Clear the expansion list and refill it: each alive server of the pool, in order, weight times. */
    method UpdateWeightedList()
      modifies this`weighted
      ensures weighted == Expand(pool.servers, View(pool.servers))
    {
      var copy := pool.servers;
      ghost var m := View(copy);
      weighted := [];
      var i := 0;
      while i < |copy|
        invariant i <= |copy|
        invariant Covers(copy[..i], m)
        invariant weighted == Expand(copy[..i], m)
      {
        var server := copy[i];
        ExpandPrefixStep(copy, m, i);
        if server.alive {
          PushCopies(server, server.weight);
        }
        i := i + 1;
      }
      assert copy[..i] == copy;
    }

    /** The inner loop of the rebuild: count more copies of the server at the end of the expansion list. */
    method PushCopies(server: Server, count: nat)
      modifies this`weighted
      ensures weighted == old(weighted) + Repeat(server, count)
    {
      var k := 0;
      while k < count
        invariant k <= count
        invariant weighted == old(weighted) + Repeat(server, k)
      {
        weighted := weighted + [server];
        k := k + 1;
      }
    }

    /**
     * Rebuild the expansion list if it is empty, then pick from it by the
     * failover rule from the cursor; null when the list stays empty or has
     * no alive entry.
     */
    method GetNextServer() returns (s: Server?)
      modifies this`cursor, this`weighted
      ensures old(weighted) != [] ==> weighted == old(weighted)
      ensures old(weighted) == [] ==> weighted == Expand(pool.servers, View(pool.servers))
      ensures var p := Select(weighted, View(weighted), old(cursor));
        && (p.NoPick? ==> s == null && cursor == old(cursor))
        && (p.Pick? ==> s == weighted[p.pos] && cursor == p.next)
      ensures s != null ==> s in weighted && s.alive && cursor < |weighted|
    {
      RebuildIfEmpty();
      if weighted == [] {
        return null;
      }
      s, cursor := FailoverScan(weighted, cursor);
    }

    /** The first step of a weighted selection: only an empty expansion list is rebuilt. */
    method RebuildIfEmpty()
      modifies this`weighted
      ensures old(weighted) != [] ==> weighted == old(weighted)
      ensures old(weighted) == [] ==> weighted == Expand(pool.servers, View(pool.servers))
    {
      if weighted == [] {
        UpdateWeightedList();
      }
    }
  }

  /** The weighted constructor's check: an empty list is refused, shown as null. */
  method NewWeightedRoundRobin(servers: seq<Server>,
                               healthCheckInterval: u32 := DEFAULT_HEALTH_CHECK_INTERVAL_MS,
                               maxHealthCheckFailures: u32 := DEFAULT_MAX_HEALTH_CHECK_FAILURES)
    returns (b: WeightedRoundRobinBalancer?)
    ensures b == null <==> servers == []
    ensures b != null ==> fresh(b) && fresh(b.pool) && b.pool.servers == servers && b.cursor == 0
    ensures b != null ==> b.weighted == Expand(servers, View(servers))
  {
    if servers == [] {
      return null;
    }
    b := new WeightedRoundRobinBalancer(servers, healthCheckInterval, maxHealthCheckFailures);
  }
}
