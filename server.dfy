/**
 * The Server record: one backend endpoint of the pool.
 *
 * All counters of the original are `std::atomic<uint32_t>`; here they are
 * naturals below 2^32 and every increment wraps explicitly, as `++` on an
 * unsigned 32-bit atomic does. Timestamps are abstract clock readings
 * (`now`) handed in by the caller.
 */
module ServerRecord {

  const U32_MODULUS: nat := 0x1_0000_0000

  /** An unsigned 32-bit value. */
  type u32 = x: nat | x < U32_MODULUS

  /** `x + 1` as an unsigned 32-bit increment: 2^32 - 1 wraps to 0. */
  function Inc32(x: u32): (r: u32)
    ensures x < U32_MODULUS - 1 ==> r == x + 1
    ensures x == U32_MODULUS - 1 ==> r == 0
  {
    (x + 1) % U32_MODULUS
  }

  /** The fields a probe reads and writes, as one value. */
  datatype HealthState = HealthState(alive: bool, healthy: bool, failures: u32, lastHealthCheck: nat)

  class Server {
    /** Only the copy assignment below ever overwrites the address; there is no setter. */
    var address: string
    var alive: bool
    var healthy: bool
    var lastHealthCheck: nat
    var weight: u32
    var connections: u32
    var failures: u32

    /** Construction: alive, not yet healthy, no connections, no failures; the weight is stored as given, 0 included. */
    constructor (address: string, now: nat, weight: u32 := 1)
      ensures this.address == address && this.weight == weight
      ensures alive && !healthy
      ensures connections == 0 && failures == 0
      ensures lastHealthCheck == now
    {
      this.address := address;
      alive := true;
      healthy := false;
      lastHealthCheck := now;
      this.weight := weight;
      connections := 0;
      failures := 0;
    }

    /** Copy construction copies everything except the connection count, which starts at 0. */
    constructor Copy(other: Server)
      ensures address == other.address && alive == other.alive && healthy == other.healthy
      ensures weight == other.weight && failures == other.failures
      ensures lastHealthCheck == other.lastHealthCheck
      ensures connections == 0
    {
      address := other.address;
      alive := other.alive;
      healthy := other.healthy;
      weight := other.weight;
      connections := 0;
      failures := other.failures;
      lastHealthCheck := other.lastHealthCheck;
    }

    /** Copy assignment overwrites everything except this server's own connection count. */
    method AssignFrom(other: Server)
      modifies this
      ensures address == old(other.address) && alive == old(other.alive) && healthy == old(other.healthy)
      ensures weight == old(other.weight) && failures == old(other.failures)
      ensures lastHealthCheck == old(other.lastHealthCheck)
      ensures connections == old(connections)
    {
      if other != this {
        address := other.address;
        alive := other.alive;
        healthy := other.healthy;
        weight := other.weight;
        failures := other.failures;
        lastHealthCheck := other.lastHealthCheck;
      }
    }

    /** The probe-related fields as one value. */
    function Health(): HealthState
      reads this
    {
      HealthState(alive, healthy, failures, lastHealthCheck)
    }

    method SetAlive(isAlive: bool)
      modifies this
      ensures alive == isAlive
      ensures address == old(address) && healthy == old(healthy) && weight == old(weight)
      ensures connections == old(connections) && failures == old(failures)
      ensures lastHealthCheck == old(lastHealthCheck)
    {
      alive := isAlive;
    }

    /** Marking a server healthy also clears its failure streak; marking it unhealthy touches nothing else. */
    method SetHealthy(isHealthy: bool)
      modifies this
      ensures healthy == isHealthy
      ensures failures == if isHealthy then 0 else old(failures)
      ensures address == old(address) && alive == old(alive) && weight == old(weight)
      ensures connections == old(connections) && lastHealthCheck == old(lastHealthCheck)
    {
      healthy := isHealthy;
      if isHealthy {
        ResetFailures();
      }
    }

    method UpdateLastHealthCheck(now: nat)
      modifies this
      ensures lastHealthCheck == now
      ensures address == old(address) && alive == old(alive) && healthy == old(healthy)
      ensures weight == old(weight) && connections == old(connections) && failures == old(failures)
    {
      lastHealthCheck := now;
    }

    /** The weight is stored unchanged; 0 is not coerced here. */
    method SetWeight(w: u32)
      modifies this
      ensures weight == w
      ensures address == old(address) && alive == old(alive) && healthy == old(healthy)
      ensures connections == old(connections) && failures == old(failures)
      ensures lastHealthCheck == old(lastHealthCheck)
    {
      weight := w;
    }

    method IncrementConnections()
      modifies this
      ensures connections == Inc32(old(connections))
      ensures address == old(address) && alive == old(alive) && healthy == old(healthy)
      ensures weight == old(weight) && failures == old(failures)
      ensures lastHealthCheck == old(lastHealthCheck)
    {
      connections := Inc32(connections);
    }

    /** Guarded against underflow: at 0 the counter stays 0. */
    method DecrementConnections()
      modifies this
      ensures old(connections) == 0 ==> connections == 0
      ensures old(connections) > 0 ==> connections == old(connections) - 1
      ensures address == old(address) && alive == old(alive) && healthy == old(healthy)
      ensures weight == old(weight) && failures == old(failures)
      ensures lastHealthCheck == old(lastHealthCheck)
    {
      var current := connections;
      if current > 0 {
        connections := connections - 1;
      }
    }

    method IncrementFailures()
      modifies this
      ensures failures == Inc32(old(failures))
      ensures address == old(address) && alive == old(alive) && healthy == old(healthy)
      ensures weight == old(weight) && connections == old(connections)
      ensures lastHealthCheck == old(lastHealthCheck)
    {
      failures := Inc32(failures);
    }

    method ResetFailures()
      modifies this
      ensures failures == 0
      ensures address == old(address) && alive == old(alive) && healthy == old(healthy)
      ensures weight == old(weight) && connections == old(connections)
      ensures lastHealthCheck == old(lastHealthCheck)
    {
      failures := 0;
    }

    /** The divisor of the effective load: the weight, with 0 read as 1, so never zero. */
    function LoadDivisor(): (d: nat)
      reads this
      ensures d >= 1
      ensures weight != 0 ==> d == weight
      ensures weight == 0 ==> d == 1
    {
      if weight == 0 then 1 else weight
    }

    /** Connections per unit of weight, as an exact rational. */
    function EffectiveLoad(): (load: real)
      reads this
      ensures load >= 0.0
      ensures load * (LoadDivisor() as real) == connections as real
    {
      connections as real / LoadDivisor() as real
    }
  }
}
