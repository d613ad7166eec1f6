# Round-robin load balancer: a verified model

This project models the core of a C++ round-robin load balancer. The model has three parts.

- **Server record.** One backend endpoint with an address, alive and healthy flags, a weight, a connection counter and a consecutive-failure counter.
- **Pool.** A pool of servers with membership by address and a health check. Two selectors sit on it: plain round robin, and weighted round robin over an expansion list. Both use the same two-pass failover scan. The scan looks for an alive and healthy server first, then the first alive one. On that fallback the cursor goes just past the server's *first occurrence* in the list.
- **Prober.** It splits "host[:port]" addresses, reading the port as `std::stoi` does. It resolves host names through a DNS cache with a TTL. It applies the per-probe outcome rule to a server: three failures in a row mark it not alive, and one success revives it. It probes a batch of servers through a worker pool that shares one index counter.

Modules:

- `wrappers.dfy`: `Option` and `Result`.
- `server.dfy` (`ServerRecord`): the `Server` class. Its counters are unsigned 32-bit and wrap on increment.
- `failover.dfy` (`Failover`): the selection rule as a pure function `Select` over a candidate list and a snapshot of each candidate's state, with its properties.
- `expansion.dfy` (`Expansion`): the weighted expansion list `Expand` and its properties.
- `address.dfy` (`Address`): `parseServerAddress` and `std::stoi`, including their round trip with integer printing.
- `dns.dfy` (`Dns`): the cache logic of `resolveHostname` as a pure function.
- `ping.dfy` (`Ping`): the `PingServer` class.
  - The outcome rule, and what a history of probe results does to a server.
  - The batch: the worker pool run as sequential loops, proved against a reference function `Batch`.
- `balancer.dfy` (`Balancer`): the `Pool`, `RoundRobinBalancer` and `WeightedRoundRobinBalancer` classes.
  - The original derives both balancers from an abstract `LoadBalancer` class. Here each balancer owns a `Pool` instead.
  - Each balancer's selection method is proved against `Failover.Select` over a snapshot (`View`) of the servers' fields.

Environment:

- The clock is a reading `now` passed in by the caller: milliseconds for DNS expiry, an abstract stamp for `lastHealthCheck`.
- The operating system is a `Network` value passed in. It holds the IPv4-literal test, the resolver and the TCP connect attempt.
- A probe is either the built-in `DefaultProbe` or a caller-supplied function.

Where the documented design of the system and its code differ, the model follows the code:

- The failure threshold is the constant 3 (`src/ping_server.cpp:249`, `:286`). The pool's configurable `maxHealthCheckFailures` is stored and reported but read by nothing, so it is modelled as inert.
- A weight-0 server's effective load is its connection count divided by 1, not 0.

Behaviours of the code that the model reproduces, with the lemma that shows each:

- A port outside 1..65535 is accepted by the address parser. `htons` then keeps only its low 16 bits, so "host:65616" probes port 80 (`Ping.ProbeUsesPortModulo`).
- In the weighted expansion list a server repeats. After a fallback pick the cursor goes past the server's first slot, not past the scan position (`Expansion.FallbackCursorInExpansion`).
- The same rule can starve a server for good. With weights 2 and 1 and both servers alive but unhealthy, the list is A, A, B; once a fallback pick lands at slot 1 the cursor stays at 1, and B is never selected again until the list changes (`Expansion.FallbackStarves`).
- The weighted list is rebuilt only when it is empty. After `removeServer` it can still hold the removed server, and after a health check it can still hold servers that are now dead or have changed weight (`Balancer.WeightedRoundRobinBalancer.RebuildIfEmpty`).
- `setStrategy` changes only the tag. A balancer keeps the selector it was built with.

## Model

| member | source | states |
|---|---|---|
| ServerRecord.Inc32 | include/server.hpp:17-19 | `++` on an unsigned 32-bit counter: one more, except that 2^32-1 wraps to 0 |
| ServerRecord.Server.constructor | src/server.cpp:5-14 | a new server is alive, not healthy, with no connections and no failures; the weight is stored as given, 0 included, and defaults to 1 |
| ServerRecord.Server.Copy | src/server.cpp:29-39 | copy construction copies address, flags, weight, failure count and timestamp; the connection count starts at 0 |
| ServerRecord.Server.AssignFrom | src/server.cpp:55-71 | copy assignment copies everything except the target's own connection count, which is kept; self-assignment changes nothing |
| ServerRecord.Server.SetAlive | src/server.cpp:133-136 | sets alive and no other field |
| ServerRecord.Server.SetHealthy | src/server.cpp:138-146 | sets healthy; `true` also resets the failure count to 0, `false` touches nothing else |
| ServerRecord.Server.UpdateLastHealthCheck | src/server.cpp:148-152 | stamps the given clock reading and changes no other field |
| ServerRecord.Server.SetWeight | src/server.cpp:154-157 | stores the weight unchanged (0 is not coerced) and no other field |
| ServerRecord.Server.IncrementConnections | src/server.cpp:160-163 | the connection count goes up by one with 32-bit wrap-around; nothing else changes |
| ServerRecord.Server.DecrementConnections | src/server.cpp:165-172 | at 0 the count stays 0, otherwise it goes down by exactly one; nothing else changes |
| ServerRecord.Server.IncrementFailures | src/server.cpp:175-178 | the failure count goes up by one with 32-bit wrap-around; nothing else changes |
| ServerRecord.Server.ResetFailures | src/server.cpp:180-183 | the failure count becomes 0; nothing else changes |
| ServerRecord.Server.LoadDivisor | src/server.cpp:186-190 | the divisor of the effective load is the weight, or 1 when the weight is 0, so it is never zero |
| ServerRecord.Server.EffectiveLoad | src/server.cpp:186-192 | the load is non-negative and, multiplied by the divisor, gives back the connection count |
| Failover.ScanFrom | src/round_robin_load_balancer.cpp:377-391 | the cyclic scan from the cursor stops at the least offset whose server is wanted, and every offset before it is not wanted; when it finds none, no offset is |
| Failover.FirstIndexOf | src/round_robin_load_balancer.cpp:396-401 | the index found holds the server, and no earlier index does |
| Failover.Select | src/round_robin_load_balancer.cpp:364-407 | a selection picks an in-range position whose server is alive, and a new cursor below the list length |
| Failover.NoPickIffNoneAlive | src/round_robin_load_balancer.cpp:368-406 | there is no pick exactly when the list is empty or no server in it is alive |
| Failover.HealthyPreferred | src/round_robin_load_balancer.cpp:377-385 | when some server is alive and healthy, the pick is alive and healthy, is the first such in scan order, and the cursor goes just past it |
| Failover.SelectHealthy | src/round_robin_load_balancer.cpp:381-385 | the first healthy offset of the scan fixes the pick and the cursor (position + 1) mod n |
| Failover.SelectFallback | src/round_robin_load_balancer.cpp:386-402 | with no healthy server, the first alive offset fixes the pick, and the cursor is one past the first occurrence of that server, mod n |
| Failover.SelectNone | src/round_robin_load_balancer.cpp:405-406 | with no alive server in the scan there is no pick |
| Failover.FallbackIsFirstAlive | src/round_robin_load_balancer.cpp:386-402 | with no healthy server but an alive one, the pick is the first alive and unhealthy server in scan order, and the new cursor is one past that server's first occurrence in the list |
| Failover.FallbackOnDistinctList | src/round_robin_load_balancer.cpp:394-401 | on a list without repeats the fallback cursor is simply one past the picked position |
| Failover.CursorStaysInRange | src/round_robin_load_balancer.cpp:368-406 | after a pick the cursor is below n; no pick happens only when the list is empty or nothing is alive |
| Failover.PicksRotate | src/round_robin_load_balancer.cpp:377-385 | on a fully healthy list, k consecutive selections from cursor c pick positions c, c+1, ... mod n |
| Failover.RoundRobinVisitsEachOnce | src/round_robin_load_balancer.cpp:373-385 | on a fully healthy list, n consecutive selections from any cursor c visit every position exactly once, in list order from c mod n (a cursor left past the end by a removal starts there), and the next one starts over |
| Failover.CountReady | src/round_robin_load_balancer.cpp:279-287 | the number of alive and healthy servers is at most the list length |
| Failover.CountReadyMeaning | src/round_robin_load_balancer.cpp:279-287 | the healthy count is at most the list length, positive exactly when some server is alive and healthy, and equal to the length exactly when all are |
| Expansion.Expand | src/round_robin_load_balancer.cpp:490-512 | every entry of the expansion list is a pool server that is alive |
| Expansion.Repeat | src/round_robin_load_balancer.cpp:506-509 | the inner loop's output is exactly k copies of the server |
| Expansion.ExpandPrefixStep | src/round_robin_load_balancer.cpp:503-511 | walking one more pool entry appends exactly that entry's block: weight copies if alive, nothing if dead |
| Expansion.ExpandLength | src/round_robin_load_balancer.cpp:490-512 | the expansion list's length is the sum of the weights of the alive servers |
| Expansion.ExpandAppend | src/round_robin_load_balancer.cpp:503-511 | the expansion of two lists joined is the two expansions joined, so pool order is kept |
| Expansion.ExpandSplit | src/round_robin_load_balancer.cpp:503-511 | each server's copies sit together as one block between the expansions of the entries before and after it |
| Expansion.ExpandMembers | src/round_robin_load_balancer.cpp:503-511 | a server is in the expansion exactly when it is in the pool, alive and of positive weight |
| Expansion.ExpandMultiplicity | src/round_robin_load_balancer.cpp:503-511 | a server occurs weight times its pool multiplicity when alive, never when dead |
| Expansion.ThreeToOne | src/round_robin_load_balancer.cpp:490-553 | weights 3 and 1 over two healthy servers give the list A, A, A, B, and four selections from cursor 0 return A, A, A, B |
| Expansion.FallbackCursorInExpansion | src/round_robin_load_balancer.cpp:562-570 | in the list A, A, A, B with A unhealthy and B dead, a pick from cursor 2 returns slot 2 but moves the cursor to 1 |
| Expansion.FallbackStarves | src/round_robin_load_balancer.cpp:540-570 | weights 2 and 1 over two alive but unhealthy servers give the list A, A, B; from cursor 2 the pick is B and then A at slot 0, after which every selection from cursor 1 is A at slot 1 with the cursor left at 1, so B is never returned again |
| Expansion.PicksStuck | src/round_robin_load_balancer.cpp:562-570 | a selection that leaves the cursor where it was makes every later selection return the same slot |
| Expansion.ServedRotation | src/round_robin_load_balancer.cpp:545-553 | on a list whose servers are all alive and healthy, as many selections as the list is long serve each slot exactly once |
| Expansion.WeightedShare | src/round_robin_load_balancer.cpp:490-553 | with every server alive and healthy, as many selections as the expansion list is long return each server its weight times its pool multiplicity, from any cursor inside the list |
| Address.SkipSpaces | src/ping_server.cpp:71 | the leading white space `strtol` skips: the result is the suffix of the text after the dropped characters, all of which are white space, and it does not start with white space |
| Address.DigitRun | src/ping_server.cpp:71 | the digit run `strtol` reads is all digits and stops at the first non-digit |
| Address.Checked | src/ping_server.cpp:70-75 | a value read is accepted exactly when it fits in a 32-bit int, and is otherwise out of range |
| Address.Stoi | src/ping_server.cpp:71 | a successful `std::stoi` lies in the 32-bit int range |
| Address.FirstColon | src/ping_server.cpp:61 | the split point is a ':' with no ':' before it |
| Address.StoiOfSignedDigits | src/ping_server.cpp:71 | an optional sign, a digit run and any text not starting with a digit read as the signed value of the run, range-checked; the trailing text is ignored |
| Address.StoiReadsBack | src/ping_server.cpp:71 | every int printed in decimal reads back as itself, whatever non-digit text follows |
| Address.StoiRejectsLarge | src/ping_server.cpp:70-75 | a decimal value above 2^31-1 is rejected as out of range, not wrapped |
| Address.StoiRejectsLargeNegative | src/ping_server.cpp:70-75 | '-' and a magnitude above 2^31 is rejected as out of range |
| Address.StoiNeedsADigit | src/ping_server.cpp:70-75 | with no digit after the white space and optional sign the conversion fails with an invalid argument |
| Address.ParseRoundTrip | src/ping_server.cpp:59-76 | "host:port" with a colon-free host and any int port parses back to that host and port, 0, negative and above 65535 included; a bare host parses to port 80 |
| Address.ParseServerAddress | src/ping_server.cpp:59-76 | an address without ':' is its own host on port 80; a parsed host contains no ':', is a prefix of the address followed by ':' when it is not all of it, and when there is a ':' the parse succeeds exactly when `std::stoi` of the text after the first one does, with that value as the port (so trailing text is ignored) and otherwise with its error |
| Address.Convert | src/ping_server.cpp:70-75 | the conversion fails with an invalid argument exactly when no digit follows the sign; a value read with '-' is never positive and one without is never negative |
| Address.StoiSkipsSpaces | src/ping_server.cpp:71 | leading white space never changes what `std::stoi` reads |
| Dns.Resolve | src/ping_server.cpp:79-127 | resolving one host never adds, drops or changes the cache entry of any other host |
| Dns.LiteralBypassesCache | src/ping_server.cpp:81-85 | an IPv4 literal comes back as it is, with the cache untouched and no lookup |
| Dns.CacheHitIffFresh | src/ping_server.cpp:87-96 | for any other host the resolver is skipped exactly when an entry with expiry after now exists; then its address is returned and the cache is unchanged |
| Dns.FailedLookupKeepsCache | src/ping_server.cpp:104-106 | a failed lookup returns the empty address and leaves the cache as it was |
| Dns.SuccessfulLookupIsStored | src/ping_server.cpp:114-126 | a successful lookup is returned and stored with expiry now + TTL, over any older entry |
| Dns.ResolvedOncePerTtl | src/ping_server.cpp:87-126 | after a successful lookup, every later call before the expiry answers from the cache, without a lookup and without changing the cache |
| Dns.ExpiredEntryIsRefreshed | src/ping_server.cpp:92-104 | an entry whose expiry has passed leads to a fresh lookup |
| Dns.ClearedCacheAsksResolver | src/ping_server.cpp:361-365 | after the cache is cleared, every name that is not a literal is looked up again |
| Ping.ProbeUsesPortModulo | src/ping_server.cpp:135-168 | the built-in probe connects to the resolved address on the port mod 65536, so an out-of-range port wraps rather than being refused |
| Ping.BareHostProbesPort80 | src/ping_server.cpp:61-66 | the built-in probe of an address without a port connects on port 80 |
| Ping.BadPortFailsProbe | src/ping_server.cpp:135-137 | an address whose port text does not parse fails the built-in probe and leaves the DNS cache alone |
| Ping.AfterProbe | src/ping_server.cpp:280-292 | after a probe the health flag is its result and the check time is now; success gives alive with no failures; failure adds one to the 32-bit count and leaves the server alive exactly when it was alive and the new count is below 3 |
| Ping.DefaultOutcome | src/ping_server.cpp:130-143 | an address whose port does not parse fails with the cache untouched; a success needs a parsed address; the cache only gains hosts and no other host's entry changes |
| Ping.RecordOutcome | src/ping_server.cpp:280-292 | one result applied through the setters: success makes the server healthy and alive with no failures; failure makes it unhealthy, counts the failure, and marks it not alive once the count reaches 3; the probe time is recorded; address, weight and connections are unchanged |
| Ping.FailureCount | src/ping_server.cpp:280-292 | after a history of results the failure count is the length of the final failure streak, plus the old count when there was no success, mod 2^32 |
| Ping.AliveAfterHistory | src/ping_server.cpp:284-291 | after a success, a server is alive exactly while its final failure streak is below 3; with no success an alive server stays alive while old count plus streak is below 3 and is dead once it reaches 3; a dead server revives only through a success |
| Ping.ProbeHistory | src/ping_server.cpp:280-292 | a history of results leaves the failure count and aliveness above, and the health flag and time of the last result |
| Ping.ThreeStrikes | src/ping_server.cpp:284-288 | a fresh server survives two failed probes in a row and is marked not alive by the third |
| Ping.CustomBatch | src/ping_server.cpp:238 | with a custom probe, each server's result is that probe on its address and the DNS cache is left alone |
| Ping.OutcomesForSingle | src/ping_server.cpp:228-259 | a server that occurs once in the batch has exactly one result applied: the one at its position |
| Ping.BatchStep | src/ping_server.cpp:245-268 | one more result extends the batch by one entry, and the verdict stays the conjunction of all results so far |
| Ping.PingServer.constructor | src/ping_server.cpp:27-45 | timeout 1000 ms and interval 5000 ms by default, not running, pool size 4, empty cache with TTL 300 s, built-in probe |
| Ping.PingServer.ResolveHostname | src/ping_server.cpp:79-127 | the address returned and the new cache are those of the cache rule `Resolve` |
| Ping.PingServer.DefaultPing | src/ping_server.cpp:130-207 | parse, resolve through the cache, connect: the result and the new cache are those of `DefaultOutcome` |
| Ping.PingServer.RunProbe | src/ping_server.cpp:238 | the installed probe's result; only the built-in probe touches the cache |
| Ping.PingServer.PingOne | src/ping_server.cpp:272-295 | a null server fails without side effects; otherwise the installed probe runs with the configured timeout and its result is applied by the outcome rule and returned |
| Ping.PingServer.ProbeEntry | src/ping_server.cpp:237-258 | probing the next index extends the batch by that entry's result and applies it to that server only |
| Ping.PingServer.RunWorker | src/ping_server.cpp:229-260 | a worker takes indices from the shared counter until one is past the end; afterwards every index has been probed once and the counter is one past the last index taken |
| Ping.PingServer.RunPool | src/ping_server.cpp:228-266 | several workers over one counter probe every index exactly once |
| Ping.PingServer.ParallelPing | src/ping_server.cpp:210-269 | the results and the new cache are the reference batch over the addresses in order; the verdict is true exactly when every probe succeeded; each server has its results applied by the outcome rule; address, weight and connections are unchanged |
| Ping.PingServer.PingServers | src/ping_server.cpp:298-307 | as above, and an empty list succeeds |
| Ping.PingServer.SetTimeout | src/ping_server.cpp:368-371 | stores the timeout |
| Ping.PingServer.SetInterval | src/ping_server.cpp:378-381 | stores the interval |
| Ping.PingServer.SetThreadPoolSize | src/ping_server.cpp:388-391 | stores the size, with 0 turned into 1, so the pool is never empty |
| Ping.PingServer.SetDnsCacheTtl | src/ping_server.cpp:398-401 | stores the TTL |
| Ping.PingServer.SetPingImplementation | src/ping_server.cpp:409-414 | installs a given probe; an empty function leaves the current probe in place |
| Ping.PingServer.ResetPingImplementation | src/ping_server.cpp:417-423 | reinstalls the built-in probe |
| Ping.PingServer.ClearDnsCache | src/ping_server.cpp:361-365 | the cache becomes empty |
| Balancer.WithoutAddress | src/round_robin_load_balancer.cpp:164-170 | removing an address never lengthens the list |
| Balancer.WithoutAddressMembers | src/round_robin_load_balancer.cpp:164-170 | exactly the servers of another address remain |
| Balancer.WithoutAddressAppend | src/round_robin_load_balancer.cpp:164-170 | removal works entry by entry, so the kept servers keep their order |
| Balancer.WithoutAddressShrinks | src/round_robin_load_balancer.cpp:162-172 | the list shrinks exactly when some server has the address; otherwise it is unchanged |
| Balancer.AddRemoveRoundTrip | src/round_robin_load_balancer.cpp:133-173 | adding a server of a new address and then removing that address gives back the original list |
| Balancer.ContainsAddress | src/round_robin_load_balancer.cpp:143-150 | the duplicate search finds a server exactly when the address is in the list |
| Balancer.KeepOthers | src/round_robin_load_balancer.cpp:164-170 | the erase/remove pass leaves exactly the list without that address |
| Balancer.FailoverScan | src/round_robin_load_balancer.cpp:372-406 | the two loops return the server and cursor that `Select` picks, or null with the cursor kept; a returned server is alive and in the list |
| Balancer.FirstOccurrence | src/round_robin_load_balancer.cpp:396-401 | the index search by identity finds the first occurrence |
| Balancer.Pool.constructor | src/round_robin_load_balancer.cpp:10-23 | the list is kept as given, with health checks off, interval 5000 and failure limit 3 by default, and a new prober in its default configuration: timeout 1000 ms, interval 5000 ms, pool size 4, not running, empty cache with TTL 300 s, built-in probe |
| Balancer.Pool.AddServer | src/round_robin_load_balancer.cpp:133-154 | a null server or a known address is refused and the list is unchanged; otherwise the server is appended and true returned |
| Balancer.Pool.RemoveServer | src/round_robin_load_balancer.cpp:157-173 | every server of the address leaves, the rest stay in order, and the result is true exactly when the address was present |
| Balancer.Pool.HealthyServerCount | src/round_robin_load_balancer.cpp:279-287 | the number of servers both alive and healthy: at most the server count, positive exactly when one exists, equal to it exactly when all are |
| Balancer.Pool.PerformHealthCheck | src/round_robin_load_balancer.cpp:121-130 | one batch probe of the whole pool, with everything `PingServers` promises |
| Balancer.Pool.SetHealthCheckInterval | src/round_robin_load_balancer.cpp:184-188 | stores the interval |
| Balancer.Pool.SetMaxHealthCheckFailures | src/round_robin_load_balancer.cpp:196-200 | stores the limit, which nothing reads |
| Balancer.Pool.SetStrategy | src/round_robin_load_balancer.cpp:208-212 | stores the tag only |
| Balancer.RoundRobinBalancer.constructor | src/round_robin_load_balancer.cpp:314-324 | a round-robin pool over the given non-empty list, cursor 0 |
| Balancer.NewRoundRobin | src/round_robin_load_balancer.cpp:321-323 | an empty list is refused; any other list gives a balancer over it with cursor 0 |
| Balancer.RoundRobinBalancer.GetNextServer | src/round_robin_load_balancer.cpp:364-407 | the server and new cursor are those `Select` gives over the pool from the cursor; null with the cursor kept when nothing is alive; a returned server is alive |
| Balancer.RoundRobinBalancer.UpdateCurrentServer | src/round_robin_load_balancer.cpp:410-421 | the cursor advances by one mod the pool size; an empty pool leaves it |
| Balancer.WeightedRoundRobinBalancer.constructor | src/round_robin_load_balancer.cpp:426-438 | a weighted pool over the given non-empty list, cursor 0, expansion list built |
| Balancer.NewWeightedRoundRobin | src/round_robin_load_balancer.cpp:433-435 | an empty list is refused; any other list gives a balancer whose expansion list is built |
| Balancer.WeightedRoundRobinBalancer.UpdateWeightedList | src/round_robin_load_balancer.cpp:490-512 | the expansion list becomes `Expand` of the pool: each alive server in pool order, weight times |
| Balancer.WeightedRoundRobinBalancer.PushCopies | src/round_robin_load_balancer.cpp:506-509 | the inner loop appends exactly `count` copies of the server |
| Balancer.WeightedRoundRobinBalancer.RebuildIfEmpty | src/round_robin_load_balancer.cpp:518-531 | the list is rebuilt only when it is empty; a non-empty list is kept, however stale |
| Balancer.WeightedRoundRobinBalancer.GetNextServer | src/round_robin_load_balancer.cpp:515-575 | after the rebuild-if-empty step, the server and new cursor are those `Select` gives over the expansion list; null when it is empty or nothing in it is alive |

## Left out

- The TCP connect of the built-in probe (socket, non-blocking connect, select, `SO_ERROR`) is operating-system I/O. It is the `connect` function of the `Network` value.
- `getaddrinfo`, `inet_pton` and `inet_ntop` are foreign calls. They are the `Resolver` of the `Network` value.
- Threads, `std::async`, atomics, mutexes and shared locks are not modelled. The worker pool runs its workers one after the other. The cursor race between concurrent selections is not modelled.
- The background loops are lifecycle and concurrency code, with sleeps. These are `startHealthChecks`, `stopHealthChecks` and `isHealthCheckRunning`, and on the prober `startBackgroundPing`, `stopBackgroundPing`, `isRunning` and `pingWorker`. The flags exist as fields but nothing sets them.
- `getAverageLoad` and the `double` division of `getEffectiveLoad` are floating point.
- ServerRecord.Server.EffectiveLoad: computes an exact rational, not a rounded `double`.
- `steady_clock` is replaced by a `now` parameter. DNS expiry is `now + TTL * 1000` in milliseconds. Chrono durations are naturals, with no overflow.
- Ping.PingServer.ParallelPing: uses one `now` for the whole batch. The original reads the clock again for every probe, both for DNS expiry (`src/ping_server.cpp:93`, `:122`) and for the health-check stamp, so in the model an entry that expires partway through a batch, and differing stamps within one batch, are not captured.
- Balancer.Pool.PerformHealthCheck: passes that single `now` to the batch, with the same consequence.
- The copy and move constructors and assignments of the balancers carry no selection logic. Neither does the Windows socket start-up and clean-up.
- The server move constructor and move assignment are left out. They behave like the copies, apart from moving the address.
- The getters, and `getServers` (a copy of the list), are plain reads of a field.
- The `_pingServer` null check in `performHealthCheck` (`src/round_robin_load_balancer.cpp:123-125`) fails only on a balancer that has been moved from: the move constructor and move assignment (`:46-55`, `:87-111`) move the prober out, and `performHealthCheck` then returns false. Balancer moves are not modelled, so here `prober` is a non-null constant.
- The balancers' `size_t` cursor is an unbounded natural. It only wraps if it passes 2^64, and every store reduces it mod n first.
- Least-connections and IP-hash are strategy tags with no selector in the source. They exist only as tags.
- Ping.AliveAfterHistory: for a history with no success, says nothing about a failure streak long enough to wrap the 32-bit counter past 0.
- Ping.ProbeHistory: for a history with no success, says nothing about a failure streak long enough to wrap the 32-bit counter past 0.
- Server lists are sequences of `Server` references that are never null. A null entry in the initial list, which the source would dereference in `getHealthyServerCount` and in selection, is not modelled.
- Balancer.Pool.ServerCount: has no contract of its own. It is the length of the list, and `HealthyServerCount` states its relation to it.
- Ping.Batch: fixes only the length of its result. It is the reference the batch methods are proved against.
- Ping.PingServer.ParallelPing: runs the workers in index order, one after another, so it covers one interleaving of the original's threads. The index counter guarantees each index is taken once in any interleaving.
