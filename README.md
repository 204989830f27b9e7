# Outbound message limiter — a Dafny model

This project models `SimpleOutboundMessageLimiter`, the admission-control
orchestrator of the uForwarder consumer-proxy worker. For every message a
worker is about to dispatch, the limiter acquires a permit from each of three
inflight limiters:

- the fixed limiter, which enforces a static limit;
- the adaptive limiter, which sizes its own limit from feedback;
- the shadow-adaptive limiter, which always runs dry.

It then composes the three permits into one `NestedPermit`. Exactly one of
the fixed and adaptive limiters gates for real. Which one is decided by a
derived mode: the fixed limiter is in charge when a static limit is
configured and the backpressure deadline has passed. A `Dropped` completion
pushes that deadline 30 minutes ahead.

The limiter also keeps a registry from topic partition to an entry holding
the job and a per-partition inflight counter. Beside it sits a global
inflight tracker. The tracker samples its counter into a one-minute max
aggregator and a one-minute min aggregator.

Files:

- `outbound_rules.dfy` (module `OutboundRules`): pure rules. It holds the
  constants, Java `int` wrap-around, the mode predicate and its
  backpressure window, the adaptive ceiling of `updateLimit`, and the
  acquisition plan (order and dry-run flags).
- `windowed_aggregation.dfy` (module `WindowedAggregation`): the windowed
  aggregator, taken as a log of samples that a read reduces with `max` or
  `min`.
- `outbound_limiter.dfy` (module `OutboundLimiter`): the stateful part, as
  classes. It holds the injected `Ticker`, the registry entry
  `ScopeAndInflight`, `InflightTracker`, `NestedPermit`,
  `NestedPermitBuilder`, the limiter itself, and its `Builder`.

The three sub-limiters appear only through their configured ceilings
(`fixedLimit`, `adaptiveMaxInflight`, `shadowAdaptiveMaxInflight`). Two logs
shared by the limiters record what they did: the permits they granted
(`acquired`, each with its limiter and dry-run flag) and the completions they
received (`completed`). Time is the injected ticker's nanosecond reading.
`Ticker.Advance` is the only operation that changes it, and it only moves
the reading forward. Dafny has no private fields, so this is a property of
the model's operations rather than an enforced one.

The counters are tied to the permits that are still open. The limiter keeps
two ghost sets:

- `outstanding`: the composite permits built and not yet completed;
- `entries`: every registry entry ever created. A cancelled entry stays in
  this set, because permits built before the cancel still hold it.

`Balanced()` states that the global counter equals the number of
outstanding permits. It also states that each entry's counter equals the
number of outstanding permits that captured that entry. Every operation
keeps this balance. The one exception is completing a permit that is no
longer outstanding, which the source does not guard against. From the
balance follow three facts:

- the counters are never negative (`BalancedCountersNonNegative`);
- with nothing outstanding, they are 0 (`IdleWhenNothingOutstanding`);
- any run that ends with the same permits outstanding restores every
  counter (`CountersRestored`). An example is N acquisitions followed by
  their N completions; `AcquireThenComplete` shows the case N = 1.

The product `maxOutboundCacheCount * size()` in `updateLimit` is Java `int`
arithmetic. The model wraps it explicitly, and `size()` saturates at
`Integer.MAX_VALUE` as `ConcurrentHashMap.size()` does. When there is no
overflow, `CeilingScalesWithPartitions` shows that the ceiling is the
mathematical `max(1000, budget × partitions)`. `CeilingOverflowFallsBackToFloor`
shows what the code does past `Integer.MAX_VALUE`: with a budget of 1000 and
2147484 partitions, the ceiling falls back to 1000.

## Model

| member | source | states |
|---|---|---|
| `OutboundRules.WrapInt32` | uforwarder/src/main/java/com/uber/data/kafka/consumerproxy/worker/processor/SimpleOutboundMessageLimiter.java:102 | the Java `int` result of a product is congruent to it modulo 2^32, and equals it when it fits |
| `OutboundRules.MapSize` | uforwarder/src/main/java/com/uber/data/kafka/consumerproxy/worker/processor/SimpleOutboundMessageLimiter.java:102 | the registry size used by the ceiling is the entry count, saturated at `Integer.MAX_VALUE` |
| `OutboundRules.MaxInt32` | uforwarder/src/main/java/com/uber/data/kafka/consumerproxy/worker/processor/SimpleOutboundMessageLimiter.java:100-102 | `Math.max` of two `int`s is at least both and is one of them |
| `OutboundRules.BackpressureDeadline` | uforwarder/src/main/java/com/uber/data/kafka/consumerproxy/worker/processor/SimpleOutboundMessageLimiter.java:342-345 | the deadline a drop sets lies exactly 30 minutes, in nanoseconds, after the current tick |
| `OutboundRules.UseFixedLimiter` | uforwarder/src/main/java/com/uber/data/kafka/consumerproxy/worker/processor/SimpleOutboundMessageLimiter.java:330-336 | without a positive static limit, or while the deadline is not strictly before now, the adaptive limiter is in charge; with both, the fixed one is |
| `OutboundRules.NotFixedAtDeadlineTick` | uforwarder/src/main/java/com/uber/data/kafka/consumerproxy/worker/processor/SimpleOutboundMessageLimiter.java:330-336 | the comparison is strict: at the very tick the deadline holds, the fixed limiter is not in charge (so it is not at construction) |
| `OutboundRules.DisabledStaticLimitNeverGates` | uforwarder/src/main/java/com/uber/data/kafka/consumerproxy/worker/processor/SimpleOutboundMessageLimiter.java:330-336 | with a static limit of at most 0 the fixed limiter is never in charge, whatever the deadline and clock |
| `OutboundRules.BackpressureWindow` | uforwarder/src/main/java/com/uber/data/kafka/consumerproxy/worker/processor/SimpleOutboundMessageLimiter.java:330-345 | with a valid static limit, after a drop at tick t the fixed limiter is in charge exactly at ticks after t + 30 minutes |
| `OutboundRules.RepeatedDropExtendsWindow` | uforwarder/src/main/java/com/uber/data/kafka/consumerproxy/worker/processor/SimpleOutboundMessageLimiter.java:342-345 | a later drop never brings the end of the adaptive window earlier |
| `OutboundRules.AdaptiveCeiling` | uforwarder/src/main/java/com/uber/data/kafka/consumerproxy/worker/processor/SimpleOutboundMessageLimiter.java:88-105 | a positive static limit is the adaptive ceiling; otherwise the ceiling is at least 1000 and at least the (wrapped) budget × partition count, and is one of the two |
| `OutboundRules.CeilingScalesWithPartitions` | uforwarder/src/main/java/com/uber/data/kafka/consumerproxy/worker/processor/SimpleOutboundMessageLimiter.java:96-103 | without a static limit and without overflow, the ceiling is `max(1000, budget × partitions)` |
| `OutboundRules.CeilingOverflowFallsBackToFloor` | uforwarder/src/main/java/com/uber/data/kafka/consumerproxy/worker/processor/SimpleOutboundMessageLimiter.java:99-102 | budget 1000 with 2147484 partitions wraps the product negative, and the ceiling falls back to 1000 |
| `OutboundRules.FourPartitionsAtDefaultBudget` | uforwarder/src/main/java/com/uber/data/kafka/consumerproxy/worker/processor/SimpleOutboundMessageLimiter.java:88-105 | no static limit, four partitions, default budget: ceiling 4000; static limit 50: ceiling 50 |
| `OutboundRules.AcquisitionPlan` | uforwarder/src/main/java/com/uber/data/kafka/consumerproxy/worker/processor/SimpleOutboundMessageLimiter.java:246-256 | acquisitions go fixed, adaptive, shadow; the fixed one is dry exactly when not in fixed mode, the adaptive one has the opposite flag, and the shadow one is always dry |
| `OutboundRules.ExactlyOneLoadBearing` | uforwarder/src/main/java/com/uber/data/kafka/consumerproxy/worker/processor/SimpleOutboundMessageLimiter.java:250-256 | the set of limiters that gate for real is exactly {fixed} in fixed mode and {adaptive} otherwise; the shadow limiter never gates |
| `OutboundRules.CompletionsOf` | uforwarder/src/main/java/com/uber/data/kafka/consumerproxy/worker/processor/SimpleOutboundMessageLimiter.java:394 | completing a composite permit completes each wrapped permit, in order, with the same result |
| `WindowedAggregation.Reduce` | uforwarder/src/main/java/com/uber/data/kafka/consumerproxy/worker/processor/SimpleOutboundMessageLimiter.java:469-478 | the max (min) reduction of a non-empty sample log is one of the samples and no sample is above (below) it |
| `WindowedAggregation.PairedSamplesBracket` | uforwarder/src/main/java/com/uber/data/kafka/consumerproxy/worker/processor/SimpleOutboundMessageLimiter.java:481-485 | when each max sample is one above the min sample taken with it, the reduced max is strictly above the reduced min |
| `WindowedAggregation.WindowedAggregator.Put` | uforwarder/src/main/java/com/uber/data/kafka/consumerproxy/worker/processor/SimpleOutboundMessageLimiter.java:482-484 | a put appends exactly one sample |
| `WindowedAggregation.WindowedAggregator.Get` | uforwarder/src/main/java/com/uber/data/kafka/consumerproxy/worker/processor/SimpleOutboundMessageLimiter.java:491-497 | a read yields the default when nothing was put, and otherwise the most extreme sample put |
| `OutboundLimiter.Ticker.constructor` | uforwarder/src/main/java/com/uber/data/kafka/consumerproxy/worker/processor/SimpleOutboundMessageLimiter.java:53 | the injected time source starts at the given nanosecond reading |
| `OutboundLimiter.Ticker.Advance` | uforwarder/src/main/java/com/uber/data/kafka/consumerproxy/worker/processor/SimpleOutboundMessageLimiter.java:53 | the reading moves forward by exactly the elapsed nanoseconds and nothing else changes |
| `OutboundLimiter.InflightTracker.constructor` | uforwarder/src/main/java/com/uber/data/kafka/consumerproxy/worker/processor/SimpleOutboundMessageLimiter.java:468-479 | a new tracker has counter 0, a max and a min aggregator, and no samples |
| `OutboundLimiter.InflightTracker.Increase` | uforwarder/src/main/java/com/uber/data/kafka/consumerproxy/worker/processor/SimpleOutboundMessageLimiter.java:481-485 | the pre-increment value v goes to the min log and v + 1 to the max log; the counter becomes v + 1; increments − decrements stays equal to the counter |
| `OutboundLimiter.InflightTracker.Decrease` | uforwarder/src/main/java/com/uber/data/kafka/consumerproxy/worker/processor/SimpleOutboundMessageLimiter.java:487-489 | decrements the counter by one and records no sample |
| `OutboundLimiter.OneMinuteMaxAboveMin` | uforwarder/src/main/java/com/uber/data/kafka/consumerproxy/worker/processor/SimpleOutboundMessageLimiter.java:491-497 | once anything was sampled, the one-minute max is strictly above the one-minute min |
| `OutboundLimiter.InflightTracker.OneMinuteMax` | uforwarder/src/main/java/com/uber/data/kafka/consumerproxy/worker/processor/SimpleOutboundMessageLimiter.java:491-493 | 0 before the first sample, otherwise a sample of the max log that no sample exceeds |
| `OutboundLimiter.InflightTracker.OneMinuteMin` | uforwarder/src/main/java/com/uber/data/kafka/consumerproxy/worker/processor/SimpleOutboundMessageLimiter.java:495-497 | 0 before the first sample, otherwise a sample of the min log that no sample undercuts |
| `OutboundLimiter.ScopeAndInflight.constructor` | uforwarder/src/main/java/com/uber/data/kafka/consumerproxy/worker/processor/SimpleOutboundMessageLimiter.java:460-464 | a new entry holds its job and an inflight count of 0 |
| `OutboundLimiter.NestedPermit.constructor` | uforwarder/src/main/java/com/uber/data/kafka/consumerproxy/worker/processor/SimpleOutboundMessageLimiter.java:384-390 | building a composite permit increments the global counter by exactly 1, with the tracker's sampling, and the captured entry's counter by exactly 1. The permit becomes outstanding, and a balanced limiter stays balanced when the entry is one it counts |
| `OutboundLimiter.NestedPermit.Hold` | uforwarder/src/main/java/com/uber/data/kafka/consumerproxy/worker/processor/SimpleOutboundMessageLimiter.java:387-389 | the inflight increments of construction: global counter and samples, captured entry +1, the permit added to the outstanding set, balance kept |
| `OutboundLimiter.NestedPermit.Complete` | uforwarder/src/main/java/com/uber/data/kafka/consumerproxy/worker/processor/SimpleOutboundMessageLimiter.java:392-401 | completion completes all wrapped permits with the result and returns true. It decrements the global counter and the captured entry by exactly 1, even after a cancel. Only `Dropped` moves the deadline, to now + 30 minutes. The permit stops being outstanding, and completing an outstanding permit keeps the counters balanced |
| `OutboundLimiter.NestedPermit.CompleteSubPermits` | uforwarder/src/main/java/com/uber/data/kafka/consumerproxy/worker/processor/SimpleOutboundMessageLimiter.java:394 | the sub-limiter completion log grows by each wrapped permit, in order, with the same result |
| `OutboundLimiter.NestedPermit.Release` | uforwarder/src/main/java/com/uber/data/kafka/consumerproxy/worker/processor/SimpleOutboundMessageLimiter.java:395-396 | the global counter and the captured entry, registered or not, drop by exactly 1; the permit leaves the outstanding set; the balance survives for an outstanding permit |
| `OutboundLimiter.NestedPermitBuilder.constructor` | uforwarder/src/main/java/com/uber/data/kafka/consumerproxy/worker/processor/SimpleOutboundMessageLimiter.java:404-406 | a new builder holds no permits and no entry |
| `OutboundLimiter.NestedPermitBuilder.WithPermit` | uforwarder/src/main/java/com/uber/data/kafka/consumerproxy/worker/processor/SimpleOutboundMessageLimiter.java:414-417 | appends exactly the given permit |
| `OutboundLimiter.NestedPermitBuilder.WithScopeAndInflight` | uforwarder/src/main/java/com/uber/data/kafka/consumerproxy/worker/processor/SimpleOutboundMessageLimiter.java:425-428 | sets the captured entry |
| `OutboundLimiter.NestedPermitBuilder.Build` | uforwarder/src/main/java/com/uber/data/kafka/consumerproxy/worker/processor/SimpleOutboundMessageLimiter.java:430-432 | a fresh composite permit with the collected permits and entry, counted as inflight and added to the outstanding set |
| `OutboundLimiter.SimpleOutboundMessageLimiter.constructor` | uforwarder/src/main/java/com/uber/data/kafka/consumerproxy/worker/processor/SimpleOutboundMessageLimiter.java:58-74 | empty registry, fixed limit 0, adaptive and shadow ceilings at the adaptive builder's initial value, deadline at the construction tick, nothing acquired or completed, counters 0, nothing outstanding and balanced; the fixed limiter is not in charge |
| `OutboundLimiter.SimpleOutboundMessageLimiter.UpdateLimit` | uforwarder/src/main/java/com/uber/data/kafka/consumerproxy/worker/processor/SimpleOutboundMessageLimiter.java:87-110 | the fixed limit becomes `limit`. The adaptive and shadow ceilings are equal: `limit` when it is positive, otherwise the partition-scaled ceiling |
| `OutboundLimiter.SimpleOutboundMessageLimiter.Init` | uforwarder/src/main/java/com/uber/data/kafka/consumerproxy/worker/processor/SimpleOutboundMessageLimiter.java:168-192 | first writer wins: a present key keeps its entry, job and counter. An absent key gets a fresh entry with this job and count 0, and the job joins `getJobs()`. No other key changes; afterwards `contains(job)` holds and the balance is kept |
| `OutboundLimiter.SimpleOutboundMessageLimiter.Cancel` | uforwarder/src/main/java/com/uber/data/kafka/consumerproxy/worker/processor/SimpleOutboundMessageLimiter.java:199-205 | removes exactly the job's topic partition; every other entry stays. Afterwards `contains(job)` is false, the job is not among `getJobs()`, and the balance is kept |
| `OutboundLimiter.SimpleOutboundMessageLimiter.CancelAll` | uforwarder/src/main/java/com/uber/data/kafka/consumerproxy/worker/processor/SimpleOutboundMessageLimiter.java:208-211 | the registry becomes empty and the balance is kept |
| `OutboundLimiter.SimpleOutboundMessageLimiter.Contains` | uforwarder/src/main/java/com/uber/data/kafka/consumerproxy/worker/processor/SimpleOutboundMessageLimiter.java:214-219 | true exactly when some registered job has the same topic partition as the given job |
| `OutboundLimiter.SimpleOutboundMessageLimiter.Jobs` | uforwarder/src/main/java/com/uber/data/kafka/consumerproxy/worker/processor/SimpleOutboundMessageLimiter.java:362-368 | exactly the jobs stored in current entries, without duplicates |
| `OutboundLimiter.SimpleOutboundMessageLimiter.UseFixedLimiter` | uforwarder/src/main/java/com/uber/data/kafka/consumerproxy/worker/processor/SimpleOutboundMessageLimiter.java:330-336 | the mode is the pure rule read against the current limit, deadline and ticker: fixed only with a positive limit and a deadline strictly before now |
| `OutboundLimiter.SimpleOutboundMessageLimiter.OnBackpressure` | uforwarder/src/main/java/com/uber/data/kafka/consumerproxy/worker/processor/SimpleOutboundMessageLimiter.java:342-345 | overwrites the deadline with now + 30 minutes and changes nothing else |
| `OutboundLimiter.SimpleOutboundMessageLimiter.AcquireFrom` | uforwarder/src/main/java/com/uber/data/kafka/consumerproxy/worker/processor/SimpleOutboundMessageLimiter.java:254-256 | one sub-limiter acquisition returns the permit of that limiter with that dry-run flag and logs exactly it |
| `OutboundLimiter.SimpleOutboundMessageLimiter.CompleteSubPermit` | uforwarder/src/main/java/com/uber/data/kafka/consumerproxy/worker/processor/SimpleOutboundMessageLimiter.java:394 | one sub-limiter completion logs exactly that permit with that result |
| `OutboundLimiter.SimpleOutboundMessageLimiter.AcquireInPlanOrder` | uforwarder/src/main/java/com/uber/data/kafka/consumerproxy/worker/processor/SimpleOutboundMessageLimiter.java:249-256 | the sub-limiters are acquired in plan order. The acquisitions that return before an interrupt are logged and added to the builder, in that order |
| `OutboundLimiter.AcquisitionsBefore` | uforwarder/src/main/java/com/uber/data/kafka/consumerproxy/worker/processor/SimpleOutboundMessageLimiter.java:254-259 | all three acquisitions return exactly when nothing is interrupted; otherwise the count is the plan position of the interrupted limiter |
| `OutboundLimiter.SimpleOutboundMessageLimiter.CollectPermits` | uforwarder/src/main/java/com/uber/data/kafka/consumerproxy/worker/processor/SimpleOutboundMessageLimiter.java:249-257 | a fresh builder holds exactly the plan's three permits, in order, and the entry; the log grows by the plan |
| `OutboundLimiter.SimpleOutboundMessageLimiter.AcquireAll` | uforwarder/src/main/java/com/uber/data/kafka/consumerproxy/worker/processor/SimpleOutboundMessageLimiter.java:249-258 | all three permits acquired in plan order and composed with the entry: a fresh outstanding permit, both counters +1 with sampling, balance kept for a counted entry |
| `OutboundLimiter.SimpleOutboundMessageLimiter.AcquireUntilInterrupt` | uforwarder/src/main/java/com/uber/data/kafka/consumerproxy/worker/processor/SimpleOutboundMessageLimiter.java:254-278 | an interrupted acquisition logs exactly the plan prefix that returned, and nothing else changes |
| `OutboundLimiter.SimpleOutboundMessageLimiter.AcquireForEntry` | uforwarder/src/main/java/com/uber/data/kafka/consumerproxy/worker/processor/SimpleOutboundMessageLimiter.java:246-279 | the mode is read once; an interrupt yields a no-op permit with counters and outstanding set unchanged and a proper plan prefix logged; otherwise a fresh outstanding composite permit over the whole plan, both counters +1 |
| `OutboundLimiter.SimpleOutboundMessageLimiter.AcquirePermit` | uforwarder/src/main/java/com/uber/data/kafka/consumerproxy/worker/processor/SimpleOutboundMessageLimiter.java:225-281 | an unregistered partition fails with "not assigned", with no acquisition and no counter change. An interrupt yields a no-op permit, with counters unchanged. Otherwise it returns a fresh composite permit holding the plan for the mode read once, both counters rise by 1, and the permit is outstanding; the balance is kept in every case |
| `OutboundLimiter.SimpleOutboundMessageLimiter.AcquirePermitAsync` | uforwarder/src/main/java/com/uber/data/kafka/consumerproxy/worker/processor/SimpleOutboundMessageLimiter.java:284-322 | same error, order, flags, counter and outstanding effects as the synchronous path, without the interrupt branch; the balance is kept |
| `OutboundLimiter.Builder.constructor` | uforwarder/src/main/java/com/uber/data/kafka/consumerproxy/worker/processor/SimpleOutboundMessageLimiter.java:500-514 | the default per-partition budget is 1000 and the ticker is the system ticker |
| `OutboundLimiter.Builder.WithMaxOutboundCacheCount` | uforwarder/src/main/java/com/uber/data/kafka/consumerproxy/worker/processor/SimpleOutboundMessageLimiter.java:516-522 | a budget of at most 0 is rejected and the old one kept; a positive one is stored |
| `OutboundLimiter.Builder.WithTicker` | uforwarder/src/main/java/com/uber/data/kafka/consumerproxy/worker/processor/SimpleOutboundMessageLimiter.java:524-527 | stores the injected time source |
| `OutboundLimiter.Builder.Build` | uforwarder/src/main/java/com/uber/data/kafka/consumerproxy/worker/processor/SimpleOutboundMessageLimiter.java:529-532 | a fresh limiter over the builder's budget and ticker, with the same initial state as the limiter constructor: empty registry, fixed limit 0, adaptive and shadow ceilings at the initial value, counters 0, empty logs, nothing outstanding and balanced, not in fixed mode |
| `OutboundLimiter.BalancedCountersNonNegative` | uforwarder/src/main/java/com/uber/data/kafka/consumerproxy/worker/processor/SimpleOutboundMessageLimiter.java:384-401 | while the counters are balanced, neither the global counter nor any registered entry's counter is negative |
| `OutboundLimiter.IdleWhenNothingOutstanding` | uforwarder/src/main/java/com/uber/data/kafka/consumerproxy/worker/processor/SimpleOutboundMessageLimiter.java:384-401 | once every permit is completed, the global counter and every registered entry's counter are 0 |
| `OutboundLimiter.CountersRestored` | uforwarder/src/main/java/com/uber/data/kafka/consumerproxy/worker/processor/SimpleOutboundMessageLimiter.java:384-401 | between two balanced states with the same outstanding permits (N acquisitions followed by their N completions), the global counter and every counted entry's counter are restored |
| `OutboundLimiter.AcquireThenComplete` | uforwarder/src/main/java/com/uber/data/kafka/consumerproxy/worker/processor/SimpleOutboundMessageLimiter.java:384-401 | acquiring a permit and completing it once restores the outstanding set, the registry, the global counter and every registered entry's counter, and keeps the balance |

## Left out

- Concurrency: the model is one single-threaded interleaving. It leaves out
  the atomic counters, the `volatile` deadline, the `ConcurrentHashMap`, and
  the races `computeIfAbsent` guards against.
- `acquirePermitAsync`: the `CompletableFuture` chain, context propagation
  (`contextManager().wrap`) and `withFuturePermit` are left out. The model
  is the chain's sequential outcome, and a failed or cancelled stage is not
  modelled.
- `AcquirePermit`: an interrupt is a parameter naming the sub-limiter whose
  acquire throws. Which earlier permits leak is stated only as "a proper
  prefix of the plan was logged". The interrupt metric counter is not
  modelled.
- The internals of the fixed, adaptive and shadow-adaptive limiters and of
  their async adapters are not part of this model. Each is reduced to its
  ceiling plus the shared logs of granted permits and completions. Blocking,
  throttling and no-op permits for ceilings of 0 or less are not modelled.
  The adaptive limiter's starting ceiling comes from its own builder, so
  the model takes it as a `Builder` field.
- `WindowedAggregator` internals (buckets, the 60-second window, expiry) are
  not part of this model. A read reduces every sample ever put, so
  `OneMinuteMaxAboveMin` holds of the unwindowed logs.
- `publishMetrics`: gauges as `double` divided by the partition count, the
  metrics sink and the extra named metrics are all left out. So are scope
  tagging, `RoutingUtils.extractAddress` and all logging. These are floats
  and foreign calls.
- `close()` only forwards to the external limiters and adapters, so it is
  left out.
- Ticks are mathematical integers, so `ticker.read() + 30 minutes` never
  wraps as a Java `long` would.
- The `experimentalLimiterEnabled` flag and the job template are stored by
  the source but play no part in any decision. The template is kept; the
  flag is left out.
- NestedPermit.Complete: repeated completion of the same permit is not
  guarded, as in the source. Each call moves the counters again. So the
  contract promises the balance only when the completed permit was still
  outstanding. For any other completion it states the counter changes and
  nothing more.
- Ticker.Advance: nothing stops other code from assigning `nanos` directly.
  The forward-only clock holds because the model changes it only through
  `Advance`.
