/**
 * The pure rules of the outbound message limiter: the constants, Java `int`
 * arithmetic where the limiter relies on it, the derived limiter mode, the
 * adaptive ceiling chosen by `updateLimit`, and the order and dry-run flags
 * with which one admission acquires from the three sub-limiters.
 */
module OutboundRules {

  // ---------------------------------------------------------------------------
  // Constants
  // ---------------------------------------------------------------------------

  /** Floor of the adaptive ceiling when no static limit is configured. */
  const DEFAULT_MAX_INFLIGHT: int := 1000
  /** How long a Dropped completion keeps the adaptive limiter load-bearing. */
  const BACKPRESSURE_ADAPTIVE_LIMITER_MINUTE: int := 30
  const NANOS_PER_MINUTE: int := 60_000_000_000
  /** `TimeUnit.MINUTES.toNanos(BACKPRESSURE_ADAPTIVE_LIMITER_MINUTE)`. */
  const BACKPRESSURE_NANOS: int := BACKPRESSURE_ADAPTIVE_LIMITER_MINUTE * NANOS_PER_MINUTE
  /** Default per-partition budget of the builder. */
  const DEFAULT_MAX_OUTBOUND_CACHE_COUNT: int := 1000

  const INT32_MIN: int := -0x8000_0000
  const INT32_MAX: int := 0x7fff_ffff
  const TWO_TO_32: int := 0x1_0000_0000

  /** A Java `int`. */
  type Int32 = x: int | INT32_MIN <= x <= INT32_MAX

  // ---------------------------------------------------------------------------
  // Java int arithmetic
  // ---------------------------------------------------------------------------

  /** The two's-complement truncation Java applies to an `int` product. */
  function WrapInt32(x: int): (r: Int32)
    ensures (r - x) % TWO_TO_32 == 0
    ensures INT32_MIN <= x <= INT32_MAX ==> r == x
  {
    (x - INT32_MIN) % TWO_TO_32 + INT32_MIN
  }

  /** `ConcurrentHashMap.size()`: the number of mappings, saturated at `Integer.MAX_VALUE`. */
  function MapSize(n: nat): (r: Int32)
    ensures 0 <= r <= n
    ensures n <= INT32_MAX ==> r == n
    ensures n > INT32_MAX ==> r == INT32_MAX
  {
    if n <= INT32_MAX then n else INT32_MAX
  }

  /** `Math.max` on two `int`s: the larger of the two. */
  function MaxInt32(a: Int32, b: Int32): (r: Int32)
    ensures r >= a && r >= b
    ensures r == a || r == b
  {
    if a >= b then a else b
  }

  // ---------------------------------------------------------------------------
  // Limiter mode
  // ---------------------------------------------------------------------------

  /**
   * The fixed limiter is load-bearing when a static limit is configured and the
   * backpressure deadline lies strictly before the current tick.
   */
  function UseFixedLimiter(fixedLimit: int, useAdaptiveLimiterUntilTick: int, now: int): (r: bool)
    ensures fixedLimit <= 0 ==> !r
    ensures now <= useAdaptiveLimiterUntilTick ==> !r
    ensures fixedLimit > 0 && useAdaptiveLimiterUntilTick < now ==> r
  {
    fixedLimit > 0 && useAdaptiveLimiterUntilTick < now
  }

  /** The deadline a Dropped completion observed at tick `now` sets. */
  function BackpressureDeadline(now: int): (r: int)
    ensures r > now
    ensures r - now == 30 * 60 * 1_000_000_000
  {
    now + BACKPRESSURE_NANOS
  }

  /** At the tick the deadline was set to, the fixed limiter is never in charge. */
  lemma NotFixedAtDeadlineTick(fixedLimit: int, tick: int)
    ensures !UseFixedLimiter(fixedLimit, tick, tick)
  {
  }

  /** A non-positive static limit leaves the adaptive limiter in charge whatever the clock says. */
  lemma DisabledStaticLimitNeverGates(fixedLimit: int, useAdaptiveLimiterUntilTick: int, now: int)
    requires fixedLimit <= 0
    ensures !UseFixedLimiter(fixedLimit, useAdaptiveLimiterUntilTick, now)
  {
  }

  /**
   * After a drop observed at `dropTick`, with a valid static limit, the fixed
   * limiter is out of charge for exactly the next 30 minutes (inclusive of the
   * deadline tick) and back in charge at every later tick.
   */
  lemma BackpressureWindow(fixedLimit: int, dropTick: int, now: int)
    requires fixedLimit > 0
    ensures UseFixedLimiter(fixedLimit, BackpressureDeadline(dropTick), now)
            <==> now > dropTick + BACKPRESSURE_NANOS
  {
  }

  /** A later drop pushes the end of the adaptive window further out, never closer. */
  lemma RepeatedDropExtendsWindow(fixedLimit: int, firstDrop: int, laterDrop: int, now: int)
    requires firstDrop <= laterDrop
    ensures UseFixedLimiter(fixedLimit, BackpressureDeadline(laterDrop), now)
            ==> UseFixedLimiter(fixedLimit, BackpressureDeadline(firstDrop), now)
  {
  }

  // ---------------------------------------------------------------------------
  // Ceilings
  // ---------------------------------------------------------------------------

  /**
   * The ceiling `updateLimit(limit)` gives the adaptive and shadow-adaptive
   * limiters: the static limit itself when it is positive, otherwise the larger
   * of the floor and the per-partition budget times the registered partition
   * count, the product taken in Java `int` arithmetic.
   */
  function AdaptiveCeiling(limit: Int32, maxOutboundCacheCount: Int32, partitions: nat): (r: Int32)
    ensures limit > 0 ==> r == limit
    ensures limit <= 0 ==>
              && r >= DEFAULT_MAX_INFLIGHT
              && r >= WrapInt32(maxOutboundCacheCount * MapSize(partitions))
              && (r == DEFAULT_MAX_INFLIGHT || r == WrapInt32(maxOutboundCacheCount * MapSize(partitions)))
  {
    if limit > 0 then limit
    else MaxInt32(DEFAULT_MAX_INFLIGHT, WrapInt32(maxOutboundCacheCount * MapSize(partitions)))
  }

  /**
   * Without a static limit and without overflow, the adaptive ceiling is the
   * mathematical `max(1000, budget * partitions)`: it grows with every
   * registered partition and never drops below the budget of all of them.
   */
  lemma CeilingScalesWithPartitions(limit: Int32, maxOutboundCacheCount: Int32, partitions: nat)
    requires limit <= 0
    requires maxOutboundCacheCount > 0
    requires maxOutboundCacheCount * partitions <= INT32_MAX
    ensures AdaptiveCeiling(limit, maxOutboundCacheCount, partitions)
            == if maxOutboundCacheCount * partitions >= DEFAULT_MAX_INFLIGHT
               then maxOutboundCacheCount * partitions else DEFAULT_MAX_INFLIGHT
  {
    var product := maxOutboundCacheCount * partitions;
    assert partitions <= product by {
      assert product == (maxOutboundCacheCount - 1) * partitions + partitions;
    }
    assert MapSize(partitions) == partitions;
    assert WrapInt32(maxOutboundCacheCount * MapSize(partitions)) == product;
  }

  /**
   * As written, the product wraps: a budget of 1000 per partition with 2147484
   * partitions exceeds `Integer.MAX_VALUE`, so the ceiling falls back to the
   * floor of 1000 instead of growing with the partition count.
   */
  lemma CeilingOverflowFallsBackToFloor()
    ensures AdaptiveCeiling(0, 1000, 2147484) == DEFAULT_MAX_INFLIGHT
  {
    assert WrapInt32(1000 * 2147484) == 2147484000 - TWO_TO_32;
  }

  /** The concrete case: no static limit, four partitions, the default budget. */
  lemma FourPartitionsAtDefaultBudget()
    ensures AdaptiveCeiling(0, DEFAULT_MAX_OUTBOUND_CACHE_COUNT, 4) == 4000
    ensures AdaptiveCeiling(50, DEFAULT_MAX_OUTBOUND_CACHE_COUNT, 4) == 50
  {
  }

  // ---------------------------------------------------------------------------
  // Acquisition plan
  // ---------------------------------------------------------------------------

  datatype LimiterKind = Fixed | Adaptive | ShadowAdaptive

  /** A permit one sub-limiter granted: which limiter, and whether it was a dry run. */
  datatype Permit = Permit(limiter: LimiterKind, dryRun: bool)

  /** `InflightLimiter.Result`; only Dropped matters to the orchestrator. */
  datatype PermitResult = Dropped | OtherResult(name: string)

  /** One completion of one sub-limiter permit. */
  datatype Completion = Completion(permit: Permit, result: PermitResult)

  /**
   * The three acquisitions one admission performs, in order, given the mode `u`
   * read once before acquiring.
   */
  function AcquisitionPlan(u: bool): (plan: seq<Permit>)
    ensures |plan| == 3
    ensures plan[0].limiter == Fixed && plan[1].limiter == Adaptive && plan[2].limiter == ShadowAdaptive
    ensures plan[0].dryRun != plan[1].dryRun
    ensures !plan[0].dryRun <==> u
    ensures plan[2].dryRun
  {
    [Permit(Fixed, !u), Permit(Adaptive, u), Permit(ShadowAdaptive, true)]
  }

  /** The limiters that gate for real in a sequence of acquisitions. */
  function LoadBearing(permits: seq<Permit>): set<LimiterKind>
  {
    set p | p in permits && !p.dryRun :: p.limiter
  }

  /**
   * Exactly one limiter is load-bearing per admission: the fixed one in fixed
   * mode, the adaptive one otherwise; the shadow limiter never is.
   */
  lemma ExactlyOneLoadBearing(u: bool)
    ensures LoadBearing(AcquisitionPlan(u)) == {if u then Fixed else Adaptive}
    ensures ShadowAdaptive !in LoadBearing(AcquisitionPlan(u))
  {
    var plan := AcquisitionPlan(u);
    var gate := if u then Fixed else Adaptive;
    assert Permit(gate, false) in plan;
    forall k | k in LoadBearing(plan) ensures k == gate {
      var p :| p in plan && !p.dryRun && p.limiter == k;
    }
  }

  /**
   * Completing a composite permit completes each wrapped permit, in order, with
   * the same result.
   */
  function CompletionsOf(permits: seq<Permit>, result: PermitResult): (cs: seq<Completion>)
    ensures |cs| == |permits|
    ensures forall k :: 0 <= k < |permits| ==> cs[k] == Completion(permits[k], result)
  {
    if permits == [] then []
    else CompletionsOf(permits[..|permits| - 1], result) + [Completion(permits[|permits| - 1], result)]
  }
}
