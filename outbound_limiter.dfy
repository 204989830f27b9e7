/**
 * The composite outbound message limiter: a registry of assigned topic
 * partitions with per-partition inflight counters, a global inflight tracker,
 * three sub-limiters (fixed, adaptive, shadow-adaptive) of which exactly one
 * gates each admission, composite permits that release all three and the
 * counters on completion, and the backpressure deadline a dropped message
 * pushes 30 minutes ahead.
 *
 * The sub-limiters are represented by their configured ceiling and a shared log
 * of the permits they granted and the completions they received.
 */
module OutboundLimiter {
  import opened OutboundRules
  import opened WindowedAggregation

  datatype Option<T> = None | Some(value: T)

  /** The Kafka topic partition a job consumes or a message came from. */
  datatype TopicPartition = TopicPartition(topic: string, partition: Int32)

  /** The fields of a consumer job the limiter reads. */
  datatype Job = Job(topic: string, partition: Int32, consumerGroup: string, cluster: string, rpcUri: string)

  /** The physical metadata of a message about to be dispatched. */
  datatype ProcessorMessage = ProcessorMessage(topic: string, partition: Int32)

  datatype LimiterError =
    | PartitionNotAssigned(topicPartition: TopicPartition)   // IllegalStateException
    | NonPositiveCacheCount(count: Int32)                     // IllegalArgumentException

  datatype Result<T> = Ok(value: T) | Err(error: LimiterError)

  datatype Outcome = Pass | Fail(error: LimiterError)

  function KeyOf(job: Job): TopicPartition
  {
    TopicPartition(job.topic, job.partition)
  }

  function KeyOfMessage(m: ProcessorMessage): TopicPartition
  {
    TopicPartition(m.topic, m.partition)
  }

  /** The injected nanosecond time source. */
  class Ticker {
    var nanos: int

    constructor (start: int)
      ensures nanos == start
    {
      nanos := start;
    }

    /** The clock's only writer in this model, so time only moves forward. */
    method Advance(delta: nat)
      modifies this`nanos
      ensures nanos == old(nanos) + delta
    {
      nanos := nanos + delta;
    }
  }

  /** A registry entry: the job it was created for and its inflight counter. */
  class ScopeAndInflight {
    const job: Job
    var inflight: int

    constructor (job: Job)
      ensures this.job == job && inflight == 0
    {
      this.job := job;
      inflight := 0;
    }
  }

  /** The global inflight counter with its one-minute max and min aggregators. */
  class InflightTracker {
    const oneMinuteMaxInflight: WindowedAggregator
    const oneMinuteMinInflight: WindowedAggregator
    var inflight: int
    ghost var increments: nat
    ghost var decrements: nat

    ghost function Repr(): set<object>
    {
      {this, oneMinuteMaxInflight, oneMinuteMinInflight}
    }

    /**
     * The counter is the number of increments minus the number of decrements, and
     * every sample of the max log is one above the min sample recorded with it.
     */
    ghost predicate Valid()
      reads Repr()
    {
      && oneMinuteMaxInflight != oneMinuteMinInflight
      && oneMinuteMaxInflight.reducer == Max
      && oneMinuteMinInflight.reducer == Min
      && inflight == increments - decrements
      && |oneMinuteMaxInflight.samples| == |oneMinuteMinInflight.samples|
      && forall k :: 0 <= k < |oneMinuteMinInflight.samples| ==>
           oneMinuteMaxInflight.samples[k] == oneMinuteMinInflight.samples[k] + 1
    }

    constructor ()
      ensures Valid() && fresh(Repr())
      ensures inflight == 0 && increments == 0 && decrements == 0
      ensures oneMinuteMaxInflight.samples == [] && oneMinuteMinInflight.samples == []
    {
      oneMinuteMaxInflight := new WindowedAggregator(Max);
      oneMinuteMinInflight := new WindowedAggregator(Min);
      inflight := 0;
      increments, decrements := 0, 0;
    }

    /** Sample the value before the increment as a min and the value after it as a max. */
    method Increase()
      requires Valid()
      modifies Repr()
      ensures Valid()
      ensures inflight == old(inflight) + 1
      ensures increments == old(increments) + 1 && decrements == old(decrements)
      ensures oneMinuteMinInflight.samples == old(oneMinuteMinInflight.samples) + [old(inflight)]
      ensures oneMinuteMaxInflight.samples == old(oneMinuteMaxInflight.samples) + [old(inflight) + 1]
    {
      oneMinuteMinInflight.Put(inflight);
      inflight := inflight + 1;
      increments := increments + 1;
      oneMinuteMaxInflight.Put(inflight);
    }

    /** Decrement only; no sample is recorded on the way down. */
    method Decrease()
      requires Valid()
      modifies this`inflight, this`decrements
      ensures Valid()
      ensures inflight == old(inflight) - 1
      ensures decrements == old(decrements) + 1
    {
      inflight := inflight - 1;
      decrements := decrements + 1;
    }

    /** The largest sample of the max log, or 0 before the first sample. */
    function OneMinuteMax(): (r: int)
      reads this, oneMinuteMaxInflight
      ensures oneMinuteMaxInflight.samples == [] ==> r == 0
      ensures oneMinuteMaxInflight.samples != [] ==> r in oneMinuteMaxInflight.samples
      ensures oneMinuteMaxInflight.reducer == Max ==>
                forall k :: 0 <= k < |oneMinuteMaxInflight.samples| ==> oneMinuteMaxInflight.samples[k] <= r
    {
      oneMinuteMaxInflight.Get(0)
    }

    /** The smallest sample of the min log, or 0 before the first sample. */
    function OneMinuteMin(): (r: int)
      reads this, oneMinuteMinInflight
      ensures oneMinuteMinInflight.samples == [] ==> r == 0
      ensures oneMinuteMinInflight.samples != [] ==> r in oneMinuteMinInflight.samples
      ensures oneMinuteMinInflight.reducer == Min ==>
                forall k :: 0 <= k < |oneMinuteMinInflight.samples| ==> r <= oneMinuteMinInflight.samples[k]
    {
      oneMinuteMinInflight.Get(0)
    }
  }

  /** Once anything was sampled, the one-minute max is strictly above the one-minute min. */
  lemma OneMinuteMaxAboveMin(t: InflightTracker)
    requires t.Valid()
    requires t.oneMinuteMaxInflight.samples != []
    ensures t.OneMinuteMax() > t.OneMinuteMin()
  {
    PairedSamplesBracket(t.oneMinuteMinInflight.samples, t.oneMinuteMaxInflight.samples);
  }

  /** The permits among `permits` that captured entry `e`. */
  ghost function CapturedBy(permits: set<NestedPermit>, e: ScopeAndInflight): set<NestedPermit>
  {
    set p | p in permits && p.scopeAndInflight == e
  }

  /** One more permit raises the count of its own entry by one and of no other entry. */
  lemma CapturedByAdd(permits: set<NestedPermit>, p: NestedPermit, e: ScopeAndInflight)
    requires p !in permits
    ensures |CapturedBy(permits + {p}, e)| == |CapturedBy(permits, e)| + if p.scopeAndInflight == e then 1 else 0
  {
    if p.scopeAndInflight == e {
      assert CapturedBy(permits + {p}, e) == CapturedBy(permits, e) + {p};
    } else {
      assert CapturedBy(permits + {p}, e) == CapturedBy(permits, e);
    }
  }

  /** One permit fewer lowers the count of its own entry by one and of no other entry. */
  lemma CapturedByRemove(permits: set<NestedPermit>, p: NestedPermit, e: ScopeAndInflight)
    requires p in permits
    ensures |CapturedBy(permits - {p}, e)| == |CapturedBy(permits, e)| - if p.scopeAndInflight == e then 1 else 0
  {
    if p.scopeAndInflight == e {
      assert CapturedBy(permits, e) == CapturedBy(permits - {p}, e) + {p};
    } else {
      assert CapturedBy(permits - {p}, e) == CapturedBy(permits, e);
    }
  }

  /** The admission decision composed of the three sub-limiter permits. */
  class NestedPermit {
    const owner: SimpleOutboundMessageLimiter
    const permits: seq<Permit>
    const scopeAndInflight: ScopeAndInflight?

    /**
     * Building the permit counts it as inflight, globally and for its partition,
     * and makes it outstanding; a balanced limiter stays balanced when the
     * captured entry is one it keeps count of.
     */
    constructor (owner: SimpleOutboundMessageLimiter, permits: seq<Permit>, scopeAndInflight: ScopeAndInflight?)
      requires owner.Valid()
      modifies owner.tracker.Repr(), scopeAndInflight, owner`outstanding
      ensures this.owner == owner && this.permits == permits && this.scopeAndInflight == scopeAndInflight
      ensures owner.Valid()
      ensures owner.outstanding == old(owner.outstanding) + {this}
      ensures old(owner.Balanced()) && (scopeAndInflight == null || scopeAndInflight in owner.entries) ==>
                owner.Balanced()
      ensures owner.tracker.inflight == old(owner.tracker.inflight) + 1
      ensures owner.tracker.oneMinuteMinInflight.samples
              == old(owner.tracker.oneMinuteMinInflight.samples) + [old(owner.tracker.inflight)]
      ensures owner.tracker.oneMinuteMaxInflight.samples
              == old(owner.tracker.oneMinuteMaxInflight.samples) + [old(owner.tracker.inflight) + 1]
      ensures scopeAndInflight != null ==> scopeAndInflight.inflight == old(scopeAndInflight.inflight) + 1
    {
      this.owner := owner;
      this.permits := permits;
      this.scopeAndInflight := scopeAndInflight;
      new;
      Hold();
    }

    /**
     * Takes the inflight slot globally and on the captured entry and makes the
     * permit outstanding.
     */
    method Hold()
      requires owner.Valid() && this !in owner.outstanding
      modifies owner.tracker.Repr(), scopeAndInflight, owner`outstanding
      ensures owner.Valid()
      ensures owner.tracker.inflight == old(owner.tracker.inflight) + 1
      ensures owner.tracker.oneMinuteMinInflight.samples
              == old(owner.tracker.oneMinuteMinInflight.samples) + [old(owner.tracker.inflight)]
      ensures owner.tracker.oneMinuteMaxInflight.samples
              == old(owner.tracker.oneMinuteMaxInflight.samples) + [old(owner.tracker.inflight) + 1]
      ensures scopeAndInflight != null ==> scopeAndInflight.inflight == old(scopeAndInflight.inflight) + 1
      ensures owner.outstanding == old(owner.outstanding) + {this}
      ensures old(owner.Balanced()) && (scopeAndInflight == null || scopeAndInflight in owner.entries) ==>
                owner.Balanced()
    {
      owner.tracker.Increase();
      if scopeAndInflight != null {
        scopeAndInflight.inflight := scopeAndInflight.inflight + 1;
      }
      owner.outstanding := owner.outstanding + {this};
      if old(owner.Balanced()) && (scopeAndInflight == null || scopeAndInflight in owner.entries) {
        forall e | e in owner.entries
          ensures e.inflight == |CapturedBy(owner.outstanding, e)|
        {
          assert old(e.inflight) == |CapturedBy(old(owner.outstanding), e)|;
          CapturedByAdd(old(owner.outstanding), this, e);
        }
      }
    }

    /**
     * Completes every wrapped permit with `result`, releases the inflight slot
     * globally and on the captured entry (registered or not), and on a drop
     * extends the backpressure deadline.
     */
    method Complete(result: PermitResult) returns (ok: bool)
      requires owner.Valid()
      modifies owner`completed, owner`useAdaptiveLimiterUntilTick, owner.tracker`inflight,
               owner.tracker`decrements, scopeAndInflight, owner`outstanding
      ensures ok
      ensures owner.Valid()
      ensures owner.outstanding == old(owner.outstanding) - {this}
      ensures old(owner.Balanced()) && this in old(owner.outstanding) ==> owner.Balanced()
      ensures owner.completed == old(owner.completed) + CompletionsOf(permits, result)
      ensures owner.tracker.inflight == old(owner.tracker.inflight) - 1
      ensures scopeAndInflight != null ==> scopeAndInflight.inflight == old(scopeAndInflight.inflight) - 1
      ensures owner.useAdaptiveLimiterUntilTick
              == if result == Dropped then BackpressureDeadline(owner.ticker.nanos)
                 else old(owner.useAdaptiveLimiterUntilTick)
    {
      CompleteSubPermits(result);
      Release();
      if result == Dropped {
        owner.OnBackpressure();
      }
      ok := true;
    }

    /** Completes each wrapped permit, in order, with `result`. */
    method CompleteSubPermits(result: PermitResult)
      modifies owner`completed
      ensures owner.completed == old(owner.completed) + CompletionsOf(permits, result)
    {
      var i := 0;
      while i < |permits|
        invariant 0 <= i <= |permits|
        invariant owner.completed == old(owner.completed) + CompletionsOf(permits[..i], result)
      {
        owner.CompleteSubPermit(permits[i], result);
        assert permits[..i + 1][..i] == permits[..i];
        i := i + 1;
      }
      assert permits[..i] == permits;
    }

    /**
     * Releases the inflight slot globally and on the captured entry, which may
     * no longer be registered, and stops the permit being outstanding. The
     * balance survives when the permit was outstanding.
     */
    method Release()
      requires owner.Valid()
      modifies owner.tracker`inflight, owner.tracker`decrements, scopeAndInflight, owner`outstanding
      ensures owner.Valid()
      ensures owner.tracker.inflight == old(owner.tracker.inflight) - 1
      ensures scopeAndInflight != null ==> scopeAndInflight.inflight == old(scopeAndInflight.inflight) - 1
      ensures owner.outstanding == old(owner.outstanding) - {this}
      ensures old(owner.Balanced()) && this in old(owner.outstanding) ==> owner.Balanced()
    {
      owner.tracker.Decrease();
      if scopeAndInflight != null {
        scopeAndInflight.inflight := scopeAndInflight.inflight - 1;
      }
      owner.outstanding := owner.outstanding - {this};
      if old(owner.Balanced()) && this in old(owner.outstanding) {
        forall e | e in owner.entries
          ensures e.inflight == |CapturedBy(owner.outstanding, e)|
        {
          assert old(e.inflight) == |CapturedBy(old(owner.outstanding), e)|;
          CapturedByRemove(old(owner.outstanding), this, e);
        }
      }
    }
  }

  /** Collects the sub-limiter permits and the registry entry of one admission. */
  class NestedPermitBuilder {
    var permits: seq<Permit>
    var scopeAndInflight: ScopeAndInflight?

    constructor ()
      ensures permits == [] && scopeAndInflight == null
    {
      permits := [];
      scopeAndInflight := null;
    }

    method WithPermit(permit: Permit)
      modifies this`permits
      ensures permits == old(permits) + [permit]
    {
      permits := permits + [permit];
    }

    method WithScopeAndInflight(entry: ScopeAndInflight)
      modifies this`scopeAndInflight
      ensures scopeAndInflight == entry
    {
      scopeAndInflight := entry;
    }

    method Build(owner: SimpleOutboundMessageLimiter) returns (p: NestedPermit)
      requires owner.Valid()
      modifies owner.tracker.Repr(), scopeAndInflight, owner`outstanding
      ensures fresh(p)
      ensures p.owner == owner && p.permits == permits && p.scopeAndInflight == scopeAndInflight
      ensures owner.Valid()
      ensures owner.outstanding == old(owner.outstanding) + {p}
      ensures old(owner.Balanced()) && (scopeAndInflight == null || scopeAndInflight in owner.entries) ==>
                owner.Balanced()
      ensures owner.tracker.inflight == old(owner.tracker.inflight) + 1
      ensures owner.tracker.oneMinuteMinInflight.samples
              == old(owner.tracker.oneMinuteMinInflight.samples) + [old(owner.tracker.inflight)]
      ensures owner.tracker.oneMinuteMaxInflight.samples
              == old(owner.tracker.oneMinuteMaxInflight.samples) + [old(owner.tracker.inflight) + 1]
      ensures scopeAndInflight != null ==> scopeAndInflight.inflight == old(scopeAndInflight.inflight) + 1
    {
      p := new NestedPermit(owner, permits, scopeAndInflight);
    }
  }

  /**
   * How many of the three acquisitions return before the one interrupted at
   * `interruptedAt`: all three when nothing is interrupted, otherwise those
   * that precede the interrupted limiter in plan order.
   */
  function AcquisitionsBefore(interruptedAt: Option<LimiterKind>): (n: nat)
    ensures n <= 3
    ensures n == 3 <==> interruptedAt.None?
    ensures interruptedAt.Some? ==> AcquisitionPlan(false)[n].limiter == interruptedAt.value
  {
    match interruptedAt
    case None => 3
    case Some(Fixed) => 0
    case Some(Adaptive) => 1
    case Some(ShadowAdaptive) => 2
  }

  /** What an acquisition hands back: a composite permit, or a no-op permit after an interrupt. */
  datatype Granted = Nested(permit: NestedPermit) | Noop

  class SimpleOutboundMessageLimiter {
    const jobTemplate: Job
    const maxOutboundCacheCount: Int32
    const ticker: Ticker
    const tracker: InflightTracker
    var topicPartitionToScopeAndInflight: map<TopicPartition, ScopeAndInflight>
    /** The fixed limiter's limit. */
    var fixedLimit: int
    /** The adaptive and shadow-adaptive limiters' max inflight. */
    var adaptiveMaxInflight: int
    var shadowAdaptiveMaxInflight: int
    /** Nanosecond tick up to which the adaptive limiter is load-bearing. */
    var useAdaptiveLimiterUntilTick: int
    /** Every permit the sub-limiters granted, in order. */
    var acquired: seq<Permit>
    /** Every completion the sub-limiters received, in order. */
    var completed: seq<Completion>
    /** The composite permits built and not yet completed. */
    ghost var outstanding: set<NestedPermit>
    /** Every entry ever registered; a cancelled one stays, as permits may still hold it. */
    ghost var entries: set<ScopeAndInflight>

    ghost predicate Valid()
      reads this`topicPartitionToScopeAndInflight, tracker.Repr()
    {
      && tracker.Valid()
      && maxOutboundCacheCount > 0
      && KeysMatchJobs()
    }

    /**
     * The counters count outstanding permits: the global counter all of them,
     * each entry's counter those that captured it. The entries counted are
     * every entry ever registered, which covers the current registry and the
     * entries outstanding permits captured.
     */
    ghost predicate Balanced()
      reads this`topicPartitionToScopeAndInflight, this`outstanding, this`entries, tracker`inflight, entries`inflight
    {
      && (forall tp :: tp in topicPartitionToScopeAndInflight ==> topicPartitionToScopeAndInflight[tp] in entries)
      && (forall p :: p in outstanding && p.scopeAndInflight != null ==> p.scopeAndInflight in entries)
      && tracker.inflight == |outstanding|
      && forall e :: e in entries ==> e.inflight == |CapturedBy(outstanding, e)|
    }

    /** The registry entry for `tp`, as a frame. */
    function EntryAt(tp: TopicPartition): set<ScopeAndInflight>
      reads this`topicPartitionToScopeAndInflight
    {
      if tp in topicPartitionToScopeAndInflight then {topicPartitionToScopeAndInflight[tp]} else {}
    }

    /**
     * A fresh limiter: empty registry, fixed limiter disabled, deadline at the
     * construction tick, so the adaptive limiter is in charge.
     */
    constructor (builder: Builder, jobTemplate: Job)
      requires builder.Valid()
      ensures Valid() && fresh(tracker.Repr())
      ensures this.jobTemplate == jobTemplate
      ensures maxOutboundCacheCount == builder.maxOutboundCacheCount && ticker == builder.ticker
      ensures topicPartitionToScopeAndInflight == map[]
      ensures fixedLimit == 0
      ensures adaptiveMaxInflight == builder.adaptiveInitialMaxInflight
      ensures shadowAdaptiveMaxInflight == builder.adaptiveInitialMaxInflight
      ensures useAdaptiveLimiterUntilTick == ticker.nanos
      ensures acquired == [] && completed == []
      ensures tracker.inflight == 0
      ensures tracker.oneMinuteMaxInflight.samples == [] && tracker.oneMinuteMinInflight.samples == []
      ensures outstanding == {} && Balanced()
      ensures !UseFixedLimiter()
    {
      this.jobTemplate := jobTemplate;
      maxOutboundCacheCount := builder.maxOutboundCacheCount;
      ticker := builder.ticker;
      tracker := new InflightTracker();
      topicPartitionToScopeAndInflight := map[];
      fixedLimit := 0;
      adaptiveMaxInflight := builder.adaptiveInitialMaxInflight;
      shadowAdaptiveMaxInflight := builder.adaptiveInitialMaxInflight;
      useAdaptiveLimiterUntilTick := builder.ticker.nanos;
      acquired := [];
      completed := [];
      outstanding := {};
      entries := {};
    }

    /** Sets the fixed limit, then sizes the adaptive and shadow ceilings from it. */
    method UpdateLimit(limit: Int32)
      requires Valid()
      modifies this`fixedLimit, this`adaptiveMaxInflight, this`shadowAdaptiveMaxInflight
      ensures Valid()
      ensures old(Balanced()) ==> Balanced()
      ensures fixedLimit == limit
      ensures adaptiveMaxInflight == shadowAdaptiveMaxInflight
      ensures limit > 0 ==> adaptiveMaxInflight == limit
      ensures limit <= 0 ==>
                adaptiveMaxInflight
                == AdaptiveCeiling(limit, maxOutboundCacheCount, |topicPartitionToScopeAndInflight|)
    {
      fixedLimit := limit;
      var maxLimit: Int32;
      if limit > 0 {
        maxLimit := limit;
      } else {
        maxLimit := MaxInt32(DEFAULT_MAX_INFLIGHT,
                             WrapInt32(maxOutboundCacheCount * MapSize(|topicPartitionToScopeAndInflight|)));
      }
      adaptiveMaxInflight := maxLimit;
      shadowAdaptiveMaxInflight := maxLimit;
    }

    /** First writer wins: an existing entry, with its job and counter, is kept. */
    method Init(job: Job)
      requires Valid()
      modifies this`topicPartitionToScopeAndInflight, this`entries
      ensures Valid()
      ensures old(Balanced()) ==> Balanced()
      ensures Contains(job)
      ensures KeyOf(job) in old(topicPartitionToScopeAndInflight) ==>
                topicPartitionToScopeAndInflight == old(topicPartitionToScopeAndInflight)
      ensures KeyOf(job) !in old(topicPartitionToScopeAndInflight) ==>
                && KeyOf(job) in topicPartitionToScopeAndInflight
                && var e := topicPartitionToScopeAndInflight[KeyOf(job)];
                && fresh(e) && e.job == job && e.inflight == 0
                && topicPartitionToScopeAndInflight == old(topicPartitionToScopeAndInflight)[KeyOf(job) := e]
                && Jobs() == old(Jobs()) + {job}
    {
      var tp := KeyOf(job);
      if tp !in topicPartitionToScopeAndInflight {
        ghost var before := topicPartitionToScopeAndInflight;
        var e := new ScopeAndInflight(job);
        topicPartitionToScopeAndInflight := topicPartitionToScopeAndInflight[tp := e];
        entries := entries + {e};
        assert CapturedBy(outstanding, e) == {};
        forall j | j in old(Jobs()) ensures j in Jobs() {
          var t :| t in before && before[t].job == j;
          assert topicPartitionToScopeAndInflight[t] == before[t];
        }
        forall j | j in Jobs() ensures j in old(Jobs()) + {job} {
          var t :| t in topicPartitionToScopeAndInflight && topicPartitionToScopeAndInflight[t].job == j;
          if t != tp {
            assert t in before && before[t].job == j;
          }
        }
        assert topicPartitionToScopeAndInflight[tp].job == job;
      }
    }

    /** Removes exactly the job's partition; permits issued against it keep their entry. */
    method Cancel(job: Job)
      requires Valid()
      modifies this`topicPartitionToScopeAndInflight
      ensures Valid()
      ensures old(Balanced()) ==> Balanced()
      ensures topicPartitionToScopeAndInflight == old(topicPartitionToScopeAndInflight) - {KeyOf(job)}
      ensures !Contains(job) && job !in Jobs()
    {
      topicPartitionToScopeAndInflight := topicPartitionToScopeAndInflight - {KeyOf(job)};
    }

    method CancelAll()
      requires Valid()
      modifies this`topicPartitionToScopeAndInflight
      ensures Valid()
      ensures old(Balanced()) ==> Balanced()
      ensures topicPartitionToScopeAndInflight == map[]
    {
      topicPartitionToScopeAndInflight := map[];
    }

    /** Every entry is filed under the topic partition of its own job. */
    ghost predicate KeysMatchJobs()
      reads this`topicPartitionToScopeAndInflight
    {
      forall tp :: tp in topicPartitionToScopeAndInflight ==>
        KeyOf(topicPartitionToScopeAndInflight[tp].job) == tp
    }

    /**
     * Whether the job's topic partition is registered: some registered job shares
     * it (not necessarily this very job).
     */
    function Contains(job: Job): (r: bool)
      reads this`topicPartitionToScopeAndInflight
      ensures KeysMatchJobs() ==> (r <==> exists j :: j in Jobs() && KeyOf(j) == KeyOf(job))
    {
      KeyOf(job) in topicPartitionToScopeAndInflight
    }

    /** The distinct jobs stored in the current entries. */
    function Jobs(): (r: set<Job>)
      reads this`topicPartitionToScopeAndInflight
      ensures forall j :: j in r <==>
                exists tp :: tp in topicPartitionToScopeAndInflight && topicPartitionToScopeAndInflight[tp].job == j
    {
      set tp | tp in topicPartitionToScopeAndInflight :: topicPartitionToScopeAndInflight[tp].job
    }

    /** The mode predicate read against the injected ticker. */
    function UseFixedLimiter(): (r: bool)
      reads this`fixedLimit, this`useAdaptiveLimiterUntilTick, ticker`nanos
      ensures r <==> OutboundRules.UseFixedLimiter(fixedLimit, useAdaptiveLimiterUntilTick, ticker.nanos)
      ensures r ==> fixedLimit > 0 && useAdaptiveLimiterUntilTick < ticker.nanos
    {
      OutboundRules.UseFixedLimiter(fixedLimit, useAdaptiveLimiterUntilTick, ticker.nanos)
    }

    method OnBackpressure()
      modifies this`useAdaptiveLimiterUntilTick
      ensures useAdaptiveLimiterUntilTick == BackpressureDeadline(ticker.nanos)
    {
      useAdaptiveLimiterUntilTick := ticker.nanos + BACKPRESSURE_NANOS;
    }

    /** One sub-limiter acquisition. */
    method AcquireFrom(limiter: LimiterKind, dryRun: bool) returns (p: Permit)
      modifies this`acquired
      ensures p == Permit(limiter, dryRun)
      ensures acquired == old(acquired) + [p]
    {
      p := Permit(limiter, dryRun);
      acquired := acquired + [p];
    }

    /** One sub-limiter completion. */
    method CompleteSubPermit(p: Permit, result: PermitResult)
      modifies this`completed
      ensures completed == old(completed) + [Completion(p, result)]
    {
      completed := completed + [Completion(p, result)];
    }

    /**
     * Synchronous acquisition. `interruptedAt` names the sub-limiter whose
     * blocking acquire is interrupted, if any; the interrupt degrades to a no-op
     * permit without counting anything as inflight.
     */
    method AcquirePermit(message: ProcessorMessage, interruptedAt: Option<LimiterKind>)
      returns (r: Result<Granted>)
      requires Valid()
      modifies this`acquired, tracker.Repr(), EntryAt(KeyOfMessage(message)), this`outstanding
      ensures Valid()
      ensures old(Balanced()) ==> Balanced()
      ensures r.Ok? && r.value.Nested? ==> outstanding == old(outstanding) + {r.value.permit}
      ensures r.Err? || r.value.Noop? ==> outstanding == old(outstanding)
      ensures old(acquired) <= acquired
      ensures r.Err? <==> KeyOfMessage(message) !in topicPartitionToScopeAndInflight
      ensures r.Err? ==> r.error == PartitionNotAssigned(KeyOfMessage(message)) && acquired == old(acquired)
      ensures r.Ok? ==> (r.value.Noop? <==> interruptedAt.Some?)
      ensures r.Ok? && interruptedAt.Some? ==>
                acquired[|old(acquired)|..] < AcquisitionPlan(old(UseFixedLimiter()))
      ensures r.Err? || interruptedAt.Some? ==>
                unchanged(tracker.Repr()) && unchanged(EntryAt(KeyOfMessage(message)))
      ensures r.Ok? && interruptedAt.None? ==>
                && r.value.Nested?
                && var p := r.value.permit;
                && fresh(p) && p.owner == this
                && p.permits == AcquisitionPlan(old(UseFixedLimiter()))
                && acquired == old(acquired) + AcquisitionPlan(old(UseFixedLimiter()))
                && p.scopeAndInflight == old(topicPartitionToScopeAndInflight[KeyOfMessage(message)])
                && p.scopeAndInflight.inflight
                   == old(topicPartitionToScopeAndInflight[KeyOfMessage(message)].inflight) + 1
                && tracker.inflight == old(tracker.inflight) + 1
                && tracker.oneMinuteMinInflight.samples
                   == old(tracker.oneMinuteMinInflight.samples) + [old(tracker.inflight)]
                && tracker.oneMinuteMaxInflight.samples
                   == old(tracker.oneMinuteMaxInflight.samples) + [old(tracker.inflight) + 1]
    {
      var tp := KeyOfMessage(message);
      if tp !in topicPartitionToScopeAndInflight {
        return Err(PartitionNotAssigned(tp));
      }
      var granted := AcquireForEntry(topicPartitionToScopeAndInflight[tp], interruptedAt);
      r := Ok(granted);
    }

    /**
     * The acquisition for a registered partition's `entry`: the mode is read
     * once, then either the acquisitions before the interrupt return and a
     * no-op permit is handed back, or all three return and are composed.
     */
    method AcquireForEntry(entry: ScopeAndInflight, interruptedAt: Option<LimiterKind>) returns (g: Granted)
      requires Valid()
      modifies this`acquired, tracker.Repr(), entry, this`outstanding
      ensures Valid()
      ensures old(Balanced()) && entry in entries ==> Balanced()
      ensures g.Noop? <==> interruptedAt.Some?
      ensures g.Noop? ==>
                && outstanding == old(outstanding)
                && old(acquired) <= acquired
                && acquired[|old(acquired)|..] < AcquisitionPlan(old(UseFixedLimiter()))
                && unchanged(tracker.Repr()) && unchanged(entry)
      ensures g.Nested? ==>
                && var p := g.permit;
                && fresh(p) && p.owner == this
                && p.permits == AcquisitionPlan(old(UseFixedLimiter()))
                && acquired == old(acquired) + AcquisitionPlan(old(UseFixedLimiter()))
                && p.scopeAndInflight == entry
                && entry.inflight == old(entry.inflight) + 1
                && tracker.inflight == old(tracker.inflight) + 1
                && tracker.oneMinuteMinInflight.samples
                   == old(tracker.oneMinuteMinInflight.samples) + [old(tracker.inflight)]
                && tracker.oneMinuteMaxInflight.samples
                   == old(tracker.oneMinuteMaxInflight.samples) + [old(tracker.inflight) + 1]
                && outstanding == old(outstanding) + {p}
    {
      var useFixed := UseFixedLimiter();
      var returned := AcquisitionsBefore(interruptedAt);
      if returned < 3 {
        AcquireUntilInterrupt(useFixed, returned);
        return Noop;
      }
      var permit := AcquireAll(entry, useFixed);
      g := Nested(permit);
    }

    /**
     * The acquisitions that return before the interrupt: a proper prefix of the
     * plan, logged as granted; the partially filled builder is dropped.
     */
    method AcquireUntilInterrupt(useFixed: bool, returned: nat)
      requires returned < 3
      modifies this`acquired
      ensures acquired == old(acquired) + AcquisitionPlan(useFixed)[..returned]
    {
      var builder := new NestedPermitBuilder();
      AcquireInPlanOrder(builder, useFixed, returned);
    }

    /**
     * Acquires from all three sub-limiters in plan order for mode `useFixed` and
     * composes the permits with `entry` into a composite permit.
     */
    method AcquireAll(entry: ScopeAndInflight, useFixed: bool) returns (p: NestedPermit)
      requires Valid()
      modifies this`acquired, tracker.Repr(), entry, this`outstanding
      ensures Valid()
      ensures fresh(p) && p.owner == this && p.permits == AcquisitionPlan(useFixed) && p.scopeAndInflight == entry
      ensures acquired == old(acquired) + AcquisitionPlan(useFixed)
      ensures entry.inflight == old(entry.inflight) + 1
      ensures tracker.inflight == old(tracker.inflight) + 1
      ensures tracker.oneMinuteMinInflight.samples == old(tracker.oneMinuteMinInflight.samples) + [old(tracker.inflight)]
      ensures tracker.oneMinuteMaxInflight.samples == old(tracker.oneMinuteMaxInflight.samples) + [old(tracker.inflight) + 1]
      ensures outstanding == old(outstanding) + {p}
      ensures old(Balanced()) && entry in entries ==> Balanced()
    {
      var builder := CollectPermits(entry, useFixed);
      p := builder.Build(this);
    }

    /** A fresh builder holding the three permits of the plan, in order, and `entry`. */
    method CollectPermits(entry: ScopeAndInflight, useFixed: bool) returns (builder: NestedPermitBuilder)
      modifies this`acquired
      ensures fresh(builder)
      ensures builder.permits == AcquisitionPlan(useFixed) && builder.scopeAndInflight == entry
      ensures acquired == old(acquired) + AcquisitionPlan(useFixed)
    {
      builder := new NestedPermitBuilder();
      AcquireInPlanOrder(builder, useFixed, 3);
      assert AcquisitionPlan(useFixed)[..3] == AcquisitionPlan(useFixed);
      builder.WithScopeAndInflight(entry);
    }

    /**
     * Acquires from the fixed, adaptive and shadow-adaptive limiters in that
     * order with the flags of mode `useFixed`, adding each permit to `builder`;
     * only the first `returned` acquisitions return, the next one is interrupted.
     */
    method AcquireInPlanOrder(builder: NestedPermitBuilder, useFixed: bool, returned: nat)
      modifies this`acquired, builder`permits
      ensures var done := AcquisitionPlan(useFixed)[..if returned < 3 then returned else 3];
              && acquired == old(acquired) + done
              && builder.permits == old(builder.permits) + done
    {
      if returned >= 1 {
        var fixedPermit := AcquireFrom(Fixed, !useFixed);
        builder.WithPermit(fixedPermit);
      }
      if returned >= 2 {
        var adaptivePermit := AcquireFrom(Adaptive, useFixed);
        builder.WithPermit(adaptivePermit);
      }
      if returned >= 3 {
        var shadowPermit := AcquireFrom(ShadowAdaptive, true);
        builder.WithPermit(shadowPermit);
      }
    }

    /**
     * Asynchronous acquisition, taken as the sequential outcome of its future
     * chain: fixed, then adaptive, then shadow, with the flags of the
     * synchronous path, composed once all three are granted.
     */
    method AcquirePermitAsync(message: ProcessorMessage) returns (r: Result<NestedPermit>)
      requires Valid()
      modifies this`acquired, tracker.Repr(), EntryAt(KeyOfMessage(message)), this`outstanding
      ensures Valid()
      ensures old(Balanced()) ==> Balanced()
      ensures r.Ok? ==> outstanding == old(outstanding) + {r.value}
      ensures r.Err? <==> KeyOfMessage(message) !in topicPartitionToScopeAndInflight
      ensures r.Err? ==>
                && r.error == PartitionNotAssigned(KeyOfMessage(message))
                && acquired == old(acquired)
                && outstanding == old(outstanding)
                && unchanged(tracker.Repr())
      ensures r.Ok? ==>
                && var p := r.value;
                && fresh(p) && p.owner == this
                && p.permits == AcquisitionPlan(old(UseFixedLimiter()))
                && acquired == old(acquired) + AcquisitionPlan(old(UseFixedLimiter()))
                && p.scopeAndInflight == old(topicPartitionToScopeAndInflight[KeyOfMessage(message)])
                && p.scopeAndInflight.inflight
                   == old(topicPartitionToScopeAndInflight[KeyOfMessage(message)].inflight) + 1
                && tracker.inflight == old(tracker.inflight) + 1
                && tracker.oneMinuteMinInflight.samples
                   == old(tracker.oneMinuteMinInflight.samples) + [old(tracker.inflight)]
                && tracker.oneMinuteMaxInflight.samples
                   == old(tracker.oneMinuteMaxInflight.samples) + [old(tracker.inflight) + 1]
    {
      var tp := KeyOfMessage(message);
      if tp !in topicPartitionToScopeAndInflight {
        return Err(PartitionNotAssigned(tp));
      }
      var entry := topicPartitionToScopeAndInflight[tp];
      var useFixed := UseFixedLimiter();
      var permit := AcquireAll(entry, useFixed);
      r := Ok(permit);
    }
  }

  /** Builder of a limiter per job template. */
  class Builder {
    var maxOutboundCacheCount: Int32
    var ticker: Ticker
    /** The ceiling the adaptive limiter builder gives a freshly built adaptive limiter. */
    const adaptiveInitialMaxInflight: int

    ghost predicate Valid()
      reads this
    {
      maxOutboundCacheCount > 0
    }

    constructor (systemTicker: Ticker, adaptiveInitialMaxInflight: int)
      ensures Valid()
      ensures maxOutboundCacheCount == DEFAULT_MAX_OUTBOUND_CACHE_COUNT
      ensures ticker == systemTicker
      ensures this.adaptiveInitialMaxInflight == adaptiveInitialMaxInflight
    {
      maxOutboundCacheCount := DEFAULT_MAX_OUTBOUND_CACHE_COUNT;
      ticker := systemTicker;
      this.adaptiveInitialMaxInflight := adaptiveInitialMaxInflight;
    }

    /** Rejects a non-positive per-partition budget and keeps the previous one. */
    method WithMaxOutboundCacheCount(count: Int32) returns (r: Outcome)
      requires Valid()
      modifies this`maxOutboundCacheCount
      ensures Valid()
      ensures count <= 0 ==> r == Fail(NonPositiveCacheCount(count))
                             && maxOutboundCacheCount == old(maxOutboundCacheCount)
      ensures count > 0 ==> r == Pass && maxOutboundCacheCount == count
    {
      if count <= 0 {
        return Fail(NonPositiveCacheCount(count));
      }
      maxOutboundCacheCount := count;
      r := Pass;
    }

    method WithTicker(t: Ticker)
      modifies this`ticker
      ensures ticker == t
    {
      ticker := t;
    }

    method Build(job: Job) returns (l: SimpleOutboundMessageLimiter)
      requires Valid()
      ensures fresh(l) && l.Valid() && fresh(l.tracker.Repr())
      ensures l.jobTemplate == job && l.ticker == ticker && l.maxOutboundCacheCount == maxOutboundCacheCount
      ensures l.topicPartitionToScopeAndInflight == map[] && l.fixedLimit == 0
      ensures l.adaptiveMaxInflight == adaptiveInitialMaxInflight
      ensures l.shadowAdaptiveMaxInflight == adaptiveInitialMaxInflight
      ensures l.useAdaptiveLimiterUntilTick == ticker.nanos
      ensures l.acquired == [] && l.completed == []
      ensures l.tracker.inflight == 0
      ensures l.tracker.oneMinuteMaxInflight.samples == [] && l.tracker.oneMinuteMinInflight.samples == []
      ensures l.outstanding == {} && l.Balanced()
      ensures !l.UseFixedLimiter()
    {
      l := new SimpleOutboundMessageLimiter(this, job);
    }
  }

  /** Under the balance neither the global counter nor a registered entry's counter is negative. */
  lemma BalancedCountersNonNegative(l: SimpleOutboundMessageLimiter)
    requires l.Balanced()
    ensures l.tracker.inflight >= 0
    ensures forall tp :: tp in l.topicPartitionToScopeAndInflight ==>
              l.topicPartitionToScopeAndInflight[tp].inflight >= 0
  {
    forall tp | tp in l.topicPartitionToScopeAndInflight
      ensures l.topicPartitionToScopeAndInflight[tp].inflight >= 0
    {
      assert l.topicPartitionToScopeAndInflight[tp] in l.entries;
    }
  }

  /** With every permit completed, the global counter and every registered entry's counter are 0. */
  lemma IdleWhenNothingOutstanding(l: SimpleOutboundMessageLimiter)
    requires l.Balanced() && l.outstanding == {}
    ensures l.tracker.inflight == 0
    ensures forall tp :: tp in l.topicPartitionToScopeAndInflight ==>
              l.topicPartitionToScopeAndInflight[tp].inflight == 0
  {
    forall tp | tp in l.topicPartitionToScopeAndInflight
      ensures l.topicPartitionToScopeAndInflight[tp].inflight == 0
    {
      var e := l.topicPartitionToScopeAndInflight[tp];
      assert e in l.entries;
      assert CapturedBy(l.outstanding, e) == {};
    }
  }

  /**
   * Any run of operations that leaves the same permits outstanding, such as N
   * acquisitions followed by the completion of those N permits, restores the
   * global counter and the counter of every entry tracked before and after.
   */
  twostate lemma CountersRestored(l: SimpleOutboundMessageLimiter)
    requires old(l.Balanced()) && l.Balanced()
    requires l.outstanding == old(l.outstanding)
    ensures l.tracker.inflight == old(l.tracker.inflight)
    ensures forall e :: e in old(l.entries) && e in l.entries ==> e.inflight == old(e.inflight)
  {
  }

  /**
   * The round trip of one admission: acquiring a permit for a registered
   * partition and completing it once leaves the outstanding permits, the global
   * counter and every registered entry's counter as they were.
   */
  method AcquireThenComplete(l: SimpleOutboundMessageLimiter, message: ProcessorMessage, result: PermitResult)
    returns (r: Result<NestedPermit>)
    requires l.Valid() && l.Balanced()
    modifies l`acquired, l`completed, l`useAdaptiveLimiterUntilTick, l`outstanding, l.tracker.Repr(),
             l.EntryAt(KeyOfMessage(message))
    ensures l.Valid() && l.Balanced()
    ensures r.Ok? <==> KeyOfMessage(message) in l.topicPartitionToScopeAndInflight
    ensures l.outstanding == old(l.outstanding)
    ensures l.tracker.inflight == old(l.tracker.inflight)
    ensures l.topicPartitionToScopeAndInflight == old(l.topicPartitionToScopeAndInflight)
    ensures forall tp :: tp in l.topicPartitionToScopeAndInflight ==>
              l.topicPartitionToScopeAndInflight[tp].inflight == old(l.topicPartitionToScopeAndInflight[tp].inflight)
  {
    ghost var registry := l.topicPartitionToScopeAndInflight;
    r := l.AcquirePermitAsync(message);
    assert l.topicPartitionToScopeAndInflight == registry;
    if r.Ok? {
      var ok := r.value.Complete(result);
    }
    CountersRestored(l);
  }
}
