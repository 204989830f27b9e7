/**
 * The windowed aggregator the inflight tracker feeds, reduced to the log of
 * samples put into it. A read reduces every sample with the aggregator's
 * reducer, or yields the caller's default when nothing was put. Buckets and
 * window expiry are not part of this model.
 */
module WindowedAggregation {

  /** The binary reducer an aggregator is built `of`: `Math.max` or `Math.min`. */
  datatype Reducer = Max | Min

  function Combine(f: Reducer, a: int, b: int): int
  {
    match f
    case Max => if a >= b then a else b
    case Min => if a <= b then a else b
  }

  /** `a` is at least as extreme as `b` in the direction of `f`. */
  predicate Dominates(f: Reducer, a: int, b: int)
  {
    match f
    case Max => a >= b
    case Min => a <= b
  }

  /** The reduction of a non-empty sample log: one of the samples, and the most extreme one. */
  function Reduce(f: Reducer, samples: seq<int>): (r: int)
    requires |samples| > 0
    ensures r in samples
    ensures forall k :: 0 <= k < |samples| ==> Dominates(f, r, samples[k])
  {
    if |samples| == 1 then samples[0]
    else Combine(f, Reduce(f, samples[..|samples| - 1]), samples[|samples| - 1])
  }

  /**
   * Pairwise-shifted logs: when every max sample is one above the min sample
   * recorded with it, the reduced max is strictly above the reduced min.
   */
  lemma PairedSamplesBracket(mins: seq<int>, maxs: seq<int>)
    requires |mins| == |maxs| > 0
    requires forall k :: 0 <= k < |mins| ==> maxs[k] == mins[k] + 1
    ensures Reduce(Max, maxs) > Reduce(Min, mins)
  {
    var lo := Reduce(Min, mins);
    var k :| 0 <= k < |mins| && mins[k] == lo;
    assert Dominates(Max, Reduce(Max, maxs), maxs[k]);
  }

  class WindowedAggregator {
    const reducer: Reducer
    var samples: seq<int>

    constructor (reducer: Reducer)
      ensures this.reducer == reducer && samples == []
    {
      this.reducer := reducer;
      samples := [];
    }

    /** `put(value)`: record one sample. */
    method Put(value: int)
      modifies this
      ensures samples == old(samples) + [value]
    {
      samples := samples + [value];
    }

    /** `get(default)`: the reduction of every sample, or `default` when there is none. */
    function Get(default: int): (r: int)
      reads this
      ensures samples == [] ==> r == default
      ensures samples != [] ==> r in samples
      ensures forall k :: 0 <= k < |samples| ==> Dominates(reducer, r, samples[k])
    {
      if samples == [] then default else Reduce(reducer, samples)
    }
  }
}
