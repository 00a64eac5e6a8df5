/** The lock-free latency histogram (src/metrics.rs). The history of observations, in
    microseconds and in the order their bucket increments take effect, stands for the
    state: bucket `j` holds the number of past observations in interval `j`. A scrape reads
    the buckets one after the other while observations go on. */
module Histogram {

  const BOUNDS: seq<nat> := [1_000, 5_000, 10_000, 25_000, 50_000, 100_000, 250_000, 500_000, 1_000_000, 5_000_000]
  const BUCKETS: nat := 11

  /** The interval of an observation: one per finite bound and one above five seconds. */
  function BucketIndex(us: nat): (bucket: nat)
    ensures bucket < BUCKETS
    ensures forall i | 0 <= i < 10 :: us <= BOUNDS[i] <==> bucket <= i
  {
    if us <= 1_000 then 0 else if us <= 5_000 then 1 else if us <= 10_000 then 2 else if us <= 25_000 then 3
    else if us <= 50_000 then 4 else if us <= 100_000 then 5 else if us <= 250_000 then 6
    else if us <= 500_000 then 7 else if us <= 1_000_000 then 8 else if us <= 5_000_000 then 9 else 10
  }

  /** The value of bucket `j` after `history`. */
  function InBucket(history: seq<nat>, j: nat): nat {
    if history == [] then 0 else
      InBucket(history[..|history| - 1], j) + if BucketIndex(history[|history| - 1]) == j then 1 else 0
  }

  /** The observations that a bucket line of the exposition format is about: those up to
      its bound, and all of them for `+Inf`. */
  function UpTo(history: seq<nat>, i: nat): nat
    requires i < BUCKETS
  {
    if history == [] then 0 else
      var last := history[|history| - 1];
      UpTo(history[..|history| - 1], i) + if i == 10 || last <= BOUNDS[i] then 1 else 0
  }

  /** When each bucket is read, as the number of observations that came before. */
  predicate IsScrape(history: seq<nat>, times: seq<nat>) {
    && |times| == BUCKETS
    && times[BUCKETS - 1] <= |history|
    && forall i, j | 0 <= i <= j < BUCKETS :: times[i] <= times[j]
  }

  /** `cumulative_buckets`: entry `i` adds up the first `i + 1` reads. */
  function Cumulative(history: seq<nat>, times: seq<nat>, i: nat): nat
    requires IsScrape(history, times) && i < BUCKETS
  {
    InBucket(history[..times[i]], i) + if i == 0 then 0 else Cumulative(history, times, i - 1)
  }

  method Scrape(history: seq<nat>, times: seq<nat>) returns (cumulative: seq<nat>)
    requires IsScrape(history, times)
    ensures |cumulative| == BUCKETS && forall i | 0 <= i < BUCKETS :: cumulative[i] == Cumulative(history, times, i)
  {
    var count := 0;
    cumulative := [];
    for index := 0 to BUCKETS
      invariant |cumulative| == index && forall i | 0 <= i < index :: cumulative[i] == Cumulative(history, times, i)
      invariant index > 0 ==> count == cumulative[index - 1]
      invariant index == 0 ==> count == 0
    {
      count := count + InBucket(history[..times[index]], index);
      cumulative := cumulative + [count];
    }
  }

  // ---------------------------------------------------------------------- brackets

  /** The first `i + 1` buckets at one instant. */
  function Prefix(history: seq<nat>, i: nat): nat {
    InBucket(history, i) + if i == 0 then 0 else Prefix(history, i - 1)
  }

  lemma {:induction false} PrefixStep(history: seq<nat>, us: nat, i: nat)
    ensures Prefix(history + [us], i) == Prefix(history, i) + if BucketIndex(us) <= i then 1 else 0
  {
    assert (history + [us])[..|history|] == history;
    if i > 0 {
      PrefixStep(history, us, i - 1);
    }
  }

  lemma {:induction false} PrefixEmpty(i: nat)
    ensures Prefix([], i) == 0
  {
    if i > 0 {
      PrefixEmpty(i - 1);
    }
  }

  /** At one instant the running total is the number of observations up to the bound. */
  lemma {:induction false} PrefixCounts(history: seq<nat>, i: nat)
    requires i < BUCKETS
    ensures Prefix(history, i) == UpTo(history, i)
  {
    if history == [] {
      PrefixEmpty(i);
    } else {
      var n := |history| - 1;
      PrefixCounts(history[..n], i);
      PrefixStep(history[..n], history[n], i);
      assert history == history[..n] + [history[n]];
    }
  }

  lemma {:induction false} BucketGrows(history: seq<nat>, m: nat, n: nat, j: nat)
    requires m <= n <= |history|
    ensures InBucket(history[..m], j) <= InBucket(history[..n], j)
  {
    if m < n {
      BucketGrows(history, m, n - 1, j);
      assert history[..n][..n - 1] == history[..n - 1];
    }
  }

  lemma {:induction false} Bracket(history: seq<nat>, times: seq<nat>, i: nat)
    requires IsScrape(history, times) && i < BUCKETS
    ensures Prefix(history[..times[0]], i) <= Cumulative(history, times, i) <= Prefix(history[..times[i]], i)
  {
    BucketGrows(history, times[0], times[i], i);
    if i > 0 {
      Bracket(history, times, i - 1);
      PrefixGrows(history, times[i - 1], times[i], i - 1);
    }
  }

  lemma {:induction false} PrefixGrows(history: seq<nat>, m: nat, n: nat, i: nat)
    requires m <= n <= |history|
    ensures Prefix(history[..m], i) <= Prefix(history[..n], i)
  {
    BucketGrows(history, m, n, i);
    if i > 0 {
      PrefixGrows(history, m, n, i - 1);
    }
  }

  /** Every value a scrape reports lies between the true counts when it started and when it
      ended, although no two buckets need be read at the same instant. */
  lemma ScrapeIsBracketed(history: seq<nat>, times: seq<nat>, i: nat)
    requires IsScrape(history, times) && i < BUCKETS
    ensures UpTo(history[..times[0]], i) <= Cumulative(history, times, i) <= UpTo(history[..times[BUCKETS - 1]], i)
  {
    Bracket(history, times, i);
    PrefixGrows(history, times[i], times[BUCKETS - 1], i);
    PrefixCounts(history[..times[0]], i);
    PrefixCounts(history[..times[BUCKETS - 1]], i);
  }

  /** Bucket lines never decrease from one bound to the next, up to `+Inf`, which is also
      the reported count. */
  lemma {:induction false} ScrapeIsMonotone(history: seq<nat>, times: seq<nat>, i: nat, j: nat)
    requires IsScrape(history, times) && i <= j < BUCKETS
    ensures Cumulative(history, times, i) <= Cumulative(history, times, j)
  {
    if i < j {
      ScrapeIsMonotone(history, times, i, j - 1);
    }
  }

  /** A scrape that reads every bucket no earlier than another one never reports less at any
      bound, even when the two overlap in time. */
  lemma {:induction false} LaterScrapesGrow(history: seq<nat>, first: seq<nat>, second: seq<nat>, i: nat)
    requires IsScrape(history, first) && IsScrape(history, second) && i < BUCKETS
    requires forall j | 0 <= j <= i :: first[j] <= second[j]
    ensures Cumulative(history, first, i) <= Cumulative(history, second, i)
  {
    BucketGrows(history, first[i], second[i], i);
    if i > 0 {
      LaterScrapesGrow(history, first, second, i - 1);
    }
  }

  // ----------------------------------------------------------------------- the object

  /** One counter per interval, incremented in place. */
  class Buckets {
    const cells: array<nat>
    ghost var history: seq<nat>

    ghost predicate Valid()
      reads this, cells
    {
      cells.Length == BUCKETS && forall j | 0 <= j < BUCKETS :: cells[j] == InBucket(history, j)
    }

    constructor ()
      ensures Valid() && history == [] && fresh(cells)
    {
      cells := new nat[BUCKETS](_ => 0);
      history := [];
    }

    /** The partition point of the bounds: how many lie below the observation. */
    method BucketFor(us: nat) returns (bucket: nat)
      ensures bucket == BucketIndex(us)
    {
      bucket := 0;
      while bucket < |BOUNDS| && BOUNDS[bucket] < us
        invariant bucket <= BucketIndex(us)
      {
        bucket := bucket + 1;
      }
    }

    method Observe(us: nat)
      requires Valid()
      modifies this, cells
      ensures Valid() && history == old(history) + [us]
    {
      var bucket := BucketFor(us);
      cells[bucket] := cells[bucket] + 1;
      history := history + [us];
      assert history[..|history| - 1] == old(history);
    }

    /** The load of one bucket in a scrape. */
    method Read(index: nat) returns (value: nat)
      requires Valid() && index < BUCKETS
      ensures value == InBucket(history, index)
    {
      value := cells[index];
    }
  }
}
