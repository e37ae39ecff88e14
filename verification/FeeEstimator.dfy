/** The fee and priority estimates: samples are kept by how many blocks a transaction took to
  * confirm, and a sorted copy of them is cached between blocks.
  */
module FeeEstimator {
  import opened Sorting

  const CAPACITY := 100        // of each circular buffer
  const PER_BLOCK := 10
  const ENOUGH := 11

  /** Fee rates and priorities seen for one number of blocks. */
  datatype BlockAverage = BlockAverage(feeSamples: seq<int>, prioritySamples: seq<int>)

  /** A confirmed transaction: the height at which it entered the pool, its fee rate and priority. */
  datatype Entry = Entry(height: int, feeRate: int, priority: int)

  /** A circular buffer drops its oldest entry when it is full. */
  function Push(buffer: seq<int>, x: int): (r: seq<int>)
    ensures |r| <= CAPACITY || |r| == |buffer|
  {
    if |buffer| >= CAPACITY then buffer[1..] + [x] else buffer + [x]
  }

  /** What tells fee-driven confirmations from priority-driven ones. */
  datatype Policy = Policy(minRelayFee: int, freePriority: int)

  function Confirm(a: BlockAverage, e: Entry, policy: Policy): BlockAverage {
    var sufficientFee, sufficientPriority := e.feeRate > policy.minRelayFee, e.priority > policy.freePriority;
    if sufficientFee && !sufficientPriority && 0 <= e.feeRate <= 10000 * policy.minRelayFee then
      a.(feeSamples := Push(a.feeSamples, e.feeRate))
    else if sufficientPriority && !sufficientFee && e.priority >= 0 then
      a.(prioritySamples := Push(a.prioritySamples, e.priority))
    else a
  }

  function ConfirmAll(a: BlockAverage, es: seq<Entry>, policy: Policy): BlockAverage {
    if es == [] then a else Confirm(ConfirmAll(a, es[..|es| - 1], policy), es[|es| - 1], policy)
  }

  /** The bucket of a transaction that took delta >= 1 blocks; the last bucket takes all the rest. */
  function BucketOf(delta: int, n: nat): int { if delta - 1 >= n then n - 1 else delta - 1 }

  /** The entries of a block that fall into bucket i, in order. */
  function InBucket(entries: seq<Entry>, height: int, n: nat, i: int): seq<Entry> {
    if entries == [] then []
    else
      var rest, e := InBucket(entries[..|entries| - 1], height, n, i), entries[|entries| - 1];
      if height - e.height > 0 && BucketOf(height - e.height, n) == i then rest + [e] else rest
  }

  type Shuffle = seq<Entry> -> seq<Entry>

  ghost predicate IsShuffle(shuffle: Shuffle) { forall es :: multiset(shuffle(es)) == multiset(es) }

  /** All entries, or ten chosen by a shuffle. */
  function Sampled(shuffle: Shuffle, es: seq<Entry>): (r: seq<Entry>)
    requires IsShuffle(shuffle)
    ensures |r| <= PER_BLOCK && multiset(r) <= multiset(es)
  {
    assert |multiset(shuffle(es))| == |multiset(es)|;
    assert |es| > PER_BLOCK ==> shuffle(es) == shuffle(es)[..PER_BLOCK] + shuffle(es)[PER_BLOCK..];
    if |es| > PER_BLOCK then shuffle(es)[..PER_BLOCK] else es
  }

  // ---- Estimates without a cache -----------------------------------------------------------

  function Fees(history: seq<BlockAverage>): (r: seq<seq<int>>)
    ensures |r| == |history|
  {
    seq(|history|, i requires 0 <= i < |history| => history[i].feeSamples)
  }

  function Priorities(history: seq<BlockAverage>): (r: seq<seq<int>>)
    ensures |r| == |history|
  {
    seq(|history|, i requires 0 <= i < |history| => history[i].prioritySamples)
  }

  function Flatten(buckets: seq<seq<int>>): seq<int> {
    if buckets == [] then [] else Flatten(buckets[..|buckets| - 1]) + buckets[|buckets| - 1]
  }

  /** The rank, from the top, that answers for a bucket: all samples of faster buckets, and half of its own. */
  function RankOf(buckets: seq<seq<int>>, i: nat): nat
    requires i < |buckets|
  {
    |Flatten(buckets[..i])| + |buckets[i]| / 2
  }

  /** What a cache holds once an estimate has looked at it: it is filled only when it is empty. */
  function Filled(cache: seq<int>, buckets: seq<seq<int>>): seq<int> {
    if cache == [] then Descending(Flatten(buckets)) else cache
  }

  /** The answer for confirmation within n blocks, taken from whatever the cache holds; none stands for
    * having no answer. */
  function AnswerFrom(cache: seq<int>, buckets: seq<seq<int>>, n: int, none: int): int {
    var all := Filled(cache, buckets);
    if n < 1 || n > |buckets| || |all| < ENOUGH then none
    else all[if RankOf(buckets, n - 1) < |all| - 1 then RankOf(buckets, n - 1) else |all| - 1]
  }

  /** The estimate, computed from the samples alone. */
  function Estimate(buckets: seq<seq<int>>, n: int, none: int): int { AnswerFrom([], buckets, n, none) }

  function SizeOfFirst(buckets: seq<seq<int>>, n: nat): nat
    requires n <= |buckets|
  {
    if n == 0 then 0 else SizeOfFirst(buckets, n - 1) + |buckets[n - 1]|
  }

  lemma {:induction false} FlattenSize(buckets: seq<seq<int>>, n: nat)
    requires n <= |buckets|
    ensures |Flatten(buckets[..n])| == SizeOfFirst(buckets, n)
  {
    if n > 0 {
      assert buckets[..n][..n - 1] == buckets[..n - 1];
      FlattenSize(buckets, n - 1);
    }
  }

  /** The estimate for n blocks is the sample of rank k from the top, counting all samples of faster buckets and half of
    * the bucket's own: at most k samples are higher, and more than k are at least as high. With fewer than eleven
    * samples, or for a number of blocks without a bucket, there is no answer. */
  lemma EstimateIs(buckets: seq<seq<int>>, n: int, none: int, m: int)
    ensures var total := SizeOfFirst(buckets, |buckets|);
            if n < 1 || n > |buckets| || total < 11 then Estimate(buckets, n, none) == none
            else
              var all, rank := Flatten(buckets), SizeOfFirst(buckets, n - 1) + |buckets[n - 1]| / 2;
              var k := if rank < total - 1 then rank else total - 1;
              Estimate(buckets, n, none) == m <==> total - Below(all, m + 1) <= k < total - Below(all, m)
  {
    hide Descending, Below, Flatten;
    FlattenSize(buckets, |buckets|);
    assert buckets[..|buckets|] == buckets;
    if 1 <= n <= |buckets| && |Flatten(buckets)| >= 11 {
      FlattenSize(buckets, n - 1);
      var rank := RankOf(buckets, n - 1);
      DescendingRank(Flatten(buckets), if rank < |Flatten(buckets)| - 1 then rank else |Flatten(buckets)| - 1, m);
    }
  }

  predicate AtLeast(samples: seq<int>, min: int) { forall i | 0 <= i < |samples| :: samples[i] >= min }

  predicate AllAtLeast(buckets: seq<seq<int>>, min: int) { forall i | 0 <= i < |buckets| :: AtLeast(buckets[i], min) }

  lemma {:induction false} FlattenAtLeast(buckets: seq<seq<int>>, min: int)
    requires AllAtLeast(buckets, min)
    ensures AtLeast(Flatten(buckets), min)
  {
    if buckets != [] { FlattenAtLeast(buckets[..|buckets| - 1], min); }
  }

  lemma {:induction false} BelowNone(s: seq<int>, min: int)
    requires AtLeast(s, min)
    ensures Below(s, min) == 0
  {
    if s != [] { BelowNone(s[..|s| - 1], min); }
  }

  lemma DescendingAtLeast(s: seq<int>, k: nat, min: int)
    requires AtLeast(s, min) && k < |s|
    ensures Descending(s)[k] >= min
  {
    hide Sorted, Below, Ordered;
    BelowNone(s, min);
    SortedKeeps(s, min);
    OrderedRank(Sorted(s), |s| - 1 - k, min);
  }

  lemma RankGrows(buckets: seq<seq<int>>, i: nat)
    requires i + 1 < |buckets|
    ensures RankOf(buckets, i) <= RankOf(buckets, i + 1)
  {
    assert buckets[..i + 1][..i] == buckets[..i];
  }

  /** Allowing one more block never costs more. */
  lemma EstimateNonIncreasing(buckets: seq<seq<int>>, n: int, none: int)
    requires n >= 1 && AllAtLeast(buckets, none)
    ensures Estimate(buckets, n, none) >= Estimate(buckets, n + 1, none) >= none
  {
    hide Sorted, Flatten;
    var all := Flatten(buckets);
    FlattenAtLeast(buckets, none);
    if n <= |buckets| && |all| >= ENOUGH {
      var last := |all| - 1;
      var j := if RankOf(buckets, n - 1) < last then RankOf(buckets, n - 1) else last;
      DescendingAtLeast(all, j, none);
      if n < |buckets| {
        RankGrows(buckets, n - 1);
        var k := if RankOf(buckets, n) < last then RankOf(buckets, n) else last;
        DescendingOrder(all, j, k);
        DescendingAtLeast(all, k, none);
      }
    }
  }

  // ---- The estimator -----------------------------------------------------------------------

  predicate Sane(a: BlockAverage) {
    AtLeast(a.feeSamples, 0) && AtLeast(a.prioritySamples, 0) && |a.feeSamples| <= CAPACITY && |a.prioritySamples| <= CAPACITY
  }

  predicate SaneHistory(history: seq<BlockAverage>) { history != [] && forall i | 0 <= i < |history| :: Sane(history[i]) }

  lemma {:induction false} ConfirmAllSane(a: BlockAverage, es: seq<Entry>, policy: Policy)
    requires Sane(a)
    ensures Sane(ConfirmAll(a, es, policy))
  {
    if es != [] { ConfirmAllSane(a, es[..|es| - 1], policy); }
  }

  /** A cache is right when it is empty or the sorted list of all samples. */
  predicate Fresh(cache: seq<int>, buckets: seq<seq<int>>) { cache == [] || cache == Descending(Flatten(buckets)) }

  class MinerPolicyEstimator {
    var history: seq<BlockAverage>
    var sortedFeeSamples: seq<int>
    var sortedPrioritySamples: seq<int>
    var nBestSeenHeight: int

    predicate Valid()
      reads this
    {
      SaneHistory(history)
    }

    /** Both caches are right. */
    predicate CachesFresh()
      reads this
    {
      Fresh(sortedFeeSamples, Fees(history)) && Fresh(sortedPrioritySamples, Priorities(history))
    }

    constructor (nEntries: nat)
      requires nEntries >= 1
      ensures Valid() && CachesFresh() && history == seq(nEntries, i => BlockAverage([], []))
    {
      history := seq(nEntries, i => BlockAverage([], []));
      sortedFeeSamples, sortedPrioritySamples, nBestSeenHeight := [], [], 0;
    }

    /** The answer comes from the cache; while the caches are right it is the estimate. */
    method EstimateFee(nBlocksToConfirm: int) returns (r: int)
      requires Valid()
      modifies this`sortedFeeSamples
      ensures r == AnswerFrom(old(sortedFeeSamples), Fees(history), nBlocksToConfirm, 0)
      ensures sortedFeeSamples ==
              if 1 <= nBlocksToConfirm <= |history| then Filled(old(sortedFeeSamples), Fees(history)) else old(sortedFeeSamples)
      ensures old(CachesFresh()) ==> CachesFresh() && r == Estimate(Fees(history), nBlocksToConfirm, 0)
    {
      sortedFeeSamples, r := Answer(Fees(history), sortedFeeSamples, nBlocksToConfirm, 0);
    }

    method EstimatePriority(nBlocksToConfirm: int) returns (r: int)
      requires Valid()
      modifies this`sortedPrioritySamples
      ensures r == AnswerFrom(old(sortedPrioritySamples), Priorities(history), nBlocksToConfirm, -1)
      ensures sortedPrioritySamples ==
              if 1 <= nBlocksToConfirm <= |history| then Filled(old(sortedPrioritySamples), Priorities(history)) else old(sortedPrioritySamples)
      ensures old(CachesFresh()) ==> CachesFresh() && r == Estimate(Priorities(history), nBlocksToConfirm, -1)
    {
      sortedPrioritySamples, r := Answer(Priorities(history), sortedPrioritySamples, nBlocksToConfirm, -1);
    }

    /** Record the chosen entries of one bucket. */
    method RecordBucket(i: nat, e: seq<Entry>, policy: Policy)
      requires i < |history|
      modifies this`history
      ensures history == old(history)[i := ConfirmAll(old(history[i]), e, policy)]
    {
      ghost var before := history;
      for k := 0 to |e|
        invariant history == before[i := ConfirmAll(before[i], e[..k], policy)]
      {
        assert e[..k + 1][..k] == e[..k];
        history := history[i := Confirm(history[i], e[k], policy)];
      }
      assert e[..|e|] == e;
    }

    method RecordBlock(entries: seq<Entry>, nBlockHeight: int, policy: Policy, shuffle: Shuffle)
      requires IsShuffle(shuffle) && history != []
      modifies this`history
      ensures history == Updated(old(history), entries, nBlockHeight, policy, shuffle)
    {
      ghost var before := history;
      var entriesByConfirmations := ByConfirmations(entries, nBlockHeight, |history|);
      for i := 0 to |history|
        invariant |history| == |before|
        invariant forall k | 0 <= k < |before| ::
                    history[k] == if k < i then UpdatedAt(before, entries, nBlockHeight, policy, shuffle, k) else before[k]
      {
        RecordBucket(i, Sampled(shuffle, entriesByConfirmations[i]), policy);
      }
      assert history == Updated(before, entries, nBlockHeight, policy, shuffle);
    }

    /** Take note of the transactions a new block confirms; a block that is not the highest so far
      * changes nothing. The caches are cleared, and may be filled again by the log messages, so that they
      * are right afterwards whatever they held before. */
    method SeenBlock(entries: seq<Entry>, nBlockHeight: int, policy: Policy, shuffle: Shuffle)
      requires Valid() && IsShuffle(shuffle)
      modifies this
      ensures Valid()
      ensures if nBlockHeight <= old(nBestSeenHeight) then unchanged(this)
              else && nBestSeenHeight == nBlockHeight && CachesFresh()
                   && history == Updated(old(history), entries, nBlockHeight, policy, shuffle)
    {
      if nBlockHeight <= nBestSeenHeight { return; }
      nBestSeenHeight := nBlockHeight;
      UpdatedSane(history, entries, nBlockHeight, policy, shuffle);
      RecordBlock(entries, nBlockHeight, policy, shuffle);
      sortedFeeSamples, sortedPrioritySamples := [], [];
      LogEstimates();
    }

    method LogEstimates()
      requires Valid() && CachesFresh()
      modifies this`sortedFeeSamples, this`sortedPrioritySamples
      ensures Valid() && CachesFresh()
    {
      for i := 0 to |history|
        invariant Valid() && CachesFresh()
      {
        if |history[i].feeSamples| + |history[i].prioritySamples| > 0 {
          var fee := EstimateFee(i + 1);
          var priority := EstimatePriority(i + 1);
        }
      }
    }

    /** Replace the history by one read from a file, unless the file is corrupt. The caches stay as they
      * are either way. */
    method Read(file: seq<BlockAverage>, nFileBestSeenHeight: int, minRelayFee: int) returns (ok: bool)
      requires Valid()
      modifies this`history, this`nBestSeenHeight
      ensures Valid() && (ok <==> SaneFile(file, minRelayFee))
      ensures if ok then history == Loaded(file) && nBestSeenHeight == nFileBestSeenHeight else unchanged(this)
    {
      if |file| == 0 || |file| > 10000 { return false; }
      var fileHistory := [];
      for i := 0 to |file|
        invariant |fileHistory| == i && forall k | 0 <= k < i :: SaneEntry(file[k], minRelayFee) && fileHistory[k] == LoadedEntry(file[k])
      {
        if !SaneEntry(file[i], minRelayFee) { return false; }
        fileHistory := fileHistory + [LoadedEntry(file[i])];
      }
      assert fileHistory == Loaded(file);
      LoadedSane(file, minRelayFee);
      history, nBestSeenHeight := fileHistory, nFileBestSeenHeight;
      ok := true;
    }
  }

  // ---- Reading a file ------------------------------------------------------------------------

  predicate SaneEntry(a: BlockAverage, minRelayFee: int) {
    && (forall i | 0 <= i < |a.feeSamples| :: 0 <= a.feeSamples[i] <= 10000 * minRelayFee)
    && AtLeast(a.prioritySamples, 0)
  }

  predicate SaneFile(file: seq<BlockAverage>, minRelayFee: int) {
    1 <= |file| <= 10000 && forall i | 0 <= i < |file| :: SaneEntry(file[i], minRelayFee)
  }

  /** A circular buffer keeps the last of what is read into it. */
  function Kept(samples: seq<int>): (r: seq<int>)
    ensures |r| <= CAPACITY
  {
    if |samples| > CAPACITY then samples[|samples| - CAPACITY..] else samples
  }

  function LoadedEntry(a: BlockAverage): BlockAverage { BlockAverage(Kept(a.feeSamples), Kept(a.prioritySamples)) }

  function Loaded(file: seq<BlockAverage>): (r: seq<BlockAverage>)
    ensures |r| == |file|
  {
    seq(|file|, i requires 0 <= i < |file| => LoadedEntry(file[i]))
  }

  /** The last hundred of a list. */
  function LastHundred(s: seq<int>): seq<int> { if |s| > 100 then s[|s| - 100..] else s }

  /** What is read is a sane history: the last hundred samples of each buffer. */
  lemma LoadedSane(file: seq<BlockAverage>, minRelayFee: int)
    requires SaneFile(file, minRelayFee)
    ensures SaneHistory(Loaded(file))
    ensures forall i | 0 <= i < |file| ::
              Loaded(file)[i] == BlockAverage(LastHundred(file[i].feeSamples), LastHundred(file[i].prioritySamples))
  {
    forall i | 0 <= i < |file| ensures Sane(LoadedEntry(file[i])) { assert SaneEntry(file[i], minRelayFee); }
  }

  /** What a cache can hold: nothing, or samples that have been sorted. */
  ghost predicate IsCache(cache: seq<int>) { exists s: seq<int> :: AtLeast(s, 0) && cache == Descending(s) }

  /** Estimating fills the cache with such a list. */
  lemma FilledIsCache(cache: seq<int>, history: seq<BlockAverage>)
    requires SaneHistory(history) && IsCache(cache)
    ensures IsCache(Filled(cache, Fees(history)))
  {
    assert AllAtLeast(Fees(history), 0) by {
      forall i | 0 <= i < |history| ensures AtLeast(Fees(history)[i], 0) { assert Sane(history[i]); }
    }
    FlattenAtLeast(Fees(history), 0);
  }

  /** Whatever sane file is read, each fee estimate is right with this cache. */
  ghost predicate FeesRight(cache: seq<int>, minRelayFee: int) {
    forall file: seq<BlockAverage>, n: int | SaneFile(file, minRelayFee) ::
      AnswerFrom(cache, Fees(Loaded(file)), n, 0) == Estimate(Fees(Loaded(file)), n, 0)
  }

  ghost predicate PrioritiesRight(cache: seq<int>, minRelayFee: int) {
    forall file: seq<BlockAverage>, n: int | SaneFile(file, minRelayFee) ::
      AnswerFrom(cache, Priorities(Loaded(file)), n, -1) == Estimate(Priorities(Loaded(file)), n, -1)
  }

  /** Eleven samples alike. */
  function Eleven(x: int): seq<int> { seq(11, i => x) }

  lemma OneBucket(x: int)
    ensures Estimate([Eleven(x)], 1, 0) == x && Estimate([Eleven(x)], 1, -1) == x && RankOf([Eleven(x)], 0) == 5
  {
    hide Sorted, Below;
    FlattenOne(Eleven(x));
    SameBelow(Eleven(x), x);
    DescendingRank(Eleven(x), 5, x);
  }

  /** A cache in use gives the same answer for eleven samples of any size. */
  lemma SameAnswer(cache: seq<int>, none: int) returns (r: int)
    requires cache != []
    ensures forall x: int {:trigger Eleven(x)} :: AnswerFrom(cache, [Eleven(x)], 1, none) == r
    ensures |cache| < ENOUGH ==> r == none
  {
    r := AnswerFrom(cache, [Eleven(0)], 1, none);
    forall x: int ensures AnswerFrom(cache, [Eleven(x)], 1, none) == r {
      OneBucket(x);
      OneBucket(0);
    }
  }

  /** Where free transactions are the only sane ones, every estimate is 0. */
  lemma FreeEstimate(file: seq<BlockAverage>, minRelayFee: int, n: int)
    requires SaneFile(file, minRelayFee) && minRelayFee <= 0
    ensures Estimate(Fees(Loaded(file)), n, 0) == 0
  {
    hide Sorted, Below;
    var all := Flatten(Fees(Loaded(file)));
    forall i | 0 <= i < |file| ensures forall k | 0 <= k < |Fees(Loaded(file))[i]| :: Fees(Loaded(file))[i][k] == 0 {
      assert SaneEntry(file[i], minRelayFee);
    }
    FlattenAll(Fees(Loaded(file)), 0);
    SameBelow(all, 0);
    forall k: nat | k < |all| ensures Descending(all)[k] == 0 { DescendingRank(all, k, 0); }
  }

  lemma {:induction false} FlattenAll(buckets: seq<seq<int>>, x: int)
    requires forall i, k | 0 <= i < |buckets| && 0 <= k < |buckets[i]| :: buckets[i][k] == x
    ensures forall k | 0 <= k < |Flatten(buckets)| :: Flatten(buckets)[k] == x
  {
    if buckets != [] { FlattenAll(buckets[..|buckets| - 1], x); }
  }

  /** A cache of zeros answers 0. */
  lemma ZeroCache(cache: seq<int>, buckets: seq<seq<int>>, n: int)
    requires IsCache(cache) && cache != [] && (|cache| < ENOUGH || cache[0] == 0)
    ensures AnswerFrom(cache, buckets, n, 0) == 0
  {
    hide Sorted, Below, RankOf;
    var s: seq<int> :| AtLeast(s, 0) && cache == Descending(s);
    if |cache| >= ENOUGH {
      forall k: nat | k < |s| ensures cache[k] == 0 {
        DescendingOrder(s, 0, k);
        DescendingAtLeast(s, k, 0);
      }
    }
  }

  /** Estimates are right after every sane file if and only if nothing was cached before; where free
    * transactions are the only sane ones, a cache that answers 0 does no harm either. */
  lemma FeesRightIff(cache: seq<int>, minRelayFee: int)
    requires IsCache(cache)
    ensures FeesRight(cache, minRelayFee) <==>
            cache == [] || (minRelayFee <= 0 && (|cache| < ENOUGH || cache[0] == 0))
  {
    hide AnswerFrom, Descending;
    if cache == [] {
    } else if minRelayFee <= 0 && (|cache| < ENOUGH || cache[0] == 0) {
      forall file: seq<BlockAverage>, n: int | SaneFile(file, minRelayFee)
        ensures AnswerFrom(cache, Fees(Loaded(file)), n, 0) == Estimate(Fees(Loaded(file)), n, 0)
      {
        FreeEstimate(file, minRelayFee, n);
        ZeroCache(cache, Fees(Loaded(file)), n);
      }
    } else if minRelayFee <= 0 {
      FreeFileWrong(cache, minRelayFee);
    } else {
      var r := SameAnswer(cache, 0);
      ElevenFees(if r == 1 then 2 else 1, minRelayFee);
      OneBucket(if r == 1 then 2 else 1);
    }
  }

  /** A file that holds no samples, read over a cache that does not answer 0. */
  lemma FreeFileWrong(cache: seq<int>, minRelayFee: int)
    requires |cache| >= ENOUGH && cache[0] != 0 && minRelayFee <= 0
    ensures !FeesRight(cache, minRelayFee)
  {
    var file := [BlockAverage([], [])];
    assert Fees(Loaded(file)) == [[]];
    FlattenOne([]);
    assert SaneFile(file, minRelayFee);
    assert AnswerFrom(cache, Fees(Loaded(file)), 1, 0) == cache[0];
    assert Estimate(Fees(Loaded(file)), 1, 0) == 0;
  }

  lemma ElevenFees(x: int, minRelayFee: int)
    requires 0 <= x <= 10000 * minRelayFee
    ensures var file := [BlockAverage(Eleven(x), [])]; SaneFile(file, minRelayFee) && Fees(Loaded(file)) == [Eleven(x)]
  {}

  lemma ElevenPriorities(x: int, minRelayFee: int)
    requires 0 <= x
    ensures var file := [BlockAverage([], Eleven(x))]; SaneFile(file, minRelayFee) && Priorities(Loaded(file)) == [Eleven(x)]
  {}

  lemma PrioritiesRightIff(cache: seq<int>, minRelayFee: int)
    ensures PrioritiesRight(cache, minRelayFee) <==> cache == []
  {
    hide AnswerFrom, Descending;
    if cache != [] {
      var r := SameAnswer(cache, -1);
      ElevenPriorities(if r == 1 then 2 else 1, minRelayFee);
      OneBucket(if r == 1 then 2 else 1);
    }
  }

  /** Sort the entries of a block by how long they took. */
  method ByConfirmations(entries: seq<Entry>, height: int, n: nat) returns (buckets: seq<seq<Entry>>)
    requires n >= 1
    ensures |buckets| == n && forall i | 0 <= i < n :: buckets[i] == InBucket(entries, height, n, i)
  {
    buckets := seq(n, i => []);
    for k := 0 to |entries|
      invariant |buckets| == n && forall i | 0 <= i < n :: buckets[i] == InBucket(entries[..k], height, n, i)
    {
      assert entries[..k + 1][..k] == entries[..k];
      var delta := height - entries[k].height;
      if delta > 0 {
        var b := BucketOf(delta, n);
        buckets := buckets[b := buckets[b] + [entries[k]]];
      }
    }
    assert entries[..|entries|] == entries;
  }

  // ---- Which samples a block leaves ----------------------------------------------------------

  /** A confirmation that its fee explains and its priority does not. */
  predicate FeeDriven(e: Entry, policy: Policy) {
    e.feeRate > policy.minRelayFee && e.priority <= policy.freePriority && 0 <= e.feeRate <= 10000 * policy.minRelayFee
  }

  /** A confirmation that its priority explains and its fee does not. */
  predicate PriorityDriven(e: Entry, policy: Policy) {
    e.priority > policy.freePriority && e.feeRate <= policy.minRelayFee && e.priority >= 0
  }

  function FeesOf(es: seq<Entry>, policy: Policy): seq<int> {
    if es == [] then []
    else FeesOf(es[..|es| - 1], policy) + (if FeeDriven(es[|es| - 1], policy) then [es[|es| - 1].feeRate] else [])
  }

  function PrioritiesOf(es: seq<Entry>, policy: Policy): seq<int> {
    if es == [] then []
    else PrioritiesOf(es[..|es| - 1], policy) + (if PriorityDriven(es[|es| - 1], policy) then [es[|es| - 1].priority] else [])
  }

  lemma PushLast(buffer: seq<int>, s: seq<int>, x: int)
    requires buffer == LastHundred(s)
    ensures Push(buffer, x) == LastHundred(s + [x])
  {
    if |s| > 100 { assert (s + [x])[|s| - 99..] == s[|s| - 100..][1..] + [x]; }
    else if |s| == 100 { assert (s + [x])[1..] == s[1..] + [x]; }
  }

  /** Recording entries appends the fee rates of the fee-driven ones to the one buffer and the priorities of the
    * priority-driven ones to the other; each keeps the last hundred, and all other entries leave no sample. */
  lemma {:induction false} ConfirmAllIs(a: BlockAverage, es: seq<Entry>, policy: Policy)
    requires |a.feeSamples| <= 100 && |a.prioritySamples| <= 100
    ensures var r := ConfirmAll(a, es, policy);
            && r.feeSamples == LastHundred(a.feeSamples + FeesOf(es, policy))
            && r.prioritySamples == LastHundred(a.prioritySamples + PrioritiesOf(es, policy))
  {
    if es != [] {
      var e, front := es[|es| - 1], es[..|es| - 1];
      ConfirmAllIs(a, front, policy);
      var fees, priorities := a.feeSamples + FeesOf(front, policy), a.prioritySamples + PrioritiesOf(front, policy);
      PushLast(LastHundred(fees), fees, e.feeRate);
      PushLast(LastHundred(priorities), priorities, e.priority);
      assert a.feeSamples + FeesOf(es, policy) == if FeeDriven(e, policy) then fees + [e.feeRate] else fees;
      assert a.prioritySamples + PrioritiesOf(es, policy) ==
             if PriorityDriven(e, policy) then priorities + [e.priority] else priorities;
    }
  }

  /** Bucket i holds the entries that took i + 1 blocks; the last one also those that took longer. */
  predicate BelongsTo(e: Entry, height: int, n: nat, i: int) {
    height - e.height == i + 1 || (i == n - 1 && height - e.height > n)
  }

  lemma {:induction false} InBucketIs(entries: seq<Entry>, height: int, n: nat, i: int, e: Entry)
    requires 0 <= i < n
    ensures multiset(InBucket(entries, height, n, i))[e] == if BelongsTo(e, height, n, i) then multiset(entries)[e] else 0
  {
    if entries != [] {
      var front, last := entries[..|entries| - 1], entries[|entries| - 1];
      InBucketIs(front, height, n, i, e);
      assert entries == front + [last];
    }
  }

  /** Each bucket gains the samples of at most ten of the entries that belong to it, and of all of them when they are
    * no more than ten. */
  lemma UpdatedIs(history: seq<BlockAverage>, entries: seq<Entry>, height: int, policy: Policy, shuffle: Shuffle, i: nat)
    requires SaneHistory(history) && i < |history| && IsShuffle(shuffle)
    ensures exists chosen: seq<Entry> ::
              && (forall e :: multiset(chosen)[e] <= if BelongsTo(e, height, |history|, i) then multiset(entries)[e] else 0)
              && (if |InBucket(entries, height, |history|, i)| <= 10 then chosen == InBucket(entries, height, |history|, i)
                  else |chosen| == 10)
              && var r := Updated(history, entries, height, policy, shuffle)[i];
                 && r.feeSamples == LastHundred(history[i].feeSamples + FeesOf(chosen, policy))
                 && r.prioritySamples == LastHundred(history[i].prioritySamples + PrioritiesOf(chosen, policy))
  {
    var es := InBucket(entries, height, |history|, i);
    var chosen := Sampled(shuffle, es);
    assert Sane(history[i]);
    ConfirmAllIs(history[i], chosen, policy);
    forall e ensures multiset(chosen)[e] <= if BelongsTo(e, height, |history|, i) then multiset(entries)[e] else 0 {
      InBucketIs(entries, height, |history|, i, e);
    }
  }

  function UpdatedAt(history: seq<BlockAverage>, entries: seq<Entry>, height: int, policy: Policy, shuffle: Shuffle, i: nat): BlockAverage
    requires i < |history| && IsShuffle(shuffle)
  {
    ConfirmAll(history[i], Sampled(shuffle, InBucket(entries, height, |history|, i)), policy)
  }

  /** Each bucket with a sample of the block's entries that belong to it. */
  function Updated(history: seq<BlockAverage>, entries: seq<Entry>, height: int, policy: Policy, shuffle: Shuffle): (r: seq<BlockAverage>)
    requires IsShuffle(shuffle)
    ensures |r| == |history|
  {
    seq(|history|, i requires 0 <= i < |history| => UpdatedAt(history, entries, height, policy, shuffle, i))
  }

  lemma UpdatedSane(history: seq<BlockAverage>, entries: seq<Entry>, height: int, policy: Policy, shuffle: Shuffle)
    requires SaneHistory(history) && IsShuffle(shuffle)
    ensures SaneHistory(Updated(history, entries, height, policy, shuffle))
  {
    forall i | 0 <= i < |history| ensures Sane(UpdatedAt(history, entries, height, policy, shuffle, i)) {
      ConfirmAllSane(history[i], Sampled(shuffle, InBucket(entries, height, |history|, i)), policy);
    }
  }

  lemma FlattenOne(s: seq<int>)
    ensures Flatten([s]) == s && Flatten([s][..0]) == []
  {
    assert [s][..0] == [];
    assert Flatten([]) == [];
  }

  lemma {:induction false} SameBelow(s: seq<int>, x: int)
    requires forall i | 0 <= i < |s| :: s[i] == x
    ensures Below(s, x) == 0 && Below(s, x + 1) == |s|
  {
    if s != [] { SameBelow(s[..|s| - 1], x); }
  }

  /** Answer from the cache, filling it first when it is empty. */
  method Answer(buckets: seq<seq<int>>, cache0: seq<int>, nBlocks: int, none: int) returns (cache: seq<int>, r: int)
    ensures cache == if 1 <= nBlocks <= |buckets| then Filled(cache0, buckets) else cache0
    ensures r == AnswerFrom(cache0, buckets, nBlocks, none)
  {
    cache := cache0;
    var n := nBlocks - 1;
    if n < 0 || n >= |buckets| { return cache, none; }
    if |cache| == 0 {
      for i := 0 to |buckets|
        invariant cache == Flatten(buckets[..i])
      {
        assert buckets[..i + 1][..i] == buckets[..i];
        cache := cache + buckets[i];
      }
      assert buckets[..|buckets|] == buckets;
      cache := Descending(cache);
    }
    if |cache| < ENOUGH { return cache, none; }
    var nPrevSize := 0;
    for i := 0 to n
      invariant nPrevSize == |Flatten(buckets[..i])|
    {
      assert buckets[..i + 1][..i] == buckets[..i];
      nPrevSize := nPrevSize + |buckets[i]|;
    }
    var index := if nPrevSize + |buckets[n]| / 2 < |cache| - 1 then nPrevSize + |buckets[n]| / 2 else |cache| - 1;
    r := cache[index];
  }
}
