/** The median time past: the rule that keeps block times moving forward. */
module MedianTime {
  import opened BlockTree
  import opened Sorting

  const MEDIAN_TIME_SPAN := 11

  // ---- The median ----------------------------------------------------------------------------

  /** The upper median of a list of times. */
  function Median(w: seq<int>): int
    requires w != []
  {
    Sorted(w)[|w| / 2]
  }

  /** The median is the one number that at most half of the entries are below, and more than half
    * of them do not exceed. */
  lemma MedianIs(w: seq<int>, m: int)
    requires w != []
    ensures Median(w) == m <==> Below(w, m) <= |w| / 2 < Below(w, m + 1)
  {
    hide Sorted, Below, Ordered;
    SortedKeeps(w, m);
    SortedKeeps(w, m + 1);
    OrderedRank(Sorted(w), |w| / 2, m);
    OrderedRank(Sorted(w), |w| / 2, m + 1);
  }

  /** Leave out the oldest entry, if any is to be left out, and add a time above the median. */
  lemma LaterMedian(w: seq<int>, drop: nat, t: int)
    requires w != [] && t > Median(w) && drop <= 1 && (drop == 1 ==> |w| == MEDIAN_TIME_SPAN)
    ensures Median(w[drop..] + [t]) >= Median(w)
  {
    var m, next := Median(w), w[drop..] + [t];
    MedianIs(w, m);
    assert next[..|next| - 1] == w[drop..];
    if drop == 1 { BelowDrop(w, m); } else { assert w[0..] == w; }
    SortedKeeps(next, m);
    OrderedRank(Sorted(next), |next| / 2, m);
  }

  lemma {:induction false} BelowDrop(w: seq<int>, m: int)
    requires w != []
    ensures Below(w[1..], m) <= Below(w, m)
  {
    if |w| > 1 {
      assert w[1..][..|w| - 2] == w[..|w| - 1][1..];
      BelowDrop(w[..|w| - 1], m);
    }
  }

  // ---- Along a branch ------------------------------------------------------------------------

  /** The times of the last blocks up to b, oldest first. */
  ghost function Window(b: BlockIndex): (w: seq<int>)
    requires b.Rooted()
    ensures w != [] && |w| == if b.nHeight < 11 then b.nHeight + 1 else 11
    ensures forall k | 0 <= k < |w| :: w[k] == b.Path()[b.nHeight + 1 - |w| + k].nTime
  {
    var lo := if b.nHeight + 1 < MEDIAN_TIME_SPAN then 0 else b.nHeight + 1 - MEDIAN_TIME_SPAN;
    seq(b.nHeight + 1 - lo, i requires 0 <= i < b.nHeight + 1 - lo => b.Path()[lo + i].nTime)
  }

  ghost function MedianTimePast(b: BlockIndex): int
    requires b.Rooted()
  {
    Median(Window(b))
  }

  /** The header rule: later than the median time past of the parent. */
  ghost predicate TimeOk(b: BlockIndex)
    requires b.Rooted()
  {
    b.pprev != null ==> b.nTime > MedianTimePast(b.pprev)
  }

  lemma WindowStep(b: BlockIndex)
    requires b.Rooted() && b.pprev != null
    ensures var drop := if b.nHeight < MEDIAN_TIME_SPAN then 0 else 1;
            Window(b) == Window(b.pprev)[drop..] + [b.nTime]
  {
    hide Window;
    b.ParentPath();
    var drop := if b.nHeight < MEDIAN_TIME_SPAN then 0 else 1;
    var w, before := Window(b), Window(b.pprev);
    b.PathAt(b.nHeight);
    assert |w| == |before| - drop + 1;
    forall k | 0 <= k < |w| ensures w[k] == (before[drop..] + [b.nTime])[k] {
      if k < |w| - 1 { assert before[drop..][k] == before[drop + k]; }
    }
  }

  /** The median time past never decreases along a branch whose headers obey the rule, from genesis
    * on and also while the window is still filling; so every block is later than the median time
    * past of each of its ancestors. */
  lemma {:induction false} MedianNeverDecreases(b: BlockIndex, i: nat)
    requires b.Rooted() && i <= b.nHeight
    requires forall k | 0 <= k < |b.Path()| :: b.Path()[k].Rooted() && TimeOk(b.Path()[k])
    ensures b.Path()[i].Rooted() && MedianTimePast(b.Path()[i]) <= MedianTimePast(b)
    ensures i < b.nHeight ==> b.nTime > MedianTimePast(b.Path()[i])
    decreases b.nHeight
  {
    b.PathAt(i);
    if i < b.nHeight {
      b.ParentPath();
      forall k | 0 <= k < |b.pprev.Path()| ensures b.pprev.Path()[k].Rooted() && TimeOk(b.pprev.Path()[k]) {
        assert b.pprev.Path()[k] == b.Path()[k];
      }
      MedianNeverDecreases(b.pprev, i);
      assert b.Path()[b.nHeight] == b;
      WindowStep(b);
      LaterMedian(Window(b.pprev), if b.nHeight < MEDIAN_TIME_SPAN then 0 else 1, b.nTime);
    }
  }

  // ---- The computation -----------------------------------------------------------------------

  /** Fill an array from its end with the times of b and the blocks before it. */
  method CollectTimes(b: BlockIndex, pmedian: array<int>) returns (begin: nat)
    requires b.Rooted() && pmedian.Length == MEDIAN_TIME_SPAN
    modifies pmedian
    ensures begin <= MEDIAN_TIME_SPAN && pmedian[begin..MEDIAN_TIME_SPAN] == Window(b)
  {
    begin := MEDIAN_TIME_SPAN;
    var pindex: BlockIndex? := b;
    b.PathAt(b.nHeight);
    for i := 0 to MEDIAN_TIME_SPAN
      invariant begin == MEDIAN_TIME_SPAN - (if i <= b.nHeight + 1 then i else b.nHeight + 1)
      invariant pindex == if i <= b.nHeight then b.Path()[b.nHeight - i] else null
      invariant forall k | begin <= k < MEDIAN_TIME_SPAN :: pmedian[k] == b.Path()[b.nHeight + 1 - MEDIAN_TIME_SPAN + k].nTime
    {
      if pindex == null { break; }
      b.PathAt(b.nHeight - i);
      begin := begin - 1;
      pmedian[begin] := pindex.nTime;
      pindex := pindex.pprev;
    }
    assert begin == MEDIAN_TIME_SPAN - |Window(b)|;
    forall k | 0 <= k < |Window(b)| ensures pmedian[begin..MEDIAN_TIME_SPAN][k] == Window(b)[k] {
      assert pmedian[begin..MEDIAN_TIME_SPAN][k] == pmedian[begin + k];
    }
  }

  /** Collect the times backwards from b, sort them and take the middle one. */
  method GetMedianTimePast(b: BlockIndex) returns (t: int)
    requires b.Rooted()
    ensures t == MedianTimePast(b)
  {
    var pmedian := new int[MEDIAN_TIME_SPAN];
    var begin := CollectTimes(b, pmedian);
    SortFrom(pmedian, begin);
    t := pmedian[begin + (MEDIAN_TIME_SPAN - begin) / 2];
  }
}
