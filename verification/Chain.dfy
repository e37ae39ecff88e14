/** The active chain as an index by height, and the block locators that describe a chain to a peer
  * in logarithmically many hashes.
  */
module Chains {
  import opened BlockTree
  import opened Shifts

  /** The index entries along a branch. */
  ghost function Entries(path: seq<BlockIndex>): (r: seq<BlockIndex?>)
    ensures |r| == |path|
  {
    seq(|path|, i requires 0 <= i < |path| => path[i])
  }

  class Chain {
    var vChain: seq<BlockIndex?>

    /** The chain is empty or lists the branch of its tip. */
    ghost predicate Valid()
      reads this
    {
      vChain == [] || (var tip := vChain[|vChain| - 1]; tip != null && tip.Rooted() && vChain == Entries(tip.Path()))
    }

    constructor ()
      ensures Valid() && vChain == []
    {
      vChain := [];
    }

    function Tip(): BlockIndex?
      reads this
    {
      if |vChain| > 0 then vChain[|vChain| - 1] else null
    }

    function Genesis(): BlockIndex?
      reads this
    {
      if |vChain| > 0 then vChain[0] else null
    }

    function At(nHeight: int): BlockIndex?
      reads this
    {
      if nHeight < 0 || nHeight >= |vChain| then null else vChain[nHeight]
    }

    predicate Contains(b: BlockIndex)
      reads this
    {
      At(b.nHeight) == b
    }

    function Height(): int
      reads this
    {
      |vChain| - 1
    }

    function Next(b: BlockIndex): BlockIndex?
      reads this
    {
      if Contains(b) then At(b.nHeight + 1) else null
    }

    /** The successor is the child on the chain; only the tip and blocks off the chain have none. */
    lemma NextIsChild(b: BlockIndex)
      requires Valid() && b.Rooted()
      ensures Next(b) == null <==> !Contains(b) || b == Tip()
      ensures Next(b) != null ==> Next(b).pprev == b && Contains(Next(b))
    {
      if Contains(b) {
        Tip().PathAt(Tip().nHeight);
        Tip().PathAt(b.nHeight);
        if b.nHeight < Tip().nHeight { Tip().PathAt(b.nHeight + 1); }
      }
    }

    /** A block is in the chain exactly when it lies on the branch of the tip. */
    lemma ContainsIff(b: BlockIndex)
      requires Valid() && b.Rooted()
      ensures Contains(b) <==> Tip() != null && b in Tip().Path()
      ensures Contains(b) <==> Tip() != null && ShareAt(b, Tip(), b.nHeight)
    {
      b.PathAt(b.nHeight);
      if Tip() != null && b in Tip().Path() {
        var i :| 0 <= i < |Tip().Path()| && Tip().Path()[i] == b;
        Tip().PathAt(i);
      }
    }

    /** Entries that agree with the new branch at a height agree with it below. */
    lemma SharedEntries(b: BlockIndex, h: nat)
      requires Valid() && b.Rooted() && h <= b.nHeight && h < |vChain| && |b.Path()| == b.nHeight + 1 && vChain[h] == b.Path()[h]
      ensures forall i | 0 <= i <= h :: vChain[i] == b.Path()[i]
    {
      var tip := Tip();
      tip.PathAt(tip.nHeight);
      forall i: nat | i <= h ensures vChain[i] == b.Path()[i] { ShareBelow(tip, b, h, i); }
    }

    lemma PathEntry(b: BlockIndex, h: nat)
      requires b.Rooted() && h <= b.nHeight
      ensures |b.Path()| == b.nHeight + 1 && b.Path()[h].nHeight == h
      ensures b.Path()[h].pprev == if h > 0 then b.Path()[h - 1] else null
    {
      b.PathAt(h);
    }

    /** Overwrite from the new tip downwards, stopping at the first entry that is already right. */
    method SetTip(pindex0: BlockIndex?)
      requires Valid() && (pindex0 != null ==> pindex0.Rooted())
      modifies this`vChain
      ensures Valid() && Tip() == pindex0
      ensures vChain == if pindex0 == null then [] else Entries(pindex0.Path())
    {
      if pindex0 == null {
        vChain := [];
        return;
      }
      hide BlockIndex.Rooted;
      ghost var path, was, h: int := pindex0.Path(), vChain, pindex0.nHeight;
      PathEntry(pindex0, h);
      forall k: nat | k <= pindex0.nHeight && k < |was| && was[k] == path[k] ensures forall i | 0 <= i <= k :: was[i] == path[i] {
        SharedEntries(pindex0, k);
      }
      var size := pindex0.nHeight + 1;
      vChain := if size <= |vChain| then vChain[..size] else vChain + seq(size - |vChain|, i => null);
      var pindex: BlockIndex? := pindex0;
      while pindex != null && vChain[pindex.nHeight] != pindex
        invariant -1 <= h <= pindex0.nHeight && |vChain| == |path| == pindex0.nHeight + 1
        invariant if h == -1 then pindex == null else pindex == path[h] && pindex.nHeight == h
        invariant forall i | h < i < |path| :: vChain[i] == path[i]
        invariant forall i | 0 <= i <= h :: vChain[i] == if i < |was| then was[i] else null
        decreases h
      {
        PathEntry(pindex0, h);
        vChain := vChain[pindex.nHeight := pindex];
        pindex := pindex.pprev;
        h := h - 1;
        if h >= 0 { PathEntry(pindex0, h); }
      }
      assert forall i | 0 <= i < |path| :: vChain[i] == path[i];
    }

    /** A block of a branch is in the chain exactly when the tip's branch shares it. */
    lemma SharedIff(b: BlockIndex, h: nat)
      requires Valid() && b.Rooted() && h <= b.nHeight
      ensures |b.Path()| == b.nHeight + 1 && b.Path()[h].Rooted() && b.Path()[h].nHeight == h
      ensures b.Path()[h].pprev == if h > 0 then b.Path()[h - 1] else null
      ensures Contains(b.Path()[h]) <==> Tip() != null && ShareAt(b, Tip(), h)
    {
      b.PathAt(h);
      if Tip() != null { Tip().PathAt(Tip().nHeight); }
    }

    lemma NoneShared(b: BlockIndex)
      requires Valid() && b.Rooted() && Tip() != null
      ensures forall i | i > b.nHeight || i > Height() :: !ShareAt(b, Tip(), i)
    {
      b.PathAt(b.nHeight);
    }

    /** The last block of this chain that is also on the branch of b. */
    method FindFork(b: BlockIndex) returns (pindex: BlockIndex?)
      requires Valid() && b.Rooted() && b.SkipsSet()
      ensures if Tip() == null then pindex == null else LastCommon(b, Tip(), pindex)
      ensures pindex != null ==> Contains(pindex)
    {
      hide Valid, BlockIndex.Rooted, BlockIndex.SkipsSet, ShareAt, Contains;
      pindex := b;
      if b.nHeight > Height() { pindex := b.GetAncestor(Height()); }
      ghost var h: int := if b.nHeight > Height() then Height() else b.nHeight;
      if Tip() != null { NoneShared(b); }
      if h >= 0 { SharedIff(b, h); }
      SharedIff(b, b.nHeight);
      while pindex != null && !Contains(pindex)
        invariant -1 <= h <= b.nHeight && |b.Path()| == b.nHeight + 1
        invariant if h == -1 then pindex == null else pindex == b.Path()[h] && (Contains(pindex) <==> Tip() != null && ShareAt(b, Tip(), h))
        invariant Tip() != null ==> forall i | i > h :: !ShareAt(b, Tip(), i)
        decreases h
      {
        SharedIff(b, h);
        pindex := pindex.pprev;
        h := h - 1;
        if h >= 0 { SharedIff(b, h); }
      }
      if h >= 0 { SharedIff(b, h); }
      if Tip() != null && h == -1 { NothingBelow(b); }
    }

    lemma NothingBelow(b: BlockIndex)
      requires Tip() != null
      ensures forall i | i < 0 :: !ShareAt(b, Tip(), i)
    {}

    /** The ancestor of a block at a height: through the index when the block is in the chain, by
      * skip pointers otherwise, with the same outcome. */
    method StepBack(pindex: BlockIndex, nHeight: nat) returns (r: BlockIndex)
      requires Valid() && pindex.Rooted() && pindex.SkipsSet() && nHeight <= pindex.nHeight
      ensures r == pindex.AncestorAt(nHeight)
    {
      pindex.PathAt(nHeight);
      if Contains(pindex) {
        ContainsIff(pindex);
        Tip().PathAt(pindex.nHeight);
        assert Tip().Path()[..pindex.nHeight + 1][nHeight] == pindex.Path()[nHeight];
        r := At(nHeight);
      } else {
        r := pindex.GetAncestor(nHeight);
      }
    }

    /** The hashes of ever more distant ancestors of a block, down to genesis. */
    method GetLocator(pindex0: BlockIndex?) returns (vHave: seq<nat>)
      requires Valid() && (pindex0 != null ==> pindex0.Rooted() && pindex0.SkipsSet())
      requires Tip() != null ==> Tip().SkipsSet()
      ensures var b := if pindex0 == null then Tip() else pindex0;
              vHave == if b == null then [] else LocatorOf(b)
    {
      vHave := [];
      var pindex := if pindex0 == null then Tip() else pindex0;
      if pindex != null { vHave := LocatorFrom(pindex); }
    }

    method LocatorFrom(b: BlockIndex) returns (vHave: seq<nat>)
      requires Valid() && b.Rooted() && b.SkipsSet()
      ensures vHave == LocatorOf(b)
    {
      hide BlockIndex.SkipsSet, BlockIndex.Rooted, HeightsFrom;
      var nStep := 1;
      vHave := [];
      var pindex := b;
      b.PathAt(b.nHeight);
      ghost var done: seq<nat> := [];
      while true
        invariant OnPath(b, pindex) && nStep >= 1
        invariant InRange(done, b.nHeight) && vHave == HashesAt(b, done)
        invariant done + HeightsFrom(pindex.nHeight, nStep, |done|) == LocatorHeights(b.nHeight)
        decreases pindex.nHeight
      {
        HashesAppend(b, done, pindex.nHeight);
        HeightsAppend(done, pindex.nHeight, nStep);
        vHave := vHave + [pindex.hash];
        done := done + [pindex.nHeight];
        // Stop when the genesis block has been added.
        if pindex.nHeight == 0 { break; }
        pindex := EarlierBlock(b, pindex, if pindex.nHeight - nStep > 0 then pindex.nHeight - nStep else 0);
        if |vHave| > 10 { nStep := nStep * 2; }
      }
    }

    method EarlierBlock(ghost b: BlockIndex, pindex: BlockIndex, nHeight: nat) returns (r: BlockIndex)
      requires Valid() && b.Rooted() && b.SkipsSet() && OnPath(b, pindex) && nHeight <= pindex.nHeight
      ensures OnPath(b, r) && r.nHeight == nHeight
    {
      b.PathAt(pindex.nHeight);
      b.SkipsSetBelow(pindex.nHeight);
      r := StepBack(pindex, nHeight);
      assert pindex.Path()[nHeight] == b.Path()[nHeight];
      b.PathAt(nHeight);
    }

    predicate Known(mapBlockIndex: map<nat, BlockIndex>, hash: nat)
      reads this
    {
      hash in mapBlockIndex && Contains(mapBlockIndex[hash])
    }

    /** The first listed block that is in this chain, or genesis. */
    ghost predicate FirstKnown(mapBlockIndex: map<nat, BlockIndex>, vHave: seq<nat>, r: BlockIndex?)
      reads this
    {
      || ((forall j | 0 <= j < |vHave| :: !Known(mapBlockIndex, vHave[j])) && r == Genesis())
      || exists k | 0 <= k < |vHave| ::
           && Known(mapBlockIndex, vHave[k]) && r == mapBlockIndex[vHave[k]]
           && forall j | 0 <= j < k :: !Known(mapBlockIndex, vHave[j])
    }

    method FindForkInGlobalIndex(mapBlockIndex: map<nat, BlockIndex>, vHave: seq<nat>) returns (r: BlockIndex?)
      ensures FirstKnown(mapBlockIndex, vHave, r)
    {
      for k := 0 to |vHave|
        invariant forall j | 0 <= j < k :: !Known(mapBlockIndex, vHave[j])
      {
        if vHave[k] in mapBlockIndex && Contains(mapBlockIndex[vHave[k]]) { return mapBlockIndex[vHave[k]]; }
      }
      r := Genesis();
    }

    /** Every block of the branch of b is in the block index. */
    ghost predicate BranchKnown(mapBlockIndex: map<nat, BlockIndex>, b: BlockIndex) {
      forall i | 0 <= i < |b.Path()| :: b.Path()[i].hash in mapBlockIndex && mapBlockIndex[b.Path()[i].hash] == b.Path()[i]
    }

    /** Of the blocks of a branch, this chain contains those up to the fork. */
    lemma KnownUpToFork(mapBlockIndex: map<nat, BlockIndex>, b: BlockIndex, fork: BlockIndex, h: nat)
      requires Valid() && Tip() != null && b.Rooted() && LastCommon(b, Tip(), fork) && h <= b.nHeight
      requires BranchKnown(mapBlockIndex, b)
      ensures |b.Path()| == b.nHeight + 1
      ensures Known(mapBlockIndex, b.Path()[h].hash) <==> h <= fork.nHeight
    {
      b.PathAt(h);
      ContainsIff(b.Path()[h]);
      if h <= fork.nHeight { ShareBelow(b, Tip(), fork.nHeight, h); }
      assert Known(mapBlockIndex, b.Path()[h].hash) <==> ShareAt(b, Tip(), h) by {
        assert b.Path()[h].Path()[h] == b.Path()[h];
      }
    }

    lemma ListedKnown(mapBlockIndex: map<nat, BlockIndex>, b: BlockIndex, fork: BlockIndex, k: nat)
      requires Valid() && Tip() != null && b.Rooted() && LastCommon(b, Tip(), fork) && k < |LocatorHeights(b.nHeight)|
      requires BranchKnown(mapBlockIndex, b)
      ensures |b.Path()| == b.nHeight + 1 && LocatorOf(b)[k] == b.Path()[LocatorHeights(b.nHeight)[k]].hash
      ensures Known(mapBlockIndex, LocatorOf(b)[k]) <==> LocatorHeights(b.nHeight)[k] <= fork.nHeight
    {
      hide Valid, LastCommon, BlockIndex.Rooted, HeightsFrom, BranchKnown, Known;
      KnownUpToFork(mapBlockIndex, b, fork, LocatorHeights(b.nHeight)[k]);
    }

    /** Of the listed blocks, the first that this chain contains. */
    lemma FirstListed(mapBlockIndex: map<nat, BlockIndex>, b: BlockIndex, fork: BlockIndex, r: BlockIndex?) returns (k: nat)
      requires Valid() && Tip() != null && b.Rooted() && LastCommon(b, Tip(), fork)
      requires BranchKnown(mapBlockIndex, b) && FirstKnown(mapBlockIndex, LocatorOf(b), r)
      ensures k < |LocatorHeights(b.nHeight)| && LocatorHeights(b.nHeight)[k] <= fork.nHeight
      ensures forall j | 0 <= j < k :: LocatorHeights(b.nHeight)[j] > fork.nHeight
      ensures r == b.AncestorAt(LocatorHeights(b.nHeight)[k]) && r != null && Contains(r)
    {
      hide Valid, LastCommon, BlockIndex.Rooted, HeightsFrom;
      var heights, listed := LocatorHeights(b.nHeight), LocatorOf(b);
      LocatorShape(b.nHeight);
      ListedKnown(mapBlockIndex, b, fork, |heights| - 1);
      k :| 0 <= k < |listed| && Known(mapBlockIndex, listed[k]) && r == mapBlockIndex[listed[k]]
           && forall j | 0 <= j < k :: !Known(mapBlockIndex, listed[j]);
      ListedKnown(mapBlockIndex, b, fork, k);
      forall j | 0 <= j < k ensures heights[j] > fork.nHeight { ListedKnown(mapBlockIndex, b, fork, j); }
    }

    /** What a node answers to the locator of a block b it knows: the highest listed ancestor of b at
      * or below the fork with its own chain, which is at most twice as far below b as the fork. */
    lemma LocatorFindsFork(mapBlockIndex: map<nat, BlockIndex>, b: BlockIndex, fork: BlockIndex, r: BlockIndex?)
      requires Valid() && Tip() != null && b.Rooted() && LastCommon(b, Tip(), fork)
      requires BranchKnown(mapBlockIndex, b) && FirstKnown(mapBlockIndex, LocatorOf(b), r)
      ensures r != null && r.nHeight in LocatorHeights(b.nHeight) && r == b.AncestorAt(r.nHeight) && Contains(r)
      ensures r.nHeight <= fork.nHeight
      ensures forall h | h in LocatorHeights(b.nHeight) && h > r.nHeight :: h > fork.nHeight
      ensures b.nHeight - r.nHeight <= 2 * (b.nHeight - fork.nHeight)
    {
      hide Valid, LastCommon, BlockIndex.Rooted, HeightsFrom, BranchKnown, FirstKnown, Contains;
      var k := FirstListed(mapBlockIndex, b, fork, r);
      b.PathAt(LocatorHeights(b.nHeight)[k]);
      ForkBelow(b, fork);
      HighestListed(b.nHeight, fork.nHeight, k);
    }

    lemma ForkBelow(b: BlockIndex, fork: BlockIndex)
      requires Tip() != null && b.Rooted() && LastCommon(b, Tip(), fork)
      ensures fork.nHeight <= b.nHeight
    {
      b.PathAt(b.nHeight);
    }
  }

  // ---- What a locator lists --------------------------------------------------------------

  predicate InRange(heights: seq<nat>, max: nat) { forall i | 0 <= i < |heights| :: heights[i] <= max }

  ghost function HashesAt(b: BlockIndex, heights: seq<nat>): (r: seq<nat>)
    requires |b.Path()| == b.nHeight + 1 && InRange(heights, b.nHeight)
    ensures |r| == |heights|
  {
    seq(|heights|, i requires 0 <= i < |heights| => b.Path()[heights[i]].hash)
  }

  ghost predicate OnPath(b: BlockIndex, c: BlockIndex) {
    c.nHeight <= b.nHeight && |b.Path()| == b.nHeight + 1 && c == b.Path()[c.nHeight]
  }

  /** Branches that share genesis have a last common block, and it lies on both. */
  lemma ForkOnBoth(a: BlockIndex, b: BlockIndex, fork: BlockIndex?)
    requires a.Rooted() && b.Rooted() && LastCommon(a, b, fork) && ShareAt(a, b, 0)
    ensures fork != null && OnPath(a, fork) && OnPath(b, fork)
  {
    a.PathAt(a.nHeight);
    b.PathAt(b.nHeight);
  }

  lemma HashesAppend(b: BlockIndex, heights: seq<nat>, h: nat)
    requires |b.Path()| == b.nHeight + 1 && InRange(heights, b.nHeight) && h <= b.nHeight
    ensures HashesAt(b, heights + [h]) == HashesAt(b, heights) + [b.Path()[h].hash]
  {}

  lemma HeightsAppend(done: seq<nat>, h: nat, step: nat)
    requires step >= 1
    ensures done + HeightsFrom(h, step, |done|) ==
            if h == 0 then done + [h]
            else done + [h] + HeightsFrom(if h > step then h - step else 0, if |done| + 1 > 10 then 2 * step else step, |done| + 1)
  {}

  /** The heights listed from h on, after count entries, with the present step. */
  function HeightsFrom(h: nat, step: nat, count: nat): (r: seq<nat>)
    requires step >= 1
    ensures |r| >= 1 && r[0] == h && InRange(r, h)
    decreases h
  {
    if h == 0 then [0]
    else [h] + HeightsFrom(if h > step then h - step else 0, if count + 1 > 10 then 2 * step else step, count + 1)
  }

  function LocatorHeights(h: nat): (r: seq<nat>)
    ensures InRange(r, h)
  {
    HeightsFrom(h, 1, 0)
  }

  ghost function LocatorOf(b: BlockIndex): seq<nat>
    requires b.Rooted()
  {
    HashesAt(b, LocatorHeights(b.nHeight))
  }

  predicate Decreasing(s: seq<nat>) { forall i, j | 0 <= i < j < |s| :: s[i] > s[j] }

  lemma {:induction false} HeightsDecrease(h: nat, step: nat, count: nat)
    requires step >= 1
    ensures var r := HeightsFrom(h, step, count); Decreasing(r) && r[|r| - 1] == 0
    decreases h
  {
    if h > 0 {
      HeightsDecrease(if h > step then h - step else 0, if count + 1 > 10 then 2 * step else step, count + 1);
    }
  }

  /** A locator starts at its block, descends strictly, and ends at genesis. */
  lemma LocatorShape(h: nat)
    ensures var r := LocatorHeights(h);
            r[0] == h && r[|r| - 1] == 0 && Decreasing(r) && InRange(r, h)
  {
    HeightsDecrease(h, 1, 0);
  }

  /** How far back the k-th entry lies: one step each for the first eleven, then 2, 4, 8 and so on. */
  function LocatorOffset(k: nat): nat {
    if k <= 11 then k else 9 + ShiftLeft(1, k - 10)
  }

  function Above(h: nat, offset: nat): nat { if h > offset then h - offset else 0 }

  lemma {:induction false} DoublingAt(h: nat, step: nat, count: nat, k: nat)
    requires step >= 1 && count >= 10 && k < |HeightsFrom(h, step, count)|
    ensures ShiftLeft(step, k) >= step
    ensures HeightsFrom(h, step, count)[k] == Above(h, ShiftLeft(step, k) - step)
    decreases k
  {
    if k > 0 && h > 0 {
      DoublingAt(if h > step then h - step else 0, 2 * step, count + 1, k - 1);
    } else {
      assert k == 0;
    }
  }

  lemma {:induction false} SingleAt(h: nat, count: nat, k: nat)
    requires count <= 10 && k < |HeightsFrom(h, 1, count)|
    ensures LocatorOffset(count + k) >= count && HeightsFrom(h, 1, count)[k] == Above(h, LocatorOffset(count + k) - count)
    decreases k
  {
    if count == 10 {
      DoublingAt(h, 1, 10, k);
    } else if k > 0 {
      assert h > 0;
      SingleAt(h - 1, count + 1, k - 1);
    }
  }

  /** The k-th entry of a locator is the ancestor that far back, or genesis. */
  lemma LocatorHeightsAre(h: nat, k: nat)
    requires k < |LocatorHeights(h)|
    ensures LocatorHeights(h)[k] == Above(h, LocatorOffset(k))
  {
    SingleAt(h, 0, k);
  }

  function Log2(n: nat): nat { if n <= 1 then 0 else 1 + Log2(n / 2) }

  lemma {:induction false} Log2Mono(a: nat, b: nat)
    requires a <= b
    ensures Log2(a) <= Log2(b)
    decreases b
  {
    if b > 1 && a > 1 { Log2Mono(a / 2, b / 2); }
  }

  /** Once steps double, as many entries are left as the step can still double below the total. */
  lemma {:induction false} DoublingPhase(h: nat, step: nat, count: nat, total: nat)
    requires step >= 1 && count >= 11 && h + step <= total + 1
    ensures |HeightsFrom(h, step, count)| <= (if h == 0 then 1 else 2 + Log2(total) - Log2(step))
    decreases h
  {
    if h > 0 {
      Log2Mono(step, total);
      if h > step {
        DoublingPhase(h - step, 2 * step, count + 1, total);
        assert 2 * step / 2 == step && Log2(2 * step) == 1 + Log2(step);
      }
    }
  }

  lemma {:induction false} SinglePhase(h: nat, count: nat, total: nat)
    requires count <= 10 && h <= total
    ensures |HeightsFrom(h, 1, count)| <= 12 - count + Log2(total)
    decreases h
  {
    if h > 0 {
      if count < 10 { SinglePhase(h - 1, count + 1, total); } else { DoublingPhase(h - 1, 2, 11, total); }
    }
  }

  /** A locator has at most 12 entries and one more per doubling of the height. */
  lemma LocatorSize(h: nat)
    ensures |LocatorHeights(h)| <= 12 + Log2(h)
  {
    SinglePhase(h, 0, h);
  }

  /** Between neighbouring entries the distance to the top grows to at most twice plus two. */
  lemma {:induction false} Gap(top: nat, h: nat, step: nat, count: nat, k: nat)
    requires h <= top && 1 <= step <= top - h + 1 && 0 < k < |HeightsFrom(h, step, count)|
    ensures var r := HeightsFrom(h, step, count); r[k - 1] <= top && top - r[k] <= 2 * (top - r[k - 1] + 1)
    decreases h
  {
    var next := if h > step then h - step else 0;
    var nextStep := if count + 1 > 10 then 2 * step else step;
    if k > 1 && next > 0 { Gap(top, next, nextStep, count + 1, k - 1); }
  }

  lemma GapAt(h: nat, k: nat)
    requires 0 < k < |LocatorHeights(h)|
    ensures var r := LocatorHeights(h); r[k - 1] <= h && h - r[k] <= 2 * (h - r[k - 1] + 1)
  {
    Gap(h, h, 1, 0, k);
  }

  /** The first listed height at or below a mark is the highest, and at most twice as far down as the mark. */
  lemma HighestListed(h: nat, mark: nat, k: nat)
    requires k < |LocatorHeights(h)| && LocatorHeights(h)[k] <= mark <= h
    requires forall j | 0 <= j < k :: LocatorHeights(h)[j] > mark
    ensures forall x | x in LocatorHeights(h) && x > LocatorHeights(h)[k] :: x > mark
    ensures h - LocatorHeights(h)[k] <= 2 * (h - mark)
  {
    hide HeightsFrom;
    LocatorShape(h);
    if k > 0 { GapAt(h, k); }
  }
}
