/** The block tree: parent pointers, the skip pointers that make ancestors cheap to find, and the
  * last common ancestor of two blocks.
  */
module BlockTree {
  import opened Shifts

  // ---- Bits ------------------------------------------------------------------------------

  /** a & b on non-negative numbers, bit by bit. */
  function BitAnd(a: nat, b: nat): nat {
    if a == 0 || b == 0 then 0 else 2 * BitAnd(a / 2, b / 2) + (a % 2) * (b % 2)
  }

  /** n & (n - 1); at 0 the second operand is -1, and the result 0. */
  function InvertLowestOne(n: nat): nat { if n == 0 then 0 else BitAnd(n, n - 1) }

  lemma {:induction false} BitAndSelf(n: nat)
    ensures BitAnd(n, n) == n
  {
    if n > 0 { BitAndSelf(n / 2); }
  }

  /** The lowest one of an odd number is its last bit; below an even number it is one place up. */
  lemma InvertLowestOneSteps(k: nat)
    ensures InvertLowestOne(2 * k + 1) == 2 * k
    ensures InvertLowestOne(2 * k) == 2 * InvertLowestOne(k)
  {
    BitAndSelf(k);
    assert (2 * k + 1) / 2 == k && (2 * k) / 2 == k;
    if k > 0 {
      assert (2 * k - 1) / 2 == k - 1 && (2 * k) % 2 == 0;
    }
  }

  lemma {:induction false} InvertLowestOneLess(n: nat)
    requires n >= 1
    ensures InvertLowestOne(n) < n
  {
    InvertLowestOneSteps(n / 2);
    if n % 2 == 0 { InvertLowestOneLess(n / 2); }
  }

  /** A number with its lowest one at place k loses just that one. */
  lemma {:induction false} InvertLowestOneIs(q: nat, k: nat)
    ensures InvertLowestOne(ShiftLeft(2 * q + 1, k)) == ShiftLeft(2 * q, k)
  {
    hide InvertLowestOne;
    if k > 0 {
      InvertLowestOneIs(q, k - 1);
      ShiftLeftAdd(2 * q + 1, 2 * q + 1, k - 1);
      ShiftLeftAdd(2 * q, 2 * q, k - 1);
      InvertLowestOneSteps(ShiftLeft(2 * q + 1, k - 1));
    } else {
      InvertLowestOneSteps(q);
    }
  }

  /** The height a block's skip pointer leads to: strictly below it, above genesis. */
  function GetSkipHeight(height: nat): (h: nat)
    ensures height >= 1 ==> h < height
    ensures height == 0 ==> h == 0
  {
    if height < 2 then 0
    else if height % 2 == 1 then
      InvertLowestOneLess(height - 1);
      if InvertLowestOne(height - 1) > 0 then
        InvertLowestOneLess(InvertLowestOne(height - 1));
        InvertLowestOne(InvertLowestOne(height - 1)) + 1
      else InvertLowestOne(InvertLowestOne(height - 1)) + 1
    else
      InvertLowestOneLess(height);
      InvertLowestOne(height)
  }

  /** From an even height the skip pointer leads to that height without its lowest one. From an odd height it leads to
    * one above what is left of the height before when its two lowest ones are taken away. */
  lemma GetSkipHeightIs(q: nat, k: nat, r: nat, i: nat)
    requires k >= 1
    ensures GetSkipHeight(ShiftLeft(2 * q + 1, k)) == ShiftLeft(2 * q, k)
    ensures GetSkipHeight(ShiftLeft(1, k) + 1) == 1
    ensures GetSkipHeight(ShiftLeft(2 * ShiftLeft(2 * r + 1, i) + 1, k) + 1) == ShiftLeft(2 * r, k + i + 1) + 1
  {
    hide GetSkipHeight, InvertLowestOne, ShiftLeft;
    SkipEven(q, k);
    SkipOdd(0, k);
    ShiftLeftAdd(0, 0, k);
    InvertNone();
    var x := ShiftLeft(2 * r + 1, i);
    SkipOdd(x, k);
    ShiftTwice(2 * r + 1, i, k);
    InvertLowestOneIs(r, k + i + 1);
  }

  lemma InvertNone()
    ensures InvertLowestOne(0) == 0
  {}

  lemma ShiftTwice(x: nat, i: nat, k: nat)
    ensures ShiftLeft(2 * ShiftLeft(x, i), k) == ShiftLeft(x, k + i + 1)
  {
    ShiftLeftAdd(x, x, i);
    ShiftAgain(x, i + 1, k);
  }

  lemma SkipEven(q: nat, k: nat)
    requires k >= 1
    ensures GetSkipHeight(ShiftLeft(2 * q + 1, k)) == ShiftLeft(2 * q, k)
  {
    hide ShiftLeft;
    InvertLowestOneIs(q, k);
    EvenHeight(2 * q + 1, k);
  }

  lemma SkipOdd(x: nat, k: nat)
    requires k >= 1
    ensures GetSkipHeight(ShiftLeft(2 * x + 1, k) + 1) == InvertLowestOne(ShiftLeft(2 * x, k)) + 1
  {
    hide ShiftLeft;
    InvertLowestOneIs(x, k);
    EvenHeight(2 * x + 1, k);
  }

  lemma EvenHeight(x: nat, k: nat)
    requires k >= 1 && x >= 1
    ensures ShiftLeft(x, k) >= 2 && ShiftLeft(x, k) % 2 == 0
  {
    Doubled(x, k);
    Twice(ShiftLeft(x, k - 1));
  }

  lemma Doubled(x: nat, k: nat)
    requires k >= 1
    ensures ShiftLeft(x, k) == 2 * ShiftLeft(x, k - 1)
  {
    ShiftLeftAdd(x, x, k - 1);
  }

  lemma Twice(y: nat)
    ensures 2 * y % 2 == 0
  {}

  // ---- Blocks ----------------------------------------------------------------------------

  class BlockIndex {
    const hash: nat
    const pprev: BlockIndex?
    const nHeight: nat
    const nTime: int
    const proof: nat                 // GetBlockProof
    var pskip: BlockIndex?
    var nChainWork: nat
    var nTx: nat
    var nChainTx: nat
    var haveData: bool               // nStatus & BLOCK_HAVE_DATA
    var failed: bool                 // nStatus & BLOCK_FAILED_MASK
    var nSequenceId: nat

    /** The blocks from genesis to the parent. */
    ghost const ancestors: seq<BlockIndex>

    constructor (hash: nat, nTime: int, proof: nat, parent: BlockIndex?)
      requires parent != null ==> parent.Rooted()
      ensures Rooted() && this.hash == hash && this.nTime == nTime && this.proof == proof && pprev == parent
      ensures !haveData && !failed && nTx == 0 && nChainTx == 0 && pskip == null && nChainWork == 0
    {
      this.hash, this.nTime, this.proof, pprev := hash, nTime, proof, parent;
      nHeight := if parent == null then 0 else parent.nHeight + 1;
      ancestors := if parent == null then [] else parent.ancestors + [parent];
      pskip, nChainWork, nTx, nChainTx, haveData, failed, nSequenceId := null, 0, 0, 0, false, false, 0;
    }

    /** The parent pointers lead down to a genesis block, one height at a time. */
    ghost predicate Rooted()
      decreases nHeight
    {
      && |ancestors| == nHeight
      && (pprev == null <==> nHeight == 0)
      && (pprev != null ==> pprev.nHeight == nHeight - 1 && ancestors == pprev.ancestors + [pprev] && pprev.Rooted())
    }

    /** The branch from genesis up to this block; at Rooted blocks, entry i has height i. */
    ghost function Path(): seq<BlockIndex> { ancestors + [this] }

    /** Plain walk over k parent pointers. */
    ghost function Back(k: nat): BlockIndex?
      decreases k
    {
      if k == 0 then this else if pprev == null then null else pprev.Back(k - 1)
    }

    lemma {:induction false} PathAt(i: nat)
      requires Rooted() && i <= nHeight
      ensures |Path()| == nHeight + 1
      ensures Path()[i].Rooted() && Path()[i].nHeight == i && Path()[i].Path() == Path()[..i + 1]
      ensures i > 0 ==> Path()[i].pprev == Path()[i - 1]
      ensures i == 0 ==> Path()[i].pprev == null
      ensures Path()[i] == Back(nHeight - i)
      decreases nHeight
    {
      if i < nHeight {
        pprev.PathAt(i);
        assert Path()[..nHeight] == pprev.Path();
        assert pprev.Path()[..i + 1] == Path()[..i + 1];
      } else {
        assert Path()[..i + 1] == Path();
        if i > 0 { assert Path()[i - 1] == pprev; }
      }
    }

    /** Every block of the branch has its skip pointer set. */
    ghost predicate SkipsSet()
      requires Rooted()
      reads Path()`pskip
    {
      forall i | 1 <= i <= nHeight :: GetSkipHeight(i) < |Path()| && Path()[i].pskip == Path()[GetSkipHeight(i)]
    }

    /** The block of this branch at a height, if there is one. */
    ghost function AncestorAt(height: int): BlockIndex?
      requires Rooted()
    {
      if 0 <= height <= nHeight then Path()[height] else null
    }

    /** Follow skip pointers where they do not overshoot; never loses the branch. */
    method GetAncestor(height: int) returns (pindexWalk: BlockIndex?)
      requires Rooted() && SkipsSet()
      ensures pindexWalk == AncestorAt(height)
      ensures 0 <= height <= nHeight ==> pindexWalk == Back(nHeight - height)
    {
      if height > nHeight || height < 0 { return null; }
      pindexWalk := this;
      var heightWalk: int := nHeight;
      PathAt(nHeight);
      while heightWalk > height
        invariant height <= heightWalk <= nHeight && pindexWalk == Path()[heightWalk]
        decreases heightWalk
      {
        PathAt(heightWalk);
        var heightSkip := GetSkipHeight(heightWalk);
        var heightSkipPrev := GetSkipHeight(heightWalk - 1);
        if heightSkip == height ||
           (heightSkip > height && !(heightSkipPrev < heightSkip - 2 && heightSkipPrev >= height))
        {
          pindexWalk := pindexWalk.pskip;
          heightWalk := heightSkip;
        } else {
          pindexWalk := pindexWalk.pprev;
          heightWalk := heightWalk - 1;
        }
      }
      PathAt(height);
    }

    method BuildSkip()
      requires Rooted() && (pprev != null ==> pprev.SkipsSet())
      modifies this`pskip
      ensures SkipsSet()
      ensures pprev == null ==> pskip == old(pskip)
    {
      if pprev != null {
        pskip := pprev.GetAncestor(GetSkipHeight(nHeight));
        ParentPath();
        forall i | 1 <= i < nHeight ensures Path()[i].pskip == Path()[GetSkipHeight(i)] {
          assert Path()[i] == pprev.Path()[i];
          pprev.PathAt(i);
        }
      }
    }

    lemma ParentPath()
      requires Rooted() && pprev != null
      ensures Path() == pprev.Path() + [this] && |Path()| == nHeight + 1
      ensures forall i | 0 <= i < nHeight :: Path()[i] == pprev.Path()[i] && Path()[i] != this
    {
      forall i | 0 <= i < nHeight ensures Path()[i] != this { PathAt(i); }
    }

    /** A block below this one, on its branch, has its skip pointers set as well. */
    lemma SkipsSetBelow(i: nat)
      requires Rooted() && i <= nHeight && SkipsSet()
      ensures Path()[i].Rooted() && Path()[i].SkipsSet()
    {
      PathAt(i);
    }
  }

  // ---- Common ancestors ------------------------------------------------------------------

  /** a and b share the block at height i of their branches. */
  ghost predicate ShareAt(a: BlockIndex, b: BlockIndex, i: int) {
    0 <= i < |a.Path()| && i < |b.Path()| && a.Path()[i] == b.Path()[i]
  }

  /** r is the highest block that both branches contain; null when they share none. */
  ghost predicate LastCommon(a: BlockIndex, b: BlockIndex, r: BlockIndex?) {
    if r == null then forall i :: !ShareAt(a, b, i)
    else ShareAt(a, b, r.nHeight) && r == a.Path()[r.nHeight] && forall i | i > r.nHeight :: !ShareAt(a, b, i)
  }

  lemma ShareBelow(a: BlockIndex, b: BlockIndex, i: int, j: int)
    requires a.Rooted() && b.Rooted() && ShareAt(a, b, i) && 0 <= j <= i
    ensures ShareAt(a, b, j)
  {
    a.PathAt(i);
    b.PathAt(i);
    assert a.Path()[..i + 1][j] == b.Path()[..i + 1][j];
  }

  /** There is only one: two ways of finding it, as by FindFork and by LastCommonAncestor, agree. */
  lemma LastCommonUnique(a: BlockIndex, b: BlockIndex, r: BlockIndex?, q: BlockIndex?)
    requires LastCommon(a, b, r) && LastCommon(a, b, q)
    ensures r == q
  {
    if r != null && q != null {
      assert r.nHeight <= q.nHeight && q.nHeight <= r.nHeight;
    }
  }

  method LastCommonAncestor(a: BlockIndex, b: BlockIndex) returns (r: BlockIndex?)
    requires a.Rooted() && b.Rooted() && a.SkipsSet() && b.SkipsSet()
    ensures LastCommon(a, b, r)
  {
    hide BlockIndex.SkipsSet;
    var pa: BlockIndex?, pb: BlockIndex? := a, b;
    a.PathAt(a.nHeight);
    b.PathAt(b.nHeight);
    var low := if a.nHeight < b.nHeight then a.nHeight else b.nHeight;
    a.PathAt(low);
    b.PathAt(low);
    if pa.nHeight > pb.nHeight {
      pa := pa.GetAncestor(pb.nHeight);
    } else if pb.nHeight > pa.nHeight {
      pb := pb.GetAncestor(pa.nHeight);
    }
    ghost var h: int := low;
    while pa != pb && pa != null && pb != null
      invariant -1 <= h <= low
      invariant if h == -1 then pa == null && pb == null else pa == a.Path()[h] && pb == b.Path()[h]
      invariant forall i | i > h :: !ShareAt(a, b, i)
      decreases h
    {
      a.PathAt(h);
      b.PathAt(h);
      pa := pa.pprev;
      pb := pb.pprev;
      h := h - 1;
    }
    if h >= 0 { a.PathAt(h); }
    r := pa;
  }
}
