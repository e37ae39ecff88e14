/** Planning which blocks to request from a peer: the missing blocks on the way to the best block the
  * peer is known to have, within a window above the last block in common.
  */
module Download {
  import opened BlockTree
  import opened Chains
  import BlockLinks
  import BlockStores

  const BLOCK_DOWNLOAD_WINDOW := 1024
  const BATCH := 128

  type NodeId = int
  type InFlight = map<nat, NodeId>   // by block hash

  predicate Missing(b: BlockIndex, inFlight: InFlight)
    reads b`haveData
  {
    !b.haveData && b.hash !in inFlight
  }

  /** The blocks above height lo, up to height hi, that are neither here nor requested, in order. */
  ghost function Wanted(path: seq<BlockIndex>, lo: nat, hi: int, inFlight: InFlight): seq<BlockIndex>
    requires hi < |path|
    reads path`haveData
    decreases hi - lo
  {
    if hi <= lo then []
    else Wanted(path, lo, hi - 1, inFlight) + (if Missing(path[hi], inFlight) then [path[hi]] else [])
  }

  /** Who has been asked for the lowest requested block between two heights; -1 for nobody. */
  ghost function FirstAsked(path: seq<BlockIndex>, lo: nat, hi: int, inFlight: InFlight): NodeId
    requires hi < |path|
    reads path`haveData
    decreases hi - lo
  {
    if hi <= lo then -1
    else if FirstAsked(path, lo, hi - 1, inFlight) != -1 then FirstAsked(path, lo, hi - 1, inFlight)
    else if !path[hi].haveData && path[hi].hash in inFlight then inFlight[path[hi].hash]
    else -1
  }

  lemma {:induction false} WantedExtends(path: seq<BlockIndex>, lo: nat, mid: int, hi: int, inFlight: InFlight)
    requires mid <= hi < |path|
    ensures Wanted(path, lo, mid, inFlight) <= Wanted(path, lo, hi, inFlight)
    decreases hi - mid
  {
    if mid < hi { WantedExtends(path, lo, mid, hi - 1, inFlight); }
  }

  /** Missing blocks of a branch within some heights, by increasing height. */
  ghost predicate Listing(b: BlockIndex, lo: nat, hi: int, inFlight: InFlight, w: seq<BlockIndex>)
    reads w`haveData
  {
    && (forall i | 0 <= i < |w| :: lo < w[i].nHeight <= hi && OnPath(b, w[i]) && Missing(w[i], inFlight))
    && (forall i, j | 0 <= i < j < |w| :: w[i].nHeight < w[j].nHeight)
  }

  /** Only missing blocks of the stretch, each once, by increasing height. */
  lemma {:induction false} WantedOnly(b: BlockIndex, path: seq<BlockIndex>, lo: nat, hi: int, inFlight: InFlight)
    requires b.Rooted() && path == b.Path() && hi < |path|
    ensures Listing(b, lo, hi, inFlight, Wanted(path, lo, hi, inFlight))
    decreases hi - lo
  {
    if lo < hi {
      WantedOnly(b, path, lo, hi - 1, inFlight);
      b.PathAt(hi);
    }
  }

  /** And none of them is left out. */
  lemma {:induction false} WantedAll(path: seq<BlockIndex>, lo: nat, hi: int, h: int, inFlight: InFlight)
    requires lo < h <= hi < |path| && Missing(path[h], inFlight)
    ensures path[h] in Wanted(path, lo, hi, inFlight)
    decreases hi - h
  {
    if h < hi { WantedAll(path, lo, hi - 1, h, inFlight); }
  }

  /** c is on the branch of b, and c and all its ancestors are here. */
  ghost predicate HereUpTo(b: BlockIndex, c: BlockIndex)
    reads b.Path()`haveData
  {
    OnPath(b, c) && forall i | 0 <= i <= c.nHeight :: b.Path()[i].haveData
  }

  /** nChainTx is only set where a block and all its ancestors are here. */
  ghost predicate TotalsTruthful(b: BlockIndex)
    reads b.Path()`haveData, b.Path()`nChainTx
  {
    forall i, j | 0 <= j <= i < |b.Path()| && b.Path()[i].nChainTx > 0 :: b.Path()[j].haveData
  }

  /** A common ancestor of a block that is here, with all its ancestors, is here as well. */
  lemma HereBelow(a: BlockIndex, b: BlockIndex, c: BlockIndex)
    requires a.Rooted() && b.Rooted() && HereUpTo(a, a) && OnPath(a, c) && OnPath(b, c)
    ensures HereUpTo(b, c)
  {
    a.PathAt(c.nHeight);
    b.PathAt(c.nHeight);
    forall i | 0 <= i <= c.nHeight ensures b.Path()[i].haveData {
      assert c.Path()[i] == a.Path()[i] == b.Path()[i];
    }
  }

  /** Why the scan ends before its last block. */
  datatype Halt = Continue | Rejected | Full | WindowEnd

  class Peer {
    const id: NodeId
    var pindexBestKnownBlock: BlockIndex?
    var pindexLastCommonBlock: BlockIndex?

    constructor (id: NodeId)
      ensures this.id == id && pindexBestKnownBlock == null && pindexLastCommonBlock == null
    {
      this.id, pindexBestKnownBlock, pindexLastCommonBlock := id, null, null;
    }
  }

  /** Blocks the node refuses to fetch, besides those already marked invalid. */
  type Banned = set<nat>

  predicate Rejects(b: BlockIndex, banned: Banned)
    reads b`failed
  {
    b.failed || b.hash in banned
  }

  /** The height of the lowest rejected block above lo and up to hi; hi + 1 when there is none. */
  ghost function FirstRejected(path: seq<BlockIndex>, lo: nat, hi: nat, banned: Banned): (h: nat)
    requires lo <= hi < |path|
    reads path`failed
    ensures lo < h <= hi + 1
    ensures forall j | lo < j < h :: !Rejects(path[j], banned)
    ensures h <= hi ==> Rejects(path[h], banned)
    decreases hi - lo
  {
    if lo == hi || Rejects(path[lo + 1], banned) then lo + 1 else FirstRejected(path, lo + 1, hi, banned)
  }

  /** The blocks of a branch above a height, lowest first, found from the top. */
  method Successors(target: BlockIndex, height: nat, n: nat) returns (vToFetch: seq<BlockIndex>)
    requires target.Rooted() && target.SkipsSet() && n >= 1 && height + n <= target.nHeight
    ensures |target.Path()| == target.nHeight + 1 && vToFetch == target.Path()[height + 1..height + n + 1]
  {
    target.PathAt(height + n);
    var pindexWalk := target.GetAncestor(height + n);
    vToFetch := [pindexWalk];
    var i := n - 1;
    while i > 0
      invariant 0 <= i < n && vToFetch == target.Path()[height + i + 1..height + n + 1]
    {
      target.PathAt(height + i + 1);
      assert vToFetch[0] == target.Path()[height + i + 1];
      vToFetch := [vToFetch[0].pprev] + vToFetch;
      i := i - 1;
    }
  }

  /** From one block on, the highest block up to height h of which everything is known to be here. */
  ghost predicate Advanced(target: BlockIndex, start: nat, h: nat, lastCommon: BlockIndex?)
    requires |target.Path()| == target.nHeight + 1 && h <= target.nHeight
    reads target.Path()`haveData, target.Path()`nChainTx
  {
    && lastCommon != null && HereUpTo(target, lastCommon) && start <= lastCommon.nHeight <= h
    && (lastCommon.nHeight > start ==> lastCommon.nChainTx > 0)
    && forall j | lastCommon.nHeight < j <= h :: !(target.Path()[j].haveData && target.Path()[j].nChainTx > 0)
  }

  /** The state of the scan after the blocks above height start, up to height h. */
  ghost predicate Scanned(target: BlockIndex, start: nat, h: nat, windowEnd: nat, inFlight: InFlight, banned: Banned,
                          vBlocks: seq<BlockIndex>, waitingfor: NodeId, lastCommon: BlockIndex?)
    requires |target.Path()| == target.nHeight + 1
    reads target.Path()`haveData, target.Path()`nChainTx, target.Path()`failed
  {
    && start <= h <= target.nHeight
    && (forall j | start < j <= h :: !Rejects(target.Path()[j], banned))
    && (windowEnd < h ==> !Missing(target.Path()[windowEnd + 1], inFlight))
    && vBlocks == Wanted(target.Path(), start, if h <= windowEnd then h else windowEnd, inFlight)
    && waitingfor == FirstAsked(target.Path(), start, h, inFlight)
    && Advanced(target, start, h, lastCommon)
  }

  lemma AdvanceOne(target: BlockIndex, start: nat, h: nat, lastCommon: BlockIndex?)
    requires target.Rooted() && TotalsTruthful(target) && |target.Path()| == target.nHeight + 1 && start < h <= target.nHeight
    requires Advanced(target, start, h - 1, lastCommon)
    ensures var pindex := target.Path()[h];
            Advanced(target, start, h, if pindex.haveData && pindex.nChainTx > 0 then pindex else lastCommon)
  {
    target.PathAt(h);
  }

  /** Look at the block at height h. */
  method ScanOne(peer: Peer, target: BlockIndex, ghost start: nat, ghost h: nat, pindex: BlockIndex, nWindowEnd: nat, count: nat,
                 inFlight: InFlight, banned: Banned, vBlocks0: seq<BlockIndex>, waitingfor0: NodeId)
    returns (halt: Halt, vBlocks: seq<BlockIndex>, waitingfor: NodeId)
    requires target.Rooted() && TotalsTruthful(target) && |target.Path()| == target.nHeight + 1
    requires start < h <= target.nHeight && h <= nWindowEnd + 1 && pindex == target.Path()[h] && |vBlocks0| < count
    requires Scanned(target, start, h - 1, nWindowEnd, inFlight, banned, vBlocks0, waitingfor0, peer.pindexLastCommonBlock)
    modifies peer`pindexLastCommonBlock
    ensures Scanned(target, start, if halt.Rejected? || halt.WindowEnd? then h - 1 else h, nWindowEnd, inFlight, banned,
                    vBlocks, waitingfor, peer.pindexLastCommonBlock)
    ensures (halt.Full? <==> |vBlocks| == count) && |vBlocks| <= count
    ensures halt.Rejected? <==> Rejects(pindex, banned)
    ensures halt.Full? ==> h <= nWindowEnd && vBlocks[count - 1] == pindex
    ensures halt.WindowEnd? ==> h == nWindowEnd + 1 && Missing(pindex, inFlight)
  {
    hide Advanced, HereUpTo, TotalsTruthful, BlockIndex.Rooted;
    vBlocks, waitingfor := vBlocks0, waitingfor0;
    target.PathAt(h);
    AdvanceOne(target, start, h, peer.pindexLastCommonBlock);
    if pindex.failed || pindex.hash in banned { return Rejected, vBlocks, waitingfor; }
    if pindex.haveData {
      if pindex.nChainTx > 0 { peer.pindexLastCommonBlock := pindex; }
    } else if pindex.hash !in inFlight {
      if pindex.nHeight > nWindowEnd { return WindowEnd, vBlocks, waitingfor; }
      vBlocks := vBlocks + [pindex];
      if |vBlocks| == count { return Full, vBlocks, waitingfor; }
    } else if waitingfor == -1 {
      waitingfor := inFlight[pindex.hash];
    }
    halt := Continue;
  }

  /** What planning achieves above height start. The scan may go up to one block above the window, but not
    * past a rejected block. The requests are the missing blocks on its way within the window, lowest first, as
    * many as the quota allows. The last common block moves up to the highest block on its way of which everything
    * is here. A staller is named exactly when everything in the window is here or requested and the block right
    * above it is missing: it holds the lowest requested block. */
  ghost predicate Planned(peer: Peer, target: BlockIndex, start: nat, count: nat, inFlight: InFlight, banned: Banned,
                          vBlocks: seq<BlockIndex>, nodeStaller: NodeId)
    requires |target.Path()| == target.nHeight + 1 && start < target.nHeight && count > 0
    reads peer`pindexLastCommonBlock, target.Path()`haveData, target.Path()`failed, target.Path()`nChainTx
  {
    var path, windowEnd := target.Path(), start + BLOCK_DOWNLOAD_WINDOW;
    var top := if target.nHeight < windowEnd + 1 then target.nHeight else windowEnd + 1;
    var clear := FirstRejected(path, start, top, banned) - 1;
    var wanted := Wanted(path, start, if clear < windowEnd then clear else windowEnd, inFlight);
    && vBlocks == (if |wanted| < count then wanted else wanted[..count])
    && (if |wanted| < count then Advanced(target, start, clear, peer.pindexLastCommonBlock)
        else wanted[count - 1].nHeight <= target.nHeight
             && Advanced(target, start, wanted[count - 1].nHeight, peer.pindexLastCommonBlock))
    && nodeStaller == if && wanted == [] && clear == windowEnd + 1 && Missing(path[clear], inFlight)
                         && FirstAsked(path, start, windowEnd, inFlight) != peer.id
                      then FirstAsked(path, start, windowEnd, inFlight) else -1
  }

  lemma ScanStart(target: BlockIndex, start: nat, inFlight: InFlight, banned: Banned, lastCommon: BlockIndex)
    requires |target.Path()| == target.nHeight + 1 && HereUpTo(target, lastCommon) && start == lastCommon.nHeight <= target.nHeight
    ensures Scanned(target, start, start, start + BLOCK_DOWNLOAD_WINDOW, inFlight, banned, [], -1, lastCommon)
  {}

  /** The quota is used up. */
  lemma ScanFull(peer: Peer, target: BlockIndex, start: nat, h: nat, count: nat, inFlight: InFlight, banned: Banned,
                 vBlocks: seq<BlockIndex>, waitingfor: NodeId)
    requires target.Rooted() && |target.Path()| == target.nHeight + 1 && start < h <= start + BLOCK_DOWNLOAD_WINDOW
    requires count > 0 && |vBlocks| == count
    requires Scanned(target, start, h, start + BLOCK_DOWNLOAD_WINDOW, inFlight, banned, vBlocks, waitingfor, peer.pindexLastCommonBlock)
    requires vBlocks[count - 1] == target.Path()[h]
    ensures Planned(peer, target, start, count, inFlight, banned, vBlocks, -1)
  {
    hide HereUpTo, Wanted, FirstAsked, BlockIndex.Rooted, Advanced, FirstRejected, Missing, OnPath;
    var path, windowEnd := target.Path(), start + BLOCK_DOWNLOAD_WINDOW;
    var top := if target.nHeight < windowEnd + 1 then target.nHeight else windowEnd + 1;
    var clear := FirstRejected(path, start, top, banned) - 1;
    var wanted := Wanted(path, start, if clear < windowEnd then clear else windowEnd, inFlight);
    assert clear >= h;
    WantedExtends(path, start, h, if clear < windowEnd then clear else windowEnd, inFlight);
    target.PathAt(h);
    assert wanted[..count] == vBlocks && wanted[count - 1] == path[h];
  }

  /** The scan has come to its end, or to a rejected block. */
  lemma ScanEnds(peer: Peer, target: BlockIndex, start: nat, h: nat, count: nat, inFlight: InFlight, banned: Banned,
                 vBlocks: seq<BlockIndex>, waitingfor: NodeId)
    requires target.Rooted() && |target.Path()| == target.nHeight + 1 && start < target.nHeight && |vBlocks| < count
    requires h <= start + BLOCK_DOWNLOAD_WINDOW + 1
    requires Scanned(target, start, h, start + BLOCK_DOWNLOAD_WINDOW, inFlight, banned, vBlocks, waitingfor, peer.pindexLastCommonBlock)
    requires || h == target.nHeight || h == start + BLOCK_DOWNLOAD_WINDOW + 1
             || Rejects(target.Path()[h + 1], banned)
    ensures Planned(peer, target, start, count, inFlight, banned, vBlocks, -1)
  {
    var windowEnd := start + BLOCK_DOWNLOAD_WINDOW;
    var top := if target.nHeight < windowEnd + 1 then target.nHeight else windowEnd + 1;
    assert FirstRejected(target.Path(), start, top, banned) == h + 1;
  }

  /** The block right above the window is missing. */
  lemma ScanStalls(peer: Peer, target: BlockIndex, start: nat, count: nat, inFlight: InFlight, banned: Banned,
                   vBlocks: seq<BlockIndex>, waitingfor: NodeId)
    requires |target.Path()| == target.nHeight + 1 && start + BLOCK_DOWNLOAD_WINDOW < target.nHeight && |vBlocks| < count
    requires Scanned(target, start, start + BLOCK_DOWNLOAD_WINDOW, start + BLOCK_DOWNLOAD_WINDOW, inFlight, banned,
                     vBlocks, waitingfor, peer.pindexLastCommonBlock)
    requires var b := target.Path()[start + BLOCK_DOWNLOAD_WINDOW + 1]; Missing(b, inFlight) && !Rejects(b, banned)
    ensures Planned(peer, target, start, count, inFlight, banned, vBlocks,
                    if vBlocks == [] && waitingfor != peer.id then waitingfor else -1)
  {
    var windowEnd := start + BLOCK_DOWNLOAD_WINDOW;
    assert FirstRejected(target.Path(), start, windowEnd + 1, banned) == windowEnd + 2;
  }

  /** Scan one batch of blocks; done when the scan is over. */
  method ScanBatch(peer: Peer, target: BlockIndex, ghost start: nat, ghost h: nat, vToFetch: seq<BlockIndex>, nWindowEnd: nat, count: nat,
                   inFlight: InFlight, banned: Banned, vBlocks0: seq<BlockIndex>, waitingfor0: NodeId)
    returns (done: bool, vBlocks: seq<BlockIndex>, waitingfor: NodeId, nodeStaller: NodeId)
    requires target.Rooted() && TotalsTruthful(target) && |target.Path()| == target.nHeight + 1 && start < target.nHeight
    requires nWindowEnd == start + BLOCK_DOWNLOAD_WINDOW && |vBlocks0| < count
    requires h + |vToFetch| <= target.nHeight && h + |vToFetch| <= nWindowEnd + 1 && vToFetch == target.Path()[h + 1..h + |vToFetch| + 1]
    requires Scanned(target, start, h, nWindowEnd, inFlight, banned, vBlocks0, waitingfor0, peer.pindexLastCommonBlock)
    modifies peer`pindexLastCommonBlock
    ensures if done then Planned(peer, target, start, count, inFlight, banned, vBlocks, nodeStaller)
            else nodeStaller == -1 && |vBlocks| < count &&
                 Scanned(target, start, h + |vToFetch|, nWindowEnd, inFlight, banned, vBlocks, waitingfor, peer.pindexLastCommonBlock)
  {
    hide Planned, TotalsTruthful, Wanted, FirstAsked, HereUpTo, Advanced, FirstRejected, BlockIndex.Rooted, OnPath, Rejects;
    done, vBlocks, waitingfor, nodeStaller := false, vBlocks0, waitingfor0, -1;
    for i := 0 to |vToFetch|
      invariant |vBlocks| < count
      invariant Scanned(target, start, h + i, nWindowEnd, inFlight, banned, vBlocks, waitingfor, peer.pindexLastCommonBlock)
    {
      var halt;
      halt, vBlocks, waitingfor := ScanOne(peer, target, start, h + i + 1, vToFetch[i], nWindowEnd, count, inFlight, banned, vBlocks, waitingfor);
      if !halt.Continue? {
        match halt {
          case Full => ScanFull(peer, target, start, h + i + 1, count, inFlight, banned, vBlocks, waitingfor);
          case Rejected => ScanEnds(peer, target, start, h + i, count, inFlight, banned, vBlocks, waitingfor);
          case WindowEnd =>
            ScanStalls(peer, target, start, count, inFlight, banned, vBlocks, waitingfor);
            if |vBlocks| == 0 && waitingfor != peer.id { nodeStaller := waitingfor; }
        }
        done := true;
        return;
      }
    }
  }

  method Plan(peer: Peer, target: BlockIndex, count: nat, inFlight: InFlight, banned: Banned, ghost start: nat)
    returns (vBlocks: seq<BlockIndex>, nodeStaller: NodeId)
    requires target.Rooted() && target.SkipsSet() && TotalsTruthful(target) && |target.Path()| == target.nHeight + 1 && count > 0
    requires peer.pindexLastCommonBlock != null && HereUpTo(target, peer.pindexLastCommonBlock)
    requires start == peer.pindexLastCommonBlock.nHeight < target.nHeight
    modifies peer`pindexLastCommonBlock
    ensures Planned(peer, target, start, count, inFlight, banned, vBlocks, nodeStaller)
  {
    hide Planned, TotalsTruthful, Wanted, FirstAsked, OnPath, BlockIndex.Rooted, BlockIndex.SkipsSet, HereUpTo, Advanced, Rejects, Missing;
    ScanStart(target, start, inFlight, banned, peer.pindexLastCommonBlock);
    var walk := peer.pindexLastCommonBlock.nHeight;
    var nWindowEnd := walk + BLOCK_DOWNLOAD_WINDOW;
    var nMaxHeight := if target.nHeight < nWindowEnd + 1 then target.nHeight else nWindowEnd + 1;
    vBlocks, nodeStaller := [], -1;
    var waitingfor := -1;
    while walk < nMaxHeight
      invariant walk <= nMaxHeight && |vBlocks| < count && nodeStaller == -1
      invariant Scanned(target, start, walk, nWindowEnd, inFlight, banned, vBlocks, waitingfor, peer.pindexLastCommonBlock)
    {
      var want := if count - |vBlocks| > BATCH then count - |vBlocks| else BATCH;
      var nToFetch := if nMaxHeight - walk < want then nMaxHeight - walk else want;
      var vToFetch := Successors(target, walk, nToFetch);
      var done;
      done, vBlocks, waitingfor, nodeStaller :=
        ScanBatch(peer, target, start, walk, vToFetch, nWindowEnd, count, inFlight, banned, vBlocks, waitingfor);
      if done { return; }
      walk := walk + nToFetch;
    }
    ScanEnds(peer, target, start, walk, count, inFlight, banned, vBlocks, waitingfor);
  }

  /** The best block the peer has, or, when it is on another branch than the block the node is locked
    * to, the point where the branches part. */
  ghost predicate TargetFor(best: BlockIndex?, locked: BlockIndex?, target: BlockIndex?) {
    if best == null || locked == null then target == best
    else target != null && if LastCommon(best, locked, locked) then target == best else LastCommon(best, locked, target)
  }

  ghost predicate Usable(b: BlockIndex)
    reads b.Path()`pskip
  {
    b.Rooted() && b.SkipsSet()
  }

  lemma TruthfulBelow(b: BlockIndex, c: BlockIndex)
    requires b.Rooted() && OnPath(b, c)
    ensures c.Rooted() && c.Path()[0] == b.Path()[0] && (TotalsTruthful(b) ==> TotalsTruthful(c))
  {
    b.PathAt(c.nHeight);
    assert forall i | 0 <= i < |c.Path()| :: c.Path()[i] == b.Path()[i];
  }

  method FindTarget(best: BlockIndex?, locked: BlockIndex?) returns (target: BlockIndex?)
    requires best != null ==> Usable(best)
    requires locked != null ==> Usable(locked)
    requires best != null && locked != null ==> ShareAt(best, locked, 0)
    ensures TargetFor(best, locked, target)
    ensures target != null ==> best != null && OnPath(best, target) && Usable(target)
    ensures target != null ==> target.Path()[0] == best.Path()[0] && (TotalsTruthful(best) ==> TotalsTruthful(target))
  {
    target := best;
    if best != null { best.PathAt(best.nHeight); }
    if locked != null && best != null {
      var common := LastCommonAncestor(best, locked);
      ForkOnBoth(best, locked, common);
      if common != locked {
        target := common;
        best.SkipsSetBelow(common.nHeight);
        TruthfulBelow(best, common);
      }
      if LastCommon(best, locked, locked) { LastCommonUnique(best, locked, common, locked); }
    }
  }

  lemma BelowTop(b: BlockIndex, c: BlockIndex)
    requires HereUpTo(b, c)
    ensures |b.Path()| == b.nHeight + 1 && c.nHeight <= b.nHeight && (c.nHeight == b.nHeight <==> c == b)
  {}

  /** The last common block with the target, starting from the previous one or, at first, from a guess. */
  method UpdateLastCommon(peer: Peer, best: BlockIndex, chainActive: Chain) returns (common: BlockIndex)
    requires chainActive.Valid() && chainActive.Tip() != null && HereUpTo(chainActive.Tip(), chainActive.Tip()) && Usable(chainActive.Tip())
    requires Usable(best) && ShareAt(best, chainActive.Tip(), 0)
    requires var last := peer.pindexLastCommonBlock;
             last != null ==> Usable(last) && HereUpTo(last, last) && ShareAt(last, chainActive.Tip(), 0)
    modifies peer`pindexLastCommonBlock
    ensures peer.pindexLastCommonBlock == common && HereUpTo(best, common)
    ensures var last, height := old(peer.pindexLastCommonBlock), chainActive.Height();
            var guess := chainActive.Tip().Path()[if best.nHeight < height then best.nHeight else height];
            LastCommon(if last != null then last else guess, best, common)
  {
    hide LastCommon, OnPath, ShareAt;
    var tip := chainActive.Tip();
    var height := if best.nHeight < chainActive.Height() then best.nHeight else chainActive.Height();
    TipHeight(chainActive);
    Guess(tip, height);
    var last := peer.pindexLastCommonBlock;
    if last == null { last := chainActive.At(height); }
    SharedRoot(last, best, tip);
    RootedBoth(last, best);
    var pa := LastCommonAncestor(last, best);
    ForkOnBoth(last, best, pa);
    HereBelow(last, best, pa);
    common := pa;
    peer.pindexLastCommonBlock := common;
  }

  lemma TipHeight(chain: Chain)
    requires chain.Valid() && chain.Tip() != null && Usable(chain.Tip())
    ensures chain.Height() == chain.Tip().nHeight && |chain.Tip().Path()| == chain.Tip().nHeight + 1
    ensures forall h | 0 <= h <= chain.Height() :: chain.At(h) == chain.Tip().Path()[h]
  {
    chain.Tip().PathAt(chain.Tip().nHeight);
  }

  /** The guess: a block of the active chain, which the node has with all its ancestors. */
  lemma Guess(tip: BlockIndex, height: nat)
    requires Usable(tip) && HereUpTo(tip, tip) && height <= tip.nHeight && |tip.Path()| == tip.nHeight + 1
    ensures var g := tip.Path()[height]; Usable(g) && HereUpTo(g, g) && ShareAt(g, tip, 0)
  {
    var g := tip.Path()[height];
    tip.PathAt(height);
    tip.SkipsSetBelow(height);
    assert g.Path()[0] == tip.Path()[0];
    assert OnPath(tip, g) && OnPath(g, g);
    HereBelow(tip, g, g);
  }

  lemma SharedRoot(a: BlockIndex, b: BlockIndex, tip: BlockIndex)
    requires ShareAt(a, tip, 0) && ShareAt(b, tip, 0)
    ensures ShareAt(a, b, 0)
  {}

  lemma RootedBoth(a: BlockIndex, b: BlockIndex)
    requires Usable(a) && Usable(b)
    ensures a.Rooted() && b.Rooted() && a.SkipsSet() && b.SkipsSet()
  {}

  /** Where the search for the last common block starts: at the previous one or, at first, at a guess. */
  ghost function SearchFrom(last: BlockIndex?, best: BlockIndex, tip: BlockIndex): BlockIndex
    requires |tip.Path()| == tip.nHeight + 1
  {
    if last != null then last else tip.Path()[if best.nHeight < tip.nHeight then best.nHeight else tip.nHeight]
  }

  /** Bring the last common block up to date and list up to count blocks to request. A peer is served when its best block, or
    * the part of its branch that goes along with the locked block, has at least the work of the active chain. */
  method FindNextBlocksToDownload(peer: Peer, count: nat, chainActive: Chain, locked: BlockIndex?, inFlight: InFlight, banned: Banned)
    returns (vBlocks: seq<BlockIndex>, nodeStaller: NodeId, ghost best: BlockIndex?, ghost common: BlockIndex?)
    requires chainActive.Valid() && chainActive.Tip() != null && HereUpTo(chainActive.Tip(), chainActive.Tip()) && Usable(chainActive.Tip())
    requires var best, last := peer.pindexBestKnownBlock, peer.pindexLastCommonBlock;
             && (best != null ==> Usable(best) && TotalsTruthful(best) && ShareAt(best, chainActive.Tip(), 0))
             && (last != null ==> Usable(last) && HereUpTo(last, last) && ShareAt(last, chainActive.Tip(), 0))
             && (locked != null ==> Usable(locked) && ShareAt(locked, chainActive.Tip(), 0))
    modifies peer`pindexLastCommonBlock
    ensures count > 0 ==> TargetFor(peer.pindexBestKnownBlock, locked, best)
    ensures var tip := chainActive.Tip();
            if count > 0 && best != null && best.nChainWork >= tip.nChainWork then
              && |tip.Path()| == tip.nHeight + 1 && |best.Path()| == best.nHeight + 1
              && common != null && LastCommon(SearchFrom(old(peer.pindexLastCommonBlock), best, tip), best, common)
              && if common != best then
                   && common.nHeight < best.nHeight
                   && Planned(peer, best, common.nHeight, count, inFlight, banned, vBlocks, nodeStaller)
                 else vBlocks == [] && nodeStaller == -1 && peer.pindexLastCommonBlock == best && HereUpTo(best, best)
            else vBlocks == [] && nodeStaller == -1 && peer.pindexLastCommonBlock == old(peer.pindexLastCommonBlock)
  {
    hide Planned, TotalsTruthful, TargetFor, LastCommon, HereUpTo, BlockIndex.SkipsSet, BlockIndex.Rooted;
    vBlocks, nodeStaller, best, common := [], -1, null, null;
    if count == 0 { return; }
    TipHeight(chainActive);
    var target := FindTarget(peer.pindexBestKnownBlock, locked);
    best := target;
    if target == null || target.nChainWork < chainActive.Tip().nChainWork { return; }
    var last := UpdateLastCommon(peer, target, chainActive);
    common := last;
    BelowTop(target, last);
    if last == target { return; }
    vBlocks, nodeStaller := Plan(peer, target, count, inFlight, banned, last.nHeight);
  }

  /** In a valid block index the planning may rely on nChainTx, and on the skip pointers. */
  lemma StoreIsTruthful(store: BlockStores.BlockStore, b: BlockIndex)
    requires store.Valid() && b in store.nodes
    ensures Usable(b) && TotalsTruthful(b)
  {
    assert b.Rooted();
    BlockLinks.BranchInside(b, store.nodes);
    store.SkipsSetFor(b);
    forall i, j | 0 <= j <= i < |b.Path()| && b.Path()[i].nChainTx > 0 ensures b.Path()[j].haveData {
      var c := b.Path()[i];
      b.PathAt(i);
      BlockLinks.TotalsExact(store.LinksNow(), c);
      assert c.Path()[j] == b.Path()[j] && c.Path()[j] in c.Path();
    }
  }
}
