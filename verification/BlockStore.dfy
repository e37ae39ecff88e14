/** The block index as an object: headers are registered, block data arrives in any order, and at
  * start-up everything derived is recomputed from what is on disk.
  */
module BlockStores {
  import opened BlockTree
  import opened BlockLinks
  import opened Sequences

  ghost predicate SkipLocally(b: BlockIndex)
    reads b`pskip
  {
    b.Rooted() && (b.nHeight >= 1 ==> b.pskip == b.Path()[GetSkipHeight(b.nHeight)])
  }

  lemma SkipLocalFrom(b: BlockIndex)
    requires b.Rooted() && b.SkipsSet()
    ensures SkipLocally(b)
  {
    b.PathAt(b.nHeight);
  }

  ghost predicate WorkLocally(b: BlockIndex)
    reads b`nChainWork, (if b.pprev == null then {} else {b.pprev})`nChainWork
  {
    b.nChainWork == (if b.pprev == null then 0 else b.pprev.nChainWork) + b.proof
  }

  function SumProof(path: seq<BlockIndex>): nat {
    if path == [] then 0 else SumProof(path[..|path| - 1]) + path[|path| - 1].proof
  }

  /** The index is a forest, filed by hash: every parent is in it. */
  ghost predicate Forest(index: map<nat, BlockIndex>, nodes: set<BlockIndex>) {
    && (forall h | h in index :: index[h] in nodes && index[h].hash == h)
    && (forall b | b in nodes :: b.hash in index && index[b.hash] == b)
    && (forall b {:trigger b.Rooted()} {:trigger b.ancestors} | b in nodes :: b.Rooted()) && Closed(nodes)
  }

  lemma ForestGrows(index: map<nat, BlockIndex>, nodes: set<BlockIndex>, b: BlockIndex)
    requires Forest(index, nodes) && b.hash !in index && b.Rooted() && (b.pprev != null ==> b.pprev in nodes)
    ensures Forest(index[b.hash := b], nodes + {b})
  {}

  class BlockStore {
    var mapBlockIndex: map<nat, BlockIndex>
    var mapBlocksUnlinked: Unlinked
    var nBlockSequenceId: nat
    var candidates: set<BlockIndex>
    var pindexBestHeader: BlockIndex?
    ghost var nodes: set<BlockIndex>   // the blocks in the index

    ghost predicate Tree()
      reads this`mapBlockIndex, this`nodes
    {
      Forest(mapBlockIndex, nodes)
    }

    /** The linking state of the index, as a value. */
    ghost function LinksNow(): Links
      reads this`nodes, this`mapBlocksUnlinked, nodes`haveData, nodes`nTx, nodes`nChainTx
    {
      Links(nodes, set b | b in nodes && b.haveData,
            map b | b in nodes :: b.nTx, map b | b in nodes :: b.nChainTx, mapBlocksUnlinked)
    }

    /** Skip pointers are right on a set of blocks. */
    ghost predicate SkipsOn(blocks: set<BlockIndex>)
      reads blocks`pskip
    {
      forall b {:trigger SkipLocally(b)} | b in blocks :: SkipLocally(b)
    }

    /** Work is accumulated along parents, and pindexBestHeader has the most. */
    ghost predicate WorkOn(blocks: set<BlockIndex>)
      requires Closed(blocks)
      reads this`pindexBestHeader, blocks`nChainWork
    {
      && (forall b {:trigger WorkLocally(b)} | b in blocks :: WorkLocally(b))
      && (if blocks == {} then pindexBestHeader == null
          else pindexBestHeader in blocks && forall b | b in blocks :: b.nChainWork <= pindexBestHeader.nChainWork)
    }

    ghost predicate NoneFailed()
      reads this`nodes, nodes`failed
    {
      forall b {:trigger b.failed} | b in nodes :: !b.failed
    }

    ghost predicate Valid()
      reads this, nodes
    {
      Tree() && SkipsOn(nodes) && WorkOn(nodes) && NoneFailed() && Linking(LinksNow(), [])
    }

    lemma SkipsSetFor(b: BlockIndex)
      requires Tree() && b in nodes && forall c | c in b.Path() :: SkipLocally(c)
      ensures b.Rooted() && b.SkipsSet()
    {
      forall i | 1 <= i <= b.nHeight
        ensures GetSkipHeight(i) < |b.Path()| && b.Path()[i].pskip == b.Path()[GetSkipHeight(i)]
      {
        b.PathAt(i);
        assert SkipLocally(b.Path()[i]);
        assert b.Path()[..i + 1][GetSkipHeight(i)] == b.Path()[GetSkipHeight(i)];
      }
    }

    /** nChainWork is the sum of the proofs along the branch. */
    lemma {:induction false} WorkExact(b: BlockIndex)
      requires Tree() && WorkOn(nodes) && b in nodes
      ensures b.nChainWork == SumProof(b.Path())
      decreases b.nHeight
    {
      assert WorkLocally(b);
      assert b.Path()[..|b.Path()| - 1] == b.ancestors;
      if b.pprev != null {
        assert b.ancestors == b.pprev.Path();
        WorkExact(b.pprev);
      } else {
        assert b.Path() == [b];
      }
    }

    /** What is not written stays: skip pointers and work. */
    twostate lemma DerivedKept(blocks: set<BlockIndex>)
      requires Closed(blocks) && pindexBestHeader == old(pindexBestHeader)
      requires forall b | b in blocks :: b.pskip == old(b.pskip) && b.nChainWork == old(b.nChainWork)
      ensures SkipsOn(blocks) == old(SkipsOn(blocks)) && WorkOn(blocks) == old(WorkOn(blocks))
    {}

    constructor ()
      ensures Valid() && mapBlockIndex == map[]
    {
      mapBlockIndex, mapBlocksUnlinked, nBlockSequenceId, candidates := map[], map[], 0, {};
      pindexBestHeader, nodes := null, {};
    }

    /** Make the entry for a new header and give it its skip pointer. */
    method NewEntry(hash: nat, parent: BlockIndex?, nTime: int, proof: nat) returns (b: BlockIndex)
      requires Tree() && SkipsOn(nodes) && (parent != null ==> parent in nodes)
      ensures fresh(b) && b.Rooted() && SkipLocally(b) && b.hash == hash && b.pprev == parent && b.nTime == nTime && b.proof == proof
      ensures !b.haveData && !b.failed && b.nTx == 0 && b.nChainTx == 0
    {
      if parent != null {
        BranchInside(parent, nodes);
        SkipsSetFor(parent);
      }
      b := new BlockIndex(hash, nTime, proof, parent);
      b.BuildSkip();
      SkipLocalFrom(b);
    }

    /** Register a header; its parent, when known, is already in the index. */
    method AddToBlockIndex(hash: nat, hashPrev: nat, nTime: int, proof: nat) returns (b: BlockIndex)
      requires Valid()
      modifies this`mapBlockIndex, this`nodes, this`pindexBestHeader
      ensures Valid()
      ensures b.hash == hash && mapBlockIndex == old(mapBlockIndex)[hash := b]
      ensures if hash in old(mapBlockIndex) then b == old(mapBlockIndex)[hash]
              else fresh(b) && !b.haveData && b.nTime == nTime && b.proof == proof
                   && b.pprev == (if hashPrev in old(mapBlockIndex) then old(mapBlockIndex)[hashPrev] else null)
    {
      if hash in mapBlockIndex {
        b := mapBlockIndex[hash];
        assert mapBlockIndex[hash := b] == mapBlockIndex;
        return;
      }
      var parent := if hashPrev in mapBlockIndex then mapBlockIndex[hashPrev] else null;
      b := NewEntry(hash, parent, nTime, proof);
      AddEntry(b);
    }

    method AddEntry(b: BlockIndex)
      requires Valid() && b !in nodes && b.hash !in mapBlockIndex && b.Rooted() && (b.pprev != null ==> b.pprev in nodes)
      requires SkipLocally(b) && !b.failed && !b.haveData && b.nTx == 0 && b.nChainTx == 0
      requires forall c | c in nodes :: c.pprev != b
      modifies this`mapBlockIndex, this`nodes, this`pindexBestHeader, b`nChainWork
      ensures Valid() && mapBlockIndex == old(mapBlockIndex)[b.hash := b]
    {
      hide Linking;
      ghost var known := nodes;
      ForestGrows(mapBlockIndex, nodes, b);
      InsertLinked(b);
      DerivedKept(known);
      SetWork(b, known);
    }

    method InsertLinked(b: BlockIndex)
      requires Linking(LinksNow(), []) && forall c | c in nodes :: c.pprev != b
      requires b.hash !in mapBlockIndex && b !in nodes && (b.pprev != null ==> b.pprev in nodes)
      requires !b.haveData && b.nTx == 0 && b.nChainTx == 0
      modifies this`mapBlockIndex, this`nodes
      ensures mapBlockIndex == old(mapBlockIndex)[b.hash := b] && nodes == old(nodes) + {b} && Linking(LinksNow(), [])
    {
      ArriveHeader(LinksNow(), b);
      Insert(b);
    }

    method Insert(b: BlockIndex)
      requires b.hash !in mapBlockIndex && b !in nodes && !b.haveData && b.nTx == 0 && b.nChainTx == 0
      modifies this`mapBlockIndex, this`nodes
      ensures mapBlockIndex == old(mapBlockIndex)[b.hash := b] && nodes == old(nodes) + {b}
      ensures LinksNow() == WithHeader(old(LinksNow()), b)
    {
      mapBlockIndex := mapBlockIndex[b.hash := b];
      nodes := nodes + {b};
    }

    /** Accumulate the work of a block whose parent is done, and keep track of the best header. */
    method SetWork(pindex: BlockIndex, ghost done: set<BlockIndex>)
      requires pindex !in done && (pindex.pprev != null ==> pindex.pprev in done)
      requires Closed(done) && WorkOn(done)
      modifies this`pindexBestHeader, pindex`nChainWork
      ensures WorkOn(done + {pindex}) && LinksNow() == old(LinksNow())
    {
      pindex.nChainWork := (if pindex.pprev != null then pindex.pprev.nChainWork else 0) + pindex.proof;
      if pindexBestHeader == null || pindexBestHeader.nChainWork < pindex.nChainWork { pindexBestHeader := pindex; }
    }

    method SetChainTx(pindex: BlockIndex, n: nat)
      requires pindex in nodes
      modifies pindex`nChainTx
      ensures LinksNow() == old(LinksNow()).(chainTx := old(LinksNow()).chainTx[pindex := n])
    {
      pindex.nChainTx := n;
    }

    /** Link a block: give it its total and its place in the order of arrival. */
    method SetTotal(pindex: BlockIndex)
      requires Shape(LinksNow()) && pindex in nodes
      modifies this`nBlockSequenceId, this`candidates, pindex`nChainTx, pindex`nSequenceId
      ensures var s := old(LinksNow());
              LinksNow() == s.(chainTx := s.chainTx[pindex := ParentTotal(s, pindex) + s.nTx[pindex]])
    {
      assert pindex.pprev != null ==> pindex.pprev in nodes;
      SetChainTx(pindex, (if pindex.pprev != null then pindex.pprev.nChainTx else 0) + pindex.nTx);
      pindex.nSequenceId := nBlockSequenceId;
      nBlockSequenceId := nBlockSequenceId + 1;
      candidates := candidates + {pindex};
    }

    /** Take out of the multimap all children that wait for a block. */
    method Release(pindex: BlockIndex) returns (kids: seq<BlockIndex>)
      modifies this`mapBlocksUnlinked
      ensures kids == Waiting(old(mapBlocksUnlinked), pindex)
      ensures LinksNow() == old(LinksNow()).(unlinked := old(mapBlocksUnlinked) - {pindex})
    {
      kids := [];
      if pindex in mapBlocksUnlinked {
        kids := mapBlocksUnlinked[pindex];
        mapBlocksUnlinked := mapBlocksUnlinked - {pindex};
      } else {
        assert mapBlocksUnlinked - {pindex} == mapBlocksUnlinked;
      }
    }

    /** The worklist: link the blocks of the queue, and those that become eligible on the way. */
    method LinkAll(queue0: seq<BlockIndex>)
      requires Linking(LinksNow(), queue0)
      modifies this`mapBlocksUnlinked, this`nBlockSequenceId, this`candidates, nodes`nChainTx, nodes`nSequenceId
      ensures Linking(LinksNow(), [])
      ensures LinksNow().data == old(LinksNow().data) && LinksNow().nTx == old(LinksNow().nTx)
    {
      var queue := queue0;
      while queue != []
        invariant Linking(LinksNow(), queue)
        invariant LinksNow().data == old(LinksNow().data) && LinksNow().nTx == old(LinksNow().nTx)
        decreases Unreached(LinksNow())
      {
        queue := LinkNext(queue);
      }
    }

    /** Link the first block of the queue and append the children it releases. */
    method LinkOne(pindex: BlockIndex, rest: seq<BlockIndex>) returns (queue': seq<BlockIndex>)
      requires Shape(LinksNow()) && pindex in nodes
      modifies this`mapBlocksUnlinked, this`nBlockSequenceId, this`candidates, pindex`nChainTx, pindex`nSequenceId
      ensures LinksNow() == LinkFirst(old(LinksNow()), pindex)
      ensures queue' == rest + Waiting(old(mapBlocksUnlinked), pindex)
    {
      SetTotal(pindex);
      var kids := Release(pindex);
      queue' := rest + kids;
    }

    /** One round of the worklist. */
    method LinkNext(queue: seq<BlockIndex>) returns (queue': seq<BlockIndex>)
      requires queue != [] && Linking(LinksNow(), queue)
      modifies this`mapBlocksUnlinked, this`nBlockSequenceId, this`candidates, nodes`nChainTx, nodes`nSequenceId
      ensures Linking(LinksNow(), queue') && LinksNow() == LinkFirst(old(LinksNow()), queue[0])
      ensures Unreached(LinksNow()) < old(Unreached(LinksNow()))
    {
      LinkFirstKeeps(LinksNow(), queue);
      queue' := LinkOne(queue[0], queue[1..]);
    }

    method StoreData(pindexNew: BlockIndex, nTx: nat)
      requires Shape(LinksNow()) && pindexNew in nodes
      modifies pindexNew`nTx, pindexNew`haveData, pindexNew`nChainTx
      ensures LinksNow() == WithData(old(LinksNow()), pindexNew, nTx)
    {
      pindexNew.nTx := nTx;
      pindexNew.nChainTx := 0;
      pindexNew.haveData := true;
    }

    method DeliverLinked(b: BlockIndex, nTx: nat)
      requires Linking(LinksNow(), []) && b in nodes && !b.haveData && nTx >= 1 && ParentLinked(LinksNow(), b)
      modifies this`mapBlocksUnlinked, this`nBlockSequenceId, this`candidates
      modifies nodes`nChainTx, nodes`nSequenceId, b`nTx, b`haveData
      ensures Linking(LinksNow(), []) && LinksNow().data == old(LinksNow().data) + {b} && LinksNow().nTx == old(LinksNow().nTx)[b := nTx]
    {
      ArriveLinked(LinksNow(), b, nTx);
      StoreData(b, nTx);
      LinkAll([b]);
    }

    method DeliverWaiting(b: BlockIndex, nTx: nat)
      requires Linking(LinksNow(), []) && b in nodes && !b.haveData && nTx >= 1 && !ParentLinked(LinksNow(), b)
      modifies this`mapBlocksUnlinked, b`nTx, b`haveData, b`nChainTx
      ensures Linking(LinksNow(), []) && LinksNow().data == old(LinksNow().data) + {b} && LinksNow().nTx == old(LinksNow().nTx)[b := nTx]
    {
      ArriveUnlinked(LinksNow(), b, nTx);
      StoreData(b, nTx);
      Wait(b);
    }

    method Deliver(pindexNew: BlockIndex, nTx: nat)
      requires Linking(LinksNow(), []) && NoneFailed() && pindexNew in nodes && !pindexNew.haveData && nTx >= 1
      modifies this`mapBlocksUnlinked, this`nBlockSequenceId, this`candidates
      modifies nodes`nChainTx, nodes`nSequenceId, pindexNew`nTx, pindexNew`haveData
      ensures Linking(LinksNow(), [])
      ensures LinksNow().data == old(LinksNow().data) + {pindexNew}
      ensures LinksNow().nTx == old(LinksNow().nTx)[pindexNew := nTx]
    {
      assert pindexNew.pprev != null ==> pindexNew.pprev in nodes;
      if pindexNew.pprev == null || pindexNew.pprev.nChainTx > 0 {
        DeliverLinked(pindexNew, nTx);
      } else if pindexNew.pprev != null && !pindexNew.pprev.failed {
        DeliverWaiting(pindexNew, nTx);
      }
    }

    /** Data for a block arrives: link it and everything that waited for it, or let it wait. */
    method ReceivedBlockTransactions(pindexNew: BlockIndex, nTx: nat)
      requires Valid() && pindexNew in nodes && !pindexNew.haveData && nTx >= 1
      modifies this`mapBlocksUnlinked, this`nBlockSequenceId, this`candidates
      modifies nodes`nChainTx, nodes`nSequenceId, pindexNew`nTx, pindexNew`haveData
      ensures Valid()
      ensures LinksNow().data == old(LinksNow().data) + {pindexNew}
      ensures LinksNow().nTx == old(LinksNow().nTx)[pindexNew := nTx]
    {
      hide Linking;
      Deliver(pindexNew, nTx);
      DerivedKept(nodes);
    }

    method Wait(b: BlockIndex)
      requires b.pprev != null
      modifies this`mapBlocksUnlinked
      ensures LinksNow() == WithWaiter(old(LinksNow()), b)
    {
      mapBlocksUnlinked := mapBlocksUnlinked[b.pprev := Waiting(mapBlocksUnlinked, b.pprev) + [b]];
    }

    // ---- Start-up ------------------------------------------------------------------------

    /** Recompute the total of one block, or let it wait for its parent. */
    method RestoreTotal(pindex: BlockIndex)
      requires Shape(LinksNow()) && pindex in nodes
      modifies this`mapBlocksUnlinked, pindex`nChainTx
      ensures LinksNow() == RebuildOne(old(LinksNow()), pindex)
    {
      assert pindex.pprev != null ==> pindex.pprev in nodes;
      if pindex.haveData {
        if pindex.pprev != null {
          if pindex.pprev.nChainTx > 0 {
            SetChainTx(pindex, pindex.pprev.nChainTx + pindex.nTx);
          } else {
            SetChainTx(pindex, 0);
            Wait(pindex);
          }
        } else {
          SetChainTx(pindex, pindex.nTx);
        }
      }
    }

    method RestoreSkip(pindex: BlockIndex, ghost done: set<BlockIndex>)
      requires Tree() && done <= nodes && pindex in nodes && pindex !in done && (pindex.pprev != null ==> pindex.pprev in done)
      requires Closed(done) && SkipsOn(done)
      modifies pindex`pskip
      ensures SkipsOn(done + {pindex})
    {
      if pindex.pprev != null {
        assert pindex.pprev.Rooted();
        BranchInside(pindex.pprev, done);
        SkipsSetFor(pindex.pprev);
        pindex.BuildSkip();
        SkipLocalFrom(pindex);
      }
    }

    /** The part of a round that does not concern links. */
    method RestoreDerived(pindex: BlockIndex, ghost done: set<BlockIndex>)
      requires Tree() && done <= nodes && pindex in nodes && pindex !in done && (pindex.pprev != null ==> pindex.pprev in done)
      requires Closed(done)
      requires SkipsOn(done) && WorkOn(done)
      modifies this`pindexBestHeader, pindex`nChainWork, pindex`pskip
      ensures SkipsOn(done + {pindex}) && WorkOn(done + {pindex}) && LinksNow() == old(LinksNow())
    {
      RestoreSkip(pindex, done);
      SetWork(pindex, done);
    }

    method RestoreLinks(pindex: BlockIndex, ghost done: set<BlockIndex>)
      requires pindex in nodes && pindex !in done && (pindex.pprev != null ==> pindex.pprev in done)
      requires Rebuilt(LinksNow(), done)
      modifies this`mapBlocksUnlinked, this`candidates, pindex`nChainTx
      ensures Rebuilt(LinksNow(), done + {pindex})
      ensures LinksNow().data == old(LinksNow().data) && LinksNow().nTx == old(LinksNow().nTx)
    {
      hide RebuildOne, Local, UnlinkedExact, Shape, Closed;
      RebuildOneKeeps(LinksNow(), done, pindex);
      RestoreTotal(pindex);
      if pindex.nChainTx > 0 || pindex.pprev == null { candidates := candidates + {pindex}; }
    }

    /** The round of LoadBlockIndexDB for one block: all blocks of lower height are done. */
    method LoadNext(pindex: BlockIndex, ghost done: set<BlockIndex>)
      requires Tree() && done <= nodes && pindex in nodes && pindex !in done && (pindex.pprev != null ==> pindex.pprev in done)
      requires Rebuilt(LinksNow(), done) && SkipsOn(done) && WorkOn(done)
      modifies this`mapBlocksUnlinked, this`candidates, this`pindexBestHeader
      modifies pindex`nChainTx, pindex`nChainWork, pindex`pskip
      ensures Rebuilt(LinksNow(), done + {pindex}) && SkipsOn(done + {pindex}) && WorkOn(done + {pindex})
      ensures LinksNow().data == old(LinksNow().data) && LinksNow().nTx == old(LinksNow().nTx)
    {
      hide SkipsOn, WorkOn;
      RestoreDerived(pindex, done);
      label L:
      RestoreLinks(pindex, done);
      DerivedKept@L(done + {pindex});
    }

    ghost predicate HeightSorted(sorted: seq<BlockIndex>)
      reads this`nodes
    {
      && Elements(sorted) == nodes && Distinct(sorted)
      && forall i, j | 0 <= i < j < |sorted| :: sorted[i].nHeight <= sorted[j].nHeight
    }

    method LoadAll(sorted: seq<BlockIndex>)
      requires Tree() && HeightSorted(sorted) && Rebuilt(LinksNow(), {}) && pindexBestHeader == null
      modifies this`mapBlocksUnlinked, this`candidates, this`pindexBestHeader
      modifies nodes`nChainTx, nodes`nChainWork, nodes`pskip
      ensures Rebuilt(LinksNow(), nodes) && SkipsOn(nodes) && WorkOn(nodes)
      ensures LinksNow().data == old(LinksNow().data) && LinksNow().nTx == old(LinksNow().nTx)
    {
      ghost var done: set<BlockIndex> := {};
      for i := 0 to |sorted|
        invariant done == Elements(sorted[..i]) && done <= nodes
        invariant Rebuilt(LinksNow(), done) && SkipsOn(done) && WorkOn(done)
        invariant LinksNow().data == old(LinksNow().data) && LinksNow().nTx == old(LinksNow().nTx)
      {
        NextInOrder(sorted, i);
        LoadNext(sorted[i], done);
        done := done + {sorted[i]};
      }
      assert sorted[..|sorted|] == sorted;
    }

    /** From the blocks on disk, sorted by height, recompute work, totals, the multimap of waiting
      * blocks and the skip pointers. */
    method LoadBlockIndex(sorted: seq<BlockIndex>)
      requires Tree() && HeightSorted(sorted) && NoneFailed()
      requires forall b | b in nodes :: b.nChainTx == 0 && (b.haveData ==> b.nTx >= 1)
      requires mapBlocksUnlinked == map[] && pindexBestHeader == null
      modifies this`mapBlocksUnlinked, this`candidates, this`pindexBestHeader
      modifies nodes`nChainTx, nodes`nChainWork, nodes`pskip
      ensures Valid()
      ensures LinksNow().data == old(LinksNow().data) && LinksNow().nTx == old(LinksNow().nTx)
    {
      LoadAll(sorted);
      RebuiltAll(LinksNow());
    }

    /** In order of height, a block comes after its parent. */
    lemma NextInOrder(sorted: seq<BlockIndex>, i: nat)
      requires Tree() && HeightSorted(sorted) && i < |sorted|
      ensures sorted[i] in nodes && sorted[i] !in sorted[..i]
      ensures sorted[i].pprev != null ==> sorted[i].pprev in sorted[..i]
      ensures Elements(sorted[..i + 1]) == Elements(sorted[..i]) + {sorted[i]}
    {
      assert sorted[..i + 1] == sorted[..i] + [sorted[i]];
      assert sorted[i] in nodes && sorted[i].Rooted();
      if sorted[i].pprev != null {
        assert sorted[i].pprev in nodes;
        var j :| 0 <= j < |sorted| && sorted[j] == sorted[i].pprev;
        assert sorted[..i][j] == sorted[j];
      }
    }
  }

  function Elements(s: seq<BlockIndex>): set<BlockIndex> { set b | b in s }
}
