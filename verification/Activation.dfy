/** Making a better branch active: the tip is taken down to the fork and the new blocks are connected
  * in batches, while coins, pool, undo files and the index of the active chain move along.
  */
module Activation {
  import opened Coins
  import opened Sequences
  import opened Rules
  import opened Mempool
  import opened CoinsViews
  import opened TxMemPools
  import PoolChecks
  import opened TxNames
  import opened PoolFunds
  import opened BlockTree
  import opened Chains
  import opened ChainRuns
  import UndoRecords
  import opened UndoDisk
  import opened WornRules

  /** What a block hash commits to: the transactions of the block. */
  type Bodies = nat -> seq<Tx>

  /** The blocks of a branch above genesis. */
  ghost function BranchOf(b: BlockIndex, body: Bodies): seq<Block>
    requires b.Rooted()
    decreases b.nHeight
  {
    if b.pprev == null then [] else BranchOf(b.pprev, body) + [Block(b.hash, body(b.hash))]
  }

  lemma {:induction false} BranchLength(b: BlockIndex, body: Bodies)
    requires b.Rooted()
    ensures |BranchOf(b, body)| == b.nHeight
    decreases b.nHeight
  {
    if b.pprev != null { BranchLength(b.pprev, body); }
  }

  type Files = map<BlockIndex, UndoFile>

  /** The undo data on file reads back as that of the block on the replay of its parent's branch. */
  ghost predicate FilesFit(p: Params, files: Files, body: Bodies)
    requires GoodParams(p)
  {
    forall b {:trigger files[b]} | b in files :: b.Rooted() && UndoFits(p, BranchOf(b, body), files[b])
  }

  /** Every block of the branch above genesis has undo data on file. */
  ghost predicate OnFile(b: BlockIndex, files: Files)
    requires b.Rooted()
    decreases b.nHeight
  {
    b.pprev == null || (b in files && OnFile(b.pprev, files))
  }

  lemma {:induction false} OnFileGrows(b: BlockIndex, files: Files, more: Files)
    requires b.Rooted() && OnFile(b, files) && files.Keys <= more.Keys
    ensures OnFile(b, more)
    decreases b.nHeight
  {
    if b.pprev != null { OnFileGrows(b.pprev, files, more); }
  }

  /** A block that passes all checks on the coins of its parent overwrites no live txid. */
  ghost predicate NoLiveDuplicates(p: Params, b: BlockIndex, body: Bodies)
    requires GoodParams(p) && b.Rooted() && b.pprev != null
  {
    var before := Replay(p, BranchOf(b.pprev, body));
    before.Some? && BlockValid(p, before.value, body(b.hash), b.nHeight)
      && CanApplyAll(before.value, body(b.hash), b.nHeight)
    ==> NoOverwrites(before.value, body(b.hash), b.nHeight)
  }

  // ---- The chain state ---------------------------------------------------------------------

  /** What lies outside the model, for one step: whether the block can be read, what scripts,
    * permissions and assets say about it, a failure after its undo data has been written, whether
    * the node stops for a protocol upgrade, and which of its transactions the pool accepts back. */
  datatype External = External(readable: bool, valid: bool, late: bool, upgrade: bool, readmitted: seq<bool>)

  datatype Outcome = Connected | Invalid | SystemError

  /** All blocks of a branch can be read from disk. */
  ghost predicate Readable(path: seq<BlockIndex>, oracle: BlockIndex -> External) {
    forall i | 0 <= i < |path| :: oracle(path[i]).readable
  }

  datatype Progress = GoOn | Stop | InvalidFound | Failed

  lemma PathStep(start: BlockIndex, tip: BlockIndex, fork: BlockIndex)
    requires start.Rooted() && tip.Rooted() && OnPath(start, tip) && OnPath(tip, fork) && tip != fork
    ensures tip.pprev != null && tip.pprev.Rooted() && tip.pprev.nHeight < tip.nHeight
    ensures OnPath(start, tip.pprev) && OnPath(tip.pprev, fork)
  {
    tip.PathAt(tip.nHeight);
    start.PathAt(tip.nHeight);
    if tip.nHeight > 0 {
      tip.ParentPath();
      tip.pprev.PathAt(tip.pprev.nHeight);
      start.PathAt(tip.nHeight - 1);
    }
  }

  lemma TopOfPath(target: BlockIndex, tip: BlockIndex)
    requires OnPath(target, tip) && tip.nHeight == target.nHeight
    ensures tip == target
  {}

  lemma NotReadable(start: BlockIndex, b: BlockIndex, oracle: BlockIndex -> External)
    requires OnPath(start, b) && !oracle(b).readable
    ensures !Readable(start.Path(), oracle)
  {}

  lemma PathThrough(target: BlockIndex, tip: BlockIndex, fork: BlockIndex)
    requires target.Rooted() && OnPath(target, tip) && OnPath(target, fork) && fork.nHeight <= tip.nHeight
    ensures OnPath(tip, fork)
  {
    target.PathAt(tip.nHeight);
    assert target.Path()[..tip.nHeight + 1][fork.nHeight] == fork;
    tip.PathAt(tip.nHeight);
  }

  /** Consecutive blocks of a branch from just above a height on, topmost first. */
  ghost predicate IsBatch(target: BlockIndex, height: nat, v: seq<BlockIndex>) {
    height + |v| < |target.Path()| && forall k | 0 <= k < |v| :: v[k] == target.Path()[height + |v| - k]
  }

  lemma BatchAt(target: BlockIndex, height: nat, v: seq<BlockIndex>, k: nat)
    requires target.Rooted() && IsBatch(target, height, v) && k < |v|
    ensures OnPath(target, v[k]) && v[k].nHeight == height + |v| - k
  {
    target.PathAt(height + |v| - k);
  }

  /** Everything the steps keep, as a statement about values. The coins are those of the tip's branch,
    * but for records that have been to the disk. */
  ghost predicate Settled(p: Params, body: Bodies, names: Names, tip: BlockIndex, coins: View, pool: Pool, files: Files)
    requires GoodParams(p)
  {
    && tip.Rooted()
    && Shows(p, BranchOf(tip, body), coins)
    && FilesFit(p, files, body) && OnFile(tip, files)
    && Consistent(pool, coins) && PoolNamed(names, pool)
    && tip.nHeight < UndoRecords.WORD / 2 && Payable(p, pool, coins, tip.nHeight + 1)
  }

  /** All blocks and the pool take their transactions from the same names. */
  ghost predicate AllNamed(names: Names, body: Bodies) { forall h :: BlockNamed(names, body(h)) }

  lemma {:induction false} NamedReplay(p: Params, body: Bodies, names: Names, b: BlockIndex)
    requires GoodParams(p) && b.Rooted() && AllNamed(names, body) && Replay(p, BranchOf(b, body)).Some?
    ensures CoinsNamed(names, Replay(p, BranchOf(b, body)).value)
    decreases b.nHeight
  {
    hide BlockValid, CanApplyAll, NoOverwrites, ApplyAll, BlockNamed, CoinsNamed;
    BranchLength(b, body);
    if b.pprev != null {
      assert Init(BranchOf(b, body)) == BranchOf(b.pprev, body);
      NamedReplay(p, body, names, b.pprev);
      assert BlockNamed(names, body(b.hash));
      NamedApplyAll(names, Replay(p, BranchOf(b.pprev, body)).value, body(b.hash), b.nHeight);
    } else {
      NamedNone(names);
    }
  }

  /** The coins as they are shown hold the transactions of those names. */
  lemma ShownNamed(p: Params, body: Bodies, names: Names, b: BlockIndex, coins: View)
    requires GoodParams(p) && b.Rooted() && AllNamed(names, body) && Shows(p, BranchOf(b, body), coins)
    ensures CoinsNamed(names, coins)
  {
    hide AllNamed, CoinsNamed, WornView, BranchOf, Replay;
    var r := Replay(p, BranchOf(b, body)).value;
    var s: set<TxId> :| coins == WornView(r, s);
    NamedReplay(p, body, names, b);
    NamedWorn(names, r, s);
  }

  lemma OnlyAboveGenesis(p: Params, body: Bodies, names: Names, tip: BlockIndex, coins: View, pool: Pool, files: Files)
    requires GoodParams(p) && Settled(p, body, names, tip, coins, pool, files)
    ensures tip.Rooted() && (tip in files <==> tip.pprev != null)
  {}

  lemma TakeOffSettled(p: Params, body: Bodies, names: Names, tip: BlockIndex, coins: View, pool: Pool, files: Files, verdicts: seq<bool>)
    requires GoodParams(p) && Settled(p, body, names, tip, coins, pool, files) && tip.pprev != null
    requires AllNamed(names, body) && |verdicts| == |body(tip.hash)|
    ensures tip in files && ReadUndo(files[tip]).Some?
    ensures var vtx := body(tip.hash);
            var d := Disconnect(coins, vtx, ReadUndo(files[tip]).value, tip.nHeight);
            && d.Undone? && d.rollback.clean
            && var v := d.rollback.view;
               Settled(p, body, names, tip.pprev, v,
                       RemoveCoinbaseSpends(Resurrect(p, pool, v, tip.nHeight, vtx, verdicts), v, tip.nHeight, p.maturity), files)
  {
    hide Disconnect, ReadUndo, Consistent, Shows, UndoFits, Resurrect, RemoveCoinbaseSpends, BlockValid, CanApplyAll, NoOverwrites,
         ApplyAll, NoCollision, BlockNamed, Payable, CoinsNamed;
    var chain, vtx := BranchOf(tip, body), body(tip.hash);
    BranchLength(tip, body);
    BranchLength(tip.pprev, body);
    assert Init(chain) == BranchOf(tip.pprev, body) && Last(chain).vtx == vtx;
    assert UndoFits(p, chain, files[tip]);
    RollBackExact(p, chain, coins, files[tip]);
    var v := Disconnect(coins, vtx, ReadUndo(files[tip]).value, tip.nHeight).rollback.view;
    assert BlockNamed(names, vtx);
    ShownNamed(p, body, names, tip, coins);
    ShownNamed(p, body, names, tip.pprev, v);
    PoolTakenBack(p, names, chain, coins, v, pool, verdicts);
  }

  lemma PoolTakenBack(p: Params, names: Names, chain: seq<Block>, after: View, v: View, pool: Pool, verdicts: seq<bool>)
    requires GoodParams(p) && chain != [] && TakesBack(p, chain, after, v) && |chain| < UndoRecords.WORD / 2
    requires Consistent(pool, after) && PoolNamed(names, pool) && BlockNamed(names, Last(chain).vtx) && |verdicts| == |Last(chain).vtx|
    requires CoinsNamed(names, after) && CoinsNamed(names, v) && Payable(p, pool, after, |chain| + 1)
    ensures var back := RemoveCoinbaseSpends(Resurrect(p, pool, v, |chain|, Last(chain).vtx, verdicts), v, |chain|, p.maturity);
            Consistent(back, v) && PoolNamed(names, back) && Payable(p, back, v, |chain|)
  {
    hide Consistent, Shows, BlockValid, CanApplyAll, NoOverwrites, ApplyAll, Resurrect, NoCollision, SameOffers, BlockNamed, CoinsNamed,
         Payable, GoodView, HeightsBelow;
    var vtx, height := Last(chain).vtx, |chain|;
    NamedNoCollision(names, pool, vtx);
    ConsistentTurned(pool, after, ApplyAll(v, vtx, height));
    DisconnectBlockKeeps(p, pool, v, vtx, height, verdicts);
    NamedResurrect(names, p, pool, v, height, vtx, verdicts);
    var back := Resurrect(p, pool, v, height, vtx, verdicts);
    RemoveCoinbaseSpendsKeeps(back, v, height, p.maturity);
    NamedSome(names, back, RemoveCoinbaseSpends(back, v, height, p.maturity));
    ShownGood(p, Init(chain), v);
    TakeOffPayable(p, names, pool, after, v, vtx, height, verdicts);
  }

  lemma FilesFitMore(p: Params, body: Bodies, files: Files, b: BlockIndex, us: seq<TxUndo>)
    requires GoodParams(p) && FilesFit(p, files, body) && b.Rooted() && UndoFits(p, BranchOf(b, body), WriteUndo(us))
    ensures FilesFit(p, WithFile(files, b, us), body)
  {
    hide UndoFits, BranchOf;
  }

  lemma ConnectFiles(p: Params, body: Bodies, b: BlockIndex, coins: View, files: Files)
    requires GoodParams(p) && b.Rooted() && b.pprev != null && b.nHeight < UndoRecords.WORD / 2 && Shows(p, BranchOf(b.pprev, body), coins)
    requires FilesFit(p, files, body) && OnFile(b.pprev, files)
    requires Fits(p, coins, body(b.hash), b.nHeight)
    ensures var more := WithFile(files, b, BlockUndoOf(coins, body(b.hash), b.nHeight));
            && FilesFit(p, more, body) && OnFile(b.pprev, more) && OnFile(b, more)
            && Shows(p, BranchOf(b, body), ApplyAll(coins, body(b.hash), b.nHeight))
  {
    hide FilesFit, Shows, UndoFits, BlockValid, CanApplyAll, NoOverwrites, ApplyAll, UndoOfAll, WriteUndo;
    SomeTxs(p, coins, body(b.hash), b.nHeight);
    var us := BlockUndoOf(coins, body(b.hash), b.nHeight);
    BranchLength(b.pprev, body);
    ShownExtend(p, BranchOf(b.pprev, body), Block(b.hash, body(b.hash)), coins);
    FilesFitMore(p, body, files, b, us);
    OnFileGrows(b.pprev, files, WithFile(files, b, us));
  }

  /** What NoLiveDuplicates says of the replay holds of the coins as they are shown. */
  lemma ShownNoDuplicates(p: Params, body: Bodies, b: BlockIndex, coins: View)
    requires GoodParams(p) && b.Rooted() && b.pprev != null && Shows(p, BranchOf(b.pprev, body), coins)
    requires NoLiveDuplicates(p, b, body)
    requires BlockValid(p, coins, body(b.hash), b.nHeight) && CanApplyAll(coins, body(b.hash), b.nHeight)
    ensures NoOverwrites(coins, body(b.hash), b.nHeight)
  {
    hide BlockValid, CanApplyAll, NoOverwrites, WornView, BranchOf;
    var r := Replay(p, BranchOf(b.pprev, body)).value;
    var s: set<TxId> :| coins == WornView(r, s);
    BlockValidWorn(p, r, s, body(b.hash), b.nHeight);
    ApplyAllWorn(r, s, body(b.hash), b.nHeight);
  }

  lemma ConnectPool(p: Params, names: Names, coins: View, pool: Pool, vtx: seq<Tx>, height: nat)
    requires Consistent(pool, coins) && PoolNamed(names, pool) && BlockNamed(names, vtx) && CoinsNamed(names, coins)
    requires CheckBlock(vtx) && CanApplyAll(coins, vtx, height) && NoOverwrites(coins, vtx, height) && Payable(p, pool, coins, height)
    ensures var left, w := RemoveForBlock(pool, vtx), ApplyAll(coins, vtx, height);
            Consistent(left, w) && PoolNamed(names, left) && Payable(p, left, w, height + 1)
  {
    hide Consistent, CanApplyAll, NoOverwrites, ApplyAll, BlockNamed, CoinsNamed, Payable, NoCollision, CheckBlock;
    NamedNoCollision(names, pool, vtx);
    ConnectBlockKeeps(pool, coins, vtx, height);
    NamedRemoveForBlock(names, pool, vtx);
    ConnectPayable(p, names, pool, coins, vtx, height);
  }

  lemma ConnectSettled(p: Params, body: Bodies, names: Names, b: BlockIndex, coins: View, pool: Pool, files: Files)
    requires GoodParams(p) && b.Rooted() && b.pprev != null && Settled(p, body, names, b.pprev, coins, pool, files)
    requires AllNamed(names, body) && NoLiveDuplicates(p, b, body) && b.nHeight < UndoRecords.WORD / 2
    requires BlockValid(p, coins, body(b.hash), b.nHeight) && CanApplyAll(coins, body(b.hash), b.nHeight)
    ensures var vtx := body(b.hash);
            var more := WithFile(files, b, BlockUndoOf(coins, vtx, b.nHeight));
            && Settled(p, body, names, b.pprev, coins, pool, more)
            && Settled(p, body, names, b, ApplyAll(coins, vtx, b.nHeight), RemoveForBlock(pool, vtx), more)
  {
    hide Shows, FilesFit, BlockValid, CanApplyAll, NoOverwrites, ApplyAll, UndoOfAll, Consistent, NoLiveDuplicates, BranchOf, WriteUndo,
         RemoveForBlock, WithFile, BlockNamed, CoinsNamed, Payable, CheckBlock;
    assert BlockNamed(names, body(b.hash));
    ShownNamed(p, body, names, b.pprev, coins);
    ShownNoDuplicates(p, body, b, coins);
    ConnectFiles(p, body, b, coins, files);
    SomeTxs(p, coins, body(b.hash), b.nHeight);
    ConnectPool(p, names, coins, pool, body(b.hash), b.nHeight);
  }

  lemma AcceptSettled(p: Params, body: Bodies, names: Names, tip: BlockIndex, coins: View, pool: Pool, files: Files, tx: Tx)
    requires GoodParams(p) && Settled(p, body, names, tip, coins, pool, files) && AllNamed(names, body)
    requires Acceptable(p, pool, coins, tip.nHeight + 1, tx) && names(tx.hash) == tx
    ensures Settled(p, body, names, tip, coins, pool[tx.hash := tx], files)
  {
    hide Shows, FilesFit, OnFile, Consistent, BranchOf, Payable, CoinsNamed, AllNamed, Acceptable;
    ShownNamed(p, body, names, tip, coins);
    AcceptKeeps(p, pool, coins, tip.nHeight + 1, tx);
    AcceptPayable(p, names, pool, coins, tip.nHeight + 1, tx);
  }

  lemma ReloadSettled(p: Params, body: Bodies, names: Names, tip: BlockIndex, coins: View, pool: Pool, files: Files, ids: set<TxId>)
    requires GoodParams(p) && Settled(p, body, names, tip, coins, pool, files) && AllNamed(names, body)
    ensures Settled(p, body, names, tip, WornView(coins, ids), pool, files)
  {
    hide FilesFit, OnFile, Consistent, WornView, BranchOf, Replay, Payable, CoinsNamed, AllNamed;
    var r := Replay(p, BranchOf(tip, body)).value;
    var s: set<TxId> :| coins == WornView(r, s);
    WornTwice(r, s, ids);
    ConsistentWorn(pool, coins, ids);
    ShownNamed(p, body, names, tip, coins);
    WornPayable(p, names, pool, coins, ids, tip.nHeight + 1);
  }

  /** In every state reached, where pool and coins hold the same txid it is the same transaction. */
  lemma SettledAgrees(p: Params, body: Bodies, names: Names, tip: BlockIndex, coins: View, pool: Pool, files: Files)
    requires GoodParams(p) && Settled(p, body, names, tip, coins, pool, files) && AllNamed(names, body)
    ensures PoolChecks.Agrees(pool, coins)
  {
    hide Shows, FilesFit, OnFile, BranchOf, Payable, CoinsNamed, AllNamed, MemAvailable;
    ShownNamed(p, body, names, tip, coins);
    NamedAgrees(names, pool, coins);
  }

  class ChainState {
    const params: Params
    const body: Bodies
    ghost const names: Names
    const pcoinsTip: CoinsView
    const mempool: TxMemPool
    const chainActive: Chain
    var undoFiles: Files

    /** A genesis block is active, and the coins are those of the tip. */
    ghost predicate Valid()
      reads this, chainActive, pcoinsTip, mempool
    {
      && GoodParams(params) && chainActive.Valid() && mempool.Valid() && chainActive.Tip() != null
      && AllNamed(names, body)
      && Settled(params, body, names, chainActive.Tip(), pcoinsTip.coins, mempool.mapTx, undoFiles)
    }

    /** The state once the genesis block, which adds no coins, has been made active. */
    constructor (params: Params, body: Bodies, ghost names: Names, genesis: BlockIndex)
      requires GoodParams(params) && genesis.Rooted() && genesis.pprev == null && AllNamed(names, body)
      ensures Valid() && chainActive.Tip() == genesis && fresh(chainActive) && fresh(pcoinsTip) && fresh(mempool)
      ensures this.params == params && this.body == body && this.names == names
    {
      this.params, this.body, this.names := params, body, names;
      pcoinsTip := new CoinsView(map[]);
      mempool := new TxMemPool();
      chainActive := new Chain();
      undoFiles := map[];
      new;
      chainActive.SetTip(genesis);
      WornNone(map[]);
    }

    /** Roll a block back on a scratch view, and keep the result only when it is clean. */
    method RollBack(vtx: seq<Tx>, us: seq<TxUndo>, height: nat) returns (ok: bool)
      modifies pcoinsTip`coins
      ensures var d := Disconnect(old(pcoinsTip.coins), vtx, us, height);
              && (ok <==> d.Undone? && d.rollback.clean)
              && pcoinsTip.coins == if ok then d.rollback.view else old(pcoinsTip.coins)
    {
      var view := new CoinsView(pcoinsTip.coins);
      var done, clean := view.DisconnectBlock(vtx, us, height);
      ok := done && clean;
      if ok { pcoinsTip.coins := view.coins; }
    }

    /** The transactions of a disconnected block go back to the pool; spends that are now too early leave it. */
    method RefillPool(vtx: seq<Tx>, height: nat, verdicts: seq<bool>)
      requires mempool.Valid() && |verdicts| == |vtx|
      modifies mempool`mapTx, mempool`mapNextTx, mempool`totalTxSize
      ensures mempool.Valid()
      ensures var v := pcoinsTip.coins;
              mempool.mapTx == RemoveCoinbaseSpends(Resurrect(params, old(mempool.mapTx), v, height, vtx, verdicts), v, height, params.maturity)
    {
      mempool.ResurrectBlock(params, pcoinsTip.coins, height, vtx, verdicts);
      mempool.RemoveImmature(pcoinsTip.coins, height, params.maturity);
    }

    method TakeOff(pindexDelete: BlockIndex, vtx: seq<Tx>, us: seq<TxUndo>, verdicts: seq<bool>) returns (ok: bool)
      requires chainActive.Valid() && mempool.Valid() && chainActive.Tip() == pindexDelete && |verdicts| == |vtx|
      requires pindexDelete.Rooted()
      modifies chainActive`vChain, pcoinsTip`coins, mempool`mapTx, mempool`mapNextTx, mempool`totalTxSize
      ensures chainActive.Valid() && mempool.Valid()
      ensures var d := Disconnect(old(pcoinsTip.coins), vtx, us, pindexDelete.nHeight);
              && (ok <==> d.Undone? && d.rollback.clean)
              && (ok ==> pcoinsTip.coins == d.rollback.view && chainActive.Tip() == pindexDelete.pprev &&
                         var v, height := d.rollback.view, pindexDelete.nHeight;
                         var back := Resurrect(params, old(mempool.mapTx), v, height, vtx, verdicts);
                         mempool.mapTx == RemoveCoinbaseSpends(back, v, height, params.maturity))
              && (!ok ==> pcoinsTip.coins == old(pcoinsTip.coins) && unchanged(chainActive) && unchanged(mempool))
    {
      ok := RollBack(vtx, us, pindexDelete.nHeight);
      if ok {
        RefillPool(vtx, pindexDelete.nHeight, verdicts);
        chainActive.SetTip(pindexDelete.pprev);
      }
    }

    /** Take the tip off. It works for every block but genesis, if the block can be read. */
    method DisconnectTip(e: External) returns (ok: bool)
      requires Valid()
      modifies chainActive`vChain, pcoinsTip`coins, mempool`mapTx, mempool`mapNextTx, mempool`totalTxSize
      ensures Valid()
      ensures ok <==> e.readable && old(chainActive.Tip()).pprev != null
      ensures chainActive.Tip() == if ok then old(chainActive.Tip()).pprev else old(chainActive.Tip())
      ensures !ok ==> pcoinsTip.coins == old(pcoinsTip.coins) && mempool.mapTx == old(mempool.mapTx)
      ensures ok ==> var v, tip := pcoinsTip.coins, old(chainActive.Tip());
                     var pool := Resurrect(params, old(mempool.mapTx), v, tip.nHeight, body(tip.hash), Verdicts(e.readmitted, |body(tip.hash)|));
                     mempool.mapTx == RemoveCoinbaseSpends(pool, v, tip.nHeight, params.maturity)
    {
      hide Settled;
      var pindexDelete := chainActive.Tip();
      if !e.readable { return false; }
      var vtx := body(pindexDelete.hash);
      var verdicts := Verdicts(e.readmitted, |vtx|);
      OnlyAboveGenesis(params, body, names, pindexDelete, pcoinsTip.coins, mempool.mapTx, undoFiles);
      if pindexDelete.pprev != null {
        TakeOffSettled(params, body, names, pindexDelete, pcoinsTip.coins, mempool.mapTx, undoFiles, verdicts);
      }
      if pindexDelete !in undoFiles { return false; }
      var us := ReadUndo(undoFiles[pindexDelete]);
      if us.None? { return false; }
      ok := TakeOff(pindexDelete, vtx, us.value, verdicts);
    }

    /** Check a block on a scratch view; undo data is written only the first time it is connected. */
    method ConnectBlock(pindexNew: BlockIndex, vtx: seq<Tx>, e: External) returns (ok: bool, coins: View)
      requires GoodParams(params)
      modifies this`undoFiles
      ensures var v, height := pcoinsTip.coins, pindexNew.nHeight;
              if e.valid && BlockValid(params, v, vtx, height) then
                && CanApplyAll(v, vtx, height) && ok == !e.late && coins == ApplyAll(v, vtx, height)
                && undoFiles == WithFile(old(undoFiles), pindexNew, BlockUndoOf(v, vtx, height))
              else !ok && undoFiles == old(undoFiles)
    {
      var view := new CoinsView(pcoinsTip.coins);
      var us;
      ok, us := view.ConnectBlock(params, vtx, pindexNew.nHeight, e.valid);
      coins := view.coins;
      if ok {
        undoFiles := WithFile(undoFiles, pindexNew, us);
        ok := !e.late;
      }
    }

    method PutOn(pindexNew: BlockIndex, vtx: seq<Tx>, coins: View)
      requires chainActive.Valid() && mempool.Valid() && pindexNew.Rooted()
      modifies chainActive`vChain, pcoinsTip`coins, mempool`mapTx, mempool`mapNextTx, mempool`totalTxSize
      ensures chainActive.Valid() && mempool.Valid() && chainActive.Tip() == pindexNew
      ensures pcoinsTip.coins == coins && mempool.mapTx == RemoveForBlock(old(mempool.mapTx), vtx)
    {
      pcoinsTip.coins := coins;
      mempool.RemoveBlock(vtx);
      chainActive.SetTip(pindexNew);
    }

    /** Connect a child of the tip. Whatever goes wrong, coins, pool and tip stay as they were. */
    method ConnectTip(pindexNew: BlockIndex, e: External) returns (r: Outcome)
      requires Valid() && pindexNew.Rooted() && pindexNew.pprev == chainActive.Tip()
      requires NoLiveDuplicates(params, pindexNew, body) && pindexNew.nHeight < UndoRecords.WORD / 2
      modifies this`undoFiles, chainActive`vChain, pcoinsTip`coins, mempool`mapTx, mempool`mapNextTx, mempool`totalTxSize
      ensures Valid()
      ensures r.Connected? <==> e.readable && e.valid && !e.late && BlockValid(params, old(pcoinsTip.coins), body(pindexNew.hash), pindexNew.nHeight)
      ensures r.SystemError? <==> !e.readable
      ensures chainActive.Tip() == if r.Connected? then pindexNew else old(chainActive.Tip())
      ensures !r.Connected? ==> pcoinsTip.coins == old(pcoinsTip.coins) && mempool.mapTx == old(mempool.mapTx)
      ensures r.Connected? ==> mempool.mapTx == RemoveForBlock(old(mempool.mapTx), body(pindexNew.hash))
    {
      hide Settled;
      if !e.readable { return SystemError; }
      var vtx := body(pindexNew.hash);
      ghost var files := undoFiles;
      var ok, coins := ConnectBlock(pindexNew, vtx, e);
      if e.valid && BlockValid(params, pcoinsTip.coins, vtx, pindexNew.nHeight) {
        ConnectSettled(params, body, names, pindexNew, pcoinsTip.coins, mempool.mapTx, files);
      }
      if !ok { return Invalid; }
      PutOn(pindexNew, vtx, coins);
      r := Connected;
    }

    /** Coins that have been flushed are read back from the database. */
    method Reload(ids: set<TxId>)
      requires Valid()
      modifies pcoinsTip`coins
      ensures Valid() && pcoinsTip.coins == WornView(old(pcoinsTip.coins), ids)
    {
      hide Settled;
      ReloadSettled(params, body, names, chainActive.Tip(), pcoinsTip.coins, mempool.mapTx, undoFiles, ids);
      pcoinsTip.coins := WornView(pcoinsTip.coins, ids);
    }

    /** The self-check of the pool passes in every state reached. */
    method CheckPool(ghost rank: TxId -> nat) returns (ok: bool)
      requires Valid() && PoolChecks.Ranked(mempool.mapTx, rank)
      ensures ok
    {
      SettledAgrees(params, body, names, chainActive.Tip(), pcoinsTip.coins, mempool.mapTx, undoFiles);
      ok := mempool.Check(params, pcoinsTip.coins, chainActive.Tip().nHeight + 1, rank);
    }

    /** A loose transaction enters the pool when it fits pool and coins. */
    method Accept(tx: Tx, externalOk: bool) returns (ok: bool)
      requires Valid() && names(tx.hash) == tx
      modifies mempool`mapTx, mempool`mapNextTx, mempool`totalTxSize
      ensures Valid() && (ok <==> externalOk && Acceptable(params, old(mempool.mapTx), pcoinsTip.coins, chainActive.Tip().nHeight + 1, tx))
      ensures mempool.mapTx == if ok then old(mempool.mapTx)[tx.hash := tx] else old(mempool.mapTx)
    {
      hide Settled, Acceptable;
      if Acceptable(params, mempool.mapTx, pcoinsTip.coins, chainActive.Tip().nHeight + 1, tx) {
        AcceptSettled(params, body, names, chainActive.Tip(), pcoinsTip.coins, mempool.mapTx, undoFiles, tx);
      }
      ok := mempool.AcceptToMemoryPool(params, pcoinsTip.coins, chainActive.Tip().nHeight + 1, tx, externalOk);
    }

    ghost predicate Admissible(b: BlockIndex)
      requires GoodParams(params)
    {
      b.Rooted() && b.pprev != null && b.nHeight < UndoRecords.WORD / 2 && NoLiveDuplicates(params, b, body)
    }

    /** The blocks of a branch can be considered for connection. */
    ghost predicate Eligible(target: BlockIndex)
      requires GoodParams(params)
    {
      && target.Rooted()
      && forall i {:trigger Admissible(target.Path()[i])} | 1 <= i < |target.Path()| :: Admissible(target.Path()[i])
    }

    lemma TipRooted()
      requires Valid()
      ensures chainActive.Tip().Rooted()
    {}

    /** Take one block above the fork off. */
    method DisconnectOne(fork: BlockIndex, e: External, ghost start: BlockIndex) returns (ok: bool)
      requires Valid() && chainActive.Tip() != fork && OnPath(chainActive.Tip(), fork)
      requires start.Rooted() && OnPath(start, chainActive.Tip())
      modifies chainActive`vChain, pcoinsTip`coins, mempool`mapTx, mempool`mapNextTx, mempool`totalTxSize
      ensures Valid() && OnPath(chainActive.Tip(), fork) && OnPath(start, chainActive.Tip())
      ensures if ok then chainActive.Tip().nHeight < old(chainActive.Tip()).nHeight else !e.readable && chainActive.Tip() == old(chainActive.Tip())
    {
      hide Settled, BlockIndex.Rooted;
      var tip := chainActive.Tip();
      TipRooted();
      PathStep(start, tip, fork);
      hide OnPath;
      ok := DisconnectTip(e);
    }

    /** Take blocks off until the fork is the tip. */
    method DisconnectTo(fork: BlockIndex, oracle: BlockIndex -> External) returns (ok: bool)
      requires Valid() && OnPath(chainActive.Tip(), fork)
      modifies chainActive`vChain, pcoinsTip`coins, mempool`mapTx, mempool`mapNextTx, mempool`totalTxSize
      ensures Valid() && OnPath(chainActive.Tip(), fork) && OnPath(old(chainActive.Tip()), chainActive.Tip())
      ensures if ok then chainActive.Tip() == fork else !oracle(chainActive.Tip()).readable
    {
      ghost var start := chainActive.Tip();
      TipRooted();
      start.PathAt(start.nHeight);
      hide Settled, OnPath, BlockIndex.Rooted;
      while chainActive.Tip() != fork
        invariant Valid() && OnPath(chainActive.Tip(), fork) && OnPath(start, chainActive.Tip())
        decreases chainActive.Tip().nHeight
      {
        ok := DisconnectOne(fork, oracle(chainActive.Tip()), start);
        if !ok { return; }
      }
      ok := true;
    }

    /** Take the tip down to the fork; the block index is not touched. */
    method Retreat(target: BlockIndex, fork: BlockIndex, oracle: BlockIndex -> External) returns (ok: bool)
      requires Valid() && OnPath(chainActive.Tip(), fork) && target.Rooted() && target.SkipsSet()
      modifies chainActive`vChain, pcoinsTip`coins, mempool`mapTx, mempool`mapNextTx, mempool`totalTxSize
      ensures Valid() && target.SkipsSet() && OnPath(chainActive.Tip(), fork) && OnPath(old(chainActive.Tip()), chainActive.Tip())
      ensures if ok then chainActive.Tip() == fork else !Readable(old(chainActive.Tip()).Path(), oracle)
    {
      hide Settled, BlockIndex.Rooted, OnPath, Readable;
      ghost var start := chainActive.Tip();
      ok := DisconnectTo(fork, oracle);
      if !ok { NotReadable(start, chainActive.Tip(), oracle); }
    }

    /** The blocks of a branch above one height up to another, topmost first. */
    method BlocksBetween(target: BlockIndex, nHeight: nat, nTargetHeight: nat) returns (v: seq<BlockIndex>)
      requires target.Rooted() && target.SkipsSet() && nHeight <= nTargetHeight <= target.nHeight
      ensures |v| == nTargetHeight - nHeight && IsBatch(target, nHeight, v)
    {
      v := [];
      target.PathAt(nTargetHeight);
      var pindexIter := target.GetAncestor(nTargetHeight);
      while pindexIter != null && pindexIter.nHeight != nHeight
        invariant pindexIter != null && |target.Path()| == target.nHeight + 1
        invariant |v| <= nTargetHeight - nHeight && pindexIter == target.Path()[nTargetHeight - |v|]
        invariant pindexIter.nHeight == nTargetHeight - |v|
        invariant forall k | 0 <= k < |v| :: v[k] == target.Path()[nTargetHeight - k]
        decreases nTargetHeight - |v|
      {
        target.PathAt(pindexIter.nHeight);
        target.PathAt(pindexIter.nHeight - 1);
        v := v + [pindexIter];
        pindexIter := pindexIter.pprev;
      }
    }

    /** The next block of the target's branch can not be connected to the present tip. */
    ghost predicate Blocked(target: BlockIndex, oracle: BlockIndex -> External)
      requires GoodParams(params)
      reads this, chainActive, pcoinsTip
    {
      var tip := chainActive.Tip();
      && tip != null && tip.nHeight + 1 < |target.Path()|
      && var c := target.Path()[tip.nHeight + 1];
         !(oracle(c).valid && !oracle(c).late && BlockValid(params, pcoinsTip.coins, body(c.hash), c.nHeight))
    }

    /** Connect the block above the tip on the way to the target, and decide whether to go on. */
    method ConnectNext(target: BlockIndex, pindexConnect: BlockIndex, oldWork: nat, oracle: BlockIndex -> External) returns (next: Progress)
      requires Valid() && Eligible(target) && OnPath(target, chainActive.Tip()) && OnPath(target, pindexConnect)
      requires pindexConnect.nHeight == chainActive.Tip().nHeight + 1
      modifies this`undoFiles, chainActive`vChain, pcoinsTip`coins, mempool`mapTx, mempool`mapNextTx, mempool`totalTxSize
      ensures Valid()
      ensures chainActive.Tip() == if next.GoOn? || next.Stop? then pindexConnect else old(chainActive.Tip())
      ensures next.Stop? ==> pindexConnect.nChainWork > oldWork || oracle(pindexConnect).upgrade
      ensures next.InvalidFound? ==> Blocked(target, oracle)
      ensures next.Failed? ==> !oracle(pindexConnect).readable
    {
      assert Admissible(target.Path()[pindexConnect.nHeight]);
      target.PathAt(pindexConnect.nHeight);
      var r := ConnectTip(pindexConnect, oracle(pindexConnect));
      match r
      case SystemError => next := Failed;
      case Invalid => next := InvalidFound;
      case Connected => next := if pindexConnect.nChainWork > oldWork || oracle(pindexConnect).upgrade then Stop else GoOn;
    }

    /** What may be said of the tip after moving towards the target. */
    ghost predicate Moved(target: BlockIndex, floor: nat, oldWork: nat, oracle: BlockIndex -> External, next: Progress)
      requires GoodParams(params) && chainActive.Tip() != null
      reads this, chainActive, chainActive.Tip()`nChainWork, pcoinsTip
    {
      var tip := chainActive.Tip();
      && OnPath(target, tip) && floor <= tip.nHeight
      && match next
         case GoOn => true
         case Stop => tip.nChainWork > oldWork || oracle(tip).upgrade
         case InvalidFound => Blocked(target, oracle)
         case Failed => !Readable(target.Path(), oracle)
    }

    /** Connect a batch, listed topmost first, from its lowest block upwards. */
    method ConnectBatch(target: BlockIndex, v: seq<BlockIndex>, oldWork: nat, oracle: BlockIndex -> External) returns (next: Progress)
      requires Valid() && Eligible(target) && OnPath(target, chainActive.Tip()) && IsBatch(target, chainActive.Tip().nHeight, v)
      modifies this`undoFiles, chainActive`vChain, pcoinsTip`coins, mempool`mapTx, mempool`mapNextTx, mempool`totalTxSize
      ensures Valid() && Moved(target, old(chainActive.Tip()).nHeight, oldWork, oracle, next)
      ensures next.GoOn? ==> chainActive.Tip().nHeight == old(chainActive.Tip()).nHeight + |v|
    {
      hide Settled, Blocked, Readable, IsBatch, OnPath, BlockIndex.Rooted;
      next := GoOn;
      ghost var h := chainActive.Tip().nHeight;
      var k := |v|;
      while k > 0
        invariant 0 <= k <= |v| && Valid() && OnPath(target, chainActive.Tip())
        invariant chainActive.Tip().nHeight == h + |v| - k
      {
        k := k - 1;
        BatchAt(target, h, v, k);
        next := ConnectNext(target, v[k], oldWork, oracle);
        if next.Failed? { NotReadable(target, v[k], oracle); }
        if !next.GoOn? { return; }
      }
      next := GoOn;
    }

    /** The next batch: at most 32 blocks. */
    method ConnectMore(target: BlockIndex, oldWork: nat, oracle: BlockIndex -> External) returns (next: Progress, nHeight: nat)
      requires Valid() && Eligible(target) && target.SkipsSet() && OnPath(target, chainActive.Tip())
      modifies this`undoFiles, chainActive`vChain, pcoinsTip`coins, mempool`mapTx, mempool`mapNextTx, mempool`totalTxSize
      ensures Valid() && Moved(target, old(chainActive.Tip()).nHeight, oldWork, oracle, next)
      ensures next.GoOn? ==> chainActive.Tip().nHeight == nHeight
      ensures nHeight == if old(chainActive.Tip()).nHeight + 32 < target.nHeight then old(chainActive.Tip()).nHeight + 32 else target.nHeight
    {
      hide Settled, Moved, Blocked, Readable, IsBatch;
      var start := chainActive.Tip().nHeight;
      nHeight := if start + 32 < target.nHeight then start + 32 else target.nHeight;
      var vpindexToConnect := BlocksBetween(target, start, nHeight);
      next := ConnectBatch(target, vpindexToConnect, oldWork, oracle);
    }

    /** One round of the loop over the batches; the block index is not touched. */
    method ConnectRound(target: BlockIndex, oldWork: nat, oracle: BlockIndex -> External) returns (next: Progress, nHeight: nat)
      requires Valid() && Eligible(target) && target.SkipsSet() && OnPath(target, chainActive.Tip())
      modifies this`undoFiles, chainActive`vChain, pcoinsTip`coins, mempool`mapTx, mempool`mapNextTx, mempool`totalTxSize
      ensures Valid() && Moved(target, old(chainActive.Tip()).nHeight, oldWork, oracle, next) && target.SkipsSet()
      ensures next.GoOn? ==> chainActive.Tip().nHeight == nHeight
      ensures nHeight == if old(chainActive.Tip()).nHeight + 32 < target.nHeight then old(chainActive.Tip()).nHeight + 32 else target.nHeight
    {
      hide Valid, Moved, BlockIndex.Rooted;
      next, nHeight := ConnectMore(target, oldWork, oracle);
    }

    /** From the fork towards the target, batch by batch. */
    method ConnectTowards(target: BlockIndex, oldWork: nat, oracle: BlockIndex -> External) returns (next: Progress)
      requires Valid() && Eligible(target) && target.SkipsSet() && OnPath(target, chainActive.Tip())
      modifies this`undoFiles, chainActive`vChain, pcoinsTip`coins, mempool`mapTx, mempool`mapNextTx, mempool`totalTxSize
      ensures Valid() && Moved(target, old(chainActive.Tip()).nHeight, oldWork, oracle, next)
      ensures next.GoOn? ==> chainActive.Tip() == target
    {
      next := GoOn;
      var nHeight := chainActive.Tip().nHeight;
      assert nHeight <= target.nHeight;
      hide Settled, BlockIndex.SkipsSet, BlockIndex.Rooted;
      ghost var floor := nHeight;
      while next.GoOn? && nHeight != target.nHeight
        invariant Valid() && Moved(target, floor, oldWork, oracle, next) && nHeight <= target.nHeight && target.SkipsSet()
        invariant next.GoOn? ==> chainActive.Tip().nHeight == nHeight
        decreases target.nHeight - nHeight
      {
        next, nHeight := ConnectRound(target, oldWork, oracle);
      }
      if next.GoOn? { TopOfPath(target, chainActive.Tip()); }
    }

    /** From the fork towards the target, and what came of it. */
    method Advance(target: BlockIndex, ghost fork: BlockIndex, oldWork: nat, oracle: BlockIndex -> External) returns (ok: bool, fInvalidFound: bool)
      requires Valid() && Eligible(target) && target.SkipsSet() && chainActive.Tip() == fork && OnPath(target, fork)
      modifies this`undoFiles, chainActive`vChain, pcoinsTip`coins, mempool`mapTx, mempool`mapNextTx, mempool`totalTxSize
      ensures Valid() && OnPath(target, chainActive.Tip()) && OnPath(chainActive.Tip(), fork)
      ensures fInvalidFound ==> ok && Blocked(target, oracle)
      ensures ok && !fInvalidFound ==>
                chainActive.Tip() == target || chainActive.Tip().nChainWork > oldWork || oracle(chainActive.Tip()).upgrade
      ensures !ok ==> !Readable(target.Path(), oracle)
    {
      hide Settled, Blocked, Readable, BlockIndex.Rooted, OnPath;
      var next := ConnectTowards(target, oldWork, oracle);
      PathThrough(target, chainActive.Tip(), fork);
      fInvalidFound := next.InvalidFound?;
      ok := !next.Failed?;
    }

    /** The last block that the target's branch has in common with the active chain. */
    method ForkWith(target: BlockIndex) returns (pindexFork: BlockIndex)
      requires Valid() && target.Rooted() && target.SkipsSet() && ShareAt(target, chainActive.Tip(), 0)
      ensures LastCommon(target, chainActive.Tip(), pindexFork) && OnPath(target, pindexFork) && OnPath(chainActive.Tip(), pindexFork)
    {
      hide Settled;
      var fork := chainActive.FindFork(target);
      ForkOnBoth(target, chainActive.Tip(), fork);
      pindexFork := fork;
    }

    /** One step towards a better branch. The blocks up to the fork stay in place throughout; when the
      * step succeeds, the tip is the target, or has more work than the tip had, or the node stops for
      * an upgrade, or the next block on the way has turned out invalid. */
    method ActivateBestChainStep(target: BlockIndex, oracle: BlockIndex -> External)
      returns (ok: bool, fInvalidFound: bool, ghost fork: BlockIndex)
      requires Valid() && Eligible(target) && target.SkipsSet() && ShareAt(target, chainActive.Tip(), 0)
      modifies this`undoFiles, chainActive`vChain, pcoinsTip`coins, mempool`mapTx, mempool`mapNextTx, mempool`totalTxSize
      ensures Valid() && LastCommon(target, old(chainActive.Tip()), fork) && OnPath(chainActive.Tip(), fork)
      ensures OnPath(target, chainActive.Tip()) || (!ok && OnPath(old(chainActive.Tip()), chainActive.Tip()))
      ensures fInvalidFound ==> ok && Blocked(target, oracle)
      ensures ok && !fInvalidFound ==>
                || chainActive.Tip() == target
                || chainActive.Tip().nChainWork > old(chainActive.Tip().nChainWork)
                || oracle(chainActive.Tip()).upgrade
      ensures !ok ==> !Readable(target.Path(), oracle) || !Readable(old(chainActive.Tip()).Path(), oracle)
    {
      hide Settled, Blocked, Readable, BlockIndex.Rooted, OnPath, LastCommon, ShareAt, Moved;
      var pindexOldTip := chainActive.Tip();
      var pindexFork := ForkWith(target);
      fork := pindexFork;
      fInvalidFound := false;
      var oldWork := pindexOldTip.nChainWork;
      ok := Retreat(target, pindexFork, oracle);
      if ok {
        ok, fInvalidFound := Advance(target, fork, oldWork, oracle);
      }
    }
  }
}
