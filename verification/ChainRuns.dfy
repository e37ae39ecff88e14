/** Whole runs of a node: transactions arrive, blocks are connected to the tip and taken off it
  * again, in any order and along any branches.
  */
module ChainRuns {
  import opened Coins
  import opened Sequences
  import opened Rules
  import opened Mempool
  import opened UndoRecords
  import opened UndoDisk
  import opened WornRules

  /** A block as the block index names it; the genesis block is left out, as it adds no coins. */
  datatype Block = Block(id: nat, vtx: seq<Tx>)

  /** The active chain above genesis, the coins, the undo files (a block is named by its branch,
    * as its hash commits to all of its ancestors), and the pool. */
  datatype State = State(chain: seq<Block>, view: View, undo: UndoFiles, pool: Pool)

  const START := State([], map[], map[], map[])

  datatype Event =
    | Accept(tx: Tx, externalOk: bool)
    | Connect(block: Block, externalOk: bool, lateFailure: bool)
    | TakeOff(readmitted: seq<bool>)
    | Reload(ids: set<TxId>)

  function Verdicts(given: seq<bool>, n: nat): (v: seq<bool>)
    ensures |v| == n
  {
    seq(n, i requires 0 <= i < n => if i < |given| then given[i] else false)
  }

  predicate GoodParams(p: Params) { p.interval >= 1 && p.initialReward >= 0 }

  type UndoFiles = map<seq<Block>, UndoFile>

  /** ConnectTip: undo data is written only the first time a block is connected; a failure after
    * that point leaves the undo data behind but neither the coins nor the pool are touched. */
  ghost function ConnectTip(p: Params, s: State, e: Event): State
    requires GoodParams(p) && e.Connect?
  {
    var chain, vtx := s.chain + [e.block], e.block.vtx;
    if !e.externalOk || !BlockValid(p, s.view, vtx, |chain|) then s
    else
      TxsValidCanApply(p, s.view, vtx, |chain|);
      var undo := WithFile(s.undo, chain, BlockUndoOf(s.view, vtx, |chain|));
      if e.lateFailure then s.(undo := undo)
      else State(chain, ApplyAll(s.view, vtx, |chain|), undo, RemoveForBlock(s.pool, vtx))
  }

  /** DisconnectTip: fails, changing nothing, without readable undo data or when the roll-back is unclean. */
  ghost function DisconnectTip(p: Params, s: State, e: Event): State
    requires e.TakeOff? && s.chain != []
  {
    var vtx, height := Last(s.chain).vtx, |s.chain|;
    if s.chain !in s.undo || ReadUndo(s.undo[s.chain]).None? then s
    else
      match Disconnect(s.view, vtx, ReadUndo(s.undo[s.chain]).value, height)
      case Inconsistent => s
      case Undone(r) =>
        if !r.clean then s
        else
          var pool := Resurrect(p, s.pool, r.view, height, vtx, Verdicts(e.readmitted, |vtx|));
          s.(chain := Init(s.chain), view := r.view, pool := RemoveCoinbaseSpends(pool, r.view, height, p.maturity))
  }

  /** A step of the node. Coins that have been flushed are at some time read back from the database. */
  ghost function Step(p: Params, s: State, e: Event): State
    requires GoodParams(p)
  {
    match e
    case Accept(tx, externalOk) =>
      if externalOk && Acceptable(p, s.pool, s.view, |s.chain| + 1, tx) then s.(pool := s.pool[tx.hash := tx]) else s
    case Connect(_, _, _) => ConnectTip(p, s, e)
    case TakeOff(_) => if s.chain == [] then s else DisconnectTip(p, s, e)
    case Reload(ids) => s.(view := WornView(s.view, ids))
  }

  ghost function Run(p: Params, s: State, events: seq<Event>): State
    requires GoodParams(p)
    decreases |events|
  {
    if events == [] then s else Step(p, Run(p, s, Init(events)), Last(events))
  }

  /** What is assumed of the environment: a connected block overwrites no live txid, a txid names one
    * transaction, and heights are non-negative machine integers. */
  ghost predicate Safe(p: Params, s: State, e: Event)
    requires GoodParams(p)
  {
    match e
    case Accept(_, _) => true
    case Reload(_) => true
    case Connect(block, _, _) =>
      && |s.chain| + 1 < WORD / 2
      && NoCollision(s.pool, block.vtx)
      && (CanApplyAll(s.view, block.vtx, |s.chain| + 1) ==> NoOverwrites(s.view, block.vtx, |s.chain| + 1))
    case TakeOff(_) => s.chain != [] ==> NoCollision(s.pool, Last(s.chain).vtx)
  }

  ghost predicate SafeRun(p: Params, s: State, events: seq<Event>)
    requires GoodParams(p)
    decreases |events|
  {
    events == [] || (SafeRun(p, s, Init(events)) && Safe(p, Run(p, s, Init(events)), Last(events)))
  }

  // ---- The reference: coins as a function of the chain alone -----------------------------

  /** The block fits on the view: it is valid there and overwrites no live txid. */
  predicate Fits(p: Params, v: View, vtx: seq<Tx>, height: nat)
    requires GoodParams(p)
  {
    && BlockValid(p, v, vtx, height)
    && CanApplyAll(v, vtx, height)
    && NoOverwrites(v, vtx, height)
  }

  /** The coins after connecting the blocks of a chain, one after the other, from genesis. */
  function Replay(p: Params, chain: seq<Block>): Option<View>
    requires GoodParams(p)
    decreases |chain|
  {
    if chain == [] then Some(map[])
    else
      match Replay(p, Init(chain))
      case None => None
      case Some(v) =>
        if Fits(p, v, Last(chain).vtx, |chain|) then Some(ApplyAll(v, Last(chain).vtx, |chain|)) else None
  }

  lemma {:induction false} NonNegativeApplyAll(v: View, vtx: seq<Tx>, height: int)
    requires NonNegativeView(v) && CanApplyAll(v, vtx, height)
    ensures NonNegativeView(ApplyAll(v, vtx, height))
    decreases |vtx|
  {
    if vtx != [] {
      SupplyApply(v, vtx[0], height);
      NonNegativeApplyAll(Apply(v, vtx[0], height), vtx[1..], height);
    }
  }

  lemma BlockKeeps(p: Params, v: View, vtx: seq<Tx>, height: nat)
    requires GoodParams(p) && Fits(p, v, vtx, height) && height >= 1
    requires GoodView(v) && NonNegativeView(v) && HeightsBelow(v, height)
    ensures var w := ApplyAll(v, vtx, height);
            && GoodView(w) && NonNegativeView(w) && HeightsBelow(w, height + 1)
            && (p.native ==> Supply(w) <= Supply(v) + Subsidy(p, height))
  {
    ApplyAllGood(v, vtx, height);
    NonNegativeApplyAll(v, vtx, height);
    ApplyAllHeights(v, vtx, height, height + 1);
    if p.native { SupplyPerBlock(p, v, vtx, height); }
  }

  lemma {:induction false} ReplayGood(p: Params, chain: seq<Block>)
    requires GoodParams(p) && Replay(p, chain).Some?
    ensures var v := Replay(p, chain).value; GoodView(v) && NonNegativeView(v) && HeightsBelow(v, |chain| + 1)
    ensures p.native ==> Supply(Replay(p, chain).value) <= TotalSubsidy(p, |chain|)
    decreases |chain|
  {
    hide Fits, ApplyAll, GoodView, NonNegativeView, HeightsBelow, Supply;
    if chain != [] {
      ReplayGood(p, Init(chain));
      BlockKeeps(p, Replay(p, Init(chain)).value, Last(chain).vtx, |chain|);
    } else {
      NoCoins();
    }
  }

  lemma NoCoins()
    ensures GoodView(map[]) && NonNegativeView(map[]) && HeightsBelow(map[], 1) && Supply(map[]) == 0
  {
    assert Values(map[]) == map[];
  }

  // ---- What the steps keep ---------------------------------------------------------------

  /** The coins are those of the chain, but for records that have been to the disk. */
  ghost predicate Shows(p: Params, chain: seq<Block>, v: View)
    requires GoodParams(p)
  {
    Replay(p, chain).Some? && Aged(Replay(p, chain).value, v)
  }

  lemma ShownGood(p: Params, chain: seq<Block>, v: View)
    requires GoodParams(p) && Shows(p, chain, v)
    ensures GoodView(v) && HeightsBelow(v, |chain| + 1)
  {
    var r := Replay(p, chain).value;
    var s: set<TxId> :| v == WornView(r, s);
    ReplayGood(p, chain);
    GoodWorn(r, s);
  }

  /** The undo data on file for a branch reads back as that of its last block, which went onto the
    * replay of its parent. */
  ghost predicate UndoFits(p: Params, branch: seq<Block>, file: UndoFile)
    requires GoodParams(p)
  {
    && branch != [] && Replay(p, branch).Some?
    && ReadUndo(file) == Some(FromDisk(Replay(p, Init(branch)).value, Last(branch).vtx, |branch|))
  }

  ghost predicate UndoFilesFit(p: Params, undo: UndoFiles)
    requires GoodParams(p)
  {
    forall branch | branch in undo :: UndoFits(p, branch, undo[branch])
  }

  /** Every block of the chain has its undo data on file. */
  predicate HasUndo(chain: seq<Block>, undo: UndoFiles) {
    forall n | 1 <= n <= |chain| :: chain[..n] in undo
  }

  ghost predicate Inv(p: Params, s: State)
    requires GoodParams(p)
  {
    && Shows(p, s.chain, s.view)
    && UndoFilesFit(p, s.undo)
    && HasUndo(s.chain, s.undo)
    && Consistent(s.pool, s.view) && Unshared(s.pool)
  }

  lemma ReplayExtend(p: Params, chain: seq<Block>, block: Block)
    requires GoodParams(p) && Replay(p, chain).Some?
    requires Fits(p, Replay(p, chain).value, block.vtx, |chain| + 1)
    ensures Replay(p, chain + [block]) == Some(ApplyAll(Replay(p, chain).value, block.vtx, |chain| + 1))
  {
    assert Init(chain + [block]) == chain && Last(chain + [block]) == block;
  }

  /** A block that fits the coins as they are shown fits the replay, and extends it. */
  lemma ShownExtend(p: Params, chain: seq<Block>, block: Block, v: View)
    requires GoodParams(p) && Shows(p, chain, v) && Fits(p, v, block.vtx, |chain| + 1) && |chain| + 1 < WORD / 2
    ensures Shows(p, chain + [block], ApplyAll(v, block.vtx, |chain| + 1))
    ensures UndoFits(p, chain + [block], WriteUndo(BlockUndoOf(v, block.vtx, |chain| + 1)))
  {
    hide BlockValid, CanApplyAll, NoOverwrites, ApplyAll, WornView, UndoOfAll, WriteUndo, ReadUndo, GoodView, HeightsBelow;
    var r, h := Replay(p, chain).value, |chain| + 1;
    var s: set<TxId> :| v == WornView(r, s);
    BlockValidWorn(p, r, s, block.vtx, h);
    ApplyAllWorn(r, s, block.vtx, h);
    ReplayExtend(p, chain, block);
    ShownGood(p, chain, v);
    HeightsMono(v, h, WORD / 2);
    SomeTxs(p, v, block.vtx, h);
    FileReadBack(v, block.vtx, h);
    SameFromDisk(r, s, block.vtx, h);
    assert Init(chain + [block]) == chain && Last(chain + [block]) == block;
  }

  lemma SomeTxs(p: Params, v: View, vtx: seq<Tx>, height: nat)
    requires GoodParams(p) && BlockValid(p, v, vtx, height)
    ensures CheckBlock(vtx) && vtx != []
  {}

  lemma UndoFilesWrite(p: Params, undo: UndoFiles, branch: seq<Block>, us: seq<TxUndo>)
    requires GoodParams(p) && UndoFilesFit(p, undo) && UndoFits(p, branch, WriteUndo(us))
    ensures UndoFilesFit(p, WithFile(undo, branch, us))
  {
    hide UndoFits, WriteUndo;
  }

  lemma HasUndoExtend(chain: seq<Block>, undo: UndoFiles, block: Block)
    requires HasUndo(chain, undo) && chain + [block] in undo
    ensures HasUndo(chain + [block], undo)
  {
    var more := chain + [block];
    forall n | 1 <= n <= |more| ensures more[..n] in undo {
      assert more[..n] == if n <= |chain| then chain[..n] else more;
    }
  }

  lemma HasUndoShrink(chain: seq<Block>, undo: UndoFiles)
    requires HasUndo(chain, undo) && chain != []
    ensures HasUndo(Init(chain), undo)
  {
    forall n | 1 <= n <= |Init(chain)| ensures Init(chain)[..n] in undo {
      assert Init(chain)[..n] == chain[..n];
    }
  }

  lemma HasUndoMore(chain: seq<Block>, undo: UndoFiles, more: UndoFiles)
    requires HasUndo(chain, undo) && undo.Keys <= more.Keys
    ensures HasUndo(chain, more)
  {}

  lemma ConnectTipKeeps(p: Params, s: State, e: Event)
    requires GoodParams(p) && Inv(p, s) && e.Connect? && Safe(p, s, e)
    ensures Inv(p, ConnectTip(p, s, e))
  {
    if e.externalOk && BlockValid(p, s.view, e.block.vtx, |s.chain + [e.block]|) { ConnectValidKeeps(p, s, e); }
  }

  lemma ConnectValidKeeps(p: Params, s: State, e: Event)
    requires GoodParams(p) && Inv(p, s) && e.Connect? && Safe(p, s, e)
    requires e.externalOk && BlockValid(p, s.view, e.block.vtx, |s.chain + [e.block]|)
    ensures Inv(p, ConnectTip(p, s, e))
  {
    hide BlockValid, CanApplyAll, NoOverwrites, ApplyAll, Shows, UndoFits, UndoFilesFit, HasUndo, Consistent, Unshared, NoCollision,
         RemoveForBlock, WriteUndo;
    var chain, vtx, height := s.chain + [e.block], e.block.vtx, |s.chain| + 1;
    ValidApplies(p, s.view, vtx, height);
    var us := BlockUndoOf(s.view, vtx, height);
    ShownExtend(p, s.chain, e.block, s.view);
    UndoFilesWrite(p, s.undo, chain, us);
    HasUndoMore(s.chain, s.undo, WithFile(s.undo, chain, us));
    HasUndoExtend(s.chain, WithFile(s.undo, chain, us), e.block);
    ConnectBlockKeeps(s.pool, s.view, vtx, height);
    UnsharedForBlock(s.pool, vtx);
  }

  lemma ValidApplies(p: Params, v: View, vtx: seq<Tx>, height: nat)
    requires GoodParams(p) && BlockValid(p, v, vtx, height)
    ensures vtx != [] && CanApplyAll(v, vtx, height)
  {
    TxsValidCanApply(p, v, vtx, height);
  }

  /** The two views offer the same outputs. */
  ghost predicate SameOffers(v: View, w: View) { forall o :: Available(v, o) <==> Available(w, o) }

  lemma ConsistentSameOffers(m: Pool, v: View, w: View)
    requires SameOffers(v, w) && Consistent(m, v)
    ensures Consistent(m, w)
  {
    hide Available;
    forall id, i | id in m && 0 <= i < |m[id].vin| ensures MemAvailable(m, w, m[id].vin[i]) {
      assert MemAvailable(m, v, m[id].vin[i]);
    }
  }

  /** From these coins of the parent's chain, the last block leads to those coins, as far as the outputs go. */
  ghost predicate TakesBack(p: Params, chain: seq<Block>, after: View, before: View)
    requires GoodParams(p) && chain != []
  {
    && Shows(p, Init(chain), before)
    && Fits(p, before, Last(chain).vtx, |chain|)
    && SameOffers(ApplyAll(before, Last(chain).vtx, |chain|), after)
  }

  /** The last block of a chain rolls back cleanly with the undo data on file, to the coins of the rest. */
  lemma RollBackExact(p: Params, chain: seq<Block>, v: View, file: UndoFile)
    requires GoodParams(p) && UndoFits(p, chain, file) && Shows(p, chain, v)
    ensures ReadUndo(file).Some?
    ensures var d := Disconnect(v, Last(chain).vtx, ReadUndo(file).value, |chain|);
            d.Undone? && d.rollback.clean && TakesBack(p, chain, v, d.rollback.view)
  {
    hide BlockValid, CanApplyAll, NoOverwrites, ApplyAll, WornView, ReadUndo, Disconnect, GoodView, FromDisk, NonNegativeView,
         HeightsBelow, Supply, SameOffers, Emptied;
    var r, w, vtx, h := Replay(p, chain).value, Replay(p, Init(chain)).value, Last(chain).vtx, |chain|;
    var s: set<TxId> :| v == WornView(r, s);
    var t := s + Emptied(w, vtx);
    ReplayGood(p, Init(chain));
    SomeTxs(p, w, vtx, h);
    DisconnectWorn(w, s, vtx, h);
    BlockValidWorn(p, w, t, vtx, h);
    ApplyAllWorn(w, t, vtx, h);
    WornSameOffers(r, s, Untouched(t, vtx));
  }

  lemma WornSameOffers(v: View, s: set<TxId>, t: set<TxId>)
    ensures SameOffers(WornView(v, t), WornView(v, s))
  {
    hide Available, WornView;
    forall o ensures Available(WornView(v, t), o) <==> Available(WornView(v, s), o) {
      WornOffers(v, s, o);
      WornOffers(v, t, o);
    }
  }

  /** Taking the tip off always succeeds and leads to the coins of the parent's chain. */
  lemma DisconnectTipExact(p: Params, s: State, e: Event) returns (v: View)
    requires GoodParams(p) && Inv(p, s) && e.TakeOff? && s.chain != []
    ensures TakesBack(p, s.chain, s.view, v)
    ensures var vtx, height := Last(s.chain).vtx, |s.chain|;
            var pool := Resurrect(p, s.pool, v, height, vtx, Verdicts(e.readmitted, |vtx|));
            DisconnectTip(p, s, e) == State(Init(s.chain), v, s.undo, RemoveCoinbaseSpends(pool, v, height, p.maturity))
  {
    hide TakesBack, Disconnect, ReadUndo, UndoFits, Shows, Consistent, Unshared, Resurrect, RemoveCoinbaseSpends;
    assert s.chain[..|s.chain|] == s.chain;
    RollBackExact(p, s.chain, s.view, s.undo[s.chain]);
    v := Disconnect(s.view, Last(s.chain).vtx, ReadUndo(s.undo[s.chain]).value, |s.chain|).rollback.view;
  }

  lemma DisconnectTipKeeps(p: Params, s: State, e: Event)
    requires GoodParams(p) && Inv(p, s) && e.TakeOff? && s.chain != [] && Safe(p, s, e)
    ensures Inv(p, DisconnectTip(p, s, e))
  {
    hide DisconnectTip, Shows, UndoFits, UndoFilesFit, HasUndo, Unshared, BlockValid, CanApplyAll, NoOverwrites, ApplyAll, NoCollision,
         Resurrect, RemoveCoinbaseSpends, Consistent;
    var vtx, height := Last(s.chain).vtx, |s.chain|;
    var verdicts := Verdicts(e.readmitted, |vtx|);
    var v := DisconnectTipExact(p, s, e);
    ConsistentTurned(s.pool, s.view, ApplyAll(v, vtx, height));
    DisconnectBlockKeeps(p, s.pool, v, vtx, height, verdicts);
    RemoveCoinbaseSpendsKeeps(Resurrect(p, s.pool, v, height, vtx, verdicts), v, height, p.maturity);
    HasUndoShrink(s.chain, s.undo);
    UnsharedResurrect(p, s.pool, v, height, vtx, verdicts);
    UnsharedRemoval(Resurrect(p, s.pool, v, height, vtx, verdicts), v, height, p.maturity);
  }

  lemma ConsistentTurned(m: Pool, v: View, w: View)
    requires SameOffers(w, v) && Consistent(m, v)
    ensures Consistent(m, w)
  {
    assert SameOffers(v, w);
    ConsistentSameOffers(m, v, w);
  }

  lemma ReloadKeeps(p: Params, s: State, ids: set<TxId>)
    requires GoodParams(p) && Inv(p, s)
    ensures Inv(p, s.(view := WornView(s.view, ids)))
  {
    hide WornView, UndoFilesFit, HasUndo, Consistent, Unshared;
    var r := Replay(p, s.chain).value;
    var t: set<TxId> :| s.view == WornView(r, t);
    WornTwice(r, t, ids);
    ConsistentWorn(s.pool, s.view, ids);
  }

  lemma StepKeeps(p: Params, s: State, e: Event)
    requires GoodParams(p) && Inv(p, s) && Safe(p, s, e)
    ensures Inv(p, Step(p, s, e))
  {
    hide Shows, UndoFilesFit, HasUndo, Consistent, Unshared, Acceptable, ConnectTip, DisconnectTip, NoCollision, WornView;
    match e
    case Accept(tx, externalOk) =>
      if externalOk && Acceptable(p, s.pool, s.view, |s.chain| + 1, tx) {
        AcceptKeeps(p, s.pool, s.view, |s.chain| + 1, tx);
        UnsharedAccept(p, s.pool, s.view, |s.chain| + 1, tx);
      }
    case Connect(_, _, _) => ConnectTipKeeps(p, s, e);
    case TakeOff(_) => if s.chain != [] { DisconnectTipKeeps(p, s, e); }
    case Reload(ids) => ReloadKeeps(p, s, ids);
  }

  lemma StartKeeps(p: Params)
    requires GoodParams(p)
    ensures Inv(p, START)
  {
    WornNone(map[]);
  }

  lemma {:induction false} RunKeeps(p: Params, events: seq<Event>)
    requires GoodParams(p) && SafeRun(p, START, events)
    ensures Inv(p, Run(p, START, events))
    decreases |events|
  {
    hide Inv, Step, Safe;
    if events != [] {
      RunKeeps(p, Init(events));
      StepKeeps(p, Run(p, START, Init(events)), Last(events));
    } else {
      StartKeeps(p);
    }
  }

  // ---- Results about whole runs ------------------------------------------------------------

  lemma AgedSame(v: View, w: View)
    requires Aged(v, w) && forall id | id in v :: v[id].version >= 0
    ensures w == v
  {
    var s: set<TxId> :| w == WornView(v, s);
    UnchangedIff(v, s);
  }

  /** The coin set depends on the tip alone: in two runs that end on the same chain, whatever branches
    * each of them visited, the coins are those of the replay of that chain, but for versions below 0,
    * which the disk replaces; where no version is below 0 the coins are the same. */
  lemma PathIndependence(p: Params, events1: seq<Event>, events2: seq<Event>)
    requires GoodParams(p) && SafeRun(p, START, events1) && SafeRun(p, START, events2)
    requires Run(p, START, events1).chain == Run(p, START, events2).chain
    ensures Replay(p, Run(p, START, events1).chain).Some?
    ensures var v, w := Run(p, START, events1).view, Run(p, START, events2).view;
            var r := Replay(p, Run(p, START, events1).chain).value;
            && Aged(r, v) && Aged(r, w)
            && ((forall id | id in r :: r[id].version >= 0) ==> v == r == w)
  {
    hide Run, SafeRun, Aged, Replay, UndoFilesFit, HasUndo, Consistent, Unshared;
    RunKeeps(p, events1);
    RunKeeps(p, events2);
    var r := Replay(p, Run(p, START, events1).chain).value;
    if forall id | id in r :: r[id].version >= 0 {
      AgedSame(r, Run(p, START, events1).view);
      AgedSame(r, Run(p, START, events2).view);
    }
  }

  /** After every run the pool and the coins are consistent with each other, and no two transactions of
    * the pool spend the same output. */
  lemma PoolConsistency(p: Params, events: seq<Event>)
    requires GoodParams(p) && SafeRun(p, START, events)
    ensures Consistent(Run(p, START, events).pool, Run(p, START, events).view)
    ensures Unshared(Run(p, START, events).pool)
  {
    RunKeeps(p, events);
  }

  /** After every run on a chain with a native currency, at height H, the unspent outputs total at
    * most all subsidies up to H, which never exceed the first reward plus two full periods. */
  lemma SupplyBound(p: Params, events: seq<Event>)
    requires GoodParams(p) && p.native && SafeRun(p, START, events)
    ensures var s := Run(p, START, events);
            && Supply(s.view) <= TotalSubsidy(p, |s.chain|)
            && Supply(s.view) <= (if p.firstReward >= 0 then p.firstReward else 0) + 2 * p.interval * p.initialReward
  {
    hide Run, SafeRun, Supply, WornView, UndoFilesFit, HasUndo, Consistent, Unshared, Replay;
    var s := Run(p, START, events);
    RunKeeps(p, events);
    var r := Replay(p, s.chain).value;
    var t: set<TxId> :| s.view == WornView(r, t);
    SupplyWorn(r, t);
    ReplayGood(p, s.chain);
    TotalSubsidyBound(p, |s.chain|);
  }

  /** Undo data on file for a branch is that of its last block on the coins as they are shown. */
  lemma FileIsOwn(p: Params, chain: seq<Block>, block: Block, v: View, file: UndoFile)
    requires GoodParams(p) && Shows(p, chain, v) && UndoFits(p, chain + [block], file)
    ensures block.vtx != [] && CanApplyAll(v, block.vtx, |chain| + 1)
    ensures ReadUndo(file) == Some(FromDisk(v, block.vtx, |chain| + 1))
  {
    hide BlockValid, CanApplyAll, NoOverwrites, ApplyAll, WornView, FromDisk, ReadUndo;
    var r, h := Replay(p, chain).value, |chain| + 1;
    var s: set<TxId> :| v == WornView(r, s);
    assert Init(chain + [block]) == chain && Last(chain + [block]) == block;
    SomeTxs(p, r, block.vtx, h);
    SameFromDisk(r, s, block.vtx, h);
  }

  /** Connecting a block and taking it off again leaves the coins as they were, but for the versions of
    * those that the block had spent up. */
  lemma ConnectThenTakeOff(p: Params, s: State, connect: Event, takeOff: Event)
    requires GoodParams(p) && Inv(p, s) && connect.Connect? && takeOff.TakeOff? && Safe(p, s, connect)
    requires Step(p, s, connect).chain != s.chain
    ensures var t := Step(p, Step(p, s, connect), takeOff);
            t.chain == s.chain && t.view == WornView(s.view, Emptied(s.view, connect.block.vtx))
  {
    hide Fits, CanApplyAll, ApplyAll, WornView, Shows, HasUndo, Consistent, Unshared, UndoFits, Emptied, ReadUndo, Disconnect,
         ConnectTip, DisconnectTip, Safe, UndoFilesFit;
    var mid := Step(p, s, connect);
    Connected(p, s, connect);
    StepKeeps(p, s, connect);
    FileFits(p, mid.undo, mid.chain);
    BackAgain(p, s.chain, connect.block, s.view, mid.undo[mid.chain]);
    TakenOff(p, mid, takeOff, WornView(s.view, Emptied(s.view, connect.block.vtx)));
  }

  lemma FileFits(p: Params, undo: UndoFiles, branch: seq<Block>)
    requires GoodParams(p) && UndoFilesFit(p, undo) && branch in undo
    ensures UndoFits(p, branch, undo[branch])
  {}

  /** What it takes to connect a block, and what it gives. */
  lemma Connected(p: Params, s: State, e: Event)
    requires GoodParams(p) && e.Connect? && Safe(p, s, e) && ConnectTip(p, s, e).chain != s.chain
    ensures Fits(p, s.view, e.block.vtx, |s.chain| + 1)
    ensures var mid, more := ConnectTip(p, s, e), s.chain + [e.block];
            && mid.chain == more && Init(more) == s.chain && Last(more) == e.block && more in mid.undo
            && mid.view == ApplyAll(s.view, e.block.vtx, |s.chain| + 1)
  {
    hide BlockValid, CanApplyAll, NoOverwrites, ApplyAll, NoCollision, RemoveForBlock, WriteUndo;
    if e.externalOk && BlockValid(p, s.view, e.block.vtx, |s.chain + [e.block]|) { ValidApplies(p, s.view, e.block.vtx, |s.chain| + 1); }
  }

  lemma TakenOff(p: Params, s: State, e: Event, v: View)
    requires e.TakeOff? && s.chain != [] && s.chain in s.undo && ReadUndo(s.undo[s.chain]).Some?
    requires Disconnect(s.view, Last(s.chain).vtx, ReadUndo(s.undo[s.chain]).value, |s.chain|) == Undone(Rollback(v, true))
    ensures DisconnectTip(p, s, e).chain == Init(s.chain) && DisconnectTip(p, s, e).view == v
  {
    hide ReadUndo, Disconnect, Resurrect, RemoveCoinbaseSpends;
  }

  /** The block just connected rolls back with the undo data on file. */
  lemma BackAgain(p: Params, chain: seq<Block>, block: Block, v: View, file: UndoFile)
    requires GoodParams(p) && Shows(p, chain, v) && UndoFits(p, chain + [block], file)
    requires Fits(p, v, block.vtx, |chain| + 1)
    ensures ReadUndo(file).Some?
    ensures Disconnect(ApplyAll(v, block.vtx, |chain| + 1), block.vtx, ReadUndo(file).value, |chain| + 1)
            == Undone(Rollback(WornView(v, Emptied(v, block.vtx)), true))
  {
    hide BlockValid, CanApplyAll, NoOverwrites, ApplyAll, WornView, Shows, UndoFits, ReadUndo, FromDisk, Disconnect, GoodView, HeightsBelow,
         Emptied;
    var vtx, h := block.vtx, |chain| + 1;
    ShownGood(p, chain, v);
    SomeTxs(p, v, vtx, h);
    DisconnectWorn(v, {}, vtx, h);
    WornNone(ApplyAll(v, vtx, h));
    FileIsOwn(p, chain, block, v, file);
    assert {} + Emptied(v, vtx) == Emptied(v, vtx);
  }

  /** There are safe runs that connect blocks: here, one with a single coinbase. */
  lemma SafeRunExample(p: Params)
    requires GoodParams(p) && !p.native
    ensures var coinbase := Tx(1, 1, [OutPoint(NULL_HASH, NULL_INDEX)], [TxOut(0, Code(0, false))], 100);
            var events := [Connect(Block(1, [coinbase]), true, false)];
            SafeRun(p, START, events) && Run(p, START, events).chain == [Block(1, [coinbase])]
  {
    var coinbase := Tx(1, 1, [OutPoint(NULL_HASH, NULL_INDEX)], [TxOut(0, Code(0, false))], 100);
    var vtx, events := [coinbase], [Connect(Block(1, [coinbase]), true, false)];
    assert vtx[1..] == [] && Init(events) == [];
    assert TxsValid(p, map[], vtx, 1);
    assert BlockValid(p, map[], vtx, 1);
    assert NoOverwrites(map[], vtx, 1);
    assert START.chain + [Block(1, vtx)] == [Block(1, vtx)];
    assert Last(events).block.vtx == vtx && OnePerTxid(vtx) && NoCollision(START.pool, vtx);
    assert Run(p, START, []) == START && SafeRun(p, START, []);
    assert CanApplyAll(START.view, vtx, 1) ==> NoOverwrites(START.view, vtx, 1);
    assert Safe(p, START, Last(events));
  }
}
