/** Which chains a node can reach, when the coins depend on the tip alone, and examples of whole runs.
  */
module ChainReach {
  import opened Coins
  import opened Sequences
  import opened Rules
  import opened Mempool
  import opened UndoRecords
  import opened UndoDisk
  import opened ChainRuns
  import WornRules
  import MapSum

  // ---- Every chain that can be reached is reached directly ---------------------------------

  lemma RunAppend(p: Params, events: seq<Event>, e: Event)
    requires GoodParams(p) && SafeRun(p, START, events) && Safe(p, Run(p, START, events), e)
    ensures SafeRun(p, START, events + [e]) && Run(p, START, events + [e]) == Step(p, Run(p, START, events), e)
  {
    assert Init(events + [e]) == events && Last(events + [e]) == e;
  }

  /** A height the code can count to, and one transaction per txid in each block. */
  predicate Named(chain: seq<Block>) {
    |chain| < WORD / 2 && forall i | 0 <= i < |chain| :: OnePerTxid(chain[i].vtx)
  }

  lemma StepNamed(p: Params, s: State, e: Event)
    requires GoodParams(p) && Named(s.chain) && Safe(p, s, e)
    ensures Named(Step(p, s, e).chain)
  {
    hide BlockValid, CanApplyAll, NoOverwrites, ApplyAll, OnePerTxid, RemoveForBlock, WriteUndo, ReadUndo, Disconnect,
         Resurrect, RemoveCoinbaseSpends, Acceptable;
  }

  lemma {:induction false} RunNamed(p: Params, events: seq<Event>)
    requires GoodParams(p) && SafeRun(p, START, events)
    ensures Named(Run(p, START, events).chain)
    decreases |events|
  {
    hide Step, Safe, Named;
    if events != [] {
      RunNamed(p, Init(events));
      StepNamed(p, Run(p, START, Init(events)), Last(events));
    } else {
      NamedNone();
    }
  }

  lemma NamedNone()
    ensures Named([])
  {}

  function Connects(chain: seq<Block>): seq<Event> {
    seq(|chain|, i requires 0 <= i < |chain| => Connect(chain[i], true, false))
  }

  lemma ReplayLast(p: Params, chain: seq<Block>)
    requires GoodParams(p) && Replay(p, chain).Some? && chain != []
    ensures Replay(p, Init(chain)).Some?
    ensures var v := Replay(p, Init(chain)).value;
            Fits(p, v, Last(chain).vtx, |chain|) && Replay(p, chain) == Some(ApplyAll(v, Last(chain).vtx, |chain|))
  {}

  lemma DirectStart(p: Params)
    requires GoodParams(p)
    ensures SafeRun(p, START, Connects([])) && Run(p, START, Connects([])) == START && Replay(p, []) == Some(map[])
  {}

  /** Connecting the blocks of a chain one after the other leads there, with the coins of the replay. */
  lemma {:induction false} DirectRun(p: Params, chain: seq<Block>)
    requires GoodParams(p) && Replay(p, chain).Some? && Named(chain)
    ensures SafeRun(p, START, Connects(chain))
    ensures var s := Run(p, START, Connects(chain));
            s.chain == chain && s.view == Replay(p, chain).value && s.pool == map[]
    decreases |chain|
  {
    hide Run, SafeRun, Step, Safe, Replay, Fits, ApplyAll, OnePerTxid;
    if chain == [] {
      DirectStart(p);
    } else {
      var before, e := Init(chain), Connect(Last(chain), true, false);
      ReplayLast(p, chain);
      DirectRun(p, before);
      assert Connects(chain) == Connects(before) + [e];
      DirectStep(p, Run(p, START, Connects(before)), Last(chain));
      RunAppend(p, Connects(before), e);
    }
  }

  lemma DirectStep(p: Params, s: State, block: Block)
    requires GoodParams(p) && s.pool == map[] && Fits(p, s.view, block.vtx, |s.chain| + 1)
    requires |s.chain| + 1 < WORD / 2 && OnePerTxid(block.vtx)
    ensures var e := Connect(block, true, false);
            && Safe(p, s, e)
            && Step(p, s, e).chain == s.chain + [block] && Step(p, s, e).pool == map[]
            && Step(p, s, e).view == ApplyAll(s.view, block.vtx, |s.chain| + 1)
  {
    hide BlockValid, CanApplyAll, NoOverwrites, ApplyAll, OnePerTxid, WriteUndo;
    RemoveFromNone(block.vtx);
  }

  lemma {:induction false} RemoveFromNone(vtx: seq<Tx>)
    ensures RemoveForBlock(map[], vtx) == map[]
    decreases |vtx|
  {
    if vtx != [] { RemoveFromNone(vtx[1..]); }
  }

  /** A chain can be reached by a safe run if and only if it replays, its heights can be counted, and in each
    * of its blocks a txid names one transaction. */
  lemma ReachedIff(p: Params, chain: seq<Block>)
    requires GoodParams(p)
    ensures (exists events :: SafeRun(p, START, events) && Run(p, START, events).chain == chain)
            <==> Replay(p, chain).Some? && Named(chain)
  {
    hide Run, SafeRun, Replay, Named;
    if Replay(p, chain).Some? && Named(chain) {
      DirectRun(p, chain);
      assert SafeRun(p, START, Connects(chain));
    }
    if events :| SafeRun(p, START, events) && Run(p, START, events).chain == chain {
      RunKeeps(p, events);
      RunNamed(p, events);
    }
  }

  // ---- When the coins depend on the tip alone ----------------------------------------------

  predicate NoNegative(v: View) { forall id | id in v :: v[id].version >= 0 }

  /** Reading all coins back from the database changes none if and only if no version is below 0. */
  lemma ReloadAllIff(p: Params, s: State)
    requires GoodParams(p)
    ensures Step(p, s, Reload(s.view.Keys)).view == s.view <==> NoNegative(s.view)
  {
    UnchangedIff(s.view, s.view.Keys);
  }

  /** All runs that end on the chain end with the same coins. */
  ghost predicate Determined(p: Params, chain: seq<Block>)
    requires GoodParams(p)
  {
    forall events1, events2
      | SafeRun(p, START, events1) && SafeRun(p, START, events2)
        && Run(p, START, events1).chain == chain && Run(p, START, events2).chain == chain ::
      Run(p, START, events1).view == Run(p, START, events2).view
  }

  /** The chain determines the coins exactly if and only if no version in its replay is below 0. */
  lemma DeterminedIff(p: Params, chain: seq<Block>)
    requires GoodParams(p) && Replay(p, chain).Some? && Named(chain)
    ensures Determined(p, chain) <==> NoNegative(Replay(p, chain).value)
  {
    hide Run, SafeRun, Replay, Named, Step, Safe;
    var r := Replay(p, chain).value;
    if NoNegative(r) {
      forall events1, events2
        | SafeRun(p, START, events1) && SafeRun(p, START, events2)
          && Run(p, START, events1).chain == chain && Run(p, START, events2).chain == chain
        ensures Run(p, START, events1).view == Run(p, START, events2).view
      {
        PathIndependence(p, events1, events2);
      }
    } else {
      var direct, reload := Connects(chain), Reload(r.Keys);
      DirectRun(p, chain);
      SafeReload(p, Run(p, START, direct), r.Keys);
      RunAppend(p, direct, reload);
      ReloadAllIff(p, Run(p, START, direct));
    }
  }

  lemma SafeReload(p: Params, s: State, ids: set<TxId>)
    requires GoodParams(p)
    ensures Safe(p, s, Reload(ids)) && Step(p, s, Reload(ids)).chain == s.chain
  {}

  // ---- Leaving one branch for another ------------------------------------------------------

  lemma {:induction false} NoneAdmitted(p: Params, v: View, height: int, vtx: seq<Tx>, verdicts: seq<bool>)
    requires |verdicts| == |vtx| && forall i | 0 <= i < |verdicts| :: !verdicts[i]
    ensures Resurrect(p, map[], v, height, vtx, verdicts) == map[]
    decreases |vtx|
  {
    if vtx != [] { NoneAdmitted(p, v, height, vtx[1..], verdicts[1..]); }
  }

  /** With an empty pool and nothing readmitted, the pool stays empty when the tip is taken off. */
  lemma PoolStaysEmpty(p: Params, s: State)
    requires s.pool == map[] && s.chain != []
    ensures DisconnectTip(p, s, TakeOff([])).pool == map[]
  {
    hide ReadUndo, Disconnect, Resurrect;
    if s.chain in s.undo && ReadUndo(s.undo[s.chain]).Some? {
      var vtx := Last(s.chain).vtx;
      var d := Disconnect(s.view, vtx, ReadUndo(s.undo[s.chain]).value, |s.chain|);
      if d.Undone? { NoneAdmitted(p, d.rollback.view, |s.chain|, vtx, Verdicts([], |vtx|)); }
    }
  }

  /** A run that connects a first block, takes it off again and connects another one in its place. */
  function Switch(a: Block, b: Block): seq<Event> { [Connect(a, true, false), TakeOff([]), Connect(b, true, false)] }

  lemma SwitchBranches(p: Params, a: Block, b: Block)
    requires GoodParams(p) && OnePerTxid(a.vtx) && OnePerTxid(b.vtx)
    requires Fits(p, map[], a.vtx, 1) && Fits(p, map[], b.vtx, 1)
    ensures SafeRun(p, START, Switch(a, b))
    ensures Run(p, START, Switch(a, b)).chain == [b] && Run(p, START, Switch(a, b)).view == ApplyAll(map[], b.vtx, 1)
  {
    hide Run, SafeRun, Step, Safe, Fits, ApplyAll, OnePerTxid, Inv, WornView, Emptied;
    var connect, takeOff, other := Connect(a, true, false), TakeOff([]), Connect(b, true, false);
    assert Connects([]) == [] && [] + [connect] == [connect] && [connect] + [takeOff] == [connect, takeOff];
    assert [connect, takeOff] + [other] == Switch(a, b) && START.chain + [b] == [b];
    DirectStart(p);
    DirectStep(p, START, a);
    RunAppend(p, [], connect);
    var there := Step(p, START, connect);
    SafeTakeOff(p, there, START.chain, a);
    RunAppend(p, [connect], takeOff);
    BackAtStart(p, connect, takeOff);
    DirectStep(p, Step(p, there, takeOff), b);
    RunAppend(p, [connect, takeOff], other);
  }

  lemma BackAtStart(p: Params, connect: Event, takeOff: Event)
    requires GoodParams(p) && connect.Connect? && takeOff.TakeOff? && Safe(p, START, connect)
    requires Step(p, START, connect).chain != []
    ensures var s := Step(p, Step(p, START, connect), takeOff); s.chain == [] && s.view == map[]
  {
    hide Step, Safe, Inv;
    StartKeeps(p);
    ConnectThenTakeOff(p, START, connect, takeOff);
  }

  lemma SafeTakeOff(p: Params, s: State, chain: seq<Block>, a: Block)
    requires GoodParams(p) && s.chain == chain + [a] && s.pool == map[] && OnePerTxid(a.vtx)
    ensures Safe(p, s, TakeOff([])) && Step(p, s, TakeOff([])).pool == map[]
  {
    hide DisconnectTip;
    PoolStaysEmpty(p, s);
  }

  /** A chain with a native currency of 50 a block, and a block that pays all of it. */
  const NATIVE := Params(true, 1, 1000, 10, 50, -1, true)

  function Paying(id: nat): Block {
    Block(id, [Tx(id, 1, [OutPoint(NULL_HASH, NULL_INDEX)], [TxOut(50, Code(0, false))], 100)])
  }

  lemma PayingFits(id: nat)
    ensures Fits(NATIVE, map[], Paying(id).vtx, 1) && OnePerTxid(Paying(id).vtx)
    ensures ApplyAll(map[], Paying(id).vtx, 1) == map[id := Coin(true, [TxOut(50, Code(0, false))], 1, 1)]
  {
    var vtx := Paying(id).vtx;
    var tx := vtx[0];
    assert vtx[1..] == [] && Init(tx.vout) == [];
    assert SumOut(tx.vout) == 50;
    assert Spendable(tx.vout) == tx.vout && Trim(tx.vout) == tx.vout;
    assert TxsValid(NATIVE, map[], vtx, 1);
    WornRules.FeesStep(NATIVE, map[], vtx, 1);
    WornRules.NoFees(NATIVE, Apply(map[], tx, 1), 1);
    assert ApplyAll(map[], vtx, 1) == Apply(map[], tx, 1);
  }

  lemma SupplyOfOne(id: nat)
    ensures var v: View := map[id := Coin(true, [TxOut(50, Code(0, false))], 1, 1)]; Supply(v) == 50
  {
    var v: View, none: View := map[id := Coin(true, [TxOut(50, Code(0, false))], 1, 1)], map[];
    var vout := v[id].vout;
    assert Init(vout) == [] && Unspent(vout) == 50;
    NoCoins();
    assert Values(v) == Values(none)[id := 50];
    MapSum.With(Values(none), id, 50);
  }

  /** Two safe runs with a native currency that end on the same chain, one by way of another branch; they end
    * with the same coins, whose total is all that may have been issued. */
  lemma SwitchExample()
    ensures var a, b := Paying(1), Paying(2);
            var s, t := Run(NATIVE, START, Switch(a, b)), Run(NATIVE, START, Connects([b]));
            && SafeRun(NATIVE, START, Switch(a, b)) && SafeRun(NATIVE, START, Connects([b]))
            && s.chain == t.chain == [b] && s.view == t.view
            && Supply(s.view) == 50 == TotalSubsidy(NATIVE, |s.chain|)
  {
    hide Run, SafeRun, Fits, ApplyAll, Supply, OnePerTxid;
    var a, b := Paying(1), Paying(2);
    PayingFits(1);
    PayingFits(2);
    SwitchBranches(NATIVE, a, b);
    ReplayOne(NATIVE, b);
    DirectRun(NATIVE, [b]);
    SupplyOfOne(2);
    SubsidyOfOne();
  }

  lemma SubsidyOfOne()
    ensures TotalSubsidy(NATIVE, 1) == 50
  {
    assert TotalSubsidy(NATIVE, 0) == 0 && Subsidy(NATIVE, 1) == 50;
  }

  lemma ReplayOne(p: Params, block: Block)
    requires GoodParams(p) && Fits(p, map[], block.vtx, 1)
    ensures Replay(p, [block]) == Some(ApplyAll(map[], block.vtx, 1))
  {
    assert Init([block]) == [];
  }
}
