/** Every transaction of the pool can be paid for in the next block: its inputs are mature and their
  * amounts are in order, whatever blocks come and go.
  */
module PoolFunds {
  import opened Coins
  import opened Sequences
  import opened Rules
  import opened Mempool
  import opened UndoRecords
  import opened UndoDisk
  import opened TxNames
  import PoolChecks

  // ---- Amounts do not depend on the state ------------------------------------------------------

  function NamedSum(names: Names, ins: seq<OutPoint>): int {
    if ins == [] then 0 else NamedSum(names, Init(ins)) + NamedOut(names, Last(ins)).value
  }

  predicate NamedRange(p: Params, names: Names, ins: seq<OutPoint>) {
    ins == [] ||
    (NamedRange(p, names, Init(ins)) && p.MoneyRange(NamedOut(names, Last(ins)).value) && p.MoneyRange(NamedSum(names, ins)))
  }

  predicate AmountsOk(p: Params, names: Names, tx: Tx) {
    NamedRange(p, names, tx.vin) && p.MoneyRange(NamedSum(names, tx.vin) - GetValueOut(p, tx))
  }

  ghost predicate Funded(p: Params, names: Names, m: Pool) { forall id | id in m :: AmountsOk(p, names, m[id]) }

  lemma {:induction false} NamedAmounts(p: Params, names: Names, v: View, ins: seq<OutPoint>)
    requires HaveInputs(v, ins) && CoinsNamed(names, v)
    ensures SumIn(v, ins) == NamedSum(names, ins) && (InRange(p, v, ins) <==> NamedRange(p, names, ins))
  {
    hide NamedOut;
    if ins != [] {
      NamedAmounts(p, names, v, Init(ins));
      assert Available(v, ins[|ins| - 1]);
    }
  }

  /** CheckInputs comes down to amounts, which are settled by the names, and maturity. */
  lemma ChecksAre(p: Params, names: Names, v: View, tx: Tx, height: int)
    requires !tx.IsCoinBase() && HaveInputs(v, tx.vin) && CoinsNamed(names, v)
    ensures CheckInputs(p, v, tx, height) <==> Mature(p, v, tx.vin, height) && AmountsOk(p, names, tx)
  {
    hide InRange, Mature, NamedRange, SumIn, NamedSum, CoinsNamed, Available;
    NamedAmounts(p, names, v, tx.vin);
  }

  // ---- Maturity --------------------------------------------------------------------------------

  /** This output is not that of a coinbase, or can be spent at this height. */
  predicate Ripe(p: Params, m: Pool, v: View, height: int, o: OutPoint) {
    o.hash !in m && o.hash in v && v[o.hash].coinbase ==> height - v[o.hash].height >= p.maturity
  }

  ghost predicate AllRipe(p: Params, m: Pool, v: View, height: int) {
    forall id, i | id in m && 0 <= i < |m[id].vin| :: Ripe(p, m, v, height, m[id].vin[i])
  }

  lemma InputsSeen(m: Pool, v: View, id: TxId)
    requires Consistent(m, v) && id in m
    ensures HaveInputs(PoolCoins(m, v), m[id].vin)
  {
    forall i | 0 <= i < |m[id].vin| ensures Available(PoolCoins(m, v), m[id].vin[i]) { PoolCoinsOffer(m, v, m[id].vin[i]); }
  }

  /** Only coins can be immature: the pool holds no coinbase. */
  lemma RipeIsMature(p: Params, m: Pool, v: View, height: int, ins: seq<OutPoint>)
    requires GoodPool(m) && HaveInputs(PoolCoins(m, v), ins)
    ensures Mature(p, PoolCoins(m, v), ins, height) <==> forall i | 0 <= i < |ins| :: Ripe(p, m, v, height, ins[i])
  {
    hide FromTx;
    var w := PoolCoins(m, v);
    forall i | 0 <= i < |ins| ensures ins[i].hash in w && (ins[i].hash in m ==> !w[ins[i].hash].coinbase) {
      assert Available(w, ins[i]);
      if ins[i].hash in m { FromTxKind(m[ins[i].hash], MEMPOOL_HEIGHT); }
    }
    if Mature(p, w, ins, height) {
      forall i | 0 <= i < |ins| ensures Ripe(p, m, v, height, ins[i]) {}
    }
    if forall i | 0 <= i < |ins| :: Ripe(p, m, v, height, ins[i]) {
      forall i | 0 <= i < |ins| && w[ins[i].hash].coinbase ensures height - w[ins[i].hash].height >= p.maturity {
        assert Ripe(p, m, v, height, ins[i]);
      }
    }
  }

  lemma PayableIff(p: Params, names: Names, m: Pool, v: View, height: int)
    requires Consistent(m, v) && PoolNamed(names, m) && CoinsNamed(names, v)
    ensures Payable(p, m, v, height) <==> Funded(p, names, m) && AllRipe(p, m, v, height)
  {
    hide CheckInputs, AmountsOk, Ripe, PoolCoins, CoinsNamed, MemAvailable, Mature;
    NamedPoolCoins(names, m, v);
    forall id | id in m
      ensures CheckInputs(p, PoolCoins(m, v), m[id], height) <==>
              AmountsOk(p, names, m[id]) && forall i | 0 <= i < |m[id].vin| :: Ripe(p, m, v, height, m[id].vin[i])
    {
      InputsSeen(m, v, id);
      ChecksAre(p, names, PoolCoins(m, v), m[id], height);
      RipeIsMature(p, m, v, height, m[id].vin);
    }
  }

  // ---- A transaction is accepted ---------------------------------------------------------------

  lemma AcceptedIs(p: Params, names: Names, m: Pool, v: View, height: int, tx: Tx)
    requires GoodPool(m) && PoolNamed(names, m) && CoinsNamed(names, v) && Acceptable(p, m, v, height, tx)
    ensures AmountsOk(p, names, tx) && forall i | 0 <= i < |tx.vin| :: Ripe(p, m, v, height, tx.vin[i])
  {
    hide CheckInputs, AmountsOk, Ripe, PoolCoins, CoinsNamed, MemAvailable, Mature, SharesInput;
    var w := PoolCoins(m, v);
    forall i | 0 <= i < |tx.vin| ensures Available(w, tx.vin[i]) { PoolCoinsOffer(m, v, tx.vin[i]); }
    NamedPoolCoins(names, m, v);
    ChecksAre(p, names, w, tx, height);
    RipeIsMature(p, m, v, height, tx.vin);
  }

  lemma AcceptPayable(p: Params, names: Names, m: Pool, v: View, height: int, tx: Tx)
    requires Consistent(m, v) && PoolNamed(names, m) && CoinsNamed(names, v) && names(tx.hash) == tx
    requires Payable(p, m, v, height) && Acceptable(p, m, v, height, tx)
    ensures Payable(p, m[tx.hash := tx], v, height)
  {
    hide CheckInputs, AmountsOk, CoinsNamed, MemAvailable, SharesInput, Payable, PoolCoins, Acceptable, Consistent, GoodPool;
    AcceptKeeps(p, m, v, height, tx);
    PayableIff(p, names, m, v, height);
    FundedAccept(p, names, m, v, height, tx);
    AcceptedRipe(p, names, m, v, height, tx);
    RipeAccept(p, m, v, height, tx);
    PayableIff(p, names, m[tx.hash := tx], v, height);
  }

  lemma AcceptedRipe(p: Params, names: Names, m: Pool, v: View, height: int, tx: Tx)
    requires Consistent(m, v) && PoolNamed(names, m) && CoinsNamed(names, v) && Acceptable(p, m, v, height, tx)
    ensures forall i | 0 <= i < |tx.vin| :: Ripe(p, m, v, height, tx.vin[i])
  {
    AcceptedIs(p, names, m, v, height, tx);
  }

  lemma FundedAccept(p: Params, names: Names, m: Pool, v: View, height: int, tx: Tx)
    requires Consistent(m, v) && PoolNamed(names, m) && CoinsNamed(names, v) && Funded(p, names, m) && Acceptable(p, m, v, height, tx)
    ensures Funded(p, names, m[tx.hash := tx])
  {
    hide AmountsOk, CoinsNamed, Acceptable;
    AcceptedIs(p, names, m, v, height, tx);
  }

  lemma RipeAccept(p: Params, m: Pool, v: View, height: int, tx: Tx)
    requires AllRipe(p, m, v, height) && forall i | 0 <= i < |tx.vin| :: Ripe(p, m, v, height, tx.vin[i])
    ensures AllRipe(p, m[tx.hash := tx], v, height)
  {
    var n := m[tx.hash := tx];
    forall id, i | id in n && 0 <= i < |n[id].vin| ensures Ripe(p, n, v, height, n[id].vin[i]) {
      assert Ripe(p, m, v, height, n[id].vin[i]);
    }
  }

  // ---- A block is connected --------------------------------------------------------------------

  /** A record that the block does not write keeps its height. */
  lemma {:induction false} RecordKept(v: View, vtx: seq<Tx>, height: int, id: TxId)
    requires CanApplyAll(v, vtx, height) && id in ApplyAll(v, vtx, height) && forall k | 0 <= k < |vtx| :: vtx[k].hash != id
    ensures id in v && ApplyAll(v, vtx, height)[id].height == v[id].height
    decreases |vtx|
  {
    hide SpendAll, FromTx;
    if vtx != [] {
      SpendAllKeeps(v, Ins(vtx[0]));
      assert forall k | 0 <= k < |vtx[1..]| :: vtx[1..][k] == vtx[k + 1];
      RecordKept(Apply(v, vtx[0], height), vtx[1..], height, id);
    }
  }

  /** A coinbase that the pool spends is older than the block, and as high as before. */
  lemma OldCoinbase(names: Names, v: View, vtx: seq<Tx>, height: int, o: OutPoint)
    requires CheckBlock(vtx) && BlockNamed(names, vtx) && CanApplyAll(v, vtx, height) && NoOverwrites(v, vtx, height)
    requires names(o.hash).IsCoinBase() && o.hash in v && o.hash in ApplyAll(v, vtx, height)
    ensures ApplyAll(v, vtx, height)[o.hash].height == v[o.hash].height
  {
    hide ApplyAll, CanApplyAll, Apply;
    FirstFits(v, vtx, height);
    forall k | 0 <= k < |vtx| ensures vtx[k].hash != o.hash {
      assert names(vtx[k].hash) == vtx[k];
    }
    RecordKept(v, vtx, height, o.hash);
  }

  /** The coinbase of a block that overwrites nothing has a txid of its own. */
  lemma FirstFits(v: View, vtx: seq<Tx>, height: int)
    requires CheckBlock(vtx) && CanApplyAll(v, vtx, height) && NoOverwrites(v, vtx, height)
    ensures vtx[0].hash !in v
  {}

  lemma RipeConnect(p: Params, names: Names, m: Pool, v: View, vtx: seq<Tx>, height: int)
    requires Consistent(m, v) && AllRipe(p, m, v, height) && PoolNamed(names, m) && CoinsNamed(names, v)
    requires CheckBlock(vtx) && BlockNamed(names, vtx) && CanApplyAll(v, vtx, height) && NoOverwrites(v, vtx, height)
    ensures AllRipe(p, RemoveForBlock(m, vtx), ApplyAll(v, vtx, height), height + 1)
  {
    hide CheckBlock, BlockNamed, CanApplyAll, NoOverwrites, ApplyAll, NamedOut, FromTx, RemoveForBlock, NoCollision;
    var left, w := RemoveForBlock(m, vtx), ApplyAll(v, vtx, height);
    NamedNoCollision(names, m, vtx);
    ConnectBlockKeeps(m, v, vtx, height);
    RemoveForBlockShrinks(m, vtx);
    NamedApplyAll(names, v, vtx, height);
    forall id, i | id in left && 0 <= i < |left[id].vin| ensures Ripe(p, left, w, height + 1, left[id].vin[i]) {
      var o := left[id].vin[i];
      assert MemAvailable(left, w, o) && MemAvailable(m, v, o) && Ripe(p, m, v, height, o);
      if o.hash !in left && w[o.hash].coinbase {
        assert Available(w, o);
        assert o.hash !in m;
        assert Available(v, o);
        OldCoinbase(names, v, vtx, height, o);
      }
    }
  }

  lemma FundedSome(p: Params, names: Names, m: Pool, some: Pool)
    requires Funded(p, names, m) && forall id | id in some :: id in m && some[id] == m[id]
    ensures Funded(p, names, some)
  {
    hide AmountsOk;
  }

  /** Connecting a block leaves only transactions that can be paid for in the block after it. */
  lemma ConnectPayable(p: Params, names: Names, m: Pool, v: View, vtx: seq<Tx>, height: int)
    requires Consistent(m, v) && PoolNamed(names, m) && CoinsNamed(names, v) && Payable(p, m, v, height)
    requires CheckBlock(vtx) && BlockNamed(names, vtx) && CanApplyAll(v, vtx, height) && NoOverwrites(v, vtx, height)
    ensures Payable(p, RemoveForBlock(m, vtx), ApplyAll(v, vtx, height), height + 1)
  {
    hide Consistent, PoolNamed, CoinsNamed, Payable, CheckBlock, BlockNamed, CanApplyAll, NoOverwrites, ApplyAll, RemoveForBlock, AllRipe,
         AmountsOk, NoCollision;
    PayableIff(p, names, m, v, height);
    RipeConnect(p, names, m, v, vtx, height);
    RemoveForBlockShrinks(m, vtx);
    FundedSome(p, names, m, RemoveForBlock(m, vtx));
    NamedNoCollision(names, m, vtx);
    ConnectBlockKeeps(m, v, vtx, height);
    NamedRemoveForBlock(names, m, vtx);
    NamedApplyAll(names, v, vtx, height);
    PayableIff(p, names, RemoveForBlock(m, vtx), ApplyAll(v, vtx, height), height + 1);
  }

  // ---- A block is taken off --------------------------------------------------------------------

  /** What comes back in a resurrection has been checked; the rest was funded before. */
  lemma {:induction false} FundedResurrect(p: Params, names: Names, m: Pool, v: View, height: int, vtx: seq<Tx>, externalOk: seq<bool>)
    requires |externalOk| == |vtx| && GoodPool(m) && PoolNamed(names, m) && BlockNamed(names, vtx) && CoinsNamed(names, v)
    requires Funded(p, names, m)
    ensures Funded(p, names, Resurrect(p, m, v, height, vtx, externalOk))
    decreases |vtx|
  {
    hide CoinsNamed, BlockNamed, Acceptable, AmountsOk, CheckTransaction;
    if vtx != [] {
      NamedRest(names, vtx);
      var next := ResurrectOne(p, m, v, height, vtx[0], externalOk[0]);
      if externalOk[0] && Acceptable(p, m, v, height, vtx[0]) {
        AcceptedIs(p, names, m, v, height, vtx[0]);
        AcceptedGood(p, m, v, height, vtx[0]);
      }
      FundedResurrect(p, names, next, v, height, vtx[1..], externalOk[1..]);
    }
  }

  lemma AcceptedGood(p: Params, m: Pool, v: View, height: int, tx: Tx)
    requires GoodPool(m) && Acceptable(p, m, v, height, tx)
    ensures GoodPool(m[tx.hash := tx])
  {}

  /** What is left after the removal of immature spends is ripe at the height of the removed block. */
  lemma RipeTakeOff(p: Params, m: Pool, v: View, height: int)
    requires Consistent(m, v) && HeightsBelow(v, height) && GoodView(v) && height < WORD / 2
    ensures AllRipe(p, RemoveCoinbaseSpends(m, v, height, p.maturity), v, height)
  {
    hide Available, FromTx;
    var left := RemoveCoinbaseSpends(m, v, height, p.maturity);
    NothingImmatureLeft(m, v, height, p.maturity);
    forall id, i | id in left && 0 <= i < |left[id].vin| ensures Ripe(p, left, v, height, left[id].vin[i]) {
      assert id !in Immature(left, v, height, p.maturity);
      assert !SpendsImmature(left, v, height, p.maturity, left[id]);
      var o := left[id].vin[i];
      if o.hash !in left && o.hash in v && v[o.hash].coinbase { SmallAge(height, v[o.hash].height, p.maturity); }
    }
  }

  /** An age computed without a sign tells the same as one computed with a sign. */
  lemma SmallAge(height: int, low: int, maturity: Int32)
    requires 1 <= low < height < WORD / 2
    ensures (height - low) % 0x1_0000_0000 >= maturity % 0x1_0000_0000 ==> height - low >= maturity
  {}

  /** Taking a block off leaves only transactions that can be paid for in its place. */
  lemma TakeOffPayable(p: Params, names: Names, m: Pool, after: View, v: View, vtx: seq<Tx>, height: int, externalOk: seq<bool>)
    requires |externalOk| == |vtx| && Consistent(m, after) && PoolNamed(names, m) && CoinsNamed(names, after)
    requires Payable(p, m, after, height + 1) && BlockNamed(names, vtx) && CoinsNamed(names, v)
    requires Consistent(Resurrect(p, m, v, height, vtx, externalOk), v)
    requires HeightsBelow(v, height) && GoodView(v) && height < WORD / 2
    ensures Payable(p, RemoveCoinbaseSpends(Resurrect(p, m, v, height, vtx, externalOk), v, height, p.maturity), v, height)
  {
    hide Payable, PoolNamed, CoinsNamed, BlockNamed, AllRipe, AmountsOk, HeightsBelow, GoodView, Resurrect, MemAvailable;
    var back := Resurrect(p, m, v, height, vtx, externalOk);
    var left := RemoveCoinbaseSpends(back, v, height, p.maturity);
    PayableIff(p, names, m, after, height + 1);
    FundedResurrect(p, names, m, v, height, vtx, externalOk);
    FundedSome(p, names, back, left);
    RipeTakeOff(p, back, v, height);
    RemoveCoinbaseSpendsKeeps(back, v, height, p.maturity);
    NamedResurrect(names, p, m, v, height, vtx, externalOk);
    NamedSome(names, back, left);
    PayableIff(p, names, left, v, height);
  }

  lemma NamedSome(names: Names, m: Pool, some: Pool)
    requires PoolNamed(names, m) && forall id | id in some :: id in m && some[id] == m[id]
    ensures PoolNamed(names, some)
  {}

  lemma WornPayable(p: Params, names: Names, m: Pool, v: View, s: set<TxId>, height: int)
    requires Consistent(m, v) && Consistent(m, WornView(v, s)) && PoolNamed(names, m) && CoinsNamed(names, v) && Payable(p, m, v, height)
    ensures Payable(p, m, WornView(v, s), height)
  {
    hide CoinsNamed, Consistent, Payable;
    PayableIff(p, names, m, v, height);
    NamedWorn(names, v, s);
    forall id, i | id in m && 0 <= i < |m[id].vin| ensures Ripe(p, m, WornView(v, s), height, m[id].vin[i]) {
      assert Ripe(p, m, v, height, m[id].vin[i]);
    }
    PayableIff(p, names, m, WornView(v, s), height);
  }

  /** Where pool and coins hold the same txid, it is the same transaction. */
  lemma NamedAgrees(names: Names, m: Pool, v: View)
    requires GoodPool(m) && PoolNamed(names, m) && CoinsNamed(names, v)
    ensures PoolChecks.Agrees(m, v)
  {
    hide FromTx;
    forall o | Available(v, o) && o.hash in m
      ensures && FromTx(m[o.hash], MEMPOOL_HEIGHT).IsAvailable(o.n) && FromTx(m[o.hash], MEMPOOL_HEIGHT).vout[o.n] == OutAt(v, o)
              && !v[o.hash].coinbase
    {
      FromTxOffers(m[o.hash], MEMPOOL_HEIGHT, o.n);
    }
  }
}
