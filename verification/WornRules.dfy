/** Whether the coins have been to the disk makes no difference to what is valid, to the supply or to
  * the pool.
  */
module WornRules {
  import opened Coins
  import opened Sequences
  import opened Rules
  import opened Mempool
  import opened UndoRecords
  import opened UndoDisk

  lemma SumInWorn(p: Params, v: View, s: set<TxId>, ins: seq<OutPoint>)
    requires HaveInputs(v, ins)
    ensures HaveInputs(WornView(v, s), ins) && SumIn(WornView(v, s), ins) == SumIn(v, ins)
    ensures InRange(p, WornView(v, s), ins) <==> InRange(p, v, ins)
  {
    forall i | 0 <= i < |ins| ensures Available(WornView(v, s), ins[i]) && OutAt(v, ins[i]) == OutAt(WornView(v, s), ins[i]) {
      WornOffers(v, s, ins[i]);
    }
    SumInSame(p, v, WornView(v, s), ins);
  }

  lemma MatureWorn(p: Params, v: View, s: set<TxId>, ins: seq<OutPoint>, height: int)
    requires HaveInputs(v, ins) && HaveInputs(WornView(v, s), ins)
    ensures Mature(p, WornView(v, s), ins, height) <==> Mature(p, v, ins, height)
  {
    forall i | 0 <= i < |ins|
      ensures WornView(v, s)[ins[i].hash].coinbase == v[ins[i].hash].coinbase
      ensures WornView(v, s)[ins[i].hash].height == v[ins[i].hash].height
    {
      assert Available(v, ins[i]);
    }
  }

  lemma CheckInputsWorn(p: Params, v: View, s: set<TxId>, tx: Tx, height: int)
    ensures CheckInputs(p, WornView(v, s), tx, height) <==> CheckInputs(p, v, tx, height)
  {
    hide Mature, SumIn, InRange, WornView, Available;
    forall o ensures Available(WornView(v, s), o) <==> Available(v, o) { WornOffers(v, s, o); }
    if HaveInputs(v, tx.vin) {
      SumInWorn(p, v, s, tx.vin);
      MatureWorn(p, v, s, tx.vin, height);
    }
  }

  lemma FeeWorn(p: Params, v: View, s: set<TxId>, tx: Tx)
    requires CanApply(v, tx)
    ensures CanApply(WornView(v, s), tx) && Fee(p, WornView(v, s), tx) == Fee(p, v, tx)
  {
    SumInWorn(p, v, s, Ins(tx));
  }

  lemma FeesStep(p: Params, v: View, vtx: seq<Tx>, height: int)
    requires vtx != [] && TxsValid(p, v, vtx, height)
    ensures CanApply(v, vtx[0]) && Fees(p, v, vtx, height) == Fee(p, v, vtx[0]) + Fees(p, Apply(v, vtx[0], height), vtx[1..], height)
  {}

  lemma NoFees(p: Params, v: View, height: int)
    ensures TxsValid(p, v, [], height) && Fees(p, v, [], height) == 0
  {}

  lemma {:induction false} TxsValidWorn(p: Params, v: View, s: set<TxId>, vtx: seq<Tx>, height: int)
    ensures TxsValid(p, WornView(v, s), vtx, height) <==> TxsValid(p, v, vtx, height)
    ensures TxsValid(p, v, vtx, height) ==> Fees(p, WornView(v, s), vtx, height) == Fees(p, v, vtx, height)
    decreases |vtx|
  {
    hide CheckInputs, CheckTransaction, Apply, Fee, WornView, Fees;
    if vtx != [] {
      CheckInputsWorn(p, v, s, vtx[0], height);
      if CheckTransaction(vtx[0]) && CheckInputs(p, v, vtx[0], height) {
        ApplyWorn(v, s, vtx[0], height);
        ChecksSuffice(p, v, vtx[0], height);
        FeeWorn(p, v, s, vtx[0]);
        TxsValidWorn(p, Apply(v, vtx[0], height), s - {vtx[0].hash}, vtx[1..], height);
        if TxsValid(p, v, vtx, height) {
          FeesStep(p, v, vtx, height);
          FeesStep(p, WornView(v, s), vtx, height);
        }
      }
    } else {
      NoFees(p, v, height);
      NoFees(p, WornView(v, s), height);
    }
  }

  /** A block is valid on worn coins if and only if it is on the coins as they were. */
  lemma BlockValidWorn(p: Params, v: View, s: set<TxId>, vtx: seq<Tx>, height: nat)
    requires p.interval >= 1 && p.initialReward >= 0
    ensures BlockValid(p, WornView(v, s), vtx, height) <==> BlockValid(p, v, vtx, height)
  {
    hide TxsValid, Fees;
    TxsValidWorn(p, v, s, vtx, height);
  }

  lemma SupplyWorn(v: View, s: set<TxId>)
    ensures Supply(WornView(v, s)) == Supply(v)
    ensures NonNegativeView(WornView(v, s)) <==> NonNegativeView(v)
  {
    assert Values(WornView(v, s)) == Values(v);
    if NonNegativeView(WornView(v, s)) {
      forall id | id in v ensures NonNegativeOuts(v[id].vout) { assert id in WornView(v, s); }
    }
  }

  /** The pool fits worn coins if and only if it fits the coins as they were. */
  lemma ConsistentWorn(m: Pool, v: View, s: set<TxId>)
    ensures Consistent(m, WornView(v, s)) <==> Consistent(m, v)
  {
    hide Available, WornView;
    forall o ensures MemAvailable(m, WornView(v, s), o) <==> MemAvailable(m, v, o) { WornOffers(v, s, o); }
  }

  lemma GoodWorn(v: View, s: set<TxId>)
    ensures GoodView(WornView(v, s)) <==> GoodView(v)
  {
    if GoodView(WornView(v, s)) {
      forall id | id in v ensures GoodCoin(v[id]) { assert id in WornView(v, s); }
    }
  }
}
