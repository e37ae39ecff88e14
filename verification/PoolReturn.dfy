/** A block that is connected and taken off again gives its transactions back to the pool.
  */
module PoolReturn {
  import opened Coins
  import opened Sequences
  import opened Rules
  import opened Mempool
  import opened RulesExact
  import opened CoinsExact
  import opened PoolExact

  /** The output was written by this transaction, at this height. */
  predicate WrittenBy(c: Coin, o: OutPoint, tx: Tx, height: int) {
    && c.coinbase == tx.IsCoinBase() && c.height == height
    && o.hash == tx.hash && o.n < |tx.vout| && !tx.vout[o.n].script.IsUnspendable()
    && o.n < |c.vout| && c.vout[o.n] == tx.vout[o.n]
  }

  /** What the k-th transaction of a block can spend was written by an earlier one, or was there before. */
  lemma {:induction false} SeenFrom(v: View, vtx: seq<Tx>, height: int, k: nat, o: OutPoint)
    requires k <= |vtx| && CanApplyAll(v, vtx, height) && Available(ViewAt(v, vtx, height, k), o)
    ensures var c := ViewAt(v, vtx, height, k)[o.hash];
            || (exists j | 0 <= j < k :: WrittenBy(c, o, vtx[j], height))
            || (Available(v, o) && SameKind(c, v[o.hash]) && c.vout[o.n] == v[o.hash].vout[o.n])
    decreases |vtx|
  {
    if k > 0 {
      hide Apply, CheckTransaction, Available;
      var w, rest := Apply(v, vtx[0], height), vtx[1..];
      SeenFrom(w, rest, height, k - 1, o);
      var c := ViewAt(v, vtx, height, k)[o.hash];
      if j :| 0 <= j < k - 1 && WrittenBy(c, o, rest[j], height) {
        assert WrittenBy(c, o, vtx[j + 1], height);
      } else {
        FirstOrBefore(v, vtx[0], height, o, c);
        if WrittenBy(c, o, vtx[0], height) { assert 0 < k; }
      }
    }
  }

  lemma FirstOrBefore(v: View, tx: Tx, height: int, o: OutPoint, c: Coin)
    requires CanApply(v, tx) && Available(Apply(v, tx, height), o)
    requires SameKind(c, Apply(v, tx, height)[o.hash]) && o.n < |c.vout| && c.vout[o.n] == Apply(v, tx, height)[o.hash].vout[o.n]
    ensures || WrittenBy(c, o, tx, height)
            || (Available(v, o) && SameKind(c, v[o.hash]) && c.vout[o.n] == v[o.hash].vout[o.n])
  {
    hide Apply, CheckTransaction;
    OutputsAfterApply(v, tx, height, o);
  }

  /** A pool that has nothing to do with the block, as it is after the block was connected. */
  ghost predicate Apart(m: Pool, v: View, vtx: seq<Tx>) {
    && GoodPool(m) && m.Keys !! v.Keys && m.Keys !! TxidsOf(vtx)
    && forall id, k | id in m && 0 <= k < |vtx| :: !SharesInput(m[id], vtx[k])
  }

  /** The pool together with the block's transactions from the second one up to the k-th. */
  ghost function Joined(m: Pool, vtx: seq<Tx>, k: nat): Pool
    requires k <= |vtx|
    decreases k
  {
    if k <= 1 then m else Joined(m, vtx, k - 1)[vtx[k - 1].hash := vtx[k - 1]]
  }

  lemma {:induction false} JoinedHas(m: Pool, v: View, vtx: seq<Tx>, k: nat)
    requires k <= |vtx| && NewTxids(v, vtx) && m.Keys !! TxidsOf(vtx)
    ensures forall id | id in Joined(m, vtx, k) ::
              if id in m then Joined(m, vtx, k)[id] == m[id]
              else exists j | 1 <= j < k :: id == vtx[j].hash && Joined(m, vtx, k)[id] == vtx[j]
    ensures forall j | 1 <= j < k :: vtx[j].hash in Joined(m, vtx, k) && Joined(m, vtx, k)[vtx[j].hash] == vtx[j]
    ensures forall id | id in m :: id in Joined(m, vtx, k)
    decreases k
  {
    if k > 1 {
      JoinedHas(m, v, vtx, k - 1);
      assert vtx[k - 1] in vtx;
    }
  }

  /** What the coinbase of the block pays cannot be spent in the same block. */
  lemma OfferedBack(p: Params, m: Pool, v: View, vtx: seq<Tx>, height: int, k: nat, o: OutPoint)
    requires p.maturity >= 1 && Apart(m, v, vtx) && CanApplyAll(v, vtx, height) && NewTxids(v, vtx) && CheckBlock(vtx)
    requires 1 <= k < |vtx| && CanSpend(p, ViewAt(v, vtx, height, k), height, o)
    ensures Offered(p, Joined(m, vtx, k), v, height, o)
    ensures ValueOf(Joined(m, vtx, k), v, o) == ViewAt(v, vtx, height, k)[o.hash].vout[o.n].value
  {
    hide CanApplyAll, NewTxids, Joined, CheckTransaction, ViewAt;
    var c := ViewAt(v, vtx, height, k)[o.hash];
    JoinedHas(m, v, vtx, k);
    SeenFrom(v, vtx, height, k, o);
    if j :| 0 <= j < k && WrittenBy(c, o, vtx[j], height) {
      assert j >= 1;
      assert Joined(m, vtx, k)[o.hash] == vtx[j];
    } else {
      assert o.hash in v;
      NotJoined(m, v, vtx, k, o.hash);
    }
  }

  lemma NotJoined(m: Pool, v: View, vtx: seq<Tx>, k: nat, id: TxId)
    requires k <= |vtx| && Apart(m, v, vtx) && NewTxids(v, vtx) && id in v
    ensures id !in Joined(m, vtx, k)
  {
    JoinedHas(m, v, vtx, k);
  }

  lemma NewAgain(p: Params, m: Pool, v: View, vtx: seq<Tx>, height: int, k: nat)
    requires Apart(m, v, vtx) && CanApplyAll(v, vtx, height) && NewTxids(v, vtx) && CheckBlock(vtx) && 1 <= k < |vtx|
    ensures NewTo(Joined(m, vtx, k), vtx[k])
  {
    hide CanApplyAll, Joined, CheckTransaction;
    var n := Joined(m, vtx, k);
    JoinedHas(m, v, vtx, k);
    assert vtx[k] in vtx;
    forall id | id in n ensures !SharesInput(n[id], vtx[k]) {
      if id !in m {
        var j :| 1 <= j < k && id == vtx[j].hash && n[id] == vtx[j];
        if SharesInput(vtx[j], vtx[k]) {
          var i :| 0 <= i < |vtx[j].vin| && vtx[j].vin[i] in vtx[k].vin;
          NoDoubleSpend(v, vtx, height, j, k, vtx[j].vin[i]);
        }
      }
    }
    NewToIff(n, vtx[k]);
  }

  lemma WelcomeBack(p: Params, m: Pool, v: View, vtx: seq<Tx>, height: int, k: nat)
    requires p.maturity >= 1 && Apart(m, v, vtx) && NewTxids(v, vtx) && CheckBlock(vtx)
    requires CanApplyAll(v, vtx, height) && EachPasses(p, v, vtx, height) && 1 <= k < |vtx|
    ensures Welcome(p, Joined(m, vtx, k), v, height, vtx[k])
  {
    hide CanApplyAll, NewTxids, Joined, CheckTransaction, ViewAt, NewTo, CheckInputs, Apart, EachWithin, Total, Available;
    var n, w, ins := Joined(m, vtx, k), ViewAt(v, vtx, height, k), vtx[k].vin;
    NewAgain(p, m, v, vtx, height, k);
    FreshTxid(v, vtx, k);
    CheckInputsIff(p, w, vtx[k], height);
    forall i | 0 <= i < |ins|
      ensures CanSpend(p, w, height, ins[i]) && Offered(p, n, v, height, ins[i])
      ensures InValues(w, ins)[i] == ValueOf(n, v, ins[i])
    {
      OfferedBack(p, m, v, vtx, height, k, ins[i]);
    }
    assert InValues(w, ins) == OfferedValues(p, n, v, height, ins);
  }

  lemma FreshTxid(v: View, vtx: seq<Tx>, k: nat)
    requires NewTxids(v, vtx) && k < |vtx|
    ensures vtx[k].hash !in v
  {}

  /** The coinbase does not come back; what in the pool depends on it leaves. */
  ghost function WithoutCoinbase(m: Pool, vtx: seq<Tx>): Pool
    requires vtx != []
  {
    m - Reach(m, Children(m, vtx[0]))
  }

  lemma StillApart(m: Pool, v: View, vtx: seq<Tx>)
    requires vtx != [] && Apart(m, v, vtx)
    ensures Apart(WithoutCoinbase(m, vtx), v, vtx)
  {
    hide Reach, SharesInput, CheckTransaction;
  }

  lemma CoinbaseTurn(p: Params, m: Pool, v: View, vtx: seq<Tx>, height: int, ok: seq<bool>)
    requires |ok| == |vtx| && CheckBlock(vtx) && Apart(m, v, vtx)
    ensures Before(p, m, v, height, vtx, ok, 1) == WithoutCoinbase(m, vtx)
  {
    hide Reach, Before, Children;
    assert vtx[0] in vtx;
    BeforeNone(p, m, v, height, vtx, ok);
    ReadmittedIff(p, m, v, height, vtx, ok, 0);
  }

  /** Taking a block off right after it was connected, with nobody objecting, gives back all of its transactions
    * but the coinbase; of what was in the pool only what depends on that coinbase leaves. */
  lemma {:induction false} AllComeBack(p: Params, m: Pool, v: View, vtx: seq<Tx>, height: int, ok: seq<bool>, k: nat)
    requires p.maturity >= 1 && Apart(m, v, vtx) && NewTxids(v, vtx) && CheckBlock(vtx)
    requires CanApplyAll(v, vtx, height) && EachPasses(p, v, vtx, height)
    requires |ok| == |vtx| && (forall i | 0 <= i < |ok| :: ok[i]) && 1 <= k <= |vtx|
    ensures Before(p, m, v, height, vtx, ok, k) == Joined(WithoutCoinbase(m, vtx), vtx, k)
    decreases k
  {
    hide CanApplyAll, NewTxids, CheckTransaction, EachPasses, Before, Welcome, WithoutCoinbase, Apart;
    if k > 1 {
      AllComeBack(p, m, v, vtx, height, ok, k - 1);
      StillApart(m, v, vtx);
      WelcomeBack(p, WithoutCoinbase(m, vtx), v, vtx, height, k - 1);
      ApartGood(m, v, vtx);
      ReadmittedIff(p, m, v, height, vtx, ok, k - 1);
    } else {
      CoinbaseTurn(p, m, v, vtx, height, ok);
    }
  }

  lemma ApartGood(m: Pool, v: View, vtx: seq<Tx>)
    requires Apart(m, v, vtx)
    ensures GoodPool(m)
  {}

  /** After a block was connected the pool has nothing to do with it. */
  lemma ApartAfterConnect(m: Pool, v: View, vtx: seq<Tx>)
    requires GoodPool(m) && m.Keys !! v.Keys
    ensures Apart(RemoveForBlock(m, vtx), v, vtx)
  {
    hide SharesInput, CheckTransaction;
    RemoveForBlockShrinks(m, vtx);
    ConflictsReachLeaves(m, vtx);
    var left := RemoveForBlock(m, vtx);
    forall id, k | id in left && 0 <= k < |vtx| ensures !SharesInput(left[id], vtx[k]) { NoConflictLeft(m, vtx, k); }
  }

  lemma ApartKeys(m: Pool, v: View, vtx: seq<Tx>)
    requires Apart(m, v, vtx)
    ensures m.Keys !! TxidsOf(vtx)
  {}

  /** Nor do they leave again for spending a coinbase that is too young. */
  lemma ReturnedStay(p: Params, m: Pool, v: View, vtx: seq<Tx>, height: nat)
    requires p.maturity >= 1 && Apart(m, v, vtx) && NewTxids(v, vtx) && CheckBlock(vtx)
    requires CanApplyAll(v, vtx, height) && EachPasses(p, v, vtx, height) && HeightsUpTo(v, height, p.maturity)
    ensures forall k | 1 <= k < |vtx| ::
              vtx[k].hash in RemoveCoinbaseSpends(Joined(m, vtx, |vtx|), v, height, p.maturity)
  {
    var n := Joined(m, vtx, |vtx|);
    JoinedHas(m, v, vtx, |vtx|);
    var others := m.Keys;
    var roots := Immature(n, v, height, p.maturity);
    forall a, c | a in others && c in n && SpendsFrom(n[c], n[a]) ensures c in others {
      if c !in m { FromOthers(p, m, v, vtx, height, a, c); }
    }
    forall id | id in roots ensures id in others {
      if id !in m { NotImmature(p, m, v, vtx, height, id); }
    }
    ReachLeast(n, roots, others);
    forall k | 1 <= k < |vtx| ensures vtx[k].hash !in m { assert vtx[k] in vtx; }
  }

  /** A returned transaction spends nothing of what else is in the pool. */
  lemma FromOthers(p: Params, m: Pool, v: View, vtx: seq<Tx>, height: nat, a: TxId, c: TxId)
    requires p.maturity >= 1 && Apart(m, v, vtx) && NewTxids(v, vtx) && CheckBlock(vtx)
    requires CanApplyAll(v, vtx, height) && EachPasses(p, v, vtx, height)
    requires a in m && c in Joined(m, vtx, |vtx|) && c !in m
    ensures !SpendsFrom(Joined(m, vtx, |vtx|)[c], m[a])
  {
    JoinedHas(m, v, vtx, |vtx|);
    var k :| 1 <= k < |vtx| && c == vtx[k].hash && Joined(m, vtx, |vtx|)[c] == vtx[k];
    if SpendsFrom(vtx[k], m[a]) {
      ParentInBlock(m, v, vtx, height, a, k);
    }
  }

  /** The coin is there, and no coinbase younger than maturity by the unsigned comparison. */
  predicate OldEnough(v: View, height: int, maturity: int, o: OutPoint) {
    && o.hash in v
    && (v[o.hash].coinbase ==> (height - v[o.hash].height) % 0x1_0000_0000 >= maturity % 0x1_0000_0000)
  }

  lemma SpendableOldEnough(p: Params, v: View, height: int, o: OutPoint)
    requires CanSpend(p, v, height, o) && HeightsUpTo(v, height, p.maturity)
    ensures OldEnough(v, height, p.maturity, o)
  {
    AgeIs(height, v[o.hash].height, p.maturity);
  }

  lemma NotImmature(p: Params, m: Pool, v: View, vtx: seq<Tx>, height: nat, id: TxId)
    requires p.maturity >= 1 && Apart(m, v, vtx) && NewTxids(v, vtx) && CheckBlock(vtx)
    requires CanApplyAll(v, vtx, height) && EachPasses(p, v, vtx, height) && HeightsUpTo(v, height, p.maturity)
    requires id in Joined(m, vtx, |vtx|) && id !in m
    ensures !SpendsImmature(Joined(m, vtx, |vtx|), v, height, p.maturity, Joined(m, vtx, |vtx|)[id])
  {
    hide CanApplyAll, NewTxids, CheckTransaction, Joined, Apart, ViewAt, EachPasses, TxidsOf, HeightsUpTo, CanSpend,
         EachWithin, Total, NewTo, CheckBlock;
    var n := Joined(m, vtx, |vtx|);
    ApartKeys(m, v, vtx);
    JoinedHas(m, v, vtx, |vtx|);
    var k :| 1 <= k < |vtx| && id == vtx[k].hash && n[id] == vtx[k];
    WelcomeBack(p, m, v, vtx, height, k);
    JoinedHas(m, v, vtx, k);
    forall i | 0 <= i < |vtx[k].vin| && vtx[k].vin[i].hash !in n
      ensures OldEnough(v, height, p.maturity, vtx[k].vin[i])
    {
      assert Offered(p, Joined(m, vtx, k), v, height, vtx[k].vin[i]);
      SpendableOldEnough(p, v, height, vtx[k].vin[i]);
    }
  }

  /** A valid block of new transactions is connected and taken off again: with nobody objecting, every transaction
    * of the block but its coinbase is in the pool, whatever the pool held of it before. */
  lemma NothingLost(p: Params, m: Pool, v: View, vtx: seq<Tx>, height: nat, ok: seq<bool>, k: nat)
    requires p.interval >= 1 && p.initialReward >= 0 && p.maturity >= 1
    requires GoodPool(m) && m.Keys !! v.Keys && BlockValid(p, v, vtx, height) && NewTxids(v, vtx)
    requires HeightsUpTo(v, height, p.maturity)
    requires |ok| == |vtx| && (forall i | 0 <= i < |ok| :: ok[i]) && 1 <= k < |vtx|
    ensures var resurrected := Resurrect(p, RemoveForBlock(m, vtx), v, height, vtx, ok);
            var after := RemoveCoinbaseSpends(resurrected, v, height, p.maturity);
            vtx[k].hash in after && after[vtx[k].hash] == vtx[k]
  {
    hide BlockValid, NewTxids, EachPasses, Before, Apart, RemoveForBlock, Resurrect, Collected, WithoutCoinbase,
         CheckTransaction, HeightsUpTo;
    var left := RemoveForBlock(m, vtx);
    BlockValidIff(p, v, vtx, height);
    ApartAfterConnect(m, v, vtx);
    AllComeBack(p, left, v, vtx, height, ok, |vtx|);
    BeforeAll(p, left, v, height, vtx, ok);
    StillApart(left, v, vtx);
    ApartKeys(WithoutCoinbase(left, vtx), v, vtx);
    JoinedHas(WithoutCoinbase(left, vtx), v, vtx, |vtx|);
    ReturnedStay(p, WithoutCoinbase(left, vtx), v, vtx, height);
  }
}
