/** One txid, one transaction: what pool, blocks and coins hold under a txid belongs to the transaction
  * of that name.
  */
module TxNames {
  import opened Coins
  import opened Sequences
  import opened Rules
  import opened Mempool
  import opened UndoRecords
  import opened UndoDisk

  type Names = TxId -> Tx

  predicate BlockNamed(names: Names, vtx: seq<Tx>) { forall i | 0 <= i < |vtx| :: names(vtx[i].hash) == vtx[i] }

  predicate PoolNamed(names: Names, m: Pool) { forall id | id in m :: names(id) == m[id] }

  lemma NamedNoCollision(names: Names, m: Pool, vtx: seq<Tx>)
    requires PoolNamed(names, m) && BlockNamed(names, vtx)
    ensures NoCollision(m, vtx)
  {}

  lemma NamedRest(names: Names, vtx: seq<Tx>)
    requires BlockNamed(names, vtx) && vtx != []
    ensures names(vtx[0].hash) == vtx[0] && BlockNamed(names, vtx[1..])
  {
    assert forall i | 0 <= i < |vtx[1..]| :: vtx[1..][i] == vtx[i + 1];
  }

  lemma {:induction false} NamedResurrect(names: Names, p: Params, m: Pool, v: View, height: int, vtx: seq<Tx>, externalOk: seq<bool>)
    requires PoolNamed(names, m) && BlockNamed(names, vtx) && |externalOk| == |vtx|
    ensures PoolNamed(names, Resurrect(p, m, v, height, vtx, externalOk))
    decreases |vtx|
  {
    hide Acceptable;
    if vtx != [] {
      NamedRest(names, vtx);
      NamedResurrect(names, p, ResurrectOne(p, m, v, height, vtx[0], externalOk[0]), v, height, vtx[1..], externalOk[1..]);
    }
  }

  lemma {:induction false} NamedRemoveForBlock(names: Names, m: Pool, vtx: seq<Tx>)
    requires PoolNamed(names, m)
    ensures PoolNamed(names, RemoveForBlock(m, vtx))
    decreases |vtx|
  {
    if vtx != [] { NamedRemoveForBlock(names, RemoveConflicts(m - {vtx[0].hash}, vtx[0]), vtx[1..]); }
  }

  // ---- Coins -----------------------------------------------------------------------------

  /** The output that a name stands for; a null one where there is none that can be spent. */
  function NamedOut(names: Names, o: OutPoint): TxOut {
    var vout := Spendable(names(o.hash).vout);
    if o.n < |vout| then vout[o.n] else NULL_OUT
  }

  /** What the coins offer is what the transactions of those names have. */
  ghost predicate CoinsNamed(names: Names, v: View) {
    forall o {:trigger Available(v, o)} | Available(v, o) ::
      OutAt(v, o) == NamedOut(names, o) && v[o.hash].coinbase == names(o.hash).IsCoinBase()
  }

  lemma FromTxOffers(tx: Tx, height: int, n: nat)
    ensures FromTx(tx, height).IsAvailable(n) <==> n < |tx.vout| && !Spendable(tx.vout)[n].IsNull()
    ensures FromTx(tx, height).IsAvailable(n) ==> FromTx(tx, height).vout[n] == Spendable(tx.vout)[n]
  {
    assert FromTx(tx, height).vout == Trim(Spendable(tx.vout));
  }

  lemma NamedNone(names: Names)
    ensures CoinsNamed(names, map[])
  {}

  lemma StoredOut(v: View, id: TxId, c: Coin, o: OutPoint)
    requires Available(Store(v, id, c), o)
    ensures o.hash == id ==> c.IsAvailable(o.n) && OutAt(Store(v, id, c), o) == c.vout[o.n] && Store(v, id, c)[id].coinbase == c.coinbase
    ensures o.hash != id ==> Available(v, o) && Store(v, id, c)[o.hash] == v[o.hash]
  {}

  lemma NamedApply(names: Names, v: View, tx: Tx, height: int)
    requires CoinsNamed(names, v) && names(tx.hash) == tx && CanApply(v, tx)
    ensures CoinsNamed(names, Apply(v, tx, height))
  {
    hide FromTx, Store, SpendAll;
    var w, next := SpendAll(v, Ins(tx)), Apply(v, tx, height);
    SpendAllKeeps(v, Ins(tx));
    forall o | Available(next, o)
      ensures OutAt(next, o) == NamedOut(names, o) && next[o.hash].coinbase == names(o.hash).IsCoinBase()
    {
      StoredOut(w, tx.hash, FromTx(tx, height), o);
      if o.hash == tx.hash {
        FromTxOffers(tx, height, o.n);
        FromTxKind(tx, height);
      } else {
        AvailableAfterSpendAll(v, Ins(tx), o);
        OutsKept(v, Ins(tx), o);
      }
    }
  }

  lemma FromTxKind(tx: Tx, height: int)
    ensures FromTx(tx, height).coinbase == tx.IsCoinBase() && FromTx(tx, height).height == height
  {}

  lemma {:induction false} NamedApplyAll(names: Names, v: View, vtx: seq<Tx>, height: int)
    requires CoinsNamed(names, v) && BlockNamed(names, vtx) && CanApplyAll(v, vtx, height)
    ensures CoinsNamed(names, ApplyAll(v, vtx, height))
    decreases |vtx|
  {
    hide CoinsNamed, BlockNamed, Apply, CanApply;
    if vtx != [] {
      NamedRest(names, vtx);
      NamedApply(names, v, vtx[0], height);
      NamedApplyAll(names, Apply(v, vtx[0], height), vtx[1..], height);
    }
  }

  lemma NamedWorn(names: Names, v: View, s: set<TxId>)
    requires CoinsNamed(names, v)
    ensures CoinsNamed(names, WornView(v, s))
  {
    var w := WornView(v, s);
    forall o | Available(w, o) ensures OutAt(w, o) == NamedOut(names, o) && w[o.hash].coinbase == names(o.hash).IsCoinBase() {
      assert Available(v, o);
    }
  }

  /** The same holds of the coins as seen through the pool. */
  lemma NamedPoolCoins(names: Names, m: Pool, v: View)
    requires PoolNamed(names, m) && CoinsNamed(names, v)
    ensures CoinsNamed(names, PoolCoins(m, v))
  {
    hide FromTx;
    var w := PoolCoins(m, v);
    forall o | Available(w, o) ensures OutAt(w, o) == NamedOut(names, o) && w[o.hash].coinbase == names(o.hash).IsCoinBase() {
      if o.hash in m {
        FromTxOffers(m[o.hash], MEMPOOL_HEIGHT, o.n);
        FromTxKind(m[o.hash], MEMPOOL_HEIGHT);
      } else {
        assert Available(v, o);
      }
    }
  }
}
