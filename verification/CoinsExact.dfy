/** What a transaction leaves behind in the coins, record by record, and what the consistency checks of a roll-back are
  * worth for undo data of any kind.
  */
module CoinsExact {
  import opened Coins
  import opened Sequences

  /** A coinbase has the one input that no output can be named by. */
  lemma CoinbaseIs(tx: Tx)
    ensures tx.IsCoinBase() <==> tx.vin == [OutPoint(0, 0xFFFF_FFFF)]
  {
    if |tx.vin| == 1 { assert tx.vin == [tx.vin[0]]; }
  }

  // ---- Records after a transaction ---------------------------------------------------------

  /** Nothing else of a record changes when outputs of it are spent. */
  predicate SameKind(a: Coin, b: Coin) { a.coinbase == b.coinbase && a.height == b.height && a.version == b.version }

  lemma {:induction false} SpendAllOuts(v: View, ins: seq<OutPoint>, o: OutPoint)
    requires Available(SpendAll(v, ins), o)
    ensures Available(v, o) && SameKind(SpendAll(v, ins)[o.hash], v[o.hash])
    ensures SpendAll(v, ins)[o.hash].vout[o.n] == v[o.hash].vout[o.n]
  {
    AvailableAfterSpendAll(v, ins, o);
    if ins != [] {
      var w := SpendAll(v, Init(ins));
      if Available(w, Last(ins)) {
        AvailableAfterSpend(w, Last(ins), o);
        SpendOneIs(w, Last(ins));
      }
      SpendAllOuts(v, Init(ins), o);
    }
  }

  /** The record a transaction leaves under its txid: what kind of transaction it was, where, and its spendable outputs,
    * each in its place. All other outputs are those from before. */
  lemma OutputsAfterApply(v: View, tx: Tx, height: int, o: OutPoint)
    requires CanApply(v, tx) && Available(Apply(v, tx, height), o)
    ensures var c := Apply(v, tx, height)[o.hash];
            if o.hash == tx.hash then
              && c.coinbase == tx.IsCoinBase() && c.height == height && c.version == tx.version
              && o.n < |tx.vout| && c.vout[o.n] == tx.vout[o.n] && !tx.vout[o.n].script.IsUnspendable()
            else Available(v, o) && o !in Ins(tx) && SameKind(c, v[o.hash]) && c.vout[o.n] == v[o.hash].vout[o.n]
  {
    AvailableAfterApply(v, tx, height, o);
    TrimKeeps(FromTx(tx, height).vout);
    if o.hash != tx.hash { SpendAllOuts(v, Ins(tx), o); }
  }

  /** And every spendable output is there. */
  lemma OutputsThere(v: View, tx: Tx, height: int, n: nat)
    requires CanApply(v, tx) && n < |tx.vout| && !tx.vout[n].script.IsUnspendable()
    ensures Available(Apply(v, tx, height), OutPoint(tx.hash, n))
  {
    AvailableAfterApply(v, tx, height, OutPoint(tx.hash, n));
    assert Spendable(tx.vout)[n] == tx.vout[n];
  }

  // ---- What the checks of a roll-back are worth --------------------------------------------

  lemma GoodNotPruned(c: Coin)
    requires GoodCoin(c)
    ensures !c.IsPruned()
  {}

  /** The record an output was put back into, as it is stored. */
  lemma StoredIs(v: View, o: OutPoint, u: TxInUndo)
    requires GoodView(v) && !u.txout.IsNull()
    ensures var w, base := RestoreOne(Rollback(v, true), o, u).view, RestoreBase(Lookup(v, o.hash), u);
            var r := base.(vout := Padded(base.vout, o.n + 1)[o.n := u.txout]);
            && o.n < |r.vout| && r.vout[o.n] == u.txout && r.IsAvailable(o.n)
            && w == v[o.hash := r] && Trim(r.vout) == r.vout
  {
    var base, r := RestoreBase(Lookup(v, o.hash), u), RestoredCoin(Lookup(v, o.hash), o.n, u);
    assert |base.vout| > o.n + 1 ==> !r.vout[|r.vout| - 1].IsNull();
    TrimKeeps(r.vout);
  }

  lemma {:induction false} TrimNulls(vout: seq<TxOut>)
    requires forall i | 0 <= i < |vout| :: vout[i].IsNull()
    ensures Trim(vout) == []
  {
    if vout != [] { TrimNulls(vout[..|vout| - 1]); }
  }

  /** Blanking the padding again leaves what was padded. */
  lemma UnpadIs(vout: seq<TxOut>, n: nat, x: TxOut)
    requires vout == [] || !vout[|vout| - 1].IsNull()
    requires n < |vout| ==> vout[n] == NULL_OUT
    ensures Trim(Padded(vout, n + 1)[n := x][n := NULL_OUT]) == vout
  {
    var back := Padded(vout, n + 1)[n := x][n := NULL_OUT];
    assert back[..|vout|] == vout;
    var t := Trim(back);
    assert vout != [] ==> !back[|vout| - 1].IsNull();
    assert forall i | |vout| <= i < |back| :: back[i] == NULL_OUT;
  }

  /** The record to be written into: a fresh one, or the one that is there. */
  lemma BaseIs(v: View, o: OutPoint, u: TxInUndo)
    requires GoodView(v) && u.height >= 0 && RestoreIsClean(Lookup(v, o.hash), o.n, u)
    ensures var base := RestoreBase(Lookup(v, o.hash), u);
            && base.height >= 1 && (base.vout == [] || GoodCoin(base))
            && (o.n < |base.vout| ==> base.vout[o.n] == NULL_OUT)
            && v == (if base.vout == [] then v - {o.hash} else v[o.hash := base])
  {
    if o.hash in v { GoodNotPruned(v[o.hash]); }
  }

  lemma RefilledGood(base: Coin, n: nat, x: TxOut)
    requires base.height >= 1 && (base.vout == [] || GoodCoin(base)) && !x.IsNull()
    requires n < |base.vout| ==> base.vout[n] == NULL_OUT
    ensures base.vout == [] || !base.vout[|base.vout| - 1].IsNull()
    ensures GoodCoin(base.(vout := Padded(base.vout, n + 1)[n := x]))
  {}

  lemma CleanSpendsBack(v: View, o: OutPoint, u: TxInUndo)
    requires GoodView(v) && !u.txout.IsNull() && u.height >= 0 && RestoreIsClean(Lookup(v, o.hash), o.n, u)
    ensures var w := RestoreOne(Rollback(v, true), o, u).view;
            Available(w, o) && GoodView(w) && SpendOne(w, o) == v
  {
    hide RestoreOne, RestoreIsClean, RestoreBase, RestoredCoin, Padded, GoodCoin, SpendOne, Lookup, Trim, Store;
    var base := RestoreBase(Lookup(v, o.hash), u);
    var w := RestoreOne(Rollback(v, true), o, u).view;
    StoredIs(v, o, u);
    BaseIs(v, o, u);
    RefilledGood(base, o.n, u.txout);
    UnpadIs(base.vout, o.n, u.txout);
    SpendOneIs(w, o);
  }

  lemma UncleanShows(v: View, o: OutPoint, u: TxInUndo)
    requires GoodView(v) && !u.txout.IsNull() && u.height >= 0 && !RestoreIsClean(Lookup(v, o.hash), o.n, u)
    ensures var w := RestoreOne(Rollback(v, true), o, u).view;
            Available(w, o) && (GoodView(w) ==> SpendOne(w, o) != v)
  {
    var c := Lookup(v, o.hash);
    var w := RestoreOne(Rollback(v, true), o, u).view;
    StoredIs(v, o, u);
    if o.hash in v { GoodNotPruned(v[o.hash]); }
    if u.height != 0 && !c.IsPruned() {
      TrimNulls(w[o.hash].vout[o.n := NULL_OUT]);
      SpendOneIs(w, o);
    } else if u.height == 0 && c.IsPruned() {
      assert w[o.hash].height == 0;
    } else {
      AvailableAfterSpend(w, o, o);
    }
  }

  /** For undo data of any kind, putting one output back passes the checks if and only if it leads to coins that
    * are well-formed and from which spending the output leads back. */
  lemma RestoreCleanIff(v: View, o: OutPoint, u: TxInUndo)
    requires GoodView(v) && !u.txout.IsNull() && u.height >= 0
    ensures var w := RestoreOne(Rollback(v, true), o, u);
            && Available(w.view, o)
            && (w.clean <==> GoodView(w.view) && SpendOne(w.view, o) == v)
  {
    hide RestoreIsClean, GoodView, SpendOne, Available, RestoredCoin, Store;
    if RestoreIsClean(Lookup(v, o.hash), o.n, u) { CleanSpendsBack(v, o, u); } else { UncleanShows(v, o, u); }
  }

  /** Undo data that was written for spendable outputs. */
  predicate Proper(us: TxUndo) {
    forall i | 0 <= i < |us| :: !us[i].txout.IsNull() && !us[i].txout.script.IsUnspendable() && us[i].height >= 0
  }

  /** No coin holds an output that cannot be spent; connecting a transaction never stores one. */
  predicate AllSpendable(v: View) {
    forall id, i | id in v && 0 <= i < |v[id].vout| :: !v[id].vout[i].script.IsUnspendable()
  }

  lemma RestoreSpendable(v: View, o: OutPoint, u: TxInUndo)
    requires GoodView(v) && AllSpendable(v) && Proper([u])
    ensures AllSpendable(RestoreOne(Rollback(v, true), o, u).view)
  {
    assert [u][0] == u;
    StoredIs(v, o, u);
    var c := RestoreOne(Rollback(v, true), o, u).view[o.hash];
    forall i | 0 <= i < |c.vout| ensures !c.vout[i].script.IsUnspendable() {}
  }

  lemma ProperStep(us: TxUndo)
    requires Proper(us) && us != []
    ensures Proper(Init(us)) && Proper([Last(us)]) && !Last(us).txout.IsNull() && Last(us).height >= 0
  {}

  /** A roll-back of inputs that passes all checks is undone by spending them again. */
  lemma {:induction false} CleanRestoreSpends(v: View, ins: seq<OutPoint>, us: TxUndo)
    requires GoodView(v) && AllSpendable(v) && |us| == |ins| && Proper(us)
    requires RestoreAll(Rollback(v, true), ins, us).clean
    ensures var w := RestoreAll(Rollback(v, true), ins, us).view;
            GoodView(w) && AllSpendable(w) && HaveInputs(w, ins) && SpendAll(w, ins) == v
    decreases |ins|
  {
    hide RestoreOne, GoodView, SpendOne, Available, AllSpendable, Proper;
    if ins != [] {
      var last := Last(ins);
      var next := RestoreOne(Rollback(v, true), last, Last(us));
      ProperStep(us);
      if !next.clean { RestoreAllStaysUnclean(next, Init(ins), Init(us)); }
      RestoreCleanIff(v, last, Last(us));
      RestoreSpendable(v, last, Last(us));
      CleanRestoreSpends(next.view, Init(ins), Init(us));
      var w := RestoreAll(next, Init(ins), Init(us)).view;
      AvailableAfterSpendAll(w, Init(ins), last);
      forall i | 0 <= i < |ins| ensures Available(w, ins[i]) { if i < |ins| - 1 { assert ins[i] == Init(ins)[i]; } }
    }
  }

  lemma VersionOf(tx: Tx, height: int)
    ensures FromTx(tx, height).version == tx.version
  {}

  /** The check of a transaction's outputs passes if and only if the coins hold under its txid exactly what the
    * transaction writes there. */
  lemma OutputsMatchIff(v: View, tx: Tx, height: int)
    requires GoodView(v) && AllSpendable(v) && CheckTransaction(tx) && height >= 1 && tx.version >= 0
    ensures OutputsMatch(v, tx, height) <==> v == Store(v - {tx.hash}, tx.hash, FromTx(tx, height))
  {
    hide FromTx, CheckTransaction;
    FromTxGood(tx, height);
    VersionOf(tx, height);
    if tx.hash in v {
      var c := v[tx.hash];
      GoodNotPruned(c);
      TrimKeeps(c.vout);
      assert Spendable(c.vout) == c.vout;
    }
  }

  lemma GoodWithout(v: View, id: TxId)
    requires GoodView(v) && AllSpendable(v)
    ensures GoodView(v - {id}) && AllSpendable(v - {id})
  {}

  /** A transaction whose roll-back passes all checks is connected again with the same result. */
  lemma CleanUnapplyReapplies(v: View, tx: Tx, height: int, us: TxUndo)
    requires GoodView(v) && AllSpendable(v) && CheckTransaction(tx) && height >= 1 && tx.version >= 0
    requires |us| == |Ins(tx)| && Proper(us) && Unapply(Rollback(v, true), tx, height, Ins(tx), us).clean
    ensures var w := Unapply(Rollback(v, true), tx, height, Ins(tx), us).view;
            GoodView(w) && AllSpendable(w) && CanApply(w, tx) && Apply(w, tx, height) == v
  {
    hide GoodView, AllSpendable, Proper, RestoreAll, OutputsMatch, FromTx, HaveInputs, CheckTransaction;
    GoodWithout(v, tx.hash);
    if !OutputsMatch(v, tx, height) { RestoreAllStaysUnclean(Rollback(v - {tx.hash}, false), Ins(tx), us); }
    OutputsMatchIff(v, tx, height);
    CleanRestoreSpends(v - {tx.hash}, Ins(tx), us);
  }

  /** What a block and its undo data are like before anything is compared with the coins. */
  predicate Formed(vtx: seq<Tx>, us: seq<TxUndo>) {
    && (forall k | 0 <= k < |vtx| :: CheckTransaction(vtx[k]) && vtx[k].version >= 0)
    && (forall k | 0 <= k < |us| :: Proper(us[k]))
  }

  lemma {:induction false} CleanUnapplyAllReapplies(v: View, vtx: seq<Tx>, us: seq<TxUndo>, height: int, leading: bool)
    requires GoodView(v) && AllSpendable(v) && height >= 1 && |us| == |vtx| && Slots(vtx, leading) && Formed(vtx, us)
    requires UnapplyAll(Rollback(v, true), vtx, us, height, leading).Undone?
    requires UnapplyAll(Rollback(v, true), vtx, us, height, leading).rollback.clean
    ensures var w := UnapplyAll(Rollback(v, true), vtx, us, height, leading).rollback.view;
            GoodView(w) && AllSpendable(w) && CanApplyAll(w, vtx, height) && ApplyAll(w, vtx, height) == v
    decreases |vtx|
  {
    hide GoodView, AllSpendable, Proper, Apply, CheckTransaction, CanApply, Unapply;
    if vtx != [] {
      var rest := UnapplyAll(Rollback(v, true), vtx[1..], us[1..], height, false);
      assert Slots(vtx[1..], false) && Formed(vtx[1..], us[1..]);
      UncleanStays(rest.rollback, vtx[0], height, Ins(vtx[0]), us[0]);
      CleanUnapplyAllReapplies(v, vtx[1..], us[1..], height, false);
      CleanUnapplyReapplies(rest.rollback.view, vtx[0], height, us[0]);
    }
  }

  lemma UncleanStays(r: Rollback, tx: Tx, height: int, ins: seq<OutPoint>, us: TxUndo)
    requires |us| == |ins|
    ensures Unapply(r, tx, height, ins, us).clean ==> r.clean
  {
    if !r.clean { RestoreAllStaysUnclean(Rollback(r.view - {tx.hash}, false), ins, us); }
  }

  /** When taking a block back reports a clean result, for undo data of any kind, connecting the block again gives
    * exactly the coins from before: nothing inconsistent passes the checks. */
  lemma CleanDisconnectReconnects(v: View, vtx: seq<Tx>, undo: seq<TxUndo>, height: int)
    requires GoodView(v) && AllSpendable(v) && height >= 1 && CheckBlock(vtx) && Formed(vtx, undo)
    requires Disconnect(v, vtx, undo, height).Undone? && Disconnect(v, vtx, undo, height).rollback.clean
    ensures var w := Disconnect(v, vtx, undo, height).rollback.view;
            GoodView(w) && CanApplyAll(w, vtx, height) && ApplyAll(w, vtx, height) == v
  {
    CleanUnapplyAllReapplies(v, vtx, [[]] + undo, height, true);
  }
}
