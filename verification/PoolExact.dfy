/** Exactly which transactions a block takes out of the pool when it is connected, and which come back when it is
  * taken off again.
  */
module PoolExact {
  import opened Coins
  import opened Sequences
  import opened Rules
  import opened Mempool
  import opened RulesExact

  // ---- A block is connected ----------------------------------------------------------------

  function TxidsOf(vtx: seq<Tx>): set<TxId> { set tx | tx in vtx :: tx.hash }

  /** The pooled transactions that spend an output which another transaction of the block spends. */
  ghost function AllConflicts(m: Pool, vtx: seq<Tx>): set<TxId> {
    set c | c in m && exists k | 0 <= k < |vtx| :: c != vtx[k].hash && SharesInput(m[c], vtx[k])
  }

  /** A smaller pool and fewer roots reach less. */
  lemma ReachMono(some: Pool, m: Pool, a: set<TxId>, b: set<TxId>)
    requires a <= b && forall id | id in some :: id in m && some[id] == m[id]
    ensures Reach(some, a) <= Reach(m, b)
  {
    forall d | d in Reach(some, a) ensures Reaches(m, b, d) {
      var path: seq<TxId> :| IsPath(some, path) && path[0] in a && Last(path) == d;
      assert IsPath(m, path);
    }
  }

  /** What does not depend on a conflict stays, children of the block's own transactions included. */
  lemma {:induction false} UnaffectedStay(m: Pool, vtx: seq<Tx>, id: TxId)
    requires id in m && id !in TxidsOf(vtx) && id !in Reach(m, AllConflicts(m, vtx))
    ensures id in RemoveForBlock(m, vtx) && RemoveForBlock(m, vtx)[id] == m[id]
    decreases |vtx|
  {
    if vtx != [] {
      hide Reach, SharesInput;
      var gone := m - {vtx[0].hash};
      var next := RemoveConflicts(gone, vtx[0]);
      assert Conflicts(gone, vtx[0]) <= AllConflicts(m, vtx);
      ReachMono(gone, m, Conflicts(gone, vtx[0]), AllConflicts(m, vtx));
      assert AllConflicts(next, vtx[1..]) <= AllConflicts(m, vtx) by {
        assert forall k | 0 <= k < |vtx[1..]| :: vtx[1..][k] == vtx[k + 1];
      }
      ReachMono(next, m, AllConflicts(next, vtx[1..]), AllConflicts(m, vtx));
      UnaffectedStay(next, vtx[1..], id);
    }
  }

  /** What depends on something that leaves, other than the block's own transactions, leaves with it. */
  lemma {:induction false} DependentsLeave(m: Pool, vtx: seq<Tx>, a: TxId, c: TxId)
    requires a in m && a !in TxidsOf(vtx) && c in m && SpendsFrom(m[c], m[a])
    requires a !in RemoveForBlock(m, vtx)
    ensures c !in RemoveForBlock(m, vtx)
    decreases |vtx|
  {
    hide Reach, SharesInput, SpendsFrom;
    if vtx != [] {
      var gone := m - {vtx[0].hash};
      var next := RemoveConflicts(gone, vtx[0]);
      ReachClosed(gone, Conflicts(gone, vtx[0]));
      RemoveForBlockShrinks(next, vtx[1..]);
      if a in next && c in next { DependentsLeave(next, vtx[1..], a, c); }
    }
  }

  /** Everything that a conflict reaches without passing through the block's own transactions leaves. */
  lemma ConflictsReachLeaves(m: Pool, vtx: seq<Tx>)
    ensures RemoveForBlock(m, vtx).Keys !! Reach(m - TxidsOf(vtx), AllConflicts(m, vtx))
    ensures RemoveForBlock(m, vtx).Keys !! TxidsOf(vtx)
  {
    hide SharesInput, SpendsFrom, Reach;
    var rest, left := m - TxidsOf(vtx), RemoveForBlock(m, vtx);
    var lost := set id | id in rest && id !in left;
    RemoveForBlockShrinks(m, vtx);
    forall a, c | a in lost && c in rest && SpendsFrom(rest[c], rest[a]) ensures c in lost { DependentsLeave(m, vtx, a, c); }
    forall c | c in AllConflicts(m, vtx) && c in rest ensures c in lost {
      var k :| 0 <= k < |vtx| && c != vtx[k].hash && SharesInput(m[c], vtx[k]);
      NoConflictLeft(m, vtx, k);
    }
    ReachLeast(rest, AllConflicts(m, vtx), lost);
    forall tx | tx in vtx ensures tx.hash !in left {
      var k :| 0 <= k < |vtx| && vtx[k] == tx;
      NoConflictLeft(m, vtx, k);
    }
  }

  /** Reaching nothing of some set, one does not pass through it either. */
  lemma ReachAround(m: Pool, roots: set<TxId>, ids: set<TxId>)
    requires Reach(m, roots) !! ids
    ensures Reach(m - ids, roots) == Reach(m, roots)
  {
    ReachMono(m - ids, m, roots, roots);
    forall d | d in Reach(m, roots) ensures Reaches(m - ids, roots, d) {
      var path: seq<TxId> :| IsPath(m, path) && path[0] in roots && Last(path) == d;
      forall k | 0 <= k < |path| ensures path[k] in m - ids {
        assert IsPath(m, path[..k + 1]) && Last(path[..k + 1]) == path[k];
        assert path[k] in Reach(m, roots);
      }
      assert IsPath(m - ids, path);
    }
  }

  /** When no conflict reaches a transaction of the block, the pool loses exactly the block's transactions and
    * what the conflicts reach. */
  lemma RemoveForBlockIs(m: Pool, vtx: seq<Tx>)
    requires TxidsOf(vtx) !! Reach(m, AllConflicts(m, vtx))
    ensures RemoveForBlock(m, vtx) == m - TxidsOf(vtx) - Reach(m, AllConflicts(m, vtx))
  {
    ReachAround(m, AllConflicts(m, vtx), TxidsOf(vtx));
    RemoveForBlockShrinks(m, vtx);
    ConflictsReachLeaves(m, vtx);
    hide Reach, AllConflicts;
    forall id | id in m && id !in TxidsOf(vtx) && id !in Reach(m, AllConflicts(m, vtx)) ensures id in RemoveForBlock(m, vtx) {
      UnaffectedStay(m, vtx, id);
    }
  }

  // ---- In a block that applies, that is so -----------------------------------------------

  /** The block's txids differ from each other and are new to the coins. */
  predicate NewTxids(v: View, vtx: seq<Tx>) {
    && (forall k | 0 <= k < |vtx| :: vtx[k].hash !in v)
    && (forall j, k | 0 <= j < k < |vtx| :: vtx[j].hash != vtx[k].hash)
  }

  lemma NewTxidsStep(v: View, vtx: seq<Tx>, height: int)
    requires vtx != [] && NewTxids(v, vtx) && CanApply(v, vtx[0])
    ensures NewTxids(Apply(v, vtx[0], height), vtx[1..])
  {
    OnlyOwnKey(v, vtx[0], height);
    assert forall k | 0 <= k < |vtx[1..]| :: vtx[1..][k] == vtx[k + 1];
  }

  /** An input comes from the coins or from the block. */
  lemma {:induction false} InputFrom(v: View, vtx: seq<Tx>, height: int, k: nat, o: OutPoint)
    requires CanApplyAll(v, vtx, height) && k < |vtx| && o in Ins(vtx[k])
    ensures Available(v, o) || exists j | 0 <= j < k :: vtx[j].hash == o.hash
    decreases |vtx|
  {
    hide Apply, Available, CheckTransaction;
    if k > 0 {
      var rest, w := vtx[1..], Apply(v, vtx[0], height);
      InputFrom(w, rest, height, k - 1, o);
      if Available(w, o) {
        AvailableAfterApply(v, vtx[0], height, o);
      } else {
        var j :| 0 <= j < k - 1 && rest[j].hash == o.hash;
        assert vtx[j + 1] == rest[j];
      }
    } else {
      var i :| 0 <= i < |Ins(vtx[0])| && Ins(vtx[0])[i] == o;
    }
  }

  /** An output that is gone, and that no transaction writes again, is not spent. */
  lemma GoneNotSpent(v: View, vtx: seq<Tx>, height: int, k: nat, o: OutPoint)
    requires CanApplyAll(v, vtx, height) && k < |vtx| && !Available(v, o) && forall j | 0 <= j < |vtx| :: vtx[j].hash != o.hash
    ensures o !in Ins(vtx[k])
  {
    if o in Ins(vtx[k]) { InputFrom(v, vtx, height, k, o); }
  }

  /** No two transactions of the block spend the same output. */
  lemma {:induction false} NoDoubleSpend(v: View, vtx: seq<Tx>, height: int, i: nat, k: nat, o: OutPoint)
    requires CanApplyAll(v, vtx, height) && NewTxids(v, vtx) && i < k < |vtx| && o in Ins(vtx[i])
    ensures o !in Ins(vtx[k])
    decreases |vtx|
  {
    hide Apply, CheckTransaction;
    var rest, w := vtx[1..], Apply(v, vtx[0], height);
    NewTxidsStep(v, vtx, height);
    assert vtx[k] == rest[k - 1];
    if i > 0 {
      assert vtx[i] == rest[i - 1];
      NoDoubleSpend(w, rest, height, i - 1, k - 1, o);
    } else {
      InputFrom(v, vtx, height, 0, o);
      AvailableAfterApply(v, vtx[0], height, o);
      GoneNotSpent(w, rest, height, k - 1, o);
    }
  }

  /** The child of a pooled transaction is in the block only together with its parent. */
  lemma ParentInBlock(m: Pool, v: View, vtx: seq<Tx>, height: int, a: TxId, k: nat)
    requires CanApplyAll(v, vtx, height) && k < |vtx| && a in m && a !in v && m[a].hash == a
    requires !vtx[k].IsCoinBase() && SpendsFrom(vtx[k], m[a])
    ensures a in TxidsOf(vtx)
  {
    var i :| 0 <= i < |vtx[k].vin| && vtx[k].vin[i].hash == m[a].hash && vtx[k].vin[i].n < |m[a].vout|;
    InputFrom(v, vtx, height, k, vtx[k].vin[i]);
    if j :| 0 <= j < k && vtx[j].hash == a { assert vtx[j] in vtx; }
  }

  /** A pooled transaction that conflicts with one of the block is not itself in the block. */
  lemma ConflictNotInBlock(m: Pool, v: View, vtx: seq<Tx>, height: int, c: TxId)
    requires GoodPool(m) && CheckBlock(vtx) && CanApplyAll(v, vtx, height) && NewTxids(v, vtx) && NoCollision(m, vtx)
    requires c in AllConflicts(m, vtx)
    ensures c !in TxidsOf(vtx)
  {
    hide CanApplyAll, NewTxids, CheckTransaction;
    var k :| 0 <= k < |vtx| && c != vtx[k].hash && SharesInput(m[c], vtx[k]);
    if c in TxidsOf(vtx) {
      var tx :| tx in vtx && tx.hash == c;
      var j :| 0 <= j < |vtx| && vtx[j] == tx;
      var i :| 0 <= i < |m[c].vin| && m[c].vin[i] in vtx[k].vin;
      InputNotNull(m[c], i);
      SpendsThat(vtx[j], m[c].vin[i]);
      SpendsThat(vtx[k], m[c].vin[i]);
      if j < k { NoDoubleSpend(v, vtx, height, j, k, m[c].vin[i]); } else { NoDoubleSpend(v, vtx, height, k, j, m[c].vin[i]); }
    }
  }

  lemma InputNotNull(tx: Tx, i: nat)
    requires CheckTransaction(tx) && !tx.IsCoinBase() && i < |tx.vin|
    ensures !tx.vin[i].IsNull()
  {}

  /** Whatever shares a real input with another transaction spends it. */
  lemma SpendsThat(tx: Tx, o: OutPoint)
    requires o in tx.vin && !o.IsNull()
    ensures o in Ins(tx)
  {}

  /** Where the pool holds no txid of the coins, no conflict reaches a transaction of a block that applies. */
  lemma BlockNotReached(m: Pool, v: View, vtx: seq<Tx>, height: int)
    requires GoodPool(m) && CheckBlock(vtx) && CanApplyAll(v, vtx, height) && NewTxids(v, vtx) && NoCollision(m, vtx)
    requires m.Keys !! v.Keys
    ensures TxidsOf(vtx) !! Reach(m, AllConflicts(m, vtx))
  {
    hide Reach, CanApplyAll, SharesInput, CheckTransaction;
    var others := m.Keys - TxidsOf(vtx);
    forall a, c | a in others && c in m && SpendsFrom(m[c], m[a]) ensures c in others {
      if c in TxidsOf(vtx) {
        var tx :| tx in vtx && tx.hash == c;
        var k :| 0 <= k < |vtx| && vtx[k] == tx;
        ParentInBlock(m, v, vtx, height, a, k);
      }
    }
    forall c | c in AllConflicts(m, vtx) ensures c in others { ConflictNotInBlock(m, v, vtx, height, c); }
    ReachLeast(m, AllConflicts(m, vtx), others);
  }

  /** Connecting a block takes out of the pool exactly its own transactions, and the double-spends of their
    * inputs with all that depends on these; a child of a transaction of the block stays. */
  lemma ConnectRemovesExactly(m: Pool, v: View, vtx: seq<Tx>, height: int)
    requires GoodPool(m) && CheckBlock(vtx) && CanApplyAll(v, vtx, height) && NewTxids(v, vtx) && NoCollision(m, vtx)
    requires m.Keys !! v.Keys
    ensures RemoveForBlock(m, vtx) == m - TxidsOf(vtx) - Reach(m, AllConflicts(m, vtx))
  {
    BlockNotReached(m, v, vtx, height);
    RemoveForBlockIs(m, vtx);
  }

  // ---- What is accepted ----------------------------------------------------------------------

  /** The transaction is new to the pool, and so are its inputs. */
  predicate NewTo(m: Pool, tx: Tx) {
    && tx.hash !in m
    && forall id, i, j | id in m && 0 <= i < |tx.vin| && 0 <= j < |m[id].vin| :: m[id].vin[j] != tx.vin[i]
  }

  /** The input is a spendable output of a pooled transaction, or else a coin that can be spent. */
  predicate Offered(p: Params, m: Pool, v: View, height: int, o: OutPoint) {
    if o.hash in m then o.n < |m[o.hash].vout| && !m[o.hash].vout[o.n].script.IsUnspendable()
    else CanSpend(p, v, height, o)
  }

  function ValueOf(m: Pool, v: View, o: OutPoint): int
    requires if o.hash in m then o.n < |m[o.hash].vout| else o.hash in v && o.n < |v[o.hash].vout|
  {
    if o.hash in m then m[o.hash].vout[o.n].value else v[o.hash].vout[o.n].value
  }

  predicate AllOffered(p: Params, m: Pool, v: View, height: int, ins: seq<OutPoint>) {
    forall i | 0 <= i < |ins| :: Offered(p, m, v, height, ins[i])
  }

  function OfferedValues(p: Params, m: Pool, v: View, height: int, ins: seq<OutPoint>): seq<int>
    requires AllOffered(p, m, v, height, ins)
  {
    seq(|ins|, i requires 0 <= i < |ins| => assert Offered(p, m, v, height, ins[i]); ValueOf(m, v, ins[i]))
  }

  lemma OfferedIff(p: Params, m: Pool, v: View, height: int, o: OutPoint)
    requires GoodPool(m)
    ensures Offered(p, m, v, height, o) <==> CanSpend(p, PoolCoins(m, v), height, o)
    ensures Offered(p, m, v, height, o) ==> Available(PoolCoins(m, v), o) && OutAt(PoolCoins(m, v), o).value == ValueOf(m, v, o)
    ensures CanSpend(p, v, height, o) ==> Available(v, o)
  {
    if o.hash in m {
      var tx := m[o.hash];
      assert CheckTransaction(tx);
      var c := FromTx(tx, MEMPOOL_HEIGHT);
      assert c.vout <= Spendable(tx.vout);
      if o.n < |tx.vout| && !tx.vout[o.n].script.IsUnspendable() { assert Spendable(tx.vout)[o.n] == tx.vout[o.n]; }
    }
  }

  /** Exactly what is accepted: a well-formed transaction other than a coinbase that is new to pool and coins, of which
    * every input is offered and spent by nobody in the pool, and whose amounts are in order. */
  predicate Welcome(p: Params, m: Pool, v: View, height: int, tx: Tx) {
    && CheckTransaction(tx) && !tx.IsCoinBase() && NewTo(m, tx) && tx.hash !in v
    && AllOffered(p, m, v, height, tx.vin)
    && var values := OfferedValues(p, m, v, height, tx.vin);
       && EachWithin(values, p.maxMoney) && Total(values) <= p.maxMoney
       && (p.native ==> Total(OutValues(tx.vout)) <= Total(values))
  }

  lemma NewToIff(m: Pool, tx: Tx)
    ensures NewTo(m, tx) <==> tx.hash !in m && forall id | id in m :: !SharesInput(m[id], tx)
  {
    if tx.hash !in m && forall id | id in m :: !SharesInput(m[id], tx) {
      forall id, i, j | id in m && 0 <= i < |tx.vin| && 0 <= j < |m[id].vin| ensures m[id].vin[j] != tx.vin[i] {
        if m[id].vin[j] == tx.vin[i] { assert SharesInput(m[id], tx); }
      }
    }
  }

  /** The code's conditions come to that. */
  lemma AcceptableIff(p: Params, m: Pool, v: View, height: int, tx: Tx)
    requires GoodPool(m)
    ensures Acceptable(p, m, v, height, tx) <==> Welcome(p, m, v, height, tx)
  {
    hide CheckTransaction, NewTo, SharesInput, PoolCoins, CanSpend, Total, OutValues, EachWithin, CheckInputs, GoodPool, Offered;
    NewToIff(m, tx);
    var w := PoolCoins(m, v);
    forall i | 0 <= i < |tx.vin|
      ensures Offered(p, m, v, height, tx.vin[i]) <==> CanSpend(p, w, height, tx.vin[i])
      ensures Offered(p, m, v, height, tx.vin[i]) ==> Available(w, tx.vin[i])
      ensures MemAvailable(m, v, tx.vin[i]) <==> Available(w, tx.vin[i])
    {
      OfferedIff(p, m, v, height, tx.vin[i]);
      PoolCoinsOffer(m, v, tx.vin[i]);
    }
    if CheckTransaction(tx) && !tx.IsCoinBase() {
      CheckInputsIff(p, w, tx, height);
      if AllOffered(p, m, v, height, tx.vin) { ValuesAre(p, m, v, height, tx.vin); }
    }
  }

  lemma ValuesAre(p: Params, m: Pool, v: View, height: int, ins: seq<OutPoint>)
    requires GoodPool(m) && AllOffered(p, m, v, height, ins) && HaveInputs(PoolCoins(m, v), ins)
    ensures InValues(PoolCoins(m, v), ins) == OfferedValues(p, m, v, height, ins)
  {
    hide PoolCoins, GoodPool, Offered;
    forall i | 0 <= i < |ins| ensures InValues(PoolCoins(m, v), ins)[i] == OfferedValues(p, m, v, height, ins)[i] {
      assert Offered(p, m, v, height, ins[i]);
      OfferedIff(p, m, v, height, ins[i]);
    }
  }

  // ---- A block is taken off ----------------------------------------------------------------

  /** The pool when the transactions before the k-th one have had their turn. */
  ghost function Before(p: Params, m: Pool, v: View, height: int, vtx: seq<Tx>, externalOk: seq<bool>, k: nat): Pool
    requires |externalOk| == |vtx| && k <= |vtx|
  {
    Resurrect(p, m, v, height, vtx[..k], externalOk[..k])
  }

  lemma ResurrectSingle(p: Params, m: Pool, v: View, height: int, tx: Tx, externalOk: bool)
    ensures Resurrect(p, m, v, height, [tx], [externalOk]) == ResurrectOne(p, m, v, height, tx, externalOk)
  {
    hide Acceptable, RemoveRecursive;
    assert [tx][1..] == [] && [externalOk][1..] == [];
    assert Resurrect(p, ResurrectOne(p, m, v, height, tx, externalOk), v, height, [], [])
           == ResurrectOne(p, m, v, height, tx, externalOk);
  }

  lemma {:induction false} BeforeStep(p: Params, m: Pool, v: View, height: int, vtx: seq<Tx>, externalOk: seq<bool>, k: nat)
    requires |externalOk| == |vtx| && k < |vtx|
    ensures var before := Before(p, m, v, height, vtx, externalOk, k);
            Before(p, m, v, height, vtx, externalOk, k + 1) ==
            if externalOk[k] && Acceptable(p, before, v, height, vtx[k]) then before[vtx[k].hash := vtx[k]]
            else RemoveRecursive(before, vtx[k])
    decreases k
  {
    hide Acceptable;
    if k > 0 {
      var next := ResurrectOne(p, m, v, height, vtx[0], externalOk[0]);
      BeforeStep(p, next, v, height, vtx[1..], externalOk[1..], k - 1);
      assert vtx[..k][1..] == vtx[1..][..k - 1] && externalOk[..k][1..] == externalOk[1..][..k - 1];
      assert vtx[..k + 1][1..] == vtx[1..][..k] && externalOk[..k + 1][1..] == externalOk[1..][..k];
    } else {
      assert vtx[..1] == [vtx[0]] && externalOk[..1] == [externalOk[0]];
      assert Resurrect(p, m, v, height, vtx[..0], externalOk[..0]) == m;
      ResurrectSingle(p, m, v, height, vtx[0], externalOk[0]);
    }
  }

  lemma {:induction false} BeforeGood(p: Params, m: Pool, v: View, height: int, vtx: seq<Tx>, externalOk: seq<bool>, k: nat)
    requires GoodPool(m) && |externalOk| == |vtx| && k <= |vtx|
    ensures GoodPool(Before(p, m, v, height, vtx, externalOk, k))
  {
    hide CheckInputs, MemAvailable, SharesInput, CheckTransaction, Resurrect, Reach;
    if k > 0 {
      BeforeGood(p, m, v, height, vtx, externalOk, k - 1);
      BeforeStep(p, m, v, height, vtx, externalOk, k - 1);
    } else {
      BeforeNone(p, m, v, height, vtx, externalOk);
    }
  }

  lemma BeforeNone(p: Params, m: Pool, v: View, height: int, vtx: seq<Tx>, externalOk: seq<bool>)
    requires |externalOk| == |vtx|
    ensures Before(p, m, v, height, vtx, externalOk, 0) == m
  {}

  /** At its turn a transaction of a block that was taken off comes back into the pool if and only if the outside allows it
    * and it is welcome there; then nothing else changes, and otherwise exactly the transaction and what depends on it
    * leave the pool. */
  lemma ReadmittedIff(p: Params, m: Pool, v: View, height: int, vtx: seq<Tx>, externalOk: seq<bool>, k: nat)
    requires GoodPool(m) && |externalOk| == |vtx| && k < |vtx|
    ensures var before, after := Before(p, m, v, height, vtx, externalOk, k), Before(p, m, v, height, vtx, externalOk, k + 1);
            var tx := vtx[k];
            && (tx.hash in after <==> externalOk[k] && Welcome(p, before, v, height, tx))
            && after == if tx.hash in after then before[tx.hash := tx]
                        else before - Reach(before, if tx.hash in before then {tx.hash} else Children(before, tx))
  {
    hide Acceptable, Welcome, Reach, Before, GoodPool;
    var before := Before(p, m, v, height, vtx, externalOk, k);
    BeforeGood(p, m, v, height, vtx, externalOk, k);
    BeforeStep(p, m, v, height, vtx, externalOk, k);
    AcceptableIff(p, before, v, height, vtx[k]);
    ReachHasRoots(before, Roots(before, vtx[k]));
  }

  lemma BeforeAll(p: Params, m: Pool, v: View, height: int, vtx: seq<Tx>, externalOk: seq<bool>)
    requires |externalOk| == |vtx|
    ensures Before(p, m, v, height, vtx, externalOk, |vtx|) == Resurrect(p, m, v, height, vtx, externalOk)
  {
    assert vtx[..|vtx|] == vtx && externalOk[..|vtx|] == externalOk;
  }

  // ---- Coinbases that are too young --------------------------------------------------------

  /** Heights and the maturity are such as a chain of this height has. */
  predicate HeightsUpTo(v: View, height: int, maturity: int) {
    0 <= maturity && height < 0x8000_0000 && forall id | id in v :: 0 <= v[id].height <= height
  }

  /** The input is an output of a coinbase that has fewer blocks on top of it than maturity asks for. */
  predicate TooYoung(m: Pool, v: View, height: int, maturity: int, o: OutPoint) {
    o.hash !in m && o.hash in v && v[o.hash].coinbase && height < v[o.hash].height + maturity
  }

  ghost function SpendersOfYoung(m: Pool, v: View, height: int, maturity: int): set<TxId> {
    set id | id in m && exists i | 0 <= i < |m[id].vin| :: TooYoung(m, v, height, maturity, m[id].vin[i])
  }

  lemma AgeIs(height: int, coinHeight: int, maturity: int)
    requires 0 <= coinHeight <= height < 0x8000_0000 && 0 <= maturity < 0x8000_0000
    ensures (height - coinHeight) % 0x1_0000_0000 < maturity % 0x1_0000_0000 <==> height < coinHeight + maturity
  {}

  /** Where no coin is missing, exactly the spenders of young coinbases leave, with all that depends on them: spends of
    * other coins stay. */
  lemma YoungLeave(m: Pool, v: View, height: int, maturity: Int32)
    requires Consistent(m, v) && HeightsUpTo(v, height, maturity)
    ensures RemoveCoinbaseSpends(m, v, height, maturity) == m - Reach(m, SpendersOfYoung(m, v, height, maturity))
  {
    hide Reach, CheckTransaction, FromTx;
    forall id | id in m
      ensures SpendsImmature(m, v, height, maturity, m[id]) <==> id in SpendersOfYoung(m, v, height, maturity)
    {
      forall i | 0 <= i < |m[id].vin| && m[id].vin[i].hash !in m
        ensures m[id].vin[i].hash in v
        ensures TooYoung(m, v, height, maturity, m[id].vin[i]) <==>
                v[m[id].vin[i].hash].coinbase
                && (height - v[m[id].vin[i].hash].height) % 0x1_0000_0000 < maturity % 0x1_0000_0000
      {
        assert MemAvailable(m, v, m[id].vin[i]);
        AgeIs(height, v[m[id].vin[i].hash].height, maturity);
      }
    }
    assert Immature(m, v, height, maturity) == SpendersOfYoung(m, v, height, maturity);
  }
}
