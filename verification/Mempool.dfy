/** The memory pool: recursive removal, block connection and resurrection, and the facts that
  * keep the pool and the coin view consistent with each other.
  */
module Mempool {
  import opened Coins
  import opened Sequences
  import opened Rules
  import MapSum

  /** Pool entries, reduced to their transactions. */
  type Pool = map<TxId, Tx>

  datatype InPoint = InPoint(txid: TxId, n: nat)

  type Index = map<OutPoint, InPoint>

  const MEMPOOL_HEIGHT := 0x7FFF_FFFF

  ghost predicate GoodPool(m: Pool) {
    forall id | id in m :: m[id].hash == id && CheckTransaction(m[id]) && !m[id].IsCoinBase()
  }

  /** mapNextTx holds exactly the inputs of the pool, each with the one input that spends it. */
  ghost predicate Indexed(m: Pool, x: Index) {
    && (forall id, i | id in m && 0 <= i < |m[id].vin| :: m[id].vin[i] in x && x[m[id].vin[i]] == InPoint(id, i))
    && (forall o | o in x :: x[o].txid in m && x[o].n < |m[x[o].txid].vin| && m[x[o].txid].vin[x[o].n] == o)
  }

  ghost function Sizes(m: Pool): map<TxId, int> { map id | id in m :: m[id].size }

  ghost function TotalSize(m: Pool): int { MapSum.Sum(Sizes(m)) }

  // ---- Children and descendants ----------------------------------------------------------

  predicate SpendsFrom(c: Tx, parent: Tx) {
    exists i | 0 <= i < |c.vin| :: c.vin[i].hash == parent.hash && c.vin[i].n < |parent.vout|
  }

  function Children(m: Pool, parent: Tx): set<TxId> { set c | c in m && SpendsFrom(m[c], parent) }

  /** A chain of pool transactions, each spending an output of the one before. */
  ghost predicate IsPath(m: Pool, p: seq<TxId>) {
    && p != []
    && (forall k | 0 <= k < |p| :: p[k] in m)
    && (forall k | 0 < k < |p| :: SpendsFrom(m[p[k]], m[p[k - 1]]))
  }

  ghost predicate Reaches(m: Pool, roots: set<TxId>, d: TxId) {
    exists p: seq<TxId> :: IsPath(m, p) && p[0] in roots && Last(p) == d
  }

  /** The pool transactions among roots, and all their pool descendants. */
  ghost function Reach(m: Pool, roots: set<TxId>): set<TxId> { set d | d in m && Reaches(m, roots, d) }

  ghost predicate Closed(m: Pool, s: set<TxId>) {
    forall a, c | a in s && a in m && c in m && SpendsFrom(m[c], m[a]) :: c in s
  }

  lemma ReachHasRoots(m: Pool, roots: set<TxId>)
    ensures roots * m.Keys <= Reach(m, roots)
  {
    forall r | r in roots && r in m ensures Reaches(m, roots, r) { assert IsPath(m, [r]); }
  }

  lemma ReachClosed(m: Pool, roots: set<TxId>)
    ensures Closed(m, Reach(m, roots))
  {
    forall a, c | a in Reach(m, roots) && c in m && SpendsFrom(m[c], m[a]) ensures c in Reach(m, roots) {
      var p: seq<TxId> :| IsPath(m, p) && p[0] in roots && Last(p) == a;
      assert IsPath(m, p + [c]);
    }
  }

  lemma {:induction false} PathStaysIn(m: Pool, p: seq<TxId>, s: set<TxId>)
    requires IsPath(m, p) && p[0] in s && Closed(m, s)
    ensures Last(p) in s
    decreases |p|
  {
    if |p| > 1 {
      PathStaysIn(m, Init(p), s);
      assert SpendsFrom(m[p[|p| - 1]], m[p[|p| - 2]]);
    }
  }

  /** Reach is the least set that holds the roots and is closed under spending. */
  lemma ReachLeast(m: Pool, roots: set<TxId>, s: set<TxId>)
    requires roots * m.Keys <= s && Closed(m, s)
    ensures Reach(m, roots) <= s
  {
    forall d | d in Reach(m, roots) ensures d in s {
      var p: seq<TxId> :| IsPath(m, p) && p[0] in roots && Last(p) == d;
      PathStaysIn(m, p, s);
    }
  }

  /** Removing the reach of some roots and then of others is removing the reach of all of them. */
  lemma ReachUnion(m: Pool, a: set<TxId>, b: set<TxId>)
    ensures m - Reach(m, a) - Reach(m - Reach(m, a), b) == m - Reach(m, a + b)
  {
    var ra := Reach(m, a);
    var rb, rab := Reach(m - ra, b), Reach(m, a + b);
    ReachHasRoots(m, a);
    ReachClosed(m, a);
    ReachHasRoots(m - ra, b);
    ReachClosed(m - ra, b);
    ReachHasRoots(m, a + b);
    ReachClosed(m, a + b);
    assert ra <= rab by { ReachLeast(m, a, rab); }
    assert rb <= rab by { ReachLeast(m - ra, b, rab); }
    assert Closed(m, ra + rb);
    assert (a + b) * m.Keys <= ra + rb;
    ReachLeast(m, a + b, ra + rb);
  }

  // ---- The operations as functions of the pool -------------------------------------------

  /** Where a recursive removal starts: the transaction, or its children when it is not pooled. */
  function Roots(m: Pool, tx: Tx): set<TxId> { if tx.hash in m then {tx.hash} else Children(m, tx) }

  ghost function RemoveRecursive(m: Pool, tx: Tx): Pool { m - Reach(m, Roots(m, tx)) }

  predicate SharesInput(a: Tx, b: Tx) { exists i | 0 <= i < |a.vin| :: a.vin[i] in b.vin }

  function Conflicts(m: Pool, tx: Tx): set<TxId> { set c | c in m && c != tx.hash && SharesInput(m[c], tx) }

  ghost function RemoveConflicts(m: Pool, tx: Tx): Pool { m - Reach(m, Conflicts(m, tx)) }

  ghost function RemoveForBlock(m: Pool, vtx: seq<Tx>): Pool
    decreases |vtx|
  {
    if vtx == [] then m else RemoveForBlock(RemoveConflicts(m - {vtx[0].hash}, vtx[0]), vtx[1..])
  }

  /** Spends a missing coin, or a coinbase not yet mature; the age is computed unsigned. */
  predicate SpendsImmature(m: Pool, v: View, height: int, maturity: int, tx: Tx) {
    exists i | 0 <= i < |tx.vin| ::
      tx.vin[i].hash !in m &&
      (tx.vin[i].hash !in v ||
       (v[tx.vin[i].hash].coinbase && (height - v[tx.vin[i].hash].height) % 0x1_0000_0000 < maturity % 0x1_0000_0000))
  }

  function Immature(m: Pool, v: View, height: int, maturity: int): set<TxId> {
    set id | id in m && SpendsImmature(m, v, height, maturity, m[id])
  }

  ghost function RemoveCoinbaseSpends(m: Pool, v: View, height: int, maturity: int): Pool {
    m - Reach(m, Immature(m, v, height, maturity))
  }

  /** An output seen through the pool: a pooled transaction hides whatever the coins hold. */
  predicate MemAvailable(m: Pool, v: View, o: OutPoint) {
    if o.hash in m then FromTx(m[o.hash], MEMPOOL_HEIGHT).IsAvailable(o.n) else Available(v, o)
  }

  lemma HeightIrrelevant(tx: Tx, height: int, n: nat)
    ensures FromTx(tx, height).IsAvailable(n) == FromTx(tx, MEMPOOL_HEIGHT).IsAvailable(n)
  {}

  /** The coins as seen through the pool (CCoinsViewMemPool). */
  function PoolCoins(m: Pool, v: View): View {
    map id | id in m.Keys + v.Keys :: if id in m then FromTx(m[id], MEMPOOL_HEIGHT) else v[id]
  }

  lemma PoolCoinsOffer(m: Pool, v: View, o: OutPoint)
    ensures Available(PoolCoins(m, v), o) <==> MemAvailable(m, v, o)
  {}

  /** The conditions of the model under which AcceptToMemoryPool adds a transaction; height is that of
    * the next block. */
  predicate Acceptable(p: Params, m: Pool, v: View, height: int, tx: Tx) {
    && CheckTransaction(tx) && !tx.IsCoinBase()
    && tx.hash !in m
    && (forall id | id in m :: !SharesInput(m[id], tx))
    && tx.hash !in v
    && (forall i | 0 <= i < |tx.vin| :: MemAvailable(m, v, tx.vin[i]))
    && CheckInputs(p, PoolCoins(m, v), tx, height)
  }

  /** One transaction of a disconnected block: back into the pool, or out with all it supports. */
  ghost function ResurrectOne(p: Params, m: Pool, v: View, height: int, tx: Tx, externalOk: bool): Pool {
    if externalOk && Acceptable(p, m, v, height, tx) then m[tx.hash := tx] else RemoveRecursive(m, tx)
  }

  ghost function Resurrect(p: Params, m: Pool, v: View, height: int, vtx: seq<Tx>, externalOk: seq<bool>): Pool
    requires |externalOk| == |vtx|
    decreases |vtx|
  {
    if vtx == [] then m
    else Resurrect(p, ResurrectOne(p, m, v, height, vtx[0], externalOk[0]), v, height, vtx[1..], externalOk[1..])
  }

  // ---- Consistency -----------------------------------------------------------------------

  /** What check() asserts: every input of the pool refers to a pool output or to a coin. */
  ghost predicate Consistent(m: Pool, v: View) {
    && GoodPool(m)
    && forall id, i | id in m && 0 <= i < |m[id].vin| :: MemAvailable(m, v, m[id].vin[i])
  }

  /** Each transaction of the pool passes CheckInputs at this height, on the coins as seen through the
    * pool. */
  ghost predicate Payable(p: Params, m: Pool, v: View, height: int) {
    forall id | id in m :: CheckInputs(p, PoolCoins(m, v), m[id], height)
  }

  lemma InputsInRange(m: Pool, v: View, id: TxId, i: nat)
    requires Consistent(m, v) && id in m && i < |m[id].vin| && m[id].vin[i].hash in m
    ensures SpendsFrom(m[id], m[m[id].vin[i].hash])
  {
    var o := m[id].vin[i];
    assert MemAvailable(m, v, o);
    assert FromTx(m[o.hash], MEMPOOL_HEIGHT).vout <= Spendable(m[o.hash].vout);
  }

  lemma RemoveClosedKeeps(m: Pool, v: View, s: set<TxId>)
    requires Consistent(m, v) && Closed(m, s)
    ensures Consistent(m - s, v)
  {
    forall id, i | id in m - s && 0 <= i < |m[id].vin| ensures MemAvailable(m - s, v, m[id].vin[i]) {
      var o := m[id].vin[i];
      assert MemAvailable(m, v, o);
      if o.hash in m { InputsInRange(m, v, id, i); }
    }
  }

  lemma AcceptKeeps(p: Params, m: Pool, v: View, height: int, tx: Tx)
    requires Consistent(m, v) && Acceptable(p, m, v, height, tx)
    ensures Consistent(m[tx.hash := tx], v)
  {
    var n := m[tx.hash := tx];
    forall id, i | id in n && 0 <= i < |n[id].vin| ensures MemAvailable(n, v, n[id].vin[i]) {
      assert MemAvailable(m, v, n[id].vin[i]);
    }
  }

  lemma RemoveCoinbaseSpendsKeeps(m: Pool, v: View, height: int, maturity: int)
    requires Consistent(m, v)
    ensures Consistent(RemoveCoinbaseSpends(m, v, height, maturity), v)
  {
    var roots := Immature(m, v, height, maturity);
    ReachClosed(m, roots);
    RemoveClosedKeeps(m, v, Reach(m, roots));
  }

  /** A txid names one transaction, in the pool and in the block alike. */
  ghost predicate NoCollision(m: Pool, vtx: seq<Tx>) {
    && (forall i | 0 <= i < |vtx| && vtx[i].hash in m :: m[vtx[i].hash] == vtx[i])
    && OnePerTxid(vtx)
  }

  /** One transaction moving from the pool into the chain, its conflicts leaving the pool. */
  lemma ConnectTxKeeps(m: Pool, v: View, tx: Tx, height: int)
    requires Consistent(m, v) && CanApply(v, tx) && NoOverwrite(v, tx)
    requires tx.hash in m ==> m[tx.hash] == tx
    ensures Consistent(RemoveConflicts(m - {tx.hash}, tx), Apply(v, tx, height))
  {
    var m1 := m - {tx.hash};
    var roots := Conflicts(m1, tx);
    var m2, w := m1 - Reach(m1, roots), Apply(v, tx, height);
    ReachHasRoots(m1, roots);
    ReachClosed(m1, roots);
    forall id, i | id in m2 && 0 <= i < |m2[id].vin| ensures MemAvailable(m2, w, m2[id].vin[i]) {
      var o := m2[id].vin[i];
      AvailableAfterSpendAll(v, Ins(tx), o);
      assert o !in tx.vin;
      assert MemAvailable(m, v, o);
      AvailableAfterApply(v, tx, height, o);
      if o.hash in m { InputsInRange(m, v, id, i); }
    }
  }

  /** Connecting a block keeps pool and coins consistent. */
  lemma {:induction false} ConnectBlockKeeps(m: Pool, v: View, vtx: seq<Tx>, height: int)
    requires Consistent(m, v) && CanApplyAll(v, vtx, height) && NoOverwrites(v, vtx, height) && NoCollision(m, vtx)
    ensures Consistent(RemoveForBlock(m, vtx), ApplyAll(v, vtx, height))
    decreases |vtx|
  {
    if vtx != [] {
      ConnectTxKeeps(m, v, vtx[0], height);
      var next := RemoveConflicts(m - {vtx[0].hash}, vtx[0]);
      assert NoCollision(next, vtx[1..]) by {
        assert forall i | 0 <= i < |vtx[1..]| :: vtx[1..][i] == vtx[i + 1];
      }
      ConnectBlockKeeps(next, Apply(v, vtx[0], height), vtx[1..], height);
    }
  }

  /** Halfway through a disconnection an input may still refer to a transaction not yet handled. */
  ghost predicate Awaiting(m: Pool, v: View, rest: seq<Tx>) {
    && GoodPool(m)
    && forall id, i | id in m && 0 <= i < |m[id].vin| :: Awaits(m, v, rest, m[id].vin[i])
  }

  ghost predicate CreatedBy(rest: seq<Tx>, o: OutPoint) {
    exists k | 0 <= k < |rest| :: rest[k].hash == o.hash && FromTx(rest[k], MEMPOOL_HEIGHT).IsAvailable(o.n)
  }

  lemma {:induction false} AvailableOrCreated(v: View, vtx: seq<Tx>, height: int, o: OutPoint)
    requires CanApplyAll(v, vtx, height) && Available(ApplyAll(v, vtx, height), o)
    ensures Available(v, o) || CreatedBy(vtx, o)
    decreases |vtx|
  {
    if vtx != [] {
      AvailableOrCreated(Apply(v, vtx[0], height), vtx[1..], height, o);
      if Available(Apply(v, vtx[0], height), o) {
        AvailableAfterApply(v, vtx[0], height, o);
      } else {
        var k :| 0 <= k < |vtx[1..]| && vtx[1..][k].hash == o.hash && FromTx(vtx[1..][k], MEMPOOL_HEIGHT).IsAvailable(o.n);
        assert vtx[k + 1] == vtx[1..][k];
      }
    }
  }

  /** Only one transaction of a block carries a given txid. */
  predicate OnePerTxid(vtx: seq<Tx>) {
    forall i, j | 0 <= i < |vtx| && 0 <= j < |vtx| && vtx[i].hash == vtx[j].hash :: vtx[i] == vtx[j]
  }

  lemma CreatedByRest(rest: seq<Tx>, o: OutPoint)
    requires rest != [] && OnePerTxid(rest) && CreatedBy(rest, o)
    ensures o.hash == rest[0].hash ==> FromTx(rest[0], MEMPOOL_HEIGHT).IsAvailable(o.n)
    ensures o.hash != rest[0].hash ==> CreatedBy(rest[1..], o)
  {
    var k :| 0 <= k < |rest| && rest[k].hash == o.hash && FromTx(rest[k], MEMPOOL_HEIGHT).IsAvailable(o.n);
    if k > 0 { assert rest[1..][k - 1] == rest[k]; }
  }

  lemma AvailableInRange(tx: Tx, n: nat)
    requires FromTx(tx, MEMPOOL_HEIGHT).IsAvailable(n)
    ensures n < |tx.vout|
  {
    assert FromTx(tx, MEMPOOL_HEIGHT).vout <= Spendable(tx.vout);
  }

  ghost predicate Awaits(m: Pool, v: View, rest: seq<Tx>, o: OutPoint) {
    MemAvailable(m, v, o) || (o.hash !in m && CreatedBy(rest, o))
  }

  lemma AcceptAwaits(p: Params, m: Pool, v: View, height: int, rest: seq<Tx>)
    requires rest != [] && Awaiting(m, v, rest) && OnePerTxid(rest) && Acceptable(p, m, v, height, rest[0])
    ensures Awaiting(m[rest[0].hash := rest[0]], v, rest[1..])
  {
    var n := m[rest[0].hash := rest[0]];
    forall id, i | id in n && 0 <= i < |n[id].vin| ensures Awaits(n, v, rest[1..], n[id].vin[i]) {
      var o := n[id].vin[i];
      if !MemAvailable(m, v, o) { CreatedByRest(rest, o); }
    }
  }

  lemma RemoveAwaits(m: Pool, v: View, rest: seq<Tx>)
    requires rest != [] && Awaiting(m, v, rest) && OnePerTxid(rest)
    ensures Awaiting(RemoveRecursive(m, rest[0]), v, rest[1..])
  {
    var tx, n := rest[0], RemoveRecursive(m, rest[0]);
    var roots := Roots(m, tx);
    ReachClosed(m, roots);
    ReachHasRoots(m, roots);
    forall id, i | id in n && 0 <= i < |n[id].vin| ensures Awaits(n, v, rest[1..], n[id].vin[i]) {
      var o := n[id].vin[i];
      if MemAvailable(m, v, o) {
        if o.hash in m {
          AvailableInRange(m[o.hash], o.n);
          assert SpendsFrom(m[id], m[o.hash]);
        }
      } else {
        CreatedByRest(rest, o);
        if o.hash == tx.hash {
          AvailableInRange(tx, o.n);
          assert SpendsFrom(m[id], tx);
        }
      }
    }
  }

  lemma {:induction false} ResurrectKeeps(p: Params, m: Pool, v: View, height: int, rest: seq<Tx>, externalOk: seq<bool>)
    requires |externalOk| == |rest| && Awaiting(m, v, rest)
    requires OnePerTxid(rest)
    ensures Consistent(Resurrect(p, m, v, height, rest, externalOk), v)
    decreases |rest|
  {
    if rest != [] {
      if externalOk[0] && Acceptable(p, m, v, height, rest[0]) { AcceptAwaits(p, m, v, height, rest); } else { RemoveAwaits(m, v, rest); }
      assert forall i | 0 <= i < |rest[1..]| :: rest[1..][i] == rest[i + 1];
      ResurrectKeeps(p, ResurrectOne(p, m, v, height, rest[0], externalOk[0]), v, height, rest[1..], externalOk[1..]);
    }
  }

  /** Disconnecting a block and resurrecting its transactions keeps pool and coins consistent. */
  lemma DisconnectBlockKeeps(p: Params, m: Pool, v: View, vtx: seq<Tx>, height: int, externalOk: seq<bool>)
    requires CanApplyAll(v, vtx, height) && Consistent(m, ApplyAll(v, vtx, height)) && |externalOk| == |vtx|
    requires NoCollision(m, vtx)
    ensures Consistent(Resurrect(p, m, v, height, vtx, externalOk), v)
  {
    var w := ApplyAll(v, vtx, height);
    forall id, i | id in m && 0 <= i < |m[id].vin|
      ensures Awaits(m, v, vtx, m[id].vin[i])
    {
      assert MemAvailable(m, w, m[id].vin[i]);
      if m[id].vin[i].hash !in m { AvailableOrCreated(v, vtx, height, m[id].vin[i]); }
    }
    ResurrectKeeps(p, m, v, height, vtx, externalOk);
  }

  // ---- No output is spent twice --------------------------------------------------------------

  /** No two transactions of the pool share an input. */
  ghost predicate Unshared(m: Pool) { forall a, b | a in m && b in m && a != b :: !SharesInput(m[a], m[b]) }

  lemma SharesBack(a: Tx, b: Tx)
    requires SharesInput(a, b)
    ensures SharesInput(b, a)
  {
    var i :| 0 <= i < |a.vin| && a.vin[i] in b.vin;
    var j :| 0 <= j < |b.vin| && b.vin[j] == a.vin[i];
  }

  lemma UnsharedAccept(p: Params, m: Pool, v: View, height: int, tx: Tx)
    requires Unshared(m) && Acceptable(p, m, v, height, tx)
    ensures Unshared(m[tx.hash := tx])
  {
    hide SharesInput, MemAvailable, CheckInputs, PoolCoins;
    forall id | id in m ensures !SharesInput(tx, m[id]) { if SharesInput(tx, m[id]) { SharesBack(tx, m[id]); } }
  }

  lemma UnsharedForBlock(m: Pool, vtx: seq<Tx>)
    requires Unshared(m)
    ensures Unshared(RemoveForBlock(m, vtx))
  {
    hide SharesInput;
    RemoveForBlockShrinks(m, vtx);
  }

  lemma UnsharedRemoval(m: Pool, v: View, height: int, maturity: int)
    requires Unshared(m)
    ensures Unshared(RemoveCoinbaseSpends(m, v, height, maturity))
  {}

  lemma {:induction false} UnsharedResurrect(p: Params, m: Pool, v: View, height: int, vtx: seq<Tx>, externalOk: seq<bool>)
    requires Unshared(m) && |externalOk| == |vtx|
    ensures Unshared(Resurrect(p, m, v, height, vtx, externalOk))
    decreases |vtx|
  {
    hide Unshared, Acceptable;
    if vtx != [] {
      if Acceptable(p, m, v, height, vtx[0]) { UnsharedAccept(p, m, v, height, vtx[0]); }
      UnsharedSubset(m, RemoveRecursive(m, vtx[0]));
      UnsharedResurrect(p, ResurrectOne(p, m, v, height, vtx[0], externalOk[0]), v, height, vtx[1..], externalOk[1..]);
    }
  }

  lemma UnsharedSubset(m: Pool, some: Pool)
    requires Unshared(m) && forall id | id in some :: id in m && some[id] == m[id]
    ensures Unshared(some)
  {
    hide SharesInput;
  }

  // ---- What removals achieve ---------------------------------------------------------------

  /** An exact index admits one spender per output. */
  lemma OneSpender(m: Pool, x: Index, a: TxId, b: TxId)
    requires Indexed(m, x) && a in m && b in m && SharesInput(m[a], m[b])
    ensures a == b
  {
    var i :| 0 <= i < |m[a].vin| && m[a].vin[i] in m[b].vin;
    var j :| 0 <= j < |m[b].vin| && m[b].vin[j] == m[a].vin[i];
    assert x[m[a].vin[i]] == InPoint(a, i) && x[m[b].vin[j]] == InPoint(b, j);
  }

  /** After the removal no pooled transaction spends an immature coinbase or a missing coin. */
  lemma NothingImmatureLeft(m: Pool, v: View, height: int, maturity: int)
    requires Consistent(m, v)
    ensures Immature(RemoveCoinbaseSpends(m, v, height, maturity), v, height, maturity) == {}
  {
    var roots, left := Immature(m, v, height, maturity), RemoveCoinbaseSpends(m, v, height, maturity);
    ReachHasRoots(m, roots);
    ReachClosed(m, roots);
    forall id | id in left ensures !SpendsImmature(left, v, height, maturity, left[id]) {
      forall i | 0 <= i < |m[id].vin| && m[id].vin[i].hash !in left ensures m[id].vin[i].hash !in m {
        if m[id].vin[i].hash in m { InputsInRange(m, v, id, i); }
      }
    }
  }

  lemma {:induction false} RemoveForBlockShrinks(m: Pool, vtx: seq<Tx>)
    ensures forall id | id in RemoveForBlock(m, vtx) :: id in m && RemoveForBlock(m, vtx)[id] == m[id]
    decreases |vtx|
  {
    if vtx != [] { RemoveForBlockShrinks(RemoveConflicts(m - {vtx[0].hash}, vtx[0]), vtx[1..]); }
  }

  /** After a block the pool holds none of its transactions and nothing that double-spends them. */
  lemma {:induction false} NoConflictLeft(m: Pool, vtx: seq<Tx>, k: nat)
    requires k < |vtx|
    ensures var left := RemoveForBlock(m, vtx);
            vtx[k].hash !in left && forall id | id in left :: !SharesInput(left[id], vtx[k])
    decreases |vtx|
  {
    var gone := m - {vtx[0].hash};
    var next := RemoveConflicts(gone, vtx[0]);
    if k == 0 {
      ReachHasRoots(gone, Conflicts(gone, vtx[0]));
      RemoveForBlockShrinks(next, vtx[1..]);
    } else {
      assert vtx[1..][k - 1] == vtx[k];
      NoConflictLeft(next, vtx[1..], k - 1);
    }
  }
}
