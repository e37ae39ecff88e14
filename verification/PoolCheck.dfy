/** The self-check of the memory pool: it rebuilds the pool on a copy of the coins, transaction by
  * transaction, and passes exactly when the pool is consistent and can be paid for in the next block.
  */
module PoolChecks {
  import opened Coins
  import opened Sequences
  import opened Rules
  import opened Mempool
  import MapSum

  const CHECK_HEIGHT := 1000000

  /** A transaction can only name transactions that existed before it: their txids are hashes. */
  ghost predicate Ranked(m: Pool, rank: TxId -> nat) {
    forall id, i | id in m && 0 <= i < |m[id].vin| :: rank(m[id].vin[i].hash) < rank(id)
  }

  /** Where pool and coins hold the same txid, it is one and the same transaction: what the coins offer
    * is an output that the pool's transaction has. */
  ghost predicate Agrees(m: Pool, v: View) {
    forall o {:trigger Available(v, o)} | Available(v, o) && o.hash in m ::
      && FromTx(m[o.hash], MEMPOOL_HEIGHT).IsAvailable(o.n) && FromTx(m[o.hash], MEMPOOL_HEIGHT).vout[o.n] == OutAt(v, o)
      && !v[o.hash].coinbase
  }

  /** What is asserted about one input. */
  predicate InputOk(m: Pool, x: Index, v: View, id: TxId, i: nat)
    requires id in m && i < |m[id].vin|
  {
    var o := m[id].vin[i];
    && (if o.hash in m then o.n < |m[o.hash].vout| && !m[o.hash].vout[o.n].IsNull() else Available(v, o))
    && o in x && x[o] == InPoint(id, i)
  }

  predicate InputsOk(m: Pool, x: Index, v: View, id: TxId)
    requires id in m
  {
    forall i {:trigger m[id].vin[i]} | 0 <= i < |m[id].vin| :: InputOk(m, x, v, id, i)
  }

  predicate DependsOnPool(m: Pool, tx: Tx) { exists i | 0 <= i < |tx.vin| :: tx.vin[i].hash in m }

  /** The copy of the coins after the transactions in done offers the others what pool and coins do. */
  ghost predicate Offers(m: Pool, x: Index, v: View, done: set<TxId>, dup: View) {
    forall id, i | id in m && id !in done && InputsOk(m, x, v, id) && 0 <= i < |m[id].vin| ::
      MemAvailable(m, v, m[id].vin[i]) && (m[id].vin[i].hash in m ==> m[id].vin[i].hash in done) ==> Available(dup, m[id].vin[i])
  }

  /** And it offers nothing else: each of its outputs is one of pool or coins, and as mature there. */
  ghost predicate Mirrors(m: Pool, v: View, dup: View) {
    forall o {:trigger Available(dup, o)} | Available(dup, o) :: Mirrored(PoolCoins(m, v), dup, o)
  }

  predicate Mirrored(w: View, dup: View, o: OutPoint)
    requires Available(dup, o)
  {
    && Available(w, o) && OutAt(dup, o) == OutAt(w, o) && dup[o.hash].coinbase == w[o.hash].coinbase
    && (w[o.hash].coinbase ==> dup[o.hash].height == w[o.hash].height)
  }

  lemma NoInputTwice(m: Pool, x: Index, v: View, a: TxId, b: TxId, i: nat)
    requires a in m && b in m && a != b && InputsOk(m, x, v, a) && InputsOk(m, x, v, b) && i < |m[a].vin|
    ensures m[a].vin[i] !in m[b].vin
  {
    assert InputOk(m, x, v, a, i);
    forall j | 0 <= j < |m[b].vin| ensures m[b].vin[j] != m[a].vin[i] { assert InputOk(m, x, v, b, j); }
  }

  /** One transaction is applied to the copy. */
  lemma OffersStep(m: Pool, x: Index, v: View, done: set<TxId>, dup: View, id: TxId)
    requires GoodPool(m) && Offers(m, x, v, done, dup) && id in m && id !in done && CanApply(dup, m[id]) && InputsOk(m, x, v, id)
    ensures Offers(m, x, v, done + {id}, Apply(dup, m[id], CHECK_HEIGHT))
  {
    hide InputsOk, CanApply, Apply, FromTx;
    var tx, next := m[id], Apply(dup, m[id], CHECK_HEIGHT);
    forall a, i | a in m && a !in done + {id} && InputsOk(m, x, v, a) && 0 <= i < |m[a].vin|
                  && MemAvailable(m, v, m[a].vin[i]) && (m[a].vin[i].hash in m ==> m[a].vin[i].hash in done + {id})
      ensures Available(next, m[a].vin[i])
    {
      var o := m[a].vin[i];
      AvailableAfterApply(dup, tx, CHECK_HEIGHT, o);
      HeightIrrelevant(tx, CHECK_HEIGHT, o.n);
      NoInputTwice(m, x, v, a, id, i);
    }
  }

  lemma MirrorsStep(m: Pool, v: View, dup: View, id: TxId)
    requires GoodPool(m) && Mirrors(m, v, dup) && id in m && CanApply(dup, m[id])
    ensures Mirrors(m, v, Apply(dup, m[id], CHECK_HEIGHT))
  {
    hide FromTx, SpendAll, Mirrored;
    var tx, next := m[id], Apply(dup, m[id], CHECK_HEIGHT);
    SpendAllKeeps(dup, Ins(tx));
    forall o | Available(next, o) ensures Mirrored(PoolCoins(m, v), next, o) {
      AvailableAfterApply(dup, tx, CHECK_HEIGHT, o);
      if o.hash == id { MirrorsOwn(m, v, dup, id, o); } else { MirrorsOther(m, v, dup, id, o); }
    }
  }

  /** The outputs the copy has just received. */
  lemma MirrorsOwn(m: Pool, v: View, dup: View, id: TxId, o: OutPoint)
    requires GoodPool(m) && id in m && o.hash == id && CanApply(dup, m[id])
    requires Available(Apply(dup, m[id], CHECK_HEIGHT), o)
    ensures Mirrored(PoolCoins(m, v), Apply(dup, m[id], CHECK_HEIGHT), o)
  {
    hide SpendAll, FromTx;
    HeightIrrelevant(m[id], CHECK_HEIGHT, o.n);
    FromTxSame(m[id], CHECK_HEIGHT, MEMPOOL_HEIGHT);
    StoredIs(SpendAll(dup, Ins(m[id])), id, FromTx(m[id], CHECK_HEIGHT), o);
  }

  lemma StoredIs(v: View, id: TxId, c: Coin, o: OutPoint)
    requires o.hash == id && Available(Store(v, id, c), o)
    ensures c.IsAvailable(o.n) && OutAt(Store(v, id, c), o) == c.vout[o.n]
    ensures Store(v, id, c)[id].coinbase == c.coinbase && Store(v, id, c)[id].height == c.height
  {}

  lemma FromTxSame(tx: Tx, height: int, other: int)
    ensures FromTx(tx, height) == FromTx(tx, other).(height := height) && FromTx(tx, height).coinbase == tx.IsCoinBase()
  {}

  lemma MirrorsOther(m: Pool, v: View, dup: View, id: TxId, o: OutPoint)
    requires Mirrors(m, v, dup) && id in m && o.hash != m[id].hash && CanApply(dup, m[id])
    requires Available(dup, o) && o !in Ins(m[id]) && Available(Apply(dup, m[id], CHECK_HEIGHT), o)
    ensures Mirrored(PoolCoins(m, v), Apply(dup, m[id], CHECK_HEIGHT), o)
  {
    hide SpendAll, FromTx, PoolCoins;
    SpendAllKeeps(dup, Ins(m[id]));
    OutsKept(dup, Ins(m[id]), o);
    assert Mirrored(PoolCoins(m, v), dup, o);
  }

  lemma MirrorsStart(m: Pool, v: View)
    requires GoodPool(m) && Agrees(m, v)
    ensures Mirrors(m, v, v)
  {
    hide FromTx;
    forall o | Available(v, o) ensures Mirrored(PoolCoins(m, v), v, o) {
      if o.hash in m { FromTxSame(m[o.hash], MEMPOOL_HEIGHT, MEMPOOL_HEIGHT); }
    }
  }

  /** With inputs that the copy offers, a transaction is judged on the copy as it is on pool and coins. */
  lemma SameVerdict(p: Params, m: Pool, v: View, dup: View, tx: Tx, height: int)
    requires Mirrors(m, v, dup) && HaveInputs(dup, tx.vin)
    ensures HaveInputs(PoolCoins(m, v), tx.vin)
    ensures CheckInputs(p, dup, tx, height) <==> CheckInputs(p, PoolCoins(m, v), tx, height)
  {
    hide PoolCoins, SumIn, InRange;
    var w := PoolCoins(m, v);
    forall i | 0 <= i < |tx.vin| ensures Mirrored(w, dup, tx.vin[i]) { assert Available(dup, tx.vin[i]); }
    SumInSame(p, dup, w, tx.vin);
    assert Mature(p, dup, tx.vin, height) <==> Mature(p, w, tx.vin, height);
  }

  lemma LowestRank(ids: set<TxId>, rank: TxId -> nat) returns (least: TxId)
    requires ids != {}
    ensures least in ids && forall id | id in ids :: rank(least) <= rank(id)
    decreases |ids|
  {
    var id :| id in ids;
    if ids == {id} {
      least := id;
    } else {
      assert ids == (ids - {id}) + {id};
      var other := LowestRank(ids - {id}, rank);
      least := if rank(other) <= rank(id) then other else id;
    }
  }

  /** In a consistent pool some waiting transaction is always ready. */
  lemma SomeReady(m: Pool, x: Index, v: View, done: set<TxId>, dup: View, rank: TxId -> nat) returns (id: TxId)
    requires Consistent(m, v) && Ranked(m, rank) && (forall a | a in m :: InputsOk(m, x, v, a))
    requires Offers(m, x, v, done, dup) && m.Keys - done != {}
    ensures id in m && id !in done && HaveInputs(dup, m[id].vin)
  {
    id := LowestRank(m.Keys - done, rank);
    forall i | 0 <= i < |m[id].vin| ensures Available(dup, m[id].vin[i]) {
      var o := m[id].vin[i];
      assert MemAvailable(m, v, o) && rank(o.hash) < rank(id);
      assert o.hash in m.Keys - done ==> rank(id) <= rank(o.hash);
    }
  }

  /** A consistent, indexed pool meets what is asserted of its inputs. */
  lemma ConsistentInputs(m: Pool, x: Index, v: View, id: TxId)
    requires Consistent(m, v) && Indexed(m, x) && id in m
    ensures InputsOk(m, x, v, id)
  {
    forall i | 0 <= i < |m[id].vin| ensures InputOk(m, x, v, id, i) {
      var o := m[id].vin[i];
      assert MemAvailable(m, v, o);
      if o.hash in m { AvailableIsOutput(m[o.hash], o.n); }
    }
  }

  lemma AvailableIsOutput(tx: Tx, n: nat)
    requires FromTx(tx, MEMPOOL_HEIGHT).IsAvailable(n)
    ensures n < |tx.vout| && !tx.vout[n].IsNull()
  {
    var c := FromTx(tx, MEMPOOL_HEIGHT);
    assert c.vout <= Spendable(tx.vout);
    assert c.vout[n] == Spendable(tx.vout)[n];
  }

  // ---- The first pass ------------------------------------------------------------------------

  function Pending(waiting: seq<TxId>): set<TxId> { set id | id in waiting }

  /** After the first pass over all entries but those in rest: the entries that depend on the pool
    * wait, the others have been checked and applied to the copy. */
  ghost predicate FirstPass(p: Params, m: Pool, x: Index, v: View, height: int, rest: set<TxId>, waiting: seq<TxId>, dup: View) {
    && rest <= m.Keys && Distinct(waiting)
    && (forall id | id in waiting :: id in m && id !in rest)
    && (forall id | id in m && id !in rest :: InputsOk(m, x, v, id))
    && Offers(m, x, v, m.Keys - rest - Pending(waiting), dup)
    && (Agrees(m, v) ==>
          && Mirrors(m, v, dup)
          && forall id | id in m && id !in rest && id !in waiting :: CheckInputs(p, PoolCoins(m, v), m[id], height))
  }

  lemma FirstPassWaits(p: Params, m: Pool, x: Index, v: View, height: int, rest: set<TxId>, waiting: seq<TxId>, dup: View, id: TxId)
    requires FirstPass(p, m, x, v, height, rest, waiting, dup) && id in rest && InputsOk(m, x, v, id)
    ensures FirstPass(p, m, x, v, height, rest - {id}, waiting + [id], dup)
  {
    assert Pending(waiting + [id]) == Pending(waiting) + {id};
    assert m.Keys - rest - Pending(waiting) == m.Keys - (rest - {id}) - Pending(waiting + [id]);
  }

  /** A transaction that spends coins only finds them in the copy. */
  lemma Independent(m: Pool, x: Index, v: View, done: set<TxId>, dup: View, id: TxId)
    requires GoodPool(m) && Offers(m, x, v, done, dup) && id in m && id !in done && InputsOk(m, x, v, id) && !DependsOnPool(m, m[id])
    ensures CanApply(dup, m[id]) && HaveInputs(dup, m[id].vin)
  {
    forall i | 0 <= i < |m[id].vin| ensures Available(dup, m[id].vin[i]) {
      assert InputOk(m, x, v, id, i) && m[id].vin[i].hash !in m;
    }
  }

  lemma FirstPassApplies(p: Params, m: Pool, x: Index, v: View, height: int, rest: set<TxId>, waiting: seq<TxId>, dup: View, id: TxId)
    requires GoodPool(m) && FirstPass(p, m, x, v, height, rest, waiting, dup)
    requires id in rest && InputsOk(m, x, v, id) && !DependsOnPool(m, m[id])
    ensures CanApply(dup, m[id])
    ensures if CheckInputs(p, dup, m[id], height)
            then FirstPass(p, m, x, v, height, rest - {id}, waiting, Apply(dup, m[id], CHECK_HEIGHT))
            else Agrees(m, v) ==> !Payable(p, m, v, height)
  {
    hide Apply, Offers, Agrees, Mirrors, CheckInputs, PoolCoins;
    var done := m.Keys - rest - Pending(waiting);
    Independent(m, x, v, done, dup, id);
    OffersStep(m, x, v, done, dup, id);
    if Agrees(m, v) {
      SameVerdict(p, m, v, dup, m[id], height);
      MirrorsStep(m, v, dup, id);
    }
    assert done + {id} == m.Keys - (rest - {id}) - Pending(waiting);
  }

  /** The inputs of one entry, in order, and whether one of them is an output of the pool. */
  method CheckEntry(m: Pool, x: Index, v: View, id: TxId) returns (ok: bool, dependsWait: bool)
    requires id in m
    ensures ok <==> InputsOk(m, x, v, id)
    ensures ok ==> (dependsWait <==> DependsOnPool(m, m[id]))
  {
    var vin := m[id].vin;
    dependsWait := false;
    for i := 0 to |vin|
      invariant forall k | 0 <= k < i :: InputOk(m, x, v, id, k)
      invariant dependsWait <==> exists k | 0 <= k < i :: vin[k].hash in m
    {
      if vin[i].hash in m {
        var tx2 := m[vin[i].hash];
        if vin[i].n >= |tx2.vout| || tx2.vout[vin[i].n].IsNull() { return false, false; }
        dependsWait := true;
      } else if !Available(v, vin[i]) {
        return false, false;
      }
      if vin[i] !in x || x[vin[i]] != InPoint(id, i) { return false, false; }
    }
    ok := true;
  }

  lemma FirstPassStart(p: Params, m: Pool, x: Index, v: View, height: int)
    requires GoodPool(m)
    ensures FirstPass(p, m, x, v, height, m.Keys, [], v)
  {
    if Agrees(m, v) { MirrorsStart(m, v); }
  }

  ghost predicate AllInputsOk(m: Pool, x: Index, v: View) { forall id | id in m :: InputsOk(m, x, v, id) }

  method CheckEntries(p: Params, m: Pool, x: Index, v: View, height: int)
    returns (ok: bool, checkTotal: int, waiting: seq<TxId>, dup: View)
    requires GoodPool(m)
    ensures if ok then AllInputsOk(m, x, v) && checkTotal == TotalSize(m) && FirstPass(p, m, x, v, height, {}, waiting, dup)
            else AllInputsOk(m, x, v) && Agrees(m, v) ==> !Payable(p, m, v, height)
  {
    hide Offers, Agrees, Mirrors, CheckInputs, Payable, PoolCoins;
    ok, checkTotal, waiting, dup := true, 0, [], v;
    var rest := m.Keys;
    FirstPassStart(p, m, x, v, height);
    assert m - (m.Keys - rest) == m;
    while rest != {}
      invariant FirstPass(p, m, x, v, height, rest, waiting, dup) && ok
      invariant checkTotal + TotalSize(m - (m.Keys - rest)) == TotalSize(m)
      decreases rest
    {
      var id :| id in rest;
      var wait;
      ok, wait := CheckEntry(m, x, v, id);
      if !ok { return; }
      TakeSize(m, rest, id);
      checkTotal := checkTotal + m[id].size;
      if wait {
        FirstPassWaits(p, m, x, v, height, rest, waiting, dup, id);
        waiting := waiting + [id];
      } else {
        FirstPassApplies(p, m, x, v, height, rest, waiting, dup, id);
        ok := CheckInputs(p, dup, m[id], height);
        if !ok { return; }
        dup := Apply(dup, m[id], CHECK_HEIGHT);
      }
      rest := rest - {id};
    }
    NoSize(m);
  }

  lemma TakeSize(m: Pool, rest: set<TxId>, id: TxId)
    requires rest <= m.Keys && id in rest
    ensures TotalSize(m - (m.Keys - rest)) == m[id].size + TotalSize(m - (m.Keys - (rest - {id})))
  {
    var some := m - (m.Keys - rest);
    MapSum.Without(Sizes(some), id);
    assert Sizes(some) - {id} == Sizes(m - (m.Keys - (rest - {id})));
  }

  lemma NoSize(m: Pool)
    ensures TotalSize(m - (m.Keys - {})) == 0
  {
    assert Sizes(m - (m.Keys - {})) == map[];
  }

  // ---- The second pass -----------------------------------------------------------------------

  lemma SecondPassTakes(p: Params, m: Pool, x: Index, v: View, height: int, waiting: seq<TxId>, dup: View)
    requires GoodPool(m) && FirstPass(p, m, x, v, height, {}, waiting, dup)
    requires waiting != [] && HaveInputs(dup, m[waiting[0]].vin)
    ensures CanApply(dup, m[waiting[0]])
    ensures if CheckInputs(p, dup, m[waiting[0]], height)
            then FirstPass(p, m, x, v, height, {}, waiting[1..], Apply(dup, m[waiting[0]], CHECK_HEIGHT))
            else Agrees(m, v) ==> !Payable(p, m, v, height)
  {
    hide Apply, Offers, Agrees, Mirrors, InputsOk, CheckInputs, PoolCoins;
    var id, done := waiting[0], m.Keys - {} - Pending(waiting);
    assert waiting == [id] + waiting[1..];
    OffersStep(m, x, v, done, dup, id);
    if Agrees(m, v) {
      SameVerdict(p, m, v, dup, m[id], height);
      MirrorsStep(m, v, dup, id);
    }
    assert done + {id} == m.Keys - {} - Pending(waiting[1..]);
  }

  lemma SecondPassRotates(p: Params, m: Pool, x: Index, v: View, height: int, waiting: seq<TxId>, dup: View)
    requires FirstPass(p, m, x, v, height, {}, waiting, dup) && waiting != []
    ensures FirstPass(p, m, x, v, height, {}, waiting[1..] + [waiting[0]], dup)
  {
    hide Offers, Agrees, Mirrors, InputsOk, CheckInputs, PoolCoins;
    var turned := waiting[1..] + [waiting[0]];
    assert waiting == [waiting[0]] + waiting[1..];
    forall id ensures id in turned <==> id in waiting {}
    assert Pending(turned) == Pending(waiting);
  }

  /** When no waiting transaction is ready, the pool is not consistent. */
  lemma Stuck(p: Params, m: Pool, x: Index, v: View, height: int, waiting: seq<TxId>, dup: View, rank: TxId -> nat)
    requires Ranked(m, rank) && FirstPass(p, m, x, v, height, {}, waiting, dup) && waiting != []
    requires forall k | 0 <= k < |waiting| :: !HaveInputs(dup, m[waiting[k]].vin)
    ensures !Consistent(m, v)
  {
    hide Offers, Agrees, Mirrors, InputsOk, CheckInputs, PoolCoins, Ranked;
    if Consistent(m, v) {
      assert waiting[0] in m.Keys - (m.Keys - {} - Pending(waiting));
      var id := SomeReady(m, x, v, m.Keys - {} - Pending(waiting), dup, rank);
      assert false;
    }
  }

  lemma PassedAll(p: Params, m: Pool, x: Index, v: View, height: int, dup: View)
    requires GoodPool(m) && FirstPass(p, m, x, v, height, {}, [], dup) && Agrees(m, v)
    ensures Consistent(m, v) && Payable(p, m, v, height)
  {
    hide Offers, Mirrors, InputsOk, PoolCoins;
    forall id, i | id in m && 0 <= i < |m[id].vin| ensures MemAvailable(m, v, m[id].vin[i]) {
      assert CheckInputs(p, PoolCoins(m, v), m[id], height);
      assert Available(PoolCoins(m, v), m[id].vin[i]);
      PoolCoinsOffer(m, v, m[id].vin[i]);
    }
  }

  /** Check and apply the waiting transactions as their inputs become available. */
  method CheckWaiting(p: Params, m: Pool, x: Index, v: View, height: int, waiting0: seq<TxId>, dup0: View, ghost rank: TxId -> nat)
    returns (ok: bool)
    requires GoodPool(m) && Ranked(m, rank) && FirstPass(p, m, x, v, height, {}, waiting0, dup0)
    ensures Agrees(m, v) ==> (ok <==> Consistent(m, v) && Payable(p, m, v, height))
  {
    hide Offers, Agrees, Mirrors, GoodPool, Consistent, Ranked, CheckInputs, Payable, PoolCoins, InputsOk;
    var waiting, dup := waiting0, dup0;
    var stepsSinceLastRemove := 0;
    while waiting != []
      invariant FirstPass(p, m, x, v, height, {}, waiting, dup)
      invariant 0 <= stepsSinceLastRemove <= |waiting| && (waiting != [] ==> stepsSinceLastRemove < |waiting|)
      invariant forall k | |waiting| - stepsSinceLastRemove <= k < |waiting| :: !HaveInputs(dup, m[waiting[k]].vin)
      decreases |waiting|, |waiting| - stepsSinceLastRemove
    {
      var entry := waiting[0];
      if !HaveInputs(dup, m[entry].vin) {
        SecondPassRotates(p, m, x, v, height, waiting, dup);
        waiting := waiting[1..] + [entry];
        stepsSinceLastRemove := stepsSinceLastRemove + 1;
        if stepsSinceLastRemove >= |waiting| {
          Stuck(p, m, x, v, height, waiting, dup, rank);
          return false;
        }
      } else {
        SecondPassTakes(p, m, x, v, height, waiting, dup);
        if !CheckInputs(p, dup, m[entry], height) { return false; }
        dup := Apply(dup, m[entry], CHECK_HEIGHT);
        waiting := waiting[1..];
        stepsSinceLastRemove := 0;
      }
    }
    if Agrees(m, v) { PassedAll(p, m, x, v, height, dup); }
    ok := true;
  }

  // ---- The whole check -----------------------------------------------------------------------

  predicate PointOk(m: Pool, x: Index, o: OutPoint)
    requires o in x
  {
    x[o].txid in m && x[o].n < |m[x[o].txid].vin| && m[x[o].txid].vin[x[o].n] == o
  }

  method CheckIndex(m: Pool, x: Index) returns (ok: bool)
    ensures ok <==> forall o | o in x :: PointOk(m, x, o)
  {
    var rest := x.Keys;
    while rest != {}
      invariant rest <= x.Keys && forall o | o in x && o !in rest :: PointOk(m, x, o)
      decreases rest
    {
      var o :| o in rest;
      if !PointOk(m, x, o) { return false; }
      rest := rest - {o};
    }
    ok := true;
  }

  /** The check passes if and only if every input of the pool is an available coin or an output of the
    * pool, every transaction of the pool can be paid for in the next block, the index holds exactly the
    * inputs of the pool, and the total size is right; as long as no txid of the pool names another
    * transaction in the coins. */
  method Check(p: Params, m: Pool, x: Index, totalTxSize: int, v: View, height: int, ghost rank: TxId -> nat) returns (ok: bool)
    requires GoodPool(m) && Ranked(m, rank)
    ensures Agrees(m, v) ==> (ok <==> Consistent(m, v) && Payable(p, m, v, height) && Indexed(m, x) && totalTxSize == TotalSize(m))
  {
    hide Agrees, Payable, FirstPass, PointOk, GoodPool, Ranked, TotalSize;
    var checkTotal, waiting, dup;
    ok, checkTotal, waiting, dup := CheckEntries(p, m, x, v, height);
    if Consistent(m, v) && Indexed(m, x) {
      forall id | id in m ensures InputsOk(m, x, v, id) { ConsistentInputs(m, x, v, id); }
    }
    if !ok { return; }
    ok := CheckWaiting(p, m, x, v, height, waiting, dup, rank);
    if !ok { return; }
    ok := CheckIndex(m, x);
    IndexedIs(m, x, v);
    ok := ok && totalTxSize == checkTotal;
  }

  lemma IndexedIs(m: Pool, x: Index, v: View)
    requires forall id | id in m :: InputsOk(m, x, v, id)
    ensures Indexed(m, x) <==> forall o | o in x :: PointOk(m, x, o)
  {
    forall id, i | id in m && 0 <= i < |m[id].vin| ensures m[id].vin[i] in x && x[m[id].vin[i]] == InPoint(id, i) {
      assert InputsOk(m, x, v, id) && InputOk(m, x, v, id, i);
    }
    if Indexed(m, x) {
      forall o | o in x ensures PointOk(m, x, o) {}
    }
  }
}
