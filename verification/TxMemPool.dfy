/** The memory pool as an object: the transactions, the index of the inputs they spend, and the
  * running total of their sizes, all updated in place.
  */
module TxMemPools {
  import opened Coins
  import opened Sequences
  import opened Rules
  import opened CoinsViews
  import opened Mempool
  import MapSum
  import PoolChecks

  /** The first n inputs of a transaction entered into the index. */
  ghost function WithInputs(x: Index, tx: Tx, n: nat): Index
    requires n <= |tx.vin|
  {
    if n == 0 then x else WithInputs(x, tx, n - 1)[tx.vin[n - 1] := InPoint(tx.hash, n - 1)]
  }

  lemma {:induction false} WithInputsAt(x: Index, tx: Tx, n: nat)
    requires n <= |tx.vin| && Distinct(tx.vin)
    ensures forall i | 0 <= i < n :: tx.vin[i] in WithInputs(x, tx, n) && WithInputs(x, tx, n)[tx.vin[i]] == InPoint(tx.hash, i)
    ensures forall o | o in WithInputs(x, tx, n) && o !in tx.vin[..n] :: o in x && WithInputs(x, tx, n)[o] == x[o]
    ensures forall o | o in x && o !in tx.vin[..n] :: o in WithInputs(x, tx, n) && WithInputs(x, tx, n)[o] == x[o]
  {
    if n > 0 {
      WithInputsAt(x, tx, n - 1);
      assert tx.vin[..n] == tx.vin[..n - 1] + [tx.vin[n - 1]];
    }
  }

  lemma NoShared(m: Pool, tx: Tx, id: TxId, i: nat)
    requires id in m && i < |m[id].vin| && !SharesInput(m[id], tx)
    ensures m[id].vin[i] !in tx.vin
  {}

  lemma IndexedAddCovers(m: Pool, x: Index, tx: Tx, id: TxId, i: nat)
    requires Indexed(m, x) && CheckTransaction(tx)
    requires forall id | id in m :: !SharesInput(m[id], tx)
    requires id in m[tx.hash := tx] && i < |m[tx.hash := tx][id].vin|
    ensures var o, y := m[tx.hash := tx][id].vin[i], WithInputs(x, tx, |tx.vin|);
            o in y && y[o] == InPoint(id, i)
  {
    WithInputsAt(x, tx, |tx.vin|);
    assert tx.vin[..|tx.vin|] == tx.vin;
    if id != tx.hash { NoShared(m, tx, id, i); }
  }

  lemma IndexedAddNames(m: Pool, x: Index, tx: Tx, o: OutPoint)
    requires Indexed(m, x) && CheckTransaction(tx) && tx.hash !in m && o in WithInputs(x, tx, |tx.vin|)
    ensures var n, p := m[tx.hash := tx], WithInputs(x, tx, |tx.vin|)[o];
            p.txid in n && p.n < |n[p.txid].vin| && n[p.txid].vin[p.n] == o
  {
    WithInputsAt(x, tx, |tx.vin|);
    assert tx.vin[..|tx.vin|] == tx.vin;
    if o in tx.vin {
      var i :| 0 <= i < |tx.vin| && tx.vin[i] == o;
    }
  }

  lemma IndexedAdd(m: Pool, x: Index, tx: Tx)
    requires Indexed(m, x) && CheckTransaction(tx) && tx.hash !in m
    requires forall id | id in m :: !SharesInput(m[id], tx)
    ensures Indexed(m[tx.hash := tx], WithInputs(x, tx, |tx.vin|))
  {
    var n, y := m[tx.hash := tx], WithInputs(x, tx, |tx.vin|);
    forall id, i | id in n && 0 <= i < |n[id].vin| ensures n[id].vin[i] in y && y[n[id].vin[i]] == InPoint(id, i) {
      IndexedAddCovers(m, x, tx, id, i);
    }
    forall o | o in y ensures y[o].txid in n && y[o].n < |n[y[o].txid].vin| && n[y[o].txid].vin[y[o].n] == o {
      IndexedAddNames(m, x, tx, o);
    }
  }

  lemma IndexedRemove(m: Pool, x: Index, id: TxId)
    requires GoodPool(m) && Indexed(m, x) && id in m
    ensures Indexed(m - {id}, x - (set o | o in m[id].vin))
  {}

  lemma SizeRemove(m: Pool, id: TxId)
    requires id in m
    ensures TotalSize(m - {id}) == TotalSize(m) - m[id].size
  {
    MapSum.Without(Sizes(m), id);
    assert Sizes(m - {id}) == Sizes(m) - {id};
  }

  lemma SizeAdd(m: Pool, tx: Tx)
    requires tx.hash !in m
    ensures TotalSize(m[tx.hash := tx]) == TotalSize(m) + tx.size
  {
    SizeRemove(m[tx.hash := tx], tx.hash);
    assert m[tx.hash := tx] - {tx.hash} == m;
  }

  /** State of the removal loop: m0 is the pool at its start and goal what has to go. */
  ghost predicate Working(m0: Pool, goal: set<TxId>, roots: set<TxId>, m: Pool, queue: seq<TxId>, recursive: bool) {
    && m.Keys <= m0.Keys && (forall id | id in m :: m[id] == m0[id])
    && m0.Keys - m.Keys <= goal
    && (forall q | q in queue :: q in goal || q !in m0)
    && (forall r | r in roots && r in m :: r in queue)
    && (recursive ==> forall a, c | a in m0 && a !in m && c in m && SpendsFrom(m0[c], m0[a]) :: c in queue)
  }

  ghost predicate Listed(m0: Pool, m: Pool, removed: seq<Tx>) {
    && Distinct(removed)
    && forall tx :: tx in removed <==> tx.hash in m0 && tx.hash !in m && m0[tx.hash] == tx
  }

  lemma WorkSkip(m0: Pool, goal: set<TxId>, roots: set<TxId>, m: Pool, queue: seq<TxId>, recursive: bool)
    requires queue != [] && Working(m0, goal, roots, m, queue, recursive) && queue[0] !in m
    ensures Working(m0, goal, roots, m, queue[1..], recursive)
  {
    assert queue == [queue[0]] + queue[1..];
  }

  lemma WorkRemove(m0: Pool, goal: set<TxId>, roots: set<TxId>, m: Pool, queue: seq<TxId>, recursive: bool, kids: seq<TxId>)
    requires queue != [] && Working(m0, goal, roots, m, queue, recursive) && queue[0] in m
    requires recursive ==> Closed(m0, goal) && forall c :: c in kids <==> c in Children(m, m[queue[0]])
    requires !recursive ==> kids == []
    ensures Working(m0, goal, roots, m - {queue[0]}, queue[1..] + kids, recursive)
  {
    assert queue == [queue[0]] + queue[1..];
    assert recursive ==> forall c | c in kids :: c in goal;
  }

  lemma WorkDone(m0: Pool, goal: set<TxId>, roots: set<TxId>, m: Pool, recursive: bool)
    requires Working(m0, goal, roots, m, [], recursive)
    requires if recursive then goal == Reach(m0, roots) else goal == roots
    ensures m == m0 - goal
  {
    if recursive { ReachLeast(m0, roots, m0.Keys - m.Keys); }
  }

  lemma ListMore(m0: Pool, m: Pool, removed: seq<Tx>, id: TxId)
    requires GoodPool(m0) && m.Keys <= m0.Keys && (forall k | k in m :: m[k] == m0[k])
    requires Listed(m0, m, removed) && id in m
    ensures Listed(m0, m - {id}, removed + [m[id]])
  {
    var more := removed + [m[id]];
    assert m0[id].hash == id;
    forall tx ensures tx in more <==> tx.hash in m0 && tx.hash !in m - {id} && m0[tx.hash] == tx {}
  }

  /** Reach does not grow by roots it already holds. */
  lemma ReachExtra(m: Pool, a: set<TxId>, b: set<TxId>)
    requires a <= b && b * m.Keys <= Reach(m, a) + a
    ensures Reach(m, b) == Reach(m, a)
  {
    ReachHasRoots(m, a);
    ReachHasRoots(m, b);
    ReachClosed(m, a);
    ReachClosed(m, b);
    ReachLeast(m, b, Reach(m, a));
    ReachLeast(m, a, Reach(m, b));
  }

  /** Removing further roots from what is left, when those already gone are simply skipped. */
  lemma RemoveMore(m0: Pool, a: set<TxId>, b: set<TxId>)
    ensures var m := m0 - Reach(m0, a); m - Reach(m, b * m.Keys) == m0 - Reach(m0, a + b)
  {
    var m := m0 - Reach(m0, a);
    ReachUnion(m0, a, b * m.Keys);
    ReachHasRoots(m0, a + b * m.Keys);
    ReachHasRoots(m0, a);
    ReachClosed(m0, a + b * m.Keys);
    assert Reach(m0, a) <= Reach(m0, a + b * m.Keys) by { ReachLeast(m0, a, Reach(m0, a + b * m.Keys)); }
    ReachExtra(m0, a + b * m.Keys, a + b);
  }

  /** A removed transaction has no child left behind, so removing it again does nothing. */
  lemma RemoveListed(m0: Pool, a: set<TxId>, tx: Tx)
    requires GoodPool(m0) && tx.hash in m0 && m0[tx.hash] == tx
    ensures RemoveRecursive(m0 - Reach(m0, a), tx) == m0 - Reach(m0, a + {tx.hash})
  {
    var m := m0 - Reach(m0, a);
    RemoveMore(m0, a, {tx.hash});
    ReachClosed(m0, a);
    if tx.hash in m {
      assert {tx.hash} * m.Keys == {tx.hash};
    } else {
      assert Children(m, tx) == {};
      assert {tx.hash} * m.Keys == {};
    }
  }

  /** The pool transactions, other than tx itself, that spend one of its first n inputs. */
  function ConflictsUpTo(m: Pool, tx: Tx, n: nat): set<TxId>
    requires n <= |tx.vin|
  {
    set c | c in m && c != tx.hash && exists i | 0 <= i < n :: tx.vin[i] in m[c].vin
  }

  function ConflictsAt(m: Pool, tx: Tx, n: nat): set<TxId>
    requires n < |tx.vin|
  {
    set c | c in m && c != tx.hash && tx.vin[n] in m[c].vin
  }

  lemma ConflictsStep(m0: Pool, tx: Tx, n: nat)
    requires n < |tx.vin|
    ensures var m := m0 - Reach(m0, ConflictsUpTo(m0, tx, n));
            m - Reach(m, ConflictsAt(m, tx, n)) == m0 - Reach(m0, ConflictsUpTo(m0, tx, n + 1))
  {
    var m := m0 - Reach(m0, ConflictsUpTo(m0, tx, n));
    assert ConflictsUpTo(m0, tx, n + 1) == ConflictsUpTo(m0, tx, n) + ConflictsAt(m0, tx, n);
    assert ConflictsAt(m, tx, n) == ConflictsAt(m0, tx, n) * m.Keys;
    RemoveMore(m0, ConflictsUpTo(m0, tx, n), ConflictsAt(m0, tx, n));
  }

  lemma ConflictsAll(m: Pool, tx: Tx)
    ensures ConflictsUpTo(m, tx, |tx.vin|) == Conflicts(m, tx)
  {
    forall c | c in m
      ensures SharesInput(m[c], tx) <==> exists i | 0 <= i < |tx.vin| :: tx.vin[i] in m[c].vin
    {
      if SharesInput(m[c], tx) {
        var k :| 0 <= k < |m[c].vin| && m[c].vin[k] in tx.vin;
        var i :| 0 <= i < |tx.vin| && tx.vin[i] == m[c].vin[k];
      }
      if i :| 0 <= i < |tx.vin| && tx.vin[i] in m[c].vin {
        var k :| 0 <= k < |m[c].vin| && m[c].vin[k] == tx.vin[i];
      }
    }
  }

  lemma ReachOfNone(m: Pool)
    ensures m - Reach(m, {}) == m
  {}

  function Ids(s: seq<Tx>): set<TxId> { set tx | tx in s :: tx.hash }

  lemma IdsExtend(s: seq<Tx>, j: nat)
    requires j < |s|
    ensures Ids(s[..j + 1]) == Ids(s[..j]) + {s[j].hash} && s[j] in s
  {
    assert s[..j + 1] == s[..j] + [s[j]];
  }

  lemma FoundIds(m: Pool, v: View, height: int, maturity: int, found: seq<Tx>)
    requires GoodPool(m)
    requires forall tx :: tx in found <==> tx.hash in Immature(m, v, height, maturity) && m[tx.hash] == tx
    ensures Ids(found) == Immature(m, v, height, maturity)
  {
    forall id | id in Immature(m, v, height, maturity) ensures id in Ids(found) { assert m[id] in found; }
  }

  /** The pool transaction c spends one of the first n outputs of tx. */
  predicate SpendsFirst(m: Pool, tx: Tx, n: nat, c: TxId) {
    c in m && exists k | 0 <= k < |m[c].vin| :: m[c].vin[k].hash == tx.hash && m[c].vin[k].n < n
  }

  lemma SpendsNext(m: Pool, x: Index, tx: Tx, n: nat, c: TxId)
    requires Indexed(m, x)
    ensures var o := OutPoint(tx.hash, n);
            SpendsFirst(m, tx, n + 1, c) <==> SpendsFirst(m, tx, n, c) || (o in x && c == x[o].txid)
  {
    var o := OutPoint(tx.hash, n);
    if SpendsFirst(m, tx, n + 1, c) {
      var k :| 0 <= k < |m[c].vin| && m[c].vin[k].hash == tx.hash && m[c].vin[k].n < n + 1;
      assert m[c].vin[k].n == n ==> m[c].vin[k] == o;
    }
    if o in x && c == x[o].txid { assert m[c].vin[x[o].n] == o; }
  }

  lemma SpendsAny(m: Pool, tx: Tx, c: TxId)
    ensures !SpendsFirst(m, tx, 0, c) && (SpendsFirst(m, tx, |tx.vout|, c) <==> c in Children(m, tx))
  {}

  class TxMemPool {
    var mapTx: Pool
    var mapNextTx: Index
    var totalTxSize: int

    ghost predicate Valid()
      reads this
    {
      GoodPool(mapTx) && Indexed(mapTx, mapNextTx) && totalTxSize == TotalSize(mapTx)
    }

    constructor ()
      ensures Valid() && mapTx == map[]
    {
      mapTx, mapNextTx, totalTxSize := map[], map[], 0;
    }

    method IndexInputs(tx: Tx)
      modifies this`mapNextTx
      ensures mapNextTx == WithInputs(old(mapNextTx), tx, |tx.vin|)
    {
      for i := 0 to |tx.vin|
        invariant mapNextTx == WithInputs(old(mapNextTx), tx, i)
      {
        mapNextTx := mapNextTx[tx.vin[i] := InPoint(tx.hash, i)];
      }
    }

    /** Adds without checking: the caller has established that the transaction fits. */
    method AddUnchecked(tx: Tx)
      requires Valid() && CheckTransaction(tx) && !tx.IsCoinBase() && tx.hash !in mapTx
      requires forall id | id in mapTx :: !SharesInput(mapTx[id], tx)
      modifies this`mapTx, this`mapNextTx, this`totalTxSize
      ensures Valid() && mapTx == old(mapTx)[tx.hash := tx]
    {
      hide Indexed, TotalSize, WithInputs, SharesInput;
      IndexedAdd(mapTx, mapNextTx, tx);
      SizeAdd(mapTx, tx);
      mapTx := mapTx[tx.hash := tx];
      IndexInputs(tx);
      totalTxSize := totalTxSize + tx.size;
    }

    /** The pool transactions that spend an output of tx, found through the index. */
    method Spenders(tx: Tx) returns (kids: seq<TxId>)
      requires Valid()
      ensures forall c :: c in kids <==> c in Children(mapTx, tx)
    {
      hide TotalSize, GoodPool, Indexed, SpendsFirst, Children;
      kids := [];
      forall c ensures !SpendsFirst(mapTx, tx, 0, c) { SpendsAny(mapTx, tx, c); }
      for i := 0 to |tx.vout|
        invariant forall c :: c in kids <==> SpendsFirst(mapTx, tx, i, c)
      {
        var o := OutPoint(tx.hash, i);
        ghost var before := kids;
        if o in mapNextTx {
          kids := kids + [mapNextTx[o].txid];
        }
        forall c ensures c in kids <==> SpendsFirst(mapTx, tx, i + 1, c) {
          SpendsNext(mapTx, mapNextTx, tx, i, c);
          assert c in before <==> SpendsFirst(mapTx, tx, i, c);
        }
      }
      forall c ensures c in kids <==> c in Children(mapTx, tx) { SpendsAny(mapTx, tx, c); }
    }

    method UnindexInputs(tx: Tx)
      modifies this`mapNextTx
      ensures mapNextTx == old(mapNextTx) - (set o | o in tx.vin)
    {
      for i := 0 to |tx.vin|
        invariant mapNextTx == old(mapNextTx) - (set o | o in tx.vin[..i])
      {
        assert tx.vin[..i + 1] == tx.vin[..i] + [tx.vin[i]];
        mapNextTx := mapNextTx - {tx.vin[i]};
      }
      assert tx.vin[..|tx.vin|] == tx.vin;
    }

    /** Take one entry out: its inputs leave the index, its size leaves the total. */
    method RemoveEntry(id: TxId)
      requires Valid() && id in mapTx
      modifies this`mapTx, this`mapNextTx, this`totalTxSize
      ensures Valid() && mapTx == old(mapTx) - {id} && |mapTx| < |old(mapTx)|
    {
      assert mapTx.Keys == (mapTx - {id}).Keys + {id};
      IndexedRemove(mapTx, mapNextTx, id);
      SizeRemove(mapTx, id);
      var tx := mapTx[id];
      UnindexInputs(tx);
      totalTxSize := totalTxSize - tx.size;
      mapTx := mapTx - {id};
    }

    /** One round of the removal loop. */
    method RemoveNext(queue: seq<TxId>, recursive: bool, removed: seq<Tx>, ghost m0: Pool, ghost goal: set<TxId>, ghost roots: set<TxId>)
      returns (queue': seq<TxId>, removed': seq<Tx>)
      requires Valid() && queue != [] && Working(m0, goal, roots, mapTx, queue, recursive) && Listed(m0, mapTx, removed)
      requires GoodPool(m0) && (recursive ==> Closed(m0, goal))
      modifies this`mapTx, this`mapNextTx, this`totalTxSize
      ensures Valid() && Working(m0, goal, roots, mapTx, queue', recursive) && Listed(m0, mapTx, removed')
      ensures |mapTx| < |old(mapTx)| || (mapTx == old(mapTx) && |queue'| < |queue|)
    {
      var hash := queue[0];
      if hash !in mapTx {
        WorkSkip(m0, goal, roots, mapTx, queue, recursive);
        return queue[1..], removed;
      }
      var entry := mapTx[hash];
      var kids := [];
      if recursive { kids := Spenders(entry); }
      WorkRemove(m0, goal, roots, mapTx, queue, recursive, kids);
      ListMore(m0, mapTx, removed, hash);
      RemoveEntry(hash);
      queue', removed' := queue[1..] + kids, removed + [entry];
    }

    /** Remove a transaction; recursively, together with everything in the pool that depends on it. */
    method Remove(tx: Tx, recursive: bool) returns (removed: seq<Tx>)
      requires Valid()
      modifies this`mapTx, this`mapNextTx, this`totalTxSize
      ensures Valid()
      ensures mapTx == if recursive then RemoveRecursive(old(mapTx), tx) else old(mapTx) - {tx.hash}
      ensures Listed(old(mapTx), mapTx, removed)
    {
      removed := [];
      ghost var m0 := mapTx;
      ghost var roots := if recursive then Roots(m0, tx) else {tx.hash};
      ghost var goal := if recursive then Reach(m0, roots) else roots;
      if recursive { ReachHasRoots(m0, roots); }

      ReachClosed(m0, roots);
      var txToRemove := [tx.hash];
      if recursive && tx.hash !in mapTx {
        var kids := Spenders(tx);
        txToRemove := txToRemove + kids;
      }
      while txToRemove != []
        invariant Valid() && GoodPool(m0) && Working(m0, goal, roots, mapTx, txToRemove, recursive)
        invariant Listed(m0, mapTx, removed)
        decreases |mapTx|, |txToRemove|
      {
        txToRemove, removed := RemoveNext(txToRemove, recursive, removed, m0, goal, roots);
      }
      WorkDone(m0, goal, roots, mapTx, recursive);
    }

    /** The conflicts over one input: the index names the only other spender there can be. */
    method RemoveConflict(tx: Tx, i: nat)
      requires Valid() && i < |tx.vin|
      modifies this`mapTx, this`mapNextTx, this`totalTxSize
      ensures Valid()
      ensures mapTx == old(mapTx) - Reach(old(mapTx), ConflictsAt(old(mapTx), tx, i))
    {
      ReachOfNone(mapTx);
      var o := tx.vin[i];
      if o in mapNextTx {
        var conflict := mapTx[mapNextTx[o].txid];
        if conflict.hash != tx.hash {
          assert ConflictsAt(mapTx, tx, i) == {conflict.hash};
          var gone := Remove(conflict, true);
        } else {
          assert ConflictsAt(mapTx, tx, i) == {};
        }
      } else {
        assert ConflictsAt(mapTx, tx, i) == {};
      }
    }

    /** Remove, recursively, every pool transaction that double-spends an input of tx. */
    method RemoveConflicting(tx: Tx)
      requires Valid()
      modifies this`mapTx, this`mapNextTx, this`totalTxSize
      ensures Valid() && mapTx == RemoveConflicts(old(mapTx), tx)
    {
      hide Reach, Indexed, GoodPool;
      ghost var m0 := mapTx;
      ReachOfNone(m0);
      assert ConflictsUpTo(m0, tx, 0) == {};
      for i := 0 to |tx.vin|
        invariant Valid() && mapTx == m0 - Reach(m0, ConflictsUpTo(m0, tx, i))
      {
        ConflictsStep(m0, tx, i);
        RemoveConflict(tx, i);
      }
      ConflictsAll(m0, tx);
    }

    /** A block was connected: its transactions leave the pool, and so do their conflicts. */
    method RemoveBlock(vtx: seq<Tx>)
      requires Valid()
      modifies this`mapTx, this`mapNextTx, this`totalTxSize
      ensures Valid() && mapTx == RemoveForBlock(old(mapTx), vtx)
    {
      for i := 0 to |vtx|
        invariant Valid() && RemoveForBlock(mapTx, vtx[i..]) == RemoveForBlock(old(mapTx), vtx)
      {
        assert vtx[i..][0] == vtx[i] && vtx[i..][1..] == vtx[i + 1..];
        var gone := Remove(vtx[i], false);
        RemoveConflicting(vtx[i]);
      }
    }

    /** The pool transactions that now spend an immature coinbase or a missing coin. */
    method FindImmature(v: View, height: int, maturity: int) returns (found: seq<Tx>)
      requires Valid()
      ensures forall tx :: tx in found <==> tx.hash in Immature(mapTx, v, height, maturity) && mapTx[tx.hash] == tx
    {
      found := [];
      var ids := mapTx.Keys;
      while ids != {}
        invariant ids <= mapTx.Keys
        invariant forall tx :: tx in found <==>
                    tx.hash in Immature(mapTx, v, height, maturity) && tx.hash !in ids && mapTx[tx.hash] == tx
        decreases ids
      {
        var id :| id in ids;
        ids := ids - {id};
        if SpendsImmature(mapTx, v, height, maturity, mapTx[id]) {
          found := found + [mapTx[id]];
        }
      }
    }

    /** Remove a list of pooled transactions one by one, each with what depends on it. */
    method RemoveFound(found: seq<Tx>)
      requires Valid() && forall tx | tx in found :: tx.hash in mapTx && mapTx[tx.hash] == tx
      modifies this`mapTx, this`mapNextTx, this`totalTxSize
      ensures Valid() && mapTx == old(mapTx) - Reach(old(mapTx), Ids(found))
    {
      ghost var m0 := mapTx;
      ReachOfNone(m0);
      for j := 0 to |found|
        invariant Valid() && mapTx == m0 - Reach(m0, Ids(found[..j]))
      {
        IdsExtend(found, j);
        RemoveListed(m0, Ids(found[..j]), found[j]);
        var gone := Remove(found[j], true);
      }
      assert found[..|found|] == found;
    }

    method RemoveImmature(v: View, height: int, maturity: int)
      requires Valid()
      modifies this`mapTx, this`mapNextTx, this`totalTxSize
      ensures Valid() && mapTx == RemoveCoinbaseSpends(old(mapTx), v, height, maturity)
    {
      var found := FindImmature(v, height, maturity);
      FoundIds(mapTx, v, height, maturity, found);
      RemoveFound(found);
    }

    /** Some pool transaction spends an input of tx already. */
    method Conflicting(tx: Tx) returns (found: bool)
      requires Valid()
      ensures found <==> exists id | id in mapTx :: SharesInput(mapTx[id], tx)
    {
      hide TotalSize, GoodPool;
      for i := 0 to |tx.vin|
        invariant forall k | 0 <= k < i :: tx.vin[k] !in mapNextTx
      {
        if tx.vin[i] in mapNextTx {
          assert SharesInput(mapTx[mapNextTx[tx.vin[i]].txid], tx);
          return true;
        }
      }
      found := false;
    }

    /** The checks of AcceptToMemoryPool on pool, coins and amounts; everything else it checks is a parameter. */
    method AcceptToMemoryPool(p: Params, v: View, height: int, tx: Tx, externalOk: bool) returns (ok: bool)
      requires Valid()
      modifies this`mapTx, this`mapNextTx, this`totalTxSize
      ensures Valid()
      ensures ok <==> externalOk && Acceptable(p, old(mapTx), v, height, tx)
      ensures mapTx == if ok then old(mapTx)[tx.hash := tx] else old(mapTx)
    {
      hide TotalSize, Indexed, GoodPool, CheckInputs, SharesInput, PoolCoins;
      if !externalOk || !CheckTransaction(tx) || tx.IsCoinBase() || tx.hash in mapTx { return false; }
      var conflict := Conflicting(tx);
      if conflict || tx.hash in v { return false; }
      if exists i | 0 <= i < |tx.vin| :: !MemAvailable(mapTx, v, tx.vin[i]) { return false; }
      var view := new CoinsView(PoolCoins(mapTx, v));
      ok := view.CheckTxInputs(p, tx, height);
      if ok { AddUnchecked(tx); }
    }

    /** A block was disconnected: each of its transactions is taken back in, or removed with
      * everything that depends on it. */
    method ResurrectBlock(p: Params, v: View, height: int, vtx: seq<Tx>, externalOk: seq<bool>)
      requires Valid() && |externalOk| == |vtx|
      modifies this`mapTx, this`mapNextTx, this`totalTxSize
      ensures Valid() && mapTx == Resurrect(p, old(mapTx), v, height, vtx, externalOk)
    {
      for i := 0 to |vtx|
        invariant Valid() && Resurrect(p, mapTx, v, height, vtx[i..], externalOk[i..]) == Resurrect(p, old(mapTx), v, height, vtx, externalOk)
      {
        assert vtx[i..][0] == vtx[i] && vtx[i..][1..] == vtx[i + 1..];
        assert externalOk[i..][0] == externalOk[i] && externalOk[i..][1..] == externalOk[i + 1..];
        var accepted := false;
        if !vtx[i].IsCoinBase() { accepted := AcceptToMemoryPool(p, v, height, vtx[i], externalOk[i]); }
        if !accepted { var gone := Remove(vtx[i], true); }
      }
    }

    /** The self-check against the coins. */
    method Check(p: Params, v: View, height: int, ghost rank: TxId -> nat) returns (ok: bool)
      requires GoodPool(mapTx) && PoolChecks.Ranked(mapTx, rank)
      ensures PoolChecks.Agrees(mapTx, v) ==>
                (ok <==> && Consistent(mapTx, v) && Payable(p, mapTx, v, height)
                         && Indexed(mapTx, mapNextTx) && totalTxSize == TotalSize(mapTx))
    {
      ok := PoolChecks.Check(p, mapTx, mapNextTx, totalTxSize, v, height, rank);
    }
  }
}
