/** Taking blocks back with undo data that has been to the disk. Records lose negative versions there,
  * and coins do too when the database gives them back; nothing else is lost.
  */
module UndoDisk {
  import opened Coins
  import opened Sequences
  import opened UndoRecords

  // ---- Files -----------------------------------------------------------------------------

  /** The undo data of a block on disk, record by record. */
  type UndoFile = seq<seq<Stream>>

  function WriteTx(us: TxUndo): (f: seq<Stream>)
    ensures |f| == |us|
  {
    seq(|us|, i requires 0 <= i < |us| => Serialized(us[i]))
  }

  function WriteUndo(us: seq<TxUndo>): (f: UndoFile)
    ensures |f| == |us|
  {
    seq(|us|, i requires 0 <= i < |us| => WriteTx(us[i]))
  }

  function ReadTx(f: seq<Stream>): Option<TxUndo> {
    if f == [] then Some([])
    else
      match (ReadTx(Init(f)), Unserialized(Last(f)))
      case (Some(us), Some(u)) => Some(us + [u])
      case _ => None
  }

  function ReadUndo(f: UndoFile): Option<seq<TxUndo>> {
    if f == [] then Some([])
    else
      match (ReadUndo(Init(f)), ReadTx(Last(f)))
      case (Some(all), Some(us)) => Some(all + [us])
      case _ => None
  }

  function WornTx(us: TxUndo): (r: TxUndo)
    ensures |r| == |us|
  {
    seq(|us|, i requires 0 <= i < |us| => Worn(us[i]))
  }

  function WornUndo(us: seq<TxUndo>): (r: seq<TxUndo>)
    ensures |r| == |us|
  {
    seq(|us|, i requires 0 <= i < |us| => WornTx(us[i]))
  }

  /** Undo data is written only when there is none on file yet. */
  function WithFile<K>(files: map<K, UndoFile>, key: K, us: seq<TxUndo>): map<K, UndoFile> {
    if key in files then files else files[key := WriteUndo(us)]
  }

  predicate TxWritable(us: TxUndo) { forall i | 0 <= i < |us| :: Writable(us[i]) }

  predicate UndoWritable(us: seq<TxUndo>) { forall i | 0 <= i < |us| :: TxWritable(us[i]) }

  lemma {:induction false} TxReadBack(us: TxUndo)
    requires TxWritable(us)
    ensures ReadTx(WriteTx(us)) == Some(WornTx(us))
  {
    hide Writable, Serialized, Unserialized, Worn;
    if us != [] {
      TxReadBack(Init(us));
      ReadBackWorn(Last(us));
      assert Init(WriteTx(us)) == WriteTx(Init(us));
      assert WornTx(us) == WornTx(Init(us)) + [Worn(Last(us))];
    } else {
      assert WornTx(us) == [];
    }
  }

  /** The undo data of a block comes back worn, and otherwise whole. */
  lemma {:induction false} UndoReadBack(us: seq<TxUndo>)
    requires UndoWritable(us)
    ensures ReadUndo(WriteUndo(us)) == Some(WornUndo(us))
  {
    hide TxWritable, WriteTx, ReadTx, WornTx;
    if us != [] {
      UndoReadBack(Init(us));
      TxReadBack(Last(us));
      assert Init(WriteUndo(us)) == WriteUndo(Init(us));
      assert WornUndo(us) == WornUndo(Init(us)) + [WornTx(Last(us))];
    } else {
      assert WornUndo(us) == [];
    }
  }

  // ---- The undo data of a block can be written -------------------------------------------------

  predicate HeightsBelow(v: View, limit: int) { forall id | id in v :: v[id].height < limit }

  lemma HeightsMono(v: View, low: int, high: int)
    requires HeightsBelow(v, low) && low <= high
    ensures HeightsBelow(v, high)
  {}

  lemma UndoOneWritable(v: View, o: OutPoint)
    requires GoodView(v) && HeightsBelow(v, WORD / 2) && Available(v, o)
    ensures Writable(UndoOne(v, o))
  {}

  lemma {:induction false} UndoAllWritable(v: View, ins: seq<OutPoint>)
    requires GoodView(v) && HeightsBelow(v, WORD / 2) && HaveInputs(v, ins) && Distinct(ins)
    ensures TxWritable(UndoAll(v, ins))
    decreases |ins|
  {
    hide Writable, UndoOne;
    if ins != [] {
      var w := SpendAll(v, Init(ins));
      NextAvailable(v, ins);
      UndoAllWritable(v, Init(ins));
      SpendAllGood(v, Init(ins));
      SpendAllKeeps(v, Init(ins));
      UndoOneWritable(w, Last(ins));
    }
  }

  lemma ApplyHeights(v: View, tx: Tx, height: int, limit: int)
    requires CanApply(v, tx) && HeightsBelow(v, limit) && height < limit
    ensures HeightsBelow(Apply(v, tx, height), limit)
  {
    SpendAllKeeps(v, Ins(tx));
  }

  lemma {:induction false} ApplyAllHeights(v: View, vtx: seq<Tx>, height: int, limit: int)
    requires CanApplyAll(v, vtx, height) && HeightsBelow(v, limit) && height < limit
    ensures HeightsBelow(ApplyAll(v, vtx, height), limit)
    decreases |vtx|
  {
    hide HeightsBelow;
    if vtx != [] {
      ApplyHeights(v, vtx[0], height, limit);
      ApplyAllHeights(Apply(v, vtx[0], height), vtx[1..], height, limit);
    }
  }

  lemma UndoOfWritable(v: View, tx: Tx)
    requires GoodView(v) && HeightsBelow(v, WORD / 2) && CanApply(v, tx)
    ensures TxWritable(UndoOf(v, tx))
  {
    UndoAllWritable(v, Ins(tx));
  }

  lemma {:induction false} BlockWritable(v: View, vtx: seq<Tx>, height: int)
    requires GoodView(v) && HeightsBelow(v, WORD / 2) && CanApplyAll(v, vtx, height) && 1 <= height < WORD / 2
    ensures UndoWritable(UndoOfAll(v, vtx, height))
    decreases |vtx|
  {
    hide HeightsBelow, GoodView, CanApply, Apply, UndoOf, TxWritable;
    if vtx != [] {
      ApplyGood(v, vtx[0], height);
      ApplyHeights(v, vtx[0], height, WORD / 2);
      UndoOfWritable(v, vtx[0]);
      BlockWritable(Apply(v, vtx[0], height), vtx[1..], height);
    }
  }

  // ---- Worn coins ------------------------------------------------------------------------------

  function WornCoin(c: Coin): Coin { c.(version := LowVersion(c.version)) }

  /** The view in which these records have been to the disk. */
  function WornView(v: View, s: set<TxId>): View {
    map id | id in v :: if id in s then WornCoin(v[id]) else v[id]
  }

  /** The second view is the first one but for records that have been to the disk. */
  ghost predicate Aged(v: View, w: View) { exists s: set<TxId> :: w == WornView(v, s) }

  lemma WornTwice(v: View, s: set<TxId>, t: set<TxId>)
    ensures WornView(WornView(v, s), t) == WornView(v, s + t)
  {}

  lemma WornNone(v: View)
    ensures WornView(v, {}) == v
  {}

  lemma WornStore(v: View, s: set<TxId>, id: TxId, c: Coin)
    ensures Store(WornView(v, s), id, c) == WornView(Store(v, id, c), s - {id})
    ensures Store(WornView(v, s), id, WornCoin(c)) == WornView(Store(v, id, c), s + {id})
  {}

  lemma SpendOneWorn(v: View, s: set<TxId>, o: OutPoint)
    requires Available(v, o)
    ensures Available(WornView(v, s), o)
    ensures SpendOne(WornView(v, s), o) == WornView(SpendOne(v, o), s)
    ensures Worn(UndoOne(WornView(v, s), o)) == Worn(UndoOne(v, o))
  {
    hide Store;
    WornStore(v, s, o.hash, Spend(v[o.hash], o.n).0);
    assert if o.hash in s then s + {o.hash} == s else s - {o.hash} == s;
  }

  lemma WornOffers(v: View, s: set<TxId>, o: OutPoint)
    ensures Available(WornView(v, s), o) <==> Available(v, o)
  {}

  lemma {:induction false} SpendAllWorn(v: View, s: set<TxId>, ins: seq<OutPoint>)
    ensures SpendAll(WornView(v, s), ins) == WornView(SpendAll(v, ins), s)
    ensures WornTx(UndoAll(WornView(v, s), ins)) == WornTx(UndoAll(v, ins))
  {
    hide SpendOne, UndoOne, WornView, Available, Worn;
    if ins != [] {
      var w, o := SpendAll(v, Init(ins)), Last(ins);
      SpendAllWorn(v, s, Init(ins));
      WornOffers(w, s, o);
      if Available(w, o) { SpendOneWorn(w, s, o); }
      WornTxStep(UndoAll(v, ins));
      WornTxStep(UndoAll(WornView(v, s), ins));
    }
  }

  lemma WornTxStep(us: TxUndo)
    requires us != []
    ensures WornTx(us) == WornTx(Init(us)) + [Worn(Last(us))]
  {}

  lemma ApplyWorn(v: View, s: set<TxId>, tx: Tx, height: int)
    ensures CanApply(WornView(v, s), tx) <==> CanApply(v, tx)
    ensures CanApply(v, tx) ==>
              && Apply(WornView(v, s), tx, height) == WornView(Apply(v, tx, height), s - {tx.hash})
              && WornTx(UndoOf(WornView(v, s), tx)) == WornTx(UndoOf(v, tx))
              && (NoOverwrite(WornView(v, s), tx) <==> NoOverwrite(v, tx))
  {
    hide SpendAll, UndoAll, Store, FromTx, WornTx;
    SpendAllWorn(v, s, Ins(tx));
    WornStore(SpendAll(v, Ins(tx)), s, tx.hash, FromTx(tx, height));
  }

  /** The records that the block has not written anew. */
  function Untouched(s: set<TxId>, vtx: seq<Tx>): set<TxId>
    decreases |vtx|
  {
    if vtx == [] then s else Untouched(s - {vtx[0].hash}, vtx[1..])
  }

  lemma {:induction false} ApplyAllWorn(v: View, s: set<TxId>, vtx: seq<Tx>, height: int)
    ensures CanApplyAll(WornView(v, s), vtx, height) <==> CanApplyAll(v, vtx, height)
    ensures CanApplyAll(v, vtx, height) ==>
              && ApplyAll(WornView(v, s), vtx, height) == WornView(ApplyAll(v, vtx, height), Untouched(s, vtx))
              && WornUndo(UndoOfAll(WornView(v, s), vtx, height)) == WornUndo(UndoOfAll(v, vtx, height))
              && (NoOverwrites(WornView(v, s), vtx, height) <==> NoOverwrites(v, vtx, height))
    decreases |vtx|
  {
    hide CanApply, Apply, UndoOf, NoOverwrite, WornView, WornTx;
    if vtx != [] {
      ApplyWorn(v, s, vtx[0], height);
      if CanApply(v, vtx[0]) {
        ApplyAllWorn(Apply(v, vtx[0], height), s - {vtx[0].hash}, vtx[1..], height);
        if CanApplyAll(v, vtx, height) {
          WornUndoStep(UndoOfAll(v, vtx, height));
          WornUndoStep(UndoOfAll(WornView(v, s), vtx, height));
        }
      }
    }
  }

  lemma WornUndoStep(us: seq<TxUndo>)
    requires us != []
    ensures WornUndo(us) == [WornTx(us[0])] + WornUndo(us[1..])
  {}

  // ---- Rolling back with worn data -------------------------------------------------------------

  function WornRollback(r: Rollback, s: set<TxId>): Rollback { r.(view := WornView(r.view, s)) }

  /** The record a worn undo entry writes is worn, when the entry carries the metadata. */
  function RestoredOne(s: set<TxId>, o: OutPoint, u: TxInUndo): set<TxId> {
    if u.height != 0 then s + {o.hash} else s
  }

  lemma RestoreOneWorn(r: Rollback, s: set<TxId>, o: OutPoint, u: TxInUndo)
    ensures RestoreOne(WornRollback(r, s), o, Worn(u)) == WornRollback(RestoreOne(r, o, u), RestoredOne(s, o, u))
  {
    hide Store;
    var c := Lookup(r.view, o.hash);
    WornStore(r.view, s, o.hash, RestoredCoin(c, o.n, u));
    assert o.hash in s ==> s + {o.hash} == s;
    assert o.hash !in s ==> s - {o.hash} == s;
  }

  function RestoredAll(s: set<TxId>, ins: seq<OutPoint>, us: TxUndo): set<TxId>
    requires |us| == |ins|
    decreases |ins|
  {
    if ins == [] then s else RestoredAll(RestoredOne(s, Last(ins), Last(us)), Init(ins), Init(us))
  }

  lemma {:induction false} RestoreAllWorn(r: Rollback, s: set<TxId>, ins: seq<OutPoint>, us: TxUndo)
    requires |us| == |ins|
    ensures RestoreAll(WornRollback(r, s), ins, WornTx(us)) == WornRollback(RestoreAll(r, ins, us), RestoredAll(s, ins, us))
    decreases |ins|
  {
    hide RestoreOne, RestoredOne, WornRollback, Worn;
    if ins != [] {
      RestoreOneWorn(r, s, Last(ins), Last(us));
      RestoreAllWorn(RestoreOne(r, Last(ins), Last(us)), RestoredOne(s, Last(ins), Last(us)), Init(ins), Init(us));
      assert Init(WornTx(us)) == WornTx(Init(us));
    }
  }

  /** Outputs that match go on matching: a negative version is put right before the comparison. */
  lemma MatchesWorn(v: View, s: set<TxId>, tx: Tx, height: int)
    requires OutputsMatch(v, tx, height)
    ensures OutputsMatch(WornView(v, s), tx, height)
  {
    var c := Lookup(v, tx.hash);
    assert Lookup(WornView(v, s), tx.hash) in {c, WornCoin(c)};
    assert ClearUnspendable(WornCoin(c)) == WornCoin(ClearUnspendable(c));
  }

  lemma UnapplyWorn(r: Rollback, s: set<TxId>, tx: Tx, height: int, ins: seq<OutPoint>, us: TxUndo)
    requires |us| == |ins| && Unapply(r, tx, height, ins, us).clean
    ensures Unapply(WornRollback(r, s), tx, height, ins, WornTx(us)) ==
            WornRollback(Unapply(r, tx, height, ins, us), RestoredAll(s - {tx.hash}, ins, us))
  {
    hide OutputsMatch, WornTx, RestoreAll, RestoredAll;
    var start := Rollback(r.view - {tx.hash}, r.clean && OutputsMatch(r.view, tx, height));
    if !start.clean { RestoreAllStaysUnclean(start, ins, us); }
    MatchesWorn(r.view, s, tx, height);
    RestoreAllWorn(start, s - {tx.hash}, ins, us);
    assert WornView(r.view, s) - {tx.hash} == WornView(start.view, s - {tx.hash});
  }

  /** The worn records after a whole roll-back. */
  function WornBlock(s: set<TxId>, vtx: seq<Tx>, us: seq<TxUndo>): set<TxId>
    requires Matching(vtx, us)
    decreases |vtx|
  {
    if vtx == [] then s else RestoredAll(WornBlock(s, vtx[1..], us[1..]) - {vtx[0].hash}, Ins(vtx[0]), us[0])
  }

  /** A roll-back that is clean goes the same way with worn coins and worn data. */
  lemma {:induction false} UnapplyAllWorn(r: Rollback, s: set<TxId>, vtx: seq<Tx>, us: seq<TxUndo>, height: int, leading: bool)
    requires Slots(vtx, leading) && Matching(vtx, us)
    requires UnapplyAll(r, vtx, us, height, leading).Undone? && UnapplyAll(r, vtx, us, height, leading).rollback.clean
    ensures UnapplyAll(WornRollback(r, s), vtx, WornUndo(us), height, leading) ==
            Undone(WornRollback(UnapplyAll(r, vtx, us, height, leading).rollback, WornBlock(s, vtx, us)))
    decreases |vtx|
  {
    hide Unapply, RestoredAll, WornRollback, WornTx;
    if vtx != [] {
      var rest := UnapplyAll(r, vtx[1..], us[1..], height, false);
      if !rest.rollback.clean { UncleanStays(rest.rollback, vtx[0], height, us[0]); }
      UnapplyAllWorn(r, s, vtx[1..], us[1..], height, false);
      UnapplyWorn(rest.rollback, WornBlock(s, vtx[1..], us[1..]), vtx[0], height, Ins(vtx[0]), us[0]);
      WornUndoStep(us);
    }
  }

  lemma UncleanStays(r: Rollback, tx: Tx, height: int, us: TxUndo)
    requires |us| == |Ins(tx)| && !r.clean
    ensures !Unapply(r, tx, height, Ins(tx), us).clean
  {
    RestoreAllStaysUnclean(Rollback(r.view - {tx.hash}, false), Ins(tx), us);
  }

  // ---- Which coins are restored from the disk ----------------------------------------------------

  predicate SpentIn(vtx: seq<Tx>, o: OutPoint) { exists j | 0 <= j < |vtx| :: o in Ins(vtx[j]) }

  /** The block spends all that is left of the record. */
  predicate SpentUp(v: View, vtx: seq<Tx>, id: TxId)
    requires id in v
  {
    forall n: nat | n < |v[id].vout| && v[id].IsAvailable(n) :: SpentIn(vtx, OutPoint(id, n))
  }

  function Emptied(v: View, vtx: seq<Tx>): set<TxId> { set id | id in v && SpentUp(v, vtx, id) }

  /** Undo entries with metadata are those of the records that spending emptied. */
  lemma {:induction false} RestoredIs(v: View, s: set<TxId>, ins: seq<OutPoint>, id: TxId)
    requires GoodView(v) && HaveInputs(v, ins) && Distinct(ins) && id in v
    ensures id in RestoredAll(s, ins, UndoAll(v, ins)) <==> id in s || id !in SpendAll(v, ins)
    decreases |ins|
  {
    hide UndoOne, SpendOne;
    if ins != [] {
      var w, o := SpendAll(v, Init(ins)), Last(ins);
      NextAvailable(v, ins);
      SpendAllGood(v, Init(ins));
      SpendOneIs(w, o);
      RestoredIs(v, RestoredOne(s, o, UndoOne(w, o)), Init(ins), id);
      assert Init(UndoAll(v, ins)) == UndoAll(v, Init(ins));
    }
  }

  /** A record is gone after some spends exactly when each of its outputs is among them. */
  lemma GoneIffSpent(v: View, ins: seq<OutPoint>, id: TxId)
    requires GoodView(v) && HaveInputs(v, ins) && Distinct(ins) && id in v
    ensures id !in SpendAll(v, ins) <==> forall n: nat | n < |v[id].vout| && v[id].IsAvailable(n) :: OutPoint(id, n) in ins
  {
    var w := SpendAll(v, ins);
    SpendAllGood(v, ins);
    forall n: nat ensures Available(w, OutPoint(id, n)) <==> v[id].IsAvailable(n) && OutPoint(id, n) !in ins {
      AvailableAfterSpendAll(v, ins, OutPoint(id, n));
    }
    if id in w { assert Available(w, OutPoint(id, |w[id].vout| - 1)); }
  }

  lemma SpentInStep(vtx: seq<Tx>, o: OutPoint)
    requires vtx != []
    ensures SpentIn(vtx, o) <==> o in Ins(vtx[0]) || SpentIn(vtx[1..], o)
  {
    forall j | 1 <= j < |vtx| ensures vtx[j] == vtx[1..][j - 1] {}
    if SpentIn(vtx[1..], o) {
      var j :| 0 <= j < |vtx[1..]| && o in Ins(vtx[1..][j]);
      assert o in Ins(vtx[j + 1]);
    }
  }

  /** A record the block spends up is gone after its first transaction, or spent up by the others. */
  lemma SpentUpStep(v: View, vtx: seq<Tx>, height: int, id: TxId)
    requires GoodView(v) && vtx != [] && CanApply(v, vtx[0]) && NoOverwrite(v, vtx[0]) && id in v
    ensures var w, next := SpendAll(v, Ins(vtx[0])), Apply(v, vtx[0], height);
            && (id in w ==> id in next && id != vtx[0].hash)
            && (SpentUp(v, vtx, id) <==> id !in w || SpentUp(next, vtx[1..], id))
  {
    var tx := vtx[0];
    var w, next := SpendAll(v, Ins(tx)), Apply(v, tx, height);
    GoneIffSpent(v, Ins(tx), id);
    forall n: nat ensures SpentIn(vtx, OutPoint(id, n)) <==> OutPoint(id, n) in Ins(tx) || SpentIn(vtx[1..], OutPoint(id, n)) {
      SpentInStep(vtx, OutPoint(id, n));
    }
    if id in w {
      forall n: nat ensures next[id].IsAvailable(n) <==> v[id].IsAvailable(n) && OutPoint(id, n) !in Ins(tx) {
        AvailableAfterSpendAll(v, Ins(tx), OutPoint(id, n));
        assert Available(w, OutPoint(id, n)) == w[id].IsAvailable(n) == next[id].IsAvailable(n);
      }
    }
  }

  lemma {:induction false} WornBlockIs(v: View, s: set<TxId>, vtx: seq<Tx>, height: int, id: TxId)
    requires GoodView(v) && CanApplyAll(v, vtx, height) && height >= 1 && NoOverwrites(v, vtx, height) && id in v
    ensures Matching(vtx, UndoOfAll(v, vtx, height))
    ensures id in WornBlock(s, vtx, UndoOfAll(v, vtx, height)) <==> id in s || SpentUp(v, vtx, id)
    decreases |vtx|
  {
    hide SpendAll, Apply, CanApply, UndoOf, GoodView, SpentUp;
    UndoMatches(v, vtx, height);
    if vtx != [] {
      var tx := vtx[0];
      var w, next := SpendAll(v, Ins(tx)), Apply(v, tx, height);
      ApplyGood(v, tx, height);
      SpentUpStep(v, vtx, height, id);
      RestStep(v, vtx, height);
      RestoredHere(v, tx, WornBlock(s, vtx[1..], UndoOfAll(next, vtx[1..], height)) - {tx.hash}, id);
      if id in w { WornBlockIs(next, s, vtx[1..], height, id); }
    } else {
      NotSpentUp(v, id);
    }
  }

  lemma RestStep(v: View, vtx: seq<Tx>, height: int)
    requires vtx != [] && CanApplyAll(v, vtx, height)
    ensures UndoOfAll(v, vtx, height)[0] == UndoOf(v, vtx[0])
    ensures UndoOfAll(v, vtx, height)[1..] == UndoOfAll(Apply(v, vtx[0], height), vtx[1..], height)
  {}

  lemma RestoredHere(v: View, tx: Tx, s: set<TxId>, id: TxId)
    requires GoodView(v) && CanApply(v, tx) && id in v
    ensures id in RestoredAll(s, Ins(tx), UndoOf(v, tx)) <==> id in s || id !in SpendAll(v, Ins(tx))
  {
    RestoredIs(v, s, Ins(tx), id);
  }

  lemma NotSpentUp(v: View, id: TxId)
    requires GoodView(v) && id in v
    ensures !SpentUp(v, [], id)
  {
    assert v[id].IsAvailable(|v[id].vout| - 1);
  }

  // ---- Blocks --------------------------------------------------------------------------------

  /** The undo data of a block as the disk gives it back. */
  function FromDisk(v: View, vtx: seq<Tx>, height: int): seq<TxUndo>
    requires vtx != [] && CanApplyAll(v, vtx, height)
  {
    WornUndo(BlockUndoOf(v, vtx, height))
  }

  lemma FileReadBack(v: View, vtx: seq<Tx>, height: int)
    requires GoodView(v) && HeightsBelow(v, WORD / 2) && vtx != [] && CanApplyAll(v, vtx, height) && 1 <= height < WORD / 2
    ensures ReadUndo(WriteUndo(BlockUndoOf(v, vtx, height))) == Some(FromDisk(v, vtx, height))
  {
    BlockWritable(v, vtx, height);
    UndoReadBack(BlockUndoOf(v, vtx, height));
  }

  lemma SameFromDisk(v: View, s: set<TxId>, vtx: seq<Tx>, height: int)
    requires vtx != [] && CanApplyAll(v, vtx, height)
    ensures CanApplyAll(WornView(v, s), vtx, height) && FromDisk(WornView(v, s), vtx, height) == FromDisk(v, vtx, height)
  {
    hide CanApplyAll, UndoOfAll, WornView, WornTx;
    ApplyAllWorn(v, s, vtx, height);
    var us, ws := UndoOfAll(v, vtx, height), UndoOfAll(WornView(v, s), vtx, height);
    WornUndoStep(us);
    WornUndoStep(ws);
    assert WornUndo(us)[1..] == WornUndo(us[1..]) && WornUndo(ws)[1..] == WornUndo(ws[1..]);
  }

  lemma FromDiskIs(v: View, vtx: seq<Tx>, height: int)
    requires vtx != [] && vtx[0].IsCoinBase() && CanApplyAll(v, vtx, height)
    ensures WornUndo(UndoOfAll(v, vtx, height)) == [[]] + FromDisk(v, vtx, height)
  {
    WornUndoStep(UndoOfAll(v, vtx, height));
    assert WornTx([]) == [];
  }

  /** Worn coins, rolled back with worn data: the earlier coins, of which those are worn that were worn
    * after the block and those that the block had spent up. The result is clean. */
  lemma DisconnectWorn(v: View, s: set<TxId>, vtx: seq<Tx>, height: int)
    requires GoodView(v) && CheckBlock(vtx) && CanApplyAll(v, vtx, height) && height >= 1 && NoOverwrites(v, vtx, height)
    ensures Disconnect(WornView(ApplyAll(v, vtx, height), s), vtx, FromDisk(v, vtx, height), height)
            == Undone(Rollback(WornView(v, s + Emptied(v, vtx)), true))
  {
    hide UnapplyAll, ApplyAll, GoodView, WornView, WornBlock, SpentUp;
    var us := UndoOfAll(v, vtx, height);
    UndoMatches(v, vtx, height);
    ApplyAllThenUnapplyAll(v, vtx, height, true);
    UnapplyAllWorn(Rollback(ApplyAll(v, vtx, height), true), s, vtx, us, height, true);
    FromDiskIs(v, vtx, height);
    forall id | id in v ensures id in WornBlock(s, vtx, us) <==> id in s + Emptied(v, vtx) {
      WornBlockIs(v, s, vtx, height, id);
    }
    SameWorn(v, WornBlock(s, vtx, us), s + Emptied(v, vtx));
  }

  lemma SameWorn(v: View, s: set<TxId>, t: set<TxId>)
    requires forall id | id in v :: id in s <==> id in t
    ensures WornView(v, s) == WornView(v, t)
  {}

  lemma OverwriteNotRestored(v: View, vtx: seq<Tx>, height: int)
    requires GoodView(v) && CheckBlock(vtx) && CanApplyAll(v, vtx, height) && height >= 1 && !NoOverwrites(v, vtx, height)
    ensures Disconnect(ApplyAll(v, vtx, height), vtx, FromDisk(v, vtx, height), height) != Undone(Rollback(v, true))
  {
    hide ApplyAll, UnapplyAll, GoodView, CanApplyAll, NoOverwrites, UndoOfAll;
    FromDiskIs(v, vtx, height);
    UndoMatches(v, vtx, height);
    OverwritesLoseOutput(v, vtx, WornUndo(UndoOfAll(v, vtx, height)), height, true);
  }

  /** The block spends up no coin of a transaction with a negative version. */
  predicate SparesNegative(v: View, vtx: seq<Tx>) { forall id | id in v && v[id].version < 0 :: !SpentUp(v, vtx, id) }

  /** A block, disconnected with its undo data as it comes back from the disk, restores the exact
    * earlier coins and is reported clean if and only if no transaction of the block overwrote a live
    * txid and the block spent up no coin of a transaction with a negative version. */
  lemma DiskRoundTripIff(v: View, vtx: seq<Tx>, height: int)
    requires GoodView(v) && HeightsBelow(v, WORD / 2) && 1 <= height < WORD / 2
    requires CheckBlock(vtx) && CanApplyAll(v, vtx, height)
    ensures var back := ReadUndo(WriteUndo(BlockUndoOf(v, vtx, height)));
            && back.Some?
            && (Disconnect(ApplyAll(v, vtx, height), vtx, back.value, height) == Undone(Rollback(v, true))
                <==> NoOverwrites(v, vtx, height) && SparesNegative(v, vtx))
  {
    hide ApplyAll, Disconnect, GoodView, SpentUp, HeightsBelow, CanApplyAll, NoOverwrites, FromDisk, WornView,
         ReadUndo, WriteUndo;
    FileReadBack(v, vtx, height);
    if NoOverwrites(v, vtx, height) {
      DisconnectWorn(v, {}, vtx, height);
      WornNone(ApplyAll(v, vtx, height));
      UnchangedIff(v, {} + Emptied(v, vtx));
    } else {
      OverwriteNotRestored(v, vtx, height);
    }
  }

  lemma UnchangedIff(v: View, s: set<TxId>)
    ensures WornView(v, s) == v <==> forall id | id in v && id in s :: v[id].version >= 0
  {
    if WornView(v, s) == v {
      forall id | id in v && id in s ensures v[id].version >= 0 { assert WornView(v, s)[id] == v[id]; }
    }
  }

  /** Versions do get lost: the block spends the only output of a transaction of version -1, and taking
    * it back does not restore the coins. */
  lemma NegativeVersionIsLost()
    ensures var coinbase := Tx(1, 1, [OutPoint(NULL_HASH, NULL_INDEX)], [TxOut(5, Code(0, false))], 100);
            var spender := Tx(3, 1, [OutPoint(2, 0)], [TxOut(5, Code(0, false))], 100);
            var v: View, vtx := map[2 := Coin(false, [TxOut(5, Code(0, false))], 1, -1)], [coinbase, spender];
            && GoodView(v) && CheckBlock(vtx) && CanApplyAll(v, vtx, 2)
            && var back := ReadUndo(WriteUndo(BlockUndoOf(v, vtx, 2)));
               back.Some? && Disconnect(ApplyAll(v, vtx, 2), vtx, back.value, 2) != Undone(Rollback(v, true))
  {
    hide FromTx, Store, SpendAll, Disconnect, ReadUndo, WriteUndo, ApplyAll, UndoOfAll;
    var coinbase := Tx(1, 1, [OutPoint(NULL_HASH, NULL_INDEX)], [TxOut(5, Code(0, false))], 100);
    var spender := Tx(3, 1, [OutPoint(2, 0)], [TxOut(5, Code(0, false))], 100);
    var v: View, vtx := map[2 := Coin(false, [TxOut(5, Code(0, false))], 1, -1)], [coinbase, spender];
    AvailableAfterApply(v, coinbase, 2, OutPoint(2, 0));
    assert vtx[1..] == [spender] && vtx[1..][1..] == [];
    assert CanApplyAll(Apply(v, coinbase, 2), vtx[1..], 2);
    assert OutPoint(2, 0) in Ins(vtx[1]);
    assert SpentUp(v, vtx, 2);
    DiskRoundTripIff(v, vtx, 2);
  }
}
