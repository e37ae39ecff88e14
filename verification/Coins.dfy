/** Transactions, unspent coin records, and the undo data that lets a block be taken back.
  *
  * A view is the flat set of unspent records. A record whose outputs are all spent counts as
  * absent, which is what the modifier's clean-up and the pruning of the database come to.
  */
module Coins {

  import opened Sequences

  type TxId = nat

  /** Transaction versions are 32 bits wide, with a sign. */
  type Int32 = x: int | -0x8000_0000 <= x < 0x8000_0000

  const NULL_HASH: TxId := 0
  const NULL_INDEX: nat := 0xFFFF_FFFF

  datatype OutPoint = OutPoint(hash: TxId, n: nat) {
    predicate IsNull() { hash == NULL_HASH && n == NULL_INDEX }
  }

  /** A script, of which only its identity and the outcome of IsUnspendable matter here. */
  datatype Script = Empty | Code(id: nat, unspendable: bool) {
    predicate IsUnspendable() { Code? && unspendable }
  }

  datatype TxOut = TxOut(value: int, script: Script) {
    predicate IsNull() { value == -1 }
  }

  const NULL_OUT := TxOut(-1, Empty)

  /** A transaction with its cached hash and its serialized size. */
  datatype Tx = Tx(hash: TxId, version: Int32, vin: seq<OutPoint>, vout: seq<TxOut>, size: nat) {
    predicate IsCoinBase() { |vin| == 1 && vin[0].IsNull() }
  }

  /** The unspent part of a transaction (CCoins). */
  datatype Coin = Coin(coinbase: bool, vout: seq<TxOut>, height: int, version: Int32) {
    predicate IsAvailable(n: nat) { n < |vout| && !vout[n].IsNull() }
    predicate IsPruned() { forall i | 0 <= i < |vout| :: vout[i].IsNull() }
  }

  const CLEAR := Coin(false, [], 0, 0)

  /** Undo record of one input: metadata is present only when the last output was spent. */
  datatype TxInUndo = TxInUndo(txout: TxOut, coinbase: bool, height: int, version: Int32)

  type View = map<TxId, Coin>
  type TxUndo = seq<TxInUndo>

  // ---- Records ---------------------------------------------------------------------------

  /** Drop the spent outputs at the end (CCoins::Cleanup). */
  function Trim(vout: seq<TxOut>): (r: seq<TxOut>)
    ensures r <= vout
    ensures forall i | |r| <= i < |vout| :: vout[i].IsNull()
    ensures r == [] || !r[|r| - 1].IsNull()
  {
    if |vout| > 0 && vout[|vout| - 1].IsNull() then Trim(vout[..|vout| - 1]) else vout
  }

  function Spendable(vout: seq<TxOut>): seq<TxOut> {
    seq(|vout|, i requires 0 <= i < |vout| => if vout[i].script.IsUnspendable() then NULL_OUT else vout[i])
  }

  function ClearUnspendable(c: Coin): Coin { c.(vout := Trim(Spendable(c.vout))) }

  function FromTx(tx: Tx, height: int): Coin {
    ClearUnspendable(Coin(tx.IsCoinBase(), tx.vout, height, tx.version))
  }

  /** operator==: all pruned records are equal. */
  predicate SameCoin(a: Coin, b: Coin) { (a.IsPruned() && b.IsPruned()) || a == b }

  function Spend(c: Coin, n: nat): (r: (Coin, TxInUndo))
    requires c.IsAvailable(n)
  {
    var after := c.(vout := Trim(c.vout[n := NULL_OUT]));
    (after,
     if after.vout == [] then TxInUndo(c.vout[n], c.coinbase, c.height, c.version)
     else TxInUndo(c.vout[n], false, 0, 0))
  }

  function Padded(vout: seq<TxOut>, size: nat): (r: seq<TxOut>)
    ensures |r| == if |vout| < size then size else |vout|
    ensures vout <= r
    ensures forall i | |vout| <= i < |r| :: r[i] == NULL_OUT
  {
    if |vout| < size then vout + seq(size - |vout|, i => NULL_OUT) else vout
  }

  // ---- Views -----------------------------------------------------------------------------

  function Lookup(v: View, id: TxId): Coin { if id in v then v[id] else CLEAR }

  /** End of a modification: trim the record, and forget it once nothing is left unspent. */
  function Store(v: View, id: TxId, c: Coin): View {
    var vout := Trim(c.vout);
    if vout == [] then v - {id} else v[id := c.(vout := vout)]
  }

  predicate Available(v: View, o: OutPoint) { o.hash in v && v[o.hash].IsAvailable(o.n) }

  predicate HaveInputs(v: View, ins: seq<OutPoint>) { forall i | 0 <= i < |ins| :: Available(v, ins[i]) }

  /** What every stored record satisfies: trimmed, spent slots blank, and at height 1 or more. */
  predicate GoodCoin(c: Coin) {
    && c.vout != [] && !c.vout[|c.vout| - 1].IsNull()
    && (forall i | 0 <= i < |c.vout| && c.vout[i].IsNull() :: c.vout[i] == NULL_OUT)
    && c.height >= 1
  }

  predicate GoodView(v: View) { forall id | id in v :: GoodCoin(v[id]) }

  // ---- Spending and restoring one input --------------------------------------------------

  function SpendOne(v: View, o: OutPoint): View
    requires Available(v, o)
  {
    Store(v, o.hash, Spend(v[o.hash], o.n).0)
  }

  function UndoOne(v: View, o: OutPoint): TxInUndo
    requires Available(v, o)
  {
    Spend(v[o.hash], o.n).1
  }

  /** A view being rolled back, and whether every consistency check has passed so far. */
  datatype Rollback = Rollback(view: View, clean: bool)

  /** The record an undo entry is written into: a fresh one when the entry carries metadata. */
  function RestoreBase(c: Coin, u: TxInUndo): Coin {
    if u.height != 0 then Coin(u.coinbase, [], u.height, u.version) else c
  }

  function RestoredCoin(c: Coin, n: nat, u: TxInUndo): Coin {
    var base := RestoreBase(c, u);
    base.(vout := Padded(base.vout, n + 1)[n := u.txout])
  }

  predicate RestoreIsClean(c: Coin, n: nat, u: TxInUndo) {
    (if u.height != 0 then c.IsPruned() else !c.IsPruned()) && !RestoreBase(c, u).IsAvailable(n)
  }

  function RestoreOne(r: Rollback, o: OutPoint, u: TxInUndo): Rollback {
    var c := Lookup(r.view, o.hash);
    Rollback(Store(r.view, o.hash, RestoredCoin(c, o.n, u)), r.clean && RestoreIsClean(c, o.n, u))
  }

  lemma TrimKeeps(vout: seq<TxOut>)
    requires vout == [] || !vout[|vout| - 1].IsNull()
    ensures Trim(vout) == vout
  {}

  /** What is left of a record's outputs once output n is spent. */
  function Left(c: Coin, n: nat): seq<TxOut>
    requires c.IsAvailable(n)
  {
    Trim(c.vout[n := NULL_OUT])
  }

  lemma SpendOneIs(v: View, o: OutPoint)
    requires Available(v, o)
    ensures var c := v[o.hash]; var left := Left(c, o.n);
            && SpendOne(v, o) == (if left == [] then v - {o.hash} else v[o.hash := c.(vout := left)])
            && UndoOne(v, o) == (if left == [] then TxInUndo(c.vout[o.n], c.coinbase, c.height, c.version)
                                 else TxInUndo(c.vout[o.n], false, 0, 0))
  {
    TrimKeeps(Left(v[o.hash], o.n));
  }

  lemma SpendOneGood(v: View, o: OutPoint)
    requires GoodView(v) && Available(v, o)
    ensures GoodView(SpendOne(v, o))
  {
    SpendOneIs(v, o);
  }

  lemma RefillLeft(c: Coin, n: nat)
    requires GoodCoin(c) && c.IsAvailable(n)
    ensures Padded(Left(c, n), n + 1)[n := c.vout[n]] == c.vout
    ensures n < |Left(c, n)| ==> Left(c, n)[n] == NULL_OUT
  {
    var back := Padded(Left(c, n), n + 1)[n := c.vout[n]];
    var spent := c.vout[n := NULL_OUT];
    assert |back| == |c.vout| by {
      var last := |c.vout| - 1;
      assert n != last ==> !spent[last].IsNull();
    }
    forall i | 0 <= i < |c.vout| ensures back[i] == c.vout[i] {
      assert i != n ==> spent[i] == c.vout[i];
    }
  }

  lemma SpendThenRestoreCoin(c: Coin, n: nat)
    requires GoodCoin(c) && c.IsAvailable(n)
    ensures var (after, u) := Spend(c, n);
            var left := if after.vout == [] then CLEAR else after;
            RestoredCoin(left, n, u) == c && RestoreIsClean(left, n, u)
  {
    RefillLeft(c, n);
    if Left(c, n) != [] {
      var last := |Left(c, n)| - 1;
      assert !Left(c, n)[last].IsNull();
    }
  }

  /** Putting a spent output back gives the exact earlier view, and no check complains. */
  lemma SpendThenRestore(v: View, o: OutPoint, clean: bool)
    requires GoodView(v) && Available(v, o)
    ensures RestoreOne(Rollback(SpendOne(v, o), clean), o, UndoOne(v, o)) == Rollback(v, clean)
  {
    var c, after := v[o.hash], SpendOne(v, o);
    SpendOneIs(v, o);
    SpendThenRestoreCoin(c, o.n);
    TrimKeeps(c.vout);
    assert Lookup(after, o.hash) == if Left(c, o.n) == [] then CLEAR else c.(vout := Left(c, o.n));
    assert Store(after, o.hash, c) == after[o.hash := c] == v;
  }

  lemma AvailableAfterSpend(v: View, o: OutPoint, p: OutPoint)
    requires Available(v, o)
    ensures Available(SpendOne(v, o), p) <==> Available(v, p) && p != o
  {
    var c := v[o.hash];
    var spent := c.vout[o.n := NULL_OUT];
    SpendOneIs(v, o);
    if p.hash == o.hash && p.n < |c.vout| {
      assert p.n != o.n ==> spent[p.n] == c.vout[p.n];
    }
  }

  lemma AvailableAfterRestore(r: Rollback, o: OutPoint, u: TxInUndo, p: OutPoint)
    requires Available(RestoreOne(r, o, u).view, p)
    ensures p == o || Available(r.view, p)
  {}

  // ---- A whole transaction ---------------------------------------------------------------

  /** The structural part of CheckTransaction that the coin state relies on. */
  predicate CheckTransaction(tx: Tx) {
    && tx.vin != []
    && (forall i | 0 <= i < |tx.vout| :: tx.vout[i].value >= 0)
    && Distinct(tx.vin)
    && (tx.IsCoinBase() || forall i | 0 <= i < |tx.vin| :: !tx.vin[i].IsNull())
  }

  /** Spend inputs one after the other; an attempt on a missing output changes nothing. */
  function SpendAll(v: View, ins: seq<OutPoint>): View {
    if ins == [] then v
    else
      var w := SpendAll(v, Init(ins));
      if Available(w, Last(ins)) then SpendOne(w, Last(ins)) else w
  }

  function UndoAll(v: View, ins: seq<OutPoint>): (us: TxUndo)
    ensures |us| == |ins|
  {
    if ins == [] then []
    else
      var w := SpendAll(v, Init(ins));
      UndoAll(v, Init(ins)) + [if Available(w, Last(ins)) then UndoOne(w, Last(ins)) else TxInUndo(NULL_OUT, false, 0, 0)]
  }

  lemma {:induction false} AvailableAfterSpendAll(v: View, ins: seq<OutPoint>, p: OutPoint)
    ensures Available(SpendAll(v, ins), p) <==> Available(v, p) && p !in ins
  {
    if ins != [] {
      var w := SpendAll(v, Init(ins));
      AvailableAfterSpendAll(v, Init(ins), p);
      if Available(w, Last(ins)) { AvailableAfterSpend(w, Last(ins), p); }
      assert ins == Init(ins) + [Last(ins)];
    }
  }

  /** Spending changes nothing but the outputs of a record. */
  lemma {:induction false} SpendAllKeeps(v: View, ins: seq<OutPoint>)
    ensures forall id | id in SpendAll(v, ins) ::
              id in v && SpendAll(v, ins)[id].height == v[id].height && SpendAll(v, ins)[id].coinbase == v[id].coinbase
  {
    if ins != [] { SpendAllKeeps(v, Init(ins)); }
  }

  /** When all inputs are there and differ, each one is there when its turn comes. */
  lemma NextAvailable(v: View, ins: seq<OutPoint>)
    requires HaveInputs(v, ins) && Distinct(ins) && ins != []
    ensures Available(SpendAll(v, Init(ins)), Last(ins))
  {
    AvailableAfterSpendAll(v, Init(ins), Last(ins));
    assert Available(v, ins[|ins| - 1]);
  }

  /** Undo entries are replayed from the last input to the first. */
  function RestoreAll(r: Rollback, ins: seq<OutPoint>, us: TxUndo): Rollback
    requires |us| == |ins|
    decreases |ins|
  {
    if ins == [] then r else RestoreAll(RestoreOne(r, Last(ins), Last(us)), Init(ins), Init(us))
  }

  lemma {:induction false} SpendAllGood(v: View, ins: seq<OutPoint>)
    requires GoodView(v) && HaveInputs(v, ins) && Distinct(ins)
    ensures GoodView(SpendAll(v, ins))
    decreases |ins|
  {
    if ins != [] {
      NextAvailable(v, ins);
      SpendAllGood(v, Init(ins));
      SpendOneGood(SpendAll(v, Init(ins)), Last(ins));
    }
  }

  lemma {:induction false} SpendAllThenRestore(v: View, ins: seq<OutPoint>, clean: bool)
    requires GoodView(v) && HaveInputs(v, ins) && Distinct(ins)
    ensures RestoreAll(Rollback(SpendAll(v, ins), clean), ins, UndoAll(v, ins)) == Rollback(v, clean)
    decreases |ins|
  {
    if ins != [] {
      var w := SpendAll(v, Init(ins));
      NextAvailable(v, ins);
      SpendAllGood(v, Init(ins));
      SpendThenRestore(w, Last(ins), clean);
      SpendAllThenRestore(v, Init(ins), clean);
      assert Init(UndoAll(v, ins)) == UndoAll(v, Init(ins));
    }
  }

  lemma {:induction false} AvailableAfterRestoreAll(r: Rollback, ins: seq<OutPoint>, us: TxUndo, p: OutPoint)
    requires |us| == |ins|
    requires Available(RestoreAll(r, ins, us).view, p)
    ensures p in ins || Available(r.view, p)
    decreases |ins|
  {
    if ins != [] {
      var next := RestoreOne(r, Last(ins), Last(us));
      AvailableAfterRestoreAll(next, Init(ins), Init(us), p);
      if p !in ins {
        AvailableAfterRestore(r, Last(ins), Last(us), p);
      }
    }
  }

  lemma {:induction false} RestoreAllStaysUnclean(r: Rollback, ins: seq<OutPoint>, us: TxUndo)
    requires |us| == |ins| && !r.clean
    ensures !RestoreAll(r, ins, us).clean
    decreases |ins|
  {
    if ins != [] {
      RestoreAllStaysUnclean(RestoreOne(r, Last(ins), Last(us)), Init(ins), Init(us));
    }
  }

  /** A coinbase spends nothing; any other transaction spends all of its inputs. */
  function Ins(tx: Tx): seq<OutPoint> { if tx.IsCoinBase() then [] else tx.vin }

  predicate CanApply(v: View, tx: Tx) { CheckTransaction(tx) && HaveInputs(v, Ins(tx)) }

  /** UpdateCoins: spend the inputs, then write the outputs over whatever the txid held. */
  function Apply(v: View, tx: Tx, height: int): View
    requires CanApply(v, tx)
  {
    Store(SpendAll(v, Ins(tx)), tx.hash, FromTx(tx, height))
  }

  function UndoOf(v: View, tx: Tx): TxUndo
    requires CanApply(v, tx)
  {
    UndoAll(v, Ins(tx))
  }

  /** The txid has no unspent output left at the moment its own outputs are written. */
  predicate NoOverwrite(v: View, tx: Tx)
    requires CanApply(v, tx)
  {
    tx.hash !in SpendAll(v, Ins(tx))
  }

  /** The check that the outputs about to be removed are exactly those of the transaction. */
  predicate OutputsMatch(v: View, tx: Tx, height: int) {
    var outs := ClearUnspendable(Lookup(v, tx.hash));
    var expected := FromTx(tx, height);
    SameCoin(if expected.version < 0 then outs.(version := expected.version) else outs, expected)
  }

  /** One round of the loop of DisconnectBlock; ins and us are empty for the first transaction. */
  function Unapply(r: Rollback, tx: Tx, height: int, ins: seq<OutPoint>, us: TxUndo): Rollback
    requires |us| == |ins|
  {
    RestoreAll(Rollback(r.view - {tx.hash}, r.clean && OutputsMatch(r.view, tx, height)), ins, us)
  }

  lemma FromTxGood(tx: Tx, height: int)
    requires CheckTransaction(tx) && height >= 1
    ensures FromTx(tx, height).vout != [] ==> GoodCoin(FromTx(tx, height))
    ensures Trim(FromTx(tx, height).vout) == FromTx(tx, height).vout
    ensures ClearUnspendable(FromTx(tx, height)) == FromTx(tx, height)
    ensures FromTx(tx, height).vout == [] <==> FromTx(tx, height).IsPruned()
  {
    var c := FromTx(tx, height);
    TrimKeeps(c.vout);
    assert Spendable(c.vout) == c.vout;
    if c.vout != [] { assert !c.vout[|c.vout| - 1].IsNull(); }
  }

  lemma ApplyGood(v: View, tx: Tx, height: int)
    requires GoodView(v) && CanApply(v, tx) && height >= 1
    ensures GoodView(Apply(v, tx, height))
  {
    SpendAllGood(v, Ins(tx));
    FromTxGood(tx, height);
  }

  /** The outputs a transaction has just written are those that the roll-back expects to find. */
  lemma AppliedMatches(v: View, tx: Tx, height: int)
    requires CanApply(v, tx) && height >= 1 && NoOverwrite(v, tx)
    ensures OutputsMatch(Apply(v, tx, height), tx, height)
    ensures Apply(v, tx, height) - {tx.hash} == SpendAll(v, Ins(tx))
  {
    hide FromTx;
    FromTxGood(tx, height);
  }

  /** A transaction that overwrote nothing is taken back exactly, and every check passes. */
  lemma ApplyThenUnapply(v: View, tx: Tx, height: int, clean: bool)
    requires GoodView(v) && CanApply(v, tx) && height >= 1 && NoOverwrite(v, tx)
    ensures Unapply(Rollback(Apply(v, tx, height), clean), tx, height, Ins(tx), UndoOf(v, tx)) == Rollback(v, clean)
  {
    hide FromTx, Apply, OutputsMatch;
    AppliedMatches(v, tx, height);
    SpendAllThenRestore(v, Ins(tx), clean);
  }

  lemma AvailableAfterApply(v: View, tx: Tx, height: int, p: OutPoint)
    requires CanApply(v, tx)
    ensures Available(Apply(v, tx, height), p) <==>
            if p.hash == tx.hash then FromTx(tx, height).IsAvailable(p.n)
            else Available(v, p) && p !in Ins(tx)
  {
    AvailableAfterSpendAll(v, Ins(tx), p);
    TrimKeeps(FromTx(tx, height).vout);
  }

  // ---- A whole block ---------------------------------------------------------------------

  predicate CheckBlock(vtx: seq<Tx>) {
    && vtx != [] && vtx[0].IsCoinBase()
    && (forall i | 1 <= i < |vtx| :: !vtx[i].IsCoinBase())
    && (forall i | 0 <= i < |vtx| :: CheckTransaction(vtx[i]))
  }

  predicate CanApplyAll(v: View, vtx: seq<Tx>, height: int)
    decreases |vtx|
  {
    vtx == [] || (CanApply(v, vtx[0]) && CanApplyAll(Apply(v, vtx[0], height), vtx[1..], height))
  }

  function ApplyAll(v: View, vtx: seq<Tx>, height: int): View
    requires CanApplyAll(v, vtx, height)
    decreases |vtx|
  {
    if vtx == [] then v else ApplyAll(Apply(v, vtx[0], height), vtx[1..], height)
  }

  /** No transaction of the block overwrites a txid that is still partly unspent (BIP 30). */
  predicate NoOverwrites(v: View, vtx: seq<Tx>, height: int)
    requires CanApplyAll(v, vtx, height)
    decreases |vtx|
  {
    vtx == [] || (NoOverwrite(v, vtx[0]) && NoOverwrites(Apply(v, vtx[0], height), vtx[1..], height))
  }

  /** Undo data of every transaction, including the empty entry of the coinbase. */
  function UndoOfAll(v: View, vtx: seq<Tx>, height: int): (us: seq<TxUndo>)
    requires CanApplyAll(v, vtx, height)
    ensures |us| == |vtx|
    decreases |vtx|
  {
    if vtx == [] then [] else [UndoOf(v, vtx[0])] + UndoOfAll(Apply(v, vtx[0], height), vtx[1..], height)
  }

  /** The undo data stored for a block: no entry for the coinbase. */
  function BlockUndoOf(v: View, vtx: seq<Tx>, height: int): (us: seq<TxUndo>)
    requires vtx != [] && CanApplyAll(v, vtx, height)
    ensures |us| + 1 == |vtx|
  {
    UndoOfAll(v, vtx, height)[1..]
  }

  datatype Undone = Inconsistent | Undone(rollback: Rollback)

  /** The loop of DisconnectBlock; the leading transaction of a block restores no inputs. */
  function UnapplyAll(r: Rollback, vtx: seq<Tx>, us: seq<TxUndo>, height: int, leading: bool): Undone
    requires |us| == |vtx|
    decreases |vtx|
  {
    if vtx == [] then Undone(r)
    else
      var ins := if leading then [] else vtx[0].vin;
      match UnapplyAll(r, vtx[1..], us[1..], height, false)
      case Inconsistent => Inconsistent
      case Undone(s) => if |us[0]| != |ins| then Inconsistent else Undone(Unapply(s, vtx[0], height, ins, us[0]))
  }

  /** DisconnectBlock as a function of the view, the block and its undo data. */
  function Disconnect(v: View, vtx: seq<Tx>, undo: seq<TxUndo>, height: int): Undone {
    if |undo| + 1 != |vtx| then Inconsistent else UnapplyAll(Rollback(v, true), vtx, [[]] + undo, height, true)
  }

  lemma {:induction false} ApplyAllGood(v: View, vtx: seq<Tx>, height: int)
    requires GoodView(v) && CanApplyAll(v, vtx, height) && height >= 1
    ensures GoodView(ApplyAll(v, vtx, height))
    decreases |vtx|
  {
    if vtx != [] {
      ApplyGood(v, vtx[0], height);
      ApplyAllGood(Apply(v, vtx[0], height), vtx[1..], height);
    }
  }

  /** A run of transactions in which only the leading one may be a coinbase, and then is. */
  predicate Slots(vtx: seq<Tx>, leading: bool) {
    && (leading && vtx != [] ==> vtx[0].IsCoinBase())
    && forall i | 0 <= i < |vtx| && (leading ==> i > 0) :: !vtx[i].IsCoinBase()
  }

  /** Undo data with one entry for each input. */
  predicate Matching(vtx: seq<Tx>, us: seq<TxUndo>) {
    |us| == |vtx| && forall i | 0 <= i < |vtx| :: |us[i]| == |Ins(vtx[i])|
  }

  /** Connect a run of transactions, then roll it back with some undo data. */
  function ThereAndBack(v: View, vtx: seq<Tx>, us: seq<TxUndo>, height: int, leading: bool): Undone
    requires CanApplyAll(v, vtx, height) && |us| == |vtx|
  {
    UnapplyAll(Rollback(ApplyAll(v, vtx, height), true), vtx, us, height, leading)
  }

  lemma ThereAndBackStep(v: View, vtx: seq<Tx>, us: seq<TxUndo>, height: int, leading: bool)
    requires CanApplyAll(v, vtx, height) && Slots(vtx, leading) && vtx != [] && Matching(vtx, us)
    ensures Slots(vtx[1..], false) && Matching(vtx[1..], us[1..])
    ensures var back := ThereAndBack(Apply(v, vtx[0], height), vtx[1..], us[1..], height, false);
            ThereAndBack(v, vtx, us, height, leading) ==
            if back.Inconsistent? then Inconsistent
            else Undone(Unapply(back.rollback, vtx[0], height, Ins(vtx[0]), us[0]))
  {}

  lemma {:induction false} UndoMatches(v: View, vtx: seq<Tx>, height: int)
    requires CanApplyAll(v, vtx, height)
    ensures Matching(vtx, UndoOfAll(v, vtx, height))
    decreases |vtx|
  {
    if vtx != [] { UndoMatches(Apply(v, vtx[0], height), vtx[1..], height); }
  }

  lemma {:induction false} ApplyAllThenUnapplyAll(v: View, vtx: seq<Tx>, height: int, leading: bool)
    requires GoodView(v) && CanApplyAll(v, vtx, height) && height >= 1 && Slots(vtx, leading)
    requires NoOverwrites(v, vtx, height)
    ensures ThereAndBack(v, vtx, UndoOfAll(v, vtx, height), height, leading) == Undone(Rollback(v, true))
    decreases |vtx|
  {
    if vtx != [] {
      var us, next := UndoOfAll(v, vtx, height), Apply(v, vtx[0], height);
      assert us[0] == UndoOf(v, vtx[0]) && us[1..] == UndoOfAll(next, vtx[1..], height);
      ApplyGood(v, vtx[0], height);
      UndoMatches(v, vtx, height);
      ThereAndBackStep(v, vtx, us, height, leading);
      ApplyAllThenUnapplyAll(next, vtx[1..], height, false);
      ApplyThenUnapply(v, vtx[0], height, true);
    }
  }

  lemma AvailableAfterUnapply(r: Rollback, tx: Tx, height: int, ins: seq<OutPoint>, us: TxUndo, o: OutPoint)
    requires |us| == |ins| && Available(Unapply(r, tx, height, ins, us).view, o)
    ensures o in ins || (Available(r.view, o) && o.hash != tx.hash)
  {
    AvailableAfterRestoreAll(Rollback(r.view - {tx.hash}, r.clean && OutputsMatch(r.view, tx, height)), ins, us, o);
  }

  /** Taking back one transaction never brings back an output that was already missing. */
  lemma StaysLost(v: View, tx: Tx, height: int, r: Rollback, us: TxUndo, o: OutPoint)
    requires CanApply(v, tx) && |us| == |Ins(tx)|
    requires Available(Apply(v, tx, height), o) && !Available(r.view, o)
    ensures var s := Unapply(r, tx, height, Ins(tx), us);
            s.clean ==> Available(v, o) && !Available(s.view, o)
  {
    var match_ := OutputsMatch(r.view, tx, height);
    var start := Rollback(r.view - {tx.hash}, r.clean && match_);
    AvailableAfterApply(v, tx, height, o);
    if o.hash == tx.hash {
      MatchOffersAll(r.view, tx, height, o.n);
      assert !match_;
      RestoreAllStaysUnclean(start, Ins(tx), us);
    } else if Available(Unapply(r, tx, height, Ins(tx), us).view, o) {
      AvailableAfterUnapply(r, tx, height, Ins(tx), us, o);
    }
  }

  lemma MatchOffersAll(v: View, tx: Tx, height: int, n: nat)
    requires FromTx(tx, height).IsAvailable(n) && !Available(v, OutPoint(tx.hash, n))
    ensures !OutputsMatch(v, tx, height)
  {
    var c := Lookup(v, tx.hash);
    assert ClearUnspendable(c).vout <= Spendable(c.vout);
  }

  /** A transaction that overwrote a live txid is not taken back, whatever undo data is used: an output
    * of that txid is gone. */
  lemma OverwriteIsLost(v: View, tx: Tx, height: int, r: Rollback, us: TxUndo) returns (o: OutPoint)
    requires GoodView(v) && CanApply(v, tx) && !NoOverwrite(v, tx) && |us| == |Ins(tx)|
    ensures Available(v, o) && !Available(Unapply(r, tx, height, Ins(tx), us).view, o)
  {
    var w := SpendAll(v, Ins(tx));
    SpendAllGood(v, Ins(tx));
    o := OutPoint(tx.hash, |w[tx.hash].vout| - 1);
    assert Available(w, o);
    AvailableAfterSpendAll(v, Ins(tx), o);
    if Available(Unapply(r, tx, height, Ins(tx), us).view, o) { AvailableAfterUnapply(r, tx, height, Ins(tx), us, o); }
  }

  ghost predicate Loses(r: Rollback, v: View) {
    r.clean ==> exists o :: Available(v, o) && !Available(r.view, o)
  }

  lemma LosesStep(v: View, tx: Tx, height: int, r: Rollback, us: TxUndo)
    requires CanApply(v, tx) && |us| == |Ins(tx)|
    requires Loses(r, Apply(v, tx, height))
    ensures Loses(Unapply(r, tx, height, Ins(tx), us), v)
  {
    if r.clean {
      var o :| Available(Apply(v, tx, height), o) && !Available(r.view, o);
      StaysLost(v, tx, height, r, us, o);
    } else {
      RestoreAllStaysUnclean(Rollback(r.view - {tx.hash}, false), Ins(tx), us);
    }
  }

  lemma {:induction false} UnapplyAllFits(r: Rollback, vtx: seq<Tx>, us: seq<TxUndo>, height: int, leading: bool)
    requires Slots(vtx, leading) && Matching(vtx, us)
    ensures UnapplyAll(r, vtx, us, height, leading).Undone?
    decreases |vtx|
  {
    if vtx != [] { UnapplyAllFits(r, vtx[1..], us[1..], height, false); }
  }

  lemma {:induction false} OverwritesLoseOutput(v: View, vtx: seq<Tx>, us: seq<TxUndo>, height: int, leading: bool)
    requires GoodView(v) && CanApplyAll(v, vtx, height) && height >= 1 && Slots(vtx, leading)
    requires !NoOverwrites(v, vtx, height) && Matching(vtx, us)
    ensures var u := ThereAndBack(v, vtx, us, height, leading); u.Undone? && Loses(u.rollback, v)
    decreases |vtx|
  {
    var tx := vtx[0];
    var next := Apply(v, tx, height);
    ApplyGood(v, tx, height);
    ThereAndBackStep(v, vtx, us, height, leading);
    UnapplyAllFits(Rollback(ApplyAll(v, vtx, height), true), vtx[1..], us[1..], height, false);
    var back := ThereAndBack(next, vtx[1..], us[1..], height, false).rollback;
    if NoOverwrite(v, tx) {
      OverwritesLoseOutput(next, vtx[1..], us[1..], height, false);
      LosesStep(v, tx, height, back, us[0]);
    } else {
      var o := OverwriteIsLost(v, tx, height, back, us[0]);
    }
  }

  /** Disconnecting a block with its own undo data restores the exact earlier view and reports a
    * clean result if and only if no transaction of the block overwrote a live txid. */
  lemma DisconnectRestoresIff(v: View, vtx: seq<Tx>, height: int)
    requires GoodView(v) && CheckBlock(vtx) && CanApplyAll(v, vtx, height) && height >= 1
    ensures Disconnect(ApplyAll(v, vtx, height), vtx, BlockUndoOf(v, vtx, height), height) == Undone(Rollback(v, true))
            <==> NoOverwrites(v, vtx, height)
  {
    assert UndoOfAll(v, vtx, height) == [[]] + BlockUndoOf(v, vtx, height);
    if NoOverwrites(v, vtx, height) {
      ApplyAllThenUnapplyAll(v, vtx, height, true);
    } else {
      UndoMatches(v, vtx, height);
      OverwritesLoseOutput(v, vtx, UndoOfAll(v, vtx, height), height, true);
    }
  }

  /** Overwriting does happen: a coinbase repeated while it is still unspent fits on the coins, and
    * taking it back loses it. */
  lemma RepeatedCoinbaseIsLost(height: int)
    requires height >= 2
    ensures var coinbase := Tx(1, 1, [OutPoint(NULL_HASH, NULL_INDEX)], [TxOut(5, Code(0, false))], 100);
            var v := Apply(map[], coinbase, height - 1);
            && GoodView(v) && CheckBlock([coinbase]) && CanApplyAll(v, [coinbase], height)
            && !NoOverwrites(v, [coinbase], height)
            && Disconnect(ApplyAll(v, [coinbase], height), [coinbase], [], height) != Undone(Rollback(v, true))
  {
    var coinbase := Tx(1, 1, [OutPoint(NULL_HASH, NULL_INDEX)], [TxOut(5, Code(0, false))], 100);
    var v := Apply(map[], coinbase, height - 1);
    ApplyGood(map[], coinbase, height - 1);
    AvailableAfterApply(map[], coinbase, height - 1, OutPoint(1, 0));
    assert Spendable(coinbase.vout) == coinbase.vout;
    assert [coinbase][1..] == [];
    assert CanApplyAll(v, [coinbase], height);
    assert BlockUndoOf(v, [coinbase], height) == [];
    DisconnectRestoresIff(v, [coinbase], height);
  }
}
