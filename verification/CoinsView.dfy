/** The coin view as an object that connecting and disconnecting blocks update in place. */
module CoinsViews {
  import opened Coins
  import opened Sequences
  import opened Rules

  method Cleanup(vout: seq<TxOut>) returns (r: seq<TxOut>)
    ensures r == Trim(vout)
  {
    r := vout;
    while |r| > 0 && r[|r| - 1].IsNull()
      invariant Trim(r) == Trim(vout)
      decreases |r|
    {
      r := r[..|r| - 1];
    }
  }

  lemma TakeOne<T>(s: seq<T>, i: nat)
    requires i < |s|
    ensures s[..i + 1] == s[..i] + [s[i]] && Init(s[..i + 1]) == s[..i] && Last(s[..i + 1]) == s[i]
  {}

  lemma SpendAllStep(v: View, ins: seq<OutPoint>, j: nat)
    requires HaveInputs(v, ins) && Distinct(ins) && j < |ins|
    ensures var w := SpendAll(v, ins[..j]);
            && Available(w, ins[j])
            && SpendAll(v, ins[..j + 1]) == SpendOne(w, ins[j])
            && UndoAll(v, ins[..j + 1]) == UndoAll(v, ins[..j]) + [UndoOne(w, ins[j])]
  {
    TakeOne(ins, j);
    NextAvailable(v, ins[..j + 1]);
  }

  lemma RestoreAllStep(r: Rollback, ins: seq<OutPoint>, us: TxUndo, j: nat)
    requires |us| == |ins| && j < |ins|
    ensures RestoreAll(r, ins[..j + 1], us[..j + 1]) == RestoreAll(RestoreOne(r, ins[j], us[j]), ins[..j], us[..j])
  {
    TakeOne(ins, j);
    TakeOne(us, j);
  }

  lemma RestoreNone(r: Rollback)
    ensures RestoreAll(r, [], []) == r
  {}

  /** Everything the transaction loop of ConnectBlock computes over a run of transactions. */
  datatype Totals = Rejected | Totals(view: View, fees: int, undo: seq<TxUndo>)

  function More(fee: int, u: TxUndo, rest: Totals): Totals {
    if rest.Rejected? then Rejected else Totals(rest.view, fee + rest.fees, [u] + rest.undo)
  }

  /** Totals over the transactions from position i on. */
  function TotalsOf(p: Params, v: View, vtx: seq<Tx>, height: int, i: nat): Totals
    requires i <= |vtx|
    decreases |vtx| - i
  {
    if i == |vtx| then Totals(v, 0, [])
    else if !CheckTransaction(vtx[i]) || !CheckInputs(p, v, vtx[i], height) then Rejected
    else More(Fee(p, v, vtx[i]), UndoOf(v, vtx[i]), TotalsOf(p, Apply(v, vtx[i], height), vtx, height, i + 1))
  }

  /** The loop's totals are those of the specification. */
  lemma {:induction false} TotalsAre(p: Params, v: View, vtx: seq<Tx>, height: int, i: nat)
    requires i <= |vtx|
    ensures TxsValid(p, v, vtx[i..], height) ==> CanApplyAll(v, vtx[i..], height)
    ensures TotalsOf(p, v, vtx, height, i) ==
            if TxsValid(p, v, vtx[i..], height)
            then Totals(ApplyAll(v, vtx[i..], height), Fees(p, v, vtx[i..], height), UndoOfAll(v, vtx[i..], height))
            else Rejected
    decreases |vtx| - i
  {
    hide CheckTransaction, CheckInputs, Apply, UndoOf, GetValueIn, GetValueOut;
    if i < |vtx| {
      assert vtx[i..][0] == vtx[i] && vtx[i..][1..] == vtx[i + 1..];
      if CheckTransaction(vtx[i]) && CheckInputs(p, v, vtx[i], height) {
        ChecksSuffice(p, v, vtx[i], height);
        TotalsAre(p, Apply(v, vtx[i], height), vtx, height, i + 1);
      }
    }
  }

  /** Totals of a block of which a part has been processed, from the totals of the rest. */
  function Resume(fees: int, us: seq<TxUndo>, rest: Totals): Totals {
    if rest.Rejected? then Rejected else Totals(rest.view, fees + rest.fees, us + rest.undo)
  }

  lemma ResumeMore(fees: int, us: seq<TxUndo>, fee: int, u: TxUndo, rest: Totals)
    ensures Resume(fees, us, More(fee, u, rest)) == Resume(fees + fee, us + [u], rest)
  {
    if rest.Totals? { assert us + ([u] + rest.undo) == us + [u] + rest.undo; }
  }

  lemma ResumeRejected(fees: int, us: seq<TxUndo>)
    ensures Resume(fees, us, Rejected) == Rejected
  {}

  class CoinsView {
    var coins: View

    /** A view on top of another one starts out showing what that one shows. */
    constructor (base: View)
      ensures coins == base
    {
      coins := base;
    }

    /** Write a modified record back, as the destructor of the modifier does. */
    method Modify(id: TxId, c: Coin)
      modifies this`coins
      ensures coins == Store(old(coins), id, c)
    {
      var vout := Cleanup(c.vout);
      coins := if vout == [] then coins - {id} else coins[id := c.(vout := vout)];
    }

    method Spend(o: OutPoint) returns (ok: bool, undo: TxInUndo)
      modifies this`coins
      ensures ok <==> Available(old(coins), o)
      ensures ok ==> coins == SpendOne(old(coins), o) && undo == UndoOne(old(coins), o)
      ensures !ok ==> coins == old(coins)
    {
      undo := TxInUndo(NULL_OUT, false, 0, 0);
      var c := Lookup(coins, o.hash);
      if o.n >= |c.vout| || c.vout[o.n].IsNull() { return false, undo; }
      ghost var before := c;
      undo := TxInUndo(c.vout[o.n], false, 0, 0);
      var vout := Cleanup(c.vout[o.n := NULL_OUT]);
      c := c.(vout := vout);
      if |c.vout| == 0 {
        undo := undo.(height := c.height, coinbase := c.coinbase, version := c.version);
      }
      Modify(o.hash, c);
      ok := true;
    }

    method SpendInputs(ins: seq<OutPoint>) returns (undo: TxUndo)
      requires HaveInputs(coins, ins) && Distinct(ins)
      modifies this`coins
      ensures coins == SpendAll(old(coins), ins)
      ensures undo == UndoAll(old(coins), ins)
    {
      undo := [];
      ghost var v := coins;
      for j := 0 to |ins|
        invariant coins == SpendAll(v, ins[..j]) && undo == UndoAll(v, ins[..j])
      {
        SpendAllStep(v, ins, j);
        var ok, u := Spend(ins[j]);
        undo := undo + [u];
      }
      assert ins[..|ins|] == ins;
    }

    /** Spend the inputs of a transaction, recording how to restore them, and add its outputs. */
    method UpdateCoins(tx: Tx, height: int) returns (undo: TxUndo)
      requires CanApply(coins, tx)
      modifies this`coins
      ensures coins == Apply(old(coins), tx, height)
      ensures undo == UndoOf(old(coins), tx)
    {
      undo := [];
      if !tx.IsCoinBase() {
        undo := SpendInputs(tx.vin);
      }
      Modify(tx.hash, FromTx(tx, height));
    }

    method RestoreInput(o: OutPoint, u: TxInUndo) returns (clean: bool)
      modifies this`coins
      ensures Rollback(coins, clean) == RestoreOne(Rollback(old(coins), true), o, u)
    {
      hide Trim, Store, Padded;
      var c := Lookup(coins, o.hash);
      clean := true;
      if u.height != 0 {
        if !c.IsPruned() { clean := false; }
        c := Coin(u.coinbase, [], u.height, u.version);
      } else {
        if c.IsPruned() { clean := false; }
      }
      if c.IsAvailable(o.n) { clean := false; }
      c := c.(vout := Padded(c.vout, o.n + 1));
      c := c.(vout := c.vout[o.n := u.txout]);
      Modify(o.hash, c);
    }

    /** Take a block back with its undo data; ok is false when the two do not fit together. */
    method DisconnectBlock(vtx: seq<Tx>, undo: seq<TxUndo>, height: int) returns (ok: bool, clean: bool)
      modifies this`coins
      ensures var d := Disconnect(old(coins), vtx, undo, height);
              if ok then d == Undone(Rollback(coins, clean)) else d == Inconsistent
    {
      hide RestoreAll, FromTx, ClearUnspendable;
      clean := true;
      if |undo| + 1 != |vtx| { return false, false; }
      ghost var v, us := coins, [[]] + undo;
      var i := |vtx|;
      while i > 0
        invariant 0 <= i <= |vtx|
        invariant UnapplyAll(Rollback(v, true), vtx[i..], us[i..], height, i == 0 && vtx != []) == Undone(Rollback(coins, clean))
      {
        i := i - 1;
        var tx := vtx[i];
        ghost var before := Rollback(coins, clean);
        ghost var ins := if i == 0 then [] else tx.vin;
        assert vtx[i..][0] == tx && vtx[i..][1..] == vtx[i + 1..] && us[i..][0] == us[i] && us[i..][1..] == us[i + 1..];
        var outs := ClearUnspendable(Lookup(coins, tx.hash));
        var outsBlock := FromTx(tx, height);
        if outsBlock.version < 0 { outs := outs.(version := outsBlock.version); }
        if !SameCoin(outs, outsBlock) { clean := false; }
        coins := coins - {tx.hash};
        ghost var start := Rollback(coins, clean);
        assert start == Rollback(before.view - {tx.hash}, before.clean && OutputsMatch(before.view, tx, height));
        RestoreNone(start);
        if i > 0 {
          if |undo[i - 1]| != |tx.vin| {
            InconsistentPrefix(Rollback(v, true), vtx, us, height, i);
            return false, false;
          }
          clean := RestoreInputs(tx.vin, undo[i - 1], clean);
        }
        assert RestoreAll(start, ins, us[i]) == Rollback(coins, clean);
      }
      assert vtx[0..] == vtx && us[0..] == us;
      ok := true;
    }

    method RestoreInputs(ins: seq<OutPoint>, us: TxUndo, clean0: bool) returns (clean: bool)
      requires |us| == |ins|
      modifies this`coins
      ensures Rollback(coins, clean) == RestoreAll(Rollback(old(coins), clean0), ins, us)
    {
      clean := clean0;
      var j := |ins|;
      assert ins[..j] == ins && us[..j] == us;
      while j > 0
        invariant 0 <= j <= |ins|
        invariant RestoreAll(Rollback(coins, clean), ins[..j], us[..j]) == RestoreAll(Rollback(old(coins), clean0), ins, us)
      {
        j := j - 1;
        RestoreAllStep(Rollback(coins, clean), ins, us, j);
        ghost var before := Rollback(coins, clean);
        var c := RestoreInput(ins[j], us[j]);
        clean := clean && c;
        assert Rollback(coins, clean) == RestoreOne(before, ins[j], us[j]);
      }
      assert ins[..j] == [] && us[..j] == [];
    }

    /** Check transaction i of a block against the view and apply it. */
    method ApplyTransaction(p: Params, vtx: seq<Tx>, height: int, i: nat) returns (ok: bool, fee: int, undo: TxUndo)
      requires i < |vtx| && CheckTransaction(vtx[i])
      modifies this`coins
      ensures ok <==> CheckInputs(p, old(coins), vtx[i], height)
      ensures ok ==> coins == Apply(old(coins), vtx[i], height)
      ensures ok ==> fee == Fee(p, old(coins), vtx[i]) && undo == UndoOf(old(coins), vtx[i])
    {
      var tx := vtx[i];
      fee, undo := 0, [];
      if !tx.IsCoinBase() {
        ok := CheckTxInputs(p, tx, height);
        if !ok { return; }
        fee := GetValueIn(p, coins, tx) - GetValueOut(p, tx);
      }
      undo := UpdateCoins(tx, height);
      ok := true;
    }

    /** One round of the transaction loop of ConnectBlock. */
    method NextTransaction(p: Params, vtx: seq<Tx>, height: int, i: nat, fees0: int, ghost all: seq<TxUndo>)
      returns (ok: bool, fees: int, undo: TxUndo)
      requires i < |vtx| && CheckTransaction(vtx[i])
      modifies this`coins
      ensures var whole := Resume(fees0, all, TotalsOf(p, old(coins), vtx, height, i));
              whole == if ok then Resume(fees, all + [undo], TotalsOf(p, coins, vtx, height, i + 1)) else Rejected
    {
      hide CheckTransaction, CheckInputs, Apply, UndoOf, Fee, Resume, More;
      var fee;
      ok, fee, undo := ApplyTransaction(p, vtx, height, i);
      fees := fees0 + fee;
      if ok { ResumeMore(fees0, all, fee, undo, TotalsOf(p, coins, vtx, height, i + 1)); } else { ResumeRejected(fees0, all); }
    }

    /** The transaction loop of ConnectBlock; the first transaction leaves no undo data. */
    method ApplyTransactions(p: Params, vtx: seq<Tx>, height: int) returns (ok: bool, fees: int, undo: seq<TxUndo>)
      requires vtx != [] && forall i | 0 <= i < |vtx| :: CheckTransaction(vtx[i])
      modifies this`coins
      ensures var whole := TotalsOf(p, old(coins), vtx, height, 0);
              if ok then whole.Totals? && whole.undo != [] && coins == whole.view && fees == whole.fees && undo == whole.undo[1..]
              else whole == Rejected
    {
      hide CheckTransaction, CheckInputs, Apply, UndoOf, Fee, More;
      fees, undo := 0, [];
      ghost var all := [];
      ghost var whole := TotalsOf(p, coins, vtx, height, 0);
      for i := 0 to |vtx|
        invariant |all| == i && undo == if i == 0 then [] else all[1..]
        invariant whole == Resume(fees, all, TotalsOf(p, coins, vtx, height, i))
      {
        var u;
        ok, fees, u := NextTransaction(p, vtx, height, i, fees, all);
        if !ok { return; }
        all := all + [u];
        if i > 0 { undo := undo + [u]; }
      }
      ok := true;
    }

    /** Check and apply a block. The outcome of scripts, permissions and assets is a parameter. */
    method ConnectBlock(p: Params, vtx: seq<Tx>, height: nat, externalOk: bool) returns (ok: bool, undo: seq<TxUndo>)
      requires p.interval >= 1 && p.initialReward >= 0
      modifies this`coins
      ensures ok <==> externalOk && BlockValid(p, old(coins), vtx, height)
      ensures ok ==> CanApplyAll(old(coins), vtx, height) && coins == ApplyAll(old(coins), vtx, height)
      ensures ok ==> undo == BlockUndoOf(old(coins), vtx, height)
    {
      if !CheckBlock(vtx) || !externalOk { return false, []; }
      if p.bip30 && exists i | 0 <= i < |vtx| :: vtx[i].hash in coins { return false, []; }
      var fees;
      assert vtx[0..] == vtx;
      TotalsAre(p, coins, vtx, height, 0);
      ok, fees, undo := ApplyTransactions(p, vtx, height);
      if ok && GetValueOut(p, vtx[0]) > GetBlockValue(p, height, fees) { ok := false; }
    }

    /** The loop of CheckInputs over the inputs of a transaction. */
    method CheckTxInputs(p: Params, tx: Tx, spendHeight: int) returns (ok: bool)
      requires !tx.IsCoinBase()
      ensures ok <==> CheckInputs(p, coins, tx, spendHeight)
    {
      hide InRange, Mature, SumIn;
      if !HaveInputs(coins, tx.vin) { return false; }
      var valueIn := 0;
      PrefixStart(p, coins, tx.vin, spendHeight);
      for i := 0 to |tx.vin|
        invariant HaveInputs(coins, tx.vin[..i]) && valueIn == SumIn(coins, tx.vin[..i])
        invariant InRange(p, coins, tx.vin[..i]) && Mature(p, coins, tx.vin[..i], spendHeight)
      {
        var prevout := tx.vin[i];
        PrefixStep(p, coins, tx.vin, i, spendHeight);
        var c := coins[prevout.hash];
        if c.coinbase && spendHeight - c.height < p.maturity { return false; }
        valueIn := valueIn + c.vout[prevout.n].value;
        if !p.MoneyRange(c.vout[prevout.n].value) || !p.MoneyRange(valueIn) {
          InRangePrefix(p, coins, tx.vin, i + 1);
          return false;
        }
      }
      assert tx.vin[..|tx.vin|] == tx.vin;
      ok := p.MoneyRange(valueIn - GetValueOut(p, tx));
    }
  }

  lemma PrefixStart(p: Params, v: View, ins: seq<OutPoint>, height: int)
    requires HaveInputs(v, ins)
    ensures HaveInputs(v, ins[..0]) && SumIn(v, ins[..0]) == 0 && InRange(p, v, ins[..0]) && Mature(p, v, ins[..0], height)
  {}

  /** One more input. */
  lemma PrefixStep(p: Params, v: View, ins: seq<OutPoint>, i: nat, height: int)
    requires HaveInputs(v, ins) && i < |ins| && HaveInputs(v, ins[..i])
    ensures Available(v, ins[i]) && HaveInputs(v, ins[..i + 1])
    ensures SumIn(v, ins[..i + 1]) == SumIn(v, ins[..i]) + OutAt(v, ins[i]).value
    ensures InRange(p, v, ins[..i + 1]) <==>
            InRange(p, v, ins[..i]) && p.MoneyRange(OutAt(v, ins[i]).value) && p.MoneyRange(SumIn(v, ins[..i + 1]))
    ensures var ripe := v[ins[i].hash].coinbase ==> height - v[ins[i].hash].height >= p.maturity;
            && (Mature(p, v, ins[..i], height) && ripe ==> Mature(p, v, ins[..i + 1], height))
            && (!ripe ==> !Mature(p, v, ins, height))
  {
    TakeOne(ins, i);
  }

  lemma {:induction false} InRangePrefix(p: Params, v: View, ins: seq<OutPoint>, n: nat)
    requires HaveInputs(v, ins) && n <= |ins| && !InRange(p, v, ins[..n])
    ensures !InRange(p, v, ins)
    decreases |ins|
  {
    if n < |ins| {
      assert Init(ins)[..n] == ins[..n];
      InRangePrefix(p, v, Init(ins), n);
    } else {
      assert ins[..n] == ins;
    }
  }

  /** A mismatch at one transaction makes the whole roll-back fail. */
  lemma {:induction false} InconsistentPrefix(r: Rollback, vtx: seq<Tx>, us: seq<TxUndo>, height: int, i: nat)
    requires |us| == |vtx| && 0 < i < |vtx| && |us[i]| != |vtx[i].vin|
    ensures UnapplyAll(r, vtx, us, height, true) == Inconsistent
  {
    InconsistentTail(r, vtx, us, height, i);
  }

  lemma {:induction false} InconsistentTail(r: Rollback, vtx: seq<Tx>, us: seq<TxUndo>, height: int, i: nat)
    requires |us| == |vtx| && i < |vtx| && |us[i]| != |vtx[i].vin|
    ensures UnapplyAll(r, vtx, us, height, false) == Inconsistent
    ensures i > 0 ==> UnapplyAll(r, vtx, us, height, true) == Inconsistent
    decreases i
  {
    if i > 0 {
      InconsistentTail(r, vtx[1..], us[1..], height, i - 1);
    }
  }
}
