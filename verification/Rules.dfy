/** Amounts: what a valid block may create, and the bound this puts on the whole supply. */
module Rules {
  import opened Coins
  import opened Sequences
  import opened Shifts
  import MapSum

  /** Chain parameters that are globals of the program. */
  datatype Params = Params(native: bool, maturity: Int32, maxMoney: int, interval: int,
                           initialReward: int, firstReward: int, bip30: bool)
  {
    predicate MoneyRange(value: int) { 0 <= value <= maxMoney }
  }

  /** Reward of a block before fees. */
  function Subsidy(p: Params, height: nat): int
    requires p.interval >= 1 && p.initialReward >= 0
  {
    var start := if height == 1 && p.firstReward >= 0 then p.firstReward else p.initialReward;
    var halvings := height / p.interval;
    if halvings >= 64 then 0 else ShiftRight(start, halvings)
  }

  function GetBlockValue(p: Params, height: nat, fees: int): int
    requires p.interval >= 1 && p.initialReward >= 0
  {
    Subsidy(p, height) + fees
  }

  // ---- Values of transactions ------------------------------------------------------------

  function SumOut(vout: seq<TxOut>): int {
    if vout == [] then 0 else SumOut(Init(vout)) + Last(vout).value
  }

  function OutAt(v: View, o: OutPoint): TxOut
    requires Available(v, o)
  {
    v[o.hash].vout[o.n]
  }

  function SumIn(v: View, ins: seq<OutPoint>): int
    requires HaveInputs(v, ins)
  {
    if ins == [] then 0 else SumIn(v, Init(ins)) + OutAt(v, Last(ins)).value
  }

  function GetValueOut(p: Params, tx: Tx): int { if p.native then SumOut(tx.vout) else 0 }

  function GetValueIn(p: Params, v: View, tx: Tx): int
    requires HaveInputs(v, Ins(tx))
  {
    if p.native then SumIn(v, Ins(tx)) else 0
  }

  /** Every input and every running total is a legal amount. */
  predicate InRange(p: Params, v: View, ins: seq<OutPoint>)
    requires HaveInputs(v, ins)
  {
    ins == [] || (InRange(p, v, Init(ins)) && p.MoneyRange(OutAt(v, Last(ins)).value) && p.MoneyRange(SumIn(v, ins)))
  }

  predicate Mature(p: Params, v: View, ins: seq<OutPoint>, spendHeight: int)
    requires HaveInputs(v, ins)
  {
    forall i | 0 <= i < |ins| && v[ins[i].hash].coinbase :: spendHeight - v[ins[i].hash].height >= p.maturity
  }

  /** Views that hold the same outputs agree on amounts. */
  lemma {:induction false} SumInSame(p: Params, v: View, w: View, ins: seq<OutPoint>)
    requires HaveInputs(v, ins) && HaveInputs(w, ins) && forall i | 0 <= i < |ins| :: OutAt(v, ins[i]) == OutAt(w, ins[i])
    ensures SumIn(v, ins) == SumIn(w, ins) && (InRange(p, v, ins) <==> InRange(p, w, ins))
  {
    hide OutAt, Available;
    if ins != [] {
      SumInSame(p, v, w, Init(ins));
      assert OutAt(v, ins[|ins| - 1]) == OutAt(w, ins[|ins| - 1]);
    }
  }

  /** CheckInputs without its script and permission checks. */
  predicate CheckInputs(p: Params, v: View, tx: Tx, spendHeight: int) {
    tx.IsCoinBase() ||
    (&& HaveInputs(v, tx.vin)
     && Mature(p, v, tx.vin, spendHeight)
     && InRange(p, v, tx.vin)
     && p.MoneyRange(SumIn(v, tx.vin) - GetValueOut(p, tx)))
  }

  lemma ChecksSuffice(p: Params, v: View, tx: Tx, height: int)
    requires CheckTransaction(tx) && CheckInputs(p, v, tx, height)
    ensures CanApply(v, tx)
  {}

  // ---- Valid blocks ----------------------------------------------------------------------

  predicate TxsValid(p: Params, v: View, vtx: seq<Tx>, height: int)
    decreases |vtx|
  {
    vtx == [] ||
    (&& CheckTransaction(vtx[0]) && CheckInputs(p, v, vtx[0], height)
     && TxsValid(p, Apply(v, vtx[0], height), vtx[1..], height))
  }

  function Fee(p: Params, v: View, tx: Tx): int
    requires CanApply(v, tx)
  {
    if tx.IsCoinBase() then 0 else GetValueIn(p, v, tx) - GetValueOut(p, tx)
  }

  function Fees(p: Params, v: View, vtx: seq<Tx>, height: int): int
    requires TxsValid(p, v, vtx, height)
    decreases |vtx|
  {
    if vtx == [] then 0 else Fee(p, v, vtx[0]) + Fees(p, Apply(v, vtx[0], height), vtx[1..], height)
  }

  lemma {:induction false} TxsValidCanApply(p: Params, v: View, vtx: seq<Tx>, height: int)
    requires TxsValid(p, v, vtx, height)
    ensures CanApplyAll(v, vtx, height)
    decreases |vtx|
  {
    if vtx != [] { TxsValidCanApply(p, Apply(v, vtx[0], height), vtx[1..], height); }
  }

  /** What ConnectBlock checks of a block besides scripts, permissions and assets. */
  predicate BlockValid(p: Params, v: View, vtx: seq<Tx>, height: nat)
    requires p.interval >= 1 && p.initialReward >= 0
  {
    && CheckBlock(vtx)
    && (p.bip30 ==> forall i | 0 <= i < |vtx| :: vtx[i].hash !in v)
    && TxsValid(p, v, vtx, height)
    && GetValueOut(p, vtx[0]) <= GetBlockValue(p, height, Fees(p, v, vtx, height))
  }

  /** The BIP 30 check at the start of a block is enough when the block's own txids differ. */
  lemma {:induction false} Bip30NoOverwrites(v: View, vtx: seq<Tx>, height: int)
    requires CanApplyAll(v, vtx, height)
    requires forall i | 0 <= i < |vtx| :: vtx[i].hash !in v
    requires forall i, j | 0 <= i < j < |vtx| :: vtx[i].hash != vtx[j].hash
    ensures NoOverwrites(v, vtx, height)
    decreases |vtx|
  {
    if vtx != [] {
      OnlyOwnKey(v, vtx[0], height);
      forall i | 0 <= i < |vtx[1..]| ensures vtx[1..][i].hash !in Apply(v, vtx[0], height) {
        assert vtx[1..][i] == vtx[i + 1];
      }
      Bip30NoOverwrites(Apply(v, vtx[0], height), vtx[1..], height);
    }
  }

  lemma OnlyOwnKey(v: View, tx: Tx, height: int)
    requires CanApply(v, tx)
    ensures Apply(v, tx, height).Keys <= v.Keys + {tx.hash}
    ensures tx.hash !in v ==> NoOverwrite(v, tx)
  {
    SpendAllKeeps(v, Ins(tx));
  }

  // ---- Supply ----------------------------------------------------------------------------

  /** Value of the unspent outputs of one record. */
  function Unspent(vout: seq<TxOut>): int {
    if vout == [] then 0 else Unspent(Init(vout)) + (if Last(vout).IsNull() then 0 else Last(vout).value)
  }

  ghost function Values(v: View): map<TxId, int> { map id | id in v :: Unspent(v[id].vout) }

  ghost function Supply(v: View): int { MapSum.Sum(Values(v)) }

  predicate NonNegativeOuts(vout: seq<TxOut>) { forall i | 0 <= i < |vout| && !vout[i].IsNull() :: vout[i].value >= 0 }

  ghost predicate NonNegativeView(v: View) { forall id | id in v :: NonNegativeOuts(v[id].vout) }

  lemma {:induction false} UnspentNonNegative(vout: seq<TxOut>)
    requires NonNegativeOuts(vout)
    ensures Unspent(vout) >= 0
  {
    if vout != [] { UnspentNonNegative(Init(vout)); }
  }

  lemma {:induction false} UnspentUpdate(vout: seq<TxOut>, n: nat)
    requires n < |vout| && !vout[n].IsNull()
    ensures Unspent(vout[n := NULL_OUT]) == Unspent(vout) - vout[n].value
  {
    if n == |vout| - 1 {
      assert Init(vout[n := NULL_OUT]) == Init(vout);
    } else {
      assert Init(vout[n := NULL_OUT]) == Init(vout)[n := NULL_OUT];
      UnspentUpdate(Init(vout), n);
    }
  }

  lemma {:induction false} UnspentTrim(vout: seq<TxOut>)
    ensures Unspent(Trim(vout)) == Unspent(vout)
  {
    if |vout| > 0 && vout[|vout| - 1].IsNull() { UnspentTrim(Init(vout)); }
  }

  lemma {:induction false} UnspentSpendable(vout: seq<TxOut>)
    requires forall i | 0 <= i < |vout| :: vout[i].value >= 0
    ensures Unspent(Spendable(vout)) <= SumOut(vout)
  {
    if vout != [] {
      UnspentSpendable(Init(vout));
      assert Init(Spendable(vout)) == Spendable(Init(vout));
    }
  }

  /** Storing a record changes the supply by exactly that record's part. */
  lemma SupplyStore(v: View, id: TxId, c: Coin)
    ensures Supply(Store(v, id, c)) == Supply(v) + Unspent(c.vout) - (if id in v then Unspent(v[id].vout) else 0)
  {
    var vout := Trim(c.vout);
    UnspentTrim(c.vout);
    MapSum.With(Values(v), id, Unspent(vout));
    if vout == [] {
      if id in v {
        MapSum.Without(Values(v), id);
        assert Values(v - {id}) == Values(v) - {id};
      } else {
        assert v - {id} == v;
      }
    } else {
      assert Values(v[id := c.(vout := vout)]) == Values(v)[id := Unspent(vout)];
    }
  }

  lemma SupplySpendOne(v: View, o: OutPoint)
    requires Available(v, o)
    ensures Supply(SpendOne(v, o)) == Supply(v) - OutAt(v, o).value
    ensures NonNegativeView(v) ==> NonNegativeView(SpendOne(v, o))
  {
    hide Supply, Unspent;
    var c := v[o.hash];
    SupplyStore(v, o.hash, Spend(c, o.n).0);
    UnspentUpdate(c.vout, o.n);
    UnspentTrim(c.vout[o.n := NULL_OUT]);
    UnspentTrim(Spend(c, o.n).0.vout);
    SpendOneIs(v, o);
  }

  /** Spending leaves all other outputs as they are. */
  lemma OutKept(v: View, o: OutPoint, p: OutPoint)
    requires Available(v, o) && Available(v, p) && p != o
    ensures Available(SpendOne(v, o), p) && OutAt(SpendOne(v, o), p) == OutAt(v, p)
  {
    AvailableAfterSpend(v, o, p);
    SpendOneIs(v, o);
  }

  lemma {:induction false} OutsKept(v: View, ins: seq<OutPoint>, p: OutPoint)
    requires HaveInputs(v, ins) && Distinct(ins) && Available(v, p) && p !in ins
    ensures Available(SpendAll(v, ins), p) && OutAt(SpendAll(v, ins), p) == OutAt(v, p)
    decreases |ins|
  {
    hide Available, SpendOne, OutAt;
    if ins != [] {
      assert ins == Init(ins) + [Last(ins)];
      assert HaveInputs(v, Init(ins)) by { forall i | 0 <= i < |Init(ins)| ensures Available(v, Init(ins)[i]) { assert Available(v, ins[i]); } }
      OutsKept(v, Init(ins), p);
      NextAvailable(v, ins);
      OutKept(SpendAll(v, Init(ins)), Last(ins), p);
    }
  }

  lemma {:induction false} SupplySpendAll(v: View, ins: seq<OutPoint>)
    requires HaveInputs(v, ins) && Distinct(ins)
    ensures Supply(SpendAll(v, ins)) == Supply(v) - SumIn(v, ins)
    ensures NonNegativeView(v) ==> NonNegativeView(SpendAll(v, ins))
    decreases |ins|
  {
    hide Supply, NonNegativeView, SpendOne, OutAt, Available;
    if ins != [] {
      assert HaveInputs(v, Init(ins)) by { forall i | 0 <= i < |Init(ins)| ensures Available(v, Init(ins)[i]) { assert Available(v, ins[i]); } }
      SupplySpendAll(v, Init(ins));
      NextAvailable(v, ins);
      SupplySpendOne(SpendAll(v, Init(ins)), Last(ins));
      assert ins == Init(ins) + [Last(ins)] && Available(v, ins[|ins| - 1]);
      OutsKept(v, Init(ins), Last(ins));
    }
  }

  lemma FromTxValue(tx: Tx, height: int)
    requires CheckTransaction(tx)
    ensures Unspent(FromTx(tx, height).vout) <= SumOut(tx.vout)
    ensures NonNegativeOuts(FromTx(tx, height).vout)
  {
    UnspentTrim(Spendable(tx.vout));
    UnspentSpendable(tx.vout);
  }

  lemma NonNegativeStore(v: View, id: TxId, c: Coin)
    requires NonNegativeView(v) && NonNegativeOuts(c.vout)
    ensures NonNegativeView(Store(v, id, c))
  {}

  /** A transaction adds at most its outputs and takes away exactly its inputs. */
  lemma SupplyApply(v: View, tx: Tx, height: int)
    requires NonNegativeView(v) && CanApply(v, tx)
    ensures Supply(Apply(v, tx, height)) <= Supply(v) - SumIn(v, Ins(tx)) + SumOut(tx.vout)
    ensures NonNegativeView(Apply(v, tx, height))
  {
    var w := SpendAll(v, Ins(tx));
    SupplySpendAll(v, Ins(tx));
    FromTxValue(tx, height);
    SupplyStore(w, tx.hash, FromTx(tx, height));
    NonNegativeStore(w, tx.hash, FromTx(tx, height));
    if tx.hash in w { UnspentNonNegative(w[tx.hash].vout); }
  }

  lemma {:induction false} SupplyApplyAll(p: Params, v: View, vtx: seq<Tx>, height: int)
    requires p.native && NonNegativeView(v) && TxsValid(p, v, vtx, height)
    requires forall i | 0 <= i < |vtx| :: !vtx[i].IsCoinBase()
    ensures CanApplyAll(v, vtx, height) && NonNegativeView(ApplyAll(v, vtx, height))
    ensures Supply(ApplyAll(v, vtx, height)) <= Supply(v) - Fees(p, v, vtx, height)
    decreases |vtx|
  {
    if vtx != [] {
      SupplyApply(v, vtx[0], height);
      SupplyApplyAll(p, Apply(v, vtx[0], height), vtx[1..], height);
    }
  }

  /** Connecting a block raises the total of unspent outputs by at most the block's subsidy. */
  lemma SupplyPerBlock(p: Params, v: View, vtx: seq<Tx>, height: nat)
    requires p.native && p.interval >= 1 && p.initialReward >= 0
    requires NonNegativeView(v) && BlockValid(p, v, vtx, height)
    ensures CanApplyAll(v, vtx, height) && NonNegativeView(ApplyAll(v, vtx, height))
    ensures Supply(ApplyAll(v, vtx, height)) <= Supply(v) + Subsidy(p, height)
  {
    SupplyApply(v, vtx[0], height);
    SupplyApplyAll(p, Apply(v, vtx[0], height), vtx[1..], height);
  }

  function TotalSubsidy(p: Params, height: nat): int
    requires p.interval >= 1 && p.initialReward >= 0
  {
    if height == 0 then 0 else TotalSubsidy(p, height - 1) + Subsidy(p, height)
  }

  lemma MulMono(a: int, b: int, c: nat)
    requires a <= b
    ensures a * c <= b * c
  {}

  lemma DivMod(x: nat, d: nat, q: nat, r: nat)
    requires d >= 1 && r < d && x == q * d + r
    ensures x / d == q && x % d == r
  {
    var k := x / d - q;
    assert k * d == r - x % d;
    if k >= 1 { MulMono(1, k, d); }
    if k <= -1 { MulMono(k, -1, d); }
  }

  function Regular(p: Params, height: nat): nat
    requires p.interval >= 1 && p.initialReward >= 0
  {
    ShiftRight(p.initialReward, height / p.interval)
  }

  function TotalRegular(p: Params, height: nat): nat
    requires p.interval >= 1 && p.initialReward >= 0
  {
    if height == 0 then 0 else TotalRegular(p, height - 1) + Regular(p, height - 1)
  }

  /** The bound at a height, in units of what is left of the reward there. */
  function Budget(interval: nat, reward: int, left: int, r: nat): int {
    2 * interval * (reward - left) + r * left
  }

  lemma BudgetCarry(interval: nat, reward: int, left: nat, next: nat)
    requires interval >= 1 && 2 * next <= left
    ensures Budget(interval, reward, left, interval - 1) + left <= Budget(interval, reward, next, 0)
  {
    calc {
      Budget(interval, reward, left, interval - 1) + left;
    == 2 * interval * (reward - left) + interval * left;
    == 2 * interval * reward - interval * left;
    <= { MulMono(2 * next, left, interval); }
      2 * interval * reward - interval * (2 * next);
    == 2 * interval * (reward - next);
    }
  }

  /** Each halving period costs at most what the periods before it left of the bound. */
  lemma {:induction false} RegularBound(p: Params, height: nat)
    requires p.interval >= 1 && p.initialReward >= 0
    ensures TotalRegular(p, height) <= Budget(p.interval, p.initialReward, Regular(p, height), height % p.interval)
  {
    if height > 0 {
      RegularBound(p, height - 1);
      NextPeriod(height - 1, p.interval);
      BudgetStep(p.interval, p.initialReward, Regular(p, height - 1), Regular(p, height), (height - 1) % p.interval);
    }
  }

  lemma BudgetStep(interval: nat, reward: int, left: nat, next: nat, r: nat)
    requires r < interval
    requires if r + 1 < interval then next == left else 2 * next <= left
    ensures Budget(interval, reward, left, r) + left <= Budget(interval, reward, next, if r + 1 < interval then r + 1 else 0)
  {
    if r + 1 < interval {
      assert (r + 1) * left == r * left + left;
    } else {
      BudgetCarry(interval, reward, left, next);
    }
  }

  lemma NextPeriod(x: nat, d: nat)
    requires d >= 1
    ensures x % d + 1 < d ==> (x + 1) / d == x / d && (x + 1) % d == x % d + 1
    ensures x % d + 1 == d ==> (x + 1) / d == x / d + 1 && (x + 1) % d == 0
  {
    var q, r := x / d, x % d;
    assert x == q * d + r;
    if r + 1 < d {
      DivMod(x + 1, d, q, r + 1);
    } else {
      assert (q + 1) * d == q * d + d;
      DivMod(x + 1, d, q + 1, 0);
    }
  }

  lemma {:induction false} TotalSubsidyVsRegular(p: Params, height: nat)
    requires p.interval >= 1 && p.initialReward >= 0
    ensures TotalSubsidy(p, height) <= (if p.firstReward >= 0 then p.firstReward else 0) + TotalRegular(p, height + 1)
  {
    if height > 0 {
      TotalSubsidyVsRegular(p, height - 1);
      if height == 1 && p.firstReward >= 0 {
        assert Subsidy(p, 1) <= p.firstReward;
        assert TotalSubsidy(p, 1) == Subsidy(p, 1) by { assert TotalSubsidy(p, 0) == 0; }
      }
    }
  }

  /** All subsidies up to any height stay within the first reward plus two full periods. */
  lemma TotalSubsidyBound(p: Params, height: nat)
    requires p.interval >= 1 && p.initialReward >= 0
    ensures TotalSubsidy(p, height) <=
            (if p.firstReward >= 0 then p.firstReward else 0) + 2 * p.interval * p.initialReward
  {
    TotalSubsidyVsRegular(p, height);
    RegularBound(p, height + 1);
    BudgetBound(p.interval, p.initialReward, Regular(p, height + 1), (height + 1) % p.interval);
  }

  lemma BudgetBound(interval: nat, reward: nat, left: nat, r: nat)
    requires r < interval
    ensures Budget(interval, reward, left, r) <= 2 * interval * reward
  {
    MulMono(r, interval, left);
    assert Budget(interval, reward, left, r) == 2 * interval * reward - 2 * (interval * left) + r * left;
    assert interval * left >= 0;
  }
}
