/** What the rules come to: which spends, and which blocks, are accepted, in terms of single amounts and heights.
  */
module RulesExact {
  import opened Coins
  import opened Sequences
  import opened Rules
  import opened Shifts

  // ---- Rewards -----------------------------------------------------------------------------

  /** Shifting right is dividing by a power of two, rounding down. */
  lemma {:induction false} ShiftRightIs(x: nat, n: nat)
    ensures ShiftLeft(ShiftRight(x, n), n) <= x < ShiftLeft(ShiftRight(x, n) + 1, n)
  {
    if n > 0 {
      ShiftRightIs(x, n - 1);
      var y := ShiftRight(x, n - 1);
      ShiftLeftMono(2 * (y / 2), y, n - 1);
      ShiftLeftMono(y + 1, 2 * (y / 2 + 1), n - 1);
    }
  }

  lemma {:induction false} ShiftLeftMono(x: nat, y: nat, n: nat)
    requires x <= y
    ensures ShiftLeft(x, n) <= ShiftLeft(y, n)
    decreases n
  {
    if n > 0 { ShiftLeftMono(2 * x, 2 * y, n - 1); }
  }

  /** The reward starts at the initial reward, or at height 1 at the first reward where that is set, and is
    * halved, rounding down, once for each full interval; after 64 halvings it is 0. */
  lemma SubsidyIs(p: Params, height: nat)
    requires p.interval >= 1 && p.initialReward >= 0
    ensures var start, n := if height == 1 && p.firstReward >= 0 then p.firstReward else p.initialReward, height / p.interval;
            && (n < 64 ==> Subsidy(p, height) >= 0
                           && ShiftLeft(Subsidy(p, height), n) <= start < ShiftLeft(Subsidy(p, height) + 1, n))
            && (n >= 64 ==> Subsidy(p, height) == 0)
  {
    var start := if height == 1 && p.firstReward >= 0 then p.firstReward else p.initialReward;
    ShiftRightIs(start, height / p.interval);
  }

  // ---- Amounts -----------------------------------------------------------------------------

  function Total(values: seq<int>): int { if values == [] then 0 else values[0] + Total(values[1..]) }

  function OutValues(vout: seq<TxOut>): seq<int> { seq(|vout|, i requires 0 <= i < |vout| => vout[i].value) }

  /** The values of the outputs that are spent. */
  function InValues(v: View, ins: seq<OutPoint>): seq<int>
    requires HaveInputs(v, ins)
  {
    seq(|ins|, i requires 0 <= i < |ins| => v[ins[i].hash].vout[ins[i].n].value)
  }

  lemma {:induction false} TotalAppend(values: seq<int>, x: int)
    ensures Total(values + [x]) == Total(values) + x
  {
    if values != [] {
      assert (values + [x])[1..] == values[1..] + [x];
      TotalAppend(values[1..], x);
    }
  }

  lemma {:induction false} SumOutIs(vout: seq<TxOut>)
    ensures SumOut(vout) == Total(OutValues(vout))
  {
    if vout != [] {
      SumOutIs(Init(vout));
      assert OutValues(vout) == OutValues(Init(vout)) + [Last(vout).value];
      TotalAppend(OutValues(Init(vout)), Last(vout).value);
    }
  }

  lemma {:induction false} SumInIs(v: View, ins: seq<OutPoint>)
    requires HaveInputs(v, ins)
    ensures SumIn(v, ins) == Total(InValues(v, ins))
  {
    if ins != [] {
      assert Available(v, ins[|ins| - 1]);
      SumInIs(v, Init(ins));
      var x := v[Last(ins).hash].vout[Last(ins).n].value;
      assert InValues(v, ins) == InValues(v, Init(ins)) + [x];
      TotalAppend(InValues(v, Init(ins)), x);
    }
  }

  predicate EachWithin(values: seq<int>, max: int) { forall i | 0 <= i < |values| :: 0 <= values[i] <= max }

  lemma {:induction false} TotalNonNegative(values: seq<int>, max: int)
    requires EachWithin(values, max)
    ensures Total(values) >= 0
  {
    if values != [] { TotalNonNegative(values[1..], max); }
  }

  /** Checking every input and every running total comes to checking every input and the total. */
  lemma {:induction false} InRangeIff(p: Params, v: View, ins: seq<OutPoint>)
    requires HaveInputs(v, ins) && ins != []
    ensures InRange(p, v, ins) <==> EachWithin(InValues(v, ins), p.maxMoney) && Total(InValues(v, ins)) <= p.maxMoney
    decreases |ins|
  {
    var front, x := InValues(v, Init(ins)), v[Last(ins).hash].vout[Last(ins).n].value;
    assert Available(v, ins[|ins| - 1]);
    assert InValues(v, ins) == front + [x];
    TotalAppend(front, x);
    SumInIs(v, ins);
    if |ins| > 1 { InRangeIff(p, v, Init(ins)); }
    if EachWithin(front + [x], p.maxMoney) {
      assert forall i | 0 <= i < |front| :: front[i] == (front + [x])[i];
      assert (front + [x])[|front|] == x;
      TotalNonNegative(front, p.maxMoney);
    }
    if EachWithin(front, p.maxMoney) { TotalNonNegative(front, p.maxMoney); }
  }

  // ---- Which spends are accepted -----------------------------------------------------------

  /** At this height the output can be spent: it is there, unspent, and mature if it comes from a coinbase. */
  predicate CanSpend(p: Params, v: View, height: int, o: OutPoint) {
    && o.hash in v && o.n < |v[o.hash].vout| && v[o.hash].vout[o.n].value != -1
    && (v[o.hash].coinbase ==> height >= v[o.hash].height + p.maturity)
  }

  /** A transaction other than a coinbase is accepted if and only if each of its inputs can be spent, neither an
    * amount nor their total is out of range, and, with a native currency, it pays out no more than it spends. */
  lemma CheckInputsIff(p: Params, v: View, tx: Tx, height: int)
    requires CheckTransaction(tx) && !tx.IsCoinBase()
    ensures CheckInputs(p, v, tx, height) <==>
            && (forall i | 0 <= i < |tx.vin| :: CanSpend(p, v, height, tx.vin[i]))
            && HaveInputs(v, tx.vin)
            && EachWithin(InValues(v, tx.vin), p.maxMoney) && Total(InValues(v, tx.vin)) <= p.maxMoney
            && (p.native ==> Total(OutValues(tx.vout)) <= Total(InValues(v, tx.vin)))
  {
    if HaveInputs(v, tx.vin) {
      forall i | 0 <= i < |tx.vin| ensures Available(v, tx.vin[i]) {}
      InRangeIff(p, v, tx.vin);
      SumInIs(v, tx.vin);
      SumOutIs(tx.vout);
      OutsNonNegative(tx.vout);
      if EachWithin(InValues(v, tx.vin), p.maxMoney) { TotalNonNegative(InValues(v, tx.vin), p.maxMoney); }
    }
  }

  lemma {:induction false} OutsNonNegative(vout: seq<TxOut>)
    requires forall i | 0 <= i < |vout| :: vout[i].value >= 0
    ensures Total(OutValues(vout)) >= 0
  {
    if vout != [] {
      OutsNonNegative(vout[1..]);
      assert OutValues(vout)[1..] == OutValues(vout[1..]);
    }
  }

  // ---- Which blocks are accepted -----------------------------------------------------------

  /** The coins that the k-th transaction of a block sees. */
  function ViewAt(v: View, vtx: seq<Tx>, height: int, k: nat): View
    requires k <= |vtx| && CanApplyAll(v, vtx, height)
    decreases |vtx|
  {
    if k == 0 then v else ViewAt(Apply(v, vtx[0], height), vtx[1..], height, k - 1)
  }

  lemma {:induction false} ViewAtHasInputs(v: View, vtx: seq<Tx>, height: int, k: nat)
    requires CanApplyAll(v, vtx, height) && k < |vtx|
    ensures CanApply(ViewAt(v, vtx, height, k), vtx[k])
    decreases |vtx|
  {
    if k > 0 { ViewAtHasInputs(Apply(v, vtx[0], height), vtx[1..], height, k - 1); }
  }

  /** Each transaction but the coinbase passes at its turn. */
  predicate EachPasses(p: Params, v: View, vtx: seq<Tx>, height: int)
    requires CanApplyAll(v, vtx, height)
  {
    forall k | 0 <= k < |vtx| :: vtx[k].IsCoinBase() || CheckInputs(p, ViewAt(v, vtx, height, k), vtx[k], height)
  }

  lemma ViewAtStep(v: View, vtx: seq<Tx>, height: int, k: nat)
    requires CanApplyAll(v, vtx, height) && k < |vtx| - 1
    ensures CanApply(v, vtx[0]) && CanApplyAll(Apply(v, vtx[0], height), vtx[1..], height)
    ensures ViewAt(v, vtx, height, k + 1) == ViewAt(Apply(v, vtx[0], height), vtx[1..], height, k)
  {}

  lemma EachPassesStep(p: Params, v: View, vtx: seq<Tx>, height: int)
    requires vtx != [] && CanApply(v, vtx[0]) && CanApplyAll(Apply(v, vtx[0], height), vtx[1..], height)
    ensures EachPasses(p, v, vtx, height) <==>
            && (vtx[0].IsCoinBase() || CheckInputs(p, v, vtx[0], height))
            && EachPasses(p, Apply(v, vtx[0], height), vtx[1..], height)
  {
    hide Apply, CheckInputs, CheckTransaction, ViewAt;
    var w, rest := Apply(v, vtx[0], height), vtx[1..];
    ViewAtStart(v, vtx, height);
    forall k | 0 <= k < |rest| ensures ViewAt(v, vtx, height, k + 1) == ViewAt(w, rest, height, k) && vtx[k + 1] == rest[k] {
      ViewAtStep(v, vtx, height, k);
    }
    if EachPasses(p, w, rest, height) && (vtx[0].IsCoinBase() || CheckInputs(p, v, vtx[0], height)) {
      forall k | 0 <= k < |vtx| ensures vtx[k].IsCoinBase() || CheckInputs(p, ViewAt(v, vtx, height, k), vtx[k], height) {
        if k > 0 { assert vtx[k] == rest[k - 1]; }
      }
    }
  }

  lemma ViewAtStart(v: View, vtx: seq<Tx>, height: int)
    requires CanApplyAll(v, vtx, height)
    ensures ViewAt(v, vtx, height, 0) == v
  {}

  lemma {:induction false} TxsValidIff(p: Params, v: View, vtx: seq<Tx>, height: int)
    ensures TxsValid(p, v, vtx, height) <==> CanApplyAll(v, vtx, height) && EachPasses(p, v, vtx, height)
    decreases |vtx|
  {
    hide Apply, CheckInputs, CheckTransaction, EachPasses, ViewAt, Available;
    if vtx == [] {
      NoneToPass(p, v, height);
    } else {
      if CheckTransaction(vtx[0]) && CheckInputs(p, v, vtx[0], height) { ChecksSuffice(p, v, vtx[0], height); }
      if CanApply(v, vtx[0]) {
        TxsValidIff(p, Apply(v, vtx[0], height), vtx[1..], height);
        if CanApplyAll(Apply(v, vtx[0], height), vtx[1..], height) { EachPassesStep(p, v, vtx, height); }
        CoinbasePasses(p, v, vtx[0], height);
      }
    }
  }

  lemma NoneToPass(p: Params, v: View, height: int)
    ensures EachPasses(p, v, [], height)
  {}

  lemma CoinbasePasses(p: Params, v: View, tx: Tx, height: int)
    ensures tx.IsCoinBase() ==> CheckInputs(p, v, tx, height)
  {}

  /** What the transactions of a block leave for its coinbase: the outputs they spend less those they create. */
  function Collected(v: View, vtx: seq<Tx>, height: int): int
    requires CanApplyAll(v, vtx, height)
    decreases |vtx|
  {
    if vtx == [] then 0
    else
      var rest := Collected(Apply(v, vtx[0], height), vtx[1..], height);
      if vtx[0].IsCoinBase() then rest else Total(InValues(v, vtx[0].vin)) - Total(OutValues(vtx[0].vout)) + rest
  }

  lemma {:induction false} FeesAre(p: Params, v: View, vtx: seq<Tx>, height: int)
    requires TxsValid(p, v, vtx, height) && CanApplyAll(v, vtx, height)
    ensures Fees(p, v, vtx, height) == if p.native then Collected(v, vtx, height) else 0
    decreases |vtx|
  {
    hide Apply, CheckInputs, CheckTransaction, Total, InValues, OutValues, SumIn, SumOut, Available;
    if vtx != [] {
      FeesAre(p, Apply(v, vtx[0], height), vtx[1..], height);
      if !vtx[0].IsCoinBase() {
        SumInIs(v, vtx[0].vin);
        SumOutIs(vtx[0].vout);
      }
    }
  }

  /** A block is accepted if and only if, besides its form and BIP 30 where that is enforced, all inputs are there
    * in turn, each transaction passes at its turn, and, with a native currency, the coinbase pays out at most the
    * reward and what the other transactions leave for it. */
  lemma BlockValidIff(p: Params, v: View, vtx: seq<Tx>, height: nat)
    requires p.interval >= 1 && p.initialReward >= 0
    ensures BlockValid(p, v, vtx, height) <==>
            && CheckBlock(vtx)
            && (p.bip30 ==> forall k | 0 <= k < |vtx| :: vtx[k].hash !in v)
            && CanApplyAll(v, vtx, height) && EachPasses(p, v, vtx, height)
            && (p.native ==> Total(OutValues(vtx[0].vout)) <= Subsidy(p, height) + Collected(v, vtx, height))
  {
    hide Apply, TxsValid, EachPasses, Fees, Collected, CanApplyAll, SumOut, Total, OutValues;
    TxsValidIff(p, v, vtx, height);
    SubsidyIs(p, height);
    if CheckBlock(vtx) { SumOutIs(vtx[0].vout); }
    if TxsValid(p, v, vtx, height) { FeesAre(p, v, vtx, height); }
  }
}
