/** Every interleaving of the verification queue: accounting, results, no lost wake-up, and
  * termination of Wait.
  */
module CheckQueueProof {
  import opened CheckQueueSpec

  lemma {:induction false} HeldTakeOut(threads: seq<Thread>, t: nat, n: nat)
    requires t < |threads| && n <= |threads|
    ensures HeldBy(threads, n) ==
            HeldBy(threads[t := Outside], n) + (if t < n then multiset(BatchOf(threads[t])) else multiset{})
  {
    if n > 0 { HeldTakeOut(threads, t, n - 1); }
  }

  lemma {:induction false} CountTakeOut(threads: seq<Thread>, t: nat, n: nat, p: Thread -> bool)
    requires t < |threads| && n <= |threads| && !p(Outside)
    ensures CountFirst(threads, n, p) == CountFirst(threads[t := Outside], n, p) + (if t < n && p(threads[t]) then 1 else 0)
  {
    if n > 0 { CountTakeOut(threads, t, n - 1, p); }
  }

  /** A sum over the threads, with thread t taken out and its own part added back. */
  lemma TakeOut(threads: seq<Thread>, t: nat)
    requires t < |threads|
    ensures var rest := threads[t := Outside];
            && Held(threads) == Held(rest) + multiset(BatchOf(threads[t]))
            && CountWorking(threads) == CountWorking(rest) + (if threads[t].Working? then 1 else 0)
            && CountAsleep(threads) == CountAsleep(rest) + (if threads[t].Asleep? then 1 else 0)
  {
    HeldTakeOut(threads, t, |threads|);
    CountTakeOut(threads, t, |threads|, (t: Thread) => t.Working?);
    CountTakeOut(threads, t, |threads|, (t: Thread) => t.Asleep?);
  }

  lemma HeldCovers(threads: seq<Thread>, t: nat)
    requires t < |threads| && threads[t].Working?
    ensures |threads[t].batch| <= |Held(threads)| && CountWorking(threads) >= 1
  {
    TakeOut(threads, t);
    assert |Held(threads)| == |Held(threads[t := Outside])| + |multiset(threads[t].batch)|;
  }

  lemma {:induction false} HeldBySomeone(threads: seq<Thread>, n: nat) returns (t: nat)
    requires n <= |threads| && |HeldBy(threads, n)| > 0
    ensures t < n && threads[t].Working?
  {
    t := n - 1;
    if !threads[t].Working? { t := HeldBySomeone(threads, n - 1); }
  }

  lemma {:induction false} NotifyKeepsCount(a: seq<Thread>, b: seq<Thread>, n: nat, p: Thread -> bool)
    requires |a| == |b| && n <= |a| && forall t | 0 <= t < |a| :: p(a[t]) == p(b[t])
    ensures CountFirst(a, n, p) == CountFirst(b, n, p)
  {
    if n > 0 { NotifyKeepsCount(a, b, n - 1, p); }
  }

  lemma {:induction false} NotifyKeepsHeld(a: seq<Thread>, b: seq<Thread>, n: nat)
    requires |a| == |b| && n <= |a| && forall t | 0 <= t < |a| :: BatchOf(a[t]) == BatchOf(b[t])
    ensures HeldBy(a, n) == HeldBy(b, n)
  {
    if n > 0 { NotifyKeepsHeld(a, b, n - 1); }
  }

  /** Notifications change who may wake up, and nothing that is counted. */
  lemma NotifyKeepsSums(a: seq<Thread>, b: seq<Thread>, n: nat)
    requires |a| == |b| && n <= |a| && forall t | 0 <= t < |a| :: a[t] == b[t] || (a[t].Asleep? && b[t].Asleep?)
    ensures HeldBy(a, n) == HeldBy(b, n)
    ensures CountFirst(a, n, (t: Thread) => t.Working?) == CountFirst(b, n, (t: Thread) => t.Working?)
    ensures CountFirst(a, n, (t: Thread) => t.Asleep?) == CountFirst(b, n, (t: Thread) => t.Asleep?)
  {
    NotifyKeepsHeld(a, b, n);
    NotifyKeepsCount(a, b, n, (t: Thread) => t.Working?);
    NotifyKeepsCount(a, b, n, (t: Thread) => t.Asleep?);
  }

  lemma AllOkByMultiset(a: seq<Check>, b: seq<Check>)
    requires multiset(a) == multiset(b)
    ensures AllOk(a) <==> AllOk(b)
  {
    if AllOk(a) {
      forall i | 0 <= i < |b| ensures b[i].ok { assert b[i] in multiset(a); assert b[i] in a; }
    }
    if AllOk(b) {
      forall i | 0 <= i < |a| ensures a[i].ok { assert a[i] in multiset(b); assert a[i] in b; }
    }
  }

  lemma {:induction false} ReverseKeeps<T>(s: seq<T>)
    ensures multiset(Reverse(s)) == multiset(s)
  {
    if s != [] {
      ReverseKeeps(s[..|s| - 1]);
      assert s == s[..|s| - 1] + [s[|s| - 1]];
    }
  }

  /** The invariant while thread t is inside the critical section: it is counted as running but
    * holds nothing. */
  ghost predicate Inside(y: System, s: Shared, t: nat) {
    && t < |y.threads|
    && var rest := y.threads[t := Outside];
    && MasterServed(s, rest)
    && Accounted(s, rest, 1)
    && Conserved(y.round, s, rest, y.completed)
    && Truthful(y.round, s, rest, y.completed)
  }

  predicate NoneWorking(threads: seq<Thread>) { forall t | 0 <= t < |threads| :: !threads[t].Working? }

  /** When the master may return, nothing is held and the whole round has been accounted for. */
  lemma RoundOver(y: System, s: Shared)
    requires Inside(y, s, 0) && s.queue == [] && s.nTodo == 0
    ensures Held(y.threads[0 := Outside]) == multiset{} && (s.fAllOk <==> AllOk(y.round))
    ensures NoneWorking(y.threads[0 := Outside])
  {
    var rest := y.threads[0 := Outside];
    forall t | 0 <= t < |rest| ensures !rest[t].Working? {
      if rest[t].Working? { HeldCovers(rest, t); }
    }
    AllOkByMultiset(y.round, y.completed);
  }

  /** The sums after thread t, so far outside, moves to state x. */
  lemma PutSums(rest: seq<Thread>, t: nat, x: Thread)
    requires t < |rest| && rest[t] == Outside
    ensures var z := rest[t := x];
            && Held(z) == Held(rest) + multiset(BatchOf(x))
            && CountWorking(z) == CountWorking(rest) + (if x.Working? then 1 else 0)
            && CountAsleep(z) == CountAsleep(rest) + (if x.Asleep? then 1 else 0)
  {
    assert rest[t := x][t := Outside] == rest;
    TakeOut(rest[t := x], t);
  }

  lemma TruthfulPut(round: seq<Check>, s: Shared, rest: seq<Thread>, completed: seq<Check>, t: nat, x: Thread)
    requires Truthful(round, s, rest, completed) && t < |rest| && GoodThread(x, round)
    ensures Truthful(round, s, rest[t := x], completed)
  {}

  lemma Overwrite(threads: seq<Thread>, t: nat, x: Thread)
    requires t < |threads|
    ensures threads[t := x] == threads[t := Outside][t := x]
  {}

  lemma ChooseSleep(y: System, s: Shared, t: nat)
    requires Inside(y, s, t) && s.queue == [] && !(t == 0 && s.nTodo == 0)
    ensures Counters(s) && Inv(Proceed(y, s, t))
  {
    var rest, x := y.threads[t := Outside], Asleep(false);
    Overwrite(y.threads, t, x);
    PutSums(rest, t, x);
    TruthfulPut(y.round, s, rest, y.completed, t, x);
  }

  lemma ChooseReturn(y: System, s: Shared)
    requires Inside(y, s, 0) && s.queue == [] && s.nTodo == 0
    ensures Counters(s) && Inv(Proceed(y, s, 0)) && Proceed(y, s, 0).result == AllOk(y.round)
  {
    RoundOver(y, s);
  }

  /** Moving a batch from the queue to a thread loses nothing. */
  lemma TakeConserves(round: seq<Check>, s: Shared, rest: seq<Thread>, completed: seq<Check>, cut: nat, batch: seq<Check>)
    requires cut <= |s.queue| && batch == Reverse(s.queue[cut..])
    ensures multiset(s.queue) == multiset(s.queue[..cut]) + multiset(batch)
  {
    ReverseKeeps(s.queue[cut..]);
    assert s.queue == s.queue[..cut] + s.queue[cut..];
  }

  lemma ChooseTake(y: System, s: Shared, t: nat)
    requires Inside(y, s, t) && s.queue != []
    ensures Counters(s) && Inv(Proceed(y, s, t))
  {
    var cut := |s.queue| - BatchSize(s);
    var batch := Reverse(s.queue[cut..]);
    var rest, x := y.threads[t := Outside], Working(batch, 0, s.fAllOk);
    Overwrite(y.threads, t, x);
    PutSums(rest, t, x);
    TruthfulPut(y.round, s, rest, y.completed, t, x);
    TakeConserves(y.round, s, rest, y.completed, cut, batch);
  }

  lemma ProceedKeeps(y: System, s: Shared, t: nat)
    requires Inside(y, s, t)
    ensures Counters(s) && Inv(Proceed(y, s, t))
  {
    if s.queue != [] { ChooseTake(y, s, t); }
    else if t == 0 && s.nTodo == 0 { ChooseReturn(y, s); }
    else { ChooseSleep(y, s, t); }
  }

  lemma StartInside(y: System, t: nat)
    requires Inv(y) && Enabled(y, Start(t))
    ensures Inside(y, Enter(y.shared), t)
  {
    assert y.threads[t := Outside] == y.threads;
  }

  lemma TruthfulTake(round: seq<Check>, s: Shared, threads: seq<Thread>, completed: seq<Check>, t: nat)
    requires Truthful(round, s, threads, completed) && t < |threads|
    ensures Truthful(round, s, threads[t := Outside], completed)
  {}

  lemma WakeInside(y: System, t: nat)
    requires Inv(y) && Enabled(y, WakeUp(t))
    ensures y.shared.nIdle >= 1 && Inside(y, Wake(y.shared), t)
  {
    TakeOut(y.threads, t);
    TruthfulTake(y.round, y.shared, y.threads, y.completed, t);
  }

  lemma PrefixAllOk(batch: seq<Check>, done: nat, ok: bool)
    requires done < |batch| && AllOk(batch[..done])
    ensures AllOk(batch[..done + 1]) <==> batch[done].ok
  {
    assert batch[..done + 1] == batch[..done] + [batch[done]];
    assert batch[..done + 1][done] == batch[done];
  }

  lemma HeldHas(threads: seq<Thread>, t: nat, c: Check)
    requires t < |threads| && c in BatchOf(threads[t])
    ensures c in Held(threads)
  {
    TakeOut(threads, t);
    assert c in multiset(BatchOf(threads[t]));
  }

  lemma FailedCheck(y: System, t: nat, c: Check)
    requires Inv(y) && !c.ok && t < |y.threads| && c in BatchOf(y.threads[t])
    ensures !AllOk(y.round)
  {
    HeldHas(y.threads, t, c);
    assert c in multiset(y.round);
    var i :| 0 <= i < |y.round| && y.round[i] == c;
  }

  lemma ExecuteGood(y: System, t: nat)
    requires Inv(y) && Enabled(y, Execute(t))
    ensures GoodThread(Next(y, Execute(t)).threads[t], y.round)
  {
    var w := y.threads[t];
    assert GoodThread(w, y.round);
    if w.fOk {
      PrefixAllOk(w.batch, w.done, true);
      if !w.batch[w.done].ok { FailedCheck(y, t, w.batch[w.done]); }
    }
  }

  lemma ExecuteKeeps(y: System, t: nat)
    requires Inv(y) && Enabled(y, Execute(t))
    ensures Inv(Next(y, Execute(t)))
  {
    var rest, x := y.threads[t := Outside], Next(y, Execute(t)).threads[t];
    ExecuteGood(y, t);
    TakeOut(y.threads, t);
    TruthfulPut(y.round, y.shared, y.threads, y.completed, t, x);
    Overwrite(y.threads, t, x);
    PutSums(rest, t, x);
  }

  /** The state of a thread that has just accounted for its batch. */
  function Settled(y: System, t: nat): (r: (System, Shared))
    requires Enabled(y, Settle(t))
  {
    var w := y.threads[t];
    var s := Finish(y.shared, |w.batch|, w.fOk);
    var threads := if s.nTodo == 0 && t != 0 then NotifyMaster(y.threads) else y.threads;
    (y.(threads := threads, completed := y.completed + w.batch), s)
  }

  lemma SettledVerdict(y: System, t: nat)
    requires Inv(y) && Enabled(y, Settle(t))
    ensures var w := y.threads[t];
            && ((y.shared.fAllOk && w.fOk) ==> AllOk(y.completed + w.batch))
            && (!(y.shared.fAllOk && w.fOk) ==> !AllOk(y.round))
  {
    var w := y.threads[t];
    assert GoodThread(w, y.round);
    assert w.batch[..w.done] == w.batch;
  }

  /** The other threads, after the master may have been notified. */
  function Others(y: System, t: nat): seq<Thread>
    requires Enabled(y, Settle(t))
  {
    Settled(y, t).0.threads[t := Outside]
  }

  lemma OthersAre(y: System, t: nat)
    requires Enabled(y, Settle(t))
    ensures |Others(y, t)| == |y.threads|
    ensures forall i | 0 <= i < |y.threads| && i != t ::
              Others(y, t)[i] == y.threads[i] || (i == 0 && y.threads[i].Asleep? && Others(y, t)[i] == Asleep(true))
    ensures t != 0 && y.threads[0].Asleep? && Settled(y, t).1.nTodo == 0 ==> Others(y, t)[0] == Asleep(true)
  {}

  lemma SettledTruthful(y: System, t: nat)
    requires Inv(y) && Enabled(y, Settle(t))
    ensures Truthful(y.round, Settled(y, t).1, Others(y, t), Settled(y, t).0.completed)
  {
    SettledVerdict(y, t);
    OthersAre(y, t);
    forall i | 0 <= i < |y.threads| ensures GoodThread(Others(y, t)[i], y.round) { assert GoodThread(y.threads[i], y.round); }
  }

  lemma SettleInside(y: System, t: nat)
    requires Inv(y) && Enabled(y, Settle(t))
    ensures Inside(Settled(y, t).0, Settled(y, t).1, t)
  {
    TakeOut(y.threads, t);
    OthersAre(y, t);
    NotifyKeepsSums(y.threads[t := Outside], Others(y, t), |y.threads|);
    SettledAccounts(y, t, Others(y, t));
    SettledTruthful(y, t);
    assert MasterServed(Settled(y, t).1, Others(y, t)) by { SettledServed(y, t); }
  }

  /** Settling more than there is to do would break the accounts; at nothing left, the master is told. */
  lemma SettledServed(y: System, t: nat)
    requires Inv(y) && Enabled(y, Settle(t))
    ensures MasterServed(Settled(y, t).1, Others(y, t))
  {
    OthersAre(y, t);
    HeldCovers(y.threads, t);
  }

  lemma SettledAccounts(y: System, t: nat, rest: seq<Thread>)
    requires Inv(y) && Enabled(y, Settle(t))
    requires Held(y.threads) == Held(rest) + multiset(y.threads[t].batch)
    requires CountAsleep(y.threads) == CountAsleep(rest) && CountWorking(y.threads) == CountWorking(rest) + 1
    ensures var (z, s) := Settled(y, t); Accounted(s, rest, 1) && Conserved(z.round, s, rest, z.completed)
  {
    var w := y.threads[t];
    assert multiset(y.completed + w.batch) == multiset(y.completed) + multiset(w.batch);
    assert |multiset(w.batch)| == |w.batch|;
    assert |Held(y.threads)| == |Held(rest)| + |w.batch|;
  }

  lemma MoreChecks(round: seq<Check>, checks: seq<Check>)
    ensures !AllOk(round) ==> !AllOk(round + checks)
  {
    if !AllOk(round) {
      var i :| 0 <= i < |round| && !round[i].ok;
      assert (round + checks)[i] == round[i];
    }
  }

  lemma AddTruthful(y: System, checks: seq<Check>, woken: seq<nat>)
    requires Inv(y) && Enabled(y, Add(checks, woken))
    ensures Truthful(y.round + checks, AddChecks(y.shared, checks), NotifyWorkers(y.threads, woken), y.completed)
  {
    MoreChecks(y.round, checks);
    var threads := NotifyWorkers(y.threads, woken);
    forall i | 0 <= i < |threads| ensures GoodThread(threads[i], y.round + checks) { assert GoodThread(y.threads[i], y.round); }
  }

  lemma AddKeeps(y: System, checks: seq<Check>, woken: seq<nat>)
    requires Inv(y) && Enabled(y, Add(checks, woken))
    ensures Inv(Next(y, Add(checks, woken)))
  {
    NotifyKeepsSums(y.threads, NotifyWorkers(y.threads, woken), |y.threads|);
    AddTruthful(y, checks, woken);
  }

  /** Every action keeps the invariant. */
  lemma NextKeeps(y: System, a: Action)
    requires Inv(y) && Enabled(y, a)
    ensures Counters(y.shared) && (a.WakeUp? ==> y.shared.nIdle >= 1)
    ensures Inv(Next(y, a))
  {
    match a
    case Start(t) => StartInside(y, t); ProceedKeeps(y, Enter(y.shared), t);
    case Execute(t) => ExecuteKeeps(y, t);
    case Settle(t) => SettleInside(y, t); ProceedKeeps(Settled(y, t).0, Settled(y, t).1, t);
    case WakeUp(t) => WakeInside(y, t); ProceedKeeps(y, Wake(y.shared), t);
    case Add(checks, woken) => AddKeeps(y, checks, woken);
  }

  // ---- Runs ------------------------------------------------------------------------------

  predicate Possible(y: System, a: Action) {
    Enabled(y, a) && Counters(y.shared) && (a.WakeUp? ==> y.shared.nIdle >= 1)
  }

  /** A run: the states passed through, and the action taken in each of them but the last. */
  ghost predicate IsRun(states: seq<System>, actions: seq<Action>) {
    && |states| == |actions| + 1
    && states[0].threads != [] && states[0] == Init(states[0].shared.nBatchSize, |states[0].threads|)
    && forall i | 0 <= i < |actions| :: Possible(states[i], actions[i]) && states[i + 1] == Next(states[i], actions[i])
  }

  lemma {:induction false} InitSums(threads: seq<Thread>, n: nat)
    requires n <= |threads| && forall t | 0 <= t < |threads| :: threads[t] == Outside
    ensures HeldBy(threads, n) == multiset{}
    ensures CountFirst(threads, n, (t: Thread) => t.Working?) == 0 && CountFirst(threads, n, (t: Thread) => t.Asleep?) == 0
  {
    if n > 0 { InitSums(threads, n - 1); }
  }

  lemma {:induction false} RunKeeps(states: seq<System>, actions: seq<Action>, i: nat)
    requires IsRun(states, actions) && i < |states|
    ensures Inv(states[i])
  {
    if i == 0 {
      InitSums(states[0].threads, |states[0].threads|);
    } else {
      RunKeeps(states, actions, i - 1);
      NextKeeps(states[i - 1], actions[i - 1]);
    }
  }

  predicate ByMaster(a: Action) { !a.Add? && a.t == 0 }

  /** The i-th action ends a call of Wait. */
  ghost predicate Returns(states: seq<System>, actions: seq<Action>, i: nat)
    requires IsRun(states, actions) && i < |actions|
  {
    ByMaster(actions[i]) && !actions[i].Execute? && states[i + 1].threads[0].Outside?
  }

  /** The checks added since the last time Wait returned. */
  ghost function AddedSince(states: seq<System>, actions: seq<Action>, i: nat): seq<Check>
    requires IsRun(states, actions) && i < |states|
  {
    if i == 0 then []
    else if Returns(states, actions, i - 1) then []
    else if actions[i - 1].Add? then AddedSince(states, actions, i - 1) + actions[i - 1].checks
    else AddedSince(states, actions, i - 1)
  }

  /** A thread that goes on ends the round exactly when it is the master and leaves. */
  lemma ProceedRound(y: System, s: Shared, t: nat)
    requires t < |y.threads| && Counters(s)
    ensures var z := Proceed(y, s, t);
            z.round == if t == 0 && z.threads[0].Outside? then [] else y.round
  {}

  lemma RoundStep(y: System, a: Action)
    requires Inv(y) && Possible(y, a)
    ensures Next(y, a).round ==
            if ByMaster(a) && !a.Execute? && Next(y, a).threads[0].Outside? then []
            else if a.Add? then y.round + a.checks else y.round
  {
    match a
    case Start(t) => ProceedRound(y, Enter(y.shared), t);
    case Execute(t) =>
    case Settle(t) => ProceedRound(Settled(y, t).0, Settled(y, t).1, t);
    case WakeUp(t) => ProceedRound(y, Wake(y.shared), t);
    case Add(checks, woken) =>
  }

  lemma {:induction false} RoundIsAdded(states: seq<System>, actions: seq<Action>, i: nat)
    requires IsRun(states, actions) && i < |states|
    ensures states[i].round == AddedSince(states, actions, i)
  {
    if i > 0 {
      RoundIsAdded(states, actions, i - 1);
      RunKeeps(states, actions, i - 1);
      RoundStep(states[i - 1], actions[i - 1]);
    }
  }

  lemma ReturnVerdict(y: System, a: Action)
    requires Inv(y) && Possible(y, a) && ByMaster(a) && !a.Execute? && Next(y, a).threads[0].Outside?
    ensures Next(y, a).result == AllOk(y.round)
  {
    hide Accounted, Conserved, Truthful, MasterServed, AllOk, Finish, Held;
    match a
    case Start(t) => StartInside(y, 0); ChooseReturn(y, Enter(y.shared));
    case Settle(t) => SettleInside(y, 0); ChooseReturn(Settled(y, 0).0, Settled(y, 0).1);
    case WakeUp(t) => WakeInside(y, 0); ChooseReturn(y, Wake(y.shared));
  }

  /** Wait returns true exactly when every check added since the previous Wait is true, in every
    * interleaving and in every round. */
  lemma WaitResult(states: seq<System>, actions: seq<Action>, i: nat)
    requires IsRun(states, actions) && i < |actions| && Returns(states, actions, i)
    ensures states[i + 1].result <==> AllOk(AddedSince(states, actions, i))
  {
    RunKeeps(states, actions, i);
    RoundIsAdded(states, actions, i);
    ReturnVerdict(states[i], actions[i]);
  }

  /** Each check added is at every moment in exactly one place: queued, in one thread's batch, or
    * accounted for. */
  lemma TakenOnce(states: seq<System>, actions: seq<Action>, i: nat)
    requires IsRun(states, actions) && i < |states|
    ensures multiset(AddedSince(states, actions, i)) ==
            multiset(states[i].shared.queue) + Held(states[i].threads) + multiset(states[i].completed)
  {
    RunKeeps(states, actions, i);
    RoundIsAdded(states, actions, i);
  }

  lemma {:induction false} RoundGrows(states: seq<System>, actions: seq<Action>, j: nat, k: nat)
    requires IsRun(states, actions) && j <= k <= |actions|
    requires forall i | j <= i < k :: !Returns(states, actions, i)
    ensures !AllOk(states[j].round) ==> !AllOk(states[k].round)
    decreases k
  {
    if j < k {
      RoundGrows(states, actions, j, k - 1);
      assert !Returns(states, actions, k - 1);
      RunKeeps(states, actions, k - 1);
      RoundStep(states[k - 1], actions[k - 1]);
      if actions[k - 1].Add? { MoreChecks(states[k - 1].round, actions[k - 1].checks); }
    }
  }

  /** If a check is skipped instead of executed, the round it belongs to ends with result false. */
  lemma SkippedMeansFalse(states: seq<System>, actions: seq<Action>, j: nat, k: nat)
    requires IsRun(states, actions) && j < k < |actions|
    requires actions[j].Execute? && !states[j].threads[actions[j].t].fOk
    requires (forall i | j <= i < k :: !Returns(states, actions, i)) && Returns(states, actions, k)
    ensures !states[k + 1].result
  {
    RunKeeps(states, actions, j);
    assert GoodThread(states[j].threads[actions[j].t], states[j].round);
    RoundGrows(states, actions, j, k);
    RunKeeps(states, actions, k);
    ReturnVerdict(states[k], actions[k]);
  }

  // ---- No lost wake-up, idleness ---------------------------------------------------------

  /** A master asleep without a pending notification is owed one: some worker holds a batch. */
  lemma NoLostWakeup(y: System) returns (t: nat)
    requires Inv(y) && y.threads[0] == Asleep(false)
    ensures 0 < t < |y.threads| && y.threads[t].Working?
  {
    t := HeldBySomeone(y.threads, |y.threads|);
  }

  /** Seen from outside the loop, the queue is idle exactly when nothing is outstanding and every
    * check of the round has passed; in particular it is idle after every Wait. */
  lemma IdleIff(y: System)
    requires Inv(y) && y.threads[0].Outside?
    ensures IsIdle(y.shared) <==> y.shared.queue == [] && NoneWorking(y.threads) && AllOk(y.round)
    ensures y.round == [] ==> IsIdle(y.shared)
  {
    if IsIdle(y.shared) {
      forall t | 0 <= t < |y.threads| ensures !y.threads[t].Working? {
        if y.threads[t].Working? { HeldCovers(y.threads, t); }
      }
      AllOkByMultiset(y.round, y.completed);
    }
    if y.shared.queue == [] && NoneWorking(y.threads) { NoneHeld(y.threads, |y.threads|); }
    if y.round == [] {
      assert |multiset(y.round)| == |y.shared.queue| + |Held(y.threads)| + |y.completed|;
      forall t | 0 <= t < |y.threads| ensures !y.threads[t].Working? {
        if y.threads[t].Working? { HeldCovers(y.threads, t); }
      }
      NoneHeld(y.threads, |y.threads|);
    }
  }

  lemma {:induction false} NoneHeld(threads: seq<Thread>, n: nat)
    requires n <= |threads| && NoneWorking(threads)
    ensures HeldBy(threads, n) == multiset{} && CountFirst(threads, n, (t: Thread) => t.Working?) == 0
  {
    if n > 0 { NoneHeld(threads, n - 1); }
  }

  // ---- Wait terminates -------------------------------------------------------------------

  function Remaining(threads: seq<Thread>, n: nat): nat
    requires n <= |threads|
  {
    if n == 0 then 0
    else Remaining(threads, n - 1) +
         (if threads[n - 1].Working? && threads[n - 1].done < |threads[n - 1].batch|
          then |threads[n - 1].batch| - threads[n - 1].done else 0)
  }

  /** Workers that have not started yet, and notified sleepers. */
  function Due(threads: seq<Thread>, n: nat): nat
    requires n <= |threads|
  {
    if n == 0 then 0
    else Due(threads, n - 1) + (if threads[n - 1] == Asleep(true) || (n > 1 && threads[n - 1].Outside?) then 1 else 0)
  }

  /** What the threads do by themselves: no new work, no new call of Wait, no spurious wake-up. */
  predicate Internal(y: System, a: Action) { Enabled(y, a) && Genuine(y, a) && !a.Add? && a != Start(0) }

  ghost predicate Before(y: System, z: System) {
    || |z.shared.queue| < |y.shared.queue|
    || (|z.shared.queue| == |y.shared.queue| &&
        var ry, rz := Remaining(y.threads, |y.threads|), Remaining(z.threads, |z.threads|);
        || rz < ry
        || (rz == ry && (|| CountWorking(z.threads) < CountWorking(y.threads)
                         || (CountWorking(z.threads) == CountWorking(y.threads)
                             && Due(z.threads, |z.threads|) < Due(y.threads, |y.threads|)))))
  }

  lemma {:induction false} ProgressSums(threads: seq<Thread>, t: nat, x: Thread, n: nat)
    requires t < |threads| && n <= |threads|
    ensures var z := threads[t := x];
            var part := (w: Thread) => if w.Working? && w.done < |w.batch| then |w.batch| - w.done else 0;
            var due := (w: Thread) => if w == Asleep(true) || (t > 0 && w.Outside?) then 1 else 0;
            && Remaining(z, n) == Remaining(threads, n) + (if t < n then part(x) - part(threads[t]) else 0)
            && Due(z, n) == Due(threads, n) + (if t < n then due(x) - due(threads[t]) else 0)
  {
    if n > 0 { ProgressSums(threads, t, x, n - 1); }
  }

  lemma CountsOverwrite(threads: seq<Thread>, t: nat, x: Thread)
    requires t < |threads|
    ensures CountWorking(threads[t := x]) ==
            CountWorking(threads) - (if threads[t].Working? then 1 else 0) + (if x.Working? then 1 else 0)
  {
    TakeOut(threads, t);
    Overwrite(threads, t, x);
    PutSums(threads[t := Outside], t, x);
  }

  /** A thread that has settled its batch: the queue shrinks, or the thread is no longer working. */
  lemma SettleProgress(y: System, t: nat)
    requires Inv(y) && Internal(y, Settle(t)) && Possible(y, Settle(t))
    ensures Before(y, Next(y, Settle(t)))
  {
    hide Inv, Remaining, Due, CountWorking;
    var z := Next(y, Settle(t));
    var (w, s) := Settled(y, t);
    if s.queue == [] {
      ProgressSums(w.threads, t, z.threads[t], |y.threads|);
      CountsOverwrite(w.threads, t, z.threads[t]);
      NotifyProgress(y.threads, w.threads);
    }
  }

  lemma ExecuteProgress(y: System, t: nat)
    requires Inv(y) && Internal(y, Execute(t)) && Possible(y, Execute(t))
    ensures Before(y, Next(y, Execute(t)))
  {
    hide Inv, Remaining, Due, CountWorking;
    StepProgress(y, Next(y, Execute(t)), t);
  }

  /** A worker that starts, or a thread that wakes up after a notification, takes work or goes to sleep. */
  lemma ChooseProgress(y: System, a: Action)
    requires Inv(y) && Internal(y, a) && Possible(y, a) && (a.Start? || a.WakeUp?)
    ensures Before(y, Next(y, a))
  {
    hide Inv, Remaining, Due, CountWorking;
    StepProgress(y, Next(y, a), a.t);
  }

  /** Every internal action makes progress, however the threads are scheduled. */
  lemma InternalProgress(y: System, a: Action)
    requires Inv(y) && Internal(y, a) && Possible(y, a)
    ensures Before(y, Next(y, a))
  {
    hide Inv, Internal, Possible, Before, Next;
    match a
    case Settle(t) => SettleProgress(y, t);
    case Start(_) => ChooseProgress(y, a);
    case Execute(t) => ExecuteProgress(y, t);
    case WakeUp(_) => ChooseProgress(y, a);
    case Add(_, _) => NoAdd(y, a);
  }

  lemma NoAdd(y: System, a: Action)
    requires Internal(y, a)
    ensures !a.Add?
  {}

  lemma StepProgress(y: System, z: System, t: nat)
    requires t < |y.threads| == |z.threads| && z.threads == y.threads[t := z.threads[t]]
    ensures CountWorking(z.threads) ==
            CountWorking(y.threads) - (if y.threads[t].Working? then 1 else 0) + (if z.threads[t].Working? then 1 else 0)
    ensures var part := (w: Thread) => if w.Working? && w.done < |w.batch| then |w.batch| - w.done else 0;
            var due := (w: Thread) => if w == Asleep(true) || (t > 0 && w.Outside?) then 1 else 0;
            && Remaining(z.threads, |z.threads|) == Remaining(y.threads, |y.threads|) + part(z.threads[t]) - part(y.threads[t])
            && Due(z.threads, |z.threads|) == Due(y.threads, |y.threads|) + due(z.threads[t]) - due(y.threads[t])
  {
    ProgressSums(y.threads, t, z.threads[t], |y.threads|);
    CountsOverwrite(y.threads, t, z.threads[t]);
  }

  lemma NotifyProgress(a: seq<Thread>, b: seq<Thread>)
    requires a != [] && (b == a || b == NotifyMaster(a))
    ensures CountWorking(a) == CountWorking(b) && Remaining(a, |a|) == Remaining(b, |b|)
  {
    if b != a {
      ProgressSums(a, 0, Asleep(true), |a|);
      CountsOverwrite(a, 0, Asleep(true));
    }
  }

  /** While the master is inside Wait some thread can act by itself: there is no deadlock. */
  lemma NoDeadlock(y: System) returns (a: Action)
    requires Inv(y) && !y.threads[0].Outside?
    ensures Internal(y, a)
  {
    var t := 0;
    if y.threads[0] == Asleep(false) { t := NoLostWakeup(y); }
    if y.threads[t].Asleep? { return WakeUp(t); }
    a := if y.threads[t].done < |y.threads[t].batch| then Execute(t) else Settle(t);
  }

  ghost predicate Schedules(pick: (nat, System) -> Action) {
    forall n: nat, y: System :: Inv(y) && !y.threads[0].Outside? ==> Internal(y, pick(n, y))
  }

  ghost function Scheduled(pick: (nat, System) -> Action, n: nat, y: System, steps: nat): System
    requires Schedules(pick) && Inv(y)
    decreases steps
  {
    if steps == 0 || y.threads[0].Outside? then y
    else
      NextKeeps(y, pick(n, y));
      Scheduled(pick, n + 1, Next(y, pick(n, y)), steps - 1)
  }

  lemma NextScheduled(pick: (nat, System) -> Action, n: nat, y: System) returns (z: System)
    requires Schedules(pick) && Inv(y) && !y.threads[0].Outside?
    ensures Internal(y, pick(n, y)) && Possible(y, pick(n, y)) && z == Next(y, pick(n, y))
    ensures Inv(z) && Before(y, z)
  {
    hide Before, Next, Choose, Accounted, Conserved, Truthful;
    var a := pick(n, y);
    NextKeeps(y, a);
    InternalProgress(y, a);
    z := Next(y, a);
  }

  lemma ScheduledStep(pick: (nat, System) -> Action, n: nat, y: System, steps: nat)
    requires Schedules(pick) && Inv(y) && !y.threads[0].Outside?
    requires Internal(y, pick(n, y)) && Possible(y, pick(n, y)) && Inv(Next(y, pick(n, y)))
    ensures Scheduled(pick, n, y, steps + 1) == Scheduled(pick, n + 1, Next(y, pick(n, y)), steps)
  {
    hide Next, Accounted, Conserved, Truthful, Schedules;
  }

  /** Wait returns under every scheduling of the threads, after finitely many steps. */
  lemma {:induction false} WaitReturns(pick: (nat, System) -> Action, n: nat, y: System) returns (steps: nat)
    requires Schedules(pick) && Inv(y)
    ensures Scheduled(pick, n, y, steps).threads != [] && Scheduled(pick, n, y, steps).threads[0].Outside?
    decreases |y.shared.queue|, Remaining(y.threads, |y.threads|), CountWorking(y.threads), Due(y.threads, |y.threads|)
  {
    hide Remaining, Due, CountWorking, Schedules, Accounted, Conserved, Truthful, Next, Internal, Possible;
    if y.threads[0].Outside? { return 0; }
    var z := NextScheduled(pick, n, y);
    steps := WaitReturns(pick, n + 1, z);
    ScheduledStep(pick, n, y, steps);
    steps := steps + 1;
  }

  // ---- How much a thread takes --------------------------------------------------------------

  /** A thread takes the largest batch that, if everybody took as much, would leave some for one more; but at most
    * nBatchSize, and at least one check. */
  lemma BatchSizeIs(s: Shared, n: nat)
    requires s.queue != [] && Counters(s)
    ensures var share := n * (s.nTotal + s.nIdle + 1);
            n == BatchSize(s) <==>
            n >= 1
            && (n == 1 || (n <= s.nBatchSize && share <= |s.queue|))
            && (n >= s.nBatchSize || (n + 1) * (s.nTotal + s.nIdle + 1) > |s.queue|)
  {
    var d := s.nTotal + s.nIdle + 1;
    var q := |s.queue| / d;
    QuotientIs(|s.queue|, d, n);
    QuotientIs(|s.queue|, d, n + 1);
  }

  lemma QuotientIs(x: nat, d: nat, n: nat)
    requires d >= 1
    ensures n * d <= x <==> n <= x / d
  {
    assert x == d * (x / d) + x % d;
    if n <= x / d { assert n * d <= (x / d) * d; } else { assert n * d >= (x / d + 1) * d; }
  }
}
