/** The verification queue as a protocol: one master, any number of workers, one mutex and two
  * condition variables. Every step is one critical section, one check executed outside the lock,
  * or the arrival of work; a sleeping thread may also wake up for no reason.
  */
module CheckQueueSpec {

  /** A check and what calling it returns. */
  datatype Check = Check(id: nat, ok: bool)

  /** The fields protected by the mutex. */
  datatype Shared = Shared(queue: seq<Check>, nIdle: int, nTotal: int, nTodo: int, fAllOk: bool, nBatchSize: nat)

  datatype Outcome =
    | Sleep
    | Return(result: bool)
    | Take(batch: seq<Check>, fOk: bool)

  // ---- Critical sections -----------------------------------------------------------------

  function Min(a: int, b: int): int { if a < b then a else b }
  function Max(a: int, b: int): int { if a > b then a else b }

  /** How many checks a thread takes at once. */
  function BatchSize(s: Shared): (n: nat)
    requires s.queue != [] && s.nTotal >= 0 && s.nIdle >= 0
    ensures 1 <= n <= |s.queue|
  {
    Max(1, Min(s.nBatchSize, |s.queue| / (s.nTotal + s.nIdle + 1)))
  }

  function Reverse<T>(s: seq<T>): (r: seq<T>)
    ensures |r| == |s|
  {
    if s == [] then [] else [s[|s| - 1]] + Reverse(s[..|s| - 1])
  }

  /** The part of the critical section after the clean-up: take work, return, or go to sleep. */
  function Choose(s: Shared, fMaster: bool): (Shared, Outcome)
    requires s.nTotal >= 0 && s.nIdle >= 0
  {
    if s.queue == [] then
      if fMaster && s.nTodo == 0 then (s.(nTotal := s.nTotal - 1, fAllOk := true), Return(s.fAllOk))
      else (s.(nIdle := s.nIdle + 1), Sleep)
    else
      var n := BatchSize(s);
      (s.(queue := s.queue[..|s.queue| - n]), Take(Reverse(s.queue[|s.queue| - n..]), s.fAllOk))
  }

  function Enter(s: Shared): Shared { s.(nTotal := s.nTotal + 1) }

  function Finish(s: Shared, nNow: nat, fOk: bool): Shared {
    s.(fAllOk := s.fAllOk && fOk, nTodo := s.nTodo - nNow)
  }

  function Wake(s: Shared): Shared { s.(nIdle := s.nIdle - 1) }

  function AddChecks(s: Shared, checks: seq<Check>): Shared {
    s.(queue := s.queue + checks, nTodo := s.nTodo + |checks|)
  }

  predicate IsIdle(s: Shared) { s.nTotal == s.nIdle && s.nTodo == 0 && s.fAllOk }

  // ---- Threads and the whole system ------------------------------------------------------

  /** Outside the loop, asleep on the condition variable, or holding a batch of which some checks
    * remain to be executed. */
  datatype Thread =
    | Outside
    | Asleep(notified: bool)
    | Working(batch: seq<Check>, done: nat, fOk: bool)

  /** Thread 0 is the master. round lists the checks added since the last Wait returned, completed
    * those whose batch has been accounted for; result is what the last Wait returned. */
  datatype System = System(shared: Shared, threads: seq<Thread>, round: seq<Check>, completed: seq<Check>, result: bool)

  datatype Action =
    | Start(t: nat)                                 // a worker begins, or the master calls Wait
    | Execute(t: nat)                               // the next check of a batch, outside the lock
    | Settle(t: nat)                                // account for a finished batch, then choose again
    | WakeUp(t: nat)
    | Add(checks: seq<Check>, woken: seq<nat>)      // called by the master outside the loop

  function Put(threads: seq<Thread>, t: nat, outcome: Outcome): seq<Thread>
    requires t < |threads|
  {
    match outcome
    case Sleep => threads[t := Asleep(false)]
    case Return(_) => threads[t := Outside]
    case Take(batch, fOk) => threads[t := Working(batch, 0, fOk)]
  }

  function NotifyMaster(threads: seq<Thread>): seq<Thread>
    requires threads != []
  {
    if threads[0].Asleep? then threads[0 := Asleep(true)] else threads
  }

  function NotifyWorkers(threads: seq<Thread>, woken: seq<nat>): (r: seq<Thread>)
    ensures |r| == |threads|
  {
    seq(|threads|, t requires 0 <= t < |threads| => if threads[t].Asleep? && t in woken then Asleep(true) else threads[t])
  }

  /** notify_one reaches one sleeping worker if there is any; notify_all reaches all of them. */
  predicate WakesEnough(threads: seq<Thread>, count: nat, woken: seq<nat>) {
    && (forall t | t in woken :: 0 < t < |threads|)
    && (count == 0 ==> woken == [])
    && (count == 1 ==> |woken| <= 1 && (woken == [] ==> forall t | 0 < t < |threads| :: threads[t] != Asleep(false)))
    && (count > 1 ==> forall t | 0 < t < |threads| && threads[t].Asleep? :: t in woken)
  }

  predicate Enabled(y: System, a: Action) {
    match a
    case Start(t) => t < |y.threads| && y.threads[t].Outside?
    case Execute(t) => t < |y.threads| && y.threads[t].Working? && y.threads[t].done < |y.threads[t].batch|
    case Settle(t) => t < |y.threads| && y.threads[t].Working? && y.threads[t].done >= |y.threads[t].batch|
    case WakeUp(t) => t < |y.threads| && y.threads[t].Asleep?
    case Add(checks, woken) => y.threads != [] && y.threads[0].Outside? && WakesEnough(y.threads, |checks|, woken)
  }

  /** Everything but a wake-up without notification. */
  predicate Genuine(y: System, a: Action)
    requires Enabled(y, a)
  {
    a.WakeUp? ==> y.threads[a.t].notified
  }

  predicate Counters(s: Shared) { s.nTotal >= 0 && s.nIdle >= 0 }

  /** A thread at the end of its clean-up chooses what to do next; a Wait that returns ends the round. */
  function Proceed(y: System, s: Shared, t: nat): System
    requires t < |y.threads| && Counters(s)
  {
    var (s', outcome) := Choose(s, t == 0);
    var z := y.(shared := s', threads := Put(y.threads, t, outcome));
    if outcome.Return? then z.(round := [], completed := [], result := outcome.result) else z
  }

  function Next(y: System, a: Action): System
    requires Enabled(y, a) && Counters(y.shared)
    requires a.WakeUp? ==> y.shared.nIdle >= 1
  {
    match a
    case Start(t) => Proceed(y, Enter(y.shared), t)
    case Execute(t) =>
      var w := y.threads[t];
      y.(threads := y.threads[t := w.(done := w.done + 1, fOk := if w.fOk then w.batch[w.done].ok else false)])
    case Settle(t) =>
      var w := y.threads[t];
      var s := Finish(y.shared, |w.batch|, w.fOk);
      var threads := if s.nTodo == 0 && t != 0 then NotifyMaster(y.threads) else y.threads;
      Proceed(y.(threads := threads, completed := y.completed + w.batch), s, t)
    case WakeUp(t) => Proceed(y, Wake(y.shared), t)
    case Add(checks, woken) =>
      y.(shared := AddChecks(y.shared, checks), threads := NotifyWorkers(y.threads, woken), round := y.round + checks)
  }

  function Init(nBatchSize: nat, nThreads: nat): System {
    System(Shared([], 0, 0, 0, true, nBatchSize), seq(nThreads, i => Outside), [], [], true)
  }

  // ---- The invariant ---------------------------------------------------------------------

  function BatchOf(t: Thread): seq<Check> { if t.Working? then t.batch else [] }

  /** All checks taken from the queue whose batch has not been accounted for. */
  function Held(threads: seq<Thread>): multiset<Check> { HeldBy(threads, |threads|) }

  function HeldBy(threads: seq<Thread>, n: nat): multiset<Check>
    requires n <= |threads|
  {
    if n == 0 then multiset{} else HeldBy(threads, n - 1) + multiset(BatchOf(threads[n - 1]))
  }

  function CountWorking(threads: seq<Thread>): nat { CountFirst(threads, |threads|, (t: Thread) => t.Working?) }

  function CountAsleep(threads: seq<Thread>): nat { CountFirst(threads, |threads|, (t: Thread) => t.Asleep?) }

  function CountFirst(threads: seq<Thread>, n: nat, p: Thread -> bool): nat
    requires n <= |threads|
  {
    if n == 0 then 0 else CountFirst(threads, n - 1, p) + (if p(threads[n - 1]) then 1 else 0)
  }

  predicate AllOk(checks: seq<Check>) { forall i | 0 <= i < |checks| :: checks[i].ok }

  /** A batch in progress: while its flag is up, all checks executed so far have passed. */
  predicate GoodThread(t: Thread, round: seq<Check>) {
    t.Working? ==>
      && t.batch != [] && t.done <= |t.batch|
      && (t.fOk ==> AllOk(t.batch[..t.done]))
      && (!t.fOk ==> !AllOk(round))
  }

  /** Accounting, at every moment the mutex is free; inside counts a thread in its critical section. */
  ghost predicate Accounted(s: Shared, threads: seq<Thread>, inside: nat) {
    && s.nTodo == |s.queue| + |Held(threads)|
    && s.nIdle == CountAsleep(threads)
    && s.nTotal == CountAsleep(threads) + CountWorking(threads) + inside
  }

  /** Each check of the round is in exactly one place: the queue, a batch, or completed. */
  ghost predicate Conserved(round: seq<Check>, s: Shared, threads: seq<Thread>, completed: seq<Check>) {
    multiset(round) == multiset(s.queue) + Held(threads) + multiset(completed)
  }

  ghost predicate Truthful(round: seq<Check>, s: Shared, threads: seq<Thread>, completed: seq<Check>) {
    && (s.fAllOk ==> AllOk(completed))
    && (!s.fAllOk ==> !AllOk(round))
    && (forall t | 0 <= t < |threads| :: GoodThread(threads[t], round))
  }

  /** The master sleeps only on an empty queue, and un-notified only while work is outstanding. */
  ghost predicate MasterServed(s: Shared, threads: seq<Thread>) {
    && threads != []
    && (threads[0].Asleep? ==> s.queue == [])
    && (threads[0] == Asleep(false) ==> s.nTodo > 0)
  }

  ghost predicate Inv(y: System) {
    && MasterServed(y.shared, y.threads)
    && Accounted(y.shared, y.threads, 0)
    && Conserved(y.round, y.shared, y.threads, y.completed)
    && Truthful(y.round, y.shared, y.threads, y.completed)
  }
}
