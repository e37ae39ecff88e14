/** The shared fields of CCheckQueue as an object whose methods are the critical sections of Loop,
  * and the controller that owns one use of the queue.
  */
module CheckQueues {
  import opened CheckQueueSpec
  import opened CheckQueueProof

  class CheckQueue {
    var queue: seq<Check>
    var nIdle: int
    var nTotal: int
    var nTodo: int
    var fAllOk: bool
    const nBatchSize: nat

    function Fields(): Shared
      reads this
    {
      Shared(queue, nIdle, nTotal, nTodo, fAllOk, nBatchSize)
    }

    constructor (nBatchSize: nat)
      ensures Fields() == Init(nBatchSize, 0).shared
    {
      queue, nIdle, nTotal, nTodo, fAllOk := [], 0, 0, 0, true;
      this.nBatchSize := nBatchSize;
    }

    /** Move checks from the back of the queue into a local batch. */
    method TakeBatch(nNow: nat) returns (vChecks: seq<Check>)
      requires nNow <= |queue|
      modifies this`queue
      ensures queue == old(queue)[..|old(queue)| - nNow]
      ensures vChecks == Reverse(old(queue)[|old(queue)| - nNow..])
    {
      vChecks := [];
      ghost var all := queue;
      for i := 0 to nNow
        invariant queue == all[..|all| - i]
        invariant vChecks == Reverse(all[|all| - i..])
      {
        ghost var cut := |all| - i;
        ReversePrepend(all[cut - 1], all[cut..]);
        assert all[cut - 1..] == [all[cut - 1]] + all[cut..];
        vChecks := vChecks + [queue[|queue| - 1]];
        queue := queue[..|queue| - 1];
      }
    }

    /** The inner loop of the critical section, up to waiting, returning or leaving with work. */
    method ChooseWork(fMaster: bool) returns (outcome: Outcome)
      requires Counters(Fields())
      modifies this
      ensures (Fields(), outcome) == Choose(old(Fields()), fMaster)
    {
      if |queue| == 0 {
        if fMaster && nTodo == 0 {
          nTotal := nTotal - 1;
          var fRet := fAllOk;
          if fMaster { fAllOk := true; }
          return Return(fRet);
        }
        nIdle := nIdle + 1;
        return Sleep;
      }
      var nNow := BatchSize(Fields());
      var fOk := fAllOk;
      var vChecks := TakeBatch(nNow);
      outcome := Take(vChecks, fOk);
    }

    /** A thread enters the loop for the first time. */
    method Begin(fMaster: bool) returns (outcome: Outcome)
      requires Counters(Fields())
      modifies this
      ensures (Fields(), outcome) == Choose(Enter(old(Fields())), fMaster)
    {
      nTotal := nTotal + 1;
      outcome := ChooseWork(fMaster);
    }

    /** A thread comes back with a finished batch; the master is notified of the last one. */
    method Account(fMaster: bool, nNow: nat, fOk: bool) returns (outcome: Outcome, notifyMaster: bool)
      requires Counters(Fields())
      modifies this
      ensures var s := Finish(old(Fields()), nNow, fOk);
              (Fields(), outcome) == Choose(s, fMaster) && notifyMaster == (s.nTodo == 0 && !fMaster)
    {
      fAllOk := fAllOk && fOk;
      nTodo := nTodo - nNow;
      notifyMaster := nTodo == 0 && !fMaster;
      outcome := ChooseWork(fMaster);
    }

    /** A thread returns from waiting on its condition variable. */
    method Awake(fMaster: bool) returns (outcome: Outcome)
      requires Counters(Fields()) && nIdle >= 1
      modifies this
      ensures (Fields(), outcome) == Choose(Wake(old(Fields())), fMaster)
    {
      nIdle := nIdle - 1;
      outcome := ChooseWork(fMaster);
    }

    /** Execute a batch outside the lock: after a failure the rest is skipped. */
    method ExecuteBatch(vChecks: seq<Check>, fOk0: bool) returns (fOk: bool)
      ensures fOk <==> fOk0 && AllOk(vChecks)
    {
      fOk := fOk0;
      for i := 0 to |vChecks|
        invariant fOk <==> fOk0 && AllOk(vChecks[..i])
      {
        assert vChecks[..i + 1] == vChecks[..i] + [vChecks[i]];
        assert AllOk(vChecks[..i + 1]) <==> AllOk(vChecks[..i]) && vChecks[i].ok by {
          if AllOk(vChecks[..i]) { PrefixAllOk(vChecks, i, true); }
          if AllOk(vChecks[..i + 1]) {
            forall k | 0 <= k < i ensures vChecks[..i][k].ok { assert vChecks[..i + 1][k] == vChecks[..i][k]; }
          }
        }
        if fOk { fOk := vChecks[i].ok; }
      }
      assert vChecks[..|vChecks|] == vChecks;
    }

    method Add(vChecks: seq<Check>)
      modifies this
      ensures Fields() == AddChecks(old(Fields()), vChecks)
    {
      for i := 0 to |vChecks|
        invariant Fields() == old(Fields()).(queue := old(queue) + vChecks[..i])
      {
        queue := queue + [vChecks[i]];
      }
      assert vChecks[..|vChecks|] == vChecks;
      nTodo := nTodo + |vChecks|;
    }

    /** What a new control asserts about the queue. Seen from outside the loop, in a state y of the
      * whole system, it holds exactly when nothing is outstanding and every check since the last Wait
      * has passed. */
    method CheckIdle(ghost y: System) returns (idle: bool)
      requires Inv(y) && y.shared == Fields() && y.threads[0].Outside?
      ensures idle <==> queue == [] && NoneWorking(y.threads) && AllOk(y.round)
    {
      IdleIff(y);
      idle := nTotal == nIdle && nTodo == 0 && fAllOk;
    }
  }

  lemma {:induction false} ReversePrepend<T>(x: T, s: seq<T>)
    ensures Reverse([x] + s) == Reverse(s) + [x]
    decreases |s|
  {
    if s != [] {
      assert ([x] + s)[..|s|] == [x] + s[..|s| - 1];
      ReversePrepend(x, s[..|s| - 1]);
    }
  }

  // ---- The controller --------------------------------------------------------------------

  /** CCheckQueueControl: created idle, used by Add and Wait, and waiting on destruction unless a
    * Wait has already returned. */
  datatype Control = NoControl | Control(fDone: bool)

  datatype Client = Client(system: System, control: Control)

  datatype Call =
    | Create
    | Destroy
    | Do(a: Action)

  /** What the code allows: Add does not look at fDone. The destructor's Wait is a Do(Start(0)). */
  ghost predicate Allowed(c: Client, call: Call) {
    match call
    case Create => c.control == NoControl && c.system.threads != [] && c.system.threads[0].Outside?
    case Destroy => c.control == Control(true) && c.system.threads != [] && c.system.threads[0].Outside?
    case Do(a) => Possible(c.system, a) && (a.Add? || a == Start(0) ==> c.control.Control?)
  }

  /** Clients that add no check to a control they have already waited on. */
  predicate Disciplined(c: Client, call: Call) {
    call.Do? && call.a.Add? ==> c.control == Control(false) || call.a.checks == []
  }

  ghost function After(c: Client, call: Call): Client
    requires c.system.threads != [] && Allowed(c, call)
  {
    match call
    case Create => c.(control := Control(false))
    case Destroy => c.(control := NoControl)
    case Do(a) =>
      var z := Next(c.system, a);
      var returned := ByMaster(a) && !a.Execute? && z.threads[0].Outside?;
      Client(z, if returned && c.control.Control? then Control(true) else c.control)
  }

  ghost predicate Tidy(c: Client) {
    && Inv(c.system)
    && (c.control != Control(false) ==> c.system.round == [])
    && (c.control == NoControl ==> c.system.threads[0].Outside?)
  }

  lemma TidyKept(c: Client, call: Call)
    requires Tidy(c) && Allowed(c, call) && Disciplined(c, call)
    ensures Tidy(After(c, call))
  {
    if call.Do? {
      NextKeeps(c.system, call.a);
      RoundStep(c.system, call.a);
      if c.control == NoControl { MasterStaysOut(c.system, call.a); }
    }
  }

  lemma MasterStaysOut(y: System, a: Action)
    requires Inv(y) && Possible(y, a) && y.threads[0].Outside? && a != Start(0)
    ensures Next(y, a).threads[0].Outside?
  {
    hide Accounted, Conserved, Truthful, Choose, AllOk;
  }

  /** Everything the code allows, whatever the client does and however the threads are scheduled. */
  ghost predicate ClientRun(states: seq<Client>, calls: seq<Call>) {
    && |states| == |calls| + 1
    && states[0].system.threads != [] && states[0].control == NoControl
    && states[0].system == Init(states[0].system.shared.nBatchSize, |states[0].system.threads|)
    && forall i | 0 <= i < |calls| ::
         && states[i].system.threads != [] && Allowed(states[i], calls[i])
         && states[i + 1] == After(states[i], calls[i])
  }

  ghost predicate DisciplinedRun(states: seq<Client>, calls: seq<Call>) {
    ClientRun(states, calls) && forall i | 0 <= i < |calls| :: Disciplined(states[i], calls[i])
  }

  lemma {:induction false} ClientRunTidy(states: seq<Client>, calls: seq<Call>, i: nat)
    requires DisciplinedRun(states, calls) && i < |states|
    ensures Tidy(states[i])
  {
    if i == 0 {
      InitSums(states[0].system.threads, |states[0].system.threads|);
    } else {
      ClientRunTidy(states, calls, i - 1);
      TidyKept(states[i - 1], calls[i - 1]);
    }
  }

  /** The assertion in the constructor of a new control holds whenever one is created. */
  lemma CreatedIdle(states: seq<Client>, calls: seq<Call>, i: nat)
    requires DisciplinedRun(states, calls) && i < |calls| && calls[i] == Create
    ensures IsIdle(states[i].system.shared)
  {
    ClientRunTidy(states, calls, i);
    IdleIff(states[i].system);
  }

  /** Once a control has been waited on, an addition to it may be followed by letting go of it and by a
    * new control; the assertion of that one then holds if and only if the addition was empty: the
    * destructor does not wait a second time. */
  lemma AddAfterWaitIff(c: Client, checks: seq<Check>, woken: seq<nat>)
    requires Tidy(c) && c.control == Control(true) && Allowed(c, Do(Add(checks, woken)))
    ensures var d := After(c, Do(Add(checks, woken)));
            && Allowed(d, Destroy) && Allowed(After(d, Destroy), Create)
            && (IsIdle(After(d, Destroy).system.shared) <==> checks == [])
  {
    IdleIff(c.system);
  }

  /** A run with such an addition. */
  lemma AddAfterWaitBreaksNext(c: Check)
    ensures var c0 := Client(Init(1, 1), NoControl);
            var c1 := After(c0, Create);
            && Allowed(c0, Create) && Allowed(c1, Do(Start(0)))
            && var c2 := After(c1, Do(Start(0)));
            && c2.control == Control(true) && Allowed(c2, Do(Add([c], [])))
            && var c3 := After(c2, Do(Add([c], [])));
            && Allowed(c3, Destroy)
            && var c4 := After(c3, Destroy);
            && Allowed(c4, Create) && !IsIdle(c4.system.shared)
  {}

  // ---- What a client can rely on, by its own calls -----------------------------------------

  /** What the client itself does; Waited is the start of a Wait, that of a destructor included. */
  datatype Request = Created | LetGo | Waited | Added(checks: seq<Check>)

  function RequestOf(call: Call): seq<Request> {
    match call
    case Create => [Created]
    case Destroy => [LetGo]
    case Do(a) => if a == Start(0) then [Waited] else if a.Add? then [Added(a.checks)] else []
  }

  function Requests(calls: seq<Call>): seq<Request> {
    if calls == [] then [] else Requests(calls[..|calls| - 1]) + RequestOf(calls[|calls| - 1])
  }

  /** The checks added since the last Wait, by whatever control. */
  function Pending(requests: seq<Request>): seq<Check> {
    if requests == [] then [] else PendingWith(Pending(requests[..|requests| - 1]), requests[|requests| - 1])
  }

  function PendingWith(pending: seq<Check>, request: Request): seq<Check> {
    match request
    case Waited => []
    case Added(checks) => pending + checks
    case _ => pending
  }

  /** The same client can be scheduled in no way that breaks the assertion of the control it creates next. */
  ghost predicate AlwaysIdle(start: Client, requests: seq<Request>) {
    forall states: seq<Client>, calls: seq<Call>
      | ClientRun(states, calls) && states[0] == start && Requests(calls) == requests ::
      Allowed(states[|calls|], Create) ==> IsIdle(states[|calls|].system.shared)
  }

  function PendingAfter(pending: seq<Check>, call: Call): seq<Check> {
    if RequestOf(call) == [] then pending else PendingWith(pending, RequestOf(call)[0])
  }

  lemma PendingAppend(requests: seq<Request>, request: Request)
    ensures Pending(requests + [request]) == PendingWith(Pending(requests), request)
  {
    assert (requests + [request])[..|requests|] == requests;
  }

  lemma PendingStep(calls: seq<Call>)
    requires calls != []
    ensures Pending(Requests(calls)) == PendingAfter(Pending(Requests(calls[..|calls| - 1])), calls[|calls| - 1])
  {
    hide Pending;
    var call := calls[|calls| - 1];
    var before, request := Requests(calls[..|calls| - 1]), RequestOf(call);
    assert Requests(calls) == before + request;
    hide Requests;
    if request == [] {
      assert before + request == before;
    } else {
      PendingAppend(before, request[0]);
    }
  }

  /** Outside Wait, the round is what the client has added since its last Wait; inside it has added nothing. */
  ghost predicate RoundPending(c: Client, pending: seq<Check>) {
    && Inv(c.system)
    && (if c.system.threads[0].Outside? then c.system.round == pending else pending == [])
  }

  lemma RoundPendingKept(c: Client, call: Call, pending: seq<Check>)
    requires RoundPending(c, pending) && Allowed(c, call)
    ensures RoundPending(After(c, call), PendingAfter(pending, call))
  {
    hide Accounted, Conserved, Truthful, MasterServed, Next;
    if call.Do? {
      NextKeeps(c.system, call.a);
      RoundStep(c.system, call.a);
      if c.system.threads[0].Outside? && call.a != Start(0) { MasterStaysOut(c.system, call.a); }
      if !c.system.threads[0].Outside? { MasterComesOut(c.system, call.a); }
    }
  }

  /** Only the master itself ends a Wait, and not while it executes a check. */
  lemma MasterComesOut(y: System, a: Action)
    requires Inv(y) && Possible(y, a) && !y.threads[0].Outside?
    ensures Next(y, a).threads[0].Outside? ==> ByMaster(a) && !a.Execute?
  {
    hide Accounted, Conserved, Truthful, Choose, AllOk;
  }

  /** A run without its last call. */
  lemma RunPrefix(states: seq<Client>, calls: seq<Call>)
    requires ClientRun(states, calls) && calls != []
    ensures var n := |calls| - 1;
            && ClientRun(states[..n + 1], calls[..n])
            && states[n].system.threads != [] && Allowed(states[n], calls[n])
            && states[n + 1] == After(states[n], calls[n])
  {
    hide After, Allowed;
  }

  lemma RunExtend(states: seq<Client>, calls: seq<Call>, call: Call)
    requires ClientRun(states, calls) && states[|calls|].system.threads != [] && Allowed(states[|calls|], call)
    ensures ClientRun(states + [After(states[|calls|], call)], calls + [call])
    ensures Requests(calls + [call]) == Requests(calls) + RequestOf(call)
  {
    hide After, Allowed;
    assert (calls + [call])[..|calls|] == calls;
  }

  lemma {:induction false} RoundIsPending(states: seq<Client>, calls: seq<Call>)
    requires ClientRun(states, calls)
    ensures RoundPending(states[|calls|], Pending(Requests(calls)))
    decreases |calls|
  {
    hide After, Allowed;
    if calls == [] {
      InitSums(states[0].system.threads, |states[0].system.threads|);

    } else {
      RunPrefix(states, calls);
      RoundIsPending(states[..|calls|], calls[..|calls| - 1]);
      RoundPendingKept(states[|calls| - 1], calls[|calls| - 1], Pending(Requests(calls[..|calls| - 1])));
      PendingStep(calls);
    }
  }

  predicate MasterOutside(c: Client) { c.system.threads != [] && c.system.threads[0].Outside? }

  /** While checks are pending the master is outside, and only the client's requests change the control. */
  lemma MasterWasOut(c: Client, call: Call, pending: seq<Check>)
    requires RoundPending(c, pending) && Allowed(c, call)
    requires MasterOutside(After(c, call)) && PendingAfter(pending, call) != []
    requires !(call.Do? && call.a.Add? && call.a.checks != [])
    ensures MasterOutside(c) && pending != []
    ensures call.Do? ==> After(c, call).control == c.control
  {
    hide Accounted, Conserved, Truthful, Choose, AllOk;
  }

  /** The request of a call that adds nothing, made whoever is asleep. */
  function Again(call: Call): Call { if call.Do? then Do(Add([], [])) else call }

  lemma AgainAllowed(c: Client, d: Client, call: Call)
    requires MasterOutside(c) && MasterOutside(d) && d.control == c.control && Inv(d.system) && Allowed(c, call)
    requires call.Do? ==> call.a.Add? && call.a.checks == []
    ensures RequestOf(Again(call)) == RequestOf(call) && Allowed(d, Again(call))
    ensures var e := After(d, Again(call));
            e.control == After(c, call).control && MasterOutside(e) && e.system.shared == d.system.shared
  {
    hide Accounted, Conserved, Truthful, MasterServed, AllOk;
    NextKeeps(d.system, Add([], []));
  }

  /** While checks are pending the workers may be slow: there is a run with the same requests of the client
    * in which some check is still queued. After the last addition nobody but the client does anything. */
  lemma {:induction false} SlowWorkers(states: seq<Client>, calls: seq<Call>)
    returns (states': seq<Client>, calls': seq<Call>)
    requires ClientRun(states, calls) && MasterOutside(states[|calls|]) && Pending(Requests(calls)) != []
    ensures ClientRun(states', calls') && states'[0] == states[0] && Requests(calls') == Requests(calls)
    ensures var c, d := states[|calls|], states'[|calls'|];
            d.control == c.control && MasterOutside(d) && d.system.shared.queue != []
    decreases |calls|
  {
    hide After, Allowed, RoundPending, Pending;
    NonePending(calls);
    var n := |calls| - 1;
    var call := calls[n];
    RunPrefix(states, calls);
    PendingStep(calls);
    RoundIsPending(states[..n + 1], calls[..n]);
    if call.Do? && call.a.Add? && call.a.checks != [] {
      states', calls' := states, calls;
      AddedQueued(states[n], call);
    } else {
      MasterWasOut(states[n], call, Pending(Requests(calls[..n])));
      states', calls' := SlowWorkers(states[..n + 1], calls[..n]);
      var d := states'[|calls'|];
      if !call.Do? || call.a.Add? {
        RoundIsPending(states', calls');
        PendingMeansInv(d, Pending(Requests(calls')));
        AgainAllowed(states[n], d, call);
        RunExtend(states', calls', Again(call));
        states', calls' := states' + [After(d, Again(call))], calls' + [Again(call)];
      } else {
        assert RequestOf(call) == [];
      }
    }
  }

  lemma NonePending(calls: seq<Call>)
    ensures calls == [] ==> Pending(Requests(calls)) == []
  {}

  lemma AddedQueued(c: Client, call: Call)
    requires c.system.threads != [] && Allowed(c, call) && call.Do? && call.a.Add? && call.a.checks != []
    ensures After(c, call).system.shared.queue != []
  {}

  lemma PendingMeansInv(c: Client, pending: seq<Check>)
    requires RoundPending(c, pending)
    ensures Inv(c.system)
  {}

  lemma PendingNoneIdle(states: seq<Client>, calls: seq<Call>)
    requires ClientRun(states, calls) && Pending(Requests(calls)) == [] && Allowed(states[|calls|], Create)
    ensures IsIdle(states[|calls|].system.shared)
  {
    hide Requests;
    RoundIsPending(states, calls);
    IdleIff(states[|calls|].system);
  }

  /** The assertion in the constructor of the next control is safe if and only if the client has waited since
    * it last added checks: then it holds under every schedule, and otherwise some schedule breaks it. */
  lemma NextControlIff(states: seq<Client>, calls: seq<Call>)
    requires ClientRun(states, calls) && Allowed(states[|calls|], Create)
    ensures AlwaysIdle(states[0], Requests(calls)) <==> Pending(Requests(calls)) == []
  {
    if Pending(Requests(calls)) == [] {
      forall states': seq<Client>, calls': seq<Call>
        | ClientRun(states', calls') && states'[0] == states[0] && Requests(calls') == Requests(calls)
        ensures Allowed(states'[|calls'|], Create) ==> IsIdle(states'[|calls'|].system.shared)
      {
        if Allowed(states'[|calls'|], Create) { PendingNoneIdle(states', calls'); }
      }
    } else {
      var states', calls' := SlowWorkers(states, calls);
      RoundIsPending(states', calls');
      IdleIff(states'[|calls'|].system);
    }
  }
}
