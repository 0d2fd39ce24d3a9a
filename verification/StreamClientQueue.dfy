/**
 Deliveries are not lost on the way to the handler (client.go): a delivery frame that was dispatched is handled, in
 the worker's hand or queued, unless it met a full queue or was skipped because a context was done; and as long as
 no context is done every queued delivery can still be handled.
 */
module StreamClientQueue {
  import opened StreamClient
  import opened StreamClientProofs
  import opened StreamClientProgress
  import opened StreamClientTeardown
  import opened StreamClientRecovery

  // ----- the queue of a finished Run is empty -----

  predicate DrainedOk(s: State) {
    && (s.worker.NoWorker? || s.worker.Exited? ==> s.queue == [])
    && (s.worker.Exited? ==> s.run.QueueClosed?)
    && (!s.worker.NoWorker? && s.queueClosed ==> s.run.QueueClosed?)
  }

  lemma DrainedStart(s: State, t: CallId, step: StartStep)
    requires DrainedOk(s) && StartEnabled(s, t, step)
    ensures DrainedOk(StartNext(s, t, step))
  {
  }

  lemma DrainedCall(s: State, t: CallId, step: CallStep)
    requires DrainedOk(s) && CallEnabled(s, t, step)
    ensures DrainedOk(CallNext(s, t, step))
  {
    hide WaitsOn;
  }

  lemma DrainedSend(s: State, t: CallId, step: SendStep)
    requires DrainedOk(s) && SendEnabled(s, t, step)
    ensures DrainedOk(SendNext(s, t, step))
  {
  }

  lemma DrainedRun(s: State, step: RunStep)
    requires DrainedOk(s) && WorkerOk(s.run, s.worker) && RunEnabled(s, step)
    ensures DrainedOk(RunNext(s, step))
  {
  }

  lemma DrainedLoop(s: State, step: LoopStep)
    requires DrainedOk(s) && WorkerOk(s.run, s.worker) && LoopEnabled(s, step)
    ensures DrainedOk(LoopNext(s, step))
  {
  }

  lemma DrainedWorker(s: State, step: WorkerStep)
    requires DrainedOk(s) && WorkerEnabled(s, step)
    ensures DrainedOk(WorkerNext(s, step))
  {
  }

  lemma DrainedClose(s: State, step: CloseStep)
    requires DrainedOk(s) && WorkerOk(s.run, s.worker) && DispatchOk(s.run, s.closing, s.chans) && CloseEnabled(s, step)
    ensures DrainedOk(CloseNext(s, step))
  {
    hide CloseAll;
  }

  lemma DrainedControl(s: State, step: ControlStep)
    requires DrainedOk(s) && ControlEnabled(s, step)
    ensures DrainedOk(ControlNext(s, step))
  {
  }

  lemma DrainedStep(s: State, step: Step)
    requires DrainedOk(s) && WorkerOk(s.run, s.worker) && DispatchOk(s.run, s.closing, s.chans) && Enabled(s, step)
    ensures DrainedOk(Next(s, step))
  {
    hide StartNext, CallNext, SendNext, RunNext, LoopNext, WorkerNext, CloseNext, ControlNext, DrainedOk, WorkerOk, DispatchOk,
      StartEnabled, CallEnabled, SendEnabled, RunEnabled, LoopEnabled, WorkerEnabled, CloseEnabled, ControlEnabled;
    match step
    case ByStart(t, start) => DrainedStart(s, t, start);
    case ByCall(t, call) => DrainedCall(s, t, call);
    case BySender(t, send) => DrainedSend(s, t, send);
    case ByRun(r) => DrainedRun(s, r);
    case ByLoop(l) => DrainedLoop(s, l);
    case ByWorker(w) => DrainedWorker(s, w);
    case ByClose(c) => DrainedClose(s, c);
    case ByControl(k) => DrainedControl(s, k);
  }

  lemma {:induction false} RunIsDrained(states: seq<State>, steps: seq<Step>, n: nat)
    requires IsRun(states, steps) && n < |states|
    ensures DrainedOk(states[n])
  {
    hide Enabled, Next, SlotInv, ReceiptInv, QueueOk, ChansOk, RequestsOk, WaitersOk;
    if n > 0 {
      RunIsDrained(states, steps, n - 1);
      RunKeepsInv(states, steps, n - 1);
      DrainedStep(states[n - 1], steps[n - 1]);
    }
  }

  // ----- one step -----

  /** The delivery at position `i` is handled, in the worker's hand or queued. */
  predicate Kept(s: State, i: nat) {
    i in Pipeline(s.handled, s.worker, s.queue)
  }

  /** The step is the one that gives the delivery at position `i` up. */
  predicate GivesUp(s: State, step: Step, i: nat) {
    || (step.ByLoop? && step.l.DeliveryFrame? && i == |s.received| && |s.queue| == 256)
    || (step == ByWorker(Skip) && s.worker == Picked(i) && (s.ctxDone || s.workerCtxDone))
  }

  lemma KeptMeans(handled: seq<nat>, worker: Worker, queue: seq<nat>, i: nat)
    ensures i in Pipeline(handled, worker, queue) <==> i in handled || i in InHand(worker) || i in queue
  {
    var front := handled + InHand(worker);
    assert i in front <==> i in handled || i in InHand(worker);
    assert Pipeline(handled, worker, queue) == front + queue;
  }

  /** What is in hand is neither handled nor queued. */
  lemma InHandOnce(n: nat, handled: seq<nat>, worker: Worker, queue: seq<nat>, i: nat)
    requires QueueOk(n, handled, worker, queue) && InHand(worker) == [i]
    ensures i !in handled && i !in queue
  {
    var p := Pipeline(handled, worker, queue);
    assert p[|handled|] == i;
    forall k | 0 <= k < |handled|
      ensures handled[k] != i
    {
      assert p[k] == handled[k];
    }
    forall k | 0 <= k < |queue|
      ensures queue[k] != i
    {
      assert p[|handled| + 1 + k] == queue[k];
    }
  }

  lemma BelowAll(n: nat, handled: seq<nat>, worker: Worker, queue: seq<nat>, i: nat)
    requires QueueOk(n, handled, worker, queue) && i in Pipeline(handled, worker, queue)
    ensures i < n
  {
  }

  /** The books of one step: which positions there are, and that each is kept exactly if it was and is not given up. */
  ghost predicate Accounts(s: State, step: Step, s': State) {
    && s.received <= s'.received && |s'.received| <= |s.received| + 1
    && forall i: nat :: i < |s'.received| ==> (Kept(s', i) <==> (i == |s.received| || Kept(s, i)) && !GivesUp(s, step, i))
  }

  lemma FrameAccounts(s: State, d: DeliveryId)
    requires QueueInv(s) && LoopEnabled(s, DeliveryFrame(d))
    ensures Accounts(s, ByLoop(DeliveryFrame(d)), LoopNext(s, DeliveryFrame(d)))
  {
    var s' := LoopNext(s, DeliveryFrame(d));
    forall i: nat | i < |s'.received|
      ensures Kept(s', i) <==> (i == |s.received| || Kept(s, i)) && !GivesUp(s, ByLoop(DeliveryFrame(d)), i)
    {
      hide Pipeline, Increasing, Below;
      KeptMeans(s.handled, s.worker, s.queue, i);
      KeptMeans(s'.handled, s'.worker, s'.queue, i);
      if Kept(s, i) {
        BelowAll(|s.received|, s.handled, s.worker, s.queue, i);
      }
    }
  }

  lemma WorkerAccounts(s: State, step: WorkerStep)
    requires QueueInv(s) && WorkerEnabled(s, step)
    ensures Accounts(s, ByWorker(step), WorkerNext(s, step))
  {
    var s' := WorkerNext(s, step);
    WorkerMoves(s, step);
    forall i: nat | i < |s.received|
      ensures Kept(s', i) <==> Kept(s, i) && !GivesUp(s, ByWorker(step), i)
    {
      hide Pipeline, Increasing, Below, WorkerNext, WorkerEnabled;
      KeptMeans(s.handled, s.worker, s.queue, i);
      KeptMeans(s'.handled, s'.worker, s'.queue, i);
      if step.Skip? && s.worker == Picked(i) {
        InHandOnce(|s.received|, s.handled, s.worker, s.queue, i);
      }
    }
    hide Kept, GivesUp;
    assert s'.received == s.received;
  }

  /** How the worker's steps move a position along. */
  lemma WorkerMoves(s: State, step: WorkerStep)
    requires WorkerEnabled(s, step)
    ensures var s' := WorkerNext(s, step);
            if step.Skip? then
              && s.worker.Picked? && (s.ctxDone || s.workerCtxDone)
              && s'.handled == s.handled && s'.queue == s.queue && InHand(s'.worker) == [] && InHand(s.worker) == [s.worker.i]
            else if step.Pick? then
              s'.handled == s.handled && InHand(s.worker) == [] && s.queue != [] && InHand(s'.worker) == [s.queue[0]] && s'.queue == s.queue[1..]
            else if step.Handle? then
              s'.queue == s.queue && s.worker.Cleared? && InHand(s.worker) == [s.worker.i] && s'.handled == s.handled + [s.worker.i] && InHand(s'.worker) == []
            else
              s'.handled == s.handled && s'.queue == s.queue && InHand(s'.worker) == InHand(s.worker)
  {
  }

  lemma SameAccounts(s: State, step: Step, s': State)
    requires QueueInv(s) && s'.received == s.received && s'.handled == s.handled && s'.queue == s.queue && InHand(s'.worker) == InHand(s.worker)
    requires !(step.ByLoop? && step.l.DeliveryFrame?) && step != ByWorker(Skip)
    ensures Accounts(s, step, s')
  {
    assert Pipeline(s'.handled, s'.worker, s'.queue) == Pipeline(s.handled, s.worker, s.queue);
    hide Pipeline, QueueInv;
  }

  lemma RunAccounts(s: State, step: RunStep)
    requires QueueInv(s) && DrainedOk(s) && RunEnabled(s, step)
    ensures Accounts(s, ByRun(step), RunNext(s, step))
  {
    hide QueueOk;
    var s' := RunNext(s, step);
    assert s'.received == s.received && s'.handled == s.handled && s'.queue == s.queue && InHand(s'.worker) == InHand(s.worker);
    SameAccounts(s, ByRun(step), s');
  }

  lemma LoopAccounts(s: State, step: LoopStep)
    requires QueueInv(s) && LoopEnabled(s, step)
    ensures Accounts(s, ByLoop(step), LoopNext(s, step))
  {
    hide QueueInv, Accounts, LoopNext, LoopEnabled;
    if step.DeliveryFrame? {
      FrameAccounts(s, step.delivery);
    } else {
      SameAccounts(s, ByLoop(step), LoopNext(s, step));
    }
  }

  lemma AccountsStep(s: State, step: Step)
    requires QueueInv(s) && DrainedOk(s) && Enabled(s, step)
    ensures Accounts(s, step, Next(s, step))
  {
    hide StartNext, CallNext, SendNext, RunNext, LoopNext, WorkerNext, CloseNext, ControlNext, DrainedOk, QueueInv, Accounts,
      StartEnabled, CallEnabled, SendEnabled, RunEnabled, LoopEnabled, WorkerEnabled, CloseEnabled, ControlEnabled;
    match step
    case ByRun(r) => RunAccounts(s, r);
    case ByLoop(l) => LoopAccounts(s, l);
    case ByWorker(w) => WorkerAccounts(s, w);
    case _ => SameAccounts(s, step, Next(s, step));
  }

  // ----- whole runs -----

  predicate GivenUp(states: seq<State>, steps: seq<Step>, n: nat, i: nat)
    requires |states| == |steps| + 1 && n <= |steps|
  {
    exists k :: 0 <= k < n && GivesUp(states[k], steps[k], i)
  }

  /** In every run a delivery frame that was dispatched is handled, in the worker's hand or queued, exactly if it was
      not given up; and it is only ever given up on arriving at a queue of 256, or by a skip with a context done. */
  lemma {:induction false} DeliveriesAreKept(states: seq<State>, steps: seq<Step>, n: nat, i: nat)
    requires IsRun(states, steps) && n <= |steps| && i < |states[n].received|
    ensures i in states[n].handled || i in InHand(states[n].worker) || i in states[n].queue <==> !GivenUp(states, steps, n, i)
  {
    hide Enabled, Next, SlotInv, PendingInv, ReceiptInv, QueueInv, GivesUp, Pipeline;
    var s := states[n];
    KeptMeans(s.handled, s.worker, s.queue, i);
    if n > 0 {
      var s0, step := states[n - 1], steps[n - 1];
      RunKeepsInv(states, steps, n - 1);
      RunIsDrained(states, steps, n - 1);
      AccountsStep(s0, step);
      KeptMeans(s0.handled, s0.worker, s0.queue, i);
      if i < |s0.received| {
        DeliveriesAreKept(states, steps, n - 1, i);
      } else {
        NotYet(states, steps, n - 1, i);
      }
      GivenUpMore(states, steps, n - 1, i);
    }
  }

  lemma GivenUpMore(states: seq<State>, steps: seq<Step>, n: nat, i: nat)
    requires |states| == |steps| + 1 && n < |steps|
    ensures GivenUp(states, steps, n + 1, i) <==> GivenUp(states, steps, n, i) || GivesUp(states[n], steps[n], i)
  {
    hide GivesUp;
    if GivenUp(states, steps, n + 1, i) {
      var k :| 0 <= k < n + 1 && GivesUp(states[k], steps[k], i);
      assert k < n ==> GivenUp(states, steps, n, i);
    }
  }

  /** A frame that has not come yet was not given up. */
  lemma {:induction false} NotYet(states: seq<State>, steps: seq<Step>, n: nat, i: nat)
    requires IsRun(states, steps) && n <= |steps| && i >= |states[n].received|
    ensures !GivenUp(states, steps, n, i)
  {
    hide Enabled, Next, SlotInv, PendingInv, ReceiptInv, QueueInv, GivesUp, Pipeline;
    if n > 0 {
      var s0, step := states[n - 1], steps[n - 1];
      RunKeepsInv(states, steps, n - 1);
      RunIsDrained(states, steps, n - 1);
      AccountsStep(s0, step);
      NotYet(states, steps, n - 1, i);
      GivenUpMore(states, steps, n - 1, i);
      NotGivenUpEarly(s0, step, i);
    }
  }

  lemma NotGivenUpEarly(s: State, step: Step, i: nat)
    requires QueueInv(s) && Enabled(s, step) && i >= |Next(s, step).received|
    ensures !GivesUp(s, step, i)
  {
    assert s.worker.Picked? ==> Pipeline(s.handled, s.worker, s.queue)[|s.handled|] == s.worker.i;
  }

  // ----- a queued delivery can be handled -----

  /** Run goes on with its contexts alive, and nobody holds the lock. */
  predicate Alive(s: State) {
    s.closing.Unlocked? && !s.ctxDone && !s.workerCtxDone
  }

  lemma ClearsThePicked(s: State) returns (s1: State)
    requires s.worker.Picked? && Alive(s)
    ensures Leads(s, [ByWorker(Clear)], s1) && SameWait(s, s1) && s1.worker == Cleared(s.worker.i) && s1.handled == s.handled
  {
    hide Leads;
    WorkerLeads(s, Clear);
    s1 := WorkerNext(s, Clear);
  }

  lemma WorkerDone(s: State) returns (steps: seq<Step>, s': State)
    requires Good(s) && Alive(s) && !s.worker.NoWorker? && !s.worker.Exited?
    ensures Leads(s, steps, s') && SameWait(s, s') && s'.worker.Ready? && s.handled <= s'.handled
  {
    hide Leads, SlotInv, PendingInv, QueueInv, ReceiptInv;
    match s.worker
    case Ready =>
      LeadsNowhere(s);
      steps, s' := [], s;
    case Picked(_) =>
      var s1 := ClearsThePicked(s);
      LeadsKeeps(s, [ByWorker(Clear)], s1);
      steps, s' := HandlesTheCleared(s1);
      LeadsOn(s, [ByWorker(Clear)], s1, steps, s');
      steps := [ByWorker(Clear)] + steps;
    case Cleared(_) =>
      steps, s' := HandlesTheCleared(s);
    case Handling(_) =>
      HandledWasReceived(s);
      WorkerLeads(s, ReturnError(false));
      steps, s' := [ByWorker(ReturnError(false))], WorkerNext(s, ReturnError(false));
    case Receipting(_, call) =>
      var s1;
      steps, s1 := CallReturns(s, call);
      s' := WorkerNext(s1, ReceiptReturned);
      WorkerLeads(s1, ReceiptReturned);
      LeadsOn(s, steps, s1, [ByWorker(ReceiptReturned)], s');
      steps := steps + [ByWorker(ReceiptReturned)];
  }

  lemma Picks(s: State) returns (s1: State)
    requires s.worker.Ready? && s.queue != [] && Alive(s)
    ensures Leads(s, [ByWorker(Pick), ByWorker(Clear)], s1) && Alive(s1)
    ensures s1.worker == Cleared(s.queue[0]) && s1.queue == s.queue[1..] && s1.handled == s.handled
  {
    var a := WorkerNext(s, Pick);
    s1 := WorkerNext(a, Clear);
    LeadsOne(s, ByWorker(Pick));
    Then(s, [ByWorker(Pick)], a, ByWorker(Clear));
    assert [ByWorker(Pick)] + [ByWorker(Clear)] == [ByWorker(Pick), ByWorker(Clear)];
  }

  lemma HandlesNext(s: State) returns (steps: seq<Step>, s': State)
    requires Good(s) && Alive(s) && s.worker.Ready? && s.queue != []
    ensures Leads(s, steps, s') && Good(s') && Alive(s') && s'.worker.Ready?
    ensures s'.queue == s.queue[1..] && s'.handled == s.handled + [s.queue[0]]
  {
    hide Leads, SlotInv, PendingInv, QueueInv, ReceiptInv, TeardownOk, IdleOk;
    var s1 := Picks(s);
    LeadsKeeps(s, [ByWorker(Pick), ByWorker(Clear)], s1);
    steps, s' := HandlesTheCleared(s1);
    LeadsOn(s, [ByWorker(Pick), ByWorker(Clear)], s1, steps, s');
    steps := [ByWorker(Pick), ByWorker(Clear)] + steps;
    LeadsKeeps(s, steps, s');
  }

  lemma {:induction false} HandlesUpTo(s: State, i: nat) returns (steps: seq<Step>, s': State)
    requires Good(s) && Alive(s) && s.worker.Ready? && i in s.queue
    ensures Leads(s, steps, s') && i in s'.handled
    decreases |s.queue|
  {
    hide Leads, Good;
    var s1;
    steps, s1 := HandlesNext(s);
    if s.queue[0] == i {
      s' := s1;
    } else {
      assert i in s1.queue;
      var more;
      more, s' := HandlesUpTo(s1, i);
      LeadsOn(s, steps, s1, more, s');
      steps := steps + more;
    }
  }

  lemma HasLiveWorker(s: State)
    requires DrainedOk(s) && s.queue != []
    ensures !s.worker.NoWorker? && !s.worker.Exited?
  {
  }

  /** In every run, a queued delivery can still be handled as long as no context is done, whatever the worker is
      doing, however many deliveries are before it, and whoever holds the lock. */
  lemma QueuedCanBeHandled(states: seq<State>, steps: seq<Step>, n: nat, i: nat) returns (more: seq<Step>, s': State)
    requires IsRun(states, steps) && n < |states| && i in states[n].queue && !states[n].ctxDone && !states[n].workerCtxDone
    ensures Leads(states[n], more, s') && i in s'.handled
  {
    hide Leads, Enabled, Next, Good;
    var s := states[n];
    RunIsGood(states, steps, n);
    RunIsDrained(states, steps, n);
    HasLiveWorker(s);
    var s1, s2, next, last;
    more, s1 := LockFreed(s);
    LeadsKeeps(s, more, s1);
    next, s2 := WorkerDone(s1);
    LeadsKeeps(s1, next, s2);
    LeadsOn(s, more, s1, next, s2);
    more := more + next;
    last, s' := HandlesUpTo(s2, i);
    LeadsOn(s, more, s2, last, s');
    more := more + last;
  }

  lemma LockFreed(s: State) returns (steps: seq<Step>, s': State)
    requires !s.ctxDone && !s.workerCtxDone
    ensures Leads(s, steps, s') && Alive(s') && s'.worker == s.worker && s'.queue == s.queue
  {
    hide Leads;
    steps, s' := LockComesFree(s);
  }
}
