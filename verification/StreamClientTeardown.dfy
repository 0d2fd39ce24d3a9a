/**
 Teardown of `Run` (client.go): the worker's context is cancelled, the queue is closed, and Run waits for the
 worker before it closes the stream. The worker reads its context before it calls the handler and not again, so
 the one delivery it has cleared when the context is cancelled is still handled, and no other. The wait cannot
 block for good: from every such state there is a way back to an idle, closed client.
 */
module StreamClientTeardown {
  import opened StreamClient
  import opened StreamClientProofs
  import opened StreamClientProgress

  /** Run has cancelled the worker's context and has not joined the worker yet. */
  predicate GoingDown(run: RunPhase) {
    run.WorkerCancelled? || run.QueueClosed?
  }

  predicate TeardownOk(s: State) {
    && (GoingDown(s.run) ==> s.workerCtxDone)
    && (s.run.QueueClosed? ==> s.queueClosed)
    && (s.worker.Receipting? ==> s.worker.call in s.calls)
  }

  // ----- every step keeps it -----

  lemma TeardownStart(s: State, t: CallId, step: StartStep)
    requires TeardownOk(s) && StartEnabled(s, t, step)
    ensures TeardownOk(StartNext(s, t, step))
  {
  }

  lemma TeardownCall(s: State, t: CallId, step: CallStep)
    requires TeardownOk(s) && CallEnabled(s, t, step)
    ensures TeardownOk(CallNext(s, t, step))
  {
  }

  lemma TeardownSend(s: State, t: CallId, step: SendStep)
    requires TeardownOk(s) && SendEnabled(s, t, step)
    ensures TeardownOk(SendNext(s, t, step))
  {
  }

  lemma TeardownRun(s: State, step: RunStep)
    requires TeardownOk(s) && RunEnabled(s, step)
    ensures TeardownOk(RunNext(s, step))
  {
  }

  lemma TeardownLoop(s: State, step: LoopStep)
    requires TeardownOk(s) && LoopEnabled(s, step)
    ensures TeardownOk(LoopNext(s, step))
  {
  }

  lemma TeardownWorker(s: State, step: WorkerStep)
    requires TeardownOk(s) && WorkerEnabled(s, step)
    ensures TeardownOk(WorkerNext(s, step))
  {
  }

  lemma TeardownClose(s: State, step: CloseStep)
    requires TeardownOk(s) && CloseEnabled(s, step)
    ensures TeardownOk(CloseNext(s, step))
  {
  }

  lemma TeardownControl(s: State, step: ControlStep)
    requires TeardownOk(s) && ControlEnabled(s, step)
    ensures TeardownOk(ControlNext(s, step))
  {
  }

  lemma TeardownStep(s: State, step: Step)
    requires TeardownOk(s) && Enabled(s, step)
    ensures TeardownOk(Next(s, step))
  {
    hide TeardownOk, StartNext, CallNext, SendNext, RunNext, LoopNext, WorkerNext, CloseNext, ControlNext,
      StartEnabled, CallEnabled, SendEnabled, RunEnabled, LoopEnabled, WorkerEnabled, CloseEnabled, ControlEnabled;
    match step
    case ByStart(t, start) => TeardownStart(s, t, start);
    case ByCall(t, call) => TeardownCall(s, t, call);
    case BySender(t, send) => TeardownSend(s, t, send);
    case ByRun(r) => TeardownRun(s, r);
    case ByLoop(l) => TeardownLoop(s, l);
    case ByWorker(w) => TeardownWorker(s, w);
    case ByClose(c) => TeardownClose(s, c);
    case ByControl(k) => TeardownControl(s, k);
  }

  lemma {:induction false} RunKeepsTeardown(states: seq<State>, steps: seq<Step>, n: nat)
    requires IsRun(states, steps) && n < |states|
    ensures TeardownOk(states[n])
  {
    hide Enabled, Next;
    if n > 0 {
      RunKeepsTeardown(states, steps, n - 1);
      TeardownStep(states[n - 1], steps[n - 1]);
    }
  }

  // ----- what is still handled -----

  /** The delivery whose handler call nothing can stop any more. */
  function Bound(worker: Worker): seq<nat> {
    if worker.Cleared? then [worker.i] else []
  }

  /** Handled before or bound to be: nothing joins these. */
  predicate Committed(s: State, s': State) {
    s.handled <= s'.handled && s'.handled + Bound(s'.worker) == s.handled + Bound(s.worker)
  }

  lemma WorkerKeepsCommitted(s: State, step: WorkerStep)
    requires WorkerEnabled(s, step) && (s.ctxDone || s.workerCtxDone)
    ensures var s' := WorkerNext(s, step); Committed(s, s')
  {
  }

  lemma RunKeepsCommitted(s: State, step: RunStep)
    requires RunEnabled(s, step) && GoingDown(s.run)
    ensures var s' := RunNext(s, step); Committed(s, s')
  {
  }

  /** Once the context is cancelled, handling a delivery only turns a cleared one into a handled one. */
  lemma CommittedStep(s: State, step: Step)
    requires Enabled(s, step) && TeardownOk(s) && GoingDown(s.run)
    ensures var s' := Next(s, step); Committed(s, s')
  {
    hide StartEnabled, CallEnabled, SendEnabled, RunEnabled, LoopEnabled, WorkerEnabled, CloseEnabled, ControlEnabled;
    hide StartNext, CallNext, SendNext, RunNext, LoopNext, WorkerNext, CloseNext, ControlNext;
    match step
    case ByRun(r) => RunKeepsCommitted(s, r);
    case ByWorker(w) => WorkerKeepsCommitted(s, w);
    case ByLoop(l) => LoopIsOver(s, l);
    case _ =>
  }

  lemma LoopIsOver(s: State, step: LoopStep)
    requires GoingDown(s.run)
    ensures !LoopEnabled(s, step)
  {
  }

  lemma {:induction false} CommittedKept(states: seq<State>, steps: seq<Step>, m: nat, n: nat)
    requires IsRun(states, steps) && m <= n <= |steps|
    requires forall k :: m <= k < n ==> GoingDown(states[k].run)
    ensures Committed(states[m], states[n])
  {
    hide Enabled, Next;
    if m < n {
      CommittedKept(states, steps, m, n - 1);
      RunKeepsTeardown(states, steps, n - 1);
      CommittedStep(states[n - 1], steps[n - 1]);
    }
  }

  /** In every run, from the step that cancels the worker's context up to the join: the only delivery still
      handed to the handler is the one the worker had cleared at the cancel. By the time the worker has exited it
      has been, so the number handled in between is one if the worker was cleared then and none otherwise. */
  lemma CancelLeavesOnlyTheCleared(states: seq<State>, steps: seq<Step>, m: nat, n: nat)
    requires IsRun(states, steps) && m < n <= |steps| && steps[m] == ByRun(CancelWorker)
    requires forall k :: m < k < n ==> GoingDown(states[k].run)
    ensures states[n].handled == states[m].handled || states[n].handled == states[m].handled + Bound(states[m].worker)
    ensures !states[n].worker.Cleared? ==> states[n].handled == states[m].handled + Bound(states[m].worker)
    ensures states[n].worker.Exited? || states[n].run.Closing? ==>
              (states[n].handled == states[m].handled <==> !states[m].worker.Cleared?)
  {
    hide Enabled, Next;
    CancelChangesNothing(states[m]);
    CommittedKept(states, steps, m + 1, n);
    RunKeepsInv(states, steps, n);
    if states[n].run.Closing? {
      NoWorkerWhenClosing(states[n]);
    }
    assert |states[n].handled + Bound(states[n].worker)| == |states[m].handled + Bound(states[m].worker)|;
  }

  lemma CancelChangesNothing(s: State)
    requires Enabled(s, ByRun(CancelWorker))
    ensures var s' := Next(s, ByRun(CancelWorker)); s'.handled == s.handled && s'.worker == s.worker && GoingDown(s'.run)
  {
  }

  lemma NoWorkerWhenClosing(s: State)
    requires Inv(s) && s.run.Closing?
    ensures s.worker.NoWorker?
  {
    hide SlotInv, PendingInv, ReceiptInv;
  }

  // ----- the wait ends -----

  /** What the way out of a call or a delivery leaves alone. */
  predicate SameRun(s: State, s': State) {
    && s'.run == s.run && s'.queue == s.queue && s'.queueClosed == s.queueClosed && s'.workerCtxDone == s.workerCtxDone
    && s'.ctxDone == s.ctxDone && s'.closing == s.closing && s'.stream == s.stream && s'.handled == s.handled
  }

  lemma CallKeepsRun(s: State, t: CallId, step: CallStep)
    requires CallEnabled(s, t, step)
    ensures SameRun(s, CallNext(s, t, step)) && t in CallNext(s, t, step).calls
  {
  }

  lemma CallLeads(s: State, t: CallId, step: CallStep)
    requires CallEnabled(s, t, step)
    ensures Leads(s, [ByCall(t, step)], CallNext(s, t, step))
  {
    hide CallNext, CallEnabled;
    LeadsOne(s, ByCall(t, step));
  }

  ghost predicate ReturnsBy(s: State, t: CallId, steps: seq<Step>, s': State) {
    && Leads(s, steps, s') && SameRun(s, s') && s'.worker == s.worker
    && t in s'.calls && s'.calls[t].pc.Returned?
  }

  lemma Leaves(s: State, t: CallId) returns (s': State)
    requires t in s.calls && s.calls[t].pc.Returning?
    ensures ReturnsBy(s, t, [ByCall(t, Unregister)], s')
  {
    hide Leads;
    CallLeads(s, t, Unregister);
    s' := CallNext(s, t, Unregister);
  }

  /** One more step in front of a way out. */
  lemma AfterOne(s: State, t: CallId, step: CallStep, s1: State, steps: seq<Step>, s': State)
    requires CallEnabled(s, t, step) && s1 == CallNext(s, t, step) && ReturnsBy(s1, t, steps, s')
    ensures ReturnsBy(s, t, [ByCall(t, step)] + steps, s')
  {
    hide Leads, CallNext, CallEnabled;
    CallLeads(s, t, step);
    CallKeepsRun(s, t, step);
    LeadsOn(s, [ByCall(t, step)], s1, steps, s');
  }

  /** A call that can see its context end returns. */
  lemma GivesUp(s: State, t: CallId, step: CallStep) returns (steps: seq<Step>, s': State)
    requires CallEnabled(s, t, step)
    requires step == CheckContext(true) || step.AbandonSlot? || step.AbandonSend? || step.AbandonReply?
    ensures ReturnsBy(s, t, steps, s')
  {
    hide ReturnsBy;
    var s1 := CallNext(s, t, step);
    s' := Leaves(s1, t);
    AfterOne(s, t, step, s1, [ByCall(t, Unregister)], s');
    steps := [ByCall(t, step)] + [ByCall(t, Unregister)];
  }

  lemma GivesUpAfterSpawn(s: State, t: CallId) returns (steps: seq<Step>, s': State)
    requires t in s.calls && s.calls[t].pc.HoldsSlot?
    ensures ReturnsBy(s, t, steps, s')
  {
    hide ReturnsBy;
    var s1 := CallNext(s, t, SpawnSend);
    steps, s' := GivesUp(s1, t, AbandonSend);
    AfterOne(s, t, SpawnSend, s1, steps, s');
    steps := [ByCall(t, SpawnSend)] + steps;
  }

  lemma GivesUpAtOnce(s: State, t: CallId) returns (steps: seq<Step>, s': State)
    requires t in s.calls && s.calls[t].pc.Entered? && s.closing.Unlocked?
    ensures ReturnsBy(s, t, steps, s')
  {
    hide ReturnsBy;
    var s1 := CallNext(s, t, ReadStream);
    if s.stream.None? {
      s' := Leaves(s1, t);
      steps := [ByCall(t, Unregister)];
    } else {
      steps, s' := GivesUp(s1, t, CheckContext(true));
    }
    AfterOne(s, t, ReadStream, s1, steps, s');
    steps := [ByCall(t, ReadStream)] + steps;
  }

  /** Whatever a call waits for, it can still return, if nobody holds the client's lock. */
  lemma CallReturns(s: State, t: CallId) returns (steps: seq<Step>, s': State)
    requires t in s.calls && s.closing.Unlocked?
    ensures ReturnsBy(s, t, steps, s')
  {
    hide Leads, CallNext;
    match s.calls[t].pc
    case Entered => steps, s' := GivesUpAtOnce(s, t);
    case GotStream(_) => steps, s' := GivesUp(s, t, CheckContext(true));
    case Queued(_) => steps, s' := GivesUp(s, t, AbandonSlot);
    case HoldsSlot(_) => steps, s' := GivesUpAfterSpawn(s, t);
    case AwaitSend => steps, s' := GivesUp(s, t, AbandonSend);
    case AwaitReply => steps, s' := GivesUp(s, t, AbandonReply);
    case Returning(_) =>
      s' := Leaves(s, t);
      steps := [ByCall(t, Unregister)];
    case Returned(_) =>
      LeadsNowhere(s);
      steps, s' := [], s;
  }

  lemma LeadsNowhere(s: State)
    ensures Leads(s, [], s)
  {
  }

  lemma WorkerLeads(s: State, step: WorkerStep)
    requires WorkerEnabled(s, step)
    ensures Leads(s, [ByWorker(step)], WorkerNext(s, step))
  {
    hide WorkerNext, WorkerEnabled;
    LeadsOne(s, ByWorker(step));
  }

  predicate Waiting(s: State) {
    s.run.QueueClosed? && s.workerCtxDone && s.queueClosed && s.closing.Unlocked?
  }

  /** What the way out of a delivery leaves alone. */
  predicate SameWait(s: State, s': State) {
    && s'.run == s.run && s'.queueClosed == s.queueClosed && s'.workerCtxDone == s.workerCtxDone && s'.closing == s.closing
    && s'.ctxDone == s.ctxDone && s'.queue == s.queue
  }

  lemma HandlesTheCleared(s: State) returns (steps: seq<Step>, s': State)
    requires QueueInv(s) && s.worker.Cleared?
    ensures Leads(s, steps, s') && SameWait(s, s') && s'.worker.Ready? && s'.handled == s.handled + [s.worker.i]
  {
    hide Leads;
    ClearedWasReceived(s);
    var s1 := WorkerNext(s, Handle);
    WorkerLeads(s, Handle);
    s' := WorkerNext(s1, ReturnError(false));
    WorkerLeads(s1, ReturnError(false));
    LeadsOn(s, [ByWorker(Handle)], s1, [ByWorker(ReturnError(false))], s');
    steps := [ByWorker(Handle)] + [ByWorker(ReturnError(false))];
  }

  lemma ClearedWasReceived(s: State)
    requires QueueInv(s) && s.worker.Cleared?
    ensures s.worker.i < |s.received|
  {
    assert Pipeline(s.handled, s.worker, s.queue)[|s.handled|] == s.worker.i;
  }

  lemma HandledWasReceived(s: State)
    requires QueueInv(s) && s.worker.Handling?
    ensures s.worker.i < |s.received|
  {
    var k :| 0 <= k < |s.handled| && s.handled[k] == s.worker.i;
    assert Pipeline(s.handled, s.worker, s.queue)[k] == s.worker.i;
  }

  lemma HasWorker(s: State)
    requires QueueInv(s) && s.run.QueueClosed?
    ensures !s.worker.NoWorker?
  {
    hide QueueOk;
  }

  /** Whatever it is doing, the worker can get back to the head of its loop. */
  lemma WorkerComesBack(s: State) returns (steps: seq<Step>, s': State)
    requires TeardownOk(s) && QueueInv(s) && Waiting(s) && !s.worker.Exited?
    ensures Leads(s, steps, s') && SameWait(s, s') && s'.worker.Ready? && s'.handled == s.handled + Bound(s.worker)
  {
    hide Leads, QueueInv;
    HasWorker(s);
    match s.worker
    case Ready =>
      LeadsNowhere(s);
      return [], s;
    case Picked(_) =>
      WorkerLeads(s, Skip);
      return [ByWorker(Skip)], WorkerNext(s, Skip);
    case Cleared(_) =>
      steps, s' := HandlesTheCleared(s);
    case Handling(_) =>
      HandledWasReceived(s);
      WorkerLeads(s, ReturnError(false));
      return [ByWorker(ReturnError(false))], WorkerNext(s, ReturnError(false));
    case Receipting(_, call) =>
      var s1;
      steps, s1 := CallReturns(s, call);
      s' := WorkerNext(s1, ReceiptReturned);
      WorkerLeads(s1, ReceiptReturned);
      LeadsOn(s, steps, s1, [ByWorker(ReceiptReturned)], s');
      steps := steps + [ByWorker(ReceiptReturned)];
  }

  /** Once either context has ended the worker can drop whatever is queued, and calls the handler for none of it. */
  lemma {:induction false} QueueDropped(s: State) returns (steps: seq<Step>)
    requires s.worker.Ready? && (s.ctxDone || s.workerCtxDone)
    ensures Leads(s, steps, s.(queue := []))
    decreases |s.queue|
  {
    hide Leads;
    if s.queue == [] {
      LeadsNowhere(s);
      steps := [];
    } else {
      var s1 := s.(worker := Picked(s.queue[0]), queue := s.queue[1..]);
      var s2 := s.(queue := s.queue[1..]);
      WorkerLeads(s, Pick);
      WorkerLeads(s1, Skip);
      LeadsOn(s, [ByWorker(Pick)], s1, [ByWorker(Skip)], s2);
      steps := QueueDropped(s2);
      LeadsOn(s, [ByWorker(Pick)] + [ByWorker(Skip)], s2, steps, s.(queue := []));
      steps := [ByWorker(Pick)] + [ByWorker(Skip)] + steps;
    }
  }

  /** The worker drains the closed queue without handling anything, and exits. */
  lemma WorkerDrains(s: State) returns (steps: seq<Step>)
    requires Waiting(s) && s.worker.Ready?
    ensures Leads(s, steps, s.(worker := Exited, queue := []))
  {
    hide Leads;
    var s1 := s.(queue := []);
    steps := QueueDropped(s);
    WorkerLeads(s1, Exit);
    LeadsOn(s, steps, s1, [ByWorker(Exit)], s.(worker := Exited, queue := []));
    steps := steps + [ByWorker(Exit)];
  }

  /** With the worker gone, Run closes the stream, if there still is one, and is done. */
  lemma RunCloses(s: State) returns (steps: seq<Step>, s': State)
    requires s.run.Closing? && s.closing.Unlocked?
    ensures Leads(s, steps, s') && s'.run.Idle? && s'.stream.None? && s'.closing.Unlocked? && s'.handled == s.handled
  {
    if s.stream.None? {
      LeadsOne(s, ByRun(NothingToClose));
      return [ByRun(NothingToClose)], RunNext(s, NothingToClose);
    }
    steps, s' := ClosesStream(s);
  }

  lemma ClosesStream(s: State) returns (steps: seq<Step>, s': State)
    requires s.run.Closing? && s.closing.Unlocked? && s.stream.Some?
    ensures Leads(s, steps, s') && s'.run.Idle? && s'.stream.None? && s'.closing.Unlocked? && s'.handled == s.handled
  {
    hide CloseAll;
    var a := CloseNext(s, CloseBegin(true));
    var b := CloseNext(a, CloseSweep);
    s' := CloseNext(b, CloseEnd);
    LeadsThree(s, ByClose(CloseBegin(true)), a, ByClose(CloseSweep), b, ByClose(CloseEnd), s');
    steps := [ByClose(CloseBegin(true)), ByClose(CloseSweep), ByClose(CloseEnd)];
  }

  lemma WorkerJoins(s: State) returns (s': State)
    requires s.run.QueueClosed? && s.worker.Exited?
    ensures Leads(s, [ByRun(WorkerJoined)], s') && s'.run.Closing?
    ensures s'.closing == s.closing && s'.handled == s.handled
  {
    LeadsOne(s, ByRun(WorkerJoined));
    s' := RunNext(s, WorkerJoined);
  }

  lemma WorkerExits(s: State) returns (steps: seq<Step>, s': State)
    requires TeardownOk(s) && QueueInv(s) && Waiting(s)
    ensures Leads(s, steps, s') && s'.worker.Exited? && s'.run == s.run && s'.closing == s.closing
    ensures s'.handled == s.handled + Bound(s.worker)
  {
    hide Leads, TeardownOk, QueueInv;
    if s.worker.Exited? {
      LeadsNowhere(s);
      return [], s;
    }
    var s1, more;
    steps, s1 := WorkerComesBack(s);
    more := WorkerDrains(s1);
    s' := s1.(worker := Exited, queue := []);
    LeadsOn(s, steps, s1, more, s');
    steps := steps + more;
  }

  /** Close ends: what is left alone, and that Run ends with it if it is Run that closes. */
  predicate Unlocks(s: State, s': State) {
    && s'.closing.Unlocked? && s'.run == (if !s.closing.Unlocked? && s.closing.byRun then Idle else s.run)
    && s'.queueClosed == s.queueClosed && s'.workerCtxDone == s.workerCtxDone && s'.ctxDone == s.ctxDone
    && s'.worker == s.worker && s'.calls == s.calls && SameDeliveries(s, s')
  }

  lemma CloseEnds(s: State) returns (s': State)
    requires s.closing.Swept?
    ensures Leads(s, [ByClose(CloseEnd)], s') && Unlocks(s, s')
  {
    LeadsOne(s, ByClose(CloseEnd));
    s' := CloseNext(s, CloseEnd);
  }

  lemma CloseSweeps(s: State) returns (s': State)
    requires s.closing.Locked?
    ensures Leads(s, [ByClose(CloseSweep)], s') && s'.closing == Swept(s.closing.byRun) && s'.run == s.run
    ensures forall r :: Unlocks(s', r) ==> Unlocks(s, r)
  {
    hide CloseAll;
    LeadsOne(s, ByClose(CloseSweep));
    s' := CloseNext(s, CloseSweep);
  }

  /** Whoever holds the client's lock in Close can finish and give it back. */
  lemma LockComesFree(s: State) returns (steps: seq<Step>, s': State)
    ensures Leads(s, steps, s') && Unlocks(s, s')
  {
    hide Leads;
    match s.closing
    case Unlocked =>
      LeadsNowhere(s);
      steps, s' := [], s;
    case Locked(_) =>
      var s1 := CloseSweeps(s);
      s' := CloseEnds(s1);
      LeadsOn(s, [ByClose(CloseSweep)], s1, [ByClose(CloseEnd)], s');
      steps := [ByClose(CloseSweep)] + [ByClose(CloseEnd)];
    case Swept(_) =>
      s' := CloseEnds(s);
      steps := [ByClose(CloseEnd)];
  }

  lemma TeardownFrom(s: State) returns (more: seq<Step>, s': State)
    requires TeardownOk(s) && QueueInv(s) && Waiting(s)
    ensures Leads(s, more, s') && s'.run.Idle? && s'.stream.None? && s'.closing.Unlocked?
    ensures s'.handled == s.handled + Bound(s.worker)
  {
    hide Leads, Enabled, Next, QueueInv;
    var s1, s2, last;
    more, s1 := WorkerExits(s);
    s2 := WorkerJoins(s1);
    LeadsOn(s, more, s1, [ByRun(WorkerJoined)], s2);
    more := more + [ByRun(WorkerJoined)];
    last, s' := RunCloses(s2);
    LeadsOn(s, more, s2, last, s');
    more := more + last;
  }

  /** In every run, whenever Run waits for the worker, whoever holds the client's lock, the run can be continued
      until Run is done and the stream is closed, with no delivery handled but one cleared before. */
  lemma TeardownFinishes(states: seq<State>, steps: seq<Step>, n: nat) returns (more: seq<Step>, s': State)
    requires IsRun(states, steps) && n < |states| && states[n].run.QueueClosed?
    ensures Leads(states[n], more, s') && s'.run.Idle? && s'.stream.None?
    ensures s'.handled == states[n].handled + Bound(states[n].worker)
  {
    hide Leads, Enabled, Next, SlotInv, QueueInv, ReceiptInv;
    RunKeepsTeardown(states, steps, n);
    RunKeepsInv(states, steps, n);
    var s := states[n];
    var s1, last;
    more, s1 := LockComesFree(s);
    QueueKept(s, s1);
    last, s' := TeardownFrom(s1);
    LeadsOn(s, more, s1, last, s');
    more := more + last;
  }

  lemma QueueKept(s: State, s1: State)
    requires QueueInv(s) && s1.run == s.run && s1.worker == s.worker && SameDeliveries(s, s1)
    ensures QueueInv(s1)
  {
  }

  /** In every run, whoever holds the client's lock, a call can still return. */
  lemma CallsCanReturn(states: seq<State>, steps: seq<Step>, n: nat, t: CallId) returns (more: seq<Step>, s': State)
    requires IsRun(states, steps) && n < |states| && t in states[n].calls
    ensures Leads(states[n], more, s') && t in s'.calls && s'.calls[t].pc.Returned?
  {
    hide Leads, Enabled, Next, SlotInv, QueueInv, ReceiptInv;
    RunKeepsInv(states, steps, n);
    var s := states[n];
    var s1, last;
    more, s1 := LockComesFree(s);
    last, s' := CallReturns(s1, t);
    LeadsOn(s, more, s1, last, s');
    more := more + last;
  }

  // ----- the cleared delivery, concretely -----

  /** A run in which the handler is called after Run has cancelled the worker's context. */
  lemma HandledAfterCancel() returns (states: seq<State>, steps: seq<Step>)
    ensures IsRun(states, steps) && |steps| > 1
    ensures steps[|steps| - 2] == ByRun(CancelWorker) && steps[|steps| - 1] == ByWorker(Handle)
    ensures states[|steps|].handled == [0] && states[|steps| - 2].handled == []
  {
    states, steps := ClearedRun();
    states, steps := Extend(states, steps, ByLoop(Fatal));
    states, steps := Extend(states, steps, ByRun(CancelWorker));
    states, steps := Extend(states, steps, ByWorker(Handle));
  }

  lemma ClearedRun() returns (states: seq<State>, steps: seq<Step>)
    ensures IsRun(states, steps) && |states| == |steps| + 1
    ensures var s := states[|steps|];
            s.run.Looping? && s.closing.Unlocked? && s.worker == Cleared(0) && s.received == [5] && s.handled == []
  {
    states, steps := [INITIAL], [];
    states, steps := Extend(states, steps, ByRun(Connect));
    states, steps := Extend(states, steps, ByRun(Greeted));
    states, steps := Extend(states, steps, ByControl(Issue(5)));
    states, steps := Extend(states, steps, ByLoop(DeliveryFrame(5)));
    states, steps := Extend(states, steps, ByWorker(Pick));
    states, steps := Extend(states, steps, ByWorker(Clear));
  }
}
