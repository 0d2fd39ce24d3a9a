/**
 No state of the stream client is a dead end (client.go): from every state of every run, whatever failed or was
 closed before, the client can be torn down and connected again, and any delivery control has issued can still be
 handled, recorded and receipted.
 */
module StreamClientRecovery {
  import opened StreamClient
  import opened StreamClientProofs
  import opened StreamClientProgress
  import opened StreamClientTeardown

  // ----- what every continuation keeps -----

  /** Between two runs of Run there is no stream. */
  predicate IdleOk(s: State) {
    s.run.Idle? ==> s.stream.None?
  }

  ghost predicate Good(s: State) {
    Inv(s) && TeardownOk(s) && IdleOk(s)
  }

  lemma IdleStart(s: State, t: CallId, step: StartStep)
    requires IdleOk(s) && StartEnabled(s, t, step)
    ensures IdleOk(StartNext(s, t, step))
  {
  }

  lemma IdleSend(s: State, t: CallId, step: SendStep)
    requires IdleOk(s) && SendEnabled(s, t, step)
    ensures IdleOk(SendNext(s, t, step))
  {
  }

  lemma IdleRun(s: State, step: RunStep)
    requires IdleOk(s) && RunEnabled(s, step)
    ensures IdleOk(RunNext(s, step))
  {
  }

  lemma IdleLoop(s: State, step: LoopStep)
    requires IdleOk(s) && LoopEnabled(s, step)
    ensures IdleOk(LoopNext(s, step))
  {
  }

  lemma IdleWorker(s: State, step: WorkerStep)
    requires IdleOk(s) && WorkerEnabled(s, step)
    ensures IdleOk(WorkerNext(s, step))
  {
  }

  lemma IdleClose(s: State, step: CloseStep)
    requires IdleOk(s) && CloseEnabled(s, step)
    ensures IdleOk(CloseNext(s, step))
  {
    hide CloseAll;
  }

  lemma IdleControl(s: State, step: ControlStep)
    requires IdleOk(s) && ControlEnabled(s, step)
    ensures IdleOk(ControlNext(s, step))
  {
  }

  lemma IdleStep(s: State, step: Step)
    requires IdleOk(s) && Enabled(s, step)
    ensures IdleOk(Next(s, step))
  {
    hide StartNext, CallNext, SendNext, RunNext, LoopNext, WorkerNext, CloseNext, ControlNext,
      StartEnabled, CallEnabled, SendEnabled, RunEnabled, LoopEnabled, WorkerEnabled, CloseEnabled, ControlEnabled;
    match step
    case ByStart(t, start) => IdleStart(s, t, start);
    case ByCall(_, _) =>
    case BySender(t, send) => IdleSend(s, t, send);
    case ByRun(r) => IdleRun(s, r);
    case ByLoop(l) => IdleLoop(s, l);
    case ByWorker(w) => IdleWorker(s, w);
    case ByClose(c) => IdleClose(s, c);
    case ByControl(k) => IdleControl(s, k);
  }

  lemma IssuedStays(s: State, step: Step)
    requires Enabled(s, step)
    ensures s.issued <= Next(s, step).issued
  {
    hide StartNext, CallNext, SendNext, RunNext, LoopNext, WorkerNext, CloseNext, ControlNext,
      StartEnabled, CallEnabled, SendEnabled, RunEnabled, LoopEnabled, WorkerEnabled, CloseEnabled, ControlEnabled;
    match step
    case BySender(t, send) => SendKeepsIssued(s, t, send);
    case ByWorker(w) => WorkerKeepsIssued(s, w);
    case ByControl(k) => ControlKeepsIssued(s, k);
    case _ =>
  }

  lemma SendKeepsIssued(s: State, t: CallId, step: SendStep)
    requires SendEnabled(s, t, step)
    ensures SendNext(s, t, step).issued == s.issued
  {
  }

  lemma WorkerKeepsIssued(s: State, step: WorkerStep)
    requires WorkerEnabled(s, step)
    ensures WorkerNext(s, step).issued == s.issued
  {
  }

  lemma ControlKeepsIssued(s: State, step: ControlStep)
    requires ControlEnabled(s, step)
    ensures s.issued <= ControlNext(s, step).issued
  {
  }

  lemma {:induction false} LeadsKeeps(s: State, steps: seq<Step>, s': State)
    requires Good(s) && Leads(s, steps, s')
    ensures Good(s') && s.issued <= s'.issued
    decreases |steps|
  {
    hide Enabled, Next, Inv, TeardownOk, IdleOk;
    if steps != [] {
      InvStep(s, steps[0]);
      TeardownStep(s, steps[0]);
      IdleStep(s, steps[0]);
      IssuedStays(s, steps[0]);
      LeadsKeeps(Next(s, steps[0]), steps[1..], s');
    }
  }

  lemma {:induction false} RunIsGood(states: seq<State>, steps: seq<Step>, n: nat)
    requires IsRun(states, steps) && n < |states|
    ensures Good(states[n])
  {
    hide Enabled, Next, Inv, TeardownOk;
    RunKeepsInv(states, steps, n);
    RunKeepsTeardown(states, steps, n);
    if n > 0 {
      RunIsGood(states, steps, n - 1);
      IdleStep(states[n - 1], steps[n - 1]);
    }
  }

  // ----- Run can always be brought down -----

  /** Run is over and the client closed. */
  predicate Down(s: State) {
    s.run.Idle? && s.stream.None? && s.closing.Unlocked?
  }

  lemma RunLeads(s: State, step: RunStep)
    requires RunEnabled(s, step)
    ensures Leads(s, [ByRun(step)], RunNext(s, step))
  {
    hide RunNext, RunEnabled;
    LeadsOne(s, ByRun(step));
  }

  lemma LoopLeads(s: State, step: LoopStep)
    requires LoopEnabled(s, step)
    ensures Leads(s, [ByLoop(step)], LoopNext(s, step))
  {
    hide LoopNext, LoopEnabled;
    LeadsOne(s, ByLoop(step));
  }

  lemma DownFromQueueClosed(s: State) returns (steps: seq<Step>, s': State)
    requires Good(s) && s.run.QueueClosed? && s.closing.Unlocked?
    ensures Leads(s, steps, s') && Down(s')
  {
    hide Leads, SlotInv, PendingInv, QueueInv, ReceiptInv;
    steps, s' := TeardownFrom(s);
  }

  lemma DownFromCancelled(s: State) returns (steps: seq<Step>, s': State)
    requires Good(s) && s.run.WorkerCancelled? && s.closing.Unlocked?
    ensures Leads(s, steps, s') && Down(s')
  {
    hide Leads, Good;
    var s1 := RunNext(s, CloseQueue);
    RunLeads(s, CloseQueue);
    LeadsKeeps(s, [ByRun(CloseQueue)], s1);
    steps, s' := DownFromQueueClosed(s1);
    LeadsOn(s, [ByRun(CloseQueue)], s1, steps, s');
    steps := [ByRun(CloseQueue)] + steps;
  }

  lemma DownFromUnpublished(s: State) returns (steps: seq<Step>, s': State)
    requires Good(s) && s.run.Unpublished? && s.closing.Unlocked?
    ensures Leads(s, steps, s') && Down(s')
  {
    hide Leads, Good;
    var s1 := RunNext(s, CancelWorker);
    RunLeads(s, CancelWorker);
    LeadsKeeps(s, [ByRun(CancelWorker)], s1);
    steps, s' := DownFromCancelled(s1);
    LeadsOn(s, [ByRun(CancelWorker)], s1, steps, s');
    steps := [ByRun(CancelWorker)] + steps;
  }

  lemma DownFromLooping(s: State) returns (steps: seq<Step>, s': State)
    requires Good(s) && s.run.Looping? && s.closing.Unlocked?
    ensures Leads(s, steps, s') && Down(s')
  {
    hide Leads, Good;
    var s1 := LoopNext(s, Fatal);
    LoopLeads(s, Fatal);
    LeadsKeeps(s, [ByLoop(Fatal)], s1);
    steps, s' := DownFromUnpublished(s1);
    LeadsOn(s, [ByLoop(Fatal)], s1, steps, s');
    steps := [ByLoop(Fatal)] + steps;
  }

  lemma Delivers(s: State) returns (s1: State)
    requires PendingInv(s) && s.run.Correlating?
    ensures Leads(s, [ByLoop(DeliverPending)], s1) && s1.run.Looping? && s1.closing == s.closing
  {
    hide Leads, ChansOk, RequestsOk, WaitersOk;
    s1 := LoopNext(s, DeliverPending);
    LoopLeads(s, DeliverPending);
  }

  lemma DownFromCorrelating(s: State) returns (steps: seq<Step>, s': State)
    requires Good(s) && s.run.Correlating? && s.closing.Unlocked?
    ensures Leads(s, steps, s') && Down(s')
  {
    hide Leads, SlotInv, PendingInv, QueueInv, ReceiptInv, TeardownOk, IdleOk;
    var s1 := Delivers(s);
    LeadsKeeps(s, [ByLoop(DeliverPending)], s1);
    steps, s' := DownFromLooping(s1);
    LeadsOn(s, [ByLoop(DeliverPending)], s1, steps, s');
    steps := [ByLoop(DeliverPending)] + steps;
  }

  lemma DownFromGreeting(s: State) returns (steps: seq<Step>, s': State)
    requires s.run.Greeting? && s.closing.Unlocked?
    ensures Leads(s, steps, s') && Down(s')
  {
    hide Leads;
    var s1 := RunNext(s, GreetFailed);
    RunLeads(s, GreetFailed);
    steps, s' := RunCloses(s1);
    LeadsOn(s, [ByRun(GreetFailed)], s1, steps, s');
    steps := [ByRun(GreetFailed)] + steps;
  }

  lemma DownUnlocked(s: State) returns (steps: seq<Step>, s': State)
    requires Good(s) && s.closing.Unlocked?
    ensures Leads(s, steps, s') && Down(s')
  {
    hide Leads, Inv, TeardownOk;
    match s.run
    case Idle =>
      LeadsNowhere(s);
      steps, s' := [], s;
    case Greeting => steps, s' := DownFromGreeting(s);
    case Looping => steps, s' := DownFromLooping(s);
    case Correlating(_) => steps, s' := DownFromCorrelating(s);
    case Unpublished => steps, s' := DownFromUnpublished(s);
    case WorkerCancelled => steps, s' := DownFromCancelled(s);
    case QueueClosed => steps, s' := DownFromQueueClosed(s);
    case Closing => steps, s' := RunCloses(s);
  }

  /** Wherever Run stands and whoever holds the lock, the client can be brought down. */
  lemma GoesDown(s: State) returns (steps: seq<Step>, s': State)
    requires Good(s)
    ensures Leads(s, steps, s') && Down(s')
  {
    hide Leads, Good;
    var s1, more;
    steps, s1 := LockComesFree(s);
    LeadsKeeps(s, steps, s1);
    more, s' := DownUnlocked(s1);
    LeadsOn(s, steps, s1, more, s');
    steps := steps + more;
  }

  // ----- and up again -----

  lemma {:induction false} SendsLeaveRun(s: State, steps: seq<Step>, s': State)
    requires Leads(s, steps, s') && forall i :: 0 <= i < |steps| ==> steps[i].ByCall? || steps[i].BySender?
    ensures s'.run == s.run && s'.stream == s.stream && s'.closing == s.closing
    decreases |steps|
  {
    hide CallNext, SendNext, CallEnabled, SendEnabled, StartNext, StartEnabled, RunNext, RunEnabled,
      LoopNext, LoopEnabled, WorkerNext, WorkerEnabled, CloseNext, CloseEnabled, ControlNext, ControlEnabled;
    if steps != [] {
      if steps[0].BySender? {
        SendKeepsLink(s, steps[0].t, steps[0].send);
      }
      SendsLeaveRun(Next(s, steps[0]), steps[1..], s');
    }
  }

  lemma SendKeepsLink(s: State, t: CallId, step: SendStep)
    requires SendEnabled(s, t, step)
    ensures SendNext(s, t, step).stream == s.stream && SendNext(s, t, step).closing == s.closing
  {
  }

  /** A send left over from before gives the slot back. */
  lemma SlotFreed(s: State) returns (steps: seq<Step>, s': State)
    requires SlotInv(s) && Down(s)
    ensures Leads(s, steps, s') && Down(s') && s'.slot == 0
  {
    hide Leads, Enabled, Next, SlotInv;
    SlotIsOne(s);
    if s.slot == 0 {
      LeadsNowhere(s);
      steps, s' := [], s;
    } else {
      var t;
      t, steps, s' := SlotComesFree(s);
      SendsLeaveRun(s, steps, s');
    }
  }

  lemma SlotIsOne(s: State)
    requires SlotInv(s)
    ensures s.slot <= 1
  {
    hide SendersMatch;
  }

  /** Run is started again and serves. */
  lemma ComesUp(s: State) returns (steps: seq<Step>, s': State)
    requires Down(s) && s.slot == 0
    ensures Leads(s, steps, s') && Serving(s') && s'.calls == s.calls
  {
    hide Leads;
    var s1 := RunNext(s, Connect);
    RunLeads(s, Connect);
    s' := RunNext(s1, Greeted);
    RunLeads(s1, Greeted);
    LeadsOn(s, [ByRun(Connect)], s1, [ByRun(Greeted)], s');
    steps := [ByRun(Connect)] + [ByRun(Greeted)];
  }

  lemma ServesAgain(s: State) returns (steps: seq<Step>, s': State)
    requires Good(s)
    ensures Leads(s, steps, s') && Serving(s') && s.issued <= s'.issued
  {
    hide Leads, Good, Serving, Down;
    var s1, s2, more, last;
    steps, s1 := GoesDown(s);
    LeadsKeeps(s, steps, s1);
    GoodSlot(s1);
    more, s2 := SlotFreed(s1);
    LeadsOn(s, steps, s1, more, s2);
    steps := steps + more;
    last, s' := ComesUp(s2);
    LeadsOn(s, steps, s2, last, s');
    steps := steps + last;
    LeadsKeeps(s, steps, s');
  }

  lemma GoodSlot(s: State)
    requires Good(s)
    ensures SlotInv(s)
  {
    hide SlotInv, PendingInv, QueueInv, ReceiptInv, TeardownOk;
  }

  /** There is always another call to make. */
  lemma {:induction false} FreshCall(ids: set<CallId>) returns (t: CallId)
    ensures t !in ids && forall u :: u in ids ==> u < t
    decreases |ids|
  {
    if ids == {} {
      t := 0;
    } else {
      var u :| u in ids;
      var v := FreshCall(ids - {u});
      assert forall x :: x in ids ==> x == u || x in ids - {u};
      t := if u < v then v else u + 1;
    }
  }

  /** From every state of every run, any delivery control has issued can still be recorded by the handler and
      receipted to control. */
  lemma EveryDeliveryCanBeReceipted(states: seq<State>, steps: seq<Step>, n: nat, d: DeliveryId)
    returns (more: seq<Step>, s': State)
    requires IsRun(states, steps) && n < |states| && d in states[n].issued
    ensures Leads(states[n], more, s') && d in s'.durable && d in s'.receipted
  {
    hide Leads, Enabled, Next, Good, Serving;
    RunIsGood(states, steps, n);
    var s := states[n];
    var s1, last;
    more, s1 := ServesAgain(s);
    var call := FreshCall(s1.calls.Keys);
    last, s' := DeliveryCanBeReceipted(s1, d, call);
    LeadsOn(s, more, s1, last, s');
    more := more + last;
  }
}
