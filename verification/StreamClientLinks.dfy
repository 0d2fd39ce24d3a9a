/**
 What ties the parts of a run of the stream client together over time (client.go): which stream a call or a send
 belongs to after a reconnect, what is still handled once the caller's context has ended, and when the handler has
 kept its contract.
 */
module StreamClientLinks {
  import opened Text
  import opened StreamClient
  import opened StreamClientProofs
  import opened StreamClientTeardown

  // ----- streams -----

  /** The stream a call has read and not yet handed to a goroutine. */
  predicate Holds(call: Call, stream: nat) {
    (call.pc.GotStream? || call.pc.Queued? || call.pc.HoldsSlot?) && call.pc.stream == stream
  }

  /** Some call or some send goroutine works on this stream. */
  ghost predicate InUse(s: State, stream: nat) {
    || (exists t :: t in s.calls && Holds(s.calls[t], stream))
    || (exists t :: t in s.senders && s.senders[t].stream == stream)
  }

  /** Every stream in use has been opened, and the present one is the last. */
  ghost predicate StreamsOk(s: State) {
    && (forall k: nat :: InUse(s, k) ==> k < s.nextStream)
    && (s.stream.Some? ==> s.stream.value + 1 == s.nextStream)
  }

  /** The step opens no stream, and what is in use after it was in use or present before. */
  ghost predicate OpensNone(s: State, s': State) {
    && s'.nextStream == s.nextStream && (s'.stream == s.stream || s'.stream.None?)
    && (forall k: nat :: InUse(s', k) ==> InUse(s, k) || s.stream == Some(k))
  }

  lemma CallOpensNone(s: State, t: CallId, step: CallStep)
    requires CallEnabled(s, t, step)
    ensures OpensNone(s, CallNext(s, t, step))
  {
    hide WaitsOn;
    var s' := CallNext(s, t, step);
    forall k: nat | InUse(s', k)
      ensures InUse(s, k) || s.stream == Some(k)
    {
      OnlyThis(s, t, step, k);
    }
  }

  lemma OnlyThis(s: State, t: CallId, step: CallStep, k: nat)
    requires CallEnabled(s, t, step) && InUse(CallNext(s, t, step), k)
    ensures InUse(s, k) || s.stream == Some(k)
  {
    hide WaitsOn;
    var s' := CallNext(s, t, step);
    if exists u :: u in s'.calls && Holds(s'.calls[u], k) {
      var u :| u in s'.calls && Holds(s'.calls[u], k);
      assert u != t ==> s'.calls[u] == s.calls[u];
      assert u == t ==> Holds(s.calls[t], k) || s.stream == Some(k);
    } else {
      var u :| u in s'.senders && s'.senders[u].stream == k;
      assert !(u in s.senders && s.senders[u].stream == k) ==> u == t && Holds(s.calls[t], k);
    }
  }

  lemma StartOpensNone(s: State, t: CallId, step: StartStep)
    requires StartEnabled(s, t, step)
    ensures OpensNone(s, StartNext(s, t, step))
  {
  }

  lemma SendOpensNone(s: State, t: CallId, step: SendStep)
    requires SendEnabled(s, t, step)
    ensures OpensNone(s, SendNext(s, t, step))
  {
  }

  lemma WorkerOpensNone(s: State, step: WorkerStep)
    requires WorkerEnabled(s, step)
    ensures OpensNone(s, WorkerNext(s, step))
  {
  }

  lemma RunOpens(s: State, step: RunStep)
    requires RunEnabled(s, step)
    ensures var s' := RunNext(s, step);
            if step.Connect? then s'.stream == Some(s.nextStream) && s'.nextStream == s.nextStream + 1 && forall k: nat :: InUse(s', k) <==> InUse(s, k)
            else OpensNone(s, s')
  {
  }

  lemma LoopOpensNone(s: State, step: LoopStep)
    requires LoopEnabled(s, step)
    ensures OpensNone(s, LoopNext(s, step))
  {
  }

  lemma CloseOpensNone(s: State, step: CloseStep)
    requires CloseEnabled(s, step)
    ensures OpensNone(s, CloseNext(s, step))
  {
  }

  lemma ControlOpensNone(s: State, step: ControlStep)
    requires ControlEnabled(s, step)
    ensures OpensNone(s, ControlNext(s, step))
  {
  }

  lemma StreamStep(s: State, step: Step)
    requires Enabled(s, step)
    ensures var s' := Next(s, step);
            if step == ByRun(Connect) then
              s'.stream == Some(s.nextStream) && s'.nextStream == s.nextStream + 1 && forall k: nat :: InUse(s', k) <==> InUse(s, k)
            else OpensNone(s, s')
  {
    hide StartNext, CallNext, SendNext, RunNext, LoopNext, WorkerNext, CloseNext, ControlNext,
      StartEnabled, CallEnabled, SendEnabled, RunEnabled, LoopEnabled, WorkerEnabled, CloseEnabled, ControlEnabled, InUse, OpensNone;
    match step
    case ByStart(t, start) => StartOpensNone(s, t, start);
    case ByCall(t, call) => CallOpensNone(s, t, call);
    case BySender(t, send) => SendOpensNone(s, t, send);
    case ByRun(r) => RunOpens(s, r);
    case ByLoop(l) => LoopOpensNone(s, l);
    case ByWorker(w) => WorkerOpensNone(s, w);
    case ByClose(c) => CloseOpensNone(s, c);
    case ByControl(k) => ControlOpensNone(s, k);
  }

  lemma {:induction false} RunKeepsStreams(states: seq<State>, steps: seq<Step>, n: nat)
    requires IsRun(states, steps) && n <= |steps|
    ensures StreamsOk(states[n])
  {
    hide Enabled, Next;
    if n > 0 {
      RunKeepsStreams(states, steps, n - 1);
      hide InUse;
      StreamStep(states[n - 1], steps[n - 1]);
    }
  }

  lemma {:induction false} StreamsOnlyGrow(states: seq<State>, steps: seq<Step>, m: nat, n: nat)
    requires IsRun(states, steps) && m <= n <= |steps|
    ensures states[m].nextStream <= states[n].nextStream
    ensures (exists i :: m <= i < n && steps[i] == ByRun(Connect)) ==> states[m].nextStream < states[n].nextStream
  {
    hide Enabled, Next, InUse;
    if m < n {
      StreamsOnlyGrow(states, steps, m, n - 1);
      StreamStep(states[n - 1], steps[n - 1]);
    }
  }

  /** In every run a reconnect opens a stream of its own: whatever stream a call or a send goroutine was working on
      before, and the one that was present then, is not the present stream at any later time. What was on its way
      when the connection went down never reaches the new one. */
  lemma OldStreamsStayOld(states: seq<State>, steps: seq<Step>, m: nat, i: nat, n: nat, stream: nat)
    requires IsRun(states, steps) && m <= i < n <= |steps| && steps[i] == ByRun(Connect)
    requires InUse(states[m], stream) || states[m].stream == Some(stream)
    ensures states[n].stream != Some(stream)
  {
    hide Enabled, Next, InUse;
    RunKeepsStreams(states, steps, m);
    RunKeepsStreams(states, steps, n);
    StreamsOnlyGrow(states, steps, m, n);
  }

  // ----- the caller's context -----

  lemma RunWithEndedContext(s: State, step: RunStep)
    requires RunEnabled(s, step) && s.ctxDone && !step.Connect? && WorkerOk(s.run, s.worker)
    ensures var s' := RunNext(s, step); s'.ctxDone && Committed(s, s')
  {
  }

  lemma WorkerWithEndedContext(s: State, step: WorkerStep)
    requires WorkerEnabled(s, step)
    ensures WorkerNext(s, step).ctxDone == s.ctxDone
  {
  }

  lemma StartKeepsContext(s: State, t: CallId, step: StartStep)
    requires StartEnabled(s, t, step)
    ensures StartNext(s, t, step).ctxDone == s.ctxDone
  {
  }

  lemma CallKeepsContext(s: State, t: CallId, step: CallStep)
    requires CallEnabled(s, t, step)
    ensures CallNext(s, t, step).ctxDone == s.ctxDone
  {
    hide WaitsOn;
  }

  lemma SendKeepsContext(s: State, t: CallId, step: SendStep)
    requires SendEnabled(s, t, step)
    ensures SendNext(s, t, step).ctxDone == s.ctxDone && SendNext(s, t, step).contractKept == s.contractKept
  {
  }

  lemma LoopKeepsContext(s: State, step: LoopStep)
    requires LoopEnabled(s, step)
    ensures LoopNext(s, step).ctxDone == s.ctxDone
  {
  }

  lemma CloseKeepsContext(s: State, step: CloseStep)
    requires CloseEnabled(s, step)
    ensures CloseNext(s, step).ctxDone == s.ctxDone
  {
    hide CloseAll;
  }

  lemma ControlKeepsContext(s: State, step: ControlStep)
    requires ControlEnabled(s, step)
    ensures ControlNext(s, step).ctxDone == s.ctxDone && ControlNext(s, step).contractKept == s.contractKept
  {
  }

  lemma EndedStep(s: State, step: Step)
    requires Enabled(s, step) && s.ctxDone && step != ByRun(Connect) && QueueInv(s)
    ensures var s' := Next(s, step); s'.ctxDone && Committed(s, s')
  {
    hide StartNext, CallNext, SendNext, RunNext, LoopNext, WorkerNext, CloseNext, ControlNext,
      StartEnabled, CallEnabled, SendEnabled, RunEnabled, LoopEnabled, WorkerEnabled, CloseEnabled, ControlEnabled, QueueOk;
    match step
    case ByStart(t, start) => StartKeepsContext(s, t, start);
    case ByCall(t, call) => CallKeepsContext(s, t, call);
    case BySender(t, send) => SendKeepsContext(s, t, send);
    case ByRun(r) => RunWithEndedContext(s, r);
    case ByLoop(l) => LoopKeepsContext(s, l);
    case ByWorker(w) =>
      WorkerKeepsCommitted(s, w);
      WorkerWithEndedContext(s, w);
    case ByClose(c) => CloseKeepsContext(s, c);
    case ByControl(k) => ControlKeepsContext(s, k);
  }

  lemma {:induction false} EndedKept(states: seq<State>, steps: seq<Step>, m: nat, n: nat)
    requires IsRun(states, steps) && m <= n <= |steps| && states[m].ctxDone
    requires forall k :: m <= k < n ==> steps[k] != ByRun(Connect)
    ensures states[n].ctxDone && Committed(states[m], states[n])
  {
    hide Enabled, Next;
    if m < n {
      EndedKept(states, steps, m, n - 1);
      QueueInvHolds(states, steps, n - 1);
      hide QueueInv;
      EndedStep(states[n - 1], steps[n - 1]);
    }
  }

  lemma QueueInvHolds(states: seq<State>, steps: seq<Step>, n: nat)
    requires IsRun(states, steps) && n < |states|
    ensures QueueInv(states[n])
  {
    hide Enabled, Next, SlotInv, PendingInv, QueueInv, ReceiptInv;
    RunKeepsInv(states, steps, n);
  }

  lemma ContextEnds(s: State)
    requires Enabled(s, ByRun(CancelContext))
    ensures var s' := Next(s, ByRun(CancelContext)); s'.ctxDone && s'.handled == s.handled && s'.worker == s.worker
  {
  }

  /** In every run, from the moment the caller's context ends up to the next connection: whatever arrives or is
      queued, the only delivery still handed to the handler is the one the worker had cleared at that moment. */
  lemma EndedContextLeavesOnlyTheCleared(states: seq<State>, steps: seq<Step>, m: nat, n: nat)
    requires IsRun(states, steps) && m < n <= |steps| && steps[m] == ByRun(CancelContext)
    requires forall k :: m < k < n ==> steps[k] != ByRun(Connect)
    ensures states[n].ctxDone
    ensures states[n].handled == states[m].handled || states[n].handled == states[m].handled + Bound(states[m].worker)
    ensures !states[n].worker.Cleared? ==> states[n].handled == states[m].handled + Bound(states[m].worker)
  {
    hide Enabled, Next;
    ContextEnds(states[m]);
    EndedKept(states, steps, m + 1, n);
    assert |states[n].handled + Bound(states[n].worker)| == |states[m].handled + Bound(states[m].worker)|;
  }

  // ----- the handler's contract -----

  /** The step is a nil return of the handler for a delivery that is not on record when it returns. */
  predicate Breaks(s: State, step: Step, s': State) {
    step.ByWorker? && step.w.ReturnNil? && s.worker.Handling? && s.worker.i < |s.received| && s.received[s.worker.i] !in s'.durable
  }

  lemma WorkerBreaks(s: State, step: WorkerStep)
    requires WorkerEnabled(s, step)
    ensures WorkerNext(s, step).contractKept <==> s.contractKept && !Breaks(s, ByWorker(step), WorkerNext(s, step))
  {
  }

  lemma ContractStep(s: State, step: Step)
    requires Enabled(s, step)
    ensures Next(s, step).contractKept <==> s.contractKept && !Breaks(s, step, Next(s, step))
  {
    hide StartNext, CallNext, SendNext, RunNext, LoopNext, WorkerNext, CloseNext, ControlNext,
      StartEnabled, CallEnabled, SendEnabled, RunEnabled, LoopEnabled, WorkerEnabled, CloseEnabled, ControlEnabled;
    match step
    case BySender(t, send) => SendKeepsContext(s, t, send);
    case ByWorker(w) => WorkerBreaks(s, w);
    case ByControl(k) => ControlKeepsContext(s, k);
    case _ =>
  }

  /** The handler has kept its contract exactly if each delivery it returned nil for was on record by then. */
  lemma {:induction false} ContractMeaning(states: seq<State>, steps: seq<Step>, n: nat)
    requires IsRun(states, steps) && n <= |steps|
    ensures states[n].contractKept <==> forall i :: 0 <= i < n ==> !Breaks(states[i], steps[i], states[i + 1])
  {
    hide Enabled, Next, Breaks;
    if n > 0 {
      ContractMeaning(states, steps, n - 1);
      ContractStep(states[n - 1], steps[n - 1]);
    }
  }
}
