/**
 What a call of the stream client reports is what happened to it (client.go): in every run each outcome goes back
 to one step of that call, taken in a state that justifies it, and a result of `stream.Send` goes back to the end of
 that call's own send.
 */
module StreamClientOutcomes {
  import opened StreamClient
  import opened StreamClientProofs

  /** The call is on its way out, or out, with outcome `o`. */
  predicate Reports(call: Call, o: Outcome) {
    (call.pc.Returning? || call.pc.Returned?) && call.pc.outcome == o
  }

  predicate HasResult(s: State, t: CallId, ok: bool) {
    t in s.senders && s.senders[t].phase == Published(ok)
  }

  /** Step `step`, taken in state `s`, is a reason for call `t` to report `o`. */
  predicate Cause(s: State, step: Step, t: CallId, o: Outcome) {
    t in s.calls &&
    var call := s.calls[t];
    match o
    case NotConnected => step == ByCall(t, ReadStream) && s.stream.None?
    case Cancelled =>
      || step == ByCall(t, CheckContext(true)) || step == ByCall(t, AbandonSlot)
      || step == ByCall(t, AbandonSend) || step == ByCall(t, AbandonReply)
    case SendFailed => step == ByCall(t, TakeSendResult) && HasResult(s, t, false)
    case Sent => step == ByCall(t, TakeSendResult) && HasResult(s, t, true) && !call.msg.Request?
    case Reply(msg) =>
      && step == ByCall(t, TakeReply) && call.pc.AwaitReply? && call.msg.Request? && call.msg.id in s.chans
      && s.chans[call.msg.id].buf != [] && s.chans[call.msg.id].buf[0] == msg
    case StreamClosed =>
      && step == ByCall(t, SeeClosed) && call.pc.AwaitReply? && call.msg.Request? && call.msg.id in s.chans
      && s.chans[call.msg.id] == Chan([], true)
  }

  /** Waiting for a response begins with the result of a successful send of a request. */
  predicate Begins(s: State, step: Step, t: CallId) {
    step == ByCall(t, TakeSendResult) && HasResult(s, t, true) && t in s.calls && s.calls[t].msg.Request?
  }

  // ----- one step -----

  lemma SendResultStep(s: State, t: CallId)
    requires CallEnabled(s, t, TakeSendResult)
    ensures var pc := CallNext(s, t, TakeSendResult).calls[t].pc;
            if HasResult(s, t, false) then pc == Returning(SendFailed)
            else HasResult(s, t, true) && pc == if s.calls[t].msg.Request? then AwaitReply else Returning(Sent)
  {
  }

  lemma ReplySteps(s: State, t: CallId)
    ensures CallEnabled(s, t, TakeReply) ==>
              exists m :: Cause(s, ByCall(t, TakeReply), t, Reply(m)) && CallNext(s, t, TakeReply).calls[t].pc == Returning(Reply(m))
    ensures CallEnabled(s, t, SeeClosed) ==>
              Cause(s, ByCall(t, SeeClosed), t, StreamClosed) && CallNext(s, t, SeeClosed).calls[t].pc == Returning(StreamClosed)
  {
    if CallEnabled(s, t, TakeReply) {
      var m := s.chans[s.calls[t].msg.id].buf[0];
      assert Cause(s, ByCall(t, TakeReply), t, Reply(m));
    }
  }

  lemma QuietSteps(s: State, t: CallId, step: CallStep)
    requires CallEnabled(s, t, step) && !step.TakeSendResult? && !step.TakeReply? && !step.SeeClosed?
    ensures var pc := CallNext(s, t, step).calls[t].pc;
            && !pc.AwaitReply?
            && (forall o :: Reports(s.calls[t].(pc := pc), o) ==> Reports(s.calls[t], o) || Cause(s, ByCall(t, step), t, o))
  {
    hide WaitsOn;
  }

  lemma OwnStep(s: State, t: CallId, step: CallStep, o: Outcome)
    requires CallEnabled(s, t, step)
    ensures t in CallNext(s, t, step).calls && CallNext(s, t, step).calls[t].msg == s.calls[t].msg
    ensures Reports(CallNext(s, t, step).calls[t], o) ==> Reports(s.calls[t], o) || Cause(s, ByCall(t, step), t, o)
    ensures CallNext(s, t, step).calls[t].pc.AwaitReply? ==> Begins(s, ByCall(t, step), t)
  {
    hide CallEnabled, CallNext, Cause;
    SameMessage(s, t, step);
    match step
    case TakeSendResult =>
      SendResultStep(s, t);
      SendCauses(s, t);
    case TakeReply => ReplySteps(s, t);
    case SeeClosed => ReplySteps(s, t);
    case _ => QuietSteps(s, t, step);
  }

  lemma SendCauses(s: State, t: CallId)
    requires t in s.calls
    ensures HasResult(s, t, false) ==> Cause(s, ByCall(t, TakeSendResult), t, SendFailed)
    ensures HasResult(s, t, true) && !s.calls[t].msg.Request? ==> Cause(s, ByCall(t, TakeSendResult), t, Sent)
  {
  }

  lemma OnlyOwnPc(s: State, t: CallId, step: CallStep)
    requires CallEnabled(s, t, step)
    ensures t in s.calls && t in CallNext(s, t, step).calls
    ensures CallNext(s, t, step).calls == s.calls[t := s.calls[t].(pc := CallNext(s, t, step).calls[t].pc)]
  {
    hide WaitsOn;
  }

  lemma SameMessage(s: State, t: CallId, step: CallStep)
    requires CallEnabled(s, t, step)
    ensures t in s.calls && t in CallNext(s, t, step).calls && CallNext(s, t, step).calls[t].msg == s.calls[t].msg
    ensures forall u :: u != t ==> (u in CallNext(s, t, step).calls <==> u in s.calls)
    ensures forall u :: u in s.calls && u != t ==> CallNext(s, t, step).calls[u] == s.calls[u]
  {
    hide CallNext, CallEnabled;
    OnlyOwnPc(s, t, step);
  }

  /** A new call is entered, all others stay as they are. */
  predicate Adds(s: State, s': State) {
    forall u :: u in s'.calls ==> (u in s.calls && s'.calls[u] == s.calls[u]) || (u !in s.calls && s'.calls[u].pc == Entered)
  }

  lemma StartAdds(s: State, t: CallId, step: StartStep)
    requires StartEnabled(s, t, step)
    ensures Adds(s, StartNext(s, t, step))
  {
  }

  lemma WorkerAdds(s: State, step: WorkerStep)
    requires WorkerEnabled(s, step)
    ensures Adds(s, WorkerNext(s, step))
  {
  }

  /** After any step an outcome is an old one or has its reason in that step; likewise for waiting. */
  lemma OutcomeStep(s: State, step: Step, t: CallId, o: Outcome)
    requires Enabled(s, step) && t in Next(s, step).calls
    ensures var call := Next(s, step).calls[t];
            && (Reports(call, o) ==> (t in s.calls && Reports(s.calls[t], o)) || Cause(s, step, t, o))
            && (call.pc.AwaitReply? ==> (t in s.calls && s.calls[t].pc.AwaitReply?) || Begins(s, step, t))
  {
    hide StartNext, CallNext, SendNext, RunNext, LoopNext, WorkerNext, CloseNext, ControlNext,
      StartEnabled, CallEnabled, SendEnabled, RunEnabled, LoopEnabled, WorkerEnabled, CloseEnabled, ControlEnabled, Cause;
    match step
    case ByStart(u, start) => StartAdds(s, u, start);
    case ByCall(u, call) =>
      SameMessage(s, u, call);
      if u == t {
        OwnStep(s, t, call, o);
      }
    case ByWorker(w) => WorkerAdds(s, w);
    case _ =>
  }

  // ----- results of sends -----

  /** The phase carries the result of the send. */
  predicate Carries(phase: SendPhase, ok: bool) {
    (phase.SendDone? || phase.Released? || phase.Published?) && phase.ok == ok
  }

  lemma ResultBySender(s: State, u: CallId, step: SendStep, t: CallId, ok: bool)
    requires SendEnabled(s, u, step) && t in SendNext(s, u, step).senders
    ensures Carries(SendNext(s, u, step).senders[t].phase, ok) ==>
              (t in s.senders && Carries(s.senders[t].phase, ok)) || (u == t && step.End? && step.ok == ok)
  {
  }

  lemma ResultByCall(s: State, u: CallId, step: CallStep, t: CallId, ok: bool)
    requires CallEnabled(s, u, step) && t in CallNext(s, u, step).senders
    ensures Carries(CallNext(s, u, step).senders[t].phase, ok) ==> t in s.senders && Carries(s.senders[t].phase, ok)
  {
    hide CallEnabled, WaitsOn;
  }

  lemma ResultStep(s: State, step: Step, t: CallId, ok: bool)
    requires Enabled(s, step) && t in Next(s, step).senders
    ensures Carries(Next(s, step).senders[t].phase, ok) ==>
              || (t in s.senders && Carries(s.senders[t].phase, ok))
              || (step.BySender? && step.t == t && step.send.End? && step.send.ok == ok)
  {
    hide StartNext, CallNext, SendNext, RunNext, LoopNext, WorkerNext, CloseNext, ControlNext,
      StartEnabled, CallEnabled, SendEnabled, RunEnabled, LoopEnabled, WorkerEnabled, CloseEnabled, ControlEnabled;
    match step
    case ByCall(u, call) => ResultByCall(s, u, call, t, ok);
    case BySender(u, send) => ResultBySender(s, u, send, t, ok);
    case _ =>
  }

  // ----- whole runs -----

  /** The goroutine of call `t` ended its stream.Send with this result, at some step before `n`. */
  predicate SendReturned(steps: seq<Step>, n: nat, t: CallId, ok: bool) {
    exists k :: 0 <= k < n && k < |steps| && steps[k].BySender? && steps[k].t == t && steps[k].send.End? && steps[k].send.ok == ok
  }

  lemma {:induction false} ResultsAreReturned(states: seq<State>, steps: seq<Step>, n: nat, t: CallId, ok: bool)
    requires IsRun(states, steps) && n < |states| && t in states[n].senders && Carries(states[n].senders[t].phase, ok)
    ensures SendReturned(steps, n, t, ok)
  {
    hide Enabled, Next;
    if n > 0 {
      ResultStep(states[n - 1], steps[n - 1], t, ok);
      if t in states[n - 1].senders && Carries(states[n - 1].senders[t].phase, ok) {
        ResultsAreReturned(states, steps, n - 1, t, ok);
        var k :| 0 <= k < n - 1 && k < |steps| && steps[k].BySender? && steps[k].t == t && steps[k].send.End? && steps[k].send.ok == ok;
        assert steps[k].send.ok == ok;
      }
    }
  }

  predicate Caused(states: seq<State>, steps: seq<Step>, n: nat, t: CallId, o: Outcome)
    requires |states| == |steps| + 1 && n <= |steps|
  {
    exists k :: 0 <= k < n && Cause(states[k], steps[k], t, o)
  }

  lemma {:induction false} OutcomesHaveCauses(states: seq<State>, steps: seq<Step>, n: nat, t: CallId, o: Outcome)
    requires IsRun(states, steps) && n <= |steps| && t in states[n].calls && Reports(states[n].calls[t], o)
    ensures Caused(states, steps, n, t, o)
  {
    hide Enabled, Next, Cause;
    if n > 0 {
      OutcomeStep(states[n - 1], steps[n - 1], t, o);
      if t in states[n - 1].calls && Reports(states[n - 1].calls[t], o) {
        OutcomesHaveCauses(states, steps, n - 1, t, o);
        var k :| 0 <= k < n - 1 && Cause(states[k], steps[k], t, o);
        assert Cause(states[k], steps[k], t, o);
      }
    }
  }

  lemma {:induction false} WaitersHaveSent(states: seq<State>, steps: seq<Step>, n: nat, t: CallId)
    requires IsRun(states, steps) && n <= |steps| && t in states[n].calls && states[n].calls[t].pc.AwaitReply?
    ensures SendReturned(steps, n, t, true)
  {
    hide Enabled, Next;
    if n > 0 {
      OutcomeStep(states[n - 1], steps[n - 1], t, Sent);
      if t in states[n - 1].calls && states[n - 1].calls[t].pc.AwaitReply? {
        WaitersHaveSent(states, steps, n - 1, t);
      } else {
        ResultsAreReturned(states, steps, n - 1, t, true);
      }
      var k :| 0 <= k < n - 1 && k < |steps| && steps[k].BySender? && steps[k].t == t && steps[k].send.End? && steps[k].send.ok;
      assert steps[k].send.ok == true;
    }
  }

  /** What each outcome says about the run up to state `n`. */
  ghost predicate Justified(states: seq<State>, steps: seq<Step>, n: nat, t: CallId, o: Outcome)
    requires |states| == |steps| + 1 && n <= |steps|
  {
    && Caused(states, steps, n, t, o)
    && (o.Sent? || o.Reply? || o.StreamClosed? ==> SendReturned(steps, n, t, true))
    && (o.SendFailed? ==> SendReturned(steps, n, t, false))
  }

  /** In every run, what a call reports is what happened to it: not connected only if it read no stream, cancelled
      only if it saw its context end, sent only after its own stream.Send returned nil and it asked for no
      response, a failure only after its own stream.Send returned an error, a response only out of its own channel
      and a closed stream only on its own closed channel, both after a successful send. */
  lemma OutcomesAreTrue(states: seq<State>, steps: seq<Step>, n: nat, t: CallId, o: Outcome)
    requires IsRun(states, steps) && n <= |steps| && t in states[n].calls && Reports(states[n].calls[t], o)
    ensures Justified(states, steps, n, t, o)
  {
    hide Enabled, Next;
    OutcomesHaveCauses(states, steps, n, t, o);
    var k :| 0 <= k < n && Cause(states[k], steps[k], t, o);
    match o
    case Sent => ResultsAreReturned(states, steps, k, t, true); Later(steps, k, n, t, true);
    case SendFailed => ResultsAreReturned(states, steps, k, t, false); Later(steps, k, n, t, false);
    case Reply(_) => WaitersHaveSent(states, steps, k, t); Later(steps, k, n, t, true);
    case StreamClosed => WaitersHaveSent(states, steps, k, t); Later(steps, k, n, t, true);
    case _ =>
  }

  lemma Later(steps: seq<Step>, k: nat, n: nat, t: CallId, ok: bool)
    requires SendReturned(steps, k, t, ok) && k <= n
    ensures SendReturned(steps, n, t, ok)
  {
    var j :| 0 <= j < k && j < |steps| && steps[j].BySender? && steps[j].t == t && steps[j].send.End? && steps[j].send.ok == ok;
    assert steps[j].send.ok == ok;
  }
}
