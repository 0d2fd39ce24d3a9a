/**
 What the stream client can always still do. Safety alone would hold of a client that never sends anything;
 these lemmas give, from every state of the described kind, a continuation that gets there.
 */
module StreamClientProgress {
  import opened StreamClient
  import opened StreamClientProofs

  /** The steps are enabled one after the other and lead from `s` to `s'`. */
  ghost predicate Leads(s: State, steps: seq<Step>, s': State)
    decreases |steps|
  {
    if steps == [] then s == s' else Enabled(s, steps[0]) && Leads(Next(s, steps[0]), steps[1..], s')
  }

  lemma LeadsOne(s: State, step: Step)
    requires Enabled(s, step)
    ensures Leads(s, [step], Next(s, step))
  {
    hide Enabled, Next;
    assert [step][1..] == [];
    assert Leads(Next(s, step), [], Next(s, step));
  }

  lemma {:induction false} LeadsOn(s: State, a: seq<Step>, m: State, b: seq<Step>, e: State)
    requires Leads(s, a, m) && Leads(m, b, e)
    ensures Leads(s, a + b, e)
    decreases |a|
  {
    hide Enabled, Next;
    if a == [] {
      assert a + b == b;
    } else {
      assert (a + b)[1..] == a[1..] + b && (a + b)[0] == a[0];
      LeadsOn(Next(s, a[0]), a[1..], m, b, e);
    }
  }

  lemma Then(s: State, steps: seq<Step>, m: State, step: Step)
    requires Leads(s, steps, m) && Enabled(m, step)
    ensures Leads(s, steps + [step], Next(m, step))
  {
    hide Leads, Enabled, Next;
    LeadsOne(m, step);
    LeadsOn(s, steps, m, [step], Next(m, step));
  }

  // ----- the slot always comes free -----

  lemma FromDone(s: State, t: CallId) returns (s': State)
    requires t in s.senders && s.senders[t].phase.SendDone? && s.slot == 1
    ensures Leads(s, [BySender(t, ReleaseSlot)], s') && s'.slot == 0
  {
    LeadsOne(s, BySender(t, ReleaseSlot));
    s' := SendNext(s, t, ReleaseSlot);
  }

  lemma FromFlight(s: State, t: CallId) returns (s': State)
    requires t in s.senders && s.senders[t].phase.InFlight? && s.slot == 1
    ensures Leads(s, [BySender(t, End(true, true)), BySender(t, ReleaseSlot)], s') && s'.slot == 0
  {
    hide Leads;
    var s1 := SendNext(s, t, End(true, true));
    SenderLeads(s, t, End(true, true));
    s' := FromDone(s1, t);
    LeadsOn(s, [BySender(t, End(true, true))], s1, [BySender(t, ReleaseSlot)], s');
    assert [BySender(t, End(true, true))] + [BySender(t, ReleaseSlot)] == [BySender(t, End(true, true)), BySender(t, ReleaseSlot)];
  }

  lemma FromStart(s: State, t: CallId) returns (s': State)
    requires t in s.senders && s.senders[t].phase.Starting? && s.slot == 1
    ensures Leads(s, [BySender(t, Begin), BySender(t, End(true, true)), BySender(t, ReleaseSlot)], s') && s'.slot == 0
  {
    hide Leads;
    var s1 := SendNext(s, t, Begin);
    SenderLeads(s, t, Begin);
    s' := FromFlight(s1, t);
    LeadsOn(s, [BySender(t, Begin)], s1, [BySender(t, End(true, true)), BySender(t, ReleaseSlot)], s');
    assert [BySender(t, Begin)] + [BySender(t, End(true, true)), BySender(t, ReleaseSlot)]
        == [BySender(t, Begin), BySender(t, End(true, true)), BySender(t, ReleaseSlot)];
  }

  lemma SenderLeads(s: State, t: CallId, send: SendStep)
    requires SendEnabled(s, t, send)
    ensures Leads(s, [BySender(t, send)], SendNext(s, t, send))
  {
    hide SendNext, SendEnabled;
    LeadsOne(s, BySender(t, send));
  }

  lemma SenderReleases(s: State, t: CallId) returns (steps: seq<Step>, s': State)
    requires t in s.senders && OccupiesSlot(s.senders[t].phase) && s.slot == 1
    ensures Leads(s, steps, s') && s'.slot == 0 && |steps| <= 3
    ensures forall i :: 0 <= i < |steps| ==> steps[i].BySender? && steps[i].t == t
  {
    hide Enabled, Next, Leads;
    match s.senders[t].phase
    case Starting =>
      s' := FromStart(s, t);
      steps := [BySender(t, Begin), BySender(t, End(true, true)), BySender(t, ReleaseSlot)];
    case InFlight =>
      s' := FromFlight(s, t);
      steps := [BySender(t, End(true, true)), BySender(t, ReleaseSlot)];
    case SendDone(_) =>
      s' := FromDone(s, t);
      steps := [BySender(t, ReleaseSlot)];
  }

  /** Whenever the slot is taken, its one holder can give it back by its own steps alone, whether or not the
      caller that started it is still waiting. */
  lemma SlotComesFree(s: State) returns (t: CallId, steps: seq<Step>, s': State)
    requires SlotInv(s) && s.slot == 1
    ensures Leads(s, steps, s') && s'.slot == 0 && |steps| <= 4
    ensures forall i :: 0 <= i < |steps| ==> (steps[i].ByCall? || steps[i].BySender?) && steps[i].t == t
  {
    hide Leads, Enabled, Next, SendersMatch;
    if CallHolders(s.calls) != {} {
      t :| t in CallHolders(s.calls);
      var s1 := Spawned(s, t);
      steps, s' := SenderReleases(s1, t);
      LeadsOn(s, [ByCall(t, SpawnSend)], s1, steps, s');
      steps := [ByCall(t, SpawnSend)] + steps;
    } else {
      assert SendHolders(s.senders) != {} by {
        assert CallHolders(s.calls) == {};
      }
      t :| t in SendHolders(s.senders);
      steps, s' := SenderReleases(s, t);
    }
  }

  lemma Spawned(s: State, t: CallId) returns (s1: State)
    requires t in s.calls && s.calls[t].pc.HoldsSlot? && s.slot == 1
    ensures Leads(s, [ByCall(t, SpawnSend)], s1)
    ensures t in s1.senders && s1.senders[t].phase.Starting? && s1.slot == 1
  {
    LeadsOne(s, ByCall(t, SpawnSend));
    s1 := Next(s, ByCall(t, SpawnSend));
  }

  // ----- a send goes through -----

  /** Connected, nobody closing, the slot free. */
  predicate CanSend(s: State) {
    s.stream.Some? && s.closing.Unlocked? && s.slot == 0
  }

  function SendSteps(t: CallId): seq<Step> {
    [ByCall(t, ReadStream), ByCall(t, CheckContext(false)), ByCall(t, AcquireSlot), ByCall(t, SpawnSend),
     BySender(t, Begin), BySender(t, End(true, true)), BySender(t, ReleaseSlot), BySender(t, PublishResult),
     ByCall(t, TakeSendResult)]
  }

  /** The state after a call has sent its message undisturbed. */
  function AfterSend(s: State, t: CallId): State
    requires t in s.calls && s.stream.Some?
  {
    var msg := s.calls[t].msg;
    s.(calls := s.calls[t := Call(msg, if msg.Request? then AwaitReply else Returning(Sent))],
       senders := s.senders[t := Sender(s.stream.value, msg, Published(true))],
       log := if msg.Receipt? then s.log + [ReceiptOnWire(msg.delivery)] else s.log)
  }

  lemma ToQueue(s: State, t: CallId) returns (s1: State)
    requires CanSend(s) && t in s.calls && s.calls[t].pc.Entered?
    ensures Leads(s, [ByCall(t, ReadStream)] + [ByCall(t, CheckContext(false))], s1)
    ensures s1 == s.(calls := s.calls[t := s.calls[t].(pc := Queued(s.stream.value))])
  {
    hide Leads;
    var a := CallNext(s, t, ReadStream);
    s1 := CallNext(a, t, CheckContext(false));
    LeadsOne(s, ByCall(t, ReadStream));
    Then(s, [ByCall(t, ReadStream)], a, ByCall(t, CheckContext(false)));
  }

  lemma LeadsThree(s: State, x: Step, a: State, y: Step, b: State, z: Step, e: State)
    requires Enabled(s, x) && a == Next(s, x) && Enabled(a, y) && b == Next(a, y) && Enabled(b, z) && e == Next(b, z)
    ensures Leads(s, [x, y, z], e)
  {
    hide Enabled, Next, Leads;
    LeadsOne(s, x);
    Then(s, [x], a, y);
    Then(s, [x] + [y], b, z);
    assert [x] + [y] + [z] == [x, y, z];
  }

  lemma OnWire(s: State, t: CallId, stream: nat, ok: bool, wrote: bool) returns (s1: State)
    requires t in s.calls && s.calls[t].pc == HoldsSlot(stream) && s.slot == 1 && (ok ==> wrote)
    ensures Leads(s, [ByCall(t, SpawnSend), BySender(t, Begin), BySender(t, End(ok, wrote))], s1)
    ensures var msg := s.calls[t].msg;
            s1 == s.(calls := s.calls[t := s.calls[t].(pc := AwaitSend)],
                     senders := s.senders[t := Sender(stream, msg, SendDone(ok))],
                     log := Written(s.log, msg, wrote))
  {
    var a := CallNext(s, t, SpawnSend);
    var b := SendNext(a, t, Begin);
    s1 := SendNext(b, t, End(ok, wrote));
    LeadsThree(s, ByCall(t, SpawnSend), a, BySender(t, Begin), b, BySender(t, End(ok, wrote)), s1);
  }

  /** What the caller is told about its send, or where it goes on waiting. */
  function SendOutcome(msg: AgentMsg, ok: bool): Pc {
    if !ok then Returning(SendFailed) else if msg.Request? then AwaitReply else Returning(Sent)
  }

  function Written(log: seq<Event>, msg: AgentMsg, wrote: bool): seq<Event> {
    if wrote && msg.Receipt? then log + [ReceiptOnWire(msg.delivery)] else log
  }

  lemma Finish(s: State, t: CallId, sender: Sender, ok: bool) returns (s1: State)
    requires t in s.calls && s.calls[t].pc.AwaitSend? && s.slot == 1
    requires t in s.senders && s.senders[t] == sender && sender.phase == SendDone(ok)
    ensures Leads(s, [BySender(t, ReleaseSlot), BySender(t, PublishResult), ByCall(t, TakeSendResult)], s1)
    ensures s1 == s.(calls := s.calls[t := s.calls[t].(pc := SendOutcome(s.calls[t].msg, ok))],
                     senders := s.senders[t := sender.(phase := Published(ok))], slot := 0)
  {
    var a := SendNext(s, t, ReleaseSlot);
    var b := SendNext(a, t, PublishResult);
    s1 := CallNext(b, t, TakeSendResult);
    LeadsThree(s, BySender(t, ReleaseSlot), a, BySender(t, PublishResult), b, ByCall(t, TakeSendResult), s1);
  }

  function QueuedSteps(t: CallId, ok: bool, wrote: bool): seq<Step> {
    [ByCall(t, AcquireSlot), ByCall(t, SpawnSend), BySender(t, Begin), BySender(t, End(ok, wrote)),
     BySender(t, ReleaseSlot), BySender(t, PublishResult), ByCall(t, TakeSendResult)]
  }

  /** The state after a queued call has made its send. */
  function AfterQueued(s: State, t: CallId, ok: bool, wrote: bool): State
    requires t in s.calls && s.calls[t].pc.Queued?
  {
    var msg := s.calls[t].msg;
    s.(calls := s.calls[t := Call(msg, SendOutcome(msg, ok))],
       senders := s.senders[t := Sender(s.calls[t].pc.stream, msg, Published(ok))],
       log := Written(s.log, msg, wrote))
  }

  /** A call that waits for the slot and finds it free makes its send on the stream it has read, also when that
      stream has been closed or replaced since, and is told what stream.Send returned. An error does not mean
      that nothing was written: a receipt may be on the wire all the same. */
  lemma QueuedGoesThrough(s: State, t: CallId, ok: bool, wrote: bool)
    requires t in s.calls && s.calls[t].pc.Queued? && s.slot == 0 && (ok ==> wrote)
    ensures Leads(s, QueuedSteps(t, ok, wrote), AfterQueued(s, t, ok, wrote))
  {
    hide Leads;
    var msg, stream := s.calls[t].msg, s.calls[t].pc.stream;
    var s1 := GetsSlot(s, t);
    var s2 := OnWire(s1, t, stream, ok, wrote);
    var s3 := Finish(s2, t, Sender(stream, msg, SendDone(ok)), ok);
    var x := [ByCall(t, AcquireSlot)];
    var y := [ByCall(t, SpawnSend), BySender(t, Begin), BySender(t, End(ok, wrote))];
    var z := [BySender(t, ReleaseSlot), BySender(t, PublishResult), ByCall(t, TakeSendResult)];
    LeadsOn(s, x, s1, y, s2);
    LeadsOn(s, x + y, s2, z, s3);
    assert x + y + z == QueuedSteps(t, ok, wrote);
    assert s3.calls == AfterQueued(s, t, ok, wrote).calls;
    assert s3.senders == AfterQueued(s, t, ok, wrote).senders;
  }

  lemma GetsSlot(s: State, t: CallId) returns (s1: State)
    requires t in s.calls && s.calls[t].pc.Queued? && s.slot == 0
    ensures Leads(s, [ByCall(t, AcquireSlot)], s1)
    ensures s1 == s.(calls := s.calls[t := s.calls[t].(pc := HoldsSlot(s.calls[t].pc.stream))], slot := 1)
  {
    LeadsOne(s, ByCall(t, AcquireSlot));
    s1 := CallNext(s, t, AcquireSlot);
  }

  /** A call that meets a free slot on a live stream gets its message onto the wire and the slot back. */
  lemma SendGoesThrough(s: State, t: CallId)
    requires CanSend(s) && t in s.calls && s.calls[t].pc.Entered?
    ensures Leads(s, SendSteps(t), AfterSend(s, t))
  {
    hide Leads;
    var s1 := ToQueue(s, t);
    QueuedGoesThrough(s1, t, true, true);
    var x := [ByCall(t, ReadStream)] + [ByCall(t, CheckContext(false))];
    LeadsOn(s, x, s1, QueuedSteps(t, true, true), AfterQueued(s1, t, true, true));
    assert x + QueuedSteps(t, true, true) == SendSteps(t);
    assert AfterQueued(s1, t, true, true).calls == AfterSend(s, t).calls;
  }

  // ----- a delivery gets recorded and receipted -----

  /** Run is looping with an idle worker and nothing cancelled. */
  predicate Serving(s: State) {
    CanSend(s) && s.run.Looping? && s.worker.Ready? && s.queue == [] && !s.ctxDone && !s.workerCtxDone
  }

  function ToHandlerSteps(d: DeliveryId): seq<Step> {
    [ByLoop(DeliveryFrame(d)), ByWorker(Pick), ByWorker(Clear)] + [ByWorker(Handle)]
  }

  lemma ToCleared(s: State, d: DeliveryId) returns (s1: State)
    requires Serving(s) && d in s.issued
    ensures Leads(s, [ByLoop(DeliveryFrame(d)), ByWorker(Pick), ByWorker(Clear)], s1)
    ensures s1 == s.(received := s.received + [d], worker := Cleared(|s.received|))
  {
    var a := LoopNext(s, DeliveryFrame(d));
    var b := WorkerNext(a, Pick);
    s1 := WorkerNext(b, Clear);
    LeadsThree(s, ByLoop(DeliveryFrame(d)), a, ByWorker(Pick), b, ByWorker(Clear), s1);
  }

  lemma ToHandler(s: State, d: DeliveryId) returns (s1: State)
    requires Serving(s) && d in s.issued
    ensures Leads(s, ToHandlerSteps(d), s1)
    ensures s1 == s.(received := s.received + [d], worker := Handling(|s.received|), handled := s.handled + [|s.received|])
  {
    hide Leads;
    var a := ToCleared(s, d);
    s1 := WorkerNext(a, Handle);
    Then(s, [ByLoop(DeliveryFrame(d)), ByWorker(Pick), ByWorker(Clear)], a, ByWorker(Handle));
  }

  /** While Run serves, redelivering any outstanding delivery can bring it all the way: handled, recorded,
      receipted on the wire and read by control. So nothing control still redelivers is out of reach. */
  lemma DeliveryCanBeReceipted(s: State, d: DeliveryId, call: CallId) returns (steps: seq<Step>, s': State)
    requires Serving(s) && d in s.issued && call !in s.calls
    ensures Leads(s, steps, s') && d in s'.durable && d in s'.receipted
    ensures s'.received == s.received + [d] && s'.handled == s.handled + [|s.received|]
    ensures s'.log == s.log + [HandlerNil(d), ReceiptOnWire(d)]
  {
    hide Leads;
    var s1 := ToHandler(s, d);
    var s2 := Recorded(s1, d, call);
    SendGoesThrough(s2, call);
    var s3 := AfterSend(s2, call);
    var x := ToHandlerSteps(d);
    LeadsOn(s, x, s1, [ByWorker(ReturnNil(call, true))], s2);
    LeadsOn(s, x + [ByWorker(ReturnNil(call, true))], s2, SendSteps(call), s3);
    steps := x + [ByWorker(ReturnNil(call, true))] + SendSteps(call);
    s' := s3.(receipted := s3.receipted + {d});
    ReadOff(s3, d);
    LeadsOn(s, steps, s3, [ByControl(ReadReceipt(d))], s');
    steps := steps + [ByControl(ReadReceipt(d))];
  }

  lemma Recorded(s: State, d: DeliveryId, call: CallId) returns (s1: State)
    requires CanSend(s) && s.worker.Handling? && s.worker.i < |s.received| && s.received[s.worker.i] == d && call !in s.calls
    ensures Leads(s, [ByWorker(ReturnNil(call, true))], s1) && CanSend(s1)
    ensures s1.calls == s.calls[call := Call(Receipt(d), Entered)] && s1.log == s.log + [HandlerNil(d)]
    ensures d in s1.durable && s1.received == s.received && s1.handled == s.handled
  {
    LeadsOne(s, ByWorker(ReturnNil(call, true)));
    s1 := WorkerNext(s, ReturnNil(call, true));
  }

  lemma ReadOff(s: State, d: DeliveryId)
    requires ReceiptOnWire(d) in s.log
    ensures Leads(s, [ByControl(ReadReceipt(d))], s.(receipted := s.receipted + {d}))
  {
    LeadsOne(s, ByControl(ReadReceipt(d)));
  }

  // ----- a request gets its answer -----

  /** While Run loops, a new request can be sent, and the response that carries its id reaches its caller. */
  lemma RequestCanBeAnswered(s: State, t: CallId, msg: ServerMsg) returns (steps: seq<Step>, s': State)
    requires CanSend(s) && s.run.Looping? && t !in s.calls && msg.id !in s.chans
    ensures Leads(s, steps, s')
    ensures t in s'.calls && s'.calls[t] == Call(Request(msg.id), Returned(Reply(msg)))
    ensures s'.pending == s.pending - {msg.id} && s'.slot == 0
    ensures msg.id in s'.chans && s'.chans[msg.id] == Chan([], false)
  {
    hide Leads;
    var s1 := Asked(s, t, msg.id);
    SendGoesThrough(s1, t);
    var s2 := AfterSend(s1, t);
    LeadsOn(s, [ByStart(t, StartRequest(msg.id))], s1, SendSteps(t), s2);
    var x := [ByStart(t, StartRequest(msg.id))] + SendSteps(t);
    var s3 := Delivered(s2, t, msg);
    LeadsOn(s, x, s2, [ByLoop(CorrelatedFrame(msg)), ByLoop(DeliverPending), ByCall(t, TakeReply)], s3);
    x := x + [ByLoop(CorrelatedFrame(msg)), ByLoop(DeliverPending), ByCall(t, TakeReply)];
    s' := Left(s3, t, msg);
    LeadsOn(s, x, s3, [ByCall(t, Unregister)], s');
    steps := x + [ByCall(t, Unregister)];
  }

  lemma Asked(s: State, t: CallId, id: Id) returns (s1: State)
    requires CanSend(s) && t !in s.calls && id !in s.chans
    ensures Leads(s, [ByStart(t, StartRequest(id))], s1) && CanSend(s1) && s1.run == s.run
    ensures t in s1.calls && s1.calls[t] == Call(Request(id), Entered)
    ensures s1.pending == s.pending + {id} && id in s1.chans && s1.chans[id] == Chan([], false)
  {
    LeadsOne(s, ByStart(t, StartRequest(id)));
    s1 := StartNext(s, t, StartRequest(id));
  }

  lemma Delivered(s: State, t: CallId, msg: ServerMsg) returns (s1: State)
    requires s.run.Looping? && t in s.calls && s.calls[t] == Call(Request(msg.id), AwaitReply)
    requires msg.id in s.pending && msg.id in s.chans && s.chans[msg.id] == Chan([], false)
    ensures Leads(s, [ByLoop(CorrelatedFrame(msg)), ByLoop(DeliverPending), ByCall(t, TakeReply)], s1)
    ensures t in s1.calls && s1.calls[t] == Call(Request(msg.id), Returning(Reply(msg)))
    ensures s1.pending == s.pending && s1.slot == s.slot && msg.id in s1.chans && s1.chans[msg.id] == Chan([], false)
  {
    var a := LoopNext(s, CorrelatedFrame(msg));
    var b := LoopNext(a, DeliverPending);
    s1 := CallNext(b, t, TakeReply);
    LeadsThree(s, ByLoop(CorrelatedFrame(msg)), a, ByLoop(DeliverPending), b, ByCall(t, TakeReply), s1);
  }

  lemma Left(s: State, t: CallId, msg: ServerMsg) returns (s1: State)
    requires t in s.calls && s.calls[t] == Call(Request(msg.id), Returning(Reply(msg)))
    ensures Leads(s, [ByCall(t, Unregister)], s1)
    ensures t in s1.calls && s1.calls[t] == Call(Request(msg.id), Returned(Reply(msg)))
    ensures s1.pending == s.pending - {msg.id} && s1.slot == s.slot && s1.chans == s.chans
  {
    LeadsOne(s, ByCall(t, Unregister));
    s1 := CallNext(s, t, Unregister);
  }
}
