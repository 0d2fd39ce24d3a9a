/**
 What every run of the stream client keeps, for all interleavings: the send slot, the pending requests, the
 delivery queue and the receipts. Each invariant is shown step group by step group, and `RunKeepsInv`
 carries them over whole runs.
 */
module StreamClientProofs {
  import opened Text
  import opened StreamClient

  // ----- the send slot -----

  /** Phases between acquiring and releasing the slot. */
  predicate OccupiesSlot(phase: SendPhase) {
    phase.Starting? || phase.InFlight? || phase.SendDone?
  }

  function CallHolders(calls: map<CallId, Call>): set<CallId> {
    set t | t in calls && calls[t].pc.HoldsSlot?
  }

  function SendHolders(senders: map<CallId, Sender>): set<CallId> {
    set t | t in senders && OccupiesSlot(senders[t].phase)
  }

  /** A call whose goroutine exists is past starting it. */
  predicate PastSpawn(pc: Pc) {
    pc.AwaitSend? || pc.AwaitReply? || pc.Returning? || pc.Returned?
  }

  /** Goroutines belong to calls past starting one and carry their message; a call that waits for one has it. */
  predicate SendersMatch(calls: map<CallId, Call>, senders: map<CallId, Sender>) {
    && (forall t :: t in senders ==> t in calls && PastSpawn(calls[t].pc) && senders[t].msg == calls[t].msg)
    && (forall t :: t in calls && (calls[t].pc.AwaitSend? || calls[t].pc.AwaitReply?) ==> t in senders)
  }

  /** The slot's occupancy is the number of calls and goroutines between acquire and release, never above one. */
  predicate SlotOk(slot: nat, calls: map<CallId, Call>, senders: map<CallId, Sender>) {
    && slot <= 1
    && slot == |CallHolders(calls)| + |SendHolders(senders)|
    && SendersMatch(calls, senders)
  }

  predicate SlotInv(s: State) {
    SlotOk(s.slot, s.calls, s.senders)
  }

  lemma SlotNewCall(slot: nat, calls: map<CallId, Call>, senders: map<CallId, Sender>, t: CallId, msg: AgentMsg)
    requires SlotOk(slot, calls, senders) && t !in calls
    ensures SlotOk(slot, calls[t := Call(msg, Entered)], senders)
  {
    assert CallHolders(calls[t := Call(msg, Entered)]) == CallHolders(calls);
  }

  /** A call moves on without touching the slot. */
  lemma SlotMove(slot: nat, calls: map<CallId, Call>, senders: map<CallId, Sender>, t: CallId, pc: Pc)
    requires SlotOk(slot, calls, senders) && t in calls
    requires !calls[t].pc.HoldsSlot? && !pc.HoldsSlot?
    requires PastSpawn(calls[t].pc) ==> PastSpawn(pc)
    requires pc.AwaitSend? || pc.AwaitReply? ==> t in senders
    ensures SlotOk(slot, calls[t := calls[t].(pc := pc)], senders)
  {
    assert CallHolders(calls[t := calls[t].(pc := pc)]) == CallHolders(calls);
  }

  lemma SlotAcquire(calls: map<CallId, Call>, senders: map<CallId, Sender>, t: CallId)
    requires SlotOk(0, calls, senders) && t in calls && calls[t].pc.Queued?
    ensures SlotOk(1, calls[t := calls[t].(pc := HoldsSlot(calls[t].pc.stream))], senders)
  {
    var calls' := calls[t := calls[t].(pc := HoldsSlot(calls[t].pc.stream))];
    assert CallHolders(calls') == CallHolders(calls) + {t};
  }

  lemma SlotSpawn(slot: nat, calls: map<CallId, Call>, senders: map<CallId, Sender>, t: CallId)
    requires SlotOk(slot, calls, senders) && t in calls && calls[t].pc.HoldsSlot?
    ensures SlotOk(slot, calls[t := calls[t].(pc := AwaitSend)],
                   senders[t := Sender(calls[t].pc.stream, calls[t].msg, Starting)])
  {
    var calls' := calls[t := calls[t].(pc := AwaitSend)];
    var senders' := senders[t := Sender(calls[t].pc.stream, calls[t].msg, Starting)];
    assert t in CallHolders(calls) && CallHolders(calls') == CallHolders(calls) - {t};
    assert SendHolders(senders') == SendHolders(senders) + {t};
  }

  lemma SlotPhase(slot: nat, calls: map<CallId, Call>, senders: map<CallId, Sender>, t: CallId, phase: SendPhase)
    requires SlotOk(slot, calls, senders) && t in senders
    requires OccupiesSlot(phase) ==> OccupiesSlot(senders[t].phase)
    ensures var freed := OccupiesSlot(senders[t].phase) && !OccupiesSlot(phase);
            (freed ==> slot > 0) &&
            SlotOk(if freed then slot - 1 else slot, calls, senders[t := senders[t].(phase := phase)])
  {
    var senders' := senders[t := senders[t].(phase := phase)];
    if OccupiesSlot(senders[t].phase) && !OccupiesSlot(phase) {
      assert t in SendHolders(senders) && SendHolders(senders') == SendHolders(senders) - {t};
    } else {
      assert SendHolders(senders') == SendHolders(senders);
    }
  }

  lemma SlotCall(s: State, t: CallId, step: CallStep)
    requires SlotInv(s) && CallEnabled(s, t, step)
    ensures SlotInv(CallNext(s, t, step))
  {
    hide SlotOk;
    var s' := CallNext(s, t, step);
    match step
    case AcquireSlot => SlotAcquire(s.calls, s.senders, t);
    case SpawnSend => SlotSpawn(s.slot, s.calls, s.senders, t);
    case _ => SlotMove(s.slot, s.calls, s.senders, t, s'.calls[t].pc);
  }

  lemma SlotSend(s: State, t: CallId, step: SendStep)
    requires SlotInv(s) && SendEnabled(s, t, step)
    ensures SlotInv(SendNext(s, t, step))
  {
    hide SlotOk;
    SlotPhase(s.slot, s.calls, s.senders, t, SendNext(s, t, step).senders[t].phase);
  }

  lemma SlotStart(s: State, t: CallId, step: StartStep)
    requires SlotInv(s) && StartEnabled(s, t, step)
    ensures SlotInv(StartNext(s, t, step))
  {
    hide SlotOk;
    SlotNewCall(s.slot, s.calls, s.senders, t, if step.StartPlain? then Plain else Request(step.id));
  }

  lemma SlotWorker(s: State, step: WorkerStep)
    requires SlotInv(s) && WorkerEnabled(s, step)
    ensures SlotInv(WorkerNext(s, step))
  {
    hide SlotOk;
    if step.ReturnNil? {
      SlotNewCall(s.slot, s.calls, s.senders, step.call, Receipt(s.received[s.worker.i]));
    }
  }

  lemma SlotStep(s: State, step: Step)
    requires SlotInv(s) && Enabled(s, step)
    ensures SlotInv(Next(s, step))
  {
    hide SlotOk, StartNext, CallNext, SendNext, RunNext, LoopNext, WorkerNext, CloseNext, ControlNext,
      StartEnabled, CallEnabled, SendEnabled, RunEnabled, LoopEnabled, WorkerEnabled, CloseEnabled, ControlEnabled;
    match step
    case ByStart(t, start) => SlotStart(s, t, start);
    case ByCall(t, call) => SlotCall(s, t, call);
    case BySender(t, send) => SlotSend(s, t, send);
    case ByRun(_) =>
    case ByLoop(_) =>
    case ByWorker(w) => SlotWorker(s, w);
    case ByClose(_) =>
    case ByControl(_) =>
  }

  /** At most one stream.Send is in flight, whether or not its caller is still there. */
  lemma OneSendInFlight(s: State, t: CallId, t': CallId)
    requires SlotInv(s)
    requires t in s.senders && OccupiesSlot(s.senders[t].phase)
    requires t' in s.senders && OccupiesSlot(s.senders[t'].phase)
    ensures t == t' && s.slot == 1 && CallHolders(s.calls) == {}
  {
    assert {t, t'} <= SendHolders(s.senders);
    if t != t' {
      assert |{t, t'}| == 2;
      SubsetSize({t, t'}, SendHolders(s.senders));
    } else {
      SubsetSize({t}, SendHolders(s.senders));
    }
  }

  lemma {:induction false} SubsetSize<T>(a: set<T>, b: set<T>)
    requires a <= b
    ensures |a| <= |b|
  {
    assert b == a + (b - a);
  }

  // ----- pending requests -----

  /** Pending channels are open; a channel buffers at most one message, and only of its own id. */
  predicate ChansOk(pending: set<Id>, chans: map<Id, Chan>) {
    && (forall id :: id in pending ==> id in chans && !chans[id].closed)
    && (forall id :: id in chans ==> |chans[id].buf| <= 1 && forall m :: m in chans[id].buf ==> m.id == id)
  }

  /** Requests own distinct channels, and a reply taken carries the request's own id. */
  predicate RequestsOk(calls: map<CallId, Call>, chans: map<Id, Chan>) {
    && (forall t :: t in calls && calls[t].msg.Request? ==> calls[t].msg.id in chans)
    && (forall t, t' :: t in calls && t' in calls && calls[t].msg.Request? && calls[t].msg == calls[t'].msg ==> t == t')
    && (forall t :: t in calls ==> ReplyIsOwn(calls[t]))
  }

  predicate ReplyIsOwn(call: Call) {
    && (call.pc.AwaitReply? ==> call.msg.Request?)
    && ((call.pc.Returning? || call.pc.Returned?) && call.pc.outcome.Reply? ==>
          call.msg.Request? && call.pc.outcome.msg.id == call.msg.id)
  }

  /** The call works with a stream it has read. */
  predicate HasStream(pc: Pc) {
    pc.GotStream? || pc.Queued? || pc.HoldsSlot? || pc.AwaitSend? || pc.AwaitReply?
  }

  function StreamOf(t: CallId, pc: Pc, senders: map<CallId, Sender>): Option<nat> {
    if pc.GotStream? || pc.Queued? || pc.HoldsSlot? then Some(pc.stream)
    else if t in senders then Some(senders[t].stream)
    else None
  }

  /** What a request whose channel is still open can count on: the next sweep will find it, and the stream it
      has read is the client's stream, with no sweep done on it. */
  predicate WaiterOk(link: Link, pending: set<Id>, chans: map<Id, Chan>, senders: map<CallId, Sender>, t: CallId, call: Call) {
    call.msg.Request? && call.msg.id in chans && !chans[call.msg.id].closed ==>
      && (call.pc.Entered? ==> call.msg.id in pending)
      && (HasStream(call.pc) ==>
            && call.msg.id in pending && !link.closing.Swept?
            && link.stream.Some? && link.stream == StreamOf(t, call.pc, senders))
  }

  datatype Link = Link(stream: Option<nat>, closing: CloseState)

  predicate WaitersOk(link: Link, calls: map<CallId, Call>, pending: set<Id>, chans: map<Id, Chan>, senders: map<CallId, Sender>) {
    forall t :: t in calls ==> WaiterOk(link, pending, chans, senders, t, calls[t])
  }

  /** The channel deliverPending looked up exists, and while Run itself closes it does nothing else. */
  predicate DispatchOk(run: RunPhase, closing: CloseState, chans: map<Id, Chan>) {
    && (run.Correlating? ==> run.msg.id in chans)
    && (!closing.Unlocked? && closing.byRun ==> run.Closing?)
  }

  predicate PendingInv(s: State) {
    && ChansOk(s.pending, s.chans)
    && RequestsOk(s.calls, s.chans)
    && WaitersOk(Link(s.stream, s.closing), s.calls, s.pending, s.chans, s.senders)
    && DispatchOk(s.run, s.closing, s.chans)
  }

  lemma PendingStart(s: State, t: CallId, step: StartStep)
    requires PendingInv(s) && StartEnabled(s, t, step)
    ensures PendingInv(StartNext(s, t, step))
  {
  }

  /** A call moves on, keeping the stream it has read. */
  lemma PendingMove(s: State, t: CallId, pc: Pc)
    requires PendingInv(s) && t in s.calls
    requires ReplyIsOwn(s.calls[t].(pc := pc))
    requires !pc.Entered? && (HasStream(pc) ==> HasStream(s.calls[t].pc))
    requires HasStream(pc) ==> StreamOf(t, pc, s.senders) == StreamOf(t, s.calls[t].pc, s.senders)
    ensures PendingInv(SetPc(s, t, pc))
  {
  }

  lemma PendingSpawn(s: State, t: CallId)
    requires PendingInv(s) && CallEnabled(s, t, SpawnSend)
    ensures PendingInv(CallNext(s, t, SpawnSend))
  {
  }

  /** Filling or emptying buffers leaves the same channels open. */
  predicate SameOpen(chans: map<Id, Chan>, chans': map<Id, Chan>) {
    chans'.Keys == chans.Keys && forall id :: id in chans ==> chans'[id].closed == chans[id].closed
  }

  lemma BufferChange(link: Link, calls: map<CallId, Call>, pending: set<Id>, chans: map<Id, Chan>,
                     senders: map<CallId, Sender>, id: Id, buf: seq<ServerMsg>)
    requires ChansOk(pending, chans) && RequestsOk(calls, chans) && WaitersOk(link, calls, pending, chans, senders)
    requires id in chans && |buf| <= 1 && forall m :: m in buf ==> m.id == id
    ensures var chans' := chans[id := chans[id].(buf := buf)];
            && SameOpen(chans, chans') && ChansOk(pending, chans')
            && RequestsOk(calls, chans') && WaitersOk(link, calls, pending, chans', senders)
  {
    hide WaiterOk;
    var chans' := chans[id := chans[id].(buf := buf)];
    forall t | t in calls
      ensures WaiterOk(link, pending, chans', senders, t, calls[t])
    {
      WaiterKept(link, pending, chans, chans', senders, t, calls[t]);
    }
  }

  lemma WaiterKept(link: Link, pending: set<Id>, chans: map<Id, Chan>, chans': map<Id, Chan>,
                   senders: map<CallId, Sender>, t: CallId, call: Call)
    requires WaiterOk(link, pending, chans, senders, t, call) && SameOpen(chans, chans')
    ensures WaiterOk(link, pending, chans', senders, t, call)
  {
    assert call.msg.Request? ==> (call.msg.id in chans <==> call.msg.id in chans'.Keys);
  }

  lemma PendingTakeReply(s: State, t: CallId)
    requires PendingInv(s) && CallEnabled(s, t, TakeReply)
    ensures PendingInv(CallNext(s, t, TakeReply))
  {
    hide ChansOk, RequestsOk, WaitersOk;
    var id := s.calls[t].msg.id;
    var buf := s.chans[id].buf;
    ChanBuffer(s.pending, s.chans, id);
    assert buf[1..] == [];
    PendingMove(s, t, Returning(Reply(buf[0])));
    var s1 := SetPc(s, t, Returning(Reply(buf[0])));
    BufferChange(Link(s1.stream, s1.closing), s1.calls, s1.pending, s1.chans, s1.senders, id, []);
  }

  lemma ChanBuffer(pending: set<Id>, chans: map<Id, Chan>, id: Id)
    requires ChansOk(pending, chans) && id in chans
    ensures |chans[id].buf| <= 1 && (chans[id].buf != [] ==> chans[id].buf[0].id == id)
  {
    if chans[id].buf != [] {
      assert chans[id].buf[0] in chans[id].buf;
    }
  }

  /** A request on its way out gives up its pending entry, which no other request shares. */
  lemma GiveUp(link: Link, calls: map<CallId, Call>, pending: set<Id>, chans: map<Id, Chan>,
               senders: map<CallId, Sender>, t: CallId)
    requires ChansOk(pending, chans) && RequestsOk(calls, chans) && WaitersOk(link, calls, pending, chans, senders)
    requires t in calls && calls[t].msg.Request? && !calls[t].pc.Entered? && !HasStream(calls[t].pc)
    ensures var pending' := pending - {calls[t].msg.id};
            ChansOk(pending', chans) && WaitersOk(link, calls, pending', chans, senders)
  {
  }

  lemma PendingUnregister(s: State, t: CallId)
    requires PendingInv(s) && CallEnabled(s, t, Unregister)
    ensures PendingInv(CallNext(s, t, Unregister))
  {
    hide ChansOk, RequestsOk, WaitersOk, WaiterOk;
    ReplyKept(s, t);
    var s1 := SetPc(s, t, Returned(s.calls[t].pc.outcome));
    PendingMove(s, t, Returned(s.calls[t].pc.outcome));
    if s.calls[t].msg.Request? {
      GiveUp(Link(s1.stream, s1.closing), s1.calls, s1.pending, s1.chans, s1.senders, t);
    }
  }

  lemma ReplyKept(s: State, t: CallId)
    requires RequestsOk(s.calls, s.chans) && CallEnabled(s, t, Unregister)
    ensures ReplyIsOwn(s.calls[t].(pc := Returned(s.calls[t].pc.outcome)))
  {
  }

  lemma PendingReadStream(s: State, t: CallId)
    requires PendingInv(s) && CallEnabled(s, t, ReadStream)
    ensures PendingInv(CallNext(s, t, ReadStream))
  {
  }

  lemma PendingCall(s: State, t: CallId, step: CallStep)
    requires PendingInv(s) && SendersMatch(s.calls, s.senders) && CallEnabled(s, t, step)
    ensures PendingInv(CallNext(s, t, step))
  {
    hide PendingInv;
    match step
    case ReadStream => PendingReadStream(s, t);
    case SpawnSend => PendingSpawn(s, t);
    case TakeReply => PendingTakeReply(s, t);
    case Unregister => PendingUnregister(s, t);
    case AcquireSlot =>
      PendingMove(s, t, HoldsSlot(s.calls[t].pc.stream));
      PendingSlot(SetPc(s, t, HoldsSlot(s.calls[t].pc.stream)), s.slot + 1);
    case _ => PendingMove(s, t, CallNext(s, t, step).calls[t].pc);
  }

  lemma PendingSlot(s: State, slot: nat)
    requires PendingInv(s)
    ensures PendingInv(s.(slot := slot))
  {
  }

  lemma PendingSend(s: State, t: CallId, step: SendStep)
    requires PendingInv(s) && SendEnabled(s, t, step)
    ensures PendingInv(SendNext(s, t, step))
  {
  }

  lemma PendingDeliver(s: State)
    requires PendingInv(s) && LoopEnabled(s, DeliverPending)
    ensures PendingInv(LoopNext(s, DeliverPending))
  {
    hide ChansOk, RequestsOk, WaitersOk, WaiterOk;
    var msg := s.run.msg;
    var ch := s.chans[msg.id];
    if !ch.closed && |ch.buf| == 0 {
      assert ch.buf + [msg] == [msg];
      BufferChange(Link(s.stream, s.closing), s.calls, s.pending, s.chans, s.senders, msg.id, [msg]);
    }
  }

  lemma PendingConnect(s: State)
    requires PendingInv(s) && RunEnabled(s, Connect)
    ensures PendingInv(RunNext(s, Connect))
  {
  }

  lemma PendingLookup(s: State, msg: ServerMsg)
    requires PendingInv(s) && LoopEnabled(s, CorrelatedFrame(msg))
    ensures PendingInv(LoopNext(s, CorrelatedFrame(msg)))
  {
    hide RequestsOk, WaitersOk;
  }

  lemma PendingRun(s: State, step: RunStep)
    requires PendingInv(s) && RunEnabled(s, step)
    ensures PendingInv(RunNext(s, step))
  {
    hide PendingInv;
    match step
    case Connect => PendingConnect(s);
    case _ => PendingRunMoves(s, RunNext(s, step));
  }

  lemma PendingLoop(s: State, step: LoopStep)
    requires PendingInv(s) && LoopEnabled(s, step)
    ensures PendingInv(LoopNext(s, step))
  {
    hide PendingInv;
    match step
    case DeliverPending => PendingDeliver(s);
    case CorrelatedFrame(msg) => PendingLookup(s, msg);
    case _ => PendingRunMoves(s, LoopNext(s, step));
  }

  lemma PendingRunMoves(s: State, s': State)
    requires PendingInv(s) && SameSends(s, s') && s'.pending == s.pending && s'.chans == s.chans
    requires s'.stream == s.stream && s'.closing == s.closing
    requires !s'.run.Correlating? || s'.run == s.run
    requires s.run.Closing? && !s.closing.Unlocked? ==> s'.run.Closing?
    ensures PendingInv(s')
  {
    hide ChansOk, RequestsOk, WaitersOk;
  }

  lemma PendingWorker(s: State, step: WorkerStep)
    requires PendingInv(s) && WorkerEnabled(s, step)
    ensures PendingInv(WorkerNext(s, step))
  {
  }

  lemma PendingClose(s: State, step: CloseStep)
    requires PendingInv(s) && CloseEnabled(s, step)
    ensures PendingInv(CloseNext(s, step))
  {
  }

  lemma PendingStep(s: State, step: Step)
    requires PendingInv(s) && SlotInv(s) && Enabled(s, step)
    ensures PendingInv(Next(s, step))
  {
    hide PendingInv, StartNext, CallNext, SendNext, RunNext, LoopNext, WorkerNext, CloseNext, ControlNext,
      StartEnabled, CallEnabled, SendEnabled, RunEnabled, LoopEnabled, WorkerEnabled, CloseEnabled, ControlEnabled;
    match step
    case ByStart(t, start) => PendingStart(s, t, start);
    case ByCall(t, call) => PendingCall(s, t, call);
    case BySender(t, send) => PendingSend(s, t, send);
    case ByRun(r) => PendingRun(s, r);
    case ByLoop(l) => PendingLoop(s, l);
    case ByWorker(w) => PendingWorker(s, w);
    case ByClose(c) => PendingClose(s, c);
    case ByControl(k) => PendingControl(s, k);
  }

  lemma PendingControl(s: State, step: ControlStep)
    requires PendingInv(s) && ControlEnabled(s, step)
    ensures PendingInv(ControlNext(s, step))
  {
  }

  // ----- the delivery queue -----

  predicate Increasing(q: seq<nat>) {
    forall i, j :: 0 <= i < j < |q| ==> q[i] < q[j]
  }

  predicate Below(q: seq<nat>, n: nat) {
    forall i :: 0 <= i < |q| ==> q[i] < n
  }

  function InHand(worker: Worker): seq<nat> {
    if worker.Picked? || worker.Cleared? then [worker.i] else []
  }

  /** Everything handled, in the worker's hand, or still queued: in that order it is in the order received. */
  function Pipeline(handled: seq<nat>, worker: Worker, queue: seq<nat>): seq<nat> {
    handled + InHand(worker) + queue
  }

  predicate QueueOk(n: nat, handled: seq<nat>, worker: Worker, queue: seq<nat>) {
    && |queue| <= QUEUE_DEPTH
    && Increasing(Pipeline(handled, worker, queue))
    && Below(Pipeline(handled, worker, queue), n)
    && (worker.Handling? || worker.Receipting? ==> worker.i in handled)
  }

  /** There is a worker exactly while Run is between publishing the queue and having joined it. */
  predicate WorkerOk(run: RunPhase, worker: Worker) {
    run.Idle? || run.Greeting? || run.Closing? <==> worker.NoWorker?
  }

  predicate QueueInv(s: State) {
    && QueueOk(|s.received|, s.handled, s.worker, s.queue)
    && WorkerOk(s.run, s.worker)
  }

  lemma QueueReceive(n: nat, handled: seq<nat>, worker: Worker, queue: seq<nat>)
    requires QueueOk(n, handled, worker, queue)
    ensures |queue| < QUEUE_DEPTH ==> QueueOk(n + 1, handled, worker, queue + [n])
    ensures QueueOk(n + 1, handled, worker, queue)
  {
    assert Pipeline(handled, worker, queue + [n]) == Pipeline(handled, worker, queue) + [n];
  }

  lemma QueueRestart(n: nat, handled: seq<nat>, worker: Worker, queue: seq<nat>)
    requires QueueOk(n, handled, worker, queue)
    ensures QueueOk(n, handled, Ready, [])
  {
    assert forall k :: 0 <= k < |handled| ==> Pipeline(handled, worker, queue)[k] == handled[k];
    assert Pipeline(handled, Ready, []) == handled;
  }

  lemma QueuePick(n: nat, handled: seq<nat>, queue: seq<nat>)
    requires QueueOk(n, handled, Ready, queue) && queue != []
    ensures QueueOk(n, handled, Picked(queue[0]), queue[1..])
  {
    assert Pipeline(handled, Picked(queue[0]), queue[1..]) == Pipeline(handled, Ready, queue);
  }

  lemma QueueSkip(n: nat, handled: seq<nat>, i: nat, queue: seq<nat>)
    requires QueueOk(n, handled, Picked(i), queue)
    ensures QueueOk(n, handled, Ready, queue)
  {
    var before := Pipeline(handled, Picked(i), queue);
    var after := Pipeline(handled, Ready, queue);
    forall k | 0 <= k < |after|
      ensures after[k] == before[if k < |handled| then k else k + 1]
    {
    }
  }

  lemma QueueHandle(n: nat, handled: seq<nat>, i: nat, queue: seq<nat>)
    requires QueueOk(n, handled, Cleared(i), queue)
    ensures QueueOk(n, handled + [i], Handling(i), queue)
  {
    assert Pipeline(handled + [i], Handling(i), queue) == Pipeline(handled, Cleared(i), queue);
  }

  lemma QueueWorkerMoves(n: nat, handled: seq<nat>, worker: Worker, worker': Worker, queue: seq<nat>)
    requires QueueOk(n, handled, worker, queue) && InHand(worker) == InHand(worker')
    requires worker'.Handling? || worker'.Receipting? ==> (worker.Handling? || worker.Receipting?) && worker'.i == worker.i
    ensures QueueOk(n, handled, worker', queue)
  {
    assert Pipeline(handled, worker', queue) == Pipeline(handled, worker, queue);
  }

  lemma QueueRun(s: State, step: RunStep)
    requires QueueInv(s) && RunEnabled(s, step)
    ensures QueueInv(RunNext(s, step))
  {
    hide QueueOk;
    match step
    case Greeted => QueueRestart(|s.received|, s.handled, s.worker, s.queue);
    case WorkerJoined => QueueWorkerMoves(|s.received|, s.handled, s.worker, NoWorker, s.queue);
    case _ =>
  }

  lemma QueueLoop(s: State, step: LoopStep)
    requires QueueInv(s) && LoopEnabled(s, step)
    ensures QueueInv(LoopNext(s, step))
  {
    hide QueueOk;
    if step.DeliveryFrame? {
      QueueReceive(|s.received|, s.handled, s.worker, s.queue);
    }
  }

  lemma QueueWorker(s: State, step: WorkerStep)
    requires QueueInv(s) && WorkerEnabled(s, step)
    ensures QueueInv(WorkerNext(s, step))
  {
    hide QueueOk;
    var n := |s.received|;
    match step
    case Pick => QueuePick(n, s.handled, s.queue);
    case Skip => QueueSkip(n, s.handled, s.worker.i, s.queue);
    case Clear => QueueWorkerMoves(n, s.handled, s.worker, Cleared(s.worker.i), s.queue);
    case Handle => QueueHandle(n, s.handled, s.worker.i, s.queue);
    case ReturnNil(call, _) => QueueWorkerMoves(n, s.handled, s.worker, Receipting(s.worker.i, call), s.queue);
    case ReturnError(_) => QueueWorkerMoves(n, s.handled, s.worker, Ready, s.queue);
    case ReceiptReturned => QueueWorkerMoves(n, s.handled, s.worker, Ready, s.queue);
    case Exit => QueueWorkerMoves(n, s.handled, s.worker, Exited, s.queue);
  }

  lemma QueueOther(s: State, step: Step)
    requires QueueInv(s) && Enabled(s, step) && !step.ByRun? && !step.ByLoop? && !step.ByWorker? && !step.ByClose?
    ensures QueueInv(Next(s, step))
  {
    hide QueueOk, WorkerOk, StartNext, CallNext, SendNext, ControlNext, StartEnabled, CallEnabled, SendEnabled, ControlEnabled;
  }

  lemma QueueClose(s: State, step: CloseStep)
    requires QueueInv(s) && DispatchOk(s.run, s.closing, s.chans) && CloseEnabled(s, step)
    ensures QueueInv(CloseNext(s, step))
  {
    hide QueueOk;
  }

  lemma QueueStep(s: State, step: Step)
    requires QueueInv(s) && PendingInv(s) && Enabled(s, step)
    ensures QueueInv(Next(s, step))
  {
    hide QueueInv, StartNext, CallNext, SendNext, RunNext, LoopNext, WorkerNext, CloseNext, ControlNext,
      StartEnabled, CallEnabled, SendEnabled, RunEnabled, LoopEnabled, WorkerEnabled, CloseEnabled, ControlEnabled;
    match step
    case ByRun(r) => QueueRun(s, r);
    case ByLoop(l) => QueueLoop(s, l);
    case ByWorker(w) => QueueWorker(s, w);
    case ByClose(c) => QueueClose(s, c);
    case _ => QueueOther(s, step);
  }

  // ----- receipts -----

  /** Every receipt on the wire comes after a nil return for the same delivery. */
  predicate NilBeforeReceipt(log: seq<Event>) {
    forall k :: 0 <= k < |log| && log[k].ReceiptOnWire? ==> HandlerNil(log[k].delivery) in log[..k]
  }

  /** Receipts that calls still carry have their nil return behind them. */
  predicate CallsReceiptOk(calls: map<CallId, Call>, log: seq<Event>) {
    forall t :: t in calls && calls[t].msg.Receipt? ==> HandlerNil(calls[t].msg.delivery) in log
  }

  /** A nil return is for a delivery that was received and handed to the handler. */
  predicate NilIsHandled(log: seq<Event>, received: seq<DeliveryId>, handled: seq<nat>) {
    forall e :: e in log && e.HandlerNil? ==> HandledAs(e.delivery, received, handled)
  }

  predicate HandledAs(d: DeliveryId, received: seq<DeliveryId>, handled: seq<nat>) {
    exists i :: i in handled && i < |received| && received[i] == d
  }

  /** Control's books and the device's record, against the log. */
  ghost predicate BooksOk(log: seq<Event>, received: seq<DeliveryId>, issued: set<DeliveryId>, receipted: set<DeliveryId>,
                          durable: set<DeliveryId>, contractKept: bool) {
    && (forall d :: d in received ==> d in issued)
    && (forall d :: d in receipted ==> ReceiptOnWire(d) in log)
    && (contractKept ==> forall d :: HandlerNil(d) in log ==> d in durable)
  }

  ghost predicate ReceiptInv(s: State) {
    && NilBeforeReceipt(s.log)
    && CallsReceiptOk(s.calls, s.log)
    && NilIsHandled(s.log, s.received, s.handled)
    && BooksOk(s.log, s.received, s.issued, s.receipted, s.durable, s.contractKept)
  }

  lemma LogGrows(log: seq<Event>, e: Event)
    requires NilBeforeReceipt(log) && (e.ReceiptOnWire? ==> HandlerNil(e.delivery) in log)
    ensures NilBeforeReceipt(log + [e])
  {
    var log' := log + [e];
    forall k | 0 <= k < |log'| && log'[k].ReceiptOnWire?
      ensures HandlerNil(log'[k].delivery) in log'[..k]
    {
      assert log'[..k] == log[..k];
      if k == |log| {
        assert log[..k] == log;
      }
    }
  }

  lemma ReceiptWritten(s: State, d: DeliveryId)
    requires ReceiptInv(s) && HandlerNil(d) in s.log
    ensures ReceiptInv(s.(log := s.log + [ReceiptOnWire(d)]))
  {
    hide NilBeforeReceipt, HandledAs;
    LogGrows(s.log, ReceiptOnWire(d));
  }

  lemma CarriedReceipt(s: State, t: CallId)
    requires CallsReceiptOk(s.calls, s.log) && SendersMatch(s.calls, s.senders) && t in s.senders && s.senders[t].msg.Receipt?
    ensures HandlerNil(s.senders[t].msg.delivery) in s.log
  {
    assert t in s.calls;
  }

  lemma ReceiptSend(s: State, t: CallId, step: SendStep)
    requires ReceiptInv(s) && SlotInv(s) && SendEnabled(s, t, step)
    ensures ReceiptInv(SendNext(s, t, step))
  {
    hide NilBeforeReceipt, CallsReceiptOk, NilIsHandled, BooksOk;
    var msg := s.senders[t].msg;
    if step.End? && step.wrote && msg.Receipt? {
      CarriedReceipt(s, t);
      ReceiptWritten(s, msg.delivery);
    }
  }

  lemma ReceiptNil(s: State, call: CallId, recorded: bool)
    requires ReceiptInv(s) && QueueInv(s) && WorkerEnabled(s, ReturnNil(call, recorded))
    ensures ReceiptInv(WorkerNext(s, ReturnNil(call, recorded)))
  {
    hide NilBeforeReceipt;
    var d := s.received[s.worker.i];
    LogGrows(s.log, HandlerNil(d));
    assert s.worker.i in s.handled;
    assert HandledAs(d, s.received, s.handled);
  }

  lemma ReceiptHandle(s: State)
    requires ReceiptInv(s) && WorkerEnabled(s, Handle)
    ensures ReceiptInv(WorkerNext(s, Handle))
  {
    hide NilBeforeReceipt, HandledAs;
    forall d | HandledAs(d, s.received, s.handled)
      ensures HandledAs(d, s.received, s.handled + [s.worker.i])
    {
      StillHandled(d, s.received, s.received, s.handled, s.handled + [s.worker.i]);
    }
  }

  lemma StillHandled(d: DeliveryId, received: seq<DeliveryId>, received': seq<DeliveryId>, handled: seq<nat>, handled': seq<nat>)
    requires HandledAs(d, received, handled) && received <= received' && handled <= handled'
    ensures HandledAs(d, received', handled')
  {
    var i :| i in handled && i < |received| && received[i] == d;
    assert i in handled';
  }

  lemma ReceiptWorker(s: State, step: WorkerStep)
    requires ReceiptInv(s) && QueueInv(s) && WorkerEnabled(s, step)
    ensures ReceiptInv(WorkerNext(s, step))
  {
    hide NilBeforeReceipt, CallsReceiptOk, NilIsHandled;
    match step
    case ReturnNil(call, recorded) => ReceiptNil(s, call, recorded);
    case Handle => ReceiptHandle(s);
    case _ =>
  }

  lemma ReceiptReceived(s: State, d: DeliveryId)
    requires ReceiptInv(s) && d in s.issued
    ensures ReceiptInv(s.(received := s.received + [d]))
  {
    hide NilBeforeReceipt, HandledAs, CallsReceiptOk;
    var received' := s.received + [d];
    forall e | e in s.log && e.HandlerNil?
      ensures HandledAs(e.delivery, received', s.handled)
    {
      StillHandled(e.delivery, s.received, received', s.handled, s.handled);
    }
  }

  lemma ReceiptRun(s: State, step: RunStep)
    requires ReceiptInv(s) && RunEnabled(s, step)
    ensures ReceiptInv(RunNext(s, step))
  {
    hide NilBeforeReceipt, NilIsHandled, CallsReceiptOk, BooksOk, RunNext, RunEnabled;
  }

  lemma ReceiptLoop(s: State, step: LoopStep)
    requires ReceiptInv(s) && LoopEnabled(s, step)
    ensures ReceiptInv(LoopNext(s, step))
  {
    hide NilBeforeReceipt, NilIsHandled, CallsReceiptOk, BooksOk;
    if step.DeliveryFrame? {
      ReceiptReceived(s, step.delivery);
    }
  }

  lemma ReceiptCall(s: State, t: CallId, step: CallStep)
    requires ReceiptInv(s) && CallEnabled(s, t, step)
    ensures ReceiptInv(CallNext(s, t, step))
  {
    hide NilBeforeReceipt, NilIsHandled, BooksOk;
  }

  lemma ReceiptStart(s: State, t: CallId, step: StartStep)
    requires ReceiptInv(s) && StartEnabled(s, t, step)
    ensures ReceiptInv(StartNext(s, t, step))
  {
    hide NilBeforeReceipt, NilIsHandled, BooksOk;
  }

  lemma ReceiptControl(s: State, step: ControlStep)
    requires ReceiptInv(s) && ControlEnabled(s, step)
    ensures ReceiptInv(ControlNext(s, step))
  {
    hide NilBeforeReceipt, NilIsHandled, CallsReceiptOk;
  }

  lemma ReceiptClose(s: State, step: CloseStep)
    requires ReceiptInv(s) && CloseEnabled(s, step)
    ensures ReceiptInv(CloseNext(s, step))
  {
    hide NilBeforeReceipt, NilIsHandled, CallsReceiptOk, BooksOk, CloseNext, CloseEnabled;
  }

  lemma ReceiptStep(s: State, step: Step)
    requires ReceiptInv(s) && SlotInv(s) && QueueInv(s) && Enabled(s, step)
    ensures ReceiptInv(Next(s, step))
  {
    hide ReceiptInv, SlotInv, QueueInv, StartNext, CallNext, SendNext, RunNext, LoopNext, WorkerNext, CloseNext, ControlNext,
      StartEnabled, CallEnabled, SendEnabled, RunEnabled, LoopEnabled, WorkerEnabled, CloseEnabled, ControlEnabled;
    match step
    case ByStart(t, start) => ReceiptStart(s, t, start);
    case ByCall(t, call) => ReceiptCall(s, t, call);
    case BySender(t, send) => ReceiptSend(s, t, send);
    case ByRun(r) => ReceiptRun(s, r);
    case ByLoop(l) => ReceiptLoop(s, l);
    case ByWorker(w) => ReceiptWorker(s, w);
    case ByClose(c) => ReceiptClose(s, c);
    case ByControl(k) => ReceiptControl(s, k);
  }

  // ----- whole runs -----

  ghost predicate Inv(s: State) {
    SlotInv(s) && PendingInv(s) && QueueInv(s) && ReceiptInv(s)
  }

  lemma InitialInv()
    ensures Inv(INITIAL)
  {
    assert CallHolders(INITIAL.calls) == {} && SendHolders(INITIAL.senders) == {};
    assert Pipeline([], NoWorker, []) == [];
  }

  lemma InvStep(s: State, step: Step)
    requires Inv(s) && Enabled(s, step)
    ensures Inv(Next(s, step))
  {
    hide SlotInv, PendingInv, QueueInv, ReceiptInv, Enabled, Next;
    SlotStep(s, step);
    PendingStep(s, step);
    QueueStep(s, step);
    ReceiptStep(s, step);
  }

  lemma {:induction false} RunKeepsInv(states: seq<State>, steps: seq<Step>, n: nat)
    requires IsRun(states, steps) && n < |states|
    ensures Inv(states[n])
  {
    hide Inv, Enabled, Next;
    if n == 0 {
      InitialInv();
    } else {
      RunKeepsInv(states, steps, n - 1);
      InvStep(states[n - 1], steps[n - 1]);
    }
  }

  /** In every state of every run at most one stream.Send is in flight. */
  lemma SendsAreSerial(states: seq<State>, steps: seq<Step>, n: nat)
    requires IsRun(states, steps) && n < |states|
    ensures var s := states[n];
            && s.slot == |CallHolders(s.calls)| + |SendHolders(s.senders)| <= 1
            && forall t, t' :: t in s.senders && t' in s.senders && s.senders[t].phase.InFlight? && s.senders[t'].phase.InFlight? ==> t == t'
  {
    hide Enabled, Next, PendingInv, QueueInv, ReceiptInv;
    RunKeepsInv(states, steps, n);
    var s := states[n];
    forall t, t' | t in s.senders && t' in s.senders && s.senders[t].phase.InFlight? && s.senders[t'].phase.InFlight?
      ensures t == t'
    {
      OneSendInFlight(s, t, t');
    }
  }

  // ----- sends on closed channels -----

  lemma SweepCloses(chans: map<Id, Chan>, ids: set<Id>, id: Id)
    requires id in chans
    ensures id in CloseAll(chans, ids) && CloseAll(chans, ids)[id] == chans[id].(closed := chans[id].closed || id in ids)
  {
  }

  predicate Sweeps(s: State, step: Step, id: Id) {
    step == ByClose(CloseSweep) && id in s.pending
  }

  lemma ClosedByCall(s: State, t: CallId, step: CallStep, id: Id)
    requires id in s.chans && CallEnabled(s, t, step)
    ensures id in CallNext(s, t, step).chans && CallNext(s, t, step).chans[id].closed == s.chans[id].closed
  {
    if !step.TakeReply? {
      CallKeepsChans(s, t, step);
      hide CallNext;
    }
  }

  lemma CallKeepsChans(s: State, t: CallId, step: CallStep)
    requires CallEnabled(s, t, step) && !step.TakeReply?
    ensures CallNext(s, t, step).chans == s.chans
  {
    hide CallEnabled, WaitsOn;
    match step
    case ReadStream =>
    case CheckContext(_) =>
    case AcquireSlot =>
    case SpawnSend =>
    case TakeSendResult =>
    case Unregister =>
    case _ =>
  }

  lemma ClosedByLoop(s: State, step: LoopStep, id: Id)
    requires id in s.chans && LoopEnabled(s, step)
    ensures id in LoopNext(s, step).chans && LoopNext(s, step).chans[id].closed == s.chans[id].closed
  {
  }

  lemma ClosedByStart(s: State, t: CallId, step: StartStep, id: Id)
    requires id in s.chans && StartEnabled(s, t, step)
    ensures id in StartNext(s, t, step).chans && StartNext(s, t, step).chans[id] == s.chans[id]
  {
  }

  lemma ClosedByClose(s: State, step: CloseStep, id: Id)
    requires id in s.chans && CloseEnabled(s, step)
    ensures id in CloseNext(s, step).chans
    ensures CloseNext(s, step).chans[id].closed <==> s.chans[id].closed || Sweeps(s, ByClose(step), id)
  {
    hide CloseAll;
    SweepCloses(s.chans, s.pending, id);
  }

  /** Only a sweep that finds a channel pending closes it. */
  lemma ClosedStep(s: State, step: Step, id: Id)
    requires id in s.chans && Enabled(s, step)
    ensures id in Next(s, step).chans
    ensures Next(s, step).chans[id].closed <==> s.chans[id].closed || Sweeps(s, step, id)
  {
    hide StartNext, CallNext, SendNext, RunNext, LoopNext, WorkerNext, CloseNext, ControlNext,
      StartEnabled, CallEnabled, SendEnabled, RunEnabled, LoopEnabled, WorkerEnabled, CloseEnabled, ControlEnabled;
    match step
    case ByStart(t, start) => ClosedByStart(s, t, start, id);
    case ByCall(t, call) => ClosedByCall(s, t, call, id);
    case ByLoop(l) => ClosedByLoop(s, l, id);
    case ByClose(c) => ClosedByClose(s, c, id);
    case _ =>
  }

  /** Some step from `m` up to but not including `n` sweeps the channel away while it is pending. */
  predicate SweptBetween(states: seq<State>, steps: seq<Step>, m: nat, n: nat, id: Id)
    requires m <= n <= |steps| < |states|
  {
    exists k :: m <= k < n && Sweeps(states[k], steps[k], id)
  }

  /** From the moment deliverPending has looked a channel up, in every run and on every later stream: the
      channel is closed exactly if a Close has swept it away in between, while its request was still pending. */
  lemma {:induction false} ClosedExactlyIfSwept(states: seq<State>, steps: seq<Step>, m: nat, n: nat, msg: ServerMsg)
    requires IsRun(states, steps) && m < n <= |steps|
    requires steps[m] == ByLoop(CorrelatedFrame(msg)) && states[m + 1].run == Correlating(msg)
    ensures msg.id in states[n].chans
    ensures states[n].chans[msg.id].closed <==> SweptBetween(states, steps, m + 1, n, msg.id)
  {
    hide Next, Enabled;
    if n == m + 1 {
      RunKeepsInv(states, steps, m);
      LoopRuns(states[m], msg);
      LookupFindsOpen(states[m], msg);
      assert states[n] == Next(states[m], steps[m]);
    } else {
      ClosedExactlyIfSwept(states, steps, m, n - 1, msg);
      ClosedStep(states[n - 1], steps[n - 1], msg.id);
      if SweptBetween(states, steps, m + 1, n - 1, msg.id) {
        var k :| m + 1 <= k < n - 1 && Sweeps(states[k], steps[k], msg.id);
        assert Sweeps(states[k], steps[k], msg.id);
      }
    }
  }

  lemma LoopRuns(s: State, msg: ServerMsg)
    requires Enabled(s, ByLoop(CorrelatedFrame(msg)))
    ensures s.run.Looping?
  {
  }

  lemma LookupFindsOpen(s: State, msg: ServerMsg)
    requires PendingInv(s) && s.run.Looping?
    ensures var s' := Next(s, ByLoop(CorrelatedFrame(msg)));
            s'.run == Correlating(msg) ==> msg.id in s'.chans && !s'.chans[msg.id].closed
  {
    hide RequestsOk, WaitersOk;
  }

  /** deliverPending holds, in state `n`, the channel it looked up in step `m`. */
  predicate LookedUp(states: seq<State>, steps: seq<Step>, m: nat, n: nat)
    requires n <= |steps| < |states|
  {
    && m < n && states[n].run.Correlating?
    && steps[m] == ByLoop(CorrelatedFrame(states[n].run.msg))
    && forall k :: m < k <= n ==> states[k].run == states[n].run
  }

  lemma RunNeverCorrelates(s: State, step: RunStep)
    requires RunEnabled(s, step)
    ensures RunNext(s, step).run.Correlating? ==> RunNext(s, step).run == s.run
  {
  }

  lemma CloseNeverCorrelates(s: State, step: CloseStep)
    requires CloseEnabled(s, step)
    ensures CloseNext(s, step).run.Correlating? ==> CloseNext(s, step).run == s.run
  {
    hide CloseAll;
  }

  lemma LoopCorrelates(s: State, step: LoopStep)
    requires LoopEnabled(s, step)
    ensures var run := LoopNext(s, step).run;
            run.Correlating? && run != s.run ==> step == CorrelatedFrame(run.msg)
  {
  }

  lemma OnlyLookupCorrelates(s: State, step: Step)
    requires Enabled(s, step)
    ensures var run := Next(s, step).run;
            run.Correlating? && run != s.run ==> step == ByLoop(CorrelatedFrame(run.msg))
  {
    hide StartNext, CallNext, SendNext, RunNext, LoopNext, WorkerNext, CloseNext, ControlNext,
      StartEnabled, CallEnabled, SendEnabled, RunEnabled, LoopEnabled, WorkerEnabled, CloseEnabled, ControlEnabled;
    match step
    case ByRun(r) => RunNeverCorrelates(s, r);
    case ByLoop(l) => LoopCorrelates(s, l);
    case ByClose(c) => CloseNeverCorrelates(s, c);
    case _ =>
  }

  lemma {:induction false} LookupExists(states: seq<State>, steps: seq<Step>, n: nat) returns (m: nat)
    requires IsRun(states, steps) && n <= |steps| && states[n].run.Correlating?
    ensures LookedUp(states, steps, m, n)
  {
    hide Next, Enabled;
    if states[n - 1].run == states[n].run {
      m := LookupExists(states, steps, n - 1);
    } else {
      OnlyLookupCorrelates(states[n - 1], steps[n - 1]);
      m := n - 1;
    }
  }

  /** A channel swept away while deliverPending holds it was swept by another goroutine than Run. */
  predicate SweptByOther(states: seq<State>, steps: seq<Step>, m: nat, n: nat, id: Id)
    requires m <= n <= |steps| < |states|
  {
    exists k :: m <= k < n && Sweeps(states[k], steps[k], id) && states[k].closing == Locked(false)
  }

  lemma SweeperIsOther(states: seq<State>, steps: seq<Step>, m: nat, n: nat, id: Id)
    requires IsRun(states, steps) && n <= |steps| && LookedUp(states, steps, m, n)
    ensures SweptBetween(states, steps, m + 1, n, id) <==> SweptByOther(states, steps, m + 1, n, id)
  {
    hide Next, SlotInv, QueueInv, ReceiptInv;
    if SweptBetween(states, steps, m + 1, n, id) {
      var k :| m + 1 <= k < n && Sweeps(states[k], steps[k], id);
      RunKeepsInv(states, steps, k);
      assert states[k].run.Correlating? && states[k].closing.Locked?;
    }
  }

  // ----- what callers get -----

  /** Waits for a response that can only come on the stream `t` sent its request on. */
  predicate StillWaits(s: State, t: CallId) {
    && t in s.calls && s.calls[t].pc.AwaitReply? && s.calls[t].msg.Request?
    && s.calls[t].msg.id in s.chans && s.chans[s.calls[t].msg.id] == Chan([], false)
  }

  /** In every state of every run: a caller has only ever taken a response to its own request, and no channel
      holds two. A caller waiting on an open, empty channel is registered and has sent on the client's present
      stream, so nobody waits on a stream that was closed or replaced: with no stream each waiter has a message
      to take or finds its channel closed. And the receive loop is about to send on a closed channel exactly if
      another goroutine's Close swept that channel since the lookup. */
  lemma RequestsAreAnswered(states: seq<State>, steps: seq<Step>, n: nat)
    requires IsRun(states, steps) && n < |states|
    ensures var s := states[n];
            && (forall t :: t in s.calls && (s.calls[t].pc.Returning? || s.calls[t].pc.Returned?) && s.calls[t].pc.outcome.Reply? ==>
                  s.calls[t].msg == Request(s.calls[t].pc.outcome.msg.id))
            && (forall id :: id in s.chans ==> |s.chans[id].buf| <= 1)
            && (forall t :: StillWaits(s, t) ==>
                  s.calls[t].msg.id in s.pending && t in s.senders && s.stream == Some(s.senders[t].stream) && !s.closing.Swept?)
            && (s.stream.None? ==> forall t :: t in s.calls && s.calls[t].pc.AwaitReply? ==>
                  CallEnabled(s, t, TakeReply) || CallEnabled(s, t, SeeClosed))
            && (s.run.Correlating? ==> s.run.msg.id in s.chans && exists m: nat ::
                  && LookedUp(states, steps, m, n)
                  && (s.chans[s.run.msg.id].closed <==> SweptByOther(states, steps, m + 1, n, s.run.msg.id)))
  {
    hide Enabled, Next, QueueInv, ReceiptInv;
    RunKeepsInv(states, steps, n);
    var s := states[n];
    forall t | t in s.calls
      ensures ReplyIsOwn(s.calls[t])
      ensures s.stream.None? && s.calls[t].pc.AwaitReply? ==> CallEnabled(s, t, TakeReply) || CallEnabled(s, t, SeeClosed)
      ensures StillWaits(s, t) ==>
                s.calls[t].msg.id in s.pending && t in s.senders && s.stream == Some(s.senders[t].stream) && !s.closing.Swept?
    {
      assert WaiterOk(Link(s.stream, s.closing), s.pending, s.chans, s.senders, t, s.calls[t]);
    }
    if s.run.Correlating? {
      ClosedOnDelivery(states, steps, n);
    }
  }

  lemma ClosedOnDelivery(states: seq<State>, steps: seq<Step>, n: nat)
    requires IsRun(states, steps) && n <= |steps| && states[n].run.Correlating?
    ensures var s := states[n];
            && s.run.msg.id in s.chans
            && exists m: nat :: LookedUp(states, steps, m, n)
                        && (s.chans[s.run.msg.id].closed <==> SweptByOther(states, steps, m + 1, n, s.run.msg.id))
  {
    hide Enabled, Next, SweptByOther, SweptBetween;
    var m := LookupExists(states, steps, n);
    ClosedExactlyIfSwept(states, steps, m, n, states[n].run.msg);
    SweeperIsOther(states, steps, m, n, states[n].run.msg.id);
  }

  /** It does happen: another goroutine's Close falls between the lookup and the send. The recover in
      dispatchServerMessage is what then keeps the loop alive. */
  lemma ForeignCloseCanRace() returns (states: seq<State>, steps: seq<Step>)
    ensures IsRun(states, steps)
    ensures var s := states[|steps|];
            s.run.Correlating? && s.run.msg.id in s.chans && s.chans[s.run.msg.id].closed
  {
    states, steps := RequestRegistered();
    var msg := ServerMsg(7, false, 0);
    states, steps := Extend(states, steps, ByLoop(CorrelatedFrame(msg)));
    states, steps := Extend(states, steps, ByClose(CloseBegin(false)));
    states, steps := Extend(states, steps, ByClose(CloseSweep));
  }

  /** A run up to the point where Run loops and one request is pending. */
  lemma RequestRegistered() returns (states: seq<State>, steps: seq<Step>)
    ensures IsRun(states, steps)
    ensures var s := states[|steps|];
            && s.stream.Some? && s.closing.Unlocked? && s.run.Looping?
            && s.pending == {7} && s.chans == map[7 := Chan([], false)]
  {
    states, steps := [INITIAL], [];
    states, steps := Extend(states, steps, ByRun(Connect));
    states, steps := Extend(states, steps, ByRun(Greeted));
    states, steps := Extend(states, steps, ByStart(0, StartRequest(7)));
  }

  lemma Extend(states: seq<State>, steps: seq<Step>, step: Step) returns (states': seq<State>, steps': seq<Step>)
    requires IsRun(states, steps) && Enabled(states[|steps|], step)
    ensures steps' == steps + [step] && IsRun(states', steps')
    ensures states' == states + [Next(states[|steps|], step)]
  {
    hide Enabled, Next;
    states', steps' := states + [Next(states[|steps|], step)], steps + [step];
  }

  /** In every state of every run: the queue is within its bound, the handler has been called for received
      deliveries in the order received and at most once per frame, every receipt on the wire follows a nil
      return for its delivery, and, while the handler keeps its contract, what control believes recorded is
      recorded, so that a delivery not yet recorded is one control still redelivers. */
  lemma ReceiptsAreDurable(states: seq<State>, steps: seq<Step>, n: nat)
    requires IsRun(states, steps) && n < |states|
    ensures var s := states[n];
            && |s.queue| <= QUEUE_DEPTH
            && Increasing(s.handled) && Below(s.handled, |s.received|)
            && NilBeforeReceipt(s.log)
            && s.receipted <= s.issued
            && (s.contractKept ==> s.receipted <= s.durable && s.issued <= s.durable + (s.issued - s.receipted))
  {
    hide Enabled, Next, SlotInv, PendingInv;
    RunKeepsInv(states, steps, n);
    var s := states[n];
    var pipeline := Pipeline(s.handled, s.worker, s.queue);
    assert forall k :: 0 <= k < |s.handled| ==> pipeline[k] == s.handled[k];
    forall d | d in s.receipted
      ensures HandlerNil(d) in s.log && d in s.issued
    {
      assert ReceiptOnWire(d) in s.log;
      var k :| 0 <= k < |s.log| && s.log[k] == ReceiptOnWire(d);
      assert HandlerNil(d) in s.log[..k];
      assert HandledAs(d, s.received, s.handled);
    }
  }
}
