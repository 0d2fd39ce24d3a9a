/**
 The agent stream client (client.go) as a step machine: any number of API calls that send on one stream,
 the goroutine each send spawns, the map of pending correlated requests, the receive loop and teardown of
 `Run`, the delivery worker with its bounded queue, `Close`, reconnects, and control's side of the delivery
 protocol. A step is one region that the code makes atomic, by a mutex or by a channel operation; a run is
 any sequence of enabled steps, so every interleaving is a run.

 Every choice the environment makes (a context ending, an error, a frame, what a handler does) is part of
 the step's label, which makes a run a list of labels.
 */
module StreamClient {
  import opened Text

  type Id = nat           // message ids; a new request draws one never used before
  type DeliveryId = nat
  type CallId = nat       // one API call, and the send goroutine it spawns

  datatype AgentMsg = Plain | Request(id: Id) | Receipt(delivery: DeliveryId)
  datatype ServerMsg = ServerMsg(id: Id, isError: bool, payload: int)

  /** What a call of `send`, or of a correlated request around it, can come to. */
  datatype Outcome = NotConnected | Cancelled | SendFailed | Sent | Reply(msg: ServerMsg) | StreamClosed

  datatype Pc =
    | Entered                       // a correlated request has registered its channel
    | GotStream(stream: nat)        // read c.stream under the read lock
    | Queued(stream: nat)           // waiting for the send slot
    | HoldsSlot(stream: nat)        // acquired, goroutine not yet started
    | AwaitSend                     // waiting for the goroutine's result or the context
    | AwaitReply                    // correlated request: waiting for the response
    | Returning(outcome: Outcome)   // the deferred unregisterPending is still to run
    | Returned(outcome: Outcome)

  datatype Call = Call(msg: AgentMsg, pc: Pc)

  /** The goroutine of `send`: stream.Send, then release the slot, then publish the error. */
  datatype SendPhase = Starting | InFlight | SendDone(ok: bool) | Released(ok: bool) | Published(ok: bool)
  datatype Sender = Sender(stream: nat, msg: AgentMsg, phase: SendPhase)

  /** A pending request's channel, of capacity one. */
  datatype Chan = Chan(buf: seq<ServerMsg>, closed: bool)

  datatype RunPhase =
    | Idle                          // no Run is active
    | Greeting                      // connected, sending hello
    | Looping                       // in the select loop
    | Correlating(msg: ServerMsg)   // deliverPending found the channel, has not sent on it yet
    | Unpublished                   // teardown: deliveryCh set to nil
    | WorkerCancelled               // teardown: worker context cancelled
    | QueueClosed                   // teardown: queue closed, waiting for the worker
    | Closing                       // teardown: the deferred Close

  /** Where the holder of c.mu stands in `Close`, and whether that holder is the goroutine of `Run`. */
  datatype CloseState = Unlocked | Locked(byRun: bool) | Swept(byRun: bool)

  /** The worker picks a delivery, finds its context alive (Cleared), and only then calls the handler. */
  datatype Worker = NoWorker | Ready | Picked(i: nat) | Cleared(i: nat) | Handling(i: nat) | Receipting(i: nat, call: CallId) | Exited

  datatype Event = HandlerNil(delivery: DeliveryId) | ReceiptOnWire(delivery: DeliveryId)

  const QUEUE_DEPTH := 256

  datatype State = State(
    stream: Option<nat>,
    nextStream: nat,
    closing: CloseState,
    slot: nat,                      // occupancy of sendSem
    calls: map<CallId, Call>,
    senders: map<CallId, Sender>,
    pending: set<Id>,
    chans: map<Id, Chan>,
    run: RunPhase,
    ctxDone: bool,
    workerCtxDone: bool,
    queue: seq<nat>,                // positions in `received`
    queueClosed: bool,
    worker: Worker,
    received: seq<DeliveryId>,      // history: every delivery frame the loop dispatched
    handled: seq<nat>,              // history: the positions the handler was called for
    log: seq<Event>,                // history: nil returns and receipts, in order
    issued: set<DeliveryId>,        // control: deliveries it wants recorded
    receipted: set<DeliveryId>,     // control: receipts it has read
    durable: set<DeliveryId>,       // device: what the handler has recorded
    contractKept: bool)             // history: no nil return without a record

  const INITIAL := State(None, 0, Unlocked, 0, map[], map[], {}, map[], Idle, false, false,
                         [], false, NoWorker, [], [], [], {}, {}, {}, true)

  // What groups of steps leave alone.

  predicate SameSends(s: State, r: State) {
    r.calls == s.calls && r.senders == s.senders && r.slot == s.slot
  }

  predicate SameDeliveries(s: State, r: State) {
    r.queue == s.queue && r.received == s.received && r.handled == s.handled
  }

  predicate SameLedger(s: State, r: State) {
    r.log == s.log && r.issued == s.issued && r.receipted == s.receipted && r.durable == s.durable && r.contractKept == s.contractKept
  }

  // ----- labels -----

  datatype StartStep = StartPlain | StartRequest(id: Id)

  datatype CallStep =
    | ReadStream
    | CheckContext(done: bool)
    | AcquireSlot
    | AbandonSlot
    | SpawnSend
    | TakeSendResult
    | AbandonSend
    | TakeReply
    | SeeClosed
    | AbandonReply
    | Unregister

  datatype SendStep = Begin | End(ok: bool, wrote: bool) | ReleaseSlot | PublishResult

  datatype RunStep =
    | Connect
    | Greeted
    | GreetFailed
    | CancelContext
    | CancelWorker
    | CloseQueue
    | WorkerJoined
    | NothingToClose

  datatype LoopStep =
    | CorrelatedFrame(msg: ServerMsg)
    | DeliverPending
    | DeliveryFrame(delivery: DeliveryId)
    | Fatal

  datatype WorkerStep =
    | Pick
    | Skip
    | Clear
    | Handle
    | ReturnNil(call: CallId, recorded: bool)
    | ReturnError(recorded: bool)
    | ReceiptReturned
    | Exit

  datatype CloseStep = CloseBegin(byRun: bool) | CloseSweep | CloseEnd

  datatype ControlStep = Issue(delivery: DeliveryId) | ReadReceipt(delivery: DeliveryId)

  datatype Step =
    | ByStart(t: CallId, start: StartStep)
    | ByCall(t: CallId, call: CallStep)
    | BySender(t: CallId, send: SendStep)
    | ByRun(r: RunStep)
    | ByLoop(l: LoopStep)
    | ByWorker(w: WorkerStep)
    | ByClose(c: CloseStep)
    | ByControl(k: ControlStep)

  // ----- API calls -----

  function SetPc(s: State, t: CallId, pc: Pc): State
    requires t in s.calls
  {
    s.(calls := s.calls[t := s.calls[t].(pc := pc)])
  }

  predicate StartEnabled(s: State, t: CallId, step: StartStep) {
    t !in s.calls && (step.StartRequest? ==> step.id !in s.chans)
  }

  function StartNext(s: State, t: CallId, step: StartStep): (r: State)
    requires StartEnabled(s, t, step)
    ensures r.senders == s.senders && r.slot == s.slot && r.run == s.run && r.worker == s.worker
    ensures SameDeliveries(s, r) && SameLedger(s, r)
  {
    match step
    case StartPlain => s.(calls := s.calls[t := Call(Plain, Entered)])
    case StartRequest(id) =>
      s.(calls := s.calls[t := Call(Request(id), Entered)],
         pending := s.pending + {id},
         chans := s.chans[id := Chan([], false)])
  }

  /** A correlated request in its final select. */
  predicate WaitsOn(s: State, call: Call) {
    call.pc.AwaitReply? && call.msg.Request? && call.msg.id in s.chans
  }

  predicate CallEnabled(s: State, t: CallId, step: CallStep) {
    t in s.calls &&
    var call := s.calls[t];
    match step
    case ReadStream => call.pc.Entered? && s.closing.Unlocked?
    case CheckContext(_) => call.pc.GotStream?
    case AcquireSlot => call.pc.Queued? && s.slot == 0
    case AbandonSlot => call.pc.Queued?
    case SpawnSend => call.pc.HoldsSlot?
    case TakeSendResult => call.pc.AwaitSend? && t in s.senders && s.senders[t].phase.Published?
    case AbandonSend => call.pc.AwaitSend?
    case TakeReply => WaitsOn(s, call) && s.chans[call.msg.id].buf != []
    case SeeClosed => WaitsOn(s, call) && s.chans[call.msg.id] == Chan([], true)
    case AbandonReply => call.pc.AwaitReply?
    case Unregister => call.pc.Returning?
  }

  function CallNext(s: State, t: CallId, step: CallStep): (r: State)
    requires CallEnabled(s, t, step)
    ensures r.run == s.run && r.worker == s.worker && r.stream == s.stream && r.closing == s.closing
    ensures SameDeliveries(s, r) && SameLedger(s, r)
  {
    match step
    case ReadStream =>
      SetPc(s, t, if s.stream.None? then Returning(NotConnected) else GotStream(s.stream.value))
    case CheckContext(done) =>
      SetPc(s, t, if done then Returning(Cancelled) else Queued(s.calls[t].pc.stream))
    case AcquireSlot => SetPc(s, t, HoldsSlot(s.calls[t].pc.stream)).(slot := s.slot + 1)
    case AbandonSlot => SetPc(s, t, Returning(Cancelled))
    case SpawnSend =>
      SetPc(s, t, AwaitSend).(
        senders := s.senders[t := Sender(s.calls[t].pc.stream, s.calls[t].msg, Starting)])
    case TakeSendResult =>
      SetPc(s, t, if !s.senders[t].phase.ok then Returning(SendFailed)
                  else if s.calls[t].msg.Request? then AwaitReply else Returning(Sent))
    case AbandonSend => SetPc(s, t, Returning(Cancelled))
    case TakeReply =>
      var id := s.calls[t].msg.id;
      SetPc(s, t, Returning(Reply(s.chans[id].buf[0]))).(
        chans := s.chans[id := s.chans[id].(buf := s.chans[id].buf[1..])])
    case SeeClosed => SetPc(s, t, Returning(StreamClosed))
    case AbandonReply => SetPc(s, t, Returning(Cancelled))
    case Unregister =>
      SetPc(s, t, Returned(s.calls[t].pc.outcome)).(
        pending := if s.calls[t].msg.Request? then s.pending - {s.calls[t].msg.id} else s.pending)
  }

  // ----- send goroutines -----

  predicate SendEnabled(s: State, t: CallId, step: SendStep) {
    t in s.senders &&
    var phase := s.senders[t].phase;
    match step
    case Begin => phase.Starting?
    case End(ok, wrote) => phase.InFlight? && (ok ==> wrote)
    case ReleaseSlot => phase.SendDone? && s.slot > 0
    case PublishResult => phase.Released?
  }

  function SetPhase(s: State, t: CallId, phase: SendPhase): State
    requires t in s.senders
  {
    s.(senders := s.senders[t := s.senders[t].(phase := phase)])
  }

  function SendNext(s: State, t: CallId, step: SendStep): (r: State)
    requires SendEnabled(s, t, step)
    ensures r.calls == s.calls && r.pending == s.pending && r.chans == s.chans && r.run == s.run && r.worker == s.worker
    ensures SameDeliveries(s, r) && (step.End? || SameLedger(s, r))
  {
    match step
    case Begin => SetPhase(s, t, InFlight)
    case End(ok, wrote) =>
      var msg := s.senders[t].msg;
      SetPhase(s, t, SendDone(ok)).(
        log := if wrote && msg.Receipt? then s.log + [ReceiptOnWire(msg.delivery)] else s.log)
    case ReleaseSlot => SetPhase(s, t, Released(s.senders[t].phase.ok)).(slot := s.slot - 1)
    case PublishResult => SetPhase(s, t, Published(s.senders[t].phase.ok))
  }

  // ----- Run: connect and teardown -----

  predicate RunEnabled(s: State, step: RunStep) {
    match step
    case Connect => s.run.Idle? && s.closing.Unlocked? && s.stream.None?
    case Greeted => s.run.Greeting? && s.closing.Unlocked?
    case GreetFailed => s.run.Greeting?
    case CancelContext => !s.run.Idle?
    case CancelWorker => s.run.Unpublished?
    case CloseQueue => s.run.WorkerCancelled?
    case WorkerJoined => s.run.QueueClosed? && s.worker.Exited?
    case NothingToClose => s.run.Closing? && s.closing.Unlocked? && s.stream.None?
  }

  function RunNext(s: State, step: RunStep): (r: State)
    requires RunEnabled(s, step)
    ensures SameSends(s, r) && r.pending == s.pending && r.chans == s.chans && SameLedger(s, r)
    ensures r.received == s.received && r.handled == s.handled && (step.Greeted? || SameDeliveries(s, r))
  {
    match step
    case Connect => s.(stream := Some(s.nextStream), nextStream := s.nextStream + 1, run := Greeting, ctxDone := false)
    case Greeted => s.(run := Looping, queue := [], queueClosed := false, worker := Ready, workerCtxDone := false)
    case GreetFailed => s.(run := Closing)
    case CancelContext => s.(ctxDone := true)
    case CancelWorker => s.(run := WorkerCancelled, workerCtxDone := true)
    case CloseQueue => s.(run := QueueClosed, queueClosed := true)
    case WorkerJoined => s.(run := Closing, worker := NoWorker)
    case NothingToClose => s.(run := Idle)
  }

  // ----- Run: the receive loop -----

  predicate LoopEnabled(s: State, step: LoopStep) {
    match step
    case CorrelatedFrame(_) => s.run.Looping?
    case DeliverPending => s.run.Correlating? && s.run.msg.id in s.chans
    case DeliveryFrame(d) => s.run.Looping? && s.closing.Unlocked? && d in s.issued
    case Fatal => s.run.Looping? && s.closing.Unlocked?
  }

  function LoopNext(s: State, step: LoopStep): (r: State)
    requires LoopEnabled(s, step)
    ensures SameSends(s, r) && r.pending == s.pending && SameLedger(s, r) && r.worker == s.worker
    ensures r.handled == s.handled && (step.DeliveryFrame? || SameDeliveries(s, r))
  {
    match step
    // deliverPending looks the channel up under pendingMu; a frame with no waiter goes to OnError or nowhere
    case CorrelatedFrame(msg) => if msg.id in s.pending then s.(run := Correlating(msg)) else s
    // ... and sends on it without the lock: a full buffer drops the duplicate, a closed channel panics and
    // the recover in dispatchServerMessage drops the frame
    case DeliverPending =>
      var id := s.run.msg.id;
      var ch := s.chans[id];
      if ch.closed || |ch.buf| >= 1 then s.(run := Looping)
      else s.(run := Looping, chans := s.chans[id := ch.(buf := ch.buf + [s.run.msg])])
    // a full queue drops the delivery
    case DeliveryFrame(d) =>
      s.(received := s.received + [d],
         queue := if |s.queue| < QUEUE_DEPTH then s.queue + [|s.received|] else s.queue)
    case Fatal => s.(run := Unpublished)
  }

  // ----- the delivery worker -----

  predicate WorkerEnabled(s: State, step: WorkerStep) {
    match step
    case Pick => s.worker.Ready? && s.queue != []
    case Skip => s.worker.Picked? && (s.ctxDone || s.workerCtxDone)
    case Clear => s.worker.Picked? && !s.ctxDone && !s.workerCtxDone
    case Handle => s.worker.Cleared? && s.worker.i < |s.received|
    case ReturnNil(call, _) => s.worker.Handling? && s.worker.i < |s.received| && call !in s.calls
    case ReturnError(_) => s.worker.Handling? && s.worker.i < |s.received|
    case ReceiptReturned => s.worker.Receipting? && s.worker.call in s.calls && s.calls[s.worker.call].pc.Returned?
    case Exit => s.worker.Ready? && s.queue == [] && s.queueClosed
  }

  function WorkerNext(s: State, step: WorkerStep): (r: State)
    requires WorkerEnabled(s, step)
    ensures r.senders == s.senders && r.slot == s.slot && r.pending == s.pending && r.chans == s.chans && r.run == s.run
    ensures r.received == s.received
  {
    match step
    case Pick => s.(worker := Picked(s.queue[0]), queue := s.queue[1..])
    case Skip => s.(worker := Ready)
    case Clear => s.(worker := Cleared(s.worker.i))
    case Handle => s.(worker := Handling(s.worker.i), handled := s.handled + [s.worker.i])
    case ReturnNil(call, recorded) =>
      var d := s.received[s.worker.i];
      s.(worker := Receipting(s.worker.i, call),
         calls := s.calls[call := Call(Receipt(d), Entered)],
         log := s.log + [HandlerNil(d)],
         durable := if recorded then s.durable + {d} else s.durable,
         contractKept := s.contractKept && (recorded || d in s.durable))
    case ReturnError(recorded) =>
      s.(worker := Ready, durable := if recorded then s.durable + {s.received[s.worker.i]} else s.durable)
    case ReceiptReturned => s.(worker := Ready)
    case Exit => s.(worker := Exited)
  }

  // ----- Close -----

  predicate CloseEnabled(s: State, step: CloseStep) {
    match step
    case CloseBegin(byRun) => s.closing.Unlocked? && s.stream.Some? && (byRun ==> s.run.Closing?)
    case CloseSweep => s.closing.Locked?
    case CloseEnd => s.closing.Swept?
  }

  /** Every pending channel closed, the rest as they were. */
  function CloseAll(chans: map<Id, Chan>, ids: set<Id>): map<Id, Chan> {
    map id | id in chans :: if id in ids then chans[id].(closed := true) else chans[id]
  }

  function CloseNext(s: State, step: CloseStep): (r: State)
    requires CloseEnabled(s, step)
    ensures SameSends(s, r) && r.worker == s.worker && SameDeliveries(s, r) && SameLedger(s, r)
  {
    match step
    case CloseBegin(byRun) => s.(closing := Locked(byRun))
    case CloseSweep =>
      s.(closing := Swept(s.closing.byRun), chans := CloseAll(s.chans, s.pending), pending := {})
    case CloseEnd => s.(closing := Unlocked, stream := None, run := if s.closing.byRun then Idle else s.run)
  }

  // ----- control -----

  predicate ControlEnabled(s: State, step: ControlStep) {
    match step
    case Issue(d) => true
    case ReadReceipt(d) => ReceiptOnWire(d) in s.log
  }

  function ControlNext(s: State, step: ControlStep): (r: State)
    requires ControlEnabled(s, step)
    ensures SameSends(s, r) && r.pending == s.pending && r.chans == s.chans && r.run == s.run && r.worker == s.worker && SameDeliveries(s, r)
  {
    match step
    case Issue(d) => s.(issued := s.issued + {d})
    case ReadReceipt(d) => s.(receipted := s.receipted + {d})
  }

  // ----- runs -----

  predicate Enabled(s: State, step: Step) {
    match step
    case ByStart(t, start) => StartEnabled(s, t, start)
    case ByCall(t, call) => CallEnabled(s, t, call)
    case BySender(t, send) => SendEnabled(s, t, send)
    case ByRun(r) => RunEnabled(s, r)
    case ByLoop(l) => LoopEnabled(s, l)
    case ByWorker(w) => WorkerEnabled(s, w)
    case ByClose(c) => CloseEnabled(s, c)
    case ByControl(k) => ControlEnabled(s, k)
  }

  function Next(s: State, step: Step): State
    requires Enabled(s, step)
  {
    match step
    case ByStart(t, start) => StartNext(s, t, start)
    case ByCall(t, call) => CallNext(s, t, call)
    case BySender(t, send) => SendNext(s, t, send)
    case ByRun(r) => RunNext(s, r)
    case ByLoop(l) => LoopNext(s, l)
    case ByWorker(w) => WorkerNext(s, w)
    case ByClose(c) => CloseNext(s, c)
    case ByControl(k) => ControlNext(s, k)
  }

  /** The states a list of labels passes through, the last one being the state it ends in. */
  predicate IsRun(states: seq<State>, steps: seq<Step>) {
    && |states| == |steps| + 1
    && states[0] == INITIAL
    && forall i :: 0 <= i < |steps| ==> Enabled(states[i], steps[i]) && states[i + 1] == Next(states[i], steps[i])
  }
}
