/** One turn of the streaming backend: the protocol between the goroutines that call
    onEvent, the server that ends the turn, and the client (backend_stream.go). */
module BackendStream {
  import opened Common
  import opened Contracts
  import opened Codec
  import opened PluginRouter
  import opened BackendFrame

  /** Why no further event is sent: the sticky sendErr. */
  datatype Fault = MarshalFault | SendFault

  /** How one SendMsg ended. A failed send may still have reached the other side. */
  datatype SendOutcome = Sent | SendFailed(delivered: bool)

  /** What respond returns; every result but Success is an error. */
  datatype ServerResult =
    | Success
    | UnknownPort(port: string)
    | BadPrompt(cause: ArgsError)
    | StreamFailed(fault: Fault)
    | EncodeFailed
    | DoneFailed

  /** The checks of respond before it calls the real backend. */
  function AcceptRequest(lib: Library, env: MethodEnvelope): Result<Prompt, ServerResult> {
    if env.port != "backend" then Err(UnknownPort(env.port))
    else
      match DecodeArgs(lib, env.payload, [VPrompt(lib.zeroPrompt)])
      case Err(cause) => Err(BadPrompt(cause))
      case Ok(args) => Ok(args[0].prompt)
  }

  /** What the server accepts: a request for the backend port whose payload is a tuple of one
      prompt; null is the zero prompt. Another port is refused by name, before the payload is
      looked at, and a bad tuple with the reason why it does not decode. */
  lemma AcceptRequestMeans(lib: Library, env: MethodEnvelope)
    ensures env.port != "backend" <==> AcceptRequest(lib, env) == Err(UnknownPort(env.port))
    ensures forall prompt :: AcceptRequest(lib, env) == Ok(prompt) <==>
              env.port == "backend" && IsTuple(lib, env.payload, [VPrompt(lib.zeroPrompt)], [VPrompt(prompt)])
    ensures forall cause :: AcceptRequest(lib, env) == Err(BadPrompt(cause)) <==>
              env.port == "backend" && DecodeArgs(lib, env.payload, [VPrompt(lib.zeroPrompt)]) == Err(cause)
  {
    forall prompt
      ensures AcceptRequest(lib, env) == Ok(prompt) <==>
                env.port == "backend" && IsTuple(lib, env.payload, [VPrompt(lib.zeroPrompt)], [VPrompt(prompt)])
    {
      DecodeArgsMeans(lib, env.payload, [VPrompt(lib.zeroPrompt)], [VPrompt(prompt)]);
      var r := DecodeArgs(lib, env.payload, [VPrompt(lib.zeroPrompt)]);
      if r.Ok? && r.value[0] == VPrompt(prompt) { assert r.value == [VPrompt(prompt)]; }
    }
  }

  function Delivered(out: SendOutcome, payload: Json): seq<Json> {
    if out == SendFailed(false) then [] else [payload]
  }

  // ---- the turn as a sequential object ---------------------------------------

  /** What the lock protects: the events whose callers took the lock before close, the
      frames sent for them, the sticky fault and the latch. */
  datatype Ledger = Ledger(order: seq<BackendEvent>, sent: seq<Json>, sendErr: Option<Fault>, closed: bool)

  const EMPTY := Ledger([], [], None, false)

  /** A whole call of onEvent. */
  function Emit(lib: Library, l: Ledger, e: BackendEvent, out: SendOutcome): Ledger {
    if l.closed then l
    else if l.sendErr.Some? then l.(order := l.order + [e])
    else
      match MarshalFrame(lib, EventFrame(e))
      case None => l.(order := l.order + [e], sendErr := Some(MarshalFault))
      case Some(payload) =>
        Ledger(l.order + [e], l.sent + Delivered(out, payload), if out.Sent? then None else Some(SendFault), false)
  }

  /** A completed critical section: the call of an emitter, or the close. */
  datatype Op = EmitOp(caller: nat, event: BackendEvent, out: SendOutcome) | CloseOp

  function Apply(lib: Library, l: Ledger, op: Op): Ledger {
    if op.EmitOp? then Emit(lib, l, op.event, op.out) else l.(closed := true)
  }

  function Fold(lib: Library, ops: seq<Op>): Ledger {
    if ops == [] then EMPTY else Apply(lib, Fold(lib, ops[..|ops| - 1]), ops[|ops| - 1])
  }

  /** The frames sent are those of the first events, in order; without a fault, of all events. */
  ghost predicate InOrder(lib: Library, l: Ledger) {
    && |l.sent| <= |l.order|
    && (forall j :: 0 <= j < |l.sent| ==> MarshalFrame(lib, EventFrame(l.order[j])) == Some(l.sent[j]))
  }

  ghost predicate Complete(l: Ledger) { l.sendErr.None? ==> |l.sent| == |l.order| }

  lemma EmitKeepsOrder(lib: Library, l: Ledger, e: BackendEvent, out: SendOutcome)
    requires InOrder(lib, l) && Complete(l)
    ensures InOrder(lib, Emit(lib, l, e, out)) && Complete(Emit(lib, l, e, out))
  {}

  lemma {:induction false} FoldInOrder(lib: Library, ops: seq<Op>)
    ensures InOrder(lib, Fold(lib, ops)) && Complete(Fold(lib, ops))
  {
    if ops != [] {
      FoldInOrder(lib, ops[..|ops| - 1]);
      var last := ops[|ops| - 1];
      if last.EmitOp? { EmitKeepsOrder(lib, Fold(lib, ops[..|ops| - 1]), last.event, last.out); }
    }
  }

  /** The variables of one call of respond. The methods are its critical sections and its
      unlocked tail; a send's outcome is a parameter. */
  class Responder {
    const lib: Library
    var sendErr: Option<Fault>
    var closed: bool
    var stream: seq<Json>
    ghost var order: seq<BackendEvent>

    constructor (lib: Library)
      ensures this.lib == lib && Contents() == EMPTY
    {
      this.lib := lib;
      sendErr, closed, stream, order := None, false, [], [];
    }

    ghost function Contents(): Ledger
      reads this
    {
      Ledger(order, stream, sendErr, closed)
    }

    method OnEvent(event: BackendEvent, out: SendOutcome)
      modifies this
      ensures Contents() == Emit(lib, old(Contents()), event, out)
    {
      if !closed { order := order + [event]; }
      if closed || sendErr.Some? { return; }
      var payload := MarshalFrame(lib, EventFrame(event));
      if payload.None? {
        sendErr := Some(MarshalFault);
        return;
      }
      stream := stream + Delivered(out, payload.value);
      if !out.Sent? { sendErr := Some(SendFault); }
    }

    /** From the return of the real backend to the return of respond. */
    method Finish(a: Answer, out: SendOutcome) returns (result: ServerResult)
      modifies this
      ensures closed && sendErr == old(sendErr) && order == old(order)
      ensures old(sendErr).Some? ==> result == StreamFailed(old(sendErr).value) && stream == old(stream)
      ensures old(sendErr).None? ==> result == (if out.Sent? then Success else DoneFailed)
      ensures old(sendErr).None? ==> stream == old(stream) + Delivered(out, MarshalFrame(lib, DoneFrame(a)).value)
      ensures result.Success? && old(InOrder(lib, Contents()) && Complete(Contents())) ==>
                |stream| == |order| + 1 && InOrder(lib, Contents().(sent := stream[..|order|]))
    {
      closed := true;
      var streamErr := sendErr;
      if streamErr.Some? { return StreamFailed(streamErr.value); }
      var payload := MarshalFrame(lib, DoneFrame(a));
      if payload.None? { return EncodeFailed; }
      stream := stream + Delivered(out, payload.value);
      return if out.Sent? then Success else DoneFailed;
    }
  }

  // ---- every interleaving ----------------------------------------------------

  /** Where one call of onEvent stands. */
  datatype EmitterState =
    | Waiting
    | Locked
    | Checked
    | Sending(payload: Json)
    | Releasing(out: SendOutcome)
    | Returned

  datatype Emitter = Emitter(event: BackendEvent, at: EmitterState)

  /** Where respond stands. Holding and Snapped own the lock. */
  datatype ServerState =
    | Listening
    | Responding(prompt: Prompt)
    | Locking(a: Answer)
    | Holding(a: Answer)
    | Snapped(a: Answer, snapshot: Option<Fault>)
    | Deciding(a: Answer, snapshot: Option<Fault>)
    | SendingDone(a: Answer, done: Json)
    | Finished(result: ServerResult)

  datatype ClientState = Starting | Receiving | Ended(reply: string, error: Option<ClientError>)

  datatype Owner = ByEmitter(i: nat) | ByServer

  datatype SendRecord = SendRecord(owner: Owner, out: SendOutcome)

  datatype State = State(
    emitters: seq<Emitter>,
    lock: Option<Owner>,
    sendErr: Option<Fault>,
    closed: bool,
    wire: seq<Json>,                 // the frames that reached the stream, in order
    server: ServerState,
    request: Option<MethodEnvelope>,
    client: ClientState,
    received: nat,                   // event frames the client has read
    replayed: seq<BackendEvent>,     // events the client's hook was given
    // history, never read by a step
    order: seq<BackendEvent>,        // events whose callers took the lock before close
    ops: seq<Op>,                    // critical sections completed
    entry: Ledger,                   // the ledger when the lock was last taken
    answer: Option<Answer>,          // what the real backend returned
    doneOnWire: bool,
    sends: seq<SendRecord>)          // calls of SendMsg that have returned

  /** The client's call: its prompt, and whether it passed a hook. */
  datatype Turn = Turn(lib: Library, prompt: Prompt, hook: bool)

  const START := State([], None, None, false, [], Listening, None, Starting, 0, [], [], [], EMPTY, None, false, [])

  datatype Label =
    | Open(out: SendOutcome)
    | Accept
    | Spawn(event: BackendEvent)
    | Acquire(i: nat)
    | Check(i: nat)
    | Encode(i: nat)
    | SendReturns(i: nat, out: SendOutcome)
    | Release(i: nat)
    | RealReturns(a: Answer)
    | ServerAcquire
    | ServerClose
    | ServerRelease
    | ServerDecide
    | DoneReturns(out: SendOutcome)
    | Receive
    | ReceiveFails(fault: ReceiveFault)

  /** The real backend has been called, so goroutines may call onEvent, even after it returned. */
  predicate Called(s: State) {
    !s.server.Listening? && !(s.server.Finished? && (s.server.result.UnknownPort? || s.server.result.BadPrompt?))
  }

  function EventFrames(s: State): seq<Json> {
    if s.doneOnWire && s.wire != [] then s.wire[..|s.wire| - 1] else s.wire
  }

  function Shared(s: State): Ledger {
    Ledger(s.order, EventFrames(s), s.sendErr, s.closed)
  }

  predicate At(s: State, i: nat, at: EmitterState) { i < |s.emitters| && s.emitters[i].at == at }

  function Move(s: State, i: nat, at: EmitterState): State
    requires i < |s.emitters|
  {
    s.(emitters := s.emitters[i := s.emitters[i].(at := at)])
  }

  /** The client opens the stream, sends its prompt and closes its side; out is how the three
      end together. A failure after the prompt was sent leaves the server with a request. */
  function StepOpen(t: Turn, s: State, out: SendOutcome): Option<State> {
    var payload := EncodeArgs(t.lib, [VPrompt(t.prompt)]);
    if !s.client.Starting? then None
    else if payload.None? then Some(s.(client := Ended("", Some(EncodePrompt))))
    else Some(s.(client := if out.Sent? then Receiving else Ended("", Some(OpenFailed)),
                 request := if out == SendFailed(false) then None
                            else Some(MethodEnvelope("backend", "Respond", payload))))
  }

  function StepAccept(t: Turn, s: State): Option<State> {
    if !s.server.Listening? || s.request.None? then None
    else
      match AcceptRequest(t.lib, s.request.value)
      case Err(result) => Some(s.(server := Finished(result)))
      case Ok(prompt) => Some(s.(server := Responding(prompt)))
  }

  function StepSpawn(s: State, e: BackendEvent): Option<State> {
    if Called(s) then Some(s.(emitters := s.emitters + [Emitter(e, Waiting)])) else None
  }

  function StepAcquire(s: State, i: nat): Option<State> {
    if !At(s, i, Waiting) || s.lock.Some? then None
    else Some(Move(s, i, Locked).(lock := Some(ByEmitter(i)), entry := Shared(s),
                                  order := if s.closed then s.order else s.order + [s.emitters[i].event]))
  }

  function StepCheck(s: State, i: nat): Option<State> {
    if !At(s, i, Locked) then None
    else Some(Move(s, i, if s.closed || s.sendErr.Some? then Releasing(Sent) else Checked))
  }

  function StepEncode(t: Turn, s: State, i: nat): Option<State> {
    if !At(s, i, Checked) then None
    else
      match MarshalFrame(t.lib, EventFrame(s.emitters[i].event))
      case None => Some(Move(s, i, Releasing(Sent)).(sendErr := Some(MarshalFault)))
      case Some(payload) => Some(Move(s, i, Sending(payload)))
  }

  function StepSendReturns(s: State, i: nat, out: SendOutcome): Option<State> {
    if i >= |s.emitters| || !s.emitters[i].at.Sending? then None
    else Some(Move(s, i, Releasing(out)).(
                wire := s.wire + Delivered(out, s.emitters[i].at.payload),
                sendErr := if out.Sent? then s.sendErr else Some(SendFault),
                sends := s.sends + [SendRecord(ByEmitter(i), out)]))
  }

  function StepRelease(s: State, i: nat): Option<State> {
    if i >= |s.emitters| || !s.emitters[i].at.Releasing? then None
    else Some(Move(s, i, Returned).(
                lock := None, ops := s.ops + [EmitOp(i, s.emitters[i].event, s.emitters[i].at.out)]))
  }

  function StepDecide(t: Turn, s: State): Option<State> {
    if !s.server.Deciding? then None
    else if s.server.snapshot.Some? then Some(s.(server := Finished(StreamFailed(s.server.snapshot.value))))
    else
      match MarshalFrame(t.lib, DoneFrame(s.server.a))
      case None => Some(s.(server := Finished(EncodeFailed)))
      case Some(payload) => Some(s.(server := SendingDone(s.server.a, payload)))
  }

  function StepDoneReturns(s: State, out: SendOutcome): Option<State> {
    if !s.server.SendingDone? then None
    else Some(s.(server := Finished(if out.Sent? then Success else DoneFailed),
                 wire := s.wire + Delivered(out, s.server.done),
                 doneOnWire := Delivered(out, s.server.done) != [],
                 sends := s.sends + [SendRecord(ByServer, out)]))
  }

  function StepReceive(t: Turn, s: State): Option<State> {
    if !s.client.Receiving? || s.received >= |s.wire| then None
    else
      match ApplyFrame(t.lib, Some(s.wire[s.received]))
      case Terminal(reply, error) => Some(s.(client := Ended(reply, error)))
      case Replay(event) =>
        Some(s.(received := s.received + 1, replayed := if t.hook then s.replayed + [event] else s.replayed))
  }

  /** One step of one party; None when the party cannot take it. */
  function Step(t: Turn, s: State, l: Label): Option<State> {
    match l
    case Open(out) => StepOpen(t, s, out)
    case Accept => StepAccept(t, s)
    case Spawn(e) => StepSpawn(s, e)
    case Acquire(i) => StepAcquire(s, i)
    case Check(i) => StepCheck(s, i)
    case Encode(i) => StepEncode(t, s, i)
    case SendReturns(i, out) => StepSendReturns(s, i, out)
    case Release(i) => StepRelease(s, i)
    case RealReturns(a) =>
      if s.server.Responding? then Some(s.(server := Locking(a), answer := Some(a))) else None
    case ServerAcquire =>
      if s.server.Locking? && s.lock.None?
      then Some(s.(server := Holding(s.server.a), lock := Some(ByServer), entry := Shared(s))) else None
    case ServerClose =>
      if s.server.Holding? then Some(s.(server := Snapped(s.server.a, s.sendErr), closed := true)) else None
    case ServerRelease =>
      if s.server.Snapped?
      then Some(s.(server := Deciding(s.server.a, s.server.snapshot), lock := None, ops := s.ops + [CloseOp])) else None
    case ServerDecide => StepDecide(t, s)
    case DoneReturns(out) => StepDoneReturns(s, out)
    case Receive => StepReceive(t, s)
    case ReceiveFails(fault) =>
      if s.client.Receiving? then Some(s.(client := Ended("", Some(ReceiveFailure(fault))))) else None
  }

  ghost predicate IsRun(t: Turn, states: seq<State>, labels: seq<Label>) {
    && |states| == |labels| + 1 && states[0] == START
    && forall k :: 0 <= k < |labels| ==> Step(t, states[k], labels[k]) == Some(states[k + 1])
  }
}
