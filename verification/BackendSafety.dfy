/** What every run of a backend turn keeps, whatever the interleaving and wherever the
    stream breaks. */
module BackendSafety {
  import opened Common
  import opened Contracts
  import opened Codec
  import opened PluginRouter
  import opened BackendFrame
  import opened BackendStream

  predicate InCritical(at: EmitterState) { !at.Waiting? && !at.Returned? }

  ghost predicate LockInv(s: State) {
    && (forall i :: 0 <= i < |s.emitters| ==> (InCritical(s.emitters[i].at) <==> s.lock == Some(ByEmitter(i))))
    && (s.lock.Some? && s.lock.value.ByEmitter? ==> s.lock.value.i < |s.emitters|)
    && (s.server.Holding? || s.server.Snapped? <==> s.lock == Some(ByServer))
  }

  predicate PastClose(at: ServerState) {
    || at.Snapped? || at.Deciding? || at.SendingDone?
    || (at.Finished? && !at.result.UnknownPort? && !at.result.BadPrompt?)
  }

  /** The Done frame has been handed to SendMsg and the call has returned. */
  predicate DoneAttempted(at: ServerState) { at.Finished? && (at.result.Success? || at.result.DoneFailed?) }

  ghost predicate ServerInv(t: Turn, s: State) {
    && (s.closed <==> PastClose(s.server))
    && (!Called(s) ==> s.emitters == [] && s.wire == [] && s.order == [] && s.sendErr.None?)
    && (s.server.Locking? ==> s.answer == Some(s.server.a))
    && (s.server.Holding? ==> s.answer == Some(s.server.a))
    && (s.server.Snapped? ==> s.server.snapshot == s.sendErr && s.answer == Some(s.server.a))
    && (s.server.Deciding? ==> s.server.snapshot == s.sendErr && s.answer == Some(s.server.a))
    && (s.server.SendingDone? ==> s.sendErr.None? && s.answer == Some(s.server.a)
                                  && MarshalFrame(t.lib, DoneFrame(s.server.a)) == Some(s.server.done))
    && (s.server.Finished? && s.server.result.StreamFailed? ==> s.sendErr == Some(s.server.result.fault))
    && (s.server.Finished? && !s.server.result.StreamFailed? ==> s.sendErr.None?)
    && s.server != Finished(EncodeFailed)
  }

  ghost predicate DoneInv(t: Turn, s: State) {
    && (DoneAttempted(s.server) ==> s.answer.Some?)
    && (s.doneOnWire ==> DoneAttempted(s.server) && s.wire != [] && s.answer.Some?
                         && MarshalFrame(t.lib, DoneFrame(s.answer.value)) == Some(s.wire[|s.wire| - 1]))
    && (s.server == Finished(Success) ==> s.doneOnWire)
  }

  ghost predicate EmitterInv(t: Turn, s: State) {
    forall i :: 0 <= i < |s.emitters| ==>
      && (s.emitters[i].at.Checked? || s.emitters[i].at.Sending? ==> s.sendErr.None? && !s.closed)
      && (s.emitters[i].at.Sending? ==>
            MarshalFrame(t.lib, EventFrame(s.emitters[i].event)) == Some(s.emitters[i].at.payload))
  }

  /** What the emitter that holds the lock has done to the ledger it found. */
  ghost predicate Progress(lib: Library, m: Emitter, entry: Ledger, now: Ledger) {
    match m.at
    case Locked => now == if entry.closed then entry else entry.(order := entry.order + [m.event])
    case Checked => entry.sendErr.None? && !entry.closed && now == entry.(order := entry.order + [m.event])
    case Sending(_) => entry.sendErr.None? && !entry.closed && now == entry.(order := entry.order + [m.event])
    case Releasing(out) => now == Emit(lib, entry, m.event, out)
    case _ => false
  }

  /** The concurrent turn refines the sequential one: outside the lock the shared variables
      are the fold of the completed critical sections. */
  ghost predicate LedgerInv(t: Turn, s: State) {
    match s.lock
    case None => Fold(t.lib, s.ops) == Shared(s)
    case Some(ByServer) =>
      Fold(t.lib, s.ops) == s.entry && Shared(s) == (if s.server.Snapped? then s.entry.(closed := true) else s.entry)
    case Some(ByEmitter(i)) =>
      Fold(t.lib, s.ops) == s.entry && i < |s.emitters| && Progress(t.lib, s.emitters[i], s.entry, Shared(s))
  }

  ghost predicate SendsInv(s: State) {
    && (forall k :: 0 <= k < |s.sends| - 1 ==> s.sends[k].out.Sent? && s.sends[k].owner.ByEmitter?)
    && (s.sends != [] && !DoneAttempted(s.server) ==> s.sends[|s.sends| - 1].owner.ByEmitter?)
    && (s.sends != [] && s.sendErr.None? && !DoneAttempted(s.server) ==> s.sends[|s.sends| - 1].out.Sent?)
  }

  /** The client was sent the Done frame, after every event. */
  ghost predicate SawDone(s: State, reply: string) {
    s.doneOnWire && s.received == |s.order| && s.answer.Some? && reply == s.answer.value.reply
  }

  ghost predicate ClientInv(t: Turn, s: State) {
    && s.received <= |EventFrames(s)| && s.received <= |s.order|
    && s.replayed == (if t.hook then s.order[..s.received] else [])
    && (s.client.Ended? ==>
          match s.client.error
          case None => SawDone(s, s.client.reply) && ErrString(s.answer.value.error) == ""
          case Some(RemoteFailure(message)) =>
            SawDone(s, s.client.reply) && message != "" && s.answer.value.error == Some(message)
          case Some(cause) => s.client.reply == "" && !cause.BadFrame? && !cause.InvalidFrame?)
  }

  /** The request the client sends, or None when its prompt has no encoding. */
  function Request(t: Turn): Option<MethodEnvelope> {
    var payload := EncodeArgs(t.lib, [VPrompt(t.prompt)]);
    if payload.Some? then Some(MethodEnvelope("backend", "Respond", payload)) else None
  }

  ghost predicate PromptInv(t: Turn, s: State) {
    && (s.request.Some? ==> Request(t).Some? && s.request == Request(t))
    && (s.server.Responding? ==> s.server.prompt == t.prompt)
    && (s.client.Starting? ==> s.request.None?)
    && (!Called(s) ==> s.server.Listening?)
  }

  /** All but what refers to the sequential ledger and to the client. */
  ghost predicate Core(t: Turn, s: State) {
    LockInv(s) && ServerInv(t, s) && DoneInv(t, s) && EmitterInv(t, s) && SendsInv(s) && PromptInv(t, s)
  }

  ghost predicate Inv(t: Turn, s: State) {
    Core(t, s) && LedgerInv(t, s) && ClientInv(t, s)
  }

  /** What the client relies on: events and frames are only added, and Done settles them. */
  ghost predicate Grows(s: State, n: State) {
    && s.order <= n.order && |EventFrames(s)| <= |EventFrames(n)|
    && (s.doneOnWire ==> n.doneOnWire && n.order == s.order && n.answer == s.answer)
  }

  /** No call of SendMsg returns. */
  ghost predicate SendsNothing(s: State, n: State) {
    n.sendErr == s.sendErr && n.wire == s.wire && n.sends == s.sends
  }

  /** The latch, the fault and the accepted events are final. */
  ghost predicate StaysClosed(s: State, n: State) {
    n.closed && n.sendErr == s.sendErr && n.order == s.order
  }

  ghost predicate Advances(s: State, n: State) {
    Grows(s, n) && (s.sendErr.Some? ==> SendsNothing(s, n)) && (s.closed ==> StaysClosed(s, n))
  }

  ghost predicate ClientUnmoved(s: State, n: State) {
    n.client == s.client && n.received == s.received && n.replayed == s.replayed
  }

  // One lemma for each step of a party.

  lemma AcquireCore(t: Turn, s: State, i: nat)
    requires Core(t, s) && StepAcquire(s, i).Some?
    ensures var n := StepAcquire(s, i).value; Core(t, n) && Advances(s, n) && ClientUnmoved(s, n)
  {}

  lemma CheckCore(t: Turn, s: State, i: nat)
    requires Core(t, s) && StepCheck(s, i).Some?
    ensures var n := StepCheck(s, i).value; Core(t, n) && Advances(s, n) && ClientUnmoved(s, n)
  {}

  lemma EncodeCore(t: Turn, s: State, i: nat)
    requires Core(t, s) && StepEncode(t, s, i).Some?
    ensures var n := StepEncode(t, s, i).value; Core(t, n) && Advances(s, n) && ClientUnmoved(s, n)
  {
    var payload := MarshalFrame(t.lib, EventFrame(s.emitters[i].event));
    if payload.None? { EncodeFails(t, s, i); } else { EncodeSends(t, s, i); }
  }

  lemma EncodeFails(t: Turn, s: State, i: nat)
    requires Core(t, s) && At(s, i, Checked)
    ensures var n := Move(s, i, Releasing(Sent)).(sendErr := Some(MarshalFault));
            Core(t, n) && Advances(s, n) && ClientUnmoved(s, n)
  {
    assert s.lock == Some(ByEmitter(i)) && s.sendErr.None? && !s.closed && Called(s);
  }

  lemma EncodeSends(t: Turn, s: State, i: nat)
    requires Core(t, s) && At(s, i, Checked) && MarshalFrame(t.lib, EventFrame(s.emitters[i].event)).Some?
    ensures var n := Move(s, i, Sending(MarshalFrame(t.lib, EventFrame(s.emitters[i].event)).value));
            Core(t, n) && Advances(s, n) && ClientUnmoved(s, n)
  {
    assert s.lock == Some(ByEmitter(i)) && s.sendErr.None? && !s.closed && Called(s);
  }

  lemma SendCore(t: Turn, s: State, i: nat, out: SendOutcome)
    requires Core(t, s) && StepSendReturns(s, i, out).Some?
    ensures var n := StepSendReturns(s, i, out).value; Core(t, n) && Advances(s, n) && ClientUnmoved(s, n)
  {
    assert s.sendErr.None? && !s.closed && !s.doneOnWire && !DoneAttempted(s.server);
  }

  lemma ReleaseCore(t: Turn, s: State, i: nat)
    requires Core(t, s) && StepRelease(s, i).Some?
    ensures var n := StepRelease(s, i).value; Core(t, n) && Advances(s, n) && ClientUnmoved(s, n)
  {}

  lemma DecideCore(t: Turn, s: State)
    requires Core(t, s) && StepDecide(t, s).Some?
    ensures var n := StepDecide(t, s).value; Core(t, n) && Advances(s, n) && ClientUnmoved(s, n)
  {}

  lemma DoneCore(t: Turn, s: State, out: SendOutcome)
    requires Core(t, s) && StepDoneReturns(s, out).Some?
    ensures var n := StepDoneReturns(s, out).value; Core(t, n) && Advances(s, n) && ClientUnmoved(s, n)
  {
    DoneFrames(t, s, out);
    assert LockInv(StepDoneReturns(s, out).value);
  }

  /** The Done frame is an event frame to nobody, and nothing was sent after it. */
  lemma DoneFrames(t: Turn, s: State, out: SendOutcome)
    requires Core(t, s) && StepDoneReturns(s, out).Some?
    ensures var n := StepDoneReturns(s, out).value;
            EventFrames(n) == EventFrames(s) && DoneInv(t, n) && SendsInv(n) && EmitterInv(t, n)
  {}

  lemma ServerLockCore(t: Turn, s: State, l: Label)
    requires l == ServerAcquire || l == ServerClose || l == ServerRelease
    requires Core(t, s) && Step(t, s, l).Some?
    ensures var n := Step(t, s, l).value; Core(t, n) && Advances(s, n) && ClientUnmoved(s, n)
  {}

  lemma CallCore(t: Turn, s: State, l: Label)
    requires l.Spawn? || l.RealReturns?
    requires Core(t, s) && Step(t, s, l).Some?
    ensures var n := Step(t, s, l).value; Core(t, n) && Advances(s, n) && ClientUnmoved(s, n)
  {}

  lemma RequestAccepted(t: Turn)
    requires RoundTrips(t.lib) && Request(t).Some?
    ensures AcceptRequest(t.lib, Request(t).value) == Ok(t.prompt)
  {
    ArgsRoundTrip(t.lib, [VPrompt(t.prompt)], [VPrompt(t.lib.zeroPrompt)]);
  }

  lemma AcceptCore(t: Turn, s: State)
    requires RoundTrips(t.lib) && Core(t, s) && StepAccept(t, s).Some?
    ensures var n := StepAccept(t, s).value; Core(t, n) && Advances(s, n) && ClientUnmoved(s, n)
  {
    RequestAccepted(t);
  }

  /** Nothing moved but the client and its request. */
  ghost predicate OnlyClient(s: State, n: State) {
    && n.emitters == s.emitters && n.lock == s.lock && n.sendErr == s.sendErr && n.closed == s.closed
    && n.wire == s.wire && n.server == s.server && n.order == s.order && n.ops == s.ops && n.entry == s.entry
    && n.answer == s.answer && n.doneOnWire == s.doneOnWire && n.sends == s.sends
  }

  lemma ClientMoves(t: Turn, s: State, l: Label)
    requires l.Open? || l.Receive? || l.ReceiveFails?
    requires PromptInv(t, s) && Step(t, s, l).Some?
    ensures OnlyClient(s, Step(t, s, l).value) && PromptInv(t, Step(t, s, l).value)
  {}

  lemma ClientCore(t: Turn, s: State, n: State)
    requires Core(t, s) && OnlyClient(s, n) && PromptInv(t, n)
    ensures Core(t, n) && Advances(s, n)
  {}

  lemma StepKeepsCore(t: Turn, s: State, l: Label)
    requires RoundTrips(t.lib) && Core(t, s) && Step(t, s, l).Some?
    ensures var n := Step(t, s, l).value;
            Core(t, n) && Advances(s, n) && (ClientUnmoved(s, n) || l.Open? || l.Receive? || l.ReceiveFails?)
  {
    match l
    case Acquire(i) => AcquireCore(t, s, i);
    case Check(i) => CheckCore(t, s, i);
    case Encode(i) => EncodeCore(t, s, i);
    case SendReturns(i, out) => SendCore(t, s, i, out);
    case Release(i) => ReleaseCore(t, s, i);
    case ServerDecide => DecideCore(t, s);
    case DoneReturns(out) => DoneCore(t, s, out);
    case ServerAcquire => ServerLockCore(t, s, l);
    case ServerClose => ServerLockCore(t, s, l);
    case ServerRelease => ServerLockCore(t, s, l);
    case Spawn(_) => CallCore(t, s, l);
    case RealReturns(_) => CallCore(t, s, l);
    case Accept => AcceptCore(t, s);
    case _ =>
      ClientMoves(t, s, l);
      ClientCore(t, s, Step(t, s, l).value);
  }

  ghost predicate BeforeLedgerStep(t: Turn, s: State) {
    LockInv(s) && ServerInv(t, s) && EmitterInv(t, s) && DoneInv(t, s) && LedgerInv(t, s)
  }

  lemma AcquireLedger(t: Turn, s: State, i: nat)
    requires BeforeLedgerStep(t, s) && StepAcquire(s, i).Some?
    ensures LedgerInv(t, StepAcquire(s, i).value)
  {}

  lemma CheckLedger(t: Turn, s: State, i: nat)
    requires BeforeLedgerStep(t, s) && StepCheck(s, i).Some?
    ensures LedgerInv(t, StepCheck(s, i).value)
  {}

  lemma EncodeLedger(t: Turn, s: State, i: nat)
    requires BeforeLedgerStep(t, s) && StepEncode(t, s, i).Some?
    ensures LedgerInv(t, StepEncode(t, s, i).value)
  {
    assert s.lock == Some(ByEmitter(i));
  }

  lemma SendLedger(t: Turn, s: State, i: nat, out: SendOutcome)
    requires BeforeLedgerStep(t, s) && StepSendReturns(s, i, out).Some?
    ensures LedgerInv(t, StepSendReturns(s, i, out).value)
  {
    assert s.lock == Some(ByEmitter(i));
    assert !s.doneOnWire;
  }

  lemma FoldPush(lib: Library, ops: seq<Op>, op: Op)
    ensures Fold(lib, ops + [op]) == Apply(lib, Fold(lib, ops), op)
  {
    assert (ops + [op])[..|ops|] == ops;
  }

  lemma ReleaseLedger(t: Turn, s: State, i: nat)
    requires BeforeLedgerStep(t, s) && StepRelease(s, i).Some?
    ensures LedgerInv(t, StepRelease(s, i).value)
  {
    assert s.lock == Some(ByEmitter(i));
    var m := s.emitters[i];
    assert Progress(t.lib, m, s.entry, Shared(s));
    FoldPush(t.lib, s.ops, EmitOp(i, m.event, m.at.out));
    var n := StepRelease(s, i).value;
    assert Shared(n) == Shared(s) && n.ops == s.ops + [EmitOp(i, m.event, m.at.out)];
  }

  lemma DoneLedger(t: Turn, s: State, out: SendOutcome)
    requires BeforeLedgerStep(t, s) && StepDoneReturns(s, out).Some?
    ensures LedgerInv(t, StepDoneReturns(s, out).value)
  {
    assert Shared(StepDoneReturns(s, out).value) == Shared(s);
  }

  lemma ServerLedger(t: Turn, s: State, l: Label)
    requires BeforeLedgerStep(t, s) && (l.ServerAcquire? || l.ServerClose? || l.ServerRelease?) && Step(t, s, l).Some?
    ensures LedgerInv(t, Step(t, s, l).value)
  {
    if l.ServerRelease? {
      FoldPush(t.lib, s.ops, CloseOp);
      assert s.closed;
    }
  }

  ghost predicate Untouched(s: State, n: State) {
    && Shared(n) == Shared(s) && n.lock == s.lock && n.ops == s.ops && n.entry == s.entry
    && s.emitters <= n.emitters && n.server.Snapped? == s.server.Snapped?
  }

  /** Steps that touch neither the lock nor what it protects. */
  lemma QuietServerStep(t: Turn, s: State, l: Label)
    requires Step(t, s, l).Some? && (l.Accept? || l.Spawn? || l.RealReturns? || l.ServerDecide?)
    ensures Untouched(s, Step(t, s, l).value)
  {}

  lemma QuietLedger(t: Turn, s: State, n: State)
    requires LedgerInv(t, s) && Untouched(s, n)
    ensures LedgerInv(t, n)
  {}

  lemma LedgerStep(t: Turn, s: State, l: Label)
    requires BeforeLedgerStep(t, s) && PromptInv(t, s) && Step(t, s, l).Some?
    ensures LedgerInv(t, Step(t, s, l).value)
  {
    match l
    case Acquire(i) => AcquireLedger(t, s, i);
    case Check(i) => CheckLedger(t, s, i);
    case Encode(i) => EncodeLedger(t, s, i);
    case SendReturns(i, out) => SendLedger(t, s, i, out);
    case Release(i) => ReleaseLedger(t, s, i);
    case DoneReturns(out) => DoneLedger(t, s, out);
    case ServerAcquire => ServerLedger(t, s, l);
    case ServerClose => ServerLedger(t, s, l);
    case ServerRelease => ServerLedger(t, s, l);
    case _ =>
      if l.Open? || l.Receive? || l.ReceiveFails? { ClientMoves(t, s, l); } else { QuietServerStep(t, s, l); }
      QuietLedger(t, s, Step(t, s, l).value);
  }

  /** At every moment the event frames on the wire are those of the first events in lock
      order; with the lock free and no fault, of all of them. */
  lemma StateInOrder(t: Turn, s: State)
    requires LedgerInv(t, s)
    ensures InOrder(t.lib, Shared(s))
    ensures s.lock.None? || s.lock == Some(ByServer) ==> Complete(Shared(s))
  {
    FoldInOrder(t.lib, s.ops);
    if s.lock.Some? && s.lock.value.ByEmitter? {
      var m := s.emitters[s.lock.value.i];
      if m.at.Releasing? { EmitKeepsOrder(t.lib, s.entry, m.event, m.at.out); }
    }
  }

  /** Once the Done frame is out, every event is before it. */
  lemma DoneComesAfterAll(t: Turn, s: State)
    requires ServerInv(t, s) && LockInv(s) && EmitterInv(t, s) && DoneInv(t, s) && LedgerInv(t, s) && s.doneOnWire
    ensures |s.wire| == |s.order| + 1
  {
    FoldInOrder(t.lib, s.ops);
  }

  lemma ReceiveEvent(t: Turn, s: State)
    requires RoundTrips(t.lib) && ClientInv(t, s) && InOrder(t.lib, Shared(s)) && s.client.Receiving?
    requires s.received < |EventFrames(s)|
    ensures StepReceive(t, s).Some? && ClientInv(t, StepReceive(t, s).value)
  {
    var e := s.order[s.received];
    assert s.wire[s.received] == Shared(s).sent[s.received];
    EventApplies(t.lib, e);
    assert s.order[..s.received + 1] == s.order[..s.received] + [e];
  }

  lemma ReceiveDone(t: Turn, s: State)
    requires RoundTrips(t.lib) && ClientInv(t, s) && DoneInv(t, s) && s.client.Receiving?
    requires s.doneOnWire && |s.wire| == |s.order| + 1 && s.received == |EventFrames(s)|
    ensures StepReceive(t, s).Some? && ClientInv(t, StepReceive(t, s).value)
  {
    DoneApplies(t.lib, s.answer.value);
  }

  lemma ReceiveStep(t: Turn, s: State)
    requires RoundTrips(t.lib) && Inv(t, s) && StepReceive(t, s).Some?
    ensures ClientInv(t, StepReceive(t, s).value)
  {
    if s.received < |EventFrames(s)| {
      StateInOrder(t, s);
      ReceiveEvent(t, s);
    } else {
      DoneComesAfterAll(t, s);
      ReceiveDone(t, s);
    }
  }

  lemma ClientWaits(t: Turn, s: State, n: State)
    requires ClientInv(t, s) && Grows(s, n) && ClientUnmoved(s, n)
    ensures ClientInv(t, n)
  {
    assert n.order[..s.received] == s.order[..s.received];
  }

  lemma ClientGivesUp(t: Turn, s: State, l: Label)
    requires ClientInv(t, s) && Step(t, s, l).Some? && (l.Open? || l.ReceiveFails?)
    ensures ClientInv(t, Step(t, s, l).value)
  {}

  lemma StepKeepsInv(t: Turn, s: State, l: Label)
    requires RoundTrips(t.lib) && Inv(t, s) && Step(t, s, l).Some?
    ensures Inv(t, Step(t, s, l).value) && Advances(s, Step(t, s, l).value)
  {
    StepKeepsCore(t, s, l);
    LedgerStep(t, s, l);
    StepKeepsClient(t, s, l);
  }

  lemma StepKeepsClient(t: Turn, s: State, l: Label)
    requires RoundTrips(t.lib) && Inv(t, s) && Step(t, s, l).Some?
    requires Grows(s, Step(t, s, l).value)
    requires ClientUnmoved(s, Step(t, s, l).value) || l.Open? || l.Receive? || l.ReceiveFails?
    ensures ClientInv(t, Step(t, s, l).value)
  {
    if l.Receive? {
      ReceiveStep(t, s);
    } else if l.Open? || l.ReceiveFails? {
      ClientGivesUp(t, s, l);
    } else {
      ClientWaits(t, s, Step(t, s, l).value);
    }
  }

  lemma {:induction false} RunKeepsInv(t: Turn, states: seq<State>, labels: seq<Label>, k: nat)
    requires RoundTrips(t.lib) && IsRun(t, states, labels) && k < |states|
    ensures Inv(t, states[k])
    ensures k > 0 ==> Advances(states[k - 1], states[k])
  {
    if k == 0 {
      assert Fold(t.lib, []) == EMPTY;
    } else {
      RunKeepsInv(t, states, labels, k - 1);
      assert Step(t, states[k - 1], labels[k - 1]) == Some(states[k]);
      StepKeepsInv(t, states[k - 1], labels[k - 1]);
    }
  }

  // ---- theorems --------------------------------------------------------------

  /** A call of SendMsg is under way. */
  predicate InSend(s: State, o: Owner) {
    match o
    case ByEmitter(i) => i < |s.emitters| && s.emitters[i].at.Sending?
    case ByServer => s.server.SendingDone?
  }

  ghost predicate IsOpOf(s: State, k: int, i: int) {
    0 <= k < |s.ops| && s.ops[k].EmitOp? && s.ops[k].caller == i
  }

  /** The emitters among the completed critical sections are exactly the calls of onEvent
      that have returned, each once and with its own event. */
  ghost predicate OpsAreReturnedCalls(s: State) {
    && (forall k, i :: IsOpOf(s, k, i) ==>
          0 <= i < |s.emitters| && s.emitters[i].at.Returned? && s.emitters[i].event == s.ops[k].event)
    && (forall i :: 0 <= i < |s.emitters| && s.emitters[i].at.Returned? ==> exists k :: IsOpOf(s, k, i))
    && (forall j, k, i :: IsOpOf(s, j, i) && IsOpOf(s, k, i) ==> j == k)
  }

  lemma ReleaseKeepsOps(s: State, i: nat)
    requires OpsAreReturnedCalls(s) && StepRelease(s, i).Some?
    ensures OpsAreReturnedCalls(StepRelease(s, i).value)
  {
    var n := StepRelease(s, i).value;
    assert IsOpOf(n, |s.ops|, i);
    assert forall k, j :: 0 <= k < |s.ops| ==> (IsOpOf(n, k, j) <==> IsOpOf(s, k, j));
    assert forall j :: 0 <= j < |s.emitters| && j != i ==> n.emitters[j] == s.emitters[j];
  }

  /** Any other step: no emitter returns, and what the close adds is no emitter's. */
  ghost predicate NobodyReturns(s: State, n: State) {
    && s.ops <= n.ops && (forall k :: |s.ops| <= k < |n.ops| ==> n.ops[k].CloseOp?)
    && |s.emitters| <= |n.emitters|
    && (forall j :: 0 <= j < |s.emitters| ==>
          n.emitters[j].event == s.emitters[j].event && n.emitters[j].at.Returned? == s.emitters[j].at.Returned?)
    && (forall j :: |s.emitters| <= j < |n.emitters| ==> !n.emitters[j].at.Returned?)
  }

  lemma EmitterStepNobodyReturns(t: Turn, s: State, l: Label)
    requires Step(t, s, l).Some? && (l.Acquire? || l.Check? || l.Encode? || l.SendReturns?)
    ensures NobodyReturns(s, Step(t, s, l).value)
  {}

  lemma ServerStepNobodyReturns(t: Turn, s: State, l: Label)
    requires Step(t, s, l).Some? && !(l.Acquire? || l.Check? || l.Encode? || l.SendReturns? || l.Release?)
    ensures NobodyReturns(s, Step(t, s, l).value)
  {}

  lemma NobodyReturnsKeepsOps(s: State, n: State)
    requires OpsAreReturnedCalls(s) && NobodyReturns(s, n)
    ensures OpsAreReturnedCalls(n)
  {
    assert forall k :: 0 <= k < |s.ops| ==> n.ops[k] == s.ops[k];
    assert forall k, i :: IsOpOf(n, k, i) <==> IsOpOf(s, k, i);
  }

  lemma {:induction false} RunKeepsOps(t: Turn, states: seq<State>, labels: seq<Label>, k: nat)
    requires IsRun(t, states, labels) && k < |states|
    ensures OpsAreReturnedCalls(states[k])
  {
    if k > 0 {
      var s, l := states[k - 1], labels[k - 1];
      RunKeepsOps(t, states, labels, k - 1);
      assert Step(t, s, l) == Some(states[k]);
      if l.Release? {
        ReleaseKeepsOps(s, l.i);
      } else {
        if l.Acquire? || l.Check? || l.Encode? || l.SendReturns? {
          EmitterStepNobodyReturns(t, s, l);
        } else {
          ServerStepNobodyReturns(t, s, l);
        }
        NobodyReturnsKeepsOps(s, states[k]);
      }
    }
  }

  ghost predicate IsClose(s: State, k: int) { 0 <= k < |s.ops| && s.ops[k].CloseOp? }

  /** The close is among the completed critical sections once the server has left its own,
      and only once. */
  ghost predicate OneClose(s: State) {
    && ((exists k :: IsClose(s, k)) <==> s.closed && !s.server.Snapped?)
    && (forall j, k :: IsClose(s, j) && IsClose(s, k) ==> j == k)
  }

  /** A step of anything but the server's release completes no close. */
  lemma OtherStepsDoNotClose(t: Turn, s: State, l: Label)
    requires ServerInv(t, s) && Step(t, s, l).Some? && !l.ServerRelease?
    ensures var n := Step(t, s, l).value;
      && (forall k :: IsClose(n, k) <==> IsClose(s, k))
      && (n.closed && !n.server.Snapped? <==> s.closed && !s.server.Snapped?)
  {}

  lemma ServerReleaseCloses(t: Turn, s: State)
    requires ServerInv(t, s) && OneClose(s) && Step(t, s, ServerRelease).Some?
    ensures OneClose(Step(t, s, ServerRelease).value)
  {
    var n := Step(t, s, ServerRelease).value;
    assert IsClose(n, |s.ops|);
    assert forall k :: IsClose(n, k) && k < |s.ops| ==> IsClose(s, k);
  }

  lemma {:induction false} RunKeepsOneClose(t: Turn, states: seq<State>, labels: seq<Label>, k: nat)
    requires RoundTrips(t.lib) && IsRun(t, states, labels) && k < |states|
    ensures OneClose(states[k])
  {
    if k > 0 {
      var s, l := states[k - 1], labels[k - 1];
      RunKeepsOneClose(t, states, labels, k - 1);
      RunKeepsInv(t, states, labels, k - 1);
      assert Step(t, s, l) == Some(states[k]);
      if l.ServerRelease? { ServerReleaseCloses(t, s); } else { OtherStepsDoNotClose(t, s, l); }
    }
  }

  /** What follows the close changes nothing. */
  lemma {:induction false} NothingFollowsClose(lib: Library, ops: seq<Op>, m: nat)
    requires m < |ops| && ops[m] == CloseOp
    ensures Fold(lib, ops) == Fold(lib, ops[..m]).(closed := true)
  {
    var front := ops[..|ops| - 1];
    if m < |front| {
      NothingFollowsClose(lib, front, m);
      assert front[..m] == ops[..m];
    }
  }

  /** The interleaved turn refines the sequential one: whenever the lock is free, the shared
      variables are what the completed critical sections leave when run one by one. Those are
      exactly the returned calls of onEvent, each once, and the close, once if the latch is set
      and not otherwise; the sections behind the close change nothing. */
  lemma InterleavingIsSequential(t: Turn, states: seq<State>, labels: seq<Label>, k: nat)
    requires RoundTrips(t.lib) && IsRun(t, states, labels) && k < |states| && states[k].lock.None?
    ensures Shared(states[k]) == Fold(t.lib, states[k].ops) && OpsAreReturnedCalls(states[k])
    ensures InOrder(t.lib, Shared(states[k])) && Complete(Shared(states[k]))
    ensures (exists m :: IsClose(states[k], m)) <==> states[k].closed
    ensures forall m, n :: IsClose(states[k], m) && IsClose(states[k], n) ==> m == n
    ensures forall m :: IsClose(states[k], m) ==> Shared(states[k]) == Fold(t.lib, states[k].ops[..m]).(closed := true)
  {
    var s := states[k];
    RunKeepsInv(t, states, labels, k);
    StateInOrder(t, s);
    RunKeepsOps(t, states, labels, k);
    RunKeepsOneClose(t, states, labels, k);
    forall m | IsClose(s, m) ensures Shared(s) == Fold(t.lib, s.ops[..m]).(closed := true) {
      NothingFollowsClose(t.lib, s.ops, m);
    }
  }

  /** SendMsg calls never overlap, though the Done frame is sent outside the lock. */
  lemma SendsNeverOverlap(t: Turn, states: seq<State>, labels: seq<Label>, k: nat, a: Owner, b: Owner)
    requires RoundTrips(t.lib) && IsRun(t, states, labels) && k < |states|
    requires InSend(states[k], a) && InSend(states[k], b)
    ensures a == b
  {
    RunKeepsInv(t, states, labels, k);
  }

  /** The Done frame is sent at most once and last, and a failed send is the last one. */
  lemma DoneAndFailuresAreLast(t: Turn, states: seq<State>, labels: seq<Label>, k: nat, i: nat)
    requires RoundTrips(t.lib) && IsRun(t, states, labels) && k < |states| && i < |states[k].sends|
    requires states[k].sends[i].owner.ByServer? || states[k].sends[i].out.SendFailed?
    ensures i == |states[k].sends| - 1
  {
    RunKeepsInv(t, states, labels, k);
  }

  /** No call of SendMsg is under way. */
  ghost predicate Silent(s: State) {
    forall o :: !InSend(s, o)
  }

  lemma FaultIsSilent(t: Turn, s: State)
    requires ServerInv(t, s) && EmitterInv(t, s) && s.sendErr.Some?
    ensures Silent(s)
  {}

  /** A failed send or marshal is permanent: from then on no call of SendMsg is under way,
      none returns, the wire stays as it is and the fault is the same. */
  lemma {:induction false} NothingAfterFault(t: Turn, states: seq<State>, labels: seq<Label>, j: nat, k: nat)
    requires RoundTrips(t.lib) && IsRun(t, states, labels) && j <= k < |states| && states[j].sendErr.Some?
    ensures SendsNothing(states[j], states[k]) && Silent(states[k])
  {
    if j < k { NothingAfterFault(t, states, labels, j, k - 1); }
    FaultInRun(t, states, labels, k);
  }

  lemma FaultInRun(t: Turn, states: seq<State>, labels: seq<Label>, k: nat)
    requires RoundTrips(t.lib) && IsRun(t, states, labels) && k < |states|
    ensures k > 0 && states[k - 1].sendErr.Some? ==> SendsNothing(states[k - 1], states[k])
    ensures states[k].sendErr.Some? ==> Silent(states[k])
  {
    RunKeepsInv(t, states, labels, k);
    if states[k].sendErr.Some? { FaultIsSilent(t, states[k]); }
  }

  /** What the server reads at close never becomes outdated, even while emitters that
      outlive the real backend keep calling: the fault and the accepted events are final. */
  lemma {:induction false} SnapshotIsFinal(t: Turn, states: seq<State>, labels: seq<Label>, j: nat, k: nat)
    requires RoundTrips(t.lib) && IsRun(t, states, labels) && j <= k < |states| && states[j].closed
    ensures StaysClosed(states[j], states[k])
    ensures states[j].server.Snapped? ==> states[j].server.snapshot == states[k].sendErr
  {
    if j < k { SnapshotIsFinal(t, states, labels, j, k - 1); }
    ClosedInRun(t, states, labels, k);
  }

  lemma ClosedInRun(t: Turn, states: seq<State>, labels: seq<Label>, k: nat)
    requires RoundTrips(t.lib) && IsRun(t, states, labels) && k < |states|
    ensures k > 0 && states[k - 1].closed ==> StaysClosed(states[k - 1], states[k])
    ensures states[k].server.Snapped? ==> states[k].server.snapshot == states[k].sendErr
  {
    RunKeepsInv(t, states, labels, k);
  }

  /** No silent loss. If the Done frame is out, the frames before it are exactly those of the
      events whose callers took the lock before close, in lock order. respond returns nil only
      then, and returns a fault exactly when one of those events failed. */
  lemma NoSilentLoss(t: Turn, states: seq<State>, labels: seq<Label>, k: nat)
    requires RoundTrips(t.lib) && IsRun(t, states, labels) && k < |states|
    ensures var s := states[k];
      && (s.server == Finished(Success) ==> s.doneOnWire)
      && (s.doneOnWire ==>
            && s.answer.Some? && |s.wire| == |s.order| + 1
            && (forall j :: 0 <= j < |s.order| ==> MarshalFrame(t.lib, EventFrame(s.order[j])) == Some(s.wire[j]))
            && Some(s.wire[|s.order|]) == MarshalFrame(t.lib, DoneFrame(s.answer.value)))
      && (s.server.Finished? ==>
            !s.server.result.EncodeFailed? && (s.server.result.StreamFailed? <==> s.sendErr.Some?))
      && (s.sendErr.Some? ==> !s.doneOnWire)
  {
    RunKeepsInv(t, states, labels, k);
    var s := states[k];
    ResultTellsFault(t, s);
    if s.doneOnWire {
      DoneIsLastFrame(t, s);
      EventsPrecedeDone(t, s);
    }
  }

  lemma ResultTellsFault(t: Turn, s: State)
    requires ServerInv(t, s) && DoneInv(t, s)
    ensures s.server == Finished(Success) ==> s.doneOnWire
    ensures s.server.Finished? ==>
        !s.server.result.EncodeFailed? && (s.server.result.StreamFailed? <==> s.sendErr.Some?)
    ensures s.sendErr.Some? ==> !s.doneOnWire
  {}

  lemma DoneIsLastFrame(t: Turn, s: State)
    requires Core(t, s) && LedgerInv(t, s) && s.doneOnWire
    ensures |s.wire| == |s.order| + 1 && s.answer.Some?
    ensures Some(s.wire[|s.order|]) == MarshalFrame(t.lib, DoneFrame(s.answer.value))
  {
    DoneComesAfterAll(t, s);
  }

  lemma EventsPrecedeDone(t: Turn, s: State)
    requires Core(t, s) && LedgerInv(t, s) && s.doneOnWire
    ensures |s.wire| == |s.order| + 1
    ensures forall j :: 0 <= j < |s.order| ==> MarshalFrame(t.lib, EventFrame(s.order[j])) == Some(s.wire[j])
  {
    DoneComesAfterAll(t, s);
    StateInOrder(t, s);
    assert forall j :: 0 <= j < |s.order| ==> s.wire[j] == Shared(s).sent[j];
  }

  /** End to end, in every run and at every moment: the real backend is called with the
      client's prompt; the events handed to the client's hook are a prefix of the server's
      lock order; and the client never sees a malformed frame. A nil error means that all
      events arrived, that the reply is the real one, and that the real error was nil or had
      no text. A remote error means the same with the real error's text. */
  lemma EndToEnd(t: Turn, states: seq<State>, labels: seq<Label>, k: nat)
    requires RoundTrips(t.lib) && IsRun(t, states, labels) && k < |states|
    ensures var s := states[k];
      && (s.server.Responding? ==> s.server.prompt == t.prompt)
      && s.received <= |s.order| && s.replayed == (if t.hook then s.order[..s.received] else [])
      && (s.client.Ended? ==>
            && s.client.error != Some(BadFrame) && s.client.error != Some(InvalidFrame)
            && (s.client.error.None? || s.client.error.value.RemoteFailure? ==>
                  s.closed && s.answer.Some? && s.client.reply == s.answer.value.reply
                  && s.replayed == (if t.hook then s.order else []))
            && (s.client.error.None? ==> s.answer.value.error.None? || s.answer.value.error == Some(""))
            && (s.client.error.Some? && s.client.error.value.RemoteFailure? ==>
                  s.answer.value.error == Some(s.client.error.value.message) && s.client.error.value.message != "")
            && (s.client.error.Some? && !s.client.error.value.RemoteFailure? ==> s.client.reply == ""))
  {
    var s := states[k];
    RunKeepsInv(t, states, labels, k);
    assert s.order[..|s.order|] == s.order;
  }
}
