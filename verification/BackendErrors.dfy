/** What the errors of a backend turn tell: each of them is returned for its own cause, in every
    run (backend_stream.go). */
module BackendErrors {
  import opened Common
  import opened Contracts
  import opened Codec
  import opened PluginRouter
  import opened BackendFrame
  import opened BackendStream
  import opened BackendSafety

  // ---- the server ------------------------------------------------------------

  /** The send that returned last. */
  predicate LastSend(s: State, byServer: bool, sent: bool) {
    s.sends != [] && s.sends[|s.sends| - 1].owner.ByServer? == byServer && s.sends[|s.sends| - 1].out.Sent? == sent
  }

  /** The fault is a send fault if the last send failed, and respond reports of its own send
      how that ended. */
  ghost predicate Records(s: State) {
    && (s.sendErr == Some(SendFault) <==> LastSend(s, false, false))
    && (s.server == Finished(Success) <==> LastSend(s, true, true))
    && (s.server == Finished(DoneFailed) <==> LastSend(s, true, false))
  }

  /** Nothing that Records speaks of has changed. */
  ghost predicate SameRecords(s: State, n: State) {
    && n.sends == s.sends && n.sendErr == s.sendErr
    && (n.server == s.server || (!DoneAttempted(n.server) && !DoneAttempted(s.server)))
  }

  lemma QuietStep(t: Turn, s: State, l: Label)
    requires Step(t, s, l).Some? && !l.Encode? && !l.SendReturns? && !l.DoneReturns?
    requires ServerInv(t, s)
    ensures SameRecords(s, Step(t, s, l).value)
  {}

  lemma SameRecordsKeep(s: State, n: State)
    requires Records(s) && SameRecords(s, n)
    ensures Records(n)
  {}

  lemma EncodeRecords(t: Turn, s: State, i: nat)
    requires Core(t, s) && Records(s) && StepEncode(t, s, i).Some?
    ensures Records(StepEncode(t, s, i).value)
  {
    assert s.sendErr.None?;
  }

  lemma SendRecords(t: Turn, s: State, i: nat, out: SendOutcome)
    requires Core(t, s) && Records(s) && StepSendReturns(s, i, out).Some?
    ensures Records(StepSendReturns(s, i, out).value)
  {
    assert s.sendErr.None? && !s.closed && !DoneAttempted(s.server);
  }

  lemma DoneRecords(t: Turn, s: State, out: SendOutcome)
    requires Core(t, s) && Records(s) && StepDoneReturns(s, out).Some?
    ensures Records(StepDoneReturns(s, out).value)
  {
    assert s.sendErr.None?;
  }

  lemma {:induction false} RunKeepsRecords(t: Turn, states: seq<State>, labels: seq<Label>, k: nat)
    requires RoundTrips(t.lib) && IsRun(t, states, labels) && k < |states|
    ensures Records(states[k])
  {
    if k > 0 {
      var s, l := states[k - 1], labels[k - 1];
      RunKeepsRecords(t, states, labels, k - 1);
      RunKeepsInv(t, states, labels, k - 1);
      assert Step(t, s, l) == Some(states[k]);
      match l
      case Encode(i) => EncodeRecords(t, s, i);
      case SendReturns(i, out) => SendRecords(t, s, i, out);
      case DoneReturns(out) => DoneRecords(t, s, out);
      case _ =>
        QuietStep(t, s, l);
        SameRecordsKeep(s, states[k]);
    }
  }

  /** A marshal fault means that the first event without a frame has no encoding. */
  ghost predicate MarshalFaultTells(lib: Library, l: Ledger) {
    l.sendErr == Some(MarshalFault) ==> |l.sent| < |l.order| && lib.encEvent(l.order[|l.sent|]).None?
  }

  lemma EmitTells(lib: Library, l: Ledger, e: BackendEvent, out: SendOutcome)
    requires MarshalFaultTells(lib, l) && Complete(l) && InOrder(lib, l)
    ensures MarshalFaultTells(lib, Emit(lib, l, e, out))
  {}

  lemma {:induction false} FoldTells(lib: Library, ops: seq<Op>)
    ensures MarshalFaultTells(lib, Fold(lib, ops))
  {
    if ops != [] {
      var front, last := ops[..|ops| - 1], ops[|ops| - 1];
      FoldTells(lib, front);
      FoldInOrder(lib, front);
      if last.EmitOp? { EmitTells(lib, Fold(lib, front), last.event, last.out); }
    }
  }

  /** Each error of respond has its own cause, in every run. A send fault: the last send of an
      event failed. A marshal fault: an event has no encoding. A nil error: the Done frame was
      sent; and a failed reply: its send failed. */
  lemma ServerErrorsTell(t: Turn, states: seq<State>, labels: seq<Label>, k: nat)
    requires RoundTrips(t.lib) && IsRun(t, states, labels) && k < |states|
    ensures Records(states[k])
    ensures states[k].lock.None? ==> MarshalFaultTells(t.lib, Shared(states[k]))
    ensures forall fault :: states[k].server == Finished(StreamFailed(fault)) ==> states[k].sendErr == Some(fault)
  {
    RunKeepsRecords(t, states, labels, k);
    RunKeepsInv(t, states, labels, k);
    FoldTells(t.lib, states[k].ops);
  }

  // ---- the client ------------------------------------------------------------

  /** The step that ends the turn for the client, and what the client then returns. */
  ghost predicate EndsWith(t: Turn, l: Label, error: Option<ClientError>) {
    match error
    case None => l == Receive
    case Some(EncodePrompt) => l.Open? && t.lib.encPrompt(t.prompt).None?
    case Some(OpenFailed) => l.Open? && t.lib.encPrompt(t.prompt).Some? && l.out != Sent
    case Some(UnexpectedEOF) => l == ReceiveFails(EOF)
    case Some(StreamBroken) => l == ReceiveFails(Broken)
    case Some(_) => l == Receive
  }

  lemma PromptEncodes(t: Turn)
    ensures EncodeArgs(t.lib, [VPrompt(t.prompt)]).None? <==> t.lib.encPrompt(t.prompt).None?
  {
    assert [VPrompt(t.prompt)][1..] == [];
    assert MarshalAll(t.lib, [VPrompt(t.prompt)][1..]) == Some([]);
  }

  /** The request that travels: the port, the method, and the prompt as a tuple of one. */
  lemma RequestOnTheWire(t: Turn, states: seq<State>, labels: seq<Label>, k: nat)
    requires RoundTrips(t.lib) && IsRun(t, states, labels) && k < |states| && states[k].request.Some?
    ensures t.lib.encPrompt(t.prompt).Some?
    ensures states[k].request.value
         == MethodEnvelope("backend", "Respond", Some(Arr([t.lib.encPrompt(t.prompt).value])))
  {
    RunKeepsInv(t, states, labels, k);
    PromptEncodes(t);
    MarshalOne(t.lib, VPrompt(t.prompt));
  }

  lemma ClientEndsByItsStep(t: Turn, s: State, l: Label)
    requires Step(t, s, l).Some?
    ensures var n := Step(t, s, l).value;
      && (s.client.Ended? ==> n.client == s.client)
      && (!s.client.Ended? && n.client.Ended? ==> EndsWith(t, l, n.client.error))
  {
    PromptEncodes(t);
    if l.Receive? && StepReceive(t, s).Some? { ApplyFrameMeans(t.lib, Some(s.wire[s.received])); }
  }

  /** Each error of the client has its own cause: a prompt without an encoding, a stream that did
      not open, the regular end of the stream, a broken stream, or a frame. */
  lemma {:induction false} ClientErrorsTell(t: Turn, states: seq<State>, labels: seq<Label>, k: nat) returns (j: nat)
    requires IsRun(t, states, labels) && k < |states| && states[k].client.Ended?
    ensures j < k && !states[j].client.Ended? && EndsWith(t, labels[j], states[k].client.error)
  {
    assert k > 0;
    assert Step(t, states[k - 1], labels[k - 1]) == Some(states[k]);
    ClientEndsByItsStep(t, states[k - 1], labels[k - 1]);
    if states[k - 1].client.Ended? {
      j := ClientErrorsTell(t, states, labels, k - 1);
    } else {
      j := k - 1;
    }
  }
}
