/** No party of a backend turn can be stuck: from every reachable state there is a way on. That
    the way is taken depends on the scheduler and the network, and is not stated. */
module BackendLiveness {
  import opened Common
  import opened Contracts
  import opened BackendFrame
  import opened BackendStream
  import opened BackendSafety

  ghost predicate Extends(states: seq<State>, labels: seq<Label>, states': seq<State>, labels': seq<Label>) {
    states <= states' && labels <= labels'
  }

  lemma StepRuns(t: Turn, states: seq<State>, labels: seq<Label>, l: Label)
    returns (states': seq<State>, labels': seq<Label>)
    requires IsRun(t, states, labels) && Step(t, states[|labels|], l).Some?
    ensures IsRun(t, states', labels') && Extends(states, labels, states', labels') && |labels'| == |labels| + 1
    ensures states'[|labels'|] == Step(t, states[|labels|], l).value
  {
    states', labels' := states + [Step(t, states[|labels|], l).value], labels + [l];
  }

  // ---- the lock --------------------------------------------------------------

  /** The next step of the owner of the lock. */
  function OwnerLabel(s: State): Label
    requires s.lock.Some? && (s.lock.value.ByEmitter? ==> s.lock.value.i < |s.emitters|)
  {
    match s.lock.value
    case ByServer => if s.server.Holding? then ServerClose else ServerRelease
    case ByEmitter(i) =>
      match s.emitters[i].at
      case Locked => Check(i)
      case Checked => Encode(i)
      case Sending(_) => SendReturns(i, Sent)
      case _ => Release(i)
  }

  /** How many steps the owner needs at most. */
  function Work(s: State): nat {
    match s.lock
    case None => 0
    case Some(ByServer) => if s.server.Holding? then 2 else 1
    case Some(ByEmitter(i)) =>
      if i >= |s.emitters| then 0
      else
        match s.emitters[i].at
        case Locked => 4
        case Checked => 3
        case Sending(_) => 2
        case _ => 1
  }

  /** n is s, but for what the owner of the lock has done, which may have released it. */
  ghost predicate OwnerMoved(s: State, n: State) {
    && (n.lock.None? || n.lock == s.lock) && |n.emitters| == |s.emitters| && n.client == s.client
    && (forall j :: 0 <= j < |s.emitters| && s.lock != Some(ByEmitter(j)) ==> n.emitters[j] == s.emitters[j])
    && (forall j :: 0 <= j < |s.emitters| && s.lock == Some(ByEmitter(j)) && n.lock.None? ==>
          n.emitters[j].at.Returned?)
    && (s.lock != Some(ByServer) ==> n.server == s.server)
    && (s.lock == Some(ByServer) && n.lock.None? ==> n.server.Deciding?)
  }

  lemma EmitterOwnerCanStep(t: Turn, s: State, i: nat)
    requires LockInv(s) && s.lock == Some(ByEmitter(i))
    ensures i < |s.emitters| && Step(t, s, OwnerLabel(s)).Some?
    ensures var n := Step(t, s, OwnerLabel(s)).value; OwnerMoved(s, n) && Work(n) < Work(s)
  {
    assert InCritical(s.emitters[i].at);
    match s.emitters[i].at
    case Locked => EmitterMoves(s, StepCheck(s, i).value, i);
    case Checked => EmitterMoves(s, StepEncode(t, s, i).value, i);
    case Sending(_) => EmitterMoves(s, StepSendReturns(s, i, Sent).value, i);
    case Releasing(_) => EmitterMoves(s, StepRelease(s, i).value, i);
    case _ =>
  }

  lemma EmitterMoves(s: State, n: State, i: nat)
    requires s.lock == Some(ByEmitter(i)) && i < |s.emitters| == |n.emitters|
    requires n.emitters == s.emitters[i := n.emitters[i]] && n.server == s.server && n.client == s.client
    requires n.lock == s.lock || (n.lock.None? && n.emitters[i].at.Returned?)
    ensures OwnerMoved(s, n)
  {}

  lemma ServerOwnerCanStep(t: Turn, s: State)
    requires LockInv(s) && s.lock == Some(ByServer)
    ensures Step(t, s, OwnerLabel(s)).Some?
    ensures var n := Step(t, s, OwnerLabel(s)).value; OwnerMoved(s, n) && Work(n) < Work(s)
  {}

  /** The owner of the lock can always go on, and comes nearer to releasing it. */
  lemma OwnerCanStep(t: Turn, s: State)
    requires LockInv(s) && s.lock.Some?
    ensures s.lock.value.ByEmitter? ==> s.lock.value.i < |s.emitters|
    ensures Step(t, s, OwnerLabel(s)).Some?
    ensures var n := Step(t, s, OwnerLabel(s)).value; OwnerMoved(s, n) && Work(n) < Work(s)
  {
    if s.lock == Some(ByServer) { ServerOwnerCanStep(t, s); } else { EmitterOwnerCanStep(t, s, s.lock.value.i); }
  }

  lemma OwnerMovedOn(s: State, m: State, n: State)
    requires OwnerMoved(s, m) && OwnerMoved(m, n)
    ensures OwnerMoved(s, n)
  {}

  /** From every reachable state the lock can be free within four steps of its owner. */
  lemma {:induction false} LockCanBeFreed(t: Turn, states: seq<State>, labels: seq<Label>)
    returns (states': seq<State>, labels': seq<Label>)
    requires RoundTrips(t.lib) && IsRun(t, states, labels)
    ensures IsRun(t, states', labels') && Extends(states, labels, states', labels')
    ensures |labels'| <= |labels| + Work(states[|labels|])
    ensures states'[|labels'|].lock.None? && OwnerMoved(states[|labels|], states'[|labels'|])
    decreases Work(states[|labels|])
  {
    var s := states[|labels|];
    states', labels' := states, labels;
    if s.lock.Some? {
      RunKeepsInv(t, states, labels, |labels|);
      OwnerCanStep(t, s);
      states', labels' := StepRuns(t, states, labels, OwnerLabel(s));
      var n := states'[|labels'|];
      states', labels' := LockCanBeFreed(t, states', labels');
      OwnerMovedOn(s, n, states'[|labels'|]);
    }
  }

  /** Every call of onEvent, late ones included, can return. */
  lemma EmitterCanReturn(t: Turn, states: seq<State>, labels: seq<Label>, i: nat)
    returns (states': seq<State>, labels': seq<Label>)
    requires RoundTrips(t.lib) && IsRun(t, states, labels) && i < |states[|labels|].emitters|
    ensures IsRun(t, states', labels') && Extends(states, labels, states', labels')
    ensures i < |states'[|labels'|].emitters| && states'[|labels'|].emitters[i].at.Returned?
  {
    states', labels' := LockCanBeFreed(t, states, labels);
    RunKeepsInv(t, states', labels', |labels'|);
    var s := states'[|labels'|];
    if !s.emitters[i].at.Returned? {
      assert s.lock != Some(ByEmitter(i)) && s.emitters[i].at.Waiting?;
      states', labels' := StepRuns(t, states', labels', Acquire(i));
      assert states'[|labels'|].lock == Some(ByEmitter(i));
      states', labels' := LockCanBeFreed(t, states', labels');
    }
  }

  // ---- the server ------------------------------------------------------------

  /** The real backend has returned. */
  predicate RealReturned(at: ServerState) { !at.Listening? && !at.Responding? }

  lemma DecidingCanFinish(t: Turn, states: seq<State>, labels: seq<Label>)
    returns (states': seq<State>, labels': seq<Label>)
    requires IsRun(t, states, labels) && states[|labels|].server.Deciding?
    ensures IsRun(t, states', labels') && Extends(states, labels, states', labels') && |labels'| <= |labels| + 2
    ensures states'[|labels'|].server.Finished?
  {
    states', labels' := StepRuns(t, states, labels, ServerDecide);
    if states'[|labels'|].server.SendingDone? { states', labels' := StepRuns(t, states', labels', DoneReturns(Sent)); }
  }

  lemma LockingCanDecide(t: Turn, states: seq<State>, labels: seq<Label>)
    returns (states': seq<State>, labels': seq<Label>)
    requires IsRun(t, states, labels) && states[|labels|].server.Locking? && states[|labels|].lock.None?
    ensures IsRun(t, states', labels') && Extends(states, labels, states', labels') && |labels'| <= |labels| + 3
    ensures states'[|labels'|].server.Deciding?
  {
    states', labels' := StepRuns(t, states, labels, ServerAcquire);
    states', labels' := StepRuns(t, states', labels', ServerClose);
    states', labels' := StepRuns(t, states', labels', ServerRelease);
  }

  /** Once the real backend has returned, respond can return within nine steps, whatever late
      emitters are doing. */
  lemma ServerCanFinish(t: Turn, states: seq<State>, labels: seq<Label>)
    returns (states': seq<State>, labels': seq<Label>)
    requires RoundTrips(t.lib) && IsRun(t, states, labels) && RealReturned(states[|labels|].server)
    ensures IsRun(t, states', labels') && Extends(states, labels, states', labels') && |labels'| <= |labels| + 9
    ensures states'[|labels'|].server.Finished?
  {
    states', labels' := LockCanBeFreed(t, states, labels);
    RunKeepsInv(t, states', labels', |labels'|);
    assert !states'[|labels'|].server.Holding? && !states'[|labels'|].server.Snapped?;
    if states'[|labels'|].server.Locking? { states', labels' := LockingCanDecide(t, states', labels'); }
    if states'[|labels'|].server.Deciding? { states', labels' := DecidingCanFinish(t, states', labels'); }
    if states'[|labels'|].server.SendingDone? { states', labels' := StepRuns(t, states', labels', DoneReturns(Sent)); }
  }

  // ---- the client ------------------------------------------------------------

  /** With the Done frame on the wire, a client that still reads has a frame to read. */
  lemma ClientCanRead(t: Turn, s: State)
    requires RoundTrips(t.lib) && Inv(t, s) && s.doneOnWire && s.client.Receiving?
    ensures Step(t, s, Receive).Some?
    ensures var n := Step(t, s, Receive).value;
      n.doneOnWire && n.wire == s.wire && (n.client.Receiving? ==> n.received == s.received + 1 <= |n.wire|)
  {
    DoneComesAfterAll(t, s);
  }

  /** Reading a frame ends the turn only by what the frame says. */
  lemma ReadingEnds(t: Turn, s: State)
    requires StepReceive(t, s).Some? && StepReceive(t, s).value.client.Ended?
    ensures var error := StepReceive(t, s).value.client.error;
      error.None? || error.value.RemoteFailure? || error.value.BadFrame? || error.value.InvalidFrame?
  {}

  /** Once the Done frame is on the wire, a client that still reads can end with the real reply,
      by reading the frames one after the other. */
  lemma {:induction false} ClientCanEnd(t: Turn, states: seq<State>, labels: seq<Label>)
    returns (states': seq<State>, labels': seq<Label>)
    requires RoundTrips(t.lib) && IsRun(t, states, labels)
    requires states[|labels|].doneOnWire && states[|labels|].client.Receiving?
    ensures IsRun(t, states', labels') && Extends(states, labels, states', labels')
    ensures var n := states'[|labels'|];
      && n.client.Ended? && (n.client.error.None? || n.client.error.value.RemoteFailure?)
      && n.answer.Some? && n.client.reply == n.answer.value.reply
    decreases |states[|labels|].wire| + 1 - states[|labels|].received
  {
    var s := states[|labels|];
    RunKeepsInv(t, states, labels, |labels|);
    ClientCanRead(t, s);
    states', labels' := StepRuns(t, states, labels, Receive);
    RunKeepsInv(t, states', labels', |labels'|);
    if states'[|labels'|].client.Receiving? {
      states', labels' := ClientCanEnd(t, states', labels');
    } else {
      ReadingEnds(t, s);
      EndToEnd(t, states', labels', |labels'|);
    }
  }
}
