/** Concurrent calls of a remote memory over a connection that may delay a request, lose a
    message or be given up: memory_proxy.go, memory_skeleton.go, plugin_router.go. */
module MemoryCalls {
  import opened Common
  import opened Contracts
  import opened Codec
  import opened WireError
  import opened PluginRouter
  import opened RemoteMemory

  /** A request on its way to the memory: never sent, sent, or performed with this result. */
  datatype Request = Unsent | Sent | Performed(result: ResultEnvelope)

  /** What the caller has: nothing yet, the reply, an error of its context or connection, or
      arguments that cannot be encoded. */
  datatype Outcome = Waiting | Replied(reply: Reply) | GaveUp(cause: Error) | Refused

  datatype Flight = Flight(call: Call, request: Request, outcome: Outcome)

  datatype State = State(
    world: World,
    calls: seq<Flight>,    // in the order in which they were issued
    served: seq<nat>)      // the calls performed, in order; history, never read by a step

  /** A server whose router serves impl, and the world it starts with. */
  datatype Host = Host(lib: Library, ports: map<string, Skeleton>, impl: Memory, start: World)

  ghost predicate Sound(h: Host) { RoundTrips(h.lib) && Serves(h.lib, h.ports, h.impl) }

  function Start(h: Host): State { State(h.start, [], []) }

  datatype Label =
    | Issue(call: Call)
    | Perform(i: nat)
    | Answer(i: nat)
    | GiveUp(i: nat, cause: Error)

  function StepIssue(h: Host, s: State, call: Call): State {
    var flight := if Encodable(h.lib, call) then Flight(call, Sent, Waiting) else Flight(call, Unsent, Refused);
    s.(calls := s.calls + [flight])
  }

  /** The router and the skeleton run the call, whether or not anybody still waits for it. */
  function StepPerform(h: Host, s: State, i: nat): Option<State> {
    if i >= |s.calls| || !s.calls[i].request.Sent? then None
    else
      var (w, result) := Route(h.lib, h.ports, s.world, RemoteMemory.Request(h.lib, s.calls[i].call));
      Some(State(w, s.calls[i := s.calls[i].(request := Performed(result))], s.served + [i]))
  }

  function StepAnswer(h: Host, s: State, i: nat): Option<State> {
    if i >= |s.calls| || !s.calls[i].request.Performed? || !s.calls[i].outcome.Waiting? then None
    else
      var reply := Receive(h.lib, s.calls[i].call, s.calls[i].request.result);
      Some(s.(calls := s.calls[i := s.calls[i].(outcome := Replied(reply))]))
  }

  /** The context ends or the connection fails. The request may still be performed later. */
  function StepGiveUp(s: State, i: nat, cause: Error): Option<State> {
    if i >= |s.calls| || !s.calls[i].outcome.Waiting? then None
    else Some(s.(calls := s.calls[i := s.calls[i].(outcome := GaveUp(cause))]))
  }

  /** One step; None when it cannot be taken. A lost message is a step that never comes. */
  function Step(h: Host, s: State, l: Label): Option<State> {
    match l
    case Issue(call) => Some(StepIssue(h, s, call))
    case Perform(i) => StepPerform(h, s, i)
    case Answer(i) => StepAnswer(h, s, i)
    case GiveUp(i, cause) => StepGiveUp(s, i, cause)
  }

  ghost predicate IsRun(h: Host, states: seq<State>, labels: seq<Label>) {
    && |states| == |labels| + 1 && states[0] == Start(h)
    && forall k :: 0 <= k < |labels| ==> Step(h, states[k], labels[k]) == Some(states[k + 1])
  }

  // ---- the invariant ---------------------------------------------------------

  /** Every performed call is listed, once. */
  ghost predicate ServedInv(s: State) {
    && (forall p :: 0 <= p < |s.served| ==> s.served[p] < |s.calls| && s.calls[s.served[p]].request.Performed?)
    && (forall i :: 0 <= i < |s.calls| && s.calls[i].request.Performed? ==> i in s.served)
    && (forall p, q :: 0 <= p < q < |s.served| ==> s.served[p] != s.served[q])
  }

  /** The calls that a list of indices names. */
  function Listed(calls: seq<Flight>, list: seq<nat>): (named: seq<Call>)
    requires forall p :: 0 <= p < |list| ==> list[p] < |calls|
    ensures |named| == |list| && forall p :: 0 <= p < |list| ==> named[p] == calls[list[p]].call
  {
    seq(|list|, p requires 0 <= p < |list| => calls[list[p]].call)
  }

  /** The calls performed, in the order in which they were. */
  function PerformedCalls(s: State): (calls: seq<Call>)
    requires forall p :: 0 <= p < |s.served| ==> s.served[p] < |s.calls|
    ensures |calls| == |s.served|
  {
    Listed(s.calls, s.served)
  }

  /** The world and the results are those of a local session of the performed calls. */
  ghost predicate SessionInv(h: Host, s: State)
    requires ServedInv(s)
  {
    && s.world == Session(h.impl, h.start, PerformedCalls(s)).0
    && (forall p :: 0 <= p < |s.served| ==>
          s.calls[s.served[p]].request.result == Envelope(h.lib, Session(h.impl, h.start, PerformedCalls(s)).1[p]))
  }

  ghost predicate OutcomeInv(h: Host, s: State) {
    forall i :: 0 <= i < |s.calls| ==>
      && (s.calls[i].outcome.Replied? ==>
            && s.calls[i].request.Performed?
            && s.calls[i].outcome.reply == Receive(h.lib, s.calls[i].call, s.calls[i].request.result))
      && (s.calls[i].outcome.Refused? <==> s.calls[i].request.Unsent?)
      && (s.calls[i].request.Unsent? <==> !Encodable(h.lib, s.calls[i].call))
  }

  ghost predicate Inv(h: Host, s: State) {
    ServedInv(s) && SessionInv(h, s) && OutcomeInv(h, s)
  }

  lemma {:induction false} SessionPush(m: Memory, w: World, calls: seq<Call>, call: Call)
    ensures var (w', replies) := Session(m, w, calls);
            Session(m, w, calls + [call]) == (Invoke(m, w', call).0, replies + [Invoke(m, w', call).1])
  {
    if calls == [] {
      assert calls + [call] == [call] && [call][1..] == [];
      assert [] + [Invoke(m, w, call).1] == [Invoke(m, w, call).1] + [];
    } else {
      assert (calls + [call])[1..] == calls[1..] + [call];
      var (w', r) := Invoke(m, w, calls[0]);
      SessionPush(m, w', calls[1..], call);
      var (w'', rest) := Session(m, w', calls[1..]);
      assert [r] + (rest + [Invoke(m, w'', call).1]) == ([r] + rest) + [Invoke(m, w'', call).1];
    }
  }

  lemma PerformKeepsServed(h: Host, s: State, i: nat)
    requires ServedInv(s) && StepPerform(h, s, i).Some?
    ensures var n := StepPerform(h, s, i).value;
            ServedInv(n) && PerformedCalls(n) == PerformedCalls(s) + [s.calls[i].call]
  {
    var n := StepPerform(h, s, i).value;
    assert n.served[|s.served|] == i;
    assert forall j :: j in s.served ==> j in n.served;
  }

  lemma RoutePerforms(h: Host, w: World, call: Call)
    requires Sound(h) && Encodable(h.lib, call)
    ensures Route(h.lib, h.ports, w, RemoteMemory.Request(h.lib, call))
         == (Invoke(h.impl, w, call).0, Envelope(h.lib, Invoke(h.impl, w, call).1))
  {
    SkeletonReplays(h.lib, h.impl, w, call);
  }

  lemma PerformKeepsInv(h: Host, s: State, i: nat)
    requires Sound(h) && Inv(h, s) && StepPerform(h, s, i).Some?
    ensures Inv(h, StepPerform(h, s, i).value)
  {
    PerformKeepsServed(h, s, i);
    RoutePerforms(h, s.world, s.calls[i].call);
    SessionPush(h.impl, h.start, PerformedCalls(s), s.calls[i].call);
    PerformKeepsSession(h, s, i);
    PerformKeepsOutcomes(h, s, i);
  }

  lemma PerformKeepsOutcomes(h: Host, s: State, i: nat)
    requires OutcomeInv(h, s) && StepPerform(h, s, i).Some?
    ensures OutcomeInv(h, StepPerform(h, s, i).value)
  {}

  lemma PerformKeepsSession(h: Host, s: State, i: nat)
    requires Inv(h, s) && StepPerform(h, s, i).Some? && ServedInv(StepPerform(h, s, i).value)
    requires var n := StepPerform(h, s, i).value;
      && PerformedCalls(n) == PerformedCalls(s) + [s.calls[i].call]
      && n.world == Invoke(h.impl, s.world, s.calls[i].call).0
      && n.calls[i].request.result == Envelope(h.lib, Invoke(h.impl, s.world, s.calls[i].call).1)
      && Session(h.impl, h.start, PerformedCalls(n))
           == (n.world, Session(h.impl, h.start, PerformedCalls(s)).1 + [Invoke(h.impl, s.world, s.calls[i].call).1])
    ensures SessionInv(h, StepPerform(h, s, i).value)
  {}

  /** Steps that perform nothing keep what was performed. */
  lemma OtherStepsKeepInv(h: Host, s: State, l: Label)
    requires Inv(h, s) && Step(h, s, l).Some? && !l.Perform?
    ensures Inv(h, Step(h, s, l).value)
  {
    OtherStepsKeepServed(h, s, l);
    OtherStepsKeepOutcomes(h, s, l);
  }

  lemma OtherStepsKeepServed(h: Host, s: State, l: Label)
    requires ServedInv(s) && Step(h, s, l).Some? && !l.Perform?
    ensures var n := Step(h, s, l).value; ServedInv(n) && (SessionInv(h, s) ==> SessionInv(h, n))
  {
    OtherStepsPerformNothing(h, s, l);
    SamePerformedKeepsServed(h, s, Step(h, s, l).value);
  }

  /** The requests are the same, up to new ones that are not performed. */
  ghost predicate SamePerformed(s: State, n: State) {
    && n.world == s.world && n.served == s.served && |s.calls| <= |n.calls|
    && (forall i :: 0 <= i < |s.calls| ==>
          n.calls[i].request == s.calls[i].request && n.calls[i].call == s.calls[i].call)
    && (forall i :: |s.calls| <= i < |n.calls| ==> !n.calls[i].request.Performed?)
  }

  lemma OtherStepsPerformNothing(h: Host, s: State, l: Label)
    requires Step(h, s, l).Some? && !l.Perform?
    ensures SamePerformed(s, Step(h, s, l).value)
  {}

  lemma SamePerformedKeepsServed(h: Host, s: State, n: State)
    requires ServedInv(s) && SamePerformed(s, n)
    ensures ServedInv(n) && (SessionInv(h, s) ==> SessionInv(h, n))
  {
    assert PerformedCalls(n) == PerformedCalls(s);
  }

  lemma OtherStepsKeepOutcomes(h: Host, s: State, l: Label)
    requires OutcomeInv(h, s) && Step(h, s, l).Some? && !l.Perform?
    ensures OutcomeInv(h, Step(h, s, l).value)
  {}

  /** Calls and effects are only added, and a reply is final. */
  ghost predicate Grows(s: State, n: State) {
    && |s.calls| <= |n.calls| && s.served <= n.served
    && (forall i :: 0 <= i < |s.calls| ==> n.calls[i].call == s.calls[i].call)
    && (forall i :: 0 <= i < |s.calls| && s.calls[i].outcome.Replied? ==> n.calls[i].outcome == s.calls[i].outcome)
  }

  lemma StepGrows(h: Host, s: State, l: Label)
    requires Step(h, s, l).Some?
    ensures Grows(s, Step(h, s, l).value)
  {}

  lemma {:induction false} RunKeepsInv(h: Host, states: seq<State>, labels: seq<Label>, k: nat)
    requires Sound(h) && IsRun(h, states, labels) && k < |states|
    ensures Inv(h, states[k])
  {
    if k > 0 {
      var s, l := states[k - 1], labels[k - 1];
      RunKeepsInv(h, states, labels, k - 1);
      assert Step(h, s, l) == Some(states[k]);
      if l.Perform? { PerformKeepsInv(h, s, l.i); } else { OtherStepsKeepInv(h, s, l); }
    }
  }

  lemma {:induction false} RunGrows(h: Host, states: seq<State>, labels: seq<Label>, m: nat, k: nat)
    requires IsRun(h, states, labels) && m <= k < |states|
    ensures Grows(states[m], states[k])
  {
    if m < k {
      RunGrows(h, states, labels, m, k - 1);
      assert Step(h, states[k - 1], labels[k - 1]) == Some(states[k]);
      StepGrows(h, states[k - 1], labels[k - 1]);
    }
  }

  // ---- theorems --------------------------------------------------------------

  /** At most once: in every run, whatever is delayed, lost or given up, the world is that of a
      local session of the calls performed so far. Each of them was issued, could be encoded,
      and was performed once. */
  lemma AtMostOnce(h: Host, states: seq<State>, labels: seq<Label>, k: nat)
    requires Sound(h) && IsRun(h, states, labels) && k < |states|
    ensures var s := states[k];
      && (forall p :: 0 <= p < |s.served| ==> s.served[p] < |s.calls| && Encodable(h.lib, s.calls[s.served[p]].call))
      && (forall p, q :: 0 <= p < q < |s.served| ==> s.served[p] != s.served[q])
      && s.world == Session(h.impl, h.start, PerformedCalls(s)).0
  {
    RunKeepsInv(h, states, labels, k);
  }

  /** A reply tells the truth: its call was performed, and the caller sees through the wire
      what the real memory replied at its place in that session. */
  lemma RepliesAreReal(h: Host, states: seq<State>, labels: seq<Label>, k: nat, i: nat) returns (p: nat)
    requires Sound(h) && IsRun(h, states, labels) && k < |states|
    requires i < |states[k].calls| && states[k].calls[i].outcome.Replied?
    ensures var s := states[k];
      && p < |s.served| && s.served[p] == i && (forall q :: 0 <= q < |s.served| ==> s.served[q] < |s.calls|)
      && s.calls[i].outcome.reply == Transmit(h.lib, s.calls[i].call, Session(h.impl, h.start, PerformedCalls(s)).1[p])
  {
    var s := states[k];
    RunKeepsInv(h, states, labels, k);
    p :| 0 <= p < |s.served| && s.served[p] == i;
    SessionAnswers(h.impl, h.start, PerformedCalls(s), p);
    EnvelopeReads(h.lib, s.calls[i].call, Session(h.impl, h.start, PerformedCalls(s)).1[p]);
  }

  /** A call whose reply has arrived took effect before every call issued after that. */
  lemma RepliedComesFirst(h: Host, states: seq<State>, labels: seq<Label>, m: nat, k: nat, p: nat, q: nat)
    requires Sound(h) && IsRun(h, states, labels) && m <= k < |states| && p < |states[k].served|
    requires q < |states[k].served|
    requires states[k].served[p] < |states[m].calls| && states[m].calls[states[k].served[p]].outcome.Replied?
    requires states[k].served[q] >= |states[m].calls|
    ensures p < q
  {
    RunKeepsInv(h, states, labels, m);
    RunKeepsInv(h, states, labels, k);
    RunGrows(h, states, labels, m, k);
    var r :| 0 <= r < |states[m].served| && states[m].served[r] == states[k].served[p];
    PrefixComesFirst(states[m], states[k], r, p, q);
  }

  lemma PrefixComesFirst(early: State, late: State, r: nat, p: nat, q: nat)
    requires ServedInv(early) && ServedInv(late) && early.served <= late.served && p < |late.served|
    requires q < |late.served|
    requires r < |early.served| && early.served[r] == late.served[p] && late.served[q] >= |early.calls|
    ensures p < q
  {
    assert forall o :: 0 <= o < |early.served| ==> late.served[o] == early.served[o] < |early.calls|;
  }

  /** The moment call j was issued. */
  lemma {:induction false} WhenIssued(h: Host, states: seq<State>, labels: seq<Label>, k: nat, j: nat) returns (m: nat)
    requires IsRun(h, states, labels) && k < |states| && j < |states[k].calls|
    ensures m < k && labels[m].Issue? && |states[m].calls| == j
  {
    assert Step(h, states[k - 1], labels[k - 1]) == Some(states[k]);
    if j < |states[k - 1].calls| {
      m := WhenIssued(h, states, labels, k - 1, j);
    } else {
      m := k - 1;
    }
  }

  /** A caller that issues a call only when all earlier ones are settled, by a reply or because
      they could not be encoded. */
  ghost predicate OneAtATime(states: seq<State>, labels: seq<Label>)
    requires |states| == |labels| + 1
  {
    forall m, i :: 0 <= m < |labels| && labels[m].Issue? && 0 <= i < |states[m].calls| ==>
      states[m].calls[i].outcome.Replied? || states[m].calls[i].outcome.Refused?
  }

  /** The calls of such a caller take effect in the order in which they were issued. */
  lemma OneAtATimeInOrder(h: Host, states: seq<State>, labels: seq<Label>, k: nat, p: nat, q: nat)
    requires Sound(h) && IsRun(h, states, labels) && OneAtATime(states, labels) && k < |states|
    requires p < q < |states[k].served|
    ensures states[k].served[p] < states[k].served[q]
  {
    RunKeepsInv(h, states, labels, k);
    var early, late := states[k].served[q], states[k].served[p];
    if early < late {
      var m := WhenIssued(h, states, labels, k, late);
      RunGrows(h, states, labels, m, k);
      RunKeepsInv(h, states, labels, m);
      assert Encodable(h.lib, states[k].calls[early].call);
      RepliedComesFirst(h, states, labels, m, k, q, p);
    }
  }

  /** The calls in the order in which they were issued. */
  function IssuedCalls(calls: seq<Flight>): seq<Call> {
    seq(|calls|, i requires 0 <= i < |calls| => calls[i].call)
  }

  lemma {:induction false} SendablePush(lib: Library, calls: seq<Call>, call: Call)
    ensures Sendable(lib, calls + [call]) == Sendable(lib, calls) + (if Encodable(lib, call) then [call] else [])
  {
    if calls == [] {
      assert calls + [call] == [call] && [call][1..] == [];
    } else {
      assert (calls + [call])[1..] == calls[1..] + [call];
      SendablePush(lib, calls[1..], call);
    }
  }

  /** list names, in increasing order, exactly the calls that can be encoded. */
  ghost predicate ListsSendable(lib: Library, calls: seq<Flight>, list: seq<nat>) {
    && (forall p :: 0 <= p < |list| ==> list[p] < |calls|)
    && (forall p, q :: 0 <= p < q < |list| ==> list[p] < list[q])
    && (forall i :: 0 <= i < |calls| ==> (i in list <==> Encodable(lib, calls[i].call)))
  }

  /** A last call that can be encoded is named last. */
  lemma LastIsListedLast(lib: Library, calls: seq<Flight>, list: seq<nat>)
    requires ListsSendable(lib, calls, list) && calls != [] && Encodable(lib, calls[|calls| - 1].call)
    ensures list != [] && list[|list| - 1] == |calls| - 1
  {
    var p :| 0 <= p < |list| && list[p] == |calls| - 1;
    assert forall o :: 0 <= o < |list| - 1 ==> list[o] < list[|list| - 1];
  }

  lemma FrontWithoutLast(lib: Library, calls: seq<Flight>, list: seq<nat>)
    requires ListsSendable(lib, calls, list) && calls != [] && Encodable(lib, calls[|calls| - 1].call)
    ensures list != [] && ListsSendable(lib, calls[..|calls| - 1], list[..|list| - 1])
  {
    LastIsListedLast(lib, calls, list);
    assert list == list[..|list| - 1] + [|calls| - 1];
  }

  lemma FrontOfUnsent(lib: Library, calls: seq<Flight>, list: seq<nat>)
    requires ListsSendable(lib, calls, list) && calls != [] && !Encodable(lib, calls[|calls| - 1].call)
    ensures ListsSendable(lib, calls[..|calls| - 1], list)
  {
    assert forall p :: 0 <= p < |list| ==> list[p] in list && list[p] != |calls| - 1;
  }

  lemma {:induction false} ListedCallsAreSendable(lib: Library, calls: seq<Flight>, list: seq<nat>)
    requires ListsSendable(lib, calls, list)
    ensures Listed(calls, list) == Sendable(lib, IssuedCalls(calls))
    decreases |calls|
  {
    if calls == [] {
      assert list == [];
    } else {
      var front, last := calls[..|calls| - 1], calls[|calls| - 1].call;
      assert IssuedCalls(calls) == IssuedCalls(front) + [last];
      SendablePush(lib, IssuedCalls(front), last);
      if Encodable(lib, last) {
        FrontWithoutLast(lib, calls, list);
        LastIsListedLast(lib, calls, list);
        ListedCallsAreSendable(lib, front, list[..|list| - 1]);
        ListedPush(calls, list);
      } else {
        FrontOfUnsent(lib, calls, list);
        ListedCallsAreSendable(lib, front, list);
        assert Listed(calls, list) == Listed(front, list);
      }
    }
  }

  lemma ListedPush(calls: seq<Flight>, list: seq<nat>)
    requires calls != [] && list != [] && list[|list| - 1] == |calls| - 1
    requires forall p :: 0 <= p < |list| - 1 ==> list[p] < |calls| - 1
    ensures forall p :: 0 <= p < |list| ==> list[p] < |calls|
    ensures Listed(calls, list) == Listed(calls[..|calls| - 1], list[..|list| - 1]) + [calls[|calls| - 1].call]
  {}

  /** When such a caller has every answer, the world is that of a local session of its calls. */
  lemma SettledRunIsLocal(h: Host, states: seq<State>, labels: seq<Label>, k: nat)
    requires Sound(h) && IsRun(h, states, labels) && OneAtATime(states, labels) && k < |states|
    requires forall i :: 0 <= i < |states[k].calls| ==>
        states[k].calls[i].outcome.Replied? || states[k].calls[i].outcome.Refused?
    ensures states[k].world == Session(h.impl, h.start, Sendable(h.lib, IssuedCalls(states[k].calls))).0
  {
    var s := states[k];
    RunKeepsInv(h, states, labels, k);
    forall p, q | 0 <= p < q < |s.served| ensures s.served[p] < s.served[q] {
      OneAtATimeInOrder(h, states, labels, k, p, q);
    }
    SettledIsPerformed(h, s);
    assert ListsSendable(h.lib, s.calls, s.served);
    ListedCallsAreSendable(h.lib, s.calls, s.served);
  }

  lemma SettledIsPerformed(h: Host, s: State)
    requires ServedInv(s) && OutcomeInv(h, s)
    requires forall i :: 0 <= i < |s.calls| ==> s.calls[i].outcome.Replied? || s.calls[i].outcome.Refused?
    ensures forall i :: 0 <= i < |s.calls| ==> (i in s.served <==> Encodable(h.lib, s.calls[i].call))
  {}

  lemma StepRuns(h: Host, states: seq<State>, labels: seq<Label>, l: Label)
    returns (states': seq<State>, labels': seq<Label>)
    requires IsRun(h, states, labels) && Step(h, states[|labels|], l).Some?
    ensures IsRun(h, states', labels')
    ensures states' == states + [Step(h, states[|labels|], l).value] && labels' == labels + [l]
  {
    states', labels' := states + [Step(h, states[|labels|], l).value], labels + [l];
  }

  ghost predicate Extends(states: seq<State>, labels: seq<Label>, states': seq<State>, labels': seq<Label>) {
    states <= states' && labels <= labels'
  }

  /** Call i took effect behind one of the calls numbered n and up. */
  ghost predicate Overtaken(s: State, i: nat, n: nat) {
    exists p, q :: 0 <= p < q < |s.served| && s.served[q] == i && s.served[p] >= n
  }

  lemma IssueStep(h: Host, s: State, second: Call)
    requires Encodable(h.lib, second)
    ensures Step(h, s, Issue(second)) == Some(s.(calls := s.calls + [Flight(second, Sent, Waiting)]))
  {}

  lemma PerformStep(h: Host, s: State, n: nat)
    requires n < |s.calls| && s.calls[n].request.Sent?
    ensures var next := Step(h, s, Perform(n));
      && next.Some? && next.value.served == s.served + [n] && |next.value.calls| == |s.calls|
      && next.value.calls[n].request.Performed? && next.value.calls[n].outcome == s.calls[n].outcome
      && next.value.calls[n].call == s.calls[n].call
      && forall i :: 0 <= i < |s.calls| && i != n ==> next.value.calls[i] == s.calls[i]
  {}

  lemma AnswerStep(h: Host, s: State, n: nat)
    requires n < |s.calls| && s.calls[n].request.Performed? && s.calls[n].outcome.Waiting?
    ensures var next := Step(h, s, Answer(n));
      && next.Some? && next.value.served == s.served && |next.value.calls| == |s.calls|
      && next.value.calls[n].outcome.Replied? && next.value.calls[n].call == s.calls[n].call
      && forall i :: 0 <= i < |s.calls| && i != n ==> next.value.calls[i] == s.calls[i]
  {}

  /** A call whose request is pending, given up or not, can take effect behind any call that is
      yet to be issued, even behind its answer. */
  lemma CanBeOvertaken(h: Host, states: seq<State>, labels: seq<Label>, i: nat, second: Call)
    returns (states': seq<State>, labels': seq<Label>)
    requires IsRun(h, states, labels) && Encodable(h.lib, second)
    requires i < |states[|labels|].calls| && states[|labels|].calls[i].request.Sent?
    ensures IsRun(h, states', labels') && Extends(states, labels, states', labels')
    ensures var s, n := states[|labels|], states'[|labels'|];
      && n.served == s.served + [|s.calls|, i] && |n.calls| == |s.calls| + 1
      && n.calls[|s.calls|].call == second && n.calls[|s.calls|].outcome.Replied?
  {
    var s := states[|labels|];
    states', labels' := CanBeAnswered(h, states, labels, second);
    PerformStep(h, states'[|labels'|], i);
    states', labels' := StepRuns(h, states', labels', Perform(i));
    assert s.served + [|s.calls|] + [i] == s.served + [|s.calls|, i];
  }

  /** A call can be issued, performed and answered while all others stay as they are. */
  lemma CanBeAnswered(h: Host, states: seq<State>, labels: seq<Label>, second: Call)
    returns (states': seq<State>, labels': seq<Label>)
    requires IsRun(h, states, labels) && Encodable(h.lib, second)
    ensures IsRun(h, states', labels') && Extends(states, labels, states', labels')
    ensures var s, n := states[|labels|], states'[|labels'|];
      && n.served == s.served + [|s.calls|] && |n.calls| == |s.calls| + 1
      && n.calls[|s.calls|].call == second && n.calls[|s.calls|].outcome.Replied?
      && forall i :: 0 <= i < |s.calls| ==> n.calls[i] == s.calls[i]
  {
    var s := states[|labels|];
    var n := |s.calls|;
    IssueStep(h, s, second);
    states', labels' := StepRuns(h, states, labels, Issue(second));
    PerformStep(h, states'[|labels'|], n);
    states', labels' := StepRuns(h, states', labels', Perform(n));
    AnswerStep(h, states'[|labels'|], n);
    states', labels' := StepRuns(h, states', labels', Answer(n));
  }

  /** A call that was performed, or never sent, is overtaken by no later call. */
  lemma SettledIsNotOvertaken(h: Host, states: seq<State>, labels: seq<Label>, m: nat, k: nat, i: nat)
    requires Sound(h) && IsRun(h, states, labels) && m <= k < |states|
    requires i < |states[m].calls| && !states[m].calls[i].request.Sent?
    ensures !Overtaken(states[k], i, |states[m].calls|)
  {
    RunKeepsInv(h, states, labels, m);
    RunKeepsInv(h, states, labels, k);
    RunGrows(h, states, labels, m, k);
    var early, late := states[m], states[k];
    forall p, q | 0 <= p < q < |late.served| && late.served[q] == i ensures late.served[p] < |early.calls| {
      assert late.calls[i].request.Performed? && late.calls[i].call == early.calls[i].call;
      var r :| 0 <= r < |early.served| && early.served[r] == i;
      if late.served[p] >= |early.calls| { PrefixComesFirst(early, late, r, q, p); }
    }
  }

  lemma UnlinkIsEncodable(lib: Library)
    ensures Encodable(lib, Unlink("", ""))
  {
    assert [VString("")][1..] == [];
    assert MarshalAll(lib, [VString("")]).Some?;
    assert Args(Unlink("", ""))[1..] == [VString("")];
  }

  /** The exact condition: some continuation lets a call that is yet to be issued take effect
      before call i, if and only if the request of call i is still pending. */
  lemma OvertakenIffPending(h: Host, states: seq<State>, labels: seq<Label>, i: nat)
    requires Sound(h) && IsRun(h, states, labels) && i < |states[|labels|].calls|
    ensures (exists states', labels' :: IsRun(h, states', labels') && Extends(states, labels, states', labels')
                                   && Overtaken(states'[|labels'|], i, |states[|labels|].calls|))
       <==> states[|labels|].calls[i].request.Sent?
  {
    var s := states[|labels|];
    if s.calls[i].request.Sent? {
      UnlinkIsEncodable(h.lib);
      var states', labels' := CanBeOvertaken(h, states, labels, i, Unlink("", ""));
      var n := states'[|labels'|];
      assert n.served[|s.served|] == |s.calls| && n.served[|s.served| + 1] == i;
      assert Overtaken(n, i, |s.calls|);
    } else {
      forall states', labels' | IsRun(h, states', labels') && Extends(states, labels, states', labels')
        ensures !Overtaken(states'[|labels'|], i, |s.calls|)
      {
        assert states'[|labels|] == s;
        SettledIsNotOvertaken(h, states', labels', |labels|, |labels'|, i);
      }
    }
  }

  /** So a call that was given up can come last: call 0 is given up, and takes effect after
      call 1, which was issued later, has been answered. */
  lemma AbandonedCallCanComeLast(h: Host, first: Call, second: Call, cause: Error)
    returns (states: seq<State>, labels: seq<Label>)
    requires Encodable(h.lib, first) && Encodable(h.lib, second)
    ensures IsRun(h, states, labels) && |states| >= 3 && states[2].calls == [Flight(first, Sent, GaveUp(cause))]
    ensures states[|labels|].served == [1, 0] && |states[|labels|].calls| == 2
    ensures states[|labels|].calls[1].call == second && states[|labels|].calls[1].outcome.Replied?
  {
    states, labels := [Start(h)], [];
    states, labels := StepRuns(h, states, labels, Issue(first));
    states, labels := StepRuns(h, states, labels, GiveUp(0, cause));
    states, labels := CanBeOvertaken(h, states, labels, 0, second);
  }
}
