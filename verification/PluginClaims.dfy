/** One router per gRPC server: the claim set of plugin_router.go. */
module PluginClaims {
  import opened Common

  /** The identity of a server object, which is what weak.Make distinguishes: it is
      never reused, not even after the object is collected. */
  type Server = nat

  datatype AlreadyRegistered = AlreadyRegistered

  class Claims {
    var servers: set<Server>
    /** The cleanups runtime.AddCleanup has been asked for. */
    var cleanups: multiset<Server>

    /** One cleanup is due for each claimed server. */
    ghost predicate Valid()
      reads this
    {
      OneCleanupPerClaim(servers, cleanups)
    }

    constructor ()
      ensures Valid() && servers == {} && cleanups == multiset{}
    {
      servers, cleanups := {}, multiset{};
    }

    method Claim(server: Server) returns (error: Option<AlreadyRegistered>)
      requires Valid()
      modifies this
      ensures Valid() && (servers, cleanups, error.None?) == ClaimEffect(old(servers), old(cleanups), server)
    {
      if server in servers { return Some(AlreadyRegistered); }
      servers := servers + {server};
      cleanups := cleanups + multiset{server};
      return None;
    }

    /** The cleanup of one server. The runtime calls it only when it is due, and drops it. */
    method Release(server: Server)
      requires Valid() && server in cleanups
      modifies this
      ensures Valid() && (servers, cleanups) == ReleaseEffect(old(servers), old(cleanups), server)
    {
      servers := servers - {server};
      cleanups := cleanups - multiset{server};
    }
  }

  ghost predicate OneCleanupPerClaim(servers: set<Server>, cleanups: multiset<Server>) {
    forall x :: cleanups[x] == if x in servers then 1 else 0
  }

  function ClaimEffect(servers: set<Server>, cleanups: multiset<Server>, server: Server)
    : (set<Server>, multiset<Server>, bool)
  {
    if server in servers then (servers, cleanups, false)
    else (servers + {server}, cleanups + multiset{server}, true)
  }

  function ReleaseEffect(servers: set<Server>, cleanups: multiset<Server>, server: Server)
    : (set<Server>, multiset<Server>)
  {
    (servers - {server}, cleanups - multiset{server})
  }

  // ---- every interleaving of calls, collections and cleanups ------------------

  /** Where one call of NewPluginRouter stands. */
  datatype CallState = Entered | Claimed | Returned | Refused

  datatype Call = Call(server: Server, at: CallState)

  datatype State = State(
    created: set<Server>,       // every server ever created
    live: set<Server>,            // not collected yet
    servers: set<Server>,         // the claim set
    cleanups: multiset<Server>,   // registered and not run yet
    calls: seq<Call>,
    routers: seq<Server>)         // the server of each router returned

  const START := State({}, {}, {}, multiset{}, [], [])

  datatype Label =
    | NewServer(server: Server)
    | Enter(server: Server)
    | RunClaim(call: nat)
    | Return(call: nat)
    | Collect(server: Server)
    | RunCleanup(server: Server)

  /** A call holds its server, so the collector leaves that server alone. */
  predicate Held(s: State, server: Server) {
    exists i :: 0 <= i < |s.calls| && s.calls[i].server == server && (s.calls[i].at.Entered? || s.calls[i].at.Claimed?)
  }

  function Step(s: State, l: Label): Option<State> {
    match l
    case NewServer(x) =>
      if x in s.created then None else Some(s.(created := s.created + {x}, live := s.live + {x}))
    case Enter(x) =>
      if x !in s.live then None else Some(s.(calls := s.calls + [Call(x, Entered)]))
    case RunClaim(i) =>
      if i >= |s.calls| || !s.calls[i].at.Entered? then None else
      var (servers, cleanups, granted) := ClaimEffect(s.servers, s.cleanups, s.calls[i].server);
      Some(s.(servers := servers, cleanups := cleanups,
              calls := s.calls[i := s.calls[i].(at := if granted then Claimed else Refused)]))
    case Return(i) =>
      if i >= |s.calls| || !s.calls[i].at.Claimed? then None else
      Some(s.(calls := s.calls[i := s.calls[i].(at := Returned)], routers := s.routers + [s.calls[i].server]))
    case Collect(x) =>
      if x !in s.live || Held(s, x) then None else Some(s.(live := s.live - {x}))
    case RunCleanup(x) =>
      if x in s.live || s.cleanups[x] == 0 then None else
      var (servers, cleanups) := ReleaseEffect(s.servers, s.cleanups, x);
      Some(s.(servers := servers, cleanups := cleanups))
  }

  ghost predicate IsRun(states: seq<State>, labels: seq<Label>) {
    && |states| == |labels| + 1 && states[0] == START
    && forall k :: 0 <= k < |labels| ==> Step(states[k], labels[k]) == Some(states[k + 1])
  }

  predicate Granted(c: Call) { c.at.Claimed? || c.at.Returned? }

  ghost predicate Inv(s: State) {
    && s.live <= s.created
    && OneCleanupPerClaim(s.servers, s.cleanups)
    && CallsKnown(s)
    && LiveGrantsClaimed(s)
    && GrantsDistinct(s)
    && ClaimsGranted(s)
    && RoutersGranted(s)
  }

  ghost predicate CallsKnown(s: State) {
    forall i :: 0 <= i < |s.calls| ==>
      && s.calls[i].server in s.created
      && (s.calls[i].at.Entered? || s.calls[i].at.Claimed? ==> s.calls[i].server in s.live)
  }

  ghost predicate LiveGrantsClaimed(s: State) {
    forall i :: 0 <= i < |s.calls| && Granted(s.calls[i]) && s.calls[i].server in s.live ==>
        s.calls[i].server in s.servers
  }

  ghost predicate GrantsDistinct(s: State) {
    forall i, j :: 0 <= i < j < |s.calls| && Granted(s.calls[i]) && Granted(s.calls[j]) ==>
        s.calls[i].server != s.calls[j].server
  }

  ghost predicate HasGrant(s: State, x: Server) {
    exists i :: 0 <= i < |s.calls| && Granted(s.calls[i]) && s.calls[i].server == x
  }

  ghost predicate ClaimsGranted(s: State) {
    forall x :: x in s.servers ==> HasGrant(s, x)
  }

  ghost predicate HasReturned(s: State, x: Server) {
    exists i :: 0 <= i < |s.calls| && s.calls[i].at.Returned? && s.calls[i].server == x
  }

  /** The routers are those of the calls that returned one, one each. */
  ghost predicate RoutersGranted(s: State) {
    && (forall k :: 0 <= k < |s.routers| ==> HasReturned(s, s.routers[k]))
    && (forall j, k :: 0 <= j < k < |s.routers| ==> s.routers[j] != s.routers[k])
  }

  /** Calls only move forward: what was granted or returned stays so. */
  lemma GrantsPersist(s: State, l: Label)
    requires Step(s, l).Some?
    ensures forall x :: HasGrant(s, x) ==> HasGrant(Step(s, l).value, x)
    ensures forall x :: HasReturned(s, x) ==> HasReturned(Step(s, l).value, x)
  {
    var t := Step(s, l).value;
    assert forall i :: 0 <= i < |s.calls| && Granted(s.calls[i]) ==>
        Granted(t.calls[i]) && t.calls[i].server == s.calls[i].server;
    forall x | HasGrant(s, x) ensures HasGrant(t, x) {
      var i :| 0 <= i < |s.calls| && Granted(s.calls[i]) && s.calls[i].server == x;
      assert Granted(t.calls[i]);
    }
    forall x | HasReturned(s, x) ensures HasReturned(t, x) {
      var i :| 0 <= i < |s.calls| && s.calls[i].at.Returned? && s.calls[i].server == x;
      assert t.calls[i].at.Returned?;
    }
  }

  lemma StepKeepsInv(s: State, l: Label)
    requires Inv(s) && Step(s, l).Some?
    ensures Inv(Step(s, l).value)
  {
    GrantsPersist(s, l);
    match l
    case NewServer(x) =>
    case Enter(x) => EnterKeepsInv(s, x);
    case RunClaim(i) => ClaimKeepsInv(s, i);
    case Return(i) => ReturnKeepsInv(s, i);
    case Collect(x) =>
    case RunCleanup(x) =>
  }

  lemma EnterKeepsInv(s: State, x: Server)
    requires Inv(s) && Step(s, Enter(x)).Some?
    ensures Inv(Step(s, Enter(x)).value)
  {
    GrantsPersist(s, Enter(x));
  }

  lemma ClaimKeepsInv(s: State, i: nat)
    requires Inv(s) && Step(s, RunClaim(i)).Some?
    ensures Inv(Step(s, RunClaim(i)).value)
  {
    GrantsPersist(s, RunClaim(i));
    var t := Step(s, RunClaim(i)).value;
    if s.calls[i].server !in s.servers {
      assert Granted(t.calls[i]);
      assert HasGrant(t, s.calls[i].server);
    }
  }

  lemma ReturnKeepsInv(s: State, i: nat)
    requires Inv(s) && Step(s, Return(i)).Some?
    ensures Inv(Step(s, Return(i)).value)
  {
    GrantsPersist(s, Return(i));
    var t := Step(s, Return(i)).value;
    forall k | 0 <= k < |s.routers| ensures s.routers[k] != s.calls[i].server {
      assert HasReturned(s, s.routers[k]);
      var j :| 0 <= j < |s.calls| && s.calls[j].at.Returned? && s.calls[j].server == s.routers[k];
      assert Granted(s.calls[j]) && Granted(s.calls[i]);
    }
    assert t.calls[i].at.Returned?;
    assert HasReturned(t, s.calls[i].server);
  }

  lemma {:induction false} RunKeepsInv(states: seq<State>, labels: seq<Label>, k: nat)
    requires IsRun(states, labels) && k < |states|
    ensures Inv(states[k])
  {
    if k > 0 {
      RunKeepsInv(states, labels, k - 1);
      assert Step(states[k - 1], labels[k - 1]) == Some(states[k]);
      StepKeepsInv(states[k - 1], labels[k - 1]);
    }
  }

  /** In every run: a server gets at most one router; a router whose server is alive keeps
      its claim; and the claim set holds exactly the servers whose one cleanup is still due. */
  lemma OneRouterPerServer(states: seq<State>, labels: seq<Label>, k: nat)
    requires IsRun(states, labels) && k < |states|
    ensures forall i, j :: 0 <= i < j < |states[k].routers| ==> states[k].routers[i] != states[k].routers[j]
    ensures forall i :: 0 <= i < |states[k].routers| && states[k].routers[i] in states[k].live ==>
              states[k].routers[i] in states[k].servers
    ensures forall x :: x in states[k].servers <==> states[k].cleanups[x] == 1
    ensures forall x :: x !in states[k].servers <==> states[k].cleanups[x] == 0
  {
    RunKeepsInv(states, labels, k);
    var s := states[k];
    forall i | 0 <= i < |s.routers| && s.routers[i] in s.live ensures s.routers[i] in s.servers {
      assert HasReturned(s, s.routers[i]);
      var j :| 0 <= j < |s.calls| && s.calls[j].at.Returned? && s.calls[j].server == s.routers[i];
      assert Granted(s.calls[j]);
    }
  }

  /** In every run a claim lasts until the cleanup of its own server, which is dead by then. */
  lemma {:induction false} OnlyOwnCleanupFrees(states: seq<State>, labels: seq<Label>, j: nat, k: nat, x: Server)
    requires IsRun(states, labels) && j <= k < |states|
    requires x in states[j].servers && x !in states[k].servers
    ensures exists m :: j <= m < k && labels[m] == RunCleanup(x) && x !in states[m].live
  {
    assert Step(states[k - 1], labels[k - 1]) == Some(states[k]);
    if x !in states[k - 1].servers {
      OnlyOwnCleanupFrees(states, labels, j, k - 1, x);
    } else {
      assert labels[k - 1] == RunCleanup(x);
    }
  }

  /** x has been collected and nothing of it is left: no claim, no cleanup and no waiting call. */
  ghost predicate Gone(s: State, x: Server) {
    && x in s.created && x !in s.live && x !in s.servers && s.cleanups[x] == 0
    && forall i :: 0 <= i < |s.calls| && s.calls[i].server == x ==> !s.calls[i].at.Entered? && !s.calls[i].at.Claimed?
  }

  /** In every run the cleanup of a server runs at most once, and its claim never comes back. */
  lemma {:induction false} CleanupIsFinal(states: seq<State>, labels: seq<Label>, j: nat, k: nat, x: Server)
    requires IsRun(states, labels) && j < k < |states| && labels[j] == RunCleanup(x)
    ensures Gone(states[k], x) && (k < |labels| ==> labels[k] != RunCleanup(x))
  {
    assert Step(states[k - 1], labels[k - 1]) == Some(states[k]);
    if j < k - 1 {
      CleanupIsFinal(states, labels, j, k - 1, x);
      GoneStays(states[k - 1], labels[k - 1], x);
    } else {
      RunKeepsInv(states, labels, j);
      CleanupLeavesNothing(states[j], x);
    }
    if k < |labels| {
      assert Step(states[k], labels[k]) == Some(states[k + 1]);
      GoneStays(states[k], labels[k], x);
    }
  }

  lemma CleanupLeavesNothing(s: State, x: Server)
    requires Inv(s) && Step(s, RunCleanup(x)).Some?
    ensures Gone(Step(s, RunCleanup(x)).value, x)
  {
    assert HasGrant(s, x);
  }

  lemma GoneStays(s: State, l: Label, x: Server)
    requires Gone(s, x) && Step(s, l).Some?
    ensures Gone(Step(s, l).value, x) && l != RunCleanup(x)
  {}

  /** A call is refused exactly when another call of the same server was granted first. */
  lemma RefusedOnlyBySecondClaim(states: seq<State>, labels: seq<Label>, k: nat, i: nat)
    requires IsRun(states, labels) && k < |labels| && labels[k] == RunClaim(i)
    ensures i < |states[k].calls| && i < |states[k + 1].calls|
    ensures states[k + 1].calls[i].at.Refused? <==> HasGrant(states[k], states[k].calls[i].server)
  {
    assert Step(states[k], labels[k]) == Some(states[k + 1]);
    RunKeepsInv(states, labels, k);
  }
}
