/** A remote memory served on by further hosts: a MemoryProxy behind a memory skeleton, as often
    as one likes (memory_proxy.go, memory_skeleton.go). */
module MemoryRelays {
  import opened Common
  import opened Contracts
  import opened WireError
  import opened PluginRouter
  import opened RemoteMemory

  /** The proxy of a host that serves m, beside whatever else it serves. */
  function OneHost(lib: Library, ports: map<string, Skeleton>, m: Memory): Memory {
    MemoryProxy(lib, Dial(lib, ports["memory" := Serve(lib, m)], Delivered))
  }

  /** m behind n hosts in a row. */
  function Behind(lib: Library, ports: map<string, Skeleton>, m: Memory, n: nat): Memory {
    if n == 0 then m else OneHost(lib, ports, Behind(lib, ports, m, n - 1))
  }

  /** A reply after n hops. */
  function Hops(lib: Library, call: Call, r: Reply, n: nat): Reply {
    if n == 0 then r else Transmit(lib, call, Hops(lib, call, r, n - 1))
  }

  lemma CallOfOneHost(lib: Library, ports: map<string, Skeleton>, m: Memory, w: World, call: Call, w': World, r: Reply)
    requires RoundTrips(lib) && Invoke(m, w, call) == (w', r)
    ensures Invoke(OneHost(lib, ports, m), w, call) ==
              if Encodable(lib, call) then (w', Transmit(lib, call, r)) else (w, Failed(MARSHAL_ERROR))
  {
    RemoteCall(lib, ports["memory" := Serve(lib, m)], m, w, call, Delivered);
  }

  /** n hosts perform the call once, and pass its reply through n hops. */
  lemma {:induction false} CallBehind(lib: Library, ports: map<string, Skeleton>, m: Memory, n: nat, w: World,
                                      call: Call)
    requires RoundTrips(lib) && n >= 1
    ensures Invoke(Behind(lib, ports, m, n), w, call) ==
              if Encodable(lib, call) then (Invoke(m, w, call).0, Hops(lib, call, Invoke(m, w, call).1, n))
              else (w, Failed(MARSHAL_ERROR))
    decreases n
  {
    if n > 1 { CallBehind(lib, ports, m, n - 1, w, call); }
    var answer := Invoke(Behind(lib, ports, m, n - 1), w, call);
    CallOfOneHost(lib, ports, Behind(lib, ports, m, n - 1), w, call, answer.0, answer.1);
  }

  /** A reply that more hosts do not change: an error without a text is no result of a call
      that has one, and no budget error that travels is without a text. */
  predicate Passes(lib: Library, call: Call, r: Reply) {
    r.Failed? ==>
      if Text(lib, r.error) == "" then !call.Recall? && !call.Search? else Text(lib, WireImage(lib, r.error)) != ""
  }

  lemma {:induction false} StableStays(lib: Library, call: Call, r: Reply, n: nat)
    requires Transmit(lib, call, r) == r
    ensures Hops(lib, call, r, n) == r
  {
    if n > 0 { StableStays(lib, call, r, n - 1); }
  }

  lemma {:induction false} HopsAdd(lib: Library, call: Call, r: Reply, m: nat, n: nat)
    ensures Hops(lib, call, Hops(lib, call, r, m), n) == Hops(lib, call, r, m + n)
  {
    if n > 0 { HopsAdd(lib, call, r, m, n - 1); }
  }

  /** One hop settles a reply exactly when it passes; otherwise the second hop changes it, for
      good. */
  lemma FewHopsSettle(lib: Library, call: Call, r: Reply)
    requires Answers(call, r)
    ensures Passes(lib, call, r) <==> Hops(lib, call, r, 2) == Hops(lib, call, r, 1)
    ensures Passes(lib, call, r) <==>
              Carries(lib, Hops(lib, call, r, 1)) && Image(lib, Hops(lib, call, r, 1)) == Hops(lib, call, r, 1)
    ensures Hops(lib, call, r, 4) == Hops(lib, call, r, 3)
    ensures !Passes(lib, call, r) ==> Hops(lib, call, r, 3) != Hops(lib, call, r, 1)
  {}

  /** Two or more hosts give the reply that one gives if and only if it passes. */
  lemma ReplyBehind(lib: Library, call: Call, r: Reply, n: nat)
    requires Answers(call, r) && n >= 2
    ensures Hops(lib, call, r, n) == Hops(lib, call, r, 1) <==> Passes(lib, call, r)
  {
    FewHopsSettle(lib, call, r);
    if Passes(lib, call, r) {
      StableStays(lib, call, Hops(lib, call, r, 1), n - 1);
      HopsAdd(lib, call, r, 1, n - 1);
    } else if n >= 3 {
      StableStays(lib, call, Hops(lib, call, r, 3), n - 3);
      HopsAdd(lib, call, r, 3, n - 3);
    }
  }

  /** What the memory replied to each call of a session, None for a call that was not sent. */
  function RealReplies(lib: Library, m: Memory, w: World, calls: seq<Call>): (replies: seq<Option<Reply>>)
    ensures |replies| == |calls|
  {
    if calls == [] then []
    else if Encodable(lib, calls[0])
    then [Some(Invoke(m, w, calls[0]).1)] + RealReplies(lib, m, Invoke(m, w, calls[0]).0, calls[1..])
    else [None] + RealReplies(lib, m, w, calls[1..])
  }

  ghost predicate AllPass(lib: Library, m: Memory, w: World, calls: seq<Call>) {
    var replies := RealReplies(lib, m, w, calls);
    forall i :: 0 <= i < |calls| && replies[i].Some? ==> Passes(lib, calls[i], replies[i].value)
  }

  lemma AllPassSplits(lib: Library, m: Memory, w: World, calls: seq<Call>)
    requires calls != []
    ensures AllPass(lib, m, w, calls) <==>
              if Encodable(lib, calls[0])
              then
                && Passes(lib, calls[0], Invoke(m, w, calls[0]).1)
                && AllPass(lib, m, Invoke(m, w, calls[0]).0, calls[1..])
              else AllPass(lib, m, w, calls[1..])
  {
    var rest := RealReplies(lib, m, if Encodable(lib, calls[0]) then Invoke(m, w, calls[0]).0 else w, calls[1..]);
    assert RealReplies(lib, m, w, calls)[1..] == rest;
    assert forall i :: 0 < i < |calls| ==>
        calls[i] == calls[1..][i - 1] && RealReplies(lib, m, w, calls)[i] == rest[i - 1];
    assert forall i :: 0 <= i < |calls| - 1 ==>
        calls[1..][i] == calls[i + 1] && rest[i] == RealReplies(lib, m, w, calls)[i + 1];
  }

  /** In every session, two or more hosts in a row leave the world that one leaves. They give
      the replies that one gives if and only if every reply of the real memory passes. */
  lemma {:induction false} HostsAreTransparent(lib: Library, ports: map<string, Skeleton>, m: Memory, n: nat,
                                               w: World, calls: seq<Call>)
    requires RoundTrips(lib) && n >= 2
    ensures var one, many := Session(Behind(lib, ports, m, 1), w, calls), Session(Behind(lib, ports, m, n), w, calls);
            many.0 == one.0 && (many.1 == one.1 <==> AllPass(lib, m, w, calls))
    decreases |calls|
  {
    if calls != [] {
      var call := calls[0];
      CallBehind(lib, ports, m, 1, w, call);
      CallBehind(lib, ports, m, n, w, call);
      ReplyBehind(lib, call, Invoke(m, w, call).1, n);
      var w' := Invoke(Behind(lib, ports, m, 1), w, call).0;
      HostsAreTransparent(lib, ports, m, n, w', calls[1..]);
      AllPassSplits(lib, m, w, calls);
      HeadAndRest(Invoke(Behind(lib, ports, m, 1), w, call).1, Session(Behind(lib, ports, m, 1), w', calls[1..]).1,
                  Invoke(Behind(lib, ports, m, n), w, call).1, Session(Behind(lib, ports, m, n), w', calls[1..]).1);
    }
  }

  lemma HeadAndRest<T>(a: T, s: seq<T>, b: T, t: seq<T>)
    ensures [a] + s == [b] + t <==> a == b && s == t
  {
    assert ([a] + s)[0] == a && ([a] + s)[1..] == s && ([b] + t)[0] == b && ([b] + t)[1..] == t;
  }
}
