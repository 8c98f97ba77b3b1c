/** A memory on the far side of the wire: memory_proxy.go and memory_skeleton.go. */
module RemoteMemory {
  import opened Common
  import opened Contracts
  import opened Codec
  import opened WireError
  import opened PluginRouter

  /** contracts.Memory: five deterministic operations over the world. */
  datatype Memory = Memory(
    recall: (World, string, Int64) -> (World, Result<Subgraph, Error>),
    record: (World, Node) -> (World, Option<Error>),
    search: (World, Query) -> (World, Result<Option<seq<Node>>, Error>),
    links: (World, string, string, string) -> (World, Option<Error>),
    unlink: (World, string, string) -> (World, Option<Error>))

  /** One call of a memory and what it returned. */
  datatype Call =
    | Recall(key: string, depth: Int64)
    | Record(node: Node)
    | Search(query: Query)
    | Links(from: string, to: string, rel: string)
    | Unlink(from: string, to: string)

  datatype Reply = Sub(sub: Subgraph) | Nodes(nodes: Option<seq<Node>>) | Done | Failed(error: Error)

  function Invoke(m: Memory, w: World, call: Call): (World, Reply) {
    match call
    case Recall(key, depth) =>
      var (w', r) := m.recall(w, key, depth);
      (w', match r case Ok(sub) => Sub(sub) case Err(e) => Failed(e))
    case Record(node) => var (w', r) := m.record(w, node); (w', Finished(r))
    case Search(query) =>
      var (w', r) := m.search(w, query);
      (w', match r case Ok(nodes) => Nodes(nodes) case Err(e) => Failed(e))
    case Links(from, to, rel) => var (w', r) := m.links(w, from, to, rel); (w', Finished(r))
    case Unlink(from, to) => var (w', r) := m.unlink(w, from, to); (w', Finished(r))
  }

  function Finished(r: Option<Error>): Reply {
    if r.Some? then Failed(r.value) else Done
  }

  // ---- the skeleton ----------------------------------------------------------

  function Serve(lib: Library, impl: Memory): Skeleton {
    (w: World, env: MethodEnvelope) => Dispatch(lib, impl, w, env)
  }

  function Dispatch(lib: Library, impl: Memory, w: World, env: MethodEnvelope): (World, ResultEnvelope) {
    if env.port != "memory" then (w, Fail(lib, UnknownPortError(env.port)))
    else if env.name == "Recall" then ServeRecall(lib, impl, w, env)
    else if env.name == "Record" then ServeRecord(lib, impl, w, env)
    else if env.name == "Search" then ServeSearch(lib, impl, w, env)
    else if env.name == "Links" then ServeLinks(lib, impl, w, env)
    else if env.name == "Unlink" then ServeUnlink(lib, impl, w, env)
    else (w, Fail(lib, UnknownMethodError("memory", env.name)))
  }

  function Answer(lib: Library, v: Value): ResultEnvelope {
    var out := EncodeArgs(lib, [v]);
    if out.None? then Fail(lib, MARSHAL_ERROR) else ResultEnvelope(out, "")
  }

  function Acknowledge(lib: Library, r: Option<Error>): ResultEnvelope {
    if r.Some? then Fail(lib, r.value) else ResultEnvelope(None, "")
  }

  function ServeRecall(lib: Library, impl: Memory, w: World, env: MethodEnvelope): (World, ResultEnvelope) {
    match DecodeArgs(lib, env.payload, [VString(""), VInt(0)])
    case Err(e) => (w, Fail(lib, ArgsFailure(e)))
    case Ok(args) =>
      var (w', r) := impl.recall(w, args[0].s, args[1].n);
      (w', match r case Err(e) => Fail(lib, e) case Ok(sub) => Answer(lib, VSubgraph(sub)))
  }

  function ServeRecord(lib: Library, impl: Memory, w: World, env: MethodEnvelope): (World, ResultEnvelope) {
    match DecodeArgs(lib, env.payload, [VNode(lib.zeroNode)])
    case Err(e) => (w, Fail(lib, ArgsFailure(e)))
    case Ok(args) =>
      var (w', r) := impl.record(w, args[0].node); (w', Acknowledge(lib, r))
  }

  function ServeSearch(lib: Library, impl: Memory, w: World, env: MethodEnvelope): (World, ResultEnvelope) {
    match DecodeArgs(lib, env.payload, [VQuery(lib.zeroQuery)])
    case Err(e) => (w, Fail(lib, ArgsFailure(e)))
    case Ok(args) =>
      var (w', r) := impl.search(w, args[0].query);
      (w', match r case Err(e) => Fail(lib, e) case Ok(nodes) => Answer(lib, VNodes(nodes)))
  }

  function ServeLinks(lib: Library, impl: Memory, w: World, env: MethodEnvelope): (World, ResultEnvelope) {
    match DecodeArgs(lib, env.payload, [VString(""), VString(""), VString("")])
    case Err(e) => (w, Fail(lib, ArgsFailure(e)))
    case Ok(args) =>
      var (w', r) := impl.links(w, args[0].s, args[1].s, args[2].s); (w', Acknowledge(lib, r))
  }

  function ServeUnlink(lib: Library, impl: Memory, w: World, env: MethodEnvelope): (World, ResultEnvelope) {
    match DecodeArgs(lib, env.payload, [VString(""), VString("")])
    case Err(e) => (w, Fail(lib, ArgsFailure(e)))
    case Ok(args) =>
      var (w', r) := impl.unlink(w, args[0].s, args[1].s); (w', Acknowledge(lib, r))
  }

  // ---- the proxy -------------------------------------------------------------

  /** One unary call over an established client connection. */
  type Connection = (World, MethodEnvelope) -> (World, Result<ResultEnvelope, Error>)

  function ProxyCall(lib: Library, conn: Connection, w: World, name: string, args: seq<Value>)
    : (World, Result<ResultEnvelope, Error>)
  {
    var payload := EncodeArgs(lib, args);
    if payload.None? then (w, Err(MARSHAL_ERROR))
    else
      var (w', r) := conn(w, MethodEnvelope("memory", name, payload));
      match r
      case Err(e) => (w', Err(e))
      case Ok(res) =>
        if res.error != "" then (w', Err(DecodeWireError(lib, res.payload, res.error))) else (w', Ok(res))
  }

  function ProxyRecall(lib: Library, conn: Connection, w: World, key: string, depth: Int64)
    : (World, Result<Subgraph, Error>)
  {
    var (w', r) := ProxyCall(lib, conn, w, "Recall", [VString(key), VInt(depth)]);
    match r
    case Err(e) => (w', Err(e))
    case Ok(res) =>
      match DecodeArgs(lib, res.payload, [VSubgraph(lib.zeroSubgraph)])
      case Err(e) => (w', Err(ArgsFailure(e)))
      case Ok(out) => (w', Ok(out[0].sub))
  }

  function ProxySearch(lib: Library, conn: Connection, w: World, query: Query)
    : (World, Result<Option<seq<Node>>, Error>)
  {
    var (w', r) := ProxyCall(lib, conn, w, "Search", [VQuery(query)]);
    match r
    case Err(e) => (w', Err(e))
    case Ok(res) =>
      match DecodeArgs(lib, res.payload, [VNodes(None)])
      case Err(e) => (w', Err(ArgsFailure(e)))
      case Ok(out) => (w', Ok(out[0].nodes))
  }

  /** Record, Links and Unlink drop the result and keep the error. */
  function ProxyTell(lib: Library, conn: Connection, w: World, name: string, args: seq<Value>): (World, Option<Error>) {
    var (w', r) := ProxyCall(lib, conn, w, name, args);
    (w', match r case Err(e) => Some(e) case Ok(_) => None)
  }

  /** A MemoryProxy is a memory itself. */
  function MemoryProxy(lib: Library, conn: Connection): Memory {
    Memory(
      (w: World, key: string, depth: Int64) => ProxyRecall(lib, conn, w, key, depth),
      (w: World, node: Node) => ProxyTell(lib, conn, w, "Record", [VNode(node)]),
      (w: World, query: Query) => ProxySearch(lib, conn, w, query),
      (w: World, from: string, to: string, rel: string) =>
        ProxyTell(lib, conn, w, "Links", [VString(from), VString(to), VString(rel)]),
      (w: World, from: string, to: string) => ProxyTell(lib, conn, w, "Unlink", [VString(from), VString(to)]))
  }

  /** What happens to one message on the connection. */
  datatype Delivery = Delivered | RequestLost(down: Error) | ReplyLost(down: Error)

  function Dial(lib: Library, ports: map<string, Skeleton>, d: Delivery): Connection {
    (w: World, env: MethodEnvelope) =>
      match d
      case Delivered => var (w', res) := Route(lib, ports, w, env); (w', Ok(res))
      case RequestLost(down) => (w, Err(down))
      case ReplyLost(down) => (Route(lib, ports, w, env).0, Err(down))
  }

  // ---- one call --------------------------------------------------------------

  function Args(call: Call): seq<Value> {
    match call
    case Recall(key, depth) => [VString(key), VInt(depth)]
    case Record(node) => [VNode(node)]
    case Search(query) => [VQuery(query)]
    case Links(from, to, rel) => [VString(from), VString(to), VString(rel)]
    case Unlink(from, to) => [VString(from), VString(to)]
  }

  function MethodName(call: Call): string {
    match call
    case Recall(_, _) => "Recall"
    case Record(_) => "Record"
    case Search(_) => "Search"
    case Links(_, _, _) => "Links"
    case Unlink(_, _) => "Unlink"
  }

  /** The arguments have a JSON encoding. */
  predicate Encodable(lib: Library, call: Call) {
    EncodeArgs(lib, Args(call)).Some?
  }

  /** The memory port of a router serves impl. */
  ghost predicate Serves(lib: Library, ports: map<string, Skeleton>, impl: Memory) {
    "memory" in ports && ports["memory"] == Serve(lib, impl)
  }

  /** A reply that survives the wire: a result with an encoding, or an error with a text. */
  predicate Carries(lib: Library, r: Reply) {
    match r
    case Sub(sub) => EncodeArgs(lib, [VSubgraph(sub)]).Some?
    case Nodes(nodes) => EncodeArgs(lib, [VNodes(nodes)]).Some?
    case Done => true
    case Failed(e) => Text(lib, e) != ""
  }

  /** The reply a local caller got, with its error mapped by the wire. */
  function Image(lib: Library, r: Reply): Reply {
    if r.Failed? then Failed(WireImage(lib, r.error)) else r
  }

  /** What the caller of a proxy sees when the real memory replied r. */
  function Transmit(lib: Library, call: Call, r: Reply): Reply {
    if Carries(lib, r) then Image(lib, r)
    else if r.Failed? then
      // The empty text reads as success; a call with a result then finds no result tuple.
      (if call.Recall? || call.Search? then Failed(ArgsFailure(NotATuple)) else Done)
    else Failed(Remote(Text(lib, MARSHAL_ERROR)))
  }

  /** The envelope the skeleton must answer with for the reply r. */
  function Envelope(lib: Library, r: Reply): ResultEnvelope {
    match r
    case Sub(sub) => Answer(lib, VSubgraph(sub))
    case Nodes(nodes) => Answer(lib, VNodes(nodes))
    case Done => ResultEnvelope(None, "")
    case Failed(e) => Fail(lib, e)
  }

  /** The request of a call. */
  function Request(lib: Library, call: Call): MethodEnvelope {
    MethodEnvelope("memory", MethodName(call), EncodeArgs(lib, Args(call)))
  }

  /** The destinations a method decodes its tuple into. */
  function Destinations(lib: Library, name: string): Option<seq<Value>> {
    if name == "Recall" then Some([VString(""), VInt(0)])
    else if name == "Record" then Some([VNode(lib.zeroNode)])
    else if name == "Search" then Some([VQuery(lib.zeroQuery)])
    else if name == "Links" then Some([VString(""), VString(""), VString("")])
    else if name == "Unlink" then Some([VString(""), VString("")])
    else None
  }

  /** The call an envelope stands for; None for another port or method and for a bad tuple. */
  function DecodeRequest(lib: Library, env: MethodEnvelope): Option<Call> {
    var dst := Destinations(lib, env.name);
    if env.port != "memory" || dst.None? || DecodeArgs(lib, env.payload, dst.value).Err? then None
    else
      var args := DecodeArgs(lib, env.payload, dst.value).value;
      Some(if env.name == "Recall" then Recall(args[0].s, args[1].n)
           else if env.name == "Record" then Record(args[0].node)
           else if env.name == "Search" then Search(args[0].query)
           else if env.name == "Links" then Links(args[0].s, args[1].s, args[2].s)
           else Unlink(args[0].s, args[1].s))
  }

  predicate IsMethod(name: string) {
    name == "Recall" || name == "Record" || name == "Search" || name == "Links" || name == "Unlink"
  }

  /** Which envelopes stand for a call, and for which: the method's name, and its arguments as a
      tuple in their order. A null argument is the zero value of its type. */
  lemma ReadRequestsMean(lib: Library, env: MethodEnvelope)
    ensures forall key, depth: Int64 :: DecodeRequest(lib, env) == Some(Recall(key, depth)) <==>
              && env.port == "memory" && env.name == "Recall"
              && IsTuple(lib, env.payload, [VString(""), VInt(0)], [VString(key), VInt(depth)])
    ensures forall query :: DecodeRequest(lib, env) == Some(Search(query)) <==>
              && env.port == "memory" && env.name == "Search"
              && IsTuple(lib, env.payload, [VQuery(lib.zeroQuery)], [VQuery(query)])
  {
    forall call ensures DecodeRequest(lib, env) == Some(call) <==> StandsFor(lib, env, call) {
      RequestMeans(lib, env, call);
    }
  }

  lemma WriteRequestsMean(lib: Library, env: MethodEnvelope)
    ensures forall node :: DecodeRequest(lib, env) == Some(Record(node)) <==>
              && env.port == "memory" && env.name == "Record"
              && IsTuple(lib, env.payload, [VNode(lib.zeroNode)], [VNode(node)])
    ensures forall from, to :: DecodeRequest(lib, env) == Some(Unlink(from, to)) <==>
              && env.port == "memory" && env.name == "Unlink"
              && IsTuple(lib, env.payload, [VString(""), VString("")], [VString(from), VString(to)])
  {
    forall call ensures DecodeRequest(lib, env) == Some(call) <==> StandsFor(lib, env, call) {
      RequestMeans(lib, env, call);
    }
  }

  lemma LinksRequestsMean(lib: Library, env: MethodEnvelope, from: string, to: string, rel: string)
    ensures DecodeRequest(lib, env) == Some(Links(from, to, rel)) <==>
              && env.port == "memory" && env.name == "Links"
              && IsTuple(lib, env.payload, [VString(""), VString(""), VString("")],
                         [VString(from), VString(to), VString(rel)])
  {
    RequestMeans(lib, env, Links(from, to, rel));
  }

  /** The zero values of the arguments of a call. */
  function Zeros(lib: Library, call: Call): seq<Value> {
    match call
    case Recall(_, _) => [VString(""), VInt(0)]
    case Record(_) => [VNode(lib.zeroNode)]
    case Search(_) => [VQuery(lib.zeroQuery)]
    case Links(_, _, _) => [VString(""), VString(""), VString("")]
    case Unlink(_, _) => [VString(""), VString("")]
  }

  ghost predicate StandsFor(lib: Library, env: MethodEnvelope, call: Call) {
    env.port == "memory" && env.name == MethodName(call) && IsTuple(lib, env.payload, Zeros(lib, call), Args(call))
  }

  lemma RequestMeans(lib: Library, env: MethodEnvelope, call: Call)
    ensures DecodeRequest(lib, env) == Some(call) <==> StandsFor(lib, env, call)
  {
    DecodeArgsMeans(lib, env.payload, Zeros(lib, call), Args(call));
    if DecodeRequest(lib, env) == Some(call) { DecodedRequestStandsFor(lib, env, call); }
    if StandsFor(lib, env, call) { RequestStandsDecoded(lib, env, call); }
  }

  lemma RequestStandsDecoded(lib: Library, env: MethodEnvelope, call: Call)
    requires env.port == "memory" && env.name == MethodName(call)
    requires DecodeArgs(lib, env.payload, Zeros(lib, call)) == Ok(Args(call))
    ensures DecodeRequest(lib, env) == Some(call)
  {}

  lemma DecodedRequestStandsFor(lib: Library, env: MethodEnvelope, call: Call)
    requires DecodeRequest(lib, env) == Some(call)
    ensures env.port == "memory" && env.name == MethodName(call)
    ensures DecodeArgs(lib, env.payload, Zeros(lib, call)) == Ok(Args(call))
  {
    assert DecodeArgs(lib, env.payload, Zeros(lib, call)).value == Args(call);
  }

  /** Every other envelope is refused, without effect, and the answer names the port, the method
      or the reason why the tuple does not decode. */
  lemma RefusalsMean(lib: Library, impl: Memory, w: World, env: MethodEnvelope)
    ensures env.port != "memory" ==>
              Dispatch(lib, impl, w, env) == (w, ResultEnvelope(None, "transport: unknown port \"" + env.port + "\""))
    ensures env.port == "memory" && !IsMethod(env.name) ==>
              Dispatch(lib, impl, w, env) == (w, ResultEnvelope(None, "transport: unknown method memory." + env.name))
    ensures env.port == "memory" && IsMethod(env.name) && DecodeRequest(lib, env).None? ==>
              var r := DecodeArgs(lib, env.payload, Destinations(lib, env.name).value);
              r.Err? && Dispatch(lib, impl, w, env) == (w, ResultEnvelope(None, Text(lib, ArgsFailure(r.error))))
  {
    if env.port == "memory" {
      if !IsMethod(env.name) {
        TextOfUnknownMethod(lib, env.name);
      } else if DecodeRequest(lib, env).None? {
        BadTupleIsRefused(lib, impl, w, env);
      }
    }
  }

  lemma BadTupleIsRefused(lib: Library, impl: Memory, w: World, env: MethodEnvelope)
    requires env.port == "memory" && IsMethod(env.name) && DecodeRequest(lib, env).None?
    ensures var r := DecodeArgs(lib, env.payload, Destinations(lib, env.name).value);
            r.Err? && Dispatch(lib, impl, w, env) == (w, ResultEnvelope(None, Text(lib, ArgsFailure(r.error))))
  {
    var r := DecodeArgs(lib, env.payload, Destinations(lib, env.name).value);
    assert r.Err?;
    FailOfArgs(lib, r.error);
  }

  lemma FailOfArgs(lib: Library, e: ArgsError)
    ensures Fail(lib, ArgsFailure(e)) == ResultEnvelope(None, Text(lib, ArgsFailure(e)))
  {
    match e
    case NotATuple => assert FindBudget(Leaf("json: not an array")).None?;
    case ArgCount(_, _) =>
    case BadArg(_) => assert FindBudget(Leaf("json: bad value")).None?;
  }

  lemma TextOfUnknownMethod(lib: Library, name: string)
    ensures Fail(lib, UnknownMethodError("memory", name))
         == ResultEnvelope(None, "transport: unknown method memory." + name)
  {
    assert "transport: unknown method " + "memory" + "." + name == "transport: unknown method memory." + name;
  }

  /** Every envelope is either one call of the real memory, answered with its reply, or it has
      no effect and is answered with an error. */
  lemma DispatchMeans(lib: Library, impl: Memory, w: World, env: MethodEnvelope)
    ensures match DecodeRequest(lib, env)
            case Some(call) =>
              Dispatch(lib, impl, w, env) == (Invoke(impl, w, call).0, Envelope(lib, Invoke(impl, w, call).1))
            case None => Dispatch(lib, impl, w, env).0 == w && Dispatch(lib, impl, w, env).1.error != ""
  {
    if DecodeRequest(lib, env).None? { RefusedHasNoEffect(lib, impl, w, env); }
  }

  lemma RefusedHasNoEffect(lib: Library, impl: Memory, w: World, env: MethodEnvelope)
    requires DecodeRequest(lib, env).None?
    ensures Dispatch(lib, impl, w, env).0 == w && Dispatch(lib, impl, w, env).1.error != ""
  {}

  /** The skeleton decodes the very call the proxy encoded. */
  lemma RequestDecodes(lib: Library, call: Call)
    requires RoundTrips(lib) && Encodable(lib, call)
    ensures DecodeRequest(lib, Request(lib, call)) == Some(call)
  {
    ArgsRoundTrip(lib, Args(call), Destinations(lib, MethodName(call)).value);
  }

  /** The skeleton hands the real memory the very call the proxy encoded. */
  lemma SkeletonReplays(lib: Library, impl: Memory, w: World, call: Call)
    requires RoundTrips(lib) && Encodable(lib, call)
    ensures Dispatch(lib, impl, w, Request(lib, call))
         == (Invoke(impl, w, call).0, Envelope(lib, Invoke(impl, w, call).1))
  {
    RequestDecodes(lib, call);
    DispatchMeans(lib, impl, w, Request(lib, call));
  }

  /** The requests that travel, element by element. */
  lemma CallsOnTheWire(lib: Library, call: Call)
    ensures Request(lib, call) == match call
      case Recall(key, depth) => MethodEnvelope("memory", "Recall", Some(Arr([Str(key), Num(depth)])))
      case Record(node) => MethodEnvelope("memory", "Record", Single(lib.encNode(node)))
      case Search(query) => MethodEnvelope("memory", "Search", Single(lib.encQuery(query)))
      case Links(from, to, rel) => MethodEnvelope("memory", "Links", Some(Arr([Str(from), Str(to), Str(rel)])))
      case Unlink(from, to) => MethodEnvelope("memory", "Unlink", Some(Arr([Str(from), Str(to)])))
  {
    match call
    case Recall(key, depth) => MarshalTwo(lib, VString(key), VInt(depth));
    case Record(node) => MarshalOne(lib, VNode(node));
    case Search(query) => MarshalOne(lib, VQuery(query));
    case Links(from, to, rel) => MarshalThree(lib, VString(from), VString(to), VString(rel));
    case Unlink(from, to) => MarshalTwo(lib, VString(from), VString(to));
  }

  /** A tuple of one element, or no payload when it has no encoding. */
  function Single(j: Option<Json>): Payload {
    if j.Some? then Some(Arr([j.value])) else None
  }

  /** The answers that travel. */
  lemma RepliesOnTheWire(lib: Library, r: Reply)
    ensures Envelope(lib, Done) == ResultEnvelope(None, "")
    ensures forall sub, j :: r == Sub(sub) && lib.encSubgraph(sub) == Some(j) ==>
              Envelope(lib, r) == ResultEnvelope(Some(Arr([j])), "")
    ensures r == Nodes(None) ==> Envelope(lib, r) == ResultEnvelope(Some(Arr([Null])), "")
    ensures forall nodes, items :: r == Nodes(Some(nodes)) && MarshalNodes(lib, nodes) == Some(items) ==>
              Envelope(lib, r) == ResultEnvelope(Some(Arr([Arr(items)])), "")
    ensures forall e :: r == Failed(e) ==> Envelope(lib, r) == ResultEnvelope(EncodeWireError(lib, e), Text(lib, e))
    ensures !r.Failed? && !Carries(lib, r) ==> Envelope(lib, r) == ResultEnvelope(None, "json: unsupported value")
  {
    match r
    case Sub(sub) => MarshalOne(lib, VSubgraph(sub));
    case Nodes(nodes) => MarshalOne(lib, VNodes(nodes));
    case _ =>
  }

  lemma AnswerReads(lib: Library, v: Value, zero: Value)
    requires RoundTrips(lib) && SameType(v, zero) && EncodeArgs(lib, [v]).Some?
    ensures Answer(lib, v).error == ""
    ensures DecodeArgs(lib, Answer(lib, v).payload, [zero]) == Ok([v])
  {
    ArgsRoundTrip(lib, [v], [zero]);
  }

  /** What the proxy makes of the envelope, by method. */
  function Receive(lib: Library, call: Call, res: ResultEnvelope): Reply {
    if res.error != "" then Failed(DecodeWireError(lib, res.payload, res.error))
    else
      match call
      case Recall(_, _) =>
        (match DecodeArgs(lib, res.payload, [VSubgraph(lib.zeroSubgraph)])
         case Err(e) => Failed(ArgsFailure(e)) case Ok(out) => Sub(out[0].sub))
      case Search(_) =>
        (match DecodeArgs(lib, res.payload, [VNodes(None)])
         case Err(e) => Failed(ArgsFailure(e)) case Ok(out) => Nodes(out[0].nodes))
      case _ => Done
  }

  /** What the caller makes of an answer, whatever it holds: an error with a text is that error;
      a call with a result succeeds only on a tuple of one element that decodes, and fails with
      the reason otherwise; a call without a result asks no more. */
  lemma AnswersMean(lib: Library, call: Call, res: ResultEnvelope)
    ensures res.error != "" ==> Receive(lib, call, res) == Failed(DecodeWireError(lib, res.payload, res.error))
    ensures forall sub :: res.error == "" && call.Recall? ==>
              (Receive(lib, call, res) == Sub(sub) <==>
                  IsTuple(lib, res.payload, [VSubgraph(lib.zeroSubgraph)], [VSubgraph(sub)]))
    ensures forall nodes :: res.error == "" && call.Search? ==>
              (Receive(lib, call, res) == Nodes(nodes) <==> IsTuple(lib, res.payload, [VNodes(None)], [VNodes(nodes)]))
    ensures res.error == "" && call.Recall? ==>
              var r := DecodeArgs(lib, res.payload, [VSubgraph(lib.zeroSubgraph)]);
              r.Err? ==> Receive(lib, call, res) == Failed(ArgsFailure(r.error))
    ensures res.error == "" && call.Search? ==>
              var r := DecodeArgs(lib, res.payload, [VNodes(None)]);
              r.Err? ==> Receive(lib, call, res) == Failed(ArgsFailure(r.error))
    ensures res.error == "" && !call.Recall? && !call.Search? ==> Receive(lib, call, res) == Done
  {
    if res.error == "" && call.Recall? {
      forall sub ensures Receive(lib, call, res) == Sub(sub) <==>
          IsTuple(lib, res.payload, [VSubgraph(lib.zeroSubgraph)], [VSubgraph(sub)]) {
        OneResultMeans(lib, res.payload, VSubgraph(lib.zeroSubgraph), VSubgraph(sub));
      }
    } else if res.error == "" && call.Search? {
      forall nodes ensures Receive(lib, call, res) == Nodes(nodes) <==>
          IsTuple(lib, res.payload, [VNodes(None)], [VNodes(nodes)]) {
        OneResultMeans(lib, res.payload, VNodes(None), VNodes(nodes));
      }
    }
  }

  lemma OneResultMeans(lib: Library, payload: Payload, zero: Value, v: Value)
    ensures var r := DecodeArgs(lib, payload, [zero]); (r.Ok? && r.value[0] == v) <==>
        IsTuple(lib, payload, [zero], [v])
  {
    DecodeArgsMeans(lib, payload, [zero], [v]);
    var r := DecodeArgs(lib, payload, [zero]);
    if r.Ok? && r.value[0] == v { assert r.value == [v]; }
  }

  lemma ProxySendsAndReceives(lib: Library, conn: Connection, w: World, call: Call)
    ensures !Encodable(lib, call) ==> Invoke(MemoryProxy(lib, conn), w, call) == (w, Failed(MARSHAL_ERROR))
    ensures Encodable(lib, call) ==>
              var (w', r) := conn(w, Request(lib, call));
              Invoke(MemoryProxy(lib, conn), w, call)
                == (w', match r case Err(e) => Failed(e) case Ok(res) => Receive(lib, call, res))
  {}

  /** r is a reply the method of call can give. */
  predicate Answers(call: Call, r: Reply) {
    match r
    case Sub(_) => call.Recall?
    case Nodes(_) => call.Search?
    case Done => !call.Recall? && !call.Search?
    case Failed(_) => true
  }

  lemma EnvelopeReads(lib: Library, call: Call, r: Reply)
    requires RoundTrips(lib) && Answers(call, r)
    ensures Receive(lib, call, Envelope(lib, r)) == Transmit(lib, call, r)
  {
    match r
    case Sub(sub) =>
      if Carries(lib, r) { AnswerReads(lib, VSubgraph(sub), VSubgraph(lib.zeroSubgraph)); }
      ErrorCrossesWire(lib, MARSHAL_ERROR);
    case Nodes(nodes) =>
      if Carries(lib, r) { AnswerReads(lib, VNodes(nodes), VNodes(None)); }
      ErrorCrossesWire(lib, MARSHAL_ERROR);
    case Done =>
    case Failed(e) => ErrorCrossesWire(lib, e);
  }

  /** One remote call, on every input: the real memory performs exactly this call if the
      arguments can be encoded and the request arrives, and the caller sees the real reply
      through Transmit if the reply arrives too. */
  lemma RemoteCall(lib: Library, ports: map<string, Skeleton>, impl: Memory, w: World, call: Call, d: Delivery)
    requires RoundTrips(lib) && Serves(lib, ports, impl)
    ensures !Encodable(lib, call) ==>
        Invoke(MemoryProxy(lib, Dial(lib, ports, d)), w, call) == (w, Failed(MARSHAL_ERROR))
    ensures Encodable(lib, call) ==>
              Invoke(MemoryProxy(lib, Dial(lib, ports, d)), w, call) ==
                match d
                case Delivered => (Invoke(impl, w, call).0, Transmit(lib, call, Invoke(impl, w, call).1))
                case RequestLost(down) => (w, Failed(down))
                case ReplyLost(down) => (Invoke(impl, w, call).0, Failed(down))
  {
    ProxySendsAndReceives(lib, Dial(lib, ports, d), w, call);
    if Encodable(lib, call) {
      SkeletonReplays(lib, impl, w, call);
      EnvelopeReads(lib, call, Invoke(impl, w, call).1);
    }
  }

  /** The caller sees the real reply, errors mapped by the wire, if and only if the reply
      carries: in particular an error with an empty text is never seen as it is. */
  lemma TransmitIsFaithful(lib: Library, call: Call, r: Reply)
    requires Answers(call, r)
    ensures Transmit(lib, call, r) == Image(lib, r) <==> Carries(lib, r)
    ensures r.Failed? && Text(lib, r.error) == "" && !call.Recall? && !call.Search? ==> Transmit(lib, call, r) == Done
  {}

  /** Without a skeleton on the memory port every call fails with the router's text and
      changes nothing. */
  lemma UnservedPortFails(lib: Library, ports: map<string, Skeleton>, w: World, call: Call)
    requires RoundTrips(lib) && "memory" !in ports && Encodable(lib, call)
    ensures Invoke(MemoryProxy(lib, Dial(lib, ports, Delivered)), w, call)
         == (w, Failed(Remote(Text(lib, UnknownPortError("memory")))))
  {
    ProxySendsAndReceives(lib, Dial(lib, ports, Delivered), w, call);
    ErrorCrossesWire(lib, UnknownPortError("memory"));
  }

  // ---- sessions --------------------------------------------------------------

  /** A sequence of calls of one memory: the final world and the replies. */
  function Session(m: Memory, w: World, calls: seq<Call>): (World, seq<Reply>)
    ensures |Session(m, w, calls).1| == |calls|
  {
    if calls == [] then (w, [])
    else
      var (w', r) := Invoke(m, w, calls[0]);
      var (w'', rest) := Session(m, w', calls[1..]);
      (w'', [r] + rest)
  }

  lemma {:induction false} SessionAnswers(m: Memory, w: World, calls: seq<Call>, i: nat)
    requires i < |calls|
    ensures Answers(calls[i], Session(m, w, calls).1[i])
  {
    if i > 0 { SessionAnswers(m, Invoke(m, w, calls[0]).0, calls[1..], i - 1); }
  }

  /** The calls that leave the proxy: those whose arguments have an encoding. */
  function Sendable(lib: Library, calls: seq<Call>): seq<Call> {
    if calls == [] then []
    else if Encodable(lib, calls[0]) then [calls[0]] + Sendable(lib, calls[1..])
    else Sendable(lib, calls[1..])
  }

  /** The world after a remote session is that after a local session of the calls that were sent. */
  lemma {:induction false} RemoteWorld(lib: Library, ports: map<string, Skeleton>, impl: Memory, w: World,
                                       calls: seq<Call>)
    requires RoundTrips(lib) && Serves(lib, ports, impl)
    ensures Session(MemoryProxy(lib, Dial(lib, ports, Delivered)), w, calls).0
         == Session(impl, w, Sendable(lib, calls)).0
  {
    if calls != [] {
      RemoteCall(lib, ports, impl, w, calls[0], Delivered);
      var sent := Sendable(lib, calls[1..]);
      assert ([calls[0]] + sent)[1..] == sent;
      RemoteWorld(lib, ports, impl, Invoke(MemoryProxy(lib, Dial(lib, ports, Delivered)), w, calls[0]).0, calls[1..]);
    }
  }

  lemma {:induction false} UnsentFails(lib: Library, conn: Connection, w: World, calls: seq<Call>, i: nat)
    requires i < |calls| && !Encodable(lib, calls[i])
    ensures Session(MemoryProxy(lib, conn), w, calls).1[i] == Failed(MARSHAL_ERROR)
  {
    var proxy := MemoryProxy(lib, conn);
    if i == 0 {
      ProxySendsAndReceives(lib, conn, w, calls[0]);
    } else {
      UnsentFails(lib, conn, Invoke(proxy, w, calls[0]).0, calls[1..], i - 1);
    }
  }

  lemma {:induction false} SentReplies(lib: Library, ports: map<string, Skeleton>, impl: Memory, w: World,
                                       calls: seq<Call>)
    requires RoundTrips(lib) && Serves(lib, ports, impl)
    requires forall i :: 0 <= i < |calls| ==> Encodable(lib, calls[i])
    ensures var (wLocal, local) := Session(impl, w, calls);
            var (wRemote, remote) := Session(MemoryProxy(lib, Dial(lib, ports, Delivered)), w, calls);
            wRemote == wLocal && forall i :: 0 <= i < |calls| ==> remote[i] == Transmit(lib, calls[i], local[i])
  {
    if calls != [] {
      RemoteCall(lib, ports, impl, w, calls[0], Delivered);
      SentReplies(lib, ports, impl, Invoke(impl, w, calls[0]).0, calls[1..]);
    }
  }

  /** Over a reliable connection a remote memory does to the world what the local one does with
      the calls that were sent. It is indistinguishable from the local one, up to the wire image
      of errors, if and only if all arguments have an encoding and all replies carry. */
  lemma RemoteIsLocal(lib: Library, ports: map<string, Skeleton>, impl: Memory, w: World, calls: seq<Call>)
    requires RoundTrips(lib) && Serves(lib, ports, impl)
    ensures var (wLocal, local) := Session(impl, w, calls);
            var (wRemote, remote) := Session(MemoryProxy(lib, Dial(lib, ports, Delivered)), w, calls);
            && wRemote == Session(impl, w, Sendable(lib, calls)).0
            && ((forall i :: 0 <= i < |calls| ==> Encodable(lib, calls[i])) ==>
                  wRemote == wLocal && forall i :: 0 <= i < |calls| ==> remote[i] == Transmit(lib, calls[i], local[i]))
            && ((forall i :: 0 <= i < |calls| ==> Encodable(lib, calls[i]) && Carries(lib, local[i]))
                  <==> (forall i :: 0 <= i < |calls| ==> remote[i] == Image(lib, local[i])))
  {
    var conn := Dial(lib, ports, Delivered);
    RemoteWorld(lib, ports, impl, w, calls);
    if i :| 0 <= i < |calls| && !Encodable(lib, calls[i]) {
      UnsentFails(lib, conn, w, calls, i);
    } else {
      SentReplies(lib, ports, impl, w, calls);
      RepliesCarry(lib, calls, Session(impl, w, calls).1, Session(MemoryProxy(lib, conn), w, calls).1, impl, w);
    }
  }

  lemma RepliesCarry(lib: Library, calls: seq<Call>, local: seq<Reply>, remote: seq<Reply>, impl: Memory, w: World)
    requires local == Session(impl, w, calls).1 && |remote| == |calls|
    requires forall i :: 0 <= i < |calls| ==> remote[i] == Transmit(lib, calls[i], local[i])
    ensures forall i :: 0 <= i < |calls| ==> (remote[i] == Image(lib, local[i]) <==> Carries(lib, local[i]))
  {
    forall i | 0 <= i < |calls| ensures remote[i] == Image(lib, local[i]) <==> Carries(lib, local[i]) {
      SessionAnswers(impl, w, calls, i);
      TransmitIsFaithful(lib, calls[i], local[i]);
    }
  }
}
