/** The generic Plugin service and the router in front of its skeletons: plugin_router.go,
    proto/transport.proto. */
module PluginRouter {
  import opened Common
  import opened Contracts
  import opened WireError

  /** The state of every real object a plugin process serves. */
  type World(==, !new)

  datatype MethodEnvelope = MethodEnvelope(port: string, name: string, payload: Payload)

  datatype ResultEnvelope = ResultEnvelope(payload: Payload, error: string)

  /** A registered pb.PluginServer. */
  type Skeleton = (World, MethodEnvelope) -> (World, ResultEnvelope)

  datatype PortRegistered = PortRegistered(port: string)

  /** An in-band error. */
  function Fail(lib: Library, e: Error): ResultEnvelope {
    ResultEnvelope(EncodeWireError(lib, e), Text(lib, e))
  }

  function Route(lib: Library, ports: map<string, Skeleton>, w: World, env: MethodEnvelope): (World, ResultEnvelope) {
    if env.port in ports then ports[env.port](w, env) else (w, Fail(lib, UnknownPortError(env.port)))
  }

  /** The error of a call on a port that nothing serves: it names the port and changes nothing. */
  predicate AnswersUnknownPort(w: World, port: string, w': World, result: ResultEnvelope) {
    w' == w && result == ResultEnvelope(None, "transport: unknown port \"" + port + "\"")
  }

  /** A skeleton gets exactly the calls on its own port, whatever else is served. */
  lemma RouteGoesByPort(lib: Library, ports: map<string, Skeleton>, port: string, skeleton: Skeleton, w: World,
                        env: MethodEnvelope)
    ensures env.port == port ==> Route(lib, ports[port := skeleton], w, env) == skeleton(w, env)
    ensures env.port != port ==> Route(lib, ports[port := skeleton], w, env) == Route(lib, ports, w, env)
    ensures env.port !in ports ==>
              AnswersUnknownPort(w, env.port, Route(lib, ports, w, env).0, Route(lib, ports, w, env).1)
  {}

  class Router {
    var ports: map<string, Skeleton>

    constructor ()
      ensures ports == map[]
    {
      ports := map[];
    }

    /** A port keeps its first skeleton. A new one gets the calls on its port, and calls on other
        ports are answered as before. */
    method Add(port: string, skeleton: Skeleton) returns (error: Option<PortRegistered>)
      modifies this
      ensures error == if port in old(ports) then Some(PortRegistered(port)) else None
      ensures error.None? ==> ports == old(ports)[port := skeleton]
      ensures error.Some? ==> ports == old(ports)
      ensures forall lib, w, env: MethodEnvelope :: env.port != port || error.Some? ==>
                Route(lib, ports, w, env) == Route(lib, old(ports), w, env)
      ensures error.None? ==> forall lib, w, env: MethodEnvelope :: env.port == port ==>
                Route(lib, ports, w, env) == skeleton(w, env)
    {
      if port in ports { return Some(PortRegistered(port)); }
      ports := ports[port := skeleton];
      return None;
    }

    /** The call goes to the skeleton of its port, and to no other. */
    method Call(lib: Library, w: World, env: MethodEnvelope) returns (w': World, result: ResultEnvelope)
      ensures (w', result) == Route(lib, ports, w, env)
      ensures env.port in ports ==> (w', result) == ports[env.port](w, env)
      ensures env.port !in ports ==> AnswersUnknownPort(w, env.port, w', result)
    {
      if env.port !in ports {
        return w, Fail(lib, UnknownPortError(env.port));
      }
      var skeleton := ports[env.port];
      var answer := skeleton(w, env);
      return answer.0, answer.1;
    }
  }
}
