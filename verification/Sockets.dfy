/**
  The sockets of the proxy engine, as far as this repository uses them.  The
  engine itself is not visible: whether a step succeeds, and what a started
  socket balances over, are parameters.
 */
module Sockets {
  import opened Wrappers
  import opened ConfigTypes

  /**
    accepts: SetConfigValues stores the value and returns true, or leaves the
    socket and returns false.  The others are asked once per socket started,
    by its position in the startup order; initial is what the engine put into
    the balancer by the time Start returned.
   */
  datatype Engine = Engine(accepts: TargetConfig -> bool, setPipeline: nat -> bool, setHandler: nat -> bool,
                           start: nat -> bool, initial: nat -> seq<ResolvedService>)

  /** What can be seen of a live socket; history is every server list a picker could have met, oldest first. */
  datatype SocketView = SocketView(port: int, config: Option<TargetConfig>, servers: seq<ResolvedService>,
                                   history: seq<seq<ResolvedService>>)

  class ProxySocket {
    const port: int
    var config: Option<TargetConfig>
    // The list of the socket's own load balancer; every operation on it is atomic for a picker.
    var servers: seq<ResolvedService>
    var history: seq<seq<ResolvedService>>
    var deleted: bool

    constructor (port: int)
      ensures this.port == port && !deleted
      ensures View() == SocketView(port, None, [], [[]])
    {
      this.port := port;
      config, servers, history, deleted := None, [], [[]], false;
    }

    function View(): SocketView
      reads this
    {
      SocketView(port, config, servers, history)
    }

    method SetConfigValues(value: TargetConfig, engine: Engine) returns (ok: bool)
      requires !deleted
      modifies this`config
      ensures ok == engine.accepts(value)
      ensures config == if ok then Some(value) else old(config)
    {
      ok := engine.accepts(value);
      if ok {
        config := Some(value);
      }
    }

    method RemoveAllServers()
      requires !deleted
      modifies this`servers, this`history
      ensures servers == [] && history == old(history) + [[]]
    {
      servers := [];
      history := history + [servers];
    }

    method AddServer(service: ResolvedService)
      requires !deleted
      modifies this`servers, this`history
      ensures servers == old(servers) + [service] && history == old(history) + [servers]
    {
      servers := servers + [service];
      history := history + [servers];
    }

    method Start(i: nat, engine: Engine) returns (ok: bool)
      requires !deleted
      modifies this`servers, this`history
      ensures ok == engine.start(i)
      ensures servers == engine.initial(i) && history == old(history) + [servers]
    {
      ok := engine.start(i);
      servers := engine.initial(i);
      history := history + [servers];
    }

    /** delete: the object must be unreachable for every later use. */
    method Delete()
      requires !deleted
      modifies this`deleted
      ensures deleted
    {
      deleted := true;
    }
  }
}
