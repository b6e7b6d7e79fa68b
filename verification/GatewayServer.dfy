/** Startup of the gateway endpoints (src/api_gateway_server.h, initApiGatewayServers). */
module GatewayServer {
  import opened Wrappers
  import opened Xml
  import opened ConfigTypes
  import opened PipelineFactory
  import opened RoutingIndex
  import GatewayParser

  datatype Engine = Engine(setPipeline: nat -> bool, start: nat -> bool)

  class GatewaySocket {
    const port: int
    var routes: HostMap
    var deleted: bool

    constructor (port: int)
      ensures this.port == port && routes == map[] && !deleted
    {
      this.port := port;
      routes, deleted := map[], false;
    }

    function View(): GatewayView
      reads this
    {
      GatewayView(port, routes)
    }

    method SetApiGatewayConfig(hostMap: HostMap)
      requires !deleted
      modifies this`routes
      ensures routes == hostMap
    {
      routes := hostMap;
    }

    method Delete()
      requires !deleted
      modifies this`deleted
      ensures deleted
    {
      deleted := true;
    }
  }

  function StartCode(i: nat, engine: Engine): int {
    if !engine.setPipeline(i) then -2 else if !engine.start(i) then -3 else 0
  }

  lemma StartCodeExactly(i: nat, engine: Engine)
    ensures StartCode(i, engine) == 0 <==> engine.setPipeline(i) && engine.start(i)
    ensures StartCode(i, engine) == -3 <==> engine.setPipeline(i) && !engine.start(i)
    ensures StartCode(i, engine) == -2 <==> !engine.setPipeline(i)
  {
  }

  method StartGatewayServer(endPoint: GatewayEndPoint, socket: GatewaySocket, i: nat, engine: Engine)
    returns (code: int)
    requires !socket.deleted
    modifies socket
    ensures !socket.deleted && code == StartCode(i, engine)
    ensures code == 0 ==> socket.View() == GatewayView(socket.port, HostMapOf(endPoint))
  {
    if !engine.setPipeline(i) {
      return -2;
    }
    var hostMap := BuildHostMap(endPoint);
    socket.SetApiGatewayConfig(hostMap);
    if !engine.start(i) {
      return -3;
    }
    return 0;
  }

  datatype GatewayView = GatewayView(port: int, routes: HostMap)

  type Live = map<string, GatewayView>

  /** The port is taken as it is stored: nothing checks it. */
  function AfterStart(live: Live, p: GatewayEndPoint, i: nat, engine: Engine): Live {
    if StartCode(i, engine) < 0 then live - {p.name} else live[p.name := GatewayView(p.port, HostMapOf(p))]
  }

  /** The map of live sockets after the endpoints up to n, none of which failed before the n-th. */
  function InitUpTo(endPoints: seq<GatewayEndPoint>, n: nat, engine: Engine): Live
    requires n <= |endPoints|
  {
    if n == 0 then map[] else AfterStart(InitUpTo(endPoints, n - 1, engine), endPoints[n - 1], n - 1, engine)
  }

  /** The ports of the sockets created for the first n endpoints, as they are stored. */
  function PortsUpTo(endPoints: seq<GatewayEndPoint>, n: nat): seq<int>
    requires n <= |endPoints|
  {
    if n == 0 then [] else PortsUpTo(endPoints, n - 1) + [endPoints[n - 1].port]
  }

  class GatewayServers {
    var sockets: map<string, GatewaySocket>
    // The port of every socket created; nothing checks it before.
    var ports: seq<int>

    constructor ()
      ensures Valid() && sockets == map[] && ports == []
    {
      sockets, ports := map[], [];
    }

    ghost predicate Valid()
      reads this`sockets, sockets.Values
    {
      && (forall n :: n in sockets ==> !sockets[n].deleted)
      && (forall m, n :: m in sockets && n in sockets && m != n ==> sockets[m] != sockets[n])
    }

    ghost function LiveView(): Live
      reads this`sockets, sockets.Values
    {
      map n | n in sockets :: sockets[n].View()
    }

    /**
      `n` endpoints have been met; a negative code is the n-th one's, None is an
      exception of the plugin factory after it.
     */
    method InitApiGatewayServers(endPoints: seq<GatewayEndPoint>, factory: Factory, linker: Linker, engine: Engine)
      returns (code: Option<int>, n: nat)
      requires Valid() && LiveView() == map[] && ports == []
      modifies this`sockets, this`ports, factory
      ensures Valid() && n <= |endPoints| && (code == Some(0) ==> n == |endPoints|)
      ensures LiveView() == InitUpTo(endPoints, n, engine)
      ensures forall k :: 0 <= k < n - 1 ==> StartCode(k, engine) == 0
      ensures n > 0 ==> StartCode(n - 1, engine) == if code.Some? then code.value else 0
      ensures ports == PortsUpTo(endPoints, n)
    {
      n := 0;
      while n < |endPoints|
        invariant n <= |endPoints| && Valid()
        invariant LiveView() == InitUpTo(endPoints, n, engine)
        invariant forall k :: 0 <= k < n ==> StartCode(k, engine) == 0
        invariant ports == PortsUpTo(endPoints, n)
      {
        code := InitNext(endPoints, n, factory, linker, engine);
        if code.None? {
          return;
        }
        n := n + 1;
        if code.value < 0 {
          return;
        }
      }
      return Some(0), n;
    }

    /** The body of the startup loop. */
    method InitNext(endPoints: seq<GatewayEndPoint>, n: nat, factory: Factory, linker: Linker, engine: Engine)
      returns (code: Option<int>)
      requires Valid() && n < |endPoints|
      modifies this`sockets, this`ports, factory
      ensures Valid()
      ensures code.None? ==> LiveView() == old(LiveView()) && ports == old(ports)
      ensures code.Some? ==>
                && code.value == StartCode(n, engine)
                && LiveView() == AfterStart(old(LiveView()), endPoints[n], n, engine)
                && ports == old(ports) + [endPoints[n].port]
    {
      var ok := factory.RegisterPipeline(ApiGateway, endPoints[n].pipeline, linker);
      assert Valid() && LiveView() == old(LiveView());
      if !ok {
        return None;
      }
      var c := InitOne(endPoints[n], n, engine);
      return Some(c);
    }

    method Track(name: string, port: int) returns (sock: GatewaySocket)
      requires Valid()
      modifies this`sockets, this`ports
      ensures Valid() && fresh(sock) && name in sockets && sockets[name] == sock && sock.port == port
      ensures ports == old(ports) + [port] && LiveView() == old(LiveView())[name := sock.View()]
    {
      sock := new GatewaySocket(port);
      ports := ports + [port];
      sockets := sockets[name := sock];
    }

    method Untrack(name: string, sock: GatewaySocket)
      requires Valid() && name in sockets && sockets[name] == sock
      modifies this`sockets, sock`deleted
      ensures Valid() && sock.deleted && LiveView() == old(LiveView()) - {name}
    {
      sockets := sockets - {name};
      assert Valid() && sock !in sockets.Values;
      sock.Delete();
    }

    method StartTracked(p: GatewayEndPoint, sock: GatewaySocket, i: nat, engine: Engine) returns (code: int)
      requires Valid() && p.name in sockets && sockets[p.name] == sock
      modifies sock
      ensures Valid() && code == StartCode(i, engine)
      ensures LiveView() == old(LiveView())[p.name := sock.View()]
      ensures code == 0 ==> sock.View() == GatewayView(sock.port, HostMapOf(p))
    {
      code := StartGatewayServer(p, sock, i, engine);
    }

    method InitOne(p: GatewayEndPoint, i: nat, engine: Engine) returns (code: int)
      requires Valid()
      modifies this`sockets, this`ports
      ensures Valid() && code == StartCode(i, engine) && ports == old(ports) + [p.port]
      ensures LiveView() == AfterStart(old(LiveView()), p, i, engine)
    {
      ghost var live := LiveView();
      var sock := Track(p.name, p.port);
      ghost var created := sock.View();
      code := StartTracked(p, sock, i, engine);
      Overwrite(live, p.name, created, sock.View());
      if code < 0 {
        Untrack(p.name, sock);
      }
    }
  }

  /**
    After starting n endpoints, of which at most the last failed, a request to
    the name of one of them is routed as the linear scan of the last endpoint k
    of that name says; the name of the failed endpoint is mapped to nothing.
   */
  lemma {:induction false} StartedRouteLikeTheScan(endPoints: seq<GatewayEndPoint>, n: nat, engine: Engine, k: nat,
                                                   hostname: string, path: string)
    requires n <= |endPoints| && forall i :: 0 <= i < n - 1 ==> StartCode(i, engine) == 0
    requires k < n && forall i :: k < i < n ==> endPoints[i].name != endPoints[k].name
    ensures var live, name := InitUpTo(endPoints, n, engine), endPoints[k].name;
            && (name in live <==> StartCode(k, engine) == 0)
            && (name in live ==>
                  && live[name].port == endPoints[k].port
                  && RoutingIndex.Lookup(live[name].routes, hostname, path) ==
                     TargetOf(Scan(endPoints[k].services, hostname, path)))
  {
    if k < n - 1 {
      StartedRouteLikeTheScan(endPoints, n - 1, engine, k, hostname, path);
    } else {
      LookupIsScan(endPoints[k], hostname, path);
    }
  }

  /** And no other name is mapped. */
  lemma {:induction false} NothingElseIsMapped(endPoints: seq<GatewayEndPoint>, n: nat, engine: Engine, name: string)
    requires n <= |endPoints| && name in InitUpTo(endPoints, n, engine)
    ensures exists k :: 0 <= k < n && endPoints[k].name == name
  {
    if n > 0 && endPoints[n - 1].name != name {
      NothingElseIsMapped(endPoints, n - 1, engine, name);
    }
  }

  // ----- The ports -----

  lemma {:induction false} PortsAre(endPoints: seq<GatewayEndPoint>, n: nat)
    requires n <= |endPoints|
    ensures |PortsUpTo(endPoints, n)| == n && forall i :: 0 <= i < n ==> PortsUpTo(endPoints, n)[i] == endPoints[i].port
  {
    if n > 0 {
      PortsAre(endPoints, n - 1);
    }
  }

  ghost predicate AllValid(ports: seq<int>) {
    forall port :: port in ports ==> ValidPort(port)
  }

  /**
    From the document to the sockets: the sockets created for the first n
    end-points of an accepted document all have valid ports, whatever was in
    memory, exactly when each of those elements has a port child that reads as
    1..65535.
   */
  lemma CreatedPortsAreValidExactly(root: Element, n: nat, reader: Reader)
    requires FirstStop(GatewayParser.Checks(root, reader)).Go? && n <= |GatewayParser.EndPointsOf(root)|
    ensures var es := GatewayParser.EndPointsOf(root);
            (forall junk: nat -> GatewayEndPointJunk ::
             AllValid(PortsUpTo(GatewayParser.EndPointsFrom(es, reader, junk), n)))
            <==> forall i :: 0 <= i < n ==> GatewayParser.HasValidPort(es[i], reader)
  {
    var es := GatewayParser.EndPointsOf(root);
    var first := if FirstChild(root, "api-gateway-server-config").Some? then Go else Fail(ParsingElement);
    FirstStopAppend([first], Concat(GatewayParser.EndPointGroups(es, reader)));
    FirstStopAppend([], [first]);
    GatewayParser.PortsPass(es, reader);
    GatewayParser.PortsAreValidExactly(es, n, reader);
    forall junk: nat -> GatewayEndPointJunk
      ensures AllValid(PortsUpTo(GatewayParser.EndPointsFrom(es, reader, junk), n)) <==>
              GatewayParser.ValidPorts(GatewayParser.EndPointsFrom(es, reader, junk), n)
    {
      ValidExactly(GatewayParser.EndPointsFrom(es, reader, junk), n);
    }
  }

  lemma ValidExactly(endPoints: seq<GatewayEndPoint>, n: nat)
    requires n <= |endPoints|
    ensures AllValid(PortsUpTo(endPoints, n)) <==> GatewayParser.ValidPorts(endPoints, n)
  {
    PortsAre(endPoints, n);
    assert forall i :: 0 <= i < n ==> PortsUpTo(endPoints, n)[i] in PortsUpTo(endPoints, n);
  }
}
