/** Startup of the management API servers (src/protocol_server.h, initProtocolServers). */
module ProtocolServer {
  import opened Wrappers
  import opened Xml
  import opened ConfigTypes
  import opened PipelineFactory
  import opened Resolution
  import opened RequestGate
  import ProtocolParser

  /** A closure handed to an HTTP handler: what it captured. */
  datatype Registered = Registered(handler: Pointer, path: string, httpMethod: string, route: Route,
                                   auth: Option<ResolvedAuth>)

  datatype Engine = Engine(setPipeline: nat -> bool, setHandler: nat -> bool, start: nat -> bool)

  class ProtocolSocket {
    const port: int
    var deleted: bool

    constructor (port: int)
      ensures this.port == port && !deleted
    {
      this.port := port;
      deleted := false;
    }

    method Delete()
      requires !deleted
      modifies this`deleted
      ensures deleted
    {
      deleted := true;
    }
  }

  function StartCode(r: ResolvedProtocol, i: nat, engine: Engine): int {
    if !engine.setPipeline(i) || (r.handler != 0 && !engine.setHandler(i)) then -2
    else if !engine.start(i) then -3
    else 0
  }

  /** No step fails; a server without a handler has none to set. */
  predicate Starts(r: ResolvedProtocol, i: nat, engine: Engine) {
    engine.setPipeline(i) && (r.handler != 0 ==> engine.setHandler(i)) && engine.start(i)
  }

  lemma StartCodeExactly(r: ResolvedProtocol, i: nat, engine: Engine)
    ensures StartCode(r, i, engine) == 0 <==> Starts(r, i, engine)
    ensures StartCode(r, i, engine) == -3 <==>
            engine.setPipeline(i) && (r.handler != 0 ==> engine.setHandler(i)) && !engine.start(i)
    ensures StartCode(r, i, engine) == -2 <==> !engine.setPipeline(i) || (r.handler != 0 && !engine.setHandler(i))
  {
  }

  method StartProtocolServer(r: ResolvedProtocol, i: nat, engine: Engine) returns (code: int)
    ensures code == StartCode(r, i, engine)
  {
    if !engine.setPipeline(i) {
      return -2;
    }
    if r.handler != 0 && !engine.setHandler(i) {
      return -2;
    }
    if !engine.start(i) {
      return -3;
    }
    return 0;
  }

  /** The port of each mapped socket. */
  type Live = map<string, int>

  /** A failed socket is erased. */
  function AfterStart(live: Live, r: ResolvedProtocol, i: nat, engine: Engine): Live {
    if StartCode(r, i, engine) < 0 then live - {r.name} else live[r.name := r.port]
  }

  function LiveUpTo(live: Live, rs: seq<ResolvedProtocol>, n: nat, engine: Engine): Live
    requires n <= |rs|
  {
    if n == 0 then live else AfterStart(LiveUpTo(live, rs, n - 1, engine), rs[n - 1], n - 1, engine)
  }

  /** The closures of the first n routes: one for each route with a known method. */
  function RoutesRegistered(r: ResolvedProtocol, n: nat, known: set<string>): seq<Registered>
    requires n <= |r.routes|
  {
    if n == 0 then []
    else
      var route := r.routes[n - 1];
      RoutesRegistered(r, n - 1, known)
      + if r.handler != 0 && route.httpMethod in known
        then [Registered(r.handler, route.path, route.httpMethod, route, r.auth)] else []
  }

  class ProtocolServers {
    var sockets: map<string, ProtocolSocket>
    var registered: seq<Registered>
    // The port of every socket created.
    var ports: seq<int>

    constructor ()
      ensures Valid() && sockets == map[] && registered == [] && ports == []
    {
      sockets, registered, ports := map[], [], [];
    }

    ghost predicate Valid()
      reads this`sockets, sockets.Values
    {
      && (forall n :: n in sockets ==> !sockets[n].deleted)
      && (forall m, n :: m in sockets && n in sockets && m != n ==> sockets[m] != sockets[n])
    }

    ghost function LiveView(): Live
      reads this`sockets, sockets.Values
    {
      map n | n in sockets :: sockets[n].port
    }

    method RegisterRoutes(r: ResolvedProtocol, known: set<string>)
      modifies this`registered
      ensures registered == old(registered) + RoutesRegistered(r, |r.routes|, known)
    {
      if r.handler != 0 {
        var j := 0;
        while j < |r.routes|
          invariant j <= |r.routes|
          invariant registered == old(registered) + RoutesRegistered(r, j, known)
        {
          var route := r.routes[j];
          j := j + 1;
          if route.httpMethod !in known {
            continue;
          }
          registered := registered + [Registered(r.handler, route.path, route.httpMethod, route, r.auth)];
        }
      } else {
        NothingRegistered(r, |r.routes|, known);
      }
    }

    method InitOne(r: ResolvedProtocol, i: nat, known: set<string>, engine: Engine) returns (code: int)
      requires Valid()
      modifies this
      ensures Valid() && code == StartCode(r, i, engine)
      ensures registered == old(registered) + RoutesRegistered(r, |r.routes|, known)
      ensures ports == old(ports) + [r.port]
      ensures LiveView() == AfterStart(old(LiveView()), r, i, engine)
    {
      ghost var live := LiveView();
      RegisterRoutes(r, known);
      var sock := Track(r.name, r.port);
      code := StartProtocolServer(r, i, engine);
      if code < 0 {
        Untrack(r.name, sock);
        Overwrite(live, r.name, r.port, r.port);
      }
    }

    /** A socket mapped before under that name is let go of. */
    method Track(name: string, port: int) returns (sock: ProtocolSocket)
      requires Valid()
      modifies this`sockets, this`ports
      ensures Valid() && fresh(sock) && name in sockets && sockets[name] == sock
      ensures ports == old(ports) + [port] && LiveView() == old(LiveView())[name := port]
    {
      sock := new ProtocolSocket(port);
      ports := ports + [port];
      sockets := sockets[name := sock];
    }

    /** erase, then delete. */
    method Untrack(name: string, sock: ProtocolSocket)
      requires Valid() && name in sockets && sockets[name] == sock
      modifies this`sockets, sock`deleted
      ensures Valid() && sock.deleted && LiveView() == old(LiveView()) - {name}
    {
      sockets := sockets - {name};
      assert Valid() && sock !in sockets.Values;
      sock.Delete();
    }

    /**
      `n` servers have been met: their closures are registered and their sockets
      created, and all of them but possibly the last have started.
     */
    method InitProtocolServers(servers: seq<ProtocolServer>, factory: Factory, env: Env, known: set<string>,
                               engine: Engine)
      returns (code: Option<int>, n: nat)
      requires Valid() && registered == [] && ports == []
      modifies this, factory
      ensures Valid()
      ensures var (cache, rs) := ResolveServersUpTo(servers, |servers|, factory.libraries, env, old(factory.View()));
              && factory.View() == cache
              && (code.None? <==> rs.None?)
              && (rs.None? ==> n == 0 && registered == [] && ports == [] && LiveView() == old(LiveView()))
              && (rs.Some? ==>
                    && n <= |rs.value| == |servers| && (code.value == 0 ==> n == |servers|)
                    && Met(old(LiveView()), rs.value, n, known, engine, code.value))
    {
      var configs := ResolveProtocolServerConfigurations(servers, factory, env);
      if configs.None? {
        return None, 0;
      }
      ResolveServersMeaning(servers, |servers|, factory.libraries, env, old(factory.View()));
      var c;
      c, n := StartAll(configs.value, known, engine);
      code := Some(c);
    }

    /** The startup loop. */
    method StartAll(rs: seq<ResolvedProtocol>, known: set<string>, engine: Engine) returns (code: int, n: nat)
      requires Valid() && registered == [] && ports == []
      modifies this
      ensures Valid() && n <= |rs| && Met(old(LiveView()), rs, n, known, engine, code) && (code == 0 ==> n == |rs|)
    {
      n := 0;
      while n < |rs|
        invariant n <= |rs| && Valid() && Met(old(LiveView()), rs, n, known, engine, 0)
      {
        code := InitOne(rs[n], n, known, engine);
        n := n + 1;
        if code < 0 {
          return;
        }
      }
      code := 0;
    }

    /** What startup has done when the first n servers were met and it is left with this code. */
    ghost predicate Met(live: Live, rs: seq<ResolvedProtocol>, n: nat, known: set<string>, engine: Engine, code: int)
      reads this, sockets.Values
      requires n <= |rs|
    {
      && LiveView() == LiveUpTo(live, rs, n, engine)
      && registered == RegisteredUpTo(rs, n, known)
      && |ports| == n && (forall k :: 0 <= k < n ==> ports[k] == rs[k].port)
      && (forall k :: 0 <= k < n - 1 ==> StartCode(rs[k], k, engine) == 0)
      && (if n > 0 then code == StartCode(rs[n - 1], n - 1, engine) else code == 0)
    }
  }

  /**
    Of n servers met, of which at most the last failed, the last one k of a name
    decides: the name is mapped to its port if it started, to nothing if not.
   */
  lemma {:induction false} LastServerIsMapped(live: Live, rs: seq<ResolvedProtocol>, n: nat, engine: Engine, k: nat)
    requires n <= |rs| && forall i :: 0 <= i < n - 1 ==> StartCode(rs[i], i, engine) == 0
    requires k < n && forall i :: k < i < n ==> rs[i].name != rs[k].name
    ensures var after := LiveUpTo(live, rs, n, engine);
            && (rs[k].name in after <==> StartCode(rs[k], k, engine) == 0)
            && (rs[k].name in after ==> after[rs[k].name] == rs[k].port)
  {
    if k < n - 1 {
      LastServerIsMapped(live, rs, n - 1, engine, k);
    }
  }

  /** A name no server met has keeps what it had. */
  lemma {:induction false} OtherNamesStay(live: Live, rs: seq<ResolvedProtocol>, n: nat, engine: Engine, name: string)
    requires n <= |rs| && forall i :: 0 <= i < n ==> rs[i].name != name
    ensures var after := LiveUpTo(live, rs, n, engine);
            && (name in after <==> name in live)
            && (name in live ==> after[name] == live[name])
  {
    if n > 0 {
      OtherNamesStay(live, rs, n - 1, engine, name);
    }
  }

  /** The closures of the first n servers. */
  function RegisteredUpTo(rs: seq<ResolvedProtocol>, n: nat, known: set<string>): seq<Registered>
    requires n <= |rs|
  {
    if n == 0 then [] else RegisteredUpTo(rs, n - 1, known) + RoutesRegistered(rs[n - 1], |rs[n - 1].routes|, known)
  }

  /** The closure is that of a route of a server, with that server's auth, under the route's path and method. */
  ghost predicate FromSomeServer(x: Registered, servers: seq<ProtocolServer>) {
    exists k :: 0 <= k < |servers| && x.route in servers[k].routes && x.auth == ResolveAuth(servers[k].auth)
                && x.path == x.route.path && x.httpMethod == x.route.httpMethod
  }

  lemma {:induction false} NothingRegistered(r: ResolvedProtocol, n: nat, known: set<string>)
    requires n <= |r.routes| && r.handler == 0
    ensures RoutesRegistered(r, n, known) == []
  {
    if n > 0 {
      NothingRegistered(r, n - 1, known);
    }
  }

  lemma {:induction false} RegisteredFromServer(r: ResolvedProtocol, n: nat, known: set<string>,
                                                servers: seq<ProtocolServer>, i: nat)
    requires n <= |r.routes| && i < |servers| && r.routes == servers[i].routes && r.auth == ResolveAuth(servers[i].auth)
    ensures forall x :: x in RoutesRegistered(r, n, known) ==> FromSomeServer(x, servers) && x.httpMethod in known
  {
    if n > 0 {
      RegisteredFromServer(r, n - 1, known, servers, i);
      assert r.routes[n - 1] in servers[i].routes;
    }
  }

  /** The positions of the first n routes that have a known method. */
  function KnownRoutes(routes: seq<Route>, n: nat, known: set<string>): seq<nat>
    requires n <= |routes|
  {
    if n == 0 then []
    else
      var before := KnownRoutes(routes, n - 1, known);
      if routes[n - 1].httpMethod in known then before + [n - 1] else before
  }

  lemma {:induction false} KnownExactly(routes: seq<Route>, n: nat, known: set<string>)
    requires n <= |routes|
    ensures forall p :: p in KnownRoutes(routes, n, known) <==> 0 <= p < n && routes[p].httpMethod in known
    ensures forall i, j :: 0 <= i < j < |KnownRoutes(routes, n, known)| ==>
              KnownRoutes(routes, n, known)[i] < KnownRoutes(routes, n, known)[j]
  {
    if n > 0 {
      KnownExactly(routes, n - 1, known);
      var before := KnownRoutes(routes, n - 1, known);
      assert forall i :: 0 <= i < |before| ==> before[i] in before;
    }
  }

  /** A server with a handler registers one closure for each known route, in the order of the routes. */
  lemma {:induction false} OneClosureEach(r: ResolvedProtocol, n: nat, known: set<string>)
    requires n <= |r.routes| && r.handler != 0
    ensures var at, xs := KnownRoutes(r.routes, n, known), RoutesRegistered(r, n, known);
            && |xs| == |at|
            && forall k :: 0 <= k < |at| ==> at[k] < |r.routes| && ClosureOf(xs[k], r, r.routes[at[k]])
  {
    if n > 0 {
      OneClosureEach(r, n - 1, known);
    }
  }

  /** What the closure is registered under, and what it captured. */
  predicate ClosureOf(x: Registered, r: ResolvedProtocol, route: Route) {
    && x.handler == r.handler && x.path == route.path && x.httpMethod == route.httpMethod
    && x.route == route && x.auth == r.auth
  }

  /**
    Every closure registered from resolved servers is one of a configured
    server; none is registered under an unknown method.
   */
  lemma {:induction false} RegisteredFromServers(servers: seq<ProtocolServer>, rs: seq<ResolvedProtocol>, n: nat,
                                                 known: set<string>)
    requires n <= |rs| == |servers|
    requires forall i :: 0 <= i < n ==> rs[i].routes == servers[i].routes && rs[i].auth == ResolveAuth(servers[i].auth)
    ensures forall x :: x in RegisteredUpTo(rs, n, known) ==> FromSomeServer(x, servers) && x.httpMethod in known
  {
    if n > 0 {
      RegisteredFromServers(servers, rs, n - 1, known);
      RegisteredFromServer(rs[n - 1], |rs[n - 1].routes|, known, servers, n - 1);
    }
  }

  /** Conversely, every route with a known method of a server with a handler has its closure. */
  lemma {:induction false} RouteHasItsClosure(rs: seq<ResolvedProtocol>, n: nat, known: set<string>, i: nat, j: nat)
    requires i < n <= |rs| && j < |rs[i].routes| && rs[i].handler != 0 && rs[i].routes[j].httpMethod in known
    ensures Registered(rs[i].handler, rs[i].routes[j].path, rs[i].routes[j].httpMethod, rs[i].routes[j], rs[i].auth)
            in RegisteredUpTo(rs, n, known)
  {
    if i < n - 1 {
      RouteHasItsClosure(rs, n - 1, known, i, j);
    } else {
      RouteIsRegistered(rs[i], |rs[i].routes|, known, j);
    }
  }

  lemma {:induction false} RouteIsRegistered(r: ResolvedProtocol, n: nat, known: set<string>, j: nat)
    requires j < n <= |r.routes| && r.handler != 0 && r.routes[j].httpMethod in known
    ensures Registered(r.handler, r.routes[j].path, r.routes[j].httpMethod, r.routes[j], r.auth)
            in RoutesRegistered(r, n, known)
  {
    if j < n - 1 {
      RouteIsRegistered(r, n - 1, known, j);
    }
  }

  /**
    Whatever is stored, including any junk in a port no document mentioned:
    every closure startup registers pairs a route with its own server's auth,
    and every socket it creates has a port between 1 and 65535.
   */
  lemma StartupIsSafe(servers: seq<ProtocolServer>, libraries: seq<Library>, env: Env, cache: Cache, n: nat,
                      known: set<string>)
    requires var rs := ResolveServersUpTo(servers, |servers|, libraries, env, cache).1; rs.Some? && n <= |rs.value|
    ensures var rs := ResolveServersUpTo(servers, |servers|, libraries, env, cache).1.value;
            && (forall x :: x in RegisteredUpTo(rs, n, known) ==> FromSomeServer(x, servers) && x.httpMethod in known)
            && (forall k :: 0 <= k < n ==> ValidPort(rs[k].port))
  {
    ResolveServersMeaning(servers, |servers|, libraries, env, cache);
    RegisteredFromServers(servers, ResolveServersUpTo(servers, |servers|, libraries, env, cache).1.value, n, known);
  }

  /**
    From the document to the dispatch: whatever closure startup registered from
    an accepted document, and whatever the handlers do, a request handler is
    dispatched only as some route element of that document, under its own server
    element, allows it.
   */
  lemma DispatchNeedsDocument(root: Element, reader: Reader, junk: Junk, x: Registered, trace: seq<Event>, i: nat)
    requires FirstStop(ProtocolParser.Checks(root, reader)).Go?
    requires forall y :: reader.markup(y) != ""
    requires FromSomeServer(x, ProtocolParser.ConfigFrom(root, reader, junk))
    requires Gate(x.route, x.auth, trace) && i < |trace| && trace[i].role == RequestHandler
    ensures exists e, r ::
              && e in ProtocolParser.ServersOf(root) && r in ProtocolParser.RoutesOf(e)
              && x.path == ChildText(r, "path") && x.httpMethod == ChildText(r, "method")
              && trace[i].handler == ChildText(r, "request_handler")
              && x.route == ProtocolParser.RouteFrom(r, FirstChild(e, "auth").Some?, reader)
              && x.auth == ResolveAuth(ProtocolParser.AuthFrom(e, reader))
              && AllowedByDocument(e, r, trace)
  {
    var e, r, junkPort := ElementsBehind(root, reader, junk, x);
    DispatchFollowsDocument(e, r, reader, junkPort, trace, i);
  }

  /**
    The gate of a registered closure, exactly, from the document: for every run
    of it, authentication, authorization and the request handler are dispatched
    if and only if the elements the closure was made from ask for it.
   */
  lemma ClosureIsGatedByDocument(root: Element, reader: Reader, junk: Junk, x: Registered, trace: seq<Event>)
    requires FirstStop(ProtocolParser.Checks(root, reader)).Go?
    requires forall y :: reader.markup(y) != ""
    requires FromSomeServer(x, ProtocolParser.ConfigFrom(root, reader, junk)) && Gate(x.route, x.auth, trace)
    ensures exists e, r ::
              && e in ProtocolParser.ServersOf(root) && r in ProtocolParser.RoutesOf(e)
              && x.path == ChildText(r, "path") && x.httpMethod == ChildText(r, "method")
              && x.route == ProtocolParser.RouteFrom(r, FirstChild(e, "auth").Some?, reader)
              && x.auth == ResolveAuth(ProtocolParser.AuthFrom(e, reader))
              && GatedAs(e, r, trace)
  {
    var e, r, junkPort := ElementsBehind(root, reader, junk, x);
    ElementsGate(e, r, reader, junkPort, trace);
  }

  lemma ElementsGate(e: Element, r: Element, reader: Reader, junkPort: int, trace: seq<Event>)
    requires ProtocolParser.RouteCheck(r).Go? && forall y :: reader.markup(y) != ""
    requires var route := ProtocolParser.RouteFrom(r, FirstChild(e, "auth").Some?, reader);
             Gate(route, ResolveAuth(ProtocolParser.ServerFrom(e, reader, junkPort).auth), trace)
    ensures GatedAs(e, r, trace)
  {
    GateIsTheDocuments(e, r, reader, junkPort, trace);
  }

  /** Who is dispatched, as these elements ask for it. */
  ghost predicate GatedAs(e: Element, r: Element, trace: seq<Event>) {
    && trace != []
    && (Dispatched(trace, Authentication) <==> GuardedByDocument(e, r))
    && (Dispatched(trace, Authorizing) <==> AuthorizedByDocument(e, r) && Passes(trace[0], AUTHENTICATED))
    && (Dispatched(trace, RequestHandler) <==>
          && (GuardedByDocument(e, r) ==> Passes(trace[0], AUTHENTICATED))
          && (AuthorizedByDocument(e, r) ==> |trace| > 1 && Passes(trace[1], AUTHORIZED)))
  }

  /** The server and route elements a registered closure was made from. */
  lemma ElementsBehind(root: Element, reader: Reader, junk: Junk, x: Registered)
    returns (e: Element, r: Element, junkPort: int)
    requires FirstStop(ProtocolParser.Checks(root, reader)).Go?
    requires FromSomeServer(x, ProtocolParser.ConfigFrom(root, reader, junk))
    ensures e in ProtocolParser.ServersOf(root) && r in ProtocolParser.RoutesOf(e)
    ensures ProtocolParser.RouteCheck(r).Go?
    ensures x.route == ProtocolParser.RouteFrom(r, FirstChild(e, "auth").Some?, reader)
    ensures x.auth == ResolveAuth(ProtocolParser.ServerFrom(e, reader, junkPort).auth)
  {
    var es := ProtocolParser.ServersOf(root);
    var servers := ProtocolParser.ServersFrom(es, reader, junk.protocolPort);
    var k :| 0 <= k < |servers| && x.route in servers[k].routes && x.auth == ResolveAuth(servers[k].auth);
    e, junkPort := es[k], junk.protocolPort(k);
    r := RouteBehind(e, reader, junkPort, x.route);
    ProtocolParser.AcceptedExactlyWhenWellFormed(root, reader);
    assert ProtocolParser.WellFormedServer(e, reader);
  }

  lemma RouteBehind(e: Element, reader: Reader, junkPort: int, route: Route) returns (r: Element)
    requires route in ProtocolParser.ServerFrom(e, reader, junkPort).routes
    ensures r in ProtocolParser.RoutesOf(e)
    ensures route == ProtocolParser.RouteFrom(r, FirstChild(e, "auth").Some?, reader)
  {
    var rs := ProtocolParser.RoutesOf(e);
    var routes := ProtocolParser.RoutesFrom(rs, FirstChild(e, "auth").Some?, reader);
    var j :| 0 <= j < |routes| && routes[j] == route;
    r := rs[j];
  }

  method ResolveProtocolServerConfigurations(servers: seq<ProtocolServer>, factory: Factory, env: Env)
    returns (results: Option<seq<ResolvedProtocol>>)
    modifies factory
    ensures (factory.View(), results) ==
            ResolveServersUpTo(servers, |servers|, factory.libraries, env, old(factory.View()))
  {
    ghost var start := factory.View();
    var resolved := [];
    var i := 0;
    while i < |servers|
      invariant i <= |servers|
      invariant ResolveServersUpTo(servers, i, factory.libraries, env, start) == (factory.View(), Some(resolved))
    {
      InOrderOneMore(ServerStep(factory.libraries, env), servers, i, start);
      var result := ResolveOne(servers[i], factory, env);
      i := i + 1;
      if result.None? {
        return None;
      }
      resolved := resolved + [result.value];
    }
    return Some(resolved);
  }

  /** The body of the loop. */
  method ResolveOne(p: ProtocolServer, factory: Factory, env: Env) returns (result: Option<ResolvedProtocol>)
    modifies factory
    ensures (factory.View(), result) == ResolveServer(p, factory.libraries, env, old(factory.View()))
  {
    if p.port <= 0 || p.port > 65535 {
      return None;
    }
    var ok := factory.RegisterPipeline(Protocol, p.pipeline, env.linker);
    if !ok {
      return None;
    }
    var pipeline := Lookup(factory.tables, Protocol, p.pipeline);
    if pipeline == 0 {
      return None;
    }
    var handler := env.commands(p.handler);
    if handler.None? {
      return None;
    }
    return Some(ResolvedProtocol(p.name, p.port, pipeline, handler.value, ResolveAuth(p.auth), p.routes));
  }
}
