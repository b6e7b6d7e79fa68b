/**
  What ResolveProxyServerConfigurations and ResolveProtocolServerConfigurations
  (src/config/ConfigSingleton.cpp) make of a stored configuration.
 */
module Resolution {
  import opened Wrappers
  import opened ConfigTypes
  import opened PipelineFactory

  /** The dynamic linker, and the handler registry: a handler name that cannot be registered throws. */
  datatype Env = Env(linker: Linker, commands: string -> Option<Pointer>)

  /** The three strategies of LoadBalancerFactory; any other name gives no strategy. */
  function StrategyNamed(name: string): Option<Strategy> {
    if name == "RoundRobinStrategy" then Some(RoundRobin)
    else if name == "RandomStrategy" then Some(Random)
    else if name == "WeightedRoundRobinStrategy" then Some(WeightedRoundRobin)
    else None
  }

  function ResolveService(s: Service, readWrite: bool): ResolvedService {
    ResolvedService(s.host, s.port, readWrite, "", 0, s.weight, s.sourceHostname)
  }

  function ResolveServices(ss: seq<Service>, readWrite: bool): seq<ResolvedService> {
    seq(|ss|, i requires 0 <= i < |ss| => ResolveService(ss[i], readWrite))
  }

  /** The services a live socket for this endpoint balances over. */
  function Targets(p: EndPoint): seq<ResolvedService> {
    ResolveServices(p.services, p.readWrite)
  }

  function TargetOf(p: EndPoint): TargetConfig {
    TargetConfig(p.name, p.proxyPort, Targets(p))
  }

  // ----- Items resolved in order; None is a thrown exception -----

  /** The first n items, each step working on the state the one before it left; the first that throws ends it. */
  function InOrder<S, A, B>(step: (S, A) -> (S, Option<B>), items: seq<A>, n: nat, start: S): (S, Option<seq<B>>)
    requires n <= |items|
  {
    if n == 0 then (start, Some([]))
    else
      var (before, rs) := InOrder(step, items, n - 1, start);
      if rs.None? then (before, None)
      else
        var (after, r) := step(before, items[n - 1]);
        (after, if r.None? then None else Some(rs.value + [r.value]))
  }

  /** Once an item throws, nothing more is done. */
  lemma {:induction false} InOrderStops<S, A, B>(step: (S, A) -> (S, Option<B>), items: seq<A>, n: nat, m: nat,
                                                 start: S)
    requires n <= m <= |items| && InOrder(step, items, n, start).1.None?
    ensures InOrder(step, items, m, start) == InOrder(step, items, n, start)
  {
    if n < m {
      InOrderStops(step, items, n, m - 1, start);
    }
  }

  /** One more item, as a loop meets it. */
  lemma InOrderOneMore<S, A, B>(step: (S, A) -> (S, Option<B>), items: seq<A>, n: nat, start: S)
    requires n < |items| && InOrder(step, items, n, start).1.Some?
    ensures var (before, rs) := InOrder(step, items, n, start);
            var (after, r) := step(before, items[n]);
            if r.Some? then InOrder(step, items, n + 1, start) == (after, Some(rs.value + [r.value]))
            else InOrder(step, items, |items|, start) == (after, None)
  {
    if step(InOrder(step, items, n, start).0, items[n]).1.None? {
      InOrderStops(step, items, n + 1, |items|, start);
    }
  }

  /** What every step's result is to its item, each result of a run without a throw is to its item. */
  lemma {:induction false} InOrderMeaning<S(!new), A, B>(step: (S, A) -> (S, Option<B>), items: seq<A>, n: nat,
                                                         start: S, means: (B, A) -> bool)
    requires n <= |items|
    requires forall s, i :: 0 <= i < n && step(s, items[i]).1.Some? ==> means(step(s, items[i]).1.value, items[i])
    ensures var rs := InOrder(step, items, n, start).1;
            rs.Some? ==> |rs.value| == n && forall i :: 0 <= i < n ==> means(rs.value[i], items[i])
  {
    if n > 0 {
      InOrderMeaning(step, items, n - 1, start, means);
    }
  }

  // ----- Proxy endpoints -----

  function ResolveEndPoint(p: EndPoint, libraries: seq<Library>, env: Env, cache: Cache)
    : (Cache, Option<ResolvedProxy>)
  {
    if !ValidPort(p.proxyPort) then (cache, None)
    else
      var (after, ok) := Register(libraries, env.linker, cache, Proxy, p.pipeline);
      if !ok || env.commands(p.handler).None? then (after, None)
      else
        (after, Some(ResolvedProxy(p.name, p.proxyPort, p.pipeline, Lookup(after.tables, Proxy, p.pipeline),
                                   env.commands(p.handler).value, Targets(p), StrategyNamed(p.strategy))))
  }

  /** The first n endpoints in order, stopping at the first that throws. */
  function ResolveUpTo(ps: seq<EndPoint>, n: nat, libraries: seq<Library>, env: Env, cache: Cache)
    : (Cache, Option<seq<ResolvedProxy>>)
    requires n <= |ps|
  {
    InOrder(EndPointStep(libraries, env), ps, n, cache)
  }

  function EndPointStep(libraries: seq<Library>, env: Env): (Cache, EndPoint) -> (Cache, Option<ResolvedProxy>) {
    (cache, p) => ResolveEndPoint(p, libraries, env, cache)
  }

  function ResolveAll(ps: seq<EndPoint>, libraries: seq<Library>, env: Env, cache: Cache)
    : (Cache, Option<seq<ResolvedProxy>>)
  {
    ResolveUpTo(ps, |ps|, libraries, env, cache)
  }

  predicate Resolves(r: ResolvedProxy, p: EndPoint) {
    && ValidPort(p.proxyPort)
    && r.name == p.name && r.proxyPort == p.proxyPort && r.services == Targets(p)
    && r.pipelineName == p.pipeline && r.strategy == StrategyNamed(p.strategy)
  }

  lemma ResolveUpToMeaning(ps: seq<EndPoint>, n: nat, libraries: seq<Library>, env: Env, cache: Cache)
    requires n <= |ps|
    ensures var rs := ResolveUpTo(ps, n, libraries, env, cache).1;
            rs.Some? ==> |rs.value| == n && forall i :: 0 <= i < n ==> Resolves(rs.value[i], ps[i])
  {
    InOrderMeaning(EndPointStep(libraries, env), ps, n, cache, (r, p) => Resolves(r, p));
  }

  /** A resolution that does not throw is the endpoints' list, one by one, and all their ports are valid. */
  lemma ResolveAllMeaning(ps: seq<EndPoint>, libraries: seq<Library>, env: Env, cache: Cache)
    ensures var rs := ResolveAll(ps, libraries, env, cache).1;
            rs.Some? ==> |rs.value| == |ps| && forall i :: 0 <= i < |ps| ==> Resolves(rs.value[i], ps[i])
  {
    ResolveUpToMeaning(ps, |ps|, libraries, env, cache);
  }

  // ----- When a resolution does not throw -----

  /** The endpoint's library. */
  function LibraryOf(p: EndPoint, libraries: seq<Library>): Option<Library> {
    FindLibrary(libraries, p.pipeline)
  }

  function Plugins(ps: seq<EndPoint>): seq<string> {
    seq(|ps|, i requires 0 <= i < |ps| => ps[i].pipeline)
  }

  /** dlopen and dlsym both succeed. */
  predicate Opens(library: Library, linker: Linker) {
    linker.opens(library.path) && linker.symbols(library.path, library.symbol).Some?
  }

  /** The plugin's library has this symbol, and opens with it not null. */
  predicate Brings(plugin: string, libraries: seq<Library>, linker: Linker, symbol: string) {
    var library := FindLibrary(libraries, plugin);
    && library.Some? && library.value.symbol == symbol
    && Opens(library.value, linker) && linker.symbols(library.value.path, symbol) != Some(0)
  }

  /** The symbol is cached once the first n plugins are registered: it was before, or one of them brings it. */
  ghost predicate Available(plugins: seq<string>, n: nat, libraries: seq<Library>, linker: Linker, cache: Cache,
                            kind: Kind, symbol: string)
    requires n <= |plugins|
  {
    Cached(cache, kind, symbol) || exists j :: 0 <= j < n && Brings(plugins[j], libraries, linker, symbol)
  }

  /** The n-th plugin can be registered: its library is cached, opens, or shares its symbol with an earlier one's. */
  ghost predicate Registrable(plugins: seq<string>, n: nat, libraries: seq<Library>, linker: Linker, cache: Cache,
                              kind: Kind)
    requires n < |plugins|
  {
    var library := FindLibrary(libraries, plugins[n]);
    && library.Some?
    && (Opens(library.value, linker)
        || Available(plugins, n, libraries, linker, cache, kind, library.value.symbol))
  }

  /** What the n-th endpoint needs not to throw; the cache is the one from before the resolution. */
  ghost predicate Resolvable(ps: seq<EndPoint>, n: nat, libraries: seq<Library>, env: Env, cache: Cache)
    requires n < |ps|
  {
    && ValidPort(ps[n].proxyPort)
    && Registrable(Plugins(ps), n, libraries, env.linker, cache, Proxy)
    && env.commands(ps[n].handler).Some?
  }

  lemma AvailableOneMore(plugins: seq<string>, n: nat, libraries: seq<Library>, linker: Linker, cache: Cache,
                         kind: Kind,
                         symbol: string)
    requires n < |plugins|
    ensures Available(plugins, n + 1, libraries, linker, cache, kind, symbol) <==>
            Available(plugins, n, libraries, linker, cache, kind, symbol)
            || Brings(plugins[n], libraries, linker, symbol)
  {
  }

  /** One registration that succeeds. */
  lemma RegisteredBy(plugin: string, libraries: seq<Library>, linker: Linker, cache: Cache, kind: Kind, symbol: string)
    requires Register(libraries, linker, cache, kind, plugin).1
    ensures Cached(Register(libraries, linker, cache, kind, plugin).0, kind, symbol) <==>
            Cached(cache, kind, symbol) || Brings(plugin, libraries, linker, symbol)
  {
  }

  /** What is cached after n endpoints that did not throw. */
  lemma {:induction false} CachedAfter(ps: seq<EndPoint>, n: nat, libraries: seq<Library>, env: Env, cache: Cache,
                                       symbol: string)
    requires n <= |ps| && ResolveUpTo(ps, n, libraries, env, cache).1.Some?
    ensures Cached(ResolveUpTo(ps, n, libraries, env, cache).0, Proxy, symbol) <==>
            Available(Plugins(ps), n, libraries, env.linker, cache, Proxy, symbol)
  {
    if n > 0 {
      var step := EndPointStep(libraries, env);
      var before := InOrder(step, ps, n - 1, cache).0;
      CachedAfter(ps, n - 1, libraries, env, cache, symbol);
      InOrderOneMore(step, ps, n - 1, cache);
      RegisteredBy(ps[n - 1].pipeline, libraries, env.linker, before, Proxy, symbol);
      AvailableOneMore(Plugins(ps), n - 1, libraries, env.linker, cache, Proxy, symbol);
    }
  }

  /**
    The resolution of the first n endpoints does not throw exactly when each of
    them has a valid port, a library that is cached, opens, or shares its symbol
    with an earlier endpoint's library, and a known handler.
   */
  lemma {:induction false} ResolvesExactlyWhen(ps: seq<EndPoint>, n: nat, libraries: seq<Library>, env: Env,
                                               cache: Cache)
    requires n <= |ps|
    ensures ResolveUpTo(ps, n, libraries, env, cache).1.Some? <==>
            forall i :: 0 <= i < n ==> Resolvable(ps, i, libraries, env, cache)
  {
    if n > 0 {
      ResolvesExactlyWhen(ps, n - 1, libraries, env, cache);
      if ResolveUpTo(ps, n - 1, libraries, env, cache).1.Some? {
        OneResolvesExactlyWhen(ps, n - 1, libraries, env, cache);
      }
    }
  }

  /** The n-th endpoint, when those before it did not throw. */
  lemma OneResolvesExactlyWhen(ps: seq<EndPoint>, n: nat, libraries: seq<Library>, env: Env, cache: Cache)
    requires n < |ps| && ResolveUpTo(ps, n, libraries, env, cache).1.Some?
    ensures ResolveEndPoint(ps[n], libraries, env, ResolveUpTo(ps, n, libraries, env, cache).0).1.Some? <==>
            Resolvable(ps, n, libraries, env, cache)
  {
    if LibraryOf(ps[n], libraries).Some? {
      CachedAfter(ps, n, libraries, env, cache, LibraryOf(ps[n], libraries).value.symbol);
    }
  }

  // ----- Field by field -----

  /** What a service of the configuration becomes. */
  predicate Carries(r: ResolvedService, s: Service, readWrite: bool) {
    && r.ipAddress == s.host && r.port == s.port && r.readWrite == readWrite
    && r.weight == s.weight && r.sourceHostname == s.sourceHostname
    && r.alias == "" && r.reserved == 0
  }

  ghost predicate AllCarry(rs: seq<ResolvedService>, ss: seq<Service>, readWrite: bool) {
    |rs| == |ss| && forall k :: 0 <= k < |ss| ==> Carries(rs[k], ss[k], readWrite)
  }

  /** The configuration of a socket for this endpoint. */
  ghost predicate Configures(config: TargetConfig, p: EndPoint) {
    config.name == p.name && config.proxyPort == p.proxyPort && AllCarry(config.services, p.services, p.readWrite)
  }

  /** There is one such list, and one such configuration. */
  lemma OneCarries(p: EndPoint, rs: seq<ResolvedService>, config: TargetConfig)
    ensures AllCarry(rs, p.services, p.readWrite) <==> rs == Targets(p)
    ensures Configures(config, p) <==> config == TargetOf(p)
  {
    if AllCarry(rs, p.services, p.readWrite) {
      assert forall k :: 0 <= k < |rs| ==> rs[k] == Targets(p)[k];
    }
    if Configures(config, p) {
      assert forall k :: 0 <= k < |config.services| ==> config.services[k] == Targets(p)[k];
    }
  }

  /** The strategy a name stands for. */
  predicate Strategizes(strategy: Option<Strategy>, name: string) {
    && (strategy == Some(RoundRobin) <==> name == "RoundRobinStrategy")
    && (strategy == Some(Random) <==> name == "RandomStrategy")
    && (strategy == Some(WeightedRoundRobin) <==> name == "WeightedRoundRobinStrategy")
  }

  /** The resolved endpoint holds what the endpoint says, and the registered handler. */
  ghost predicate Spells(r: ResolvedProxy, p: EndPoint, env: Env) {
    && r.name == p.name && r.proxyPort == p.proxyPort && r.pipelineName == p.pipeline
    && env.commands(p.handler) == Some(r.handler)
    && AllCarry(r.services, p.services, p.readWrite)
    && Strategizes(r.strategy, p.strategy)
  }

  lemma StrategiesDiffer()
    ensures "RoundRobinStrategy" != "RandomStrategy" && "RoundRobinStrategy" != "WeightedRoundRobinStrategy"
    ensures "RandomStrategy" != "WeightedRoundRobinStrategy"
  {
    assert "RoundRobinStrategy"[1] == 'o' && "RandomStrategy"[1] == 'a';
    assert "WeightedRoundRobinStrategy"[0] == 'W' && "RoundRobinStrategy"[0] == 'R' && "RandomStrategy"[0] == 'R';
  }

  lemma EndPointIsSpelled(p: EndPoint, libraries: seq<Library>, env: Env, cache: Cache)
    ensures var r := ResolveEndPoint(p, libraries, env, cache).1; r.Some? ==> Spells(r.value, p, env)
  {
    StrategiesDiffer();
    OneCarries(p, Targets(p), TargetOf(p));
  }

  /** Every resolved endpoint spells its endpoint. */
  lemma ResolvedIsSpelled(ps: seq<EndPoint>, libraries: seq<Library>, env: Env, cache: Cache)
    ensures var rs := ResolveAll(ps, libraries, env, cache).1;
            rs.Some? ==> |rs.value| == |ps| && forall i :: 0 <= i < |ps| ==> Spells(rs.value[i], ps[i], env)
  {
    forall c, i | 0 <= i < |ps| && EndPointStep(libraries, env)(c, ps[i]).1.Some?
      ensures Spells(EndPointStep(libraries, env)(c, ps[i]).1.value, ps[i], env)
    {
      EndPointIsSpelled(ps[i], libraries, env, c);
    }
    InOrderMeaning(EndPointStep(libraries, env), ps, |ps|, cache, (r, p) => Spells(r, p, env));
  }

  /** What is cached under a plugin's own name once its endpoint is resolved. */
  function PipelineAfter(ps: seq<EndPoint>, i: nat, libraries: seq<Library>, env: Env, cache: Cache): Pointer
    requires i < |ps|
  {
    Lookup(ResolveUpTo(ps, i + 1, libraries, env, cache).0.tables, Proxy, ps[i].pipeline)
  }

  lemma {:induction false} PipelinesAre(ps: seq<EndPoint>, n: nat, libraries: seq<Library>, env: Env, cache: Cache)
    requires n <= |ps| && ResolveUpTo(ps, n, libraries, env, cache).1.Some?
    ensures var rs := ResolveUpTo(ps, n, libraries, env, cache).1.value;
            |rs| == n && forall i :: 0 <= i < n ==> rs[i].pipeline == PipelineAfter(ps, i, libraries, env, cache)
  {
    if n > 0 {
      PipelinesAre(ps, n - 1, libraries, env, cache);
      InOrderOneMore(EndPointStep(libraries, env), ps, n - 1, cache);
      LastPipelineIs(ps, n - 1, libraries, env, cache);
    }
  }

  lemma LastPipelineIs(ps: seq<EndPoint>, n: nat, libraries: seq<Library>, env: Env, cache: Cache)
    requires n < |ps| && ResolveUpTo(ps, n + 1, libraries, env, cache).1.Some?
    ensures var rs := ResolveUpTo(ps, n + 1, libraries, env, cache).1.value;
            |rs| > 0 && rs[|rs| - 1].pipeline == PipelineAfter(ps, n, libraries, env, cache)
  {
    InOrderOneMore(EndPointStep(libraries, env), ps, n, cache);
  }

  // ----- Protocol servers -----

  datatype ResolvedAuth = ResolvedAuth(strategy: string, handler: string, authorization: Option<Authorization>)

  datatype ResolvedProtocol = ResolvedProtocol(name: string, port: int, pipeline: Pointer, handler: Pointer,
                                               auth: Option<ResolvedAuth>, routes: seq<Route>)

  function ResolveAuth(auth: Option<Auth>): Option<ResolvedAuth> {
    if auth.None? then None else Some(ResolvedAuth(auth.value.strategy, auth.value.handler, auth.value.authorization))
  }

  function ResolveServer(p: ProtocolServer, libraries: seq<Library>, env: Env, cache: Cache)
    : (Cache, Option<ResolvedProtocol>)
  {
    if !ValidPort(p.port) then (cache, None)
    else
      var (after, ok) := Register(libraries, env.linker, cache, Protocol, p.pipeline);
      var pipeline := Lookup(after.tables, Protocol, p.pipeline);
      if !ok || pipeline == 0 || env.commands(p.handler).None? then (after, None)
      else
        (after, Some(ResolvedProtocol(p.name, p.port, pipeline, env.commands(p.handler).value, ResolveAuth(p.auth),
                                      p.routes)))
  }

  function ResolveServersUpTo(ps: seq<ProtocolServer>, n: nat, libraries: seq<Library>, env: Env, cache: Cache)
    : (Cache, Option<seq<ResolvedProtocol>>)
    requires n <= |ps|
  {
    InOrder(ServerStep(libraries, env), ps, n, cache)
  }

  function ServerStep(libraries: seq<Library>, env: Env): (Cache, ProtocolServer) -> (Cache, Option<ResolvedProtocol>) {
    (cache, p) => ResolveServer(p, libraries, env, cache)
  }

  /** The server's auth, if it has one, by its names. */
  predicate ResolvesAuth(r: Option<ResolvedAuth>, auth: Option<Auth>) {
    if auth.None? then r.None?
    else
      && r.Some? && r.value.strategy == auth.value.strategy && r.value.handler == auth.value.handler
      && r.value.authorization == auth.value.authorization
  }

  predicate ResolvesServer(r: ResolvedProtocol, p: ProtocolServer, env: Env) {
    && r.name == p.name && r.port == p.port && ValidPort(p.port)
    && r.pipeline != 0 && env.commands(p.handler) == Some(r.handler)
    && r.auth == ResolveAuth(p.auth) && ResolvesAuth(r.auth, p.auth) && r.routes == p.routes
  }

  /**
    A resolution that does not throw keeps every server's name, port, handlers
    and routes, with a pipeline and a valid port.
   */
  lemma ResolveServersMeaning(ps: seq<ProtocolServer>, n: nat, libraries: seq<Library>, env: Env, cache: Cache)
    requires n <= |ps|
    ensures var rs := ResolveServersUpTo(ps, n, libraries, env, cache).1;
            rs.Some? ==> |rs.value| == n && forall i :: 0 <= i < n ==> ResolvesServer(rs.value[i], ps[i], env)
  {
    InOrderMeaning(ServerStep(libraries, env), ps, n, cache, (r, p) => ResolvesServer(r, p, env));
  }

  function ServerPlugins(ps: seq<ProtocolServer>): seq<string> {
    seq(|ps|, i requires 0 <= i < |ps| => ps[i].pipeline)
  }

  /** What the n-th server needs not to throw: besides, something cached under its plugin's own name. */
  ghost predicate ServerResolvable(ps: seq<ProtocolServer>, n: nat, libraries: seq<Library>, env: Env, cache: Cache)
    requires n < |ps|
  {
    var plugins := ServerPlugins(ps);
    && ValidPort(ps[n].port)
    && Registrable(plugins, n, libraries, env.linker, cache, Protocol)
    && Available(plugins, n + 1, libraries, env.linker, cache, Protocol, plugins[n])
    && env.commands(ps[n].handler).Some?
  }

  lemma {:induction false} ServerCachedAfter(ps: seq<ProtocolServer>, n: nat, libraries: seq<Library>, env: Env,
                                             cache: Cache, symbol: string)
    requires n <= |ps| && ResolveServersUpTo(ps, n, libraries, env, cache).1.Some?
    ensures Cached(ResolveServersUpTo(ps, n, libraries, env, cache).0, Protocol, symbol) <==>
            Available(ServerPlugins(ps), n, libraries, env.linker, cache, Protocol, symbol)
  {
    if n > 0 {
      var step := ServerStep(libraries, env);
      var before := InOrder(step, ps, n - 1, cache).0;
      ServerCachedAfter(ps, n - 1, libraries, env, cache, symbol);
      InOrderOneMore(step, ps, n - 1, cache);
      RegisteredBy(ps[n - 1].pipeline, libraries, env.linker, before, Protocol, symbol);
      AvailableOneMore(ServerPlugins(ps), n - 1, libraries, env.linker, cache, Protocol, symbol);
    }
  }

  lemma RegistersExactlyWhen(plugin: string, libraries: seq<Library>, linker: Linker, cache: Cache, kind: Kind)
    ensures Register(libraries, linker, cache, kind, plugin).1 <==>
            var library := FindLibrary(libraries, plugin);
            library.Some? && (Opens(library.value, linker) || Cached(cache, kind, library.value.symbol))
  {
  }

  lemma LooksUpExactlyWhen(cache: Cache, kind: Kind, plugin: string)
    ensures Lookup(cache.tables, kind, plugin) != 0 <==> Cached(cache, kind, plugin)
  {
  }

  lemma OneServerResolvesExactlyWhen(ps: seq<ProtocolServer>, n: nat, libraries: seq<Library>, env: Env, cache: Cache)
    requires n < |ps| && ResolveServersUpTo(ps, n, libraries, env, cache).1.Some?
    ensures ResolveServer(ps[n], libraries, env, ResolveServersUpTo(ps, n, libraries, env, cache).0).1.Some? <==>
            ServerResolvable(ps, n, libraries, env, cache)
  {
    var before, plugin := ResolveServersUpTo(ps, n, libraries, env, cache).0, ps[n].pipeline;
    var library := FindLibrary(libraries, plugin);
    RegistersExactlyWhen(plugin, libraries, env.linker, before, Protocol);
    if library.Some? {
      ServerCachedAfter(ps, n, libraries, env, cache, library.value.symbol);
    }
    if Register(libraries, env.linker, before, Protocol, plugin).1 {
      var after := Register(libraries, env.linker, before, Protocol, plugin).0;
      ServerCachedAfter(ps, n, libraries, env, cache, plugin);
      RegisteredBy(plugin, libraries, env.linker, before, Protocol, plugin);
      AvailableOneMore(ServerPlugins(ps), n, libraries, env.linker, cache, Protocol, plugin);
      LooksUpExactlyWhen(after, Protocol, plugin);
    }
  }

  /**
    The resolution of the first n servers does not throw exactly when each of
    them has a valid port, a plugin that can be registered, a function cached
    under the plugin's own name by then, and a known handler.
   */
  lemma {:induction false} ServersResolveExactlyWhen(ps: seq<ProtocolServer>, n: nat, libraries: seq<Library>, env: Env,
                                                     cache: Cache)
    requires n <= |ps|
    ensures ResolveServersUpTo(ps, n, libraries, env, cache).1.Some? <==>
            forall i :: 0 <= i < n ==> ServerResolvable(ps, i, libraries, env, cache)
  {
    if n > 0 {
      ServersResolveExactlyWhen(ps, n - 1, libraries, env, cache);
      if ResolveServersUpTo(ps, n - 1, libraries, env, cache).1.Some? {
        OneServerResolvesExactlyWhen(ps, n - 1, libraries, env, cache);
      }
    }
  }
}
