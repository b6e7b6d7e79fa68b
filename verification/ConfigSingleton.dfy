/**
  The process-wide state (src/config/ConfigSingleton.h, .cpp): the three stored
  sections, the plugin factory and the map of live proxy sockets.
 */
module ConfigSingleton {
  import opened Wrappers
  import opened Xml
  import opened ConfigTypes
  import opened PipelineFactory
  import opened Resolution
  import opened ConfigLoad
  import opened Sockets
  import ProxyParser
  import ProtocolParser
  import GatewayParser

  type Live = map<string, SocketView>

  datatype Plane = Plane(store: Store, cache: Cache, live: Live)

  class Singleton {
    var proxyConfig: ProxyConfig
    var protocolConfig: seq<ProtocolServer>
    var gatewayConfig: seq<GatewayEndPoint>
    const factory: Factory
    var proxySockets: map<string, ProxySocket>

    constructor (store: Store, libraries: seq<Library>)
      ensures Valid() && fresh(factory) && factory.libraries == libraries
      ensures View() == Plane(store, Cache(Tables(map[], map[], map[], map[]), []), map[])
    {
      proxyConfig, protocolConfig, gatewayConfig := store.proxy, store.protocol, store.gateway;
      factory := new Factory(libraries);
      proxySockets := map[];
    }

    /** Every mapped socket is alive and mapped under one name only. */
    ghost predicate Valid()
      reads this`proxySockets, proxySockets.Values
    {
      && (forall n :: n in proxySockets ==> !proxySockets[n].deleted)
      && (forall m, n :: m in proxySockets && n in proxySockets && m != n ==> proxySockets[m] != proxySockets[n])
    }

    ghost function StoreView(): Store
      reads this`proxyConfig, this`protocolConfig, this`gatewayConfig
    {
      Store(proxyConfig, protocolConfig, gatewayConfig)
    }

    ghost function LiveView(): Live
      reads this`proxySockets, proxySockets.Values
    {
      map n | n in proxySockets :: proxySockets[n].View()
    }

    ghost function View(): Plane
      reads this, factory, proxySockets.Values
    {
      Plane(StoreView(), factory.View(), LiveView())
    }

    /** The first n of all endpoints are resolved, with these results. */
    ghost predicate ResolvedSoFar(all: seq<EndPoint>, n: nat, env: Env, start: Cache,
                                  results: Option<seq<ResolvedProxy>>)
      requires n <= |all|
      reads factory
    {
      ResolveUpTo(all, n, factory.libraries, env, start) == (factory.View(), results)
    }

    method ResolveProxyServerConfigurations(env: Env) returns (results: Option<seq<ResolvedProxy>>)
      modifies factory
      ensures (factory.View(), results) ==
              ResolveAll(EndPoints(proxyConfig.clusters), factory.libraries, env, old(factory.View()))
    {
      ghost var all := EndPoints(proxyConfig.clusters);
      ghost var start := factory.View();
      var resolved := [];
      var i := 0;
      while i < |proxyConfig.clusters|
        invariant i <= |proxyConfig.clusters| && |EndPointsUpTo(proxyConfig.clusters, i)| <= |all|
        invariant ResolvedSoFar(all, |EndPointsUpTo(proxyConfig.clusters, i)|, env, start, Some(resolved))
      {
        ClusterBounds(proxyConfig.clusters, i);
        results := ResolveCluster(proxyConfig.clusters[i], env, resolved, all,
                                  |EndPointsUpTo(proxyConfig.clusters, i)|, start);
        if results.None? {
          return;
        }
        resolved := results.value;
        i := i + 1;
      }
      return Some(resolved);
    }

    /** The inner loop; the cluster's endpoints are those from position n on. */
    method ResolveCluster(cluster: Cluster, env: Env, resolved: seq<ResolvedProxy>, ghost all: seq<EndPoint>,
                          ghost n: nat, ghost start: Cache)
      returns (results: Option<seq<ResolvedProxy>>)
      requires n + |cluster.endPoints| <= |all|
      requires forall j :: 0 <= j < |cluster.endPoints| ==> all[n + j] == cluster.endPoints[j]
      requires ResolvedSoFar(all, n, env, start, Some(resolved))
      modifies factory
      ensures results.Some? ==> ResolvedSoFar(all, n + |cluster.endPoints|, env, start, results)
      ensures results.None? ==> ResolvedSoFar(all, |all|, env, start, None)
    {
      var rs := resolved;
      var j := 0;
      while j < |cluster.endPoints|
        invariant j <= |cluster.endPoints|
        invariant ResolvedSoFar(all, n + j, env, start, Some(rs))
      {
        var result := ResolveNext(cluster.endPoints[j], env, rs, all, n + j, start);
        if result.None? {
          return None;
        }
        rs := rs + [result.value];
        j := j + 1;
      }
      return Some(rs);
    }

    /** The body of the endpoint loop, for the n-th of all endpoints. */
    method ResolveNext(endPoint: EndPoint, env: Env, ghost rs: seq<ResolvedProxy>, ghost all: seq<EndPoint>,
                       ghost n: nat, ghost start: Cache)
      returns (result: Option<ResolvedProxy>)
      requires n < |all| && all[n] == endPoint
      requires ResolvedSoFar(all, n, env, start, Some(rs))
      modifies factory
      ensures result.Some? ==> ResolvedSoFar(all, n + 1, env, start, Some(rs + [result.value]))
      ensures result.None? ==> ResolvedSoFar(all, |all|, env, start, None)
    {
      InOrderOneMore(EndPointStep(factory.libraries, env), all, n, start);
      result := ResolveOne(endPoint, env);
    }

    method ResolveOne(endPoint: EndPoint, env: Env) returns (result: Option<ResolvedProxy>)
      modifies factory
      ensures (factory.View(), result) == ResolveEndPoint(endPoint, factory.libraries, env, old(factory.View()))
    {
      if endPoint.proxyPort <= 0 || endPoint.proxyPort > 65535 {
        return None;
      }
      var services := [];
      var k := 0;
      while k < |endPoint.services|
        invariant k <= |endPoint.services| && services == Targets(endPoint)[..k]
      {
        services := services + [ResolveService(endPoint.services[k], endPoint.readWrite)];
        k := k + 1;
      }
      assert services == Targets(endPoint);
      var strategy := if endPoint.strategy == "" then None else StrategyNamed(endPoint.strategy);
      assert strategy == StrategyNamed(endPoint.strategy);
      var ok := factory.RegisterPipeline(Proxy, endPoint.pipeline, env.linker);
      if !ok {
        return None;
      }
      var pipeline := Lookup(factory.tables, Proxy, endPoint.pipeline);
      var handler := env.commands(endPoint.handler);
      if handler.None? {
        return None;
      }
      return Some(ResolvedProxy(endPoint.name, endPoint.proxyPort, endPoint.pipeline, pipeline, handler.value,
                                services, strategy));
    }

    /** The three sections one after the other; the code a section returns is ignored. */
    method ParseConfiguration(root: Element, reader: Reader, junk: Junk) returns (st: Status)
      modifies this`proxyConfig, this`protocolConfig, this`gatewayConfig
      ensures var protocol := FirstStop(ProtocolParser.Checks(root, reader));
              var gateway := FirstStop(GatewayParser.Checks(root, reader));
              (StoreView(), st) ==
              if protocol.Throws? then (old(StoreView()), Throws)
              else (Loaded(old(StoreView()), root, reader, junk), if gateway.Fail? then Go else gateway)
    {
      ProtocolStatuses(root, reader);
      var protocol, proxy;
      protocol, protocolConfig := ProtocolParser.LoadProtocolServerConfigurations(root, protocolConfig, reader, junk);
      if protocol.Throws? {
        return Throws;
      }
      proxy, proxyConfig := ProxyParser.LoadProxyServerConfigurations(root, proxyConfig, reader, junk);
      var gateway;
      gateway, gatewayConfig := GatewayParser.LoadApiGatewayConfigurations(root, gatewayConfig, reader, junk);
      return if gateway.Fail? then Go else gateway;
    }

    method LoadConfigurationsFromString(content: Content, reader: Reader, junk: Junk) returns (st: Status)
      modifies this`proxyConfig, this`protocolConfig, this`gatewayConfig
      ensures (StoreView(), st) == Load(old(StoreView()), content, reader, junk)
    {
      if content.Empty? {
        return Fail(EmptyDocument);
      }
      if content.Unparsable? {
        return Fail(Malformed(content.code));
      }
      var root := FirstChild(content.document, "clickhouse-proxy-v2");
      if root.None? {
        return Fail(FileReadError);
      }
      st := ParseConfiguration(root.value, reader, junk);
    }
  }
}
