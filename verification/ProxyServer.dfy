/**
  The life cycle of the proxy sockets (src/proxy_server.h): hot reload, the
  edit of a single service, and startup with rollback.
 */
module ProxyServer {
  import opened Wrappers
  import opened ConfigTypes
  import opened PipelineFactory
  import opened Resolution
  import opened Sockets
  import opened ConfigSingleton

  /** The status of an HTTP answer; NoAnswer is a request that crashes or never returns. */
  datatype Answer = Ok | Error | NoAnswer

  // ----- Applying resolved configurations to live sockets -----

  function TargetConfigOf(r: ResolvedProxy): TargetConfig {
    TargetConfig(r.name, r.proxyPort, r.services)
  }

  /** Every list a balancer passes through while it is emptied and refilled. */
  function Prefixes(services: seq<ResolvedService>): seq<seq<ResolvedService>> {
    seq(|services| + 1, k requires 0 <= k <= |services| => services[..k])
  }

  function Applied(v: SocketView, r: ResolvedProxy, engine: Engine): SocketView {
    var target := TargetConfigOf(r);
    SocketView(v.port, if engine.accepts(target) then Some(target) else v.config, r.services,
               v.history + Prefixes(r.services))
  }

  function ApplyOne(live: Live, r: ResolvedProxy, engine: Engine): Live {
    if r.name in live then live[r.name := Applied(live[r.name], r, engine)] else live
  }

  function ApplyAll(live: Live, rs: seq<ResolvedProxy>, engine: Engine): Live {
    if rs == [] then live else ApplyOne(ApplyAll(live, rs[..|rs| - 1], engine), rs[|rs| - 1], engine)
  }

  /** updateProxyServers: resolve everything, then touch the sockets. */
  function Update(plane: Plane, libraries: seq<Library>, env: Env, engine: Engine): (Plane, Answer) {
    var (cache, rs) := ResolveAll(EndPoints(plane.store.proxy.clusters), libraries, env, plane.cache);
    if rs.None? then (plane.(cache := cache), Error)
    else (plane.(cache := cache, live := ApplyAll(plane.live, rs.value, engine)), Ok)
  }

  method UpdateProxyConfig(socket: ProxySocket?, configValue: ResolvedProxy, engine: Engine) returns (code: int)
    requires socket != null ==> !socket.deleted
    modifies if socket == null then {} else {socket}
    ensures code == if socket == null then -1 else 0
    ensures socket != null ==> socket.View() == Applied(old(socket.View()), configValue, engine) && !socket.deleted
  {
    if socket == null {
      return -1;
    }
    var cfg := TargetConfig(configValue.name, configValue.proxyPort, configValue.services);
    var accepted := socket.SetConfigValues(cfg, engine);
    socket.RemoveAllServers();
    var i := 0;
    assert Prefixes(cfg.services)[..1] == [[]];
    while i < |cfg.services|
      invariant i <= |cfg.services| && !socket.deleted
      invariant socket.config == if engine.accepts(cfg) then Some(cfg) else old(socket.config)
      invariant socket.servers == cfg.services[..i]
      invariant socket.history == old(socket.history) + Prefixes(cfg.services)[..i + 1]
    {
      socket.AddServer(cfg.services[i]);
      assert cfg.services[..i + 1] == cfg.services[..i] + [cfg.services[i]];
      assert Prefixes(cfg.services)[..i + 2] == Prefixes(cfg.services)[..i + 1] + [cfg.services[..i + 1]];
      i := i + 1;
    }
    assert cfg.services[..i] == cfg.services && Prefixes(cfg.services)[..i + 1] == Prefixes(cfg.services);
    return 0;
  }

  /** The body of the update loop; the error return after UpdateProxyConfig is never taken. */
  method ApplyConfig(plane: Singleton, cfg: ResolvedProxy, engine: Engine)
    requires plane.Valid()
    modifies plane.proxySockets.Values
    ensures plane.Valid() && plane.LiveView() == ApplyOne(old(plane.LiveView()), cfg, engine)
  {
    if cfg.name !in plane.proxySockets {
      return;
    }
    var code := UpdateProxyConfig(plane.proxySockets[cfg.name], cfg, engine);
    if code < 0 {
      assert false;
    }
  }

  method ApplyConfigs(plane: Singleton, configs: seq<ResolvedProxy>, engine: Engine)
    requires plane.Valid()
    modifies plane.proxySockets.Values
    ensures plane.Valid() && plane.LiveView() == ApplyAll(old(plane.LiveView()), configs, engine)
  {
    var i := 0;
    while i < |configs|
      invariant i <= |configs| && plane.Valid()
      invariant plane.LiveView() == ApplyAll(old(plane.LiveView()), configs[..i], engine)
    {
      assert configs[..i + 1][..i] == configs[..i];
      ApplyConfig(plane, configs[i], engine);
      i := i + 1;
    }
    assert configs[..i] == configs;
  }

  method UpdateProxyServers(plane: Singleton, env: Env, engine: Engine) returns (answer: Answer)
    requires plane.Valid()
    modifies plane.factory, plane.proxySockets.Values
    ensures plane.Valid()
    ensures (plane.View(), answer) == Update(old(plane.View()), plane.factory.libraries, env, engine)
    ensures answer == Error ==> plane.LiveView() == old(plane.LiveView())
  {
    var configs := plane.ResolveProxyServerConfigurations(env);
    if configs.None? {
      return Error;
    }
    ApplyConfigs(plane, configs.value, engine);
    return Ok;
  }

  // ----- The edit of one service -----

  /** erase(remove_if(...)) over the first n services. */
  function RemoveNamedUpTo(services: seq<Service>, name: string, n: nat): seq<Service>
    requires n <= |services|
  {
    if n == 0 then []
    else
      var before := RemoveNamedUpTo(services, name, n - 1);
      if services[n - 1].name == name then before else before + [services[n - 1]]
  }

  function EditServices(services: seq<Service>, edit: ServiceEdit): seq<Service> {
    if edit.operation == "add" then services + [edit.service]
    else RemoveNamedUpTo(services, edit.service.name, |services|)
  }

  /** The first endpoint of that name from position i on, or the number of endpoints. */
  function FirstNamedFrom(ps: seq<EndPoint>, name: string, i: nat): (k: nat)
    requires i <= |ps|
    ensures i <= k <= |ps|
    ensures k < |ps| ==> ps[k].name == name
    ensures forall j :: i <= j < k ==> ps[j].name != name
    decreases |ps| - i
  {
    if i == |ps| || ps[i].name == name then i else FirstNamedFrom(ps, name, i + 1)
  }

  function FirstNamed(ps: seq<EndPoint>, name: string): (k: nat)
    ensures k <= |ps|
    ensures k < |ps| ==> ps[k].name == name
    ensures forall j :: 0 <= j < k ==> ps[j].name != name
  {
    FirstNamedFrom(ps, name, 0)
  }

  function EditEndPoints(ps: seq<EndPoint>, edit: ServiceEdit): seq<EndPoint> {
    var k := FirstNamed(ps, edit.name);
    if k == |ps| then ps else ps[k := ps[k].(services := EditServices(ps[k].services, edit))]
  }

  predicate Names(ps: seq<EndPoint>, name: string) {
    exists k :: 0 <= k < |ps| && ps[k].name == name
  }

  /** The first cluster from position i on with an endpoint of that name, or the number of clusters. */
  function FirstCluster(clusters: seq<Cluster>, name: string, i: nat): (h: nat)
    requires i <= |clusters|
    ensures i <= h <= |clusters|
    ensures h < |clusters| ==> Names(clusters[h].endPoints, name)
    ensures forall j :: i <= j < h ==> !Names(clusters[j].endPoints, name)
    decreases |clusters| - i
  {
    if i == |clusters| || Names(clusters[i].endPoints, name) then i else FirstCluster(clusters, name, i + 1)
  }

  function EditCluster(cluster: Cluster, edit: ServiceEdit): Cluster {
    cluster.(endPoints := EditEndPoints(cluster.endPoints, edit))
  }

  /** None: no endpoint of that name. */
  function EditClusters(clusters: seq<Cluster>, edit: ServiceEdit): Option<seq<Cluster>> {
    var h := FirstCluster(clusters, edit.name, 0);
    if h == |clusters| then None else Some(clusters[h := EditCluster(clusters[h], edit)])
  }

  lemma FirstNamedIs(ps: seq<EndPoint>, name: string, k: nat)
    requires k < |ps| && ps[k].name == name && forall j :: 0 <= j < k ==> ps[j].name != name
    ensures FirstNamed(ps, name) == k
  {
  }

  lemma EditAppend(a: seq<EndPoint>, b: seq<EndPoint>, edit: ServiceEdit)
    ensures EditEndPoints(a + b, edit) ==
            if Names(a, edit.name) then EditEndPoints(a, edit) + b else a + EditEndPoints(b, edit)
    ensures Names(a + b, edit.name) <==> Names(a, edit.name) || Names(b, edit.name)
  {
    if Names(a, edit.name) {
      FirstNamedIs(a + b, edit.name, FirstNamed(a, edit.name));
      assert (a + b)[FirstNamed(a, edit.name)].name == edit.name;
    } else if Names(b, edit.name) {
      var k := FirstNamed(b, edit.name);
      assert (a + b)[|a| + k].name == edit.name;
      FirstNamedIs(a + b, edit.name, |a| + k);
    }
  }

  lemma {:induction false} NamesUpTo(clusters: seq<Cluster>, edit: ServiceEdit, n: nat)
    requires n <= |clusters|
    ensures Names(EndPointsUpTo(clusters, n), edit.name) <==> FirstCluster(clusters, edit.name, 0) < n
  {
    if n > 0 {
      NamesUpTo(clusters, edit, n - 1);
      EditAppend(EndPointsUpTo(clusters, n - 1), clusters[n - 1].endPoints, edit);
    }
  }

  /**
    Seen over the first n clusters, editing the first cluster of the name is
    editing the first endpoint of the name.
   */
  lemma {:induction false} EditUpTo(clusters: seq<Cluster>, edit: ServiceEdit, h: nat, n: nat)
    requires n <= |clusters| && h == FirstCluster(clusters, edit.name, 0) < |clusters|
    ensures EndPointsUpTo(clusters[h := EditCluster(clusters[h], edit)], n) ==
            EditEndPoints(EndPointsUpTo(clusters, n), edit)
  {
    if n > 0 {
      var own := clusters[n - 1].endPoints;
      var edited := clusters[h := EditCluster(clusters[h], edit)];
      EditUpTo(clusters, edit, h, n - 1);
      NamesUpTo(clusters, edit, n - 1);
      EditAppend(EndPointsUpTo(clusters, n - 1), own, edit);
      assert edited[n - 1].endPoints == if n - 1 == h then EditEndPoints(own, edit) else own;
      if n - 1 < h {
        assert EditEndPoints(own, edit) == own;
      }
    }
  }

  /**
    An edit happens at the first endpoint of that name over all clusters and
    nowhere else; it fails when there is none.
   */
  lemma EditIsAtFirst(clusters: seq<Cluster>, edit: ServiceEdit)
    ensures var all := EndPoints(clusters);
            var after := EditClusters(clusters, edit);
            && (after.None? <==> !Names(all, edit.name))
            && (after.Some? ==> EndPoints(after.value) == EditEndPoints(all, edit))
  {
    NamesUpTo(clusters, edit, |clusters|);
    var h := FirstCluster(clusters, edit.name, 0);
    if h < |clusters| {
      EditUpTo(clusters, edit, h, |clusters|);
    }
  }

  /** updateProxyEndPointService: the edited configuration is stored first, and resolved after that. */
  function EditService(plane: Plane, edit: ServiceEdit, libraries: seq<Library>, env: Env, engine: Engine)
    : (Plane, Answer)
  {
    if edit.operation != "add" && edit.operation != "delete" then (plane, Error)
    else
      var clusters := EditClusters(plane.store.proxy.clusters, edit);
      if clusters.None? then (plane, Error)
      else
        var edited := plane.(store := plane.store.(proxy := plane.store.proxy.(clusters := clusters.value)));
        Update(edited, libraries, env, engine)
  }

  /** The two loops over the copied configuration, which is edited in place. */
  method EditInPlace(config: ProxyConfig, edit: ServiceEdit) returns (found: bool, proxyConfig: ProxyConfig)
    requires edit.operation == "add" || edit.operation == "delete"
    ensures found <==> EditClusters(config.clusters, edit).Some?
    ensures found ==> proxyConfig == config.(clusters := EditClusters(config.clusters, edit).value)
  {
    proxyConfig := config;
    found := false;
    var i := 0;
    while i < |config.clusters|
      invariant i <= |config.clusters| && proxyConfig == config && !found
      invariant forall h :: 0 <= h < i ==> !Names(config.clusters[h].endPoints, edit.name)
    {
      var endPoints := config.clusters[i].endPoints;
      var k := 0;
      while k < |endPoints|
        invariant k <= |endPoints| && proxyConfig == config && !found
        invariant forall j :: 0 <= j < k ==> endPoints[j].name != edit.name
      {
        if endPoints[k].name != edit.name {
          k := k + 1;
          continue;
        }
        found := true;
        var services := endPoints[k].services;
        if edit.operation == "add" {
          services := services + [edit.service];
        } else {
          services := RemoveNamedUpTo(services, edit.service.name, |services|);
        }
        FirstNamedIs(endPoints, edit.name, k);
        assert Names(endPoints, edit.name) && FirstCluster(config.clusters, edit.name, 0) == i;
        var edited := endPoints[k := endPoints[k].(services := services)];
        proxyConfig := config.(clusters := config.clusters[i := config.clusters[i].(endPoints := edited)]);
        return;
      }
      i := i + 1;
    }
  }

  method UpdateProxyEndPointService(plane: Singleton, edit: ServiceEdit, env: Env, engine: Engine)
    returns (answer: Answer)
    requires plane.Valid()
    modifies plane`proxyConfig, plane.factory, plane.proxySockets.Values
    ensures plane.Valid()
    ensures (plane.View(), answer) == EditService(old(plane.View()), edit, plane.factory.libraries, env, engine)
    ensures answer == Error ==> plane.LiveView() == old(plane.LiveView())
  {
    if edit.operation != "add" && edit.operation != "delete" {
      return Error;
    }
    var found, proxyConfig := EditInPlace(plane.proxyConfig, edit);
    if !found {
      return Error;
    }
    plane.proxyConfig := proxyConfig;
    answer := UpdateProxyServers(plane, env, engine);
  }

  // ----- Startup -----

  const LIBUV_PIPELINE: string := "ClickHouseLibuvPipeline"

  /** The code of startProxyServer and startLibuvProxyServer for the socket at position i. */
  function StartCode(r: ResolvedProxy, i: nat, engine: Engine): int {
    if !engine.setPipeline(i) || !engine.setHandler(i) || !engine.accepts(TargetConfigOf(r)) then -2
    else if !engine.start(i) then -3
    else 0
  }

  function Started(r: ResolvedProxy, i: nat, engine: Engine): SocketView {
    SocketView(r.proxyPort, Some(TargetConfigOf(r)), engine.initial(i), [[], engine.initial(i)])
  }

  /**
    The map of live sockets after starting the endpoint at position i: failed
    sockets are erased, libuv sockets never entered.
   */
  function AfterStart(live: Live, r: ResolvedProxy, i: nat, engine: Engine): Live {
    if r.pipelineName == LIBUV_PIPELINE then live
    else if StartCode(r, i, engine) < 0 then live - {r.name}
    else live[r.name := Started(r, i, engine)]
  }

  /** The map of live sockets, the returned code and the ports of all sockets created after the endpoints up to n. */
  function InitUpTo(live: Live, rs: seq<ResolvedProxy>, n: nat, engine: Engine): (Live, int, seq<int>)
    requires n <= |rs|
  {
    if n == 0 then (live, 0, [])
    else
      var (before, code, ports) := InitUpTo(live, rs, n - 1, engine);
      if code < 0 then (before, code, ports)
      else
        var r := rs[n - 1];
        (AfterStart(before, r, n - 1, engine), StartCode(r, n - 1, engine), ports + [r.proxyPort])
  }

  method StartProxyServer(socket: ProxySocket, configValue: ResolvedProxy, i: nat, engine: Engine) returns (code: int)
    requires !socket.deleted && socket.View() == SocketView(configValue.proxyPort, None, [], [[]])
    modifies socket
    ensures !socket.deleted && code == StartCode(configValue, i, engine)
    ensures code == 0 ==> socket.View() == Started(configValue, i, engine)
  {
    if !engine.setPipeline(i) {
      return -2;
    }
    if !engine.setHandler(i) {
      return -2;
    }
    var cfg := TargetConfig(configValue.name, configValue.proxyPort, configValue.services);
    var accepted := socket.SetConfigValues(cfg, engine);
    if !accepted {
      return -2;
    }
    var started := socket.Start(i, engine);
    if !started {
      return -3;
    }
    return 0;
  }

  lemma {:induction false} InitStops(live: Live, rs: seq<ResolvedProxy>, n: nat, m: nat, engine: Engine)
    requires n <= m <= |rs| && InitUpTo(live, rs, n, engine).1 < 0
    ensures InitUpTo(live, rs, m, engine) == InitUpTo(live, rs, n, engine)
  {
    if n < m {
      InitStops(live, rs, n, m - 1, engine);
    }
  }

  /** proxySocketsMap[name] = new CProxySocket(port): a socket mapped before under that name is let go of. */
  method Track(plane: Singleton, name: string, port: int) returns (sock: ProxySocket)
    requires plane.Valid()
    modifies plane`proxySockets
    ensures plane.Valid() && fresh(sock) && name in plane.proxySockets && plane.proxySockets[name] == sock
    ensures sock.View() == SocketView(port, None, [], [[]])
    ensures plane.LiveView() == old(plane.LiveView())[name := sock.View()]
  {
    sock := new ProxySocket(port);
    plane.proxySockets := plane.proxySockets[name := sock];
  }

  /** erase, then delete: the map has let go of the socket before it is deleted. */
  method Untrack(plane: Singleton, name: string, sock: ProxySocket)
    requires plane.Valid() && name in plane.proxySockets && plane.proxySockets[name] == sock
    modifies plane`proxySockets, sock`deleted
    ensures plane.Valid() && sock.deleted
    ensures plane.LiveView() == old(plane.LiveView()) - {name}
  {
    plane.proxySockets := plane.proxySockets - {name};
    assert plane.Valid() && sock !in plane.proxySockets.Values;
    sock.Delete();
  }

  /** A libuv socket is started by the same steps, and kept nowhere in this repository. */
  method StartUntracked(cfg: ResolvedProxy, i: nat, engine: Engine) returns (code: int)
    ensures code == StartCode(cfg, i, engine)
  {
    var sock := new ProxySocket(cfg.proxyPort);
    code := StartProxyServer(sock, cfg, i, engine);
    if code < 0 {
      sock.Delete();
    }
  }

  /** The body of the startup loop; Valid holds whenever another function runs. */
  method InitOne(plane: Singleton, cfg: ResolvedProxy, i: nat, engine: Engine) returns (code: int)
    requires plane.Valid()
    modifies plane`proxySockets
    ensures plane.Valid()
    ensures code == StartCode(cfg, i, engine)
    ensures plane.LiveView() == AfterStart(old(plane.LiveView()), cfg, i, engine)
  {
    if cfg.pipelineName == LIBUV_PIPELINE {
      code := StartUntracked(cfg, i, engine);
      return;
    }
    ghost var live := plane.LiveView();
    var sock := Track(plane, cfg.name, cfg.proxyPort);
    ghost var created := sock.View();
    code := StartProxyServer(sock, cfg, i, engine);
    assert plane.Valid() && plane.LiveView() == live[cfg.name := created][cfg.name := sock.View()];
    Overwrite(live, cfg.name, created, sock.View());
    if code < 0 {
      Untrack(plane, cfg.name, sock);
    }
  }

  method InitAll(plane: Singleton, rs: seq<ResolvedProxy>, engine: Engine) returns (code: int, ports: seq<int>)
    requires plane.Valid()
    modifies plane`proxySockets
    ensures plane.Valid()
    ensures InitUpTo(old(plane.LiveView()), rs, |rs|, engine) == (plane.LiveView(), code, ports)
  {
    ghost var live := plane.LiveView();
    code, ports := 0, [];
    var i := 0;
    while i < |rs|
      invariant i <= |rs| && plane.Valid() && code == 0
      invariant InitUpTo(live, rs, i, engine) == (plane.LiveView(), code, ports)
    {
      ports := ports + [rs[i].proxyPort];
      code := InitOne(plane, rs[i], i, engine);
      i := i + 1;
      if code < 0 {
        InitStops(live, rs, i, |rs|, engine);
        return;
      }
    }
  }

  /**
    The state startup leaves, its code (None is the exception of the resolution)
    and the ports of all sockets created, libuv sockets included.
   */
  function Boot(plane: Plane, libraries: seq<Library>, env: Env, engine: Engine): (Plane, Option<int>, seq<int>) {
    var (cache, rs) := ResolveAll(EndPoints(plane.store.proxy.clusters), libraries, env, plane.cache);
    if rs.None? then (plane.(cache := cache), None, [])
    else
      var (live, code, ports) := InitUpTo(plane.live, rs.value, |rs.value|, engine);
      (plane.(cache := cache, live := live), Some(code), ports)
  }

  method InitProxyServers(plane: Singleton, env: Env, engine: Engine) returns (code: Option<int>, ports: seq<int>)
    requires plane.Valid()
    modifies plane`proxySockets, plane.factory
    ensures plane.Valid()
    ensures (plane.View(), code, ports) == Boot(old(plane.View()), plane.factory.libraries, env, engine)
    ensures code.None? ==> plane.LiveView() == old(plane.LiveView())
  {
    var configs := plane.ResolveProxyServerConfigurations(env);
    if configs.None? {
      return None, [];
    }
    var c;
    c, ports := InitAll(plane, configs.value, engine);
    code := Some(c);
  }
}
