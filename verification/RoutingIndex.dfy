/** The host and path index of a gateway endpoint (src/api_gateway_server.h, startGatewayServer). */
module RoutingIndex {
  import opened Wrappers
  import opened ConfigTypes

  datatype Target = Target(host: string, port: int)

  type PathMap = map<string, Target>

  type HostMap = map<string, PathMap>

  /** static_cast<unsigned short>. */
  function Narrow(port: int): int {
    port % 0x1_0000
  }

  /** std::map::emplace: an entry that is already there stays. */
  function Emplace(m: PathMap, path: string, target: Target): PathMap {
    if path in m then m else m[path := target]
  }

  // ----- The linear scan the index has to agree with -----

  predicate ValidUri(uri: Uri) {
    uri.host != "" && ValidPort(uri.port)
  }

  /** The first valid URI with that path among the first n. */
  function FirstUri(uris: seq<Uri>, n: nat, path: string): (r: Option<Uri>)
    requires n <= |uris|
    ensures r.None? ==> forall i :: 0 <= i < n ==> !(ValidUri(uris[i]) && uris[i].path == path)
    ensures r.Some? ==> exists k :: 0 <= k < n && uris[k] == r.value && ValidUri(r.value) && r.value.path == path
                                    && forall i :: 0 <= i < k ==> !(ValidUri(uris[i]) && uris[i].path == path)
  {
    if n == 0 then None
    else
      var before := FirstUri(uris, n - 1, path);
      if before.Some? then before
      else if ValidUri(uris[n - 1]) && uris[n - 1].path == path then Some(uris[n - 1])
      else None
  }

  /** The last of the first n services with that hostname. */
  function LastService(services: seq<GatewayService>, n: nat, hostname: string): (r: Option<GatewayService>)
    requires n <= |services|
    ensures r.None? ==> forall i :: 0 <= i < n ==> services[i].hostname != hostname
    ensures r.Some? ==> exists k :: 0 <= k < n && services[k] == r.value && r.value.hostname == hostname
                                    && forall i :: k < i < n ==> services[i].hostname != hostname
  {
    if n == 0 then None
    else if services[n - 1].hostname == hostname then Some(services[n - 1])
    else LastService(services, n - 1, hostname)
  }

  function Scan(services: seq<GatewayService>, hostname: string, path: string): Option<Uri> {
    var service := LastService(services, |services|, hostname);
    if service.None? then None else FirstUri(service.value.uris, |service.value.uris|, path)
  }

  // ----- The index -----

  /** The paths after the first n URIs. */
  function UriMap(uris: seq<Uri>, n: nat): PathMap
    requires n <= |uris|
  {
    if n == 0 then map[]
    else
      var before := UriMap(uris, n - 1);
      var uri := uris[n - 1];
      if uri.host == "" || uri.port <= 0 || uri.port > 65535 then before
      else Emplace(before, uri.path, Target(uri.host, Narrow(uri.port)))
  }

  /** The hosts after the first n services. */
  function Hosts(services: seq<GatewayService>, n: nat): HostMap
    requires n <= |services|
  {
    if n == 0 then map[]
    else Hosts(services, n - 1)[services[n - 1].hostname := UriMap(services[n - 1].uris, |services[n - 1].uris|)]
  }

  function HostMapOf(endPoint: GatewayEndPoint): HostMap {
    Hosts(endPoint.services, |endPoint.services|)
  }

  method BuildUriMap(uris: seq<Uri>) returns (uriMap: PathMap)
    ensures uriMap == UriMap(uris, |uris|)
  {
    uriMap := map[];
    var i := 0;
    while i < |uris|
      invariant i <= |uris| && uriMap == UriMap(uris, i)
    {
      var uri := uris[i];
      i := i + 1;
      if uri.host == "" {
        continue;
      }
      if uri.port <= 0 || uri.port > 65535 {
        continue;
      }
      uriMap := Emplace(uriMap, uri.path, Target(uri.host, Narrow(uri.port)));
    }
  }

  method BuildHostMap(endPoint: GatewayEndPoint) returns (hostMap: HostMap)
    ensures hostMap == HostMapOf(endPoint)
  {
    hostMap := map[];
    var i := 0;
    while i < |endPoint.services|
      invariant i <= |endPoint.services| && hostMap == Hosts(endPoint.services, i)
    {
      var uriMap := BuildUriMap(endPoint.services[i].uris);
      hostMap := hostMap[endPoint.services[i].hostname := uriMap];
      i := i + 1;
    }
  }

  // ----- The index agrees with the scan -----

  function TargetOf(uri: Option<Uri>): Option<Target> {
    if uri.None? then None else Some(Target(uri.value.host, uri.value.port))
  }

  lemma {:induction false} UriMapIsScan(uris: seq<Uri>, n: nat, path: string)
    requires n <= |uris|
    ensures (if path in UriMap(uris, n) then Some(UriMap(uris, n)[path]) else None) == TargetOf(FirstUri(uris, n, path))
  {
    if n > 0 {
      UriMapIsScan(uris, n - 1, path);
    }
  }

  lemma {:induction false} HostsAreLastServices(services: seq<GatewayService>, n: nat, hostname: string)
    requires n <= |services|
    ensures var service := LastService(services, n, hostname);
            && (hostname in Hosts(services, n) <==> service.Some?)
            && (service.Some? ==> Hosts(services, n)[hostname] == UriMap(service.value.uris, |service.value.uris|))
  {
    if n > 0 {
      HostsAreLastServices(services, n - 1, hostname);
    }
  }

  function Lookup(hostMap: HostMap, hostname: string, path: string): Option<Target> {
    if hostname in hostMap && path in hostMap[hostname] then Some(hostMap[hostname][path]) else None
  }

  /**
    Looking up a host and a path gives what the scan finds: the first valid URI
    with that path in the last service with that hostname, its port unharmed by
    the narrowing cast, and nothing when there is none.
   */
  lemma LookupIsScan(endPoint: GatewayEndPoint, hostname: string, path: string)
    ensures Lookup(HostMapOf(endPoint), hostname, path) == TargetOf(Scan(endPoint.services, hostname, path))
  {
    HostsAreLastServices(endPoint.services, |endPoint.services|, hostname);
    var service := LastService(endPoint.services, |endPoint.services|, hostname);
    if service.Some? {
      UriMapIsScan(service.value.uris, |service.value.uris|, path);
    }
  }

  /** Every stored target has a host and a valid port, as some URI of the endpoint spells them. */
  lemma StoredTargetsAreSafe(endPoint: GatewayEndPoint, hostname: string, path: string)
    requires hostname in HostMapOf(endPoint) && path in HostMapOf(endPoint)[hostname]
    ensures var target := HostMapOf(endPoint)[hostname][path];
            && target.host != "" && ValidPort(target.port)
            && exists s, u :: s in endPoint.services && u in s.uris && s.hostname == hostname && u.path == path
                              && target == Target(u.host, u.port)
  {
    LookupIsScan(endPoint, hostname, path);
    var service := LastService(endPoint.services, |endPoint.services|, hostname).value;
    var uri := FirstUri(service.uris, |service.uris|, path).value;
    assert service in endPoint.services && uri in service.uris;
  }
}
