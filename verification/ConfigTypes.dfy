/**
  The configuration records (src/config/ConfigTypes.h, src/config/ApiGatewayConfig.h)
  and their resolved forms.  Function pointers and handler pointers are numbers,
  with 0 for null.
 */
module ConfigTypes {
  import opened Wrappers

  type Pointer = nat

  // ----- Proxy section -----

  datatype Service = Service(name: string, host: string, port: int, weight: int, sourceHostname: string)

  datatype EndPoint = EndPoint(name: string, proxyPort: int, readWrite: bool, services: seq<Service>,
                               ipAddress: string, handler: string, pipeline: string, strategy: string)

  datatype Cluster = Cluster(name: string, endPoints: seq<EndPoint>)

  datatype ProxyConfig = ProxyConfig(clusters: seq<Cluster>, handlers: seq<string>)

  function EndPointsUpTo(clusters: seq<Cluster>, n: nat): seq<EndPoint>
    requires n <= |clusters|
  {
    if n == 0 then [] else EndPointsUpTo(clusters, n - 1) + clusters[n - 1].endPoints
  }

  /** Every endpoint of the clusters, in the order both the edit and the resolution visit them. */
  function EndPoints(clusters: seq<Cluster>): seq<EndPoint> {
    EndPointsUpTo(clusters, |clusters|)
  }

  predicate ValidPort(port: int) {
    0 < port <= 65535
  }

  // ----- Protocol section -----

  datatype RouteAuth = RouteAuth(required: bool, authorization: string)

  datatype Route = Route(path: string, httpMethod: string, requestHandler: string, auth: RouteAuth)

  datatype Authorization = Authorization(strategy: string, handler: string, data: string)

  datatype Auth = Auth(strategy: string, handler: string, authorization: Option<Authorization>)

  datatype ProtocolServer = ProtocolServer(name: string, port: int, pipeline: string, handler: string,
                                           auth: Option<Auth>, routes: seq<Route>)

  // ----- Gateway section -----

  datatype Uri = Uri(path: string, host: string, port: int)

  datatype GatewayService = GatewayService(hostname: string, uris: seq<Uri>)

  datatype GatewayEndPoint = GatewayEndPoint(name: string, port: int, pipeline: string, services: seq<GatewayService>)

  // ----- Fields without an initialiser -----

  /**
    The integers of these records have no initialiser, so a field the document
    does not mention keeps whatever was in memory.  Each Junk value is one such
    memory content per record, per position in its list; nothing is assumed of it.
   */
  datatype ServiceJunk = ServiceJunk(port: int, weight: int)

  datatype EndPointJunk = EndPointJunk(proxyPort: int, service: nat -> ServiceJunk)

  datatype ClusterJunk = ClusterJunk(endPoint: nat -> EndPointJunk)

  datatype GatewayServiceJunk = GatewayServiceJunk(uriPort: nat -> int)

  datatype GatewayEndPointJunk = GatewayEndPointJunk(port: int, service: nat -> GatewayServiceJunk)

  datatype Junk = Junk(cluster: nat -> ClusterJunk, protocolPort: nat -> int, gateway: nat -> GatewayEndPointJunk)

  // ----- Resolved forms -----

  datatype ResolvedService = ResolvedService(ipAddress: string, port: int, readWrite: bool, alias: string,
                                             reserved: int, weight: int, sourceHostname: string)

  datatype Strategy = RoundRobin | Random | WeightedRoundRobin

  datatype ResolvedProxy = ResolvedProxy(name: string, proxyPort: int, pipelineName: string, pipeline: Pointer,
                                         handler: Pointer, services: seq<ResolvedService>, strategy: Option<Strategy>)

  datatype TargetConfig = TargetConfig(name: string, proxyPort: int, services: seq<ResolvedService>)

  /** The operation document of /updateService. */
  datatype ServiceEdit = ServiceEdit(name: string, operation: string, service: Service)

  lemma {:induction false} EndPointsGrow(clusters: seq<Cluster>, i: nat, n: nat)
    requires i <= n <= |clusters|
    ensures EndPointsUpTo(clusters, i) <= EndPointsUpTo(clusters, n)
  {
    if i < n {
      EndPointsGrow(clusters, i, n - 1);
    }
  }

  /** Where a cluster's endpoints stand among all endpoints. */
  lemma ClusterBounds(clusters: seq<Cluster>, i: nat)
    requires i < |clusters|
    ensures |EndPointsUpTo(clusters, i)| + |clusters[i].endPoints| ==
            |EndPointsUpTo(clusters, i + 1)| <= |EndPoints(clusters)|
    ensures forall j :: 0 <= j < |clusters[i].endPoints| ==>
              EndPoints(clusters)[|EndPointsUpTo(clusters, i)| + j] == clusters[i].endPoints[j]
  {
    EndPointsGrow(clusters, i + 1, |clusters|);
  }
}
