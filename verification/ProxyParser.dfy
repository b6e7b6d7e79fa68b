/**
  LoadProxyServerConfigurations (src/config/ConfigParser.cpp): three nested
  cursor loops with early exits, and what they compute.
 */
module ProxyParser {
  import opened Wrappers
  import opened Xml
  import opened ConfigTypes

  // ----- What a document says -----

  function ServicesOf(endPoint: Element): seq<Element> {
    var services := FirstChild(endPoint, "SERVICES");
    if services.None? then [] else Tagged(services.value.children, "SERVICE")
  }

  function EndPointsOf(cluster: Element): seq<Element> {
    var endPoints := FirstChild(cluster, "END_POINTS");
    if endPoints.None? then [] else Tagged(endPoints.value.children, "END_POINT")
  }

  function ClustersOf(root: Element): seq<Element> {
    var clusters := FirstChild(root, "CLUSTERS");
    if clusters.None? then [] else Tagged(clusters.value.children, "CLUSTER")
  }

  function ServiceFrom(e: Element, reader: Reader, junk: ServiceJunk): Service {
    var weight := Attribute(e, "weight");
    var port := FirstChild(e, "PORT");
    Service(
      AttributeOrEmpty(e, "name"),
      ChildText(e, "HOST"),
      if port.Some? then IntText(port.value, reader) else junk.port,
      if weight.Some? && reader.stoi(weight.value).Some? then reader.stoi(weight.value).value else junk.weight,
      ChildText(e, "SOURCE_HOSTNAME"))
  }

  function ServicesFrom(es: seq<Element>, reader: Reader, junk: EndPointJunk): seq<Service> {
    seq(|es|, i requires 0 <= i < |es| => ServiceFrom(es[i], reader, junk.service(i)))
  }

  function EndPointFrom(e: Element, reader: Reader, junk: EndPointJunk): EndPoint {
    var port := FirstChild(e, "PROXY_PORT");
    EndPoint(
      AttributeOrEmpty(e, "name"),
      if port.Some? then IntText(port.value, reader) else junk.proxyPort,
      ChildText(e, "READ_WRITE") == "yes",
      ServicesFrom(ServicesOf(e), reader, junk),
      "",
      ChildText(e, "HANDLER"),
      ChildText(e, "PIPELINE"),
      ChildText(e, "loadbalancer-strategy"))
  }

  function EndPointsFrom(es: seq<Element>, reader: Reader, junk: ClusterJunk): seq<EndPoint> {
    seq(|es|, i requires 0 <= i < |es| => EndPointFrom(es[i], reader, junk.endPoint(i)))
  }

  function ClusterFrom(e: Element, reader: Reader, junk: ClusterJunk): Cluster {
    Cluster(AttributeOrEmpty(e, "name"), EndPointsFrom(EndPointsOf(e), reader, junk))
  }

  function ClustersFrom(es: seq<Element>, reader: Reader, junk: nat -> ClusterJunk): seq<Cluster> {
    seq(|es|, i requires 0 <= i < |es| => ClusterFrom(es[i], reader, junk(i)))
  }

  /** The configuration a document describes, element by element in document order. */
  function ConfigFrom(root: Element, reader: Reader, junk: Junk): ProxyConfig {
    ProxyConfig(ClustersFrom(ClustersOf(root), reader, junk.cluster), [])
  }

  // ----- The checks, in the order the loops meet them -----

  function ServiceCheck(e: Element, reader: Reader): Status {
    var port := FirstChild(e, "PORT");
    if port.None? then Go else QueryInt(port.value, reader)
  }

  function ProxyPortCheck(e: Element, reader: Reader): Status {
    var port := FirstChild(e, "PROXY_PORT");
    if port.None? then Go
    else if !QueryInt(port.value, reader).Go? then QueryInt(port.value, reader)
    else if !ValidPort(IntText(port.value, reader)) then Fail(ParsingElement)
    else Go
  }

  function ServiceChecks(es: seq<Element>, reader: Reader): seq<Status> {
    seq(|es|, i requires 0 <= i < |es| => ServiceCheck(es[i], reader))
  }

  function EndPointChecks(e: Element, reader: Reader): seq<Status> {
    [ProxyPortCheck(e, reader), if FirstChild(e, "SERVICES").Some? then Go else Fail(ParsingElement)]
    + ServiceChecks(ServicesOf(e), reader)
  }

  function EndPointGroups(es: seq<Element>, reader: Reader): seq<seq<Status>> {
    seq(|es|, i requires 0 <= i < |es| => EndPointChecks(es[i], reader))
  }

  function ClusterChecks(e: Element, reader: Reader): seq<Status> {
    Concat(EndPointGroups(EndPointsOf(e), reader))
  }

  function ClusterGroups(es: seq<Element>, reader: Reader): seq<seq<Status>> {
    seq(|es|, i requires 0 <= i < |es| => ClusterChecks(es[i], reader))
  }

  function Checks(root: Element, reader: Reader): seq<Status> {
    Concat(ClusterGroups(ClustersOf(root), reader))
  }

  // ----- The loops -----

  method LoadService(e: Element, reader: Reader, junk: ServiceJunk) returns (st: Status, service: Service)
    ensures st == ServiceCheck(e, reader)
    ensures st.Go? ==> service == ServiceFrom(e, reader, junk)
  {
    service := Service(AttributeOrEmpty(e, "name"), "", junk.port, junk.weight, "");
    var weightText := Attribute(e, "weight");
    if weightText.Some? {
      var weight := reader.stoi(weightText.value);
      if weight.Some? {
        service := service.(weight := weight.value);
      }
    }
    service := service.(host := ChildText(e, "HOST"), sourceHostname := ChildText(e, "SOURCE_HOSTNAME"));
    var portElement := FirstChild(e, "PORT");
    if portElement.Some? {
      st := QueryInt(portElement.value, reader);
      if !st.Go? {
        return;
      }
      service := service.(port := IntText(portElement.value, reader));
    }
    st := Go;
  }

  method LoadServices(cs: seq<Element>, reader: Reader, junk: EndPointJunk) returns (st: Status, services: seq<Service>)
    ensures st == FirstStop(ServiceChecks(Tagged(cs, "SERVICE"), reader))
    ensures st.Go? ==> services == ServicesFrom(Tagged(cs, "SERVICE"), reader, junk)
  {
    ghost var all := Tagged(cs, "SERVICE");
    ghost var checks := ServiceChecks(all, reader);
    ghost var target := ServicesFrom(all, reader, junk);
    services := [];
    var pos := FirstElement(cs, "SERVICE");
    while pos < |cs|
      invariant On(cs, "SERVICE", pos, |services|)
      invariant |services| <= |all| && services == target[..|services|]
      invariant FirstStop(checks[..|services|]).Go?
    {
      var service;
      st, service := LoadService(cs[pos], reader, junk.service(|services|));
      StopAt(checks, |services|);
      TakeOneMore(target, |services|);
      if !st.Go? {
        return;
      }
      services := services + [service];
      pos := NextSibling(cs, "SERVICE", pos, |services| - 1);
    }
    st := Go;
    assert checks[..|services|] == checks;
  }

  method LoadEndPoint(e: Element, reader: Reader, junk: EndPointJunk) returns (st: Status, endPoint: EndPoint)
    ensures st == FirstStop(EndPointChecks(e, reader))
    ensures st.Go? ==> endPoint == EndPointFrom(e, reader, junk)
  {
    ghost var checks := EndPointChecks(e, reader);
    ghost var own := checks[..2];
    assert own[..1] == [ProxyPortCheck(e, reader)] && checks == own + ServiceChecks(ServicesOf(e), reader);
    FirstStopAppend(own, ServiceChecks(ServicesOf(e), reader));
    StopAt(own, 0);
    endPoint := EndPoint(AttributeOrEmpty(e, "name"), junk.proxyPort, ChildText(e, "READ_WRITE") == "yes", [],
                         "", "", "", "");
    var portElement := FirstChild(e, "PROXY_PORT");
    if portElement.Some? {
      st := QueryInt(portElement.value, reader);
      if !st.Go? {
        return;
      }
      var port := IntText(portElement.value, reader);
      if port <= 0 || port > 65535 {
        st := Fail(ParsingElement);
        return;
      }
      endPoint := endPoint.(proxyPort := port);
    }
    endPoint := endPoint.(handler := ChildText(e, "HANDLER"), pipeline := ChildText(e, "PIPELINE"),
                          strategy := ChildText(e, "loadbalancer-strategy"));
    StopAt(own, 1);
    assert own[..2] == own;
    var servicesElement := FirstChild(e, "SERVICES");
    if servicesElement.None? {
      st := Fail(ParsingElement);
      return;
    }
    var services;
    st, services := LoadServices(servicesElement.value.children, reader, junk);
    endPoint := endPoint.(services := services);
  }

  method LoadEndPoints(cs: seq<Element>, reader: Reader, junk: ClusterJunk)
    returns (st: Status, endPoints: seq<EndPoint>)
    ensures st == FirstStop(Concat(EndPointGroups(Tagged(cs, "END_POINT"), reader)))
    ensures st.Go? ==> endPoints == EndPointsFrom(Tagged(cs, "END_POINT"), reader, junk)
  {
    ghost var all := Tagged(cs, "END_POINT");
    ghost var groups := EndPointGroups(all, reader);
    ghost var target := EndPointsFrom(all, reader, junk);
    endPoints := [];
    var pos := FirstElement(cs, "END_POINT");
    while pos < |cs|
      invariant On(cs, "END_POINT", pos, |endPoints|)
      invariant Collected(groups, target, endPoints)
    {
      var endPoint;
      st, endPoint := LoadEndPoint(cs[pos], reader, junk.endPoint(|endPoints|));
      CollectOneMore(groups, target, endPoints);
      if !st.Go? {
        return;
      }
      endPoints := endPoints + [endPoint];
      pos := NextSibling(cs, "END_POINT", pos, |endPoints| - 1);
    }
    st := Go;
    CollectedAll(groups, target, endPoints);
  }

  method LoadCluster(e: Element, reader: Reader, junk: ClusterJunk) returns (st: Status, cluster: Cluster)
    ensures st == FirstStop(ClusterChecks(e, reader))
    ensures st.Go? ==> cluster == ClusterFrom(e, reader, junk)
  {
    cluster := Cluster(AttributeOrEmpty(e, "name"), []);
    st := Go;
    var endPointsElement := FirstChild(e, "END_POINTS");
    if endPointsElement.Some? {
      var endPoints;
      st, endPoints := LoadEndPoints(endPointsElement.value.children, reader, junk);
      cluster := cluster.(endPoints := endPoints);
    } else {
      assert EndPointsFrom([], reader, junk) == [];
    }
  }

  method LoadClusters(cs: seq<Element>, reader: Reader, junk: nat -> ClusterJunk)
    returns (st: Status, clusters: seq<Cluster>)
    ensures st == FirstStop(Concat(ClusterGroups(Tagged(cs, "CLUSTER"), reader)))
    ensures st.Go? ==> clusters == ClustersFrom(Tagged(cs, "CLUSTER"), reader, junk)
  {
    ghost var all := Tagged(cs, "CLUSTER");
    ghost var groups := ClusterGroups(all, reader);
    ghost var target := ClustersFrom(all, reader, junk);
    clusters := [];
    var pos := FirstElement(cs, "CLUSTER");
    while pos < |cs|
      invariant On(cs, "CLUSTER", pos, |clusters|)
      invariant Collected(groups, target, clusters)
    {
      var cluster;
      st, cluster := LoadCluster(cs[pos], reader, junk(|clusters|));
      CollectOneMore(groups, target, clusters);
      if !st.Go? {
        return;
      }
      clusters := clusters + [cluster];
      pos := NextSibling(cs, "CLUSTER", pos, |clusters| - 1);
    }
    st := Go;
    CollectedAll(groups, target, clusters);
  }

  /** The reference parameter m_ProxyConfig goes in as `current` and comes out as `config`. */
  method LoadProxyServerConfigurations(root: Element, current: ProxyConfig, reader: Reader, junk: Junk)
    returns (st: Status, config: ProxyConfig)
    ensures st == FirstStop(Checks(root, reader))
    ensures config == if st.Go? then ConfigFrom(root, reader, junk) else current
  {
    config := current;
    var clustersElement := FirstChild(root, "CLUSTERS");
    if clustersElement.None? {
      config := ProxyConfig([], []);
      st := Go;
      return;
    }
    var clusters;
    st, clusters := LoadClusters(clustersElement.value.children, reader, junk.cluster);
    if st.Go? {
      config := ProxyConfig(clusters, []);
    }
  }

  // ----- Field by field -----

  /** An element with an integer text reads as that integer. */
  predicate Reads(e: Option<Element>, reader: Reader, n: int) {
    e.Some? && e.value.text.Some? ==> reader.toInt(e.value.text.value).Some? ==>
      reader.toInt(e.value.text.value).value == n
  }

  /** What a SERVICE element says of each field. */
  predicate ServiceReads(s: Service, e: Element, reader: Reader) {
    && s.name == AttributeOrEmpty(e, "name") && s.host == ChildText(e, "HOST")
    && s.sourceHostname == ChildText(e, "SOURCE_HOSTNAME")
    && Reads(FirstChild(e, "PORT"), reader, s.port)
    && ("weight" in e.attrs && reader.stoi(e.attrs["weight"]).Some? ==>
        reader.stoi(e.attrs["weight"]).value == s.weight)
  }

  /** What an END_POINT element says of each field. */
  ghost predicate EndPointReads(p: EndPoint, e: Element, reader: Reader) {
    && p.name == AttributeOrEmpty(e, "name") && (p.readWrite <==> ChildText(e, "READ_WRITE") == "yes")
    && p.pipeline == ChildText(e, "PIPELINE") && p.handler == ChildText(e, "HANDLER")
    && p.strategy == ChildText(e, "loadbalancer-strategy") && p.ipAddress == ""
    && Reads(FirstChild(e, "PROXY_PORT"), reader, p.proxyPort)
    && Under(e, "SERVICES", "SERVICE", ServicesOf(e)) && |p.services| == |ServicesOf(e)|
    && forall k :: 0 <= k < |p.services| ==> ServiceReads(p.services[k], ServicesOf(e)[k], reader)
  }

  /** What an element does not say is what was in memory. */
  lemma ServiceIsRead(e: Element, reader: Reader, junk: ServiceJunk)
    ensures ServiceReads(ServiceFrom(e, reader, junk), e, reader)
    ensures FirstChild(e, "PORT").None? ==> ServiceFrom(e, reader, junk).port == junk.port
    ensures "weight" !in e.attrs || reader.stoi(e.attrs["weight"]).None? ==>
            ServiceFrom(e, reader, junk).weight == junk.weight
  {
  }

  lemma EndPointIsRead(e: Element, reader: Reader, junk: EndPointJunk)
    ensures EndPointReads(EndPointFrom(e, reader, junk), e, reader)
    ensures FirstChild(e, "PROXY_PORT").None? ==> EndPointFrom(e, reader, junk).proxyPort == junk.proxyPort
  {
    var p, es := EndPointFrom(e, reader, junk), ServicesOf(e);
    forall k | 0 <= k < |es|
      ensures ServiceReads(p.services[k], es[k], reader)
    {
      ServiceIsRead(es[k], reader, junk.service(k));
    }
  }

  /** What a CLUSTER element says, down to its endpoints. */
  ghost predicate ClusterReads(c: Cluster, e: Element, reader: Reader) {
    var es := EndPointsOf(e);
    && c.name == AttributeOrEmpty(e, "name")
    && Under(e, "END_POINTS", "END_POINT", es) && |c.endPoints| == |es|
    && forall k :: 0 <= k < |es| ==> EndPointReads(c.endPoints[k], es[k], reader)
  }

  /** The whole section is what its elements say, in document order, field by field. */
  lemma ConfigIsRead(root: Element, reader: Reader, junk: Junk)
    ensures var config, es := ConfigFrom(root, reader, junk), ClustersOf(root);
            && config.handlers == [] && Under(root, "CLUSTERS", "CLUSTER", es) && |config.clusters| == |es|
            && forall k :: 0 <= k < |es| ==> ClusterReads(config.clusters[k], es[k], reader)
  {
    var es := ClustersOf(root);
    forall k | 0 <= k < |es|
      ensures ClusterReads(ClusterFrom(es[k], reader, junk.cluster(k)), es[k], reader)
    {
      ClusterIsRead(es[k], reader, junk.cluster(k));
    }
  }

  lemma ClusterIsRead(e: Element, reader: Reader, junk: ClusterJunk)
    ensures ClusterReads(ClusterFrom(e, reader, junk), e, reader)
  {
    var es := EndPointsOf(e);
    forall k | 0 <= k < |es|
      ensures EndPointReads(EndPointsFrom(es, reader, junk)[k], es[k], reader)
    {
      EndPointIsRead(es[k], reader, junk.endPoint(k));
    }
  }

  /** The code an integer element gives: no text, or a text that is no integer. */
  predicate BadInt(e: Element, reader: Reader, code: XmlError) {
    if e.text.None? then code == NoTextNode else reader.toInt(e.text.value).None? && code == CanNotConvertText
  }

  /** The first PORT of the services that does not read, and its code. */
  ghost predicate FirstBadPort(es: seq<Element>, reader: Reader, k: nat, code: XmlError)
    requires k < |es|
  {
    && FirstChild(es[k], "PORT").Some? && BadInt(FirstChild(es[k], "PORT").value, reader, code)
    && forall i :: 0 <= i < k ==> WellFormedService(es[i], reader)
  }

  /** PROXY_PORT does not read, or reads as no port, and its code. */
  predicate BadProxyPort(e: Element, reader: Reader, code: XmlError) {
    var port := FirstChild(e, "PROXY_PORT");
    port.Some? && (BadInt(port.value, reader, code) || (OutOfRange(port.value, reader) && code == ParsingElement))
  }

  predicate OutOfRange(e: Element, reader: Reader) {
    e.text.Some? && reader.toInt(e.text.value).Some? && !(1 <= reader.toInt(e.text.value).value <= 65535)
  }

  lemma ProxyPortCode(e: Element, reader: Reader, code: XmlError)
    ensures ProxyPortCheck(e, reader) == Fail(code) <==> BadProxyPort(e, reader, code)
    ensures ProxyPortCheck(e, reader).Go? <==> WellFormedProxyPort(e, reader)
  {
  }

  lemma EndPointStop(e: Element, reader: Reader)
    ensures FirstStop(EndPointChecks(e, reader)) ==
            if !ProxyPortCheck(e, reader).Go? then ProxyPortCheck(e, reader)
            else if FirstChild(e, "SERVICES").None? then Fail(ParsingElement)
            else FirstStop(ServiceChecks(ServicesOf(e), reader))
  {
    var port, present := ProxyPortCheck(e, reader), if FirstChild(e, "SERVICES").Some? then Go
      else Fail(ParsingElement);
    FirstStopAppend([port, present], ServiceChecks(ServicesOf(e), reader));
    assert [port, present] == [port] + [present];
    FirstStopAppend([port], [present]);
    FirstStopAppend([], [port]);
    FirstStopAppend([], [present]);
  }

  /**
    Which code one endpoint is rejected with: PROXY_PORT comes before SERVICES,
    and SERVICES before the ports in them.
   */
  lemma EndPointCode(e: Element, reader: Reader, code: XmlError)
    ensures FirstStop(EndPointChecks(e, reader)) == Fail(code) <==>
            if !WellFormedProxyPort(e, reader) then BadProxyPort(e, reader, code)
            else if FirstChild(e, "SERVICES").None? then code == ParsingElement
            else exists k :: 0 <= k < |ServicesOf(e)| && FirstBadPort(ServicesOf(e), reader, k, code)
  {
    EndPointStop(e, reader);
    ProxyPortCode(e, reader, code);
    ServicesCode(ServicesOf(e), reader, code);
  }

  lemma ServicesCode(es: seq<Element>, reader: Reader, code: XmlError)
    ensures FirstStop(ServiceChecks(es, reader)) == Fail(code) <==>
            exists k :: 0 <= k < |es| && FirstBadPort(es, reader, k, code)
  {
    var checks := ServiceChecks(es, reader);
    FirstStopIsFirst(checks);
    forall k | 0 <= k < |es|
      ensures checks[k] == Fail(code) <==>
              FirstChild(es[k], "PORT").Some? && BadInt(FirstChild(es[k], "PORT").value, reader, code)
      ensures checks[k].Go? <==> WellFormedService(es[k], reader)
    {
    }
    if FirstStop(checks) == Fail(code) {
      var k :| 0 <= k < |checks| && checks[k] == FirstStop(checks) && forall j :: 0 <= j < k ==> checks[j].Go?;
      assert FirstBadPort(es, reader, k, code);
    }
    if k :| 0 <= k < |es| && FirstBadPort(es, reader, k, code) {
      FirstStopAt(checks, k);
    }
  }

  // ----- When a document is accepted -----

  predicate WellFormedService(e: Element, reader: Reader) {
    var port := FirstChild(e, "PORT");
    port.Some? ==> port.value.text.Some? && reader.toInt(port.value.text.value).Some?
  }

  predicate WellFormedProxyPort(e: Element, reader: Reader) {
    var port := FirstChild(e, "PROXY_PORT");
    port.Some? ==>
      port.value.text.Some? && reader.toInt(port.value.text.value).Some? &&
      1 <= reader.toInt(port.value.text.value).value <= 65535
  }

  predicate WellFormedEndPoint(e: Element, reader: Reader) {
    && WellFormedProxyPort(e, reader)
    && FirstChild(e, "SERVICES").Some?
    && forall s :: s in ServicesOf(e) ==> WellFormedService(s, reader)
  }

  ghost predicate WellFormed(root: Element, reader: Reader) {
    forall c, p :: c in ClustersOf(root) && p in EndPointsOf(c) ==> WellFormedEndPoint(p, reader)
  }

  lemma ServicesAccepted(es: seq<Element>, reader: Reader)
    ensures FirstStop(ServiceChecks(es, reader)).Go? <==> forall s :: s in es ==> WellFormedService(s, reader)
  {
    var checks := ServiceChecks(es, reader);
    FirstStopIsFirst(checks);
    forall i | 0 <= i < |es|
      ensures checks[i].Go? <==> WellFormedService(es[i], reader)
      ensures es[i] in es
    {
    }
  }

  lemma EndPointAccepted(e: Element, reader: Reader)
    ensures FirstStop(EndPointChecks(e, reader)).Go? <==> WellFormedEndPoint(e, reader)
  {
    var present := if FirstChild(e, "SERVICES").Some? then Go else Fail(ParsingElement);
    var own := [ProxyPortCheck(e, reader), present];
    FirstStopAppend(own, ServiceChecks(ServicesOf(e), reader));
    ServicesAccepted(ServicesOf(e), reader);
    FirstStopIsFirst(own);
    assert own[0].Go? <==> WellFormedProxyPort(e, reader);
    assert own[1] == present;
  }

  lemma ClusterAccepted(e: Element, reader: Reader)
    ensures FirstStop(ClusterChecks(e, reader)).Go? <==>
            forall p :: p in EndPointsOf(e) ==> WellFormedEndPoint(p, reader)
  {
    var es := EndPointsOf(e);
    var groups := EndPointGroups(es, reader);
    FirstStopConcat(groups);
    forall i | 0 <= i < |es|
      ensures FirstStop(groups[i]).Go? <==> WellFormedEndPoint(es[i], reader)
    {
      EndPointAccepted(es[i], reader);
    }
  }

  /**
    The section is accepted exactly when every endpoint has SERVICES, every
    PROXY_PORT present is an integer in 1..65535 and every service PORT present
    is an integer.
   */
  lemma AcceptedExactlyWhenWellFormed(root: Element, reader: Reader)
    ensures FirstStop(Checks(root, reader)).Go? <==> WellFormed(root, reader)
  {
    var es := ClustersOf(root);
    var groups := ClusterGroups(es, reader);
    FirstStopConcat(groups);
    forall i | 0 <= i < |es|
      ensures FirstStop(groups[i]).Go? <==> forall p :: p in EndPointsOf(es[i]) ==> WellFormedEndPoint(p, reader)
    {
      ClusterAccepted(es[i], reader);
    }
  }
}
