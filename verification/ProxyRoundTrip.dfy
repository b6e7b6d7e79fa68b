/**
  A proxy configuration written as a document, and the proof that the loader
  reads it back unchanged whatever was in memory before.
 */
module ProxyRoundTrip {
  import opened Wrappers
  import opened Xml
  import opened ConfigTypes
  import opened Decimal
  import opened ProxyParser
  import ConfigLoad

  function Leaf(tag: string, text: string): Element {
    Element(tag, map[], if text == "" then None else Some(text), [])
  }

  function RenderService(s: Service): Element {
    Element("SERVICE", map["name" := s.name, "weight" := SignedNumeral(s.weight)], None,
            [Leaf("HOST", s.host), Leaf("PORT", SignedNumeral(s.port)), Leaf("SOURCE_HOSTNAME", s.sourceHostname)])
  }

  function RenderServices(ss: seq<Service>): seq<Element> {
    seq(|ss|, i requires 0 <= i < |ss| => RenderService(ss[i]))
  }

  function RenderEndPoint(p: EndPoint): Element {
    Element("END_POINT", map["name" := p.name], None,
            [Leaf("READ_WRITE", if p.readWrite then "yes" else "no"),
             Leaf("PROXY_PORT", SignedNumeral(p.proxyPort)),
             Leaf("PIPELINE", p.pipeline),
             Leaf("HANDLER", p.handler),
             Leaf("loadbalancer-strategy", p.strategy),
             Element("SERVICES", map[], None, RenderServices(p.services))])
  }

  function RenderEndPoints(ps: seq<EndPoint>): seq<Element> {
    seq(|ps|, i requires 0 <= i < |ps| => RenderEndPoint(ps[i]))
  }

  function RenderCluster(c: Cluster): Element {
    Element("CLUSTER", map["name" := c.name], None, [Element("END_POINTS", map[], None, RenderEndPoints(c.endPoints))])
  }

  function RenderClusters(cs: seq<Cluster>): seq<Element> {
    seq(|cs|, i requires 0 <= i < |cs| => RenderCluster(cs[i]))
  }

  function Render(config: ProxyConfig): Element {
    Element("clickhouse-proxy-v2", map[], None, [Element("CLUSTERS", map[], None, RenderClusters(config.clusters))])
  }

  // ----- What a document can express -----

  predicate IsInt(n: int) {
    INT_MIN <= n <= INT_MAX
  }

  predicate CanonicalEndPoint(p: EndPoint) {
    && ValidPort(p.proxyPort)
    && p.ipAddress == ""
    && forall s :: s in p.services ==> IsInt(s.port) && IsInt(s.weight)
  }

  /** Valid proxy ports, int-sized numbers, and the fields no document sets at their defaults. */
  predicate Canonical(config: ProxyConfig) {
    && config.handlers == []
    && forall c, p :: c in config.clusters && p in c.endPoints ==> CanonicalEndPoint(p)
  }

  /** The reader turns the numeral of every int back into that int. */
  ghost predicate ReadsNumerals(reader: Reader) {
    forall n :: IsInt(n) ==>
      reader.toInt(SignedNumeral(n)) == Some(n) && reader.stoi(SignedNumeral(n)) == Some(n)
  }

  /** The strtol rule is such a reader. */
  lemma StoiReadsNumerals(markup: Element -> string)
    ensures ReadsNumerals(Reader(Stoi, Stoi, markup))
  {
    forall n | IsInt(n)
      ensures Stoi(SignedNumeral(n)) == Some(n)
    {
      StoiOfNumeral(n);
    }
  }

  // ----- Level by level -----

  lemma {:induction false} AllTagged(cs: seq<Element>, tag: string, n: nat)
    requires n <= |cs| && forall e :: e in cs ==> e.tag == tag
    ensures TaggedUpTo(cs, tag, n) == cs[..n]
  {
    if n > 0 {
      AllTagged(cs, tag, n - 1);
      assert cs[n - 1] in cs;
    }
  }

  lemma {:induction false} NoneTagged(cs: seq<Element>, tag: string, n: nat)
    requires n <= |cs| && forall j :: 0 <= j < n ==> cs[j].tag != tag
    ensures TaggedUpTo(cs, tag, n) == []
  {
    if n > 0 {
      NoneTagged(cs, tag, n - 1);
    }
  }

  lemma FirstChildIs(e: Element, k: nat)
    requires k < |e.children| && forall j :: 0 <= j < k ==> e.children[j].tag != e.children[k].tag
    ensures FirstChild(e, e.children[k].tag) == Some(e.children[k])
  {
    NoneTagged(e.children, e.children[k].tag, k);
    TaggedGrows(e.children, e.children[k].tag, k + 1, |e.children|);
  }

  lemma ServiceRoundTrip(s: Service, reader: Reader, junk: ServiceJunk)
    requires IsInt(s.port) && IsInt(s.weight) && ReadsNumerals(reader)
    ensures ServiceFrom(RenderService(s), reader, junk) == s
    ensures WellFormedService(RenderService(s), reader)
  {
    var e := RenderService(s);
    assert "HOST"[0] != "PORT"[0] && "HOST"[0] != "SOURCE_HOSTNAME"[0] && "PORT"[0] != "SOURCE_HOSTNAME"[0];
    FirstChildIs(e, 0);
    FirstChildIs(e, 1);
    FirstChildIs(e, 2);
    assert "name"[0] != "weight"[0];
    assert SignedNumeral(s.port) != "";
  }

  lemma EndPointChildren(p: EndPoint)
    ensures var e := RenderEndPoint(p);
            && FirstChild(e, "READ_WRITE") == Some(e.children[0])
            && FirstChild(e, "PROXY_PORT") == Some(e.children[1])
            && FirstChild(e, "PIPELINE") == Some(e.children[2])
            && FirstChild(e, "HANDLER") == Some(e.children[3])
            && FirstChild(e, "loadbalancer-strategy") == Some(e.children[4])
            && FirstChild(e, "SERVICES") == Some(e.children[5])
  {
    var e := RenderEndPoint(p);
    assert "READ_WRITE"[0] == 'R' && "PROXY_PORT"[0] == 'P' && "PIPELINE"[0] == 'P';
    assert "HANDLER"[0] == 'H' && "loadbalancer-strategy"[0] == 'l' && "SERVICES"[0] == 'S';
    assert "PROXY_PORT"[1] == 'R' && "PIPELINE"[1] == 'I';
    FirstChildIs(e, 0);
    FirstChildIs(e, 1);
    FirstChildIs(e, 2);
    FirstChildIs(e, 3);
    FirstChildIs(e, 4);
    FirstChildIs(e, 5);
  }

  lemma ServicesRoundTrip(ss: seq<Service>, reader: Reader, junk: EndPointJunk)
    requires ReadsNumerals(reader) && forall s :: s in ss ==> IsInt(s.port) && IsInt(s.weight)
    ensures Tagged(RenderServices(ss), "SERVICE") == RenderServices(ss)
    ensures ServicesFrom(RenderServices(ss), reader, junk) == ss
    ensures forall e :: e in RenderServices(ss) ==> WellFormedService(e, reader)
  {
    var es := RenderServices(ss);
    AllTagged(es, "SERVICE", |es|);
    forall i | 0 <= i < |es|
      ensures ServiceFrom(es[i], reader, junk.service(i)) == ss[i]
      ensures WellFormedService(es[i], reader)
    {
      assert ss[i] in ss;
      ServiceRoundTrip(ss[i], reader, junk.service(i));
    }
  }

  lemma EndPointRoundTrip(p: EndPoint, reader: Reader, junk: EndPointJunk)
    requires CanonicalEndPoint(p) && ReadsNumerals(reader)
    ensures WellFormedEndPoint(RenderEndPoint(p), reader)
    ensures EndPointFrom(RenderEndPoint(p), reader, junk) == p
  {
    EndPointChildren(p);
    ServicesRoundTrip(p.services, reader, junk);
    assert ServicesOf(RenderEndPoint(p)) == RenderServices(p.services);
    assert "yes"[0] != "no"[0];
    assert SignedNumeral(p.proxyPort) != "";
  }

  lemma EndPointsRoundTrip(ps: seq<EndPoint>, reader: Reader, junk: ClusterJunk)
    requires ReadsNumerals(reader) && forall p :: p in ps ==> CanonicalEndPoint(p)
    ensures Tagged(RenderEndPoints(ps), "END_POINT") == RenderEndPoints(ps)
    ensures EndPointsFrom(RenderEndPoints(ps), reader, junk) == ps
    ensures forall i :: 0 <= i < |ps| ==> WellFormedEndPoint(RenderEndPoints(ps)[i], reader)
  {
    var es := RenderEndPoints(ps);
    AllTagged(es, "END_POINT", |es|);
    forall i | 0 <= i < |es|
      ensures EndPointsFrom(es, reader, junk)[i] == ps[i]
      ensures WellFormedEndPoint(es[i], reader)
    {
      EndPointAtRoundTrip(ps, i, reader, junk);
    }
  }

  lemma EndPointAtRoundTrip(ps: seq<EndPoint>, i: nat, reader: Reader, junk: ClusterJunk)
    requires ReadsNumerals(reader) && i < |ps| && forall p :: p in ps ==> CanonicalEndPoint(p)
    ensures EndPointsFrom(RenderEndPoints(ps), reader, junk)[i] == ps[i]
    ensures WellFormedEndPoint(RenderEndPoints(ps)[i], reader)
  {
    assert ps[i] in ps;
    EndPointRoundTrip(ps[i], reader, junk.endPoint(i));
  }

  lemma ClusterRoundTrip(c: Cluster, reader: Reader, junk: ClusterJunk)
    requires ReadsNumerals(reader) && forall p :: p in c.endPoints ==> CanonicalEndPoint(p)
    ensures forall p :: p in EndPointsOf(RenderCluster(c)) ==> WellFormedEndPoint(p, reader)
    ensures ClusterFrom(RenderCluster(c), reader, junk) == c
  {
    FirstChildIs(RenderCluster(c), 0);
    EndPointsRoundTrip(c.endPoints, reader, junk);
    assert EndPointsOf(RenderCluster(c)) == RenderEndPoints(c.endPoints);
  }

  lemma ClustersRoundTrip(cs: seq<Cluster>, reader: Reader, junk: nat -> ClusterJunk)
    requires ReadsNumerals(reader) && forall c, p :: c in cs && p in c.endPoints ==> CanonicalEndPoint(p)
    ensures Tagged(RenderClusters(cs), "CLUSTER") == RenderClusters(cs)
    ensures ClustersFrom(RenderClusters(cs), reader, junk) == cs
    ensures forall e, p :: e in RenderClusters(cs) && p in EndPointsOf(e) ==> WellFormedEndPoint(p, reader)
  {
    var es := RenderClusters(cs);
    AllTagged(es, "CLUSTER", |es|);
    forall i | 0 <= i < |es|
      ensures ClusterFrom(es[i], reader, junk(i)) == cs[i]
      ensures forall p :: p in EndPointsOf(es[i]) ==> WellFormedEndPoint(p, reader)
    {
      assert cs[i] in cs;
      ClusterRoundTrip(cs[i], reader, junk(i));
    }
  }

  /** Loading the rendering of a configuration succeeds and gives back exactly that configuration. */
  lemma RoundTrip(config: ProxyConfig, reader: Reader, junk: Junk)
    requires Canonical(config) && ReadsNumerals(reader)
    ensures FirstStop(Checks(Render(config), reader)) == Go
    ensures ConfigFrom(Render(config), reader, junk) == config
  {
    var root := Render(config);
    FirstChildIs(root, 0);
    ClustersRoundTrip(config.clusters, reader, junk.cluster);
    assert ClustersOf(root) == RenderClusters(config.clusters);
    AcceptedExactlyWhenWellFormed(root, reader);
  }

  // ----- The document of a service edit -----

  function RenderEdit(edit: ServiceEdit): Element {
    Element("", map[], None,
            [Element("end_point", map["name" := edit.name], None,
                     [Leaf("operation", edit.operation),
                      Element("service", map["name" := edit.service.name], None,
                              [Leaf("host", edit.service.host), Leaf("port", SignedNumeral(edit.service.port))])])])
  }

  /**
    An edit document is read back as the edit it was written from, except that
    it cannot carry a weight or a source hostname: the weight of a service added
    this way is always whatever was in memory.
   */
  lemma EditRoundTrip(edit: ServiceEdit, reader: Reader, junk: ServiceJunk)
    requires (edit.operation == "add" || edit.operation == "delete") && IsInt(edit.service.port)
             && ReadsNumerals(reader)
    ensures ConfigLoad.EditFrom(ConfigLoad.Parsed(RenderEdit(edit)), reader, junk) ==
            Some(edit.(service := edit.service.(weight := junk.weight, sourceHostname := "")))
  {
    var document := RenderEdit(edit);
    FirstChildIs(document, 0);
    var endPoint := document.children[0];
    assert "operation"[0] != "service"[0];
    FirstChildIs(endPoint, 0);
    FirstChildIs(endPoint, 1);
    var service := endPoint.children[1];
    assert "host"[0] != "port"[0];
    FirstChildIs(service, 0);
    FirstChildIs(service, 1);
    assert edit.operation != "" && SignedNumeral(edit.service.port) != "";
  }
}
