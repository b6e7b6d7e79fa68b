/** From startup through any run of update requests: which sockets follow the stored configuration. */
module Lifetime {
  import opened Wrappers
  import opened Xml
  import opened ConfigTypes
  import opened PipelineFactory
  import opened Resolution
  import opened Sockets
  import opened ConfigSingleton
  import opened ProxyServer
  import opened HotReload
  import opened Startup
  import opened Conservation
  import opened Answers
  import ProxyParser
  import ProtocolParser

  /** Some endpoint of that name was stored at startup whose pipeline is not the libuv one. */
  predicate TrackedName(ps: seq<EndPoint>, name: string) {
    exists i :: 0 <= i < |ps| && ps[i].name == name && ps[i].pipeline != "ClickHouseLibuvPipeline"
  }

  /** After a successful startup exactly the tracked names are mapped. */
  lemma BootMapsTrackedNames(plane: Plane, libraries: seq<Library>, env: Env, engine: Engine, name: string)
    requires plane.live == map[] && Boot(plane, libraries, env, engine).1 == Some(0)
    ensures name in Boot(plane, libraries, env, engine).0.live <==> TrackedName(Stored(plane), name)
  {
    var ps := Stored(plane);
    ResolveAllMeaning(ps, libraries, env, plane.cache);
    var rs := ResolveAll(ps, libraries, env, plane.cache).1.value;
    StartupStopsAtFirstFailure(map[], rs, engine);
    assert MappedAfter(map[], rs, |rs|, engine, name, Boot(plane, libraries, env, engine).0.live);
    assert forall i :: 0 <= i < |ps| ==> Resolves(rs[i], ps[i]);
  }

  /** Startup returns 0 exactly when every stored endpoint can be resolved and starts. */
  lemma BootSucceedsExactly(plane: Plane, libraries: seq<Library>, env: Env, engine: Engine)
    ensures Boot(plane, libraries, env, engine).1 == Some(0) <==>
            && AllResolvable(Stored(plane), libraries, env, plane.cache)
            && forall i :: 0 <= i < |Stored(plane)| ==> Starts(Stored(plane)[i], i, engine)
    ensures Boot(plane, libraries, env, engine).1.None? <==> !AllResolvable(Stored(plane), libraries, env, plane.cache)
  {
    ResolvesExactlyWhen(Stored(plane), |Stored(plane)|, libraries, env, plane.cache);
    if Boot(plane, libraries, env, engine).1.Some? {
      BootCodeIs(plane, libraries, env, engine);
    }
  }

  /**
    The whole life of the proxy: a successful startup, then any calls, the last
    of which was answered ok.  Every name tracked at startup and still stored has
    a socket that balances over the services of the last stored endpoint of that
    name; a name with only libuv endpoints at startup, or none, never gets a
    socket, whatever later documents say of it.
   */
  lemma LiveSocketsFollowTheStore(plane: Plane, env: Env, engine: Engine, planes: seq<Plane>, answers: seq<Answer>,
                                  calls: seq<Call>, world: World, name: string)
    requires IsRun(planes, answers, calls, world)
    requires plane.live == map[] && Boot(plane, world.libraries, env, engine).0 == planes[0]
             && Boot(plane, world.libraries, env, engine).1 == Some(0)
    requires calls != [] && answers[|calls| - 1] == Ok
    ensures var after := planes[|calls|];
            && (name in after.live <==> TrackedName(Stored(plane), name))
            && (name in after.live && Names(Stored(after), name) ==>
                  && LastNamed(Stored(after), |Stored(after)|, name).Some?
                  && after.live[name].servers == Targets(LastEndPoint(after, name)))
  {
    BootMapsTrackedNames(plane, world.libraries, env, engine, name);
    Reconciliation(planes, answers, calls, world, |calls|, name);
    var after := planes[|calls|];
    if name in after.live && Names(Stored(after), name) {
      LastOkMeansInStep(planes, answers, calls, world, name);
    }
  }

  // ----- From the elements of a document to the sockets -----

  /** The END_POINT elements of the first n clusters, in document order. */
  function EndPointElements(clusters: seq<Element>, n: nat): seq<Element>
    requires n <= |clusters|
  {
    if n == 0 then [] else EndPointElements(clusters, n - 1) + ProxyParser.EndPointsOf(clusters[n - 1])
  }

  function AllEndPointElements(root: Element): seq<Element> {
    EndPointElements(ProxyParser.ClustersOf(root), |ProxyParser.ClustersOf(root)|)
  }

  /** The endpoint is what this element says, up to what was in memory. */
  ghost predicate ReadFrom(p: EndPoint, e: Element, reader: Reader) {
    exists junk: EndPointJunk :: p == ProxyParser.EndPointFrom(e, reader, junk)
  }

  ghost predicate Pairwise<A, B>(xs: seq<A>, ys: seq<B>, related: (A, B) -> bool) {
    |xs| == |ys| && forall i :: 0 <= i < |xs| ==> related(xs[i], ys[i])
  }

  lemma PairwiseAppend<A, B>(a: seq<A>, b: seq<B>, c: seq<A>, d: seq<B>, related: (A, B) -> bool)
    requires Pairwise(a, b, related) && Pairwise(c, d, related)
    ensures Pairwise(a + c, b + d, related)
  {
  }

  ghost function ReadBy(reader: Reader): (EndPoint, Element) -> bool {
    (p, e) => ReadFrom(p, e, reader)
  }

  ghost predicate AllReadFrom(ps: seq<EndPoint>, es: seq<Element>, reader: Reader) {
    Pairwise(ps, es, ReadBy(reader))
  }

  lemma ClusterIsRead(e: Element, reader: Reader, junk: ClusterJunk)
    ensures AllReadFrom(ProxyParser.ClusterFrom(e, reader, junk).endPoints, ProxyParser.EndPointsOf(e), reader)
  {
    var es, ps := ProxyParser.EndPointsOf(e), ProxyParser.ClusterFrom(e, reader, junk).endPoints;
    forall i | 0 <= i < |ps|
      ensures ReadFrom(ps[i], es[i], reader)
    {
      assert ps[i] == ProxyParser.EndPointFrom(es[i], reader, junk.endPoint(i));
    }
  }

  lemma {:induction false} ClustersAreRead(clusters: seq<Cluster>, es: seq<Element>, n: nat, reader: Reader)
    requires n <= |clusters| == |es|
    requires forall i :: 0 <= i < n ==> AllReadFrom(clusters[i].endPoints, ProxyParser.EndPointsOf(es[i]), reader)
    ensures AllReadFrom(EndPointsUpTo(clusters, n), EndPointElements(es, n), reader)
  {
    if n > 0 {
      ClustersAreRead(clusters, es, n - 1, reader);
      PairwiseAppend(EndPointsUpTo(clusters, n - 1), EndPointElements(es, n - 1),
                     clusters[n - 1].endPoints, ProxyParser.EndPointsOf(es[n - 1]), ReadBy(reader));
    }
  }

  lemma EndPointsAreRead(es: seq<Element>, reader: Reader, junk: nat -> ClusterJunk)
    ensures AllReadFrom(EndPoints(ProxyParser.ClustersFrom(es, reader, junk)), EndPointElements(es, |es|), reader)
  {
    var clusters := ProxyParser.ClustersFrom(es, reader, junk);
    forall i | 0 <= i < |es|
      ensures AllReadFrom(clusters[i].endPoints, ProxyParser.EndPointsOf(es[i]), reader)
    {
      ClusterIsRead(es[i], reader, junk(i));
    }
    ClustersAreRead(clusters, es, |es|, reader);
  }

  /** The server is what this SERVICE element says, field by field. */
  predicate ServesService(r: ResolvedService, e: Element, readWrite: bool, reader: Reader) {
    && r.ipAddress == ChildText(e, "HOST") && r.sourceHostname == ChildText(e, "SOURCE_HOSTNAME")
    && ProxyParser.Reads(FirstChild(e, "PORT"), reader, r.port)
    && ("weight" in e.attrs && reader.stoi(e.attrs["weight"]).Some? ==>
        reader.stoi(e.attrs["weight"]).value == r.weight)
    && r.readWrite == readWrite && r.alias == "" && r.reserved == 0
  }

  /** The list holds the SERVICE elements of this END_POINT element, in document order. */
  ghost predicate ServesElement(servers: seq<ResolvedService>, e: Element, reader: Reader) {
    var ss := ProxyParser.ServicesOf(e);
    && |servers| == |ss|
    && forall k :: 0 <= k < |ss| ==> ServesService(servers[k], ss[k], ChildText(e, "READ_WRITE") == "yes", reader)
  }

  /** No later element has that name. */
  predicate LastElement(es: seq<Element>, j: nat, name: string)
    requires j < |es|
  {
    AttributeOrEmpty(es[j], "name") == name && forall i :: j < i < |es| ==> AttributeOrEmpty(es[i], "name") != name
  }

  /** The socket of that name serves the last element of the name, or is as it was when there is none. */
  ghost predicate Served(live: Live, after: Live, es: seq<Element>, name: string, reader: Reader) {
    && (forall j :: 0 <= j < |es| && LastElement(es, j, name) ==>
          name in after && ServesElement(after[name].servers, es[j], reader))
    && ((forall j :: 0 <= j < |es| ==> AttributeOrEmpty(es[j], "name") != name) && name in live ==>
          name in after && after[name] == live[name])
  }

  lemma TargetsOfElement(p: EndPoint, e: Element, reader: Reader)
    requires ReadFrom(p, e, reader)
    ensures ServesElement(Targets(p), e, reader)
  {
    var junk: EndPointJunk :| p == ProxyParser.EndPointFrom(e, reader, junk);
    ProxyParser.EndPointIsRead(e, reader, junk);
    OneCarries(p, Targets(p), TargetOf(p));
    CarriedIsServed(Targets(p), p, e, reader);
  }

  lemma CarriedIsServed(servers: seq<ResolvedService>, p: EndPoint, e: Element, reader: Reader)
    requires AllCarry(servers, p.services, p.readWrite) && ProxyParser.EndPointReads(p, e, reader)
    ensures ServesElement(servers, e, reader)
  {
    var ss := ProxyParser.ServicesOf(e);
    forall k | 0 <= k < |ss|
      ensures ServesService(servers[k], ss[k], ChildText(e, "READ_WRITE") == "yes", reader)
    {
      assert Carries(servers[k], p.services[k], p.readWrite) && ProxyParser.ServiceReads(p.services[k], ss[k], reader);
    }
  }

  lemma NamesAreAttributes(ps: seq<EndPoint>, es: seq<Element>, reader: Reader)
    requires AllReadFrom(ps, es, reader)
    ensures forall i :: 0 <= i < |ps| ==> ps[i].name == AttributeOrEmpty(es[i], "name")
  {
    forall i | 0 <= i < |ps|
      ensures ps[i].name == AttributeOrEmpty(es[i], "name")
    {
      assert ReadBy(reader)(ps[i], es[i]);
    }
  }

  /** What an ok outcome means for a socket, with the last endpoint of its name at j. */
  lemma OkAt(live: Live, after: Plane, engine: Engine, name: string, j: nat)
    requires name in live && Outcome(live, after, Ok, engine, name) && j < |Stored(after)|
             && Stored(after)[j].name == name
    requires forall i :: j < i < |Stored(after)| ==> Stored(after)[i].name != name
    ensures name in after.live && after.live[name].servers == Targets(Stored(after)[j])
  {
    assert LastNamed(Stored(after), |Stored(after)|, name) == Some(j);
  }

  lemma OkServes(live: Live, after: Plane, engine: Engine, es: seq<Element>, name: string, reader: Reader)
    requires name in live && Outcome(live, after, Ok, engine, name) && AllReadFrom(Stored(after), es, reader)
    ensures Served(live, after.live, es, name, reader)
  {
    var ps := Stored(after);
    NamesAreAttributes(ps, es, reader);
    forall j | 0 <= j < |es| && LastElement(es, j, name)
      ensures name in after.live && ServesElement(after.live[name].servers, es[j], reader)
    {
      OkAt(live, after, engine, name, j);
      assert ReadBy(reader)(ps[j], es[j]);
      TargetsOfElement(ps[j], es[j], reader);
    }
  }

  /**
    A document with a well-formed proxy section, answered ok: every tracked
    socket balances over the services of the last END_POINT element of its name,
    and a socket no element names is as it was.
   */
  lemma DocumentDrivesSockets(plane: Plane, call: Call, world: World, name: string)
    requires name in plane.live && call.request.Configure? && call.request.content.Parsed?
    requires var root := FirstChild(call.request.content.document, "clickhouse-proxy-v2");
             root.Some? && ProxyParser.WellFormed(root.value, world.reader)
    requires Step(plane, call, world).1 == Ok
    ensures var root := FirstChild(call.request.content.document, "clickhouse-proxy-v2").value;
            Served(plane.live, Step(plane, call, world).0.live, AllEndPointElements(root), name, world.reader)
  {
    var root := FirstChild(call.request.content.document, "clickhouse-proxy-v2").value;
    StoredIsRead(plane, call, world);
    StepOutcome(plane, call, world, name);
    OkServes(plane.live, Step(plane, call, world).0, call.engine, AllEndPointElements(root), name, world.reader);
  }

  lemma StoredIsRead(plane: Plane, call: Call, world: World)
    requires call.request.Configure? && call.request.content.Parsed?
    requires var root := FirstChild(call.request.content.document, "clickhouse-proxy-v2");
             root.Some? && ProxyParser.WellFormed(root.value, world.reader)
    requires Step(plane, call, world).1 == Ok
    ensures var root := FirstChild(call.request.content.document, "clickhouse-proxy-v2").value;
            AllReadFrom(Stored(Step(plane, call, world).0), AllEndPointElements(root), world.reader)
  {
    var root := FirstChild(call.request.content.document, "clickhouse-proxy-v2").value;
    OkDoesNotThrow(plane, call, world);
    WellFormedIsTakenOver(root, call, world);
    LoadedIsStored(plane, call, world);
    EndPointsAreRead(ProxyParser.ClustersOf(root), world.reader, call.request.junk.cluster);
  }

  lemma OkDoesNotThrow(plane: Plane, call: Call, world: World)
    requires call.request.Configure? && call.request.content.Parsed?
    requires Step(plane, call, world).1 == Ok
    ensures var root := FirstChild(call.request.content.document, "clickhouse-proxy-v2");
            root.Some? ==> !FirstStop(ProtocolParser.Checks(root.value, world.reader)).Throws?
  {
  }

  lemma WellFormedIsTakenOver(root: Element, call: Call, world: World)
    requires call.request.Configure? && call.request.content.Parsed?
    requires FirstChild(call.request.content.document, "clickhouse-proxy-v2") == Some(root)
    requires !FirstStop(ProtocolParser.Checks(root, world.reader)).Throws? && ProxyParser.WellFormed(root, world.reader)
    ensures TakenOver(call, world) ==
            Some(EndPoints(ProxyParser.ClustersFrom(ProxyParser.ClustersOf(root), world.reader,
                                                    call.request.junk.cluster)))
  {
    ProxyParser.AcceptedExactlyWhenWellFormed(root, world.reader);
  }
}
